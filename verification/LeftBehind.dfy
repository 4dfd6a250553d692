// Which productions can leave something behind that they could have taken. For arbitrary
// rows of categories there are twelve; in runs from scanned scraps there are nine
// (cweb/cweave.c:2249-2293, 2295-2942).

module LeftBehind {
  import opened Category
  import opened Productions
  import opened ProductionTable
  import opened TextStore
  import opened Reducer
  import opened ReducerRun
  import opened ReducerMath
  import opened Sight
  import opened ReducerStable
  import opened IfClauses
  import opened Healing
  import opened Fences
  import opened Scanner
  import opened Trails
  import opened StableRows
  import opened Iteration

  /** The short-sighted productions without 63, 65 and 66. */
  predicate OneOfNine(n: nat) {
    n == 7 || n == 13 || n == 44 || n == 45 || n == 46 || n == 64 || n == 67 || n == 101 || n == 111
  }

  /** The iteration at t fires production n. */
  ghost predicate FiresRule(t: State, n: nat, rules: Rules) {
    t.pp < |t.scraps| && Applies(t.scraps, t.pp, rules) && ProductionAt(t.scraps, t.pp, rules).n == n
  }

  /** Before the m-th iteration nothing applies before the cursor but what waits for an
      insertion; it fires production n, and after it something else does. */
  ghost predicate LeavesBehind(s: State, m: nat, n: nat, rules: Rules, next: State -> State) {
    TidyState(Iterate(next, s, m)) && FiresRule(Iterate(next, s, m), n, rules) && !TidyState(Iterate(next, s, m + 1))
  }

  /** In some run from scanned scraps some iteration of production n leaves something behind. */
  ghost predicate LeavesInSome(n: nat, rules: Rules, next: State -> State) {
    exists s: State, leaves: seq<Leaf>, m: nat :: FromScanner(s, leaves) && LeavesBehind(s, m, n, rules, next)
  }

  // ---------- no others

  // Only one of the nine makes a row untidy, if no if clause stands behind a preprocessor mark.
  lemma NineLeave(cats: seq<Category>, pp: nat, p: Production, now: seq<Category>, forceLines: bool)
    requires FallsShort(cats, pp, p, now, forceLines) && MarkFreeAt(cats, pp)
    ensures OneOfNine(p.n)
  {
    if !ShortSighted(p.n) {
      StepTidy(cats, pp, p, now, forceLines);
    } else if !OneOfNine(p.n) {
      IfRules(cats[pp], Peek(cats, pp + 1), Peek(cats, pp + 2), Peek(cats, pp + 3), p, forceLines);
      forall i | 0 <= i < Moved(pp, p.d) && i < |now| && FiresAt(now, i)
        ensures Waits(now, Moved(pp, p.d), i)
      {
        assert TidyAt(cats, pp, i);
        IfLeaves(cats, pp, p, now, i, forceLines);
      }
    }
  }

  lemma NextLeaves(t: State, rules: Rules, forceLines: bool, next: State -> State) returns (n: nat)
    requires TidyState(t) && MendsState(t) && SoundRules(rules) && rules == CweaveRules(forceLines) && next == Next(rules)
    requires !TidyState(next(t))
    ensures FiresRule(t, n, rules) && OneOfNine(n)
  {
    NextIsStep(t, rules);
    MarkFree(t);
    if !FiresAt(Cats(t.scraps), t.pp) {
      NextMovesTidy(t, rules, forceLines, next);
    } else {
      n := FiringLeaves(t, rules, forceLines, next);
    }
  }

  /** No if clause at the cursor stands behind a preprocessor mark. */
  predicate MarkFreeAt(cats: seq<Category>, pp: nat) {
    0 < pp < |cats| && IsIf(cats[pp]) ==> cats[pp-1] != LPROC
  }

  lemma MarkFree(t: State)
    requires MendsState(t)
    ensures MarkFreeAt(Cats(t.scraps), t.pp)
  {
    var cats := Cats(t.scraps);
    if 0 < t.pp < |cats| && IsIf(cats[t.pp]) { NoMarkBefore(cats, t.pp); }
  }

  lemma FiringLeaves(t: State, rules: Rules, forceLines: bool, next: State -> State) returns (n: nat)
    requires TidyState(t) && SoundRules(rules) && rules == CweaveRules(forceLines) && next == Next(rules)
    requires t.pp < |t.scraps| && FiresAt(Cats(t.scraps), t.pp) && MarkFreeAt(Cats(t.scraps), t.pp) && !TidyState(next(t))
    ensures FiresRule(t, n, rules) && OneOfNine(n)
  {
    var p := NextFires(t, rules, forceLines, next);
    CweaveApplies(t.scraps, t.pp, rules, forceLines);
    NineLeave(Cats(t.scraps), t.pp, p, Cats(next(t).scraps), forceLines);
    n := p.n;
  }

  lemma OnlyNine(s: State, leaves: seq<Leaf>, m: nat, n: nat, rules: Rules, forceLines: bool, next: State -> State)
    requires FromScanner(s, leaves) && LeavesBehind(s, m, n, rules, next)
    requires SoundRules(rules) && rules == CweaveRules(forceLines) && next == Next(rules)
    ensures OneOfNine(n)
  {
    EveryStateMends(s, leaves, m, rules, forceLines, next);
    var k := NextLeaves(Iterate(next, s, m), rules, forceLines, next);
  }

  /** A run from scanned scraps at whose end a production still applies has an iteration that
      leaves something behind, and it fires one of the nine. */
  lemma UnstableIsLeft(s: State, leaves: seq<Leaf>, rules: Rules, end: State, forceLines: bool, next: State -> State) returns (m: nat, n: nat)
    requires FromScanner(s, leaves) && SoundRules(rules) && rules == CweaveRules(forceLines) && next == Next(rules)
    requires end == Run(s, rules) && !Stable(end, rules)
    ensures LeavesBehind(s, m, n, rules, next) && OneOfNine(n)
  {
    var last := RunIsSteps(s, rules, next);
    assert Iterate(next, s, last) == end;
    if TidyState(end) { TidyIsStable(end, rules, forceLines); }
    m := FirstEnd(next, s, last, t => TidyState(t));
    assert (t => TidyState(t))(Iterate(next, s, m));
    EveryStateMends(s, leaves, m, rules, forceLines, next);
    n := NextLeaves(Iterate(next, s, m), rules, forceLines, next);
  }

  lemma TidyIsStable(end: State, rules: Rules, forceLines: bool)
    requires TidyState(end) && end.pp == |end.scraps| && rules == CweaveRules(forceLines)
    ensures Stable(end, rules)
  {
    forall i | 0 <= i < |end.scraps|
      ensures !Applies(end.scraps, i, rules)
    {
      TidyEnd(Cats(end.scraps), i);
      CweaveApplies(end.scraps, i, rules, forceLines);
    }
  }

  // ---------- all of the nine

  lemma PlainReplaces(r: Row, p: Production, now: seq<Category>)
    requires Plain(r, p) && 1 <= p.k && After(r.cats, r.pp, p, now)
    ensures now == Replaced(r.cats, r.pp, p)
  {
    BehindIsKept(r.cats, r.pp + p.at, p.k, r.cats[r.pp + p.at + p.k..], now, ReservedAt(p) > 0);
  }

  lemma BehindIsKept(cats: seq<Category>, q: nat, k: nat, rest: seq<Category>, now: seq<Category>, flips: bool)
    requires 1 <= k && q + k <= |cats| && rest == cats[q + k..] && |now| == |cats| - k + 1 && (flips ==> EXP !in rest)
    requires forall x :: 0 <= x < q ==> now[x] == cats[x]
    requires forall x :: q < x < |now| ==> now[x] == cats[x + k - 1] || (flips && cats[x + k - 1] == EXP)
    ensures now == cats[..q] + [now[q]] + rest
  {
    forall x | q < x < |now|
      ensures now[x] == rest[x - q - 1]
    {
      assert cats[x + k - 1] == rest[x - q - 1];
    }
  }

  lemma SeesProduction(t: State, r: Row, p: Production, rules: Rules, forceLines: bool)
    requires r == RowOf(t) && p == RowProduction(r, rules) && rules == CweaveRules(forceLines)
    ensures p == ProductionAt(t.scraps, t.pp, rules) && (p.NoRule? <==> !FiresAt(Cats(t.scraps), t.pp))
  {
    CweaveApplies(t.scraps, t.pp, rules, forceLines);
  }

  // A smooth iteration keeps the row tidy and does what is seen.
  lemma NextIsSeen(t: State, r: Row, p: Production, rules: Rules, forceLines: bool, next: State -> State)
    requires TidyState(t) && SoundRules(rules) && rules == CweaveRules(forceLines) && next == Next(rules)
    requires r == RowOf(t) && p == RowProduction(r, rules) && SmoothBy(r, p)
    ensures TidyState(next(t)) && RowOf(next(t)) == RowAct(r, p)
  {
    SeesProduction(t, r, p, rules, forceLines);
    if p.NoRule? {
      NextMovesTidy(t, rules, forceLines, next);
    } else {
      NextFiresTidy(t, r, p, rules, forceLines, next);
    }
  }

  lemma NextMovesTidy(t: State, rules: Rules, forceLines: bool, next: State -> State)
    requires TidyState(t) && SoundRules(rules) && rules == CweaveRules(forceLines) && next == Next(rules)
    requires t.pp < |t.scraps| && !FiresAt(Cats(t.scraps), t.pp)
    ensures TidyState(next(t)) && RowOf(next(t)) == Row(Cats(t.scraps), t.pp + 1)
  {
    var u := NextMoves(t, rules, forceLines, next);
    MoveOnTidy(Cats(t.scraps), t.pp);
  }

  lemma NextFiresTidy(t: State, r: Row, p: Production, rules: Rules, forceLines: bool, next: State -> State)
    requires TidyState(t) && SoundRules(rules) && rules == CweaveRules(forceLines) && next == Next(rules)
    requires r == RowOf(t) && p == ProductionAt(t.scraps, t.pp, rules) && !p.NoRule? && SmoothBy(r, p) && FiresAt(Cats(t.scraps), t.pp)
    ensures TidyState(next(t)) && RowOf(next(t)) == RowAct(r, p)
  {
    var q := NextFires(t, rules, forceLines, next);
    SmoothIsTidy(r, p, Cats(next(t).scraps), forceLines);
  }

  lemma SmoothIsTidy(r: Row, p: Production, now: seq<Category>, forceLines: bool)
    requires Chosen(r.cats, r.pp, p, forceLines) && After(r.cats, r.pp, p, now) && Tidy(r.cats, r.pp) && SmoothBy(r, p)
    ensures Tidy(now, Moved(r.pp, p.d)) && Row(now, Moved(r.pp, p.d)) == RowAct(r, p)
  {
    PlainReplaces(r, p, now);
    if !ShortSighted(p.n) { StepTidy(r.cats, r.pp, p, now, forceLines); }
  }

  lemma RunIsSeen(s: State, r: Row, u: Row, n: nat, rules: Rules, forceLines: bool, next: State -> State, seen: Row -> Row, smooth: Row -> bool)
    requires TidyState(s) && r == RowOf(s) && SoundRules(rules) && rules == CweaveRules(forceLines) && next == Next(rules)
    requires seen == RowNext(rules) && smooth == SmoothRow(rules) && LeadsTo(seen, smooth, r, u, n)
    ensures TidyState(Iterate(next, s, n)) && RowOf(Iterate(next, s, n)) == u
  {
    forall t | TidyState(t) && smooth(RowOf(t))
      ensures TidyState(next(t)) && RowOf(next(t)) == seen(RowOf(t))
    {
      NextIsSeen(t, RowOf(t), RowProduction(RowOf(t), rules), rules, forceLines, next);
    }
    Simulation(next, t => RowOf(t), seen, s, r, n, t => TidyState(t), smooth);
  }

  /** Production p of rule n at the cursor leaves the window at i behind. */
  predicate EndsShort(r: Row, p: Production, n: nat, i: nat) {
    && r.pp < |r.cats| && Plain(r, p) && p.n == n && i < Moved(r.pp, p.d) && i < |Replaced(r.cats, r.pp, p)|
    && FiresAt(Replaced(r.cats, r.pp, p), i) && INSERT !in Replaced(r.cats, r.pp, p)
  }

  lemma NextFallsShort(t: State, r: Row, p: Production, n: nat, i: nat, rules: Rules, forceLines: bool, next: State -> State)
    requires TidyState(t) && SoundRules(rules) && rules == CweaveRules(forceLines) && next == Next(rules)
    requires r == RowOf(t) && p == RowProduction(r, rules) && EndsShort(r, p, n, i)
    ensures FiresRule(t, n, rules) && !TidyState(next(t))
  {
    SeesProduction(t, r, p, rules, forceLines);
    var q := NextFires(t, rules, forceLines, next);
    ShortIsUntidy(r, p, Cats(next(t).scraps), n, i);
  }

  lemma ShortIsUntidy(r: Row, p: Production, now: seq<Category>, n: nat, i: nat)
    requires EndsShort(r, p, n, i) && 1 <= p.k && After(r.cats, r.pp, p, now)
    ensures !Tidy(now, Moved(r.pp, p.d))
  {
    PlainReplaces(r, p, now);
    assert !Waits(now, Moved(r.pp, p.d), i);
  }

  predicate FromProgram(cats: seq<Category>) {
    forall x :: 0 <= x < |cats| ==> ScannerMakes(cats[x])
  }

  lemma TrailShows(cats: seq<Category>, u: Row, m: nat, n: nat, i: nat, rules: Rules, forceLines: bool, next: State -> State, seen: Row -> Row, smooth: Row -> bool)
    requires SoundRules(rules) && rules == CweaveRules(forceLines) && next == Next(rules) && seen == RowNext(rules) && smooth == SmoothRow(rules)
    requires FromProgram(cats) && LeadsTo(seen, smooth, Row(cats, 0), u, m) && EndsShort(u, RowProduction(u, rules), n, i)
    ensures LeavesInSome(n, rules, next)
  {
    RowIsScanned(cats);
    var s, leaves, r := RowState(cats), RowLeaves(cats), Row(cats, 0);
    assert RowOf(s) == r && TidyState(s);
    RunIsSeen(s, r, u, m, rules, forceLines, next, seen, smooth);
    NextFallsShort(Iterate(next, s, m), u, RowProduction(u, rules), n, i, rules, forceLines, next);
    assert FromScanner(s, leaves) && LeavesBehind(s, m, n, rules, next);
  }

  // ---------- the nine

  // The production that applies to these four, and its number.
  predicate ActsAs(rules: Rules, c0: Category, c1: Category, c2: Category, c3: Category, k: nat, cat: Category, d: int, n: nat) {
    var p := rules(c0, c1, c2, c3);
    !p.NoRule? && p.at == 0 && p.k == k && p.cat == cat && p.d == d && p.n == n
  }

  lemma EndsThere(u: Row, rules: Rules, c0: Category, c1: Category, c2: Category, c3: Category, k: nat, cat: Category, d: int, n: nat,
                  rest: seq<Category>, now: seq<Category>, i: nat)
    requires Sees(u, c0, c1, c2, c3) && ActsAs(rules, c0, c1, c2, c3, k, cat, d, n) && u.pp + k <= |u.cats|
    requires rest == u.cats[u.pp + k..] && EXP !in rest && now == u.cats[..u.pp] + [cat] + rest
    requires i < Moved(u.pp, d) && i < |now| && FiresAt(now, i) && INSERT !in now
    ensures EndsShort(u, RowProduction(u, rules), n, i)
  {
  }

  lemma LabelsActs(rules: Rules, forceLines: bool)
    requires rules == CweaveRules(forceLines)
    ensures ActsAs(rules, EXP, COLON, PADDING, PADDING, 2, TAG, 0, 7) && Fires(TAG, TAG, PADDING, PADDING)
  {
  }

  lemma LabelsEnds(rules: Rules, forceLines: bool, u: Row)
    requires rules == CweaveRules(forceLines) && u == Row([TAG, EXP, COLON], 1)
    ensures EndsShort(u, RowProduction(u, rules), 7, 0)
  {
    LabelsActs(rules, forceLines);
    assert u.cats[..1] == [TAG] && u.cats[3..] == [];
    EndsThere(u, rules, EXP, COLON, PADDING, PADDING, 2, TAG, 0, 7, [], [TAG, TAG], 0);
  }

  lemma LabelsProgram(cats: seq<Category>)
    requires cats == [EXP, COLON, EXP, COLON]
    ensures FromProgram(cats)
  {
  }

  lemma LabelsLeads(rules: Rules, forceLines: bool, seen: Row -> Row, smooth: Row -> bool, cats: seq<Category>, u: Row)
    requires rules == CweaveRules(forceLines) && seen == RowNext(rules) && smooth == SmoothRow(rules)
    requires cats == [EXP, COLON, EXP, COLON] && u == Row([TAG, EXP, COLON], 1)
    ensures LeadsTo(seen, smooth, Row(cats, 0), u, 2)
  {
    LabelsWindows(rules, forceLines);
    LabelsTrail(rules, seen, smooth);
  }

  lemma LabelsShown(rules: Rules, forceLines: bool, next: State -> State, seen: Row -> Row, smooth: Row -> bool)
    requires SoundRules(rules) && rules == CweaveRules(forceLines) && next == Next(rules) && seen == RowNext(rules) && smooth == SmoothRow(rules)
    ensures LeavesInSome(7, rules, next)
  {
    var cats, u := [EXP, COLON, EXP, COLON], Row([TAG, EXP, COLON], 1);
    LabelsProgram(cats);
    LabelsLeads(rules, forceLines, seen, smooth, cats, u);
    LabelsEnds(rules, forceLines, u);
    TrailShows(cats, u, 2, 7, 0, rules, forceLines, next, seen, smooth);
  }

  lemma TypedefActs(rules: Rules, forceLines: bool)
    requires rules == CweaveRules(forceLines)
    ensures ActsAs(rules, LPAR, INT_LIKE, RPAR, PADDING, 3, CAST, -2, 13) && Fires(TYPEDEF_LIKE, DECL_HEAD, EXP, CAST)
  {
  }

  lemma TypedefEnds(rules: Rules, forceLines: bool, u: Row)
    requires rules == CweaveRules(forceLines) && u == Row([TYPEDEF_LIKE, DECL_HEAD, EXP, LPAR, INT_LIKE, RPAR], 3)
    ensures EndsShort(u, RowProduction(u, rules), 13, 0)
  {
    TypedefActs(rules, forceLines);
    assert u.cats[..3] == [TYPEDEF_LIKE, DECL_HEAD, EXP] && u.cats[6..] == [];
    EndsThere(u, rules, LPAR, INT_LIKE, RPAR, PADDING, 3, CAST, -2, 13, [], [TYPEDEF_LIKE, DECL_HEAD, EXP, CAST], 0);
  }

  lemma TypedefProgram(cats: seq<Category>)
    requires cats == [TYPEDEF_LIKE, INT_LIKE, EXP, LPAR, INT_LIKE, RAW_RPAR]
    ensures FromProgram(cats)
  {
  }

  lemma TypedefLeads(rules: Rules, forceLines: bool, seen: Row -> Row, smooth: Row -> bool, cats: seq<Category>, u: Row)
    requires rules == CweaveRules(forceLines) && seen == RowNext(rules) && smooth == SmoothRow(rules)
    requires cats == [TYPEDEF_LIKE, INT_LIKE, EXP, LPAR, INT_LIKE, RAW_RPAR] && u == Row([TYPEDEF_LIKE, DECL_HEAD, EXP, LPAR, INT_LIKE, RPAR], 3)
    ensures LeadsTo(seen, smooth, Row(cats, 0), u, 9)
  {
    TypedefWindows(rules, forceLines);
    TypedefTrail(rules, seen, smooth);
  }

  lemma TypedefShown(rules: Rules, forceLines: bool, next: State -> State, seen: Row -> Row, smooth: Row -> bool)
    requires SoundRules(rules) && rules == CweaveRules(forceLines) && next == Next(rules) && seen == RowNext(rules) && smooth == SmoothRow(rules)
    ensures LeavesInSome(13, rules, next)
  {
    var cats, u := [TYPEDEF_LIKE, INT_LIKE, EXP, LPAR, INT_LIKE, RAW_RPAR], Row([TYPEDEF_LIKE, DECL_HEAD, EXP, LPAR, INT_LIKE, RPAR], 3);
    TypedefProgram(cats);
    TypedefLeads(rules, forceLines, seen, smooth, cats, u);
    TypedefEnds(rules, forceLines, u);
    TrailShows(cats, u, 9, 13, 0, rules, forceLines, next, seen, smooth);
  }

  lemma NewStructActs(rules: Rules, forceLines: bool)
    requires rules == CweaveRules(forceLines)
    ensures ActsAs(rules, STRUCT_LIKE, LBRACE, PADDING, PADDING, 2, STRUCT_HEAD, 0, 44) && Fires(NEW_LIKE, STRUCT_HEAD, PADDING, PADDING)
  {
  }

  lemma NewStructEnds(rules: Rules, forceLines: bool, u: Row)
    requires rules == CweaveRules(forceLines) && u == Row([NEW_LIKE, STRUCT_LIKE, LBRACE], 1)
    ensures EndsShort(u, RowProduction(u, rules), 44, 0)
  {
    NewStructActs(rules, forceLines);
    assert u.cats[..1] == [NEW_LIKE] && u.cats[3..] == [];
    EndsThere(u, rules, STRUCT_LIKE, LBRACE, PADDING, PADDING, 2, STRUCT_HEAD, 0, 44, [], [NEW_LIKE, STRUCT_HEAD], 0);
  }

  lemma NewStructProgram(cats: seq<Category>)
    requires cats == [NEW_LIKE, STRUCT_LIKE, LBRACE]
    ensures FromProgram(cats)
  {
  }

  lemma NewStructLeads(rules: Rules, forceLines: bool, seen: Row -> Row, smooth: Row -> bool, cats: seq<Category>, u: Row)
    requires rules == CweaveRules(forceLines) && seen == RowNext(rules) && smooth == SmoothRow(rules)
    requires cats == [NEW_LIKE, STRUCT_LIKE, LBRACE] && u == Row([NEW_LIKE, STRUCT_LIKE, LBRACE], 1)
    ensures LeadsTo(seen, smooth, Row(cats, 0), u, 1)
  {
    NewStructWindows(rules, forceLines);
    NewStructTrail(rules, seen, smooth);
  }

  lemma NewStructShown(rules: Rules, forceLines: bool, next: State -> State, seen: Row -> Row, smooth: Row -> bool)
    requires SoundRules(rules) && rules == CweaveRules(forceLines) && next == Next(rules) && seen == RowNext(rules) && smooth == SmoothRow(rules)
    ensures LeavesInSome(44, rules, next)
  {
    var cats, u := [NEW_LIKE, STRUCT_LIKE, LBRACE], Row([NEW_LIKE, STRUCT_LIKE, LBRACE], 1);
    NewStructProgram(cats);
    NewStructLeads(rules, forceLines, seen, smooth, cats, u);
    NewStructEnds(rules, forceLines, u);
    TrailShows(cats, u, 1, 44, 0, rules, forceLines, next, seen, smooth);
  }

  lemma NewDeclaratorActs(rules: Rules, forceLines: bool)
    requires rules == CweaveRules(forceLines)
    ensures ActsAs(rules, STRUCT_LIKE, EXP, SEMI, PADDING, 2, DECL_HEAD, 0, 45) && Fires(NEW_LIKE, DECL_HEAD, SEMI, PADDING)
  {
  }

  lemma NewDeclaratorEnds(rules: Rules, forceLines: bool, u: Row)
    requires rules == CweaveRules(forceLines) && u == Row([NEW_LIKE, STRUCT_LIKE, EXP, SEMI], 1)
    ensures EndsShort(u, RowProduction(u, rules), 45, 0)
  {
    NewDeclaratorActs(rules, forceLines);
    assert u.cats[..1] == [NEW_LIKE] && u.cats[3..] == [SEMI];
    EndsThere(u, rules, STRUCT_LIKE, EXP, SEMI, PADDING, 2, DECL_HEAD, 0, 45, [SEMI], [NEW_LIKE, DECL_HEAD, SEMI], 0);
  }

  lemma NewDeclaratorProgram(cats: seq<Category>)
    requires cats == [NEW_LIKE, STRUCT_LIKE, EXP, SEMI]
    ensures FromProgram(cats)
  {
  }

  lemma NewDeclaratorLeads(rules: Rules, forceLines: bool, seen: Row -> Row, smooth: Row -> bool, cats: seq<Category>, u: Row)
    requires rules == CweaveRules(forceLines) && seen == RowNext(rules) && smooth == SmoothRow(rules)
    requires cats == [NEW_LIKE, STRUCT_LIKE, EXP, SEMI] && u == Row([NEW_LIKE, STRUCT_LIKE, EXP, SEMI], 1)
    ensures LeadsTo(seen, smooth, Row(cats, 0), u, 1)
  {
    NewDeclaratorWindows(rules, forceLines);
    NewDeclaratorTrail(rules, seen, smooth);
  }

  lemma NewDeclaratorShown(rules: Rules, forceLines: bool, next: State -> State, seen: Row -> Row, smooth: Row -> bool)
    requires SoundRules(rules) && rules == CweaveRules(forceLines) && next == Next(rules) && seen == RowNext(rules) && smooth == SmoothRow(rules)
    ensures LeavesInSome(45, rules, next)
  {
    var cats, u := [NEW_LIKE, STRUCT_LIKE, EXP, SEMI], Row([NEW_LIKE, STRUCT_LIKE, EXP, SEMI], 1);
    NewDeclaratorProgram(cats);
    NewDeclaratorLeads(rules, forceLines, seen, smooth, cats, u);
    NewDeclaratorEnds(rules, forceLines, u);
    TrailShows(cats, u, 1, 45, 0, rules, forceLines, next, seen, smooth);
  }

  lemma NewNamedStructActs(rules: Rules, forceLines: bool)
    requires rules == CweaveRules(forceLines)
    ensures ActsAs(rules, STRUCT_LIKE, EXP, LBRACE, PADDING, 3, STRUCT_HEAD, 0, 46) && Fires(NEW_LIKE, STRUCT_HEAD, PADDING, PADDING)
  {
  }

  lemma NewNamedStructEnds(rules: Rules, forceLines: bool, u: Row)
    requires rules == CweaveRules(forceLines) && u == Row([NEW_LIKE, STRUCT_LIKE, EXP, LBRACE], 1)
    ensures EndsShort(u, RowProduction(u, rules), 46, 0)
  {
    NewNamedStructActs(rules, forceLines);
    assert u.cats[..1] == [NEW_LIKE] && u.cats[4..] == [];
    EndsThere(u, rules, STRUCT_LIKE, EXP, LBRACE, PADDING, 3, STRUCT_HEAD, 0, 46, [], [NEW_LIKE, STRUCT_HEAD], 0);
  }

  lemma NewNamedStructProgram(cats: seq<Category>)
    requires cats == [NEW_LIKE, STRUCT_LIKE, EXP, LBRACE]
    ensures FromProgram(cats)
  {
  }

  lemma NewNamedStructLeads(rules: Rules, forceLines: bool, seen: Row -> Row, smooth: Row -> bool, cats: seq<Category>, u: Row)
    requires rules == CweaveRules(forceLines) && seen == RowNext(rules) && smooth == SmoothRow(rules)
    requires cats == [NEW_LIKE, STRUCT_LIKE, EXP, LBRACE] && u == Row([NEW_LIKE, STRUCT_LIKE, EXP, LBRACE], 1)
    ensures LeadsTo(seen, smooth, Row(cats, 0), u, 1)
  {
    NewNamedStructWindows(rules, forceLines);
    NewNamedStructTrail(rules, seen, smooth);
  }

  lemma NewNamedStructShown(rules: Rules, forceLines: bool, next: State -> State, seen: Row -> Row, smooth: Row -> bool)
    requires SoundRules(rules) && rules == CweaveRules(forceLines) && next == Next(rules) && seen == RowNext(rules) && smooth == SmoothRow(rules)
    ensures LeavesInSome(46, rules, next)
  {
    var cats, u := [NEW_LIKE, STRUCT_LIKE, EXP, LBRACE], Row([NEW_LIKE, STRUCT_LIKE, EXP, LBRACE], 1);
    NewNamedStructProgram(cats);
    NewNamedStructLeads(rules, forceLines, seen, smooth, cats, u);
    NewNamedStructEnds(rules, forceLines, u);
    TrailShows(cats, u, 1, 46, 0, rules, forceLines, next, seen, smooth);
  }

  lemma DoIfActs(rules: Rules, forceLines: bool)
    requires rules == CweaveRules(forceLines)
    ensures ActsAs(rules, IF_CLAUSE, STMT, ELSE_LIKE, SEMI, 3, ELSE_LIKE, 0, 64) && Fires(DO_LIKE, STMT, ELSE_LIKE, SEMI)
  {
  }

  lemma DoIfEnds(rules: Rules, forceLines: bool, u: Row)
    requires rules == CweaveRules(forceLines) && u == Row([DO_LIKE, STMT, IF_CLAUSE, STMT, ELSE_LIKE, SEMI], 2)
    ensures EndsShort(u, RowProduction(u, rules), 64, 0)
  {
    DoIfActs(rules, forceLines);
    assert u.cats[..2] == [DO_LIKE, STMT] && u.cats[5..] == [SEMI];
    EndsThere(u, rules, IF_CLAUSE, STMT, ELSE_LIKE, SEMI, 3, ELSE_LIKE, 0, 64, [SEMI], [DO_LIKE, STMT, ELSE_LIKE, SEMI], 0);
  }

  lemma DoIfProgram(cats: seq<Category>)
    requires cats == [DO_LIKE, SEMI, IF_LIKE, EXP, SEMI, ELSE_LIKE, SEMI]
    ensures FromProgram(cats)
  {
  }

  lemma DoIfLeads(rules: Rules, forceLines: bool, seen: Row -> Row, smooth: Row -> bool, cats: seq<Category>, u: Row)
    requires rules == CweaveRules(forceLines) && seen == RowNext(rules) && smooth == SmoothRow(rules)
    requires cats == [DO_LIKE, SEMI, IF_LIKE, EXP, SEMI, ELSE_LIKE, SEMI] && u == Row([DO_LIKE, STMT, IF_CLAUSE, STMT, ELSE_LIKE, SEMI], 2)
    ensures LeadsTo(seen, smooth, Row(cats, 0), u, 7)
  {
    DoIfWindows(rules, forceLines);
    DoIfTrail(rules, seen, smooth);
  }

  lemma DoIfShown(rules: Rules, forceLines: bool, next: State -> State, seen: Row -> Row, smooth: Row -> bool)
    requires SoundRules(rules) && rules == CweaveRules(forceLines) && next == Next(rules) && seen == RowNext(rules) && smooth == SmoothRow(rules)
    ensures LeavesInSome(64, rules, next)
  {
    var cats, u := [DO_LIKE, SEMI, IF_LIKE, EXP, SEMI, ELSE_LIKE, SEMI], Row([DO_LIKE, STMT, IF_CLAUSE, STMT, ELSE_LIKE, SEMI], 2);
    DoIfProgram(cats);
    DoIfLeads(rules, forceLines, seen, smooth, cats, u);
    DoIfEnds(rules, forceLines, u);
    TrailShows(cats, u, 7, 64, 0, rules, forceLines, next, seen, smooth);
  }

  lemma DoIfBlockActs(rules: Rules, forceLines: bool)
    requires rules == CweaveRules(forceLines)
    ensures ActsAs(rules, IF_HEAD, STMT, ELSE_LIKE, SEMI, 3, ELSE_LIKE, 0, 67) && Fires(DO_LIKE, STMT, ELSE_LIKE, SEMI)
  {
  }

  lemma DoIfBlockEnds(rules: Rules, forceLines: bool, u: Row)
    requires rules == CweaveRules(forceLines) && u == Row([DO_LIKE, STMT, IF_HEAD, STMT, ELSE_LIKE, SEMI], 2)
    ensures EndsShort(u, RowProduction(u, rules), 67, 0)
  {
    DoIfBlockActs(rules, forceLines);
    assert u.cats[..2] == [DO_LIKE, STMT] && u.cats[5..] == [SEMI];
    EndsThere(u, rules, IF_HEAD, STMT, ELSE_LIKE, SEMI, 3, ELSE_LIKE, 0, 67, [SEMI], [DO_LIKE, STMT, ELSE_LIKE, SEMI], 0);
  }

  lemma DoIfBlockProgram(cats: seq<Category>)
    requires cats == [DO_LIKE, SEMI, IF_LIKE, EXP, LBRACE, RBRACE, ELSE_LIKE, SEMI]
    ensures FromProgram(cats)
  {
  }

  lemma DoIfBlockLeads(rules: Rules, forceLines: bool, seen: Row -> Row, smooth: Row -> bool, cats: seq<Category>, u: Row)
    requires rules == CweaveRules(forceLines) && seen == RowNext(rules) && smooth == SmoothRow(rules)
    requires cats == [DO_LIKE, SEMI, IF_LIKE, EXP, LBRACE, RBRACE, ELSE_LIKE, SEMI] && u == Row([DO_LIKE, STMT, IF_HEAD, STMT, ELSE_LIKE, SEMI], 2)
    ensures LeadsTo(seen, smooth, Row(cats, 0), u, 8)
  {
    IfBlockWindows(rules, forceLines);
    BlockWindows(rules, forceLines);
    DoIfBlockTrail(rules, seen, smooth);
  }

  lemma DoIfBlockShown(rules: Rules, forceLines: bool, next: State -> State, seen: Row -> Row, smooth: Row -> bool)
    requires SoundRules(rules) && rules == CweaveRules(forceLines) && next == Next(rules) && seen == RowNext(rules) && smooth == SmoothRow(rules)
    ensures LeavesInSome(67, rules, next)
  {
    var cats, u := [DO_LIKE, SEMI, IF_LIKE, EXP, LBRACE, RBRACE, ELSE_LIKE, SEMI], Row([DO_LIKE, STMT, IF_HEAD, STMT, ELSE_LIKE, SEMI], 2);
    DoIfBlockProgram(cats);
    DoIfBlockLeads(rules, forceLines, seen, smooth, cats, u);
    DoIfBlockEnds(rules, forceLines, u);
    TrailShows(cats, u, 8, 67, 0, rules, forceLines, next, seen, smooth);
  }

  lemma BasesActs(rules: Rules, forceLines: bool)
    requires rules == CweaveRules(forceLines)
    ensures ActsAs(rules, BASE, PUBLIC_LIKE, EXP, COMMA, 4, BASE, 0, 101) && Fires(EXP, BASE, INT_LIKE, COMMA)
  {
  }

  lemma BasesEnds(rules: Rules, forceLines: bool, u: Row)
    requires rules == CweaveRules(forceLines) && u == Row([STRUCT_LIKE, EXP, BASE, PUBLIC_LIKE, EXP, COMMA, INT_LIKE, COMMA], 2)
    ensures EndsShort(u, RowProduction(u, rules), 101, 1)
  {
    BasesActs(rules, forceLines);
    assert u.cats[..2] == [STRUCT_LIKE, EXP] && u.cats[6..] == [INT_LIKE, COMMA];
    EndsThere(u, rules, BASE, PUBLIC_LIKE, EXP, COMMA, 4, BASE, 0, 101, [INT_LIKE, COMMA], [STRUCT_LIKE, EXP, BASE, INT_LIKE, COMMA], 1);
  }

  lemma BasesProgram(cats: seq<Category>)
    requires cats == [STRUCT_LIKE, EXP, COLON, PUBLIC_LIKE, EXP, COMMA, INT_LIKE, COMMA]
    ensures FromProgram(cats)
  {
  }

  lemma BasesLeads(rules: Rules, forceLines: bool, seen: Row -> Row, smooth: Row -> bool, cats: seq<Category>, u: Row)
    requires rules == CweaveRules(forceLines) && seen == RowNext(rules) && smooth == SmoothRow(rules)
    requires cats == [STRUCT_LIKE, EXP, COLON, PUBLIC_LIKE, EXP, COMMA, INT_LIKE, COMMA] && u == Row([STRUCT_LIKE, EXP, BASE, PUBLIC_LIKE, EXP, COMMA, INT_LIKE, COMMA], 2)
    ensures LeadsTo(seen, smooth, Row(cats, 0), u, 3)
  {
    BasesWindows(rules, forceLines);
    BasesTrail(rules, seen, smooth);
  }

  lemma BasesShown(rules: Rules, forceLines: bool, next: State -> State, seen: Row -> Row, smooth: Row -> bool)
    requires SoundRules(rules) && rules == CweaveRules(forceLines) && next == Next(rules) && seen == RowNext(rules) && smooth == SmoothRow(rules)
    ensures LeavesInSome(101, rules, next)
  {
    var cats, u := [STRUCT_LIKE, EXP, COLON, PUBLIC_LIKE, EXP, COMMA, INT_LIKE, COMMA], Row([STRUCT_LIKE, EXP, BASE, PUBLIC_LIKE, EXP, COMMA, INT_LIKE, COMMA], 2);
    BasesProgram(cats);
    BasesLeads(rules, forceLines, seen, smooth, cats, u);
    BasesEnds(rules, forceLines, u);
    TrailShows(cats, u, 3, 101, 1, rules, forceLines, next, seen, smooth);
  }

  lemma ArgumentActs(rules: Rules, forceLines: bool)
    requires rules == CweaveRules(forceLines)
    ensures ActsAs(rules, LPAR, END_ARG, PADDING, PADDING, 2, END_ARG, -1, 111) && Fires(DECL_HEAD, EXP, END_ARG, PADDING)
  {
  }

  lemma ArgumentEnds(rules: Rules, forceLines: bool, u: Row)
    requires rules == CweaveRules(forceLines) && u == Row([DECL_HEAD, EXP, LPAR, END_ARG], 2)
    ensures EndsShort(u, RowProduction(u, rules), 111, 0)
  {
    ArgumentActs(rules, forceLines);
    assert u.cats[..2] == [DECL_HEAD, EXP] && u.cats[4..] == [];
    EndsThere(u, rules, LPAR, END_ARG, PADDING, PADDING, 2, END_ARG, -1, 111, [], [DECL_HEAD, EXP, END_ARG], 0);
  }

  lemma ArgumentProgram(cats: seq<Category>)
    requires cats == [INT_LIKE, EXP, LPAR, END_ARG]
    ensures FromProgram(cats)
  {
  }

  lemma ArgumentLeads(rules: Rules, forceLines: bool, seen: Row -> Row, smooth: Row -> bool, cats: seq<Category>, u: Row)
    requires rules == CweaveRules(forceLines) && seen == RowNext(rules) && smooth == SmoothRow(rules)
    requires cats == [INT_LIKE, EXP, LPAR, END_ARG] && u == Row([DECL_HEAD, EXP, LPAR, END_ARG], 2)
    ensures LeadsTo(seen, smooth, Row(cats, 0), u, 3)
  {
    ArgumentWindows(rules, forceLines);
    ArgumentTrail(rules, seen, smooth);
  }

  lemma ArgumentShown(rules: Rules, forceLines: bool, next: State -> State, seen: Row -> Row, smooth: Row -> bool)
    requires SoundRules(rules) && rules == CweaveRules(forceLines) && next == Next(rules) && seen == RowNext(rules) && smooth == SmoothRow(rules)
    ensures LeavesInSome(111, rules, next)
  {
    var cats, u := [INT_LIKE, EXP, LPAR, END_ARG], Row([DECL_HEAD, EXP, LPAR, END_ARG], 2);
    ArgumentProgram(cats);
    ArgumentLeads(rules, forceLines, seen, smooth, cats, u);
    ArgumentEnds(rules, forceLines, u);
    TrailShows(cats, u, 3, 111, 0, rules, forceLines, next, seen, smooth);
  }

  lemma EachOfNine(n: nat, rules: Rules, forceLines: bool, next: State -> State)
    requires SoundRules(rules) && rules == CweaveRules(forceLines) && next == Next(rules) && OneOfNine(n)
    ensures LeavesInSome(n, rules, next)
  {
    var seen, smooth := RowNext(rules), SmoothRow(rules);
    if n == 7 { LabelsShown(rules, forceLines, next, seen, smooth); }
    else if n == 13 { TypedefShown(rules, forceLines, next, seen, smooth); }
    else if n == 44 { NewStructShown(rules, forceLines, next, seen, smooth); }
    else if n == 45 { NewDeclaratorShown(rules, forceLines, next, seen, smooth); }
    else if n == 46 { NewNamedStructShown(rules, forceLines, next, seen, smooth); }
    else if n == 64 { DoIfShown(rules, forceLines, next, seen, smooth); }
    else if n == 67 { DoIfBlockShown(rules, forceLines, next, seen, smooth); }
    else if n == 101 { BasesShown(rules, forceLines, next, seen, smooth); }
    else { ArgumentShown(rules, forceLines, next, seen, smooth); }
  }

  /** Exactly nine productions can leave something behind in a run from scanned scraps. */
  lemma NineExactly(n: nat, rules: Rules, forceLines: bool, next: State -> State)
    requires SoundRules(rules) && rules == CweaveRules(forceLines) && next == Next(rules)
    ensures LeavesInSome(n, rules, next) <==> OneOfNine(n)
  {
    if OneOfNine(n) { EachOfNine(n, rules, forceLines, next); }
    forall s: State, leaves: seq<Leaf>, m: nat | FromScanner(s, leaves) && LeavesBehind(s, m, n, rules, next)
      ensures OneOfNine(n)
    {
      OnlyNine(s, leaves, m, n, rules, forceLines, next);
    }
  }
}
