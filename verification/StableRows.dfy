// Which productions apply to the scraps that `translate` leaves, and what the scanned scraps
// must be like so that none does (cweb/cweave.c:2249-2293, 2295-2947).

module StableRows {
  import opened Category
  import opened Productions
  import opened ProductionTable
  import opened TextStore
  import opened Reducer
  import opened ReducerRun
  import opened ReducerMath
  import opened Sight
  import opened ReducerStable
  import opened IfClauses
  import opened Healing
  import opened Fences
  import opened Scanner
  import opened Iteration

  // ---------- every iteration

  ghost predicate MendsState(s: State) {
    WellFormed(s) && Mends(Cats(s.scraps), s.pp)
  }

  lemma RowHasNoPadding(s: State)
    requires WellFormed(s)
    ensures PADDING !in Cats(s.scraps)
  {
  }

  // The production that the iteration at t fires.
  lemma NextFires(t: State, rules: Rules, forceLines: bool, next: State -> State) returns (p: Production)
    requires WellFormed(t) && SoundRules(rules) && rules == CweaveRules(forceLines) && next == Next(rules)
    requires t.pp < |t.scraps| && FiresAt(Cats(t.scraps), t.pp)
    ensures Chosen(Cats(t.scraps), t.pp, p, forceLines) && After(Cats(t.scraps), t.pp, p, Cats(next(t).scraps))
    ensures p == ProductionAt(t.scraps, t.pp, rules) && WellFormed(next(t)) && next(t).pp == Moved(t.pp, p.d)
  {
    var cats := Cats(t.scraps);
    p := Chooses(cats, t.pp, forceLines);
    RowHasNoPadding(t);
    LinesDoNotMatter(Peek(cats, t.pp), Peek(cats, t.pp + 1), Peek(cats, t.pp + 2), Peek(cats, t.pp + 3), forceLines);
    CweaveApplies(t.scraps, t.pp, rules, forceLines);
    FiresOnce(t, p, rules, forceLines, next);
    ProductionFits(t, rules);
  }

  lemma NextMends(t: State, rules: Rules, forceLines: bool, next: State -> State)
    requires MendsState(t) && SoundRules(rules) && rules == CweaveRules(forceLines) && next == Next(rules)
    ensures MendsState(next(t))
  {
    var cats := Cats(t.scraps);
    if t.pp == |t.scraps| {
      NextIsStep(t, rules);
    } else if !FiresAt(cats, t.pp) {
      MovingMends(t, rules, forceLines, next);
    } else {
      FiringMends(t, rules, forceLines, next);
    }
  }

  lemma NextMoves(t: State, rules: Rules, forceLines: bool, next: State -> State) returns (u: State)
    requires WellFormed(t) && SoundRules(rules) && rules == CweaveRules(forceLines) && next == Next(rules)
    requires t.pp < |t.scraps| && !FiresAt(Cats(t.scraps), t.pp)
    ensures u == next(t) && WellFormed(u) && Cats(u.scraps) == Cats(t.scraps) && u.pp == t.pp + 1
  {
    MovesOn(t, rules, forceLines, next);
    u := next(t);
  }

  lemma MovingMends(t: State, rules: Rules, forceLines: bool, next: State -> State)
    requires MendsState(t) && SoundRules(rules) && rules == CweaveRules(forceLines) && next == Next(rules)
    requires t.pp < |t.scraps| && !FiresAt(Cats(t.scraps), t.pp)
    ensures MendsState(next(t))
  {
    var u := NextMoves(t, rules, forceLines, next);
    RowMovesOn(t, u, Cats(t.scraps));
  }

  lemma RowMovesOn(t: State, u: State, cats: seq<Category>)
    requires MendsState(t) && t.pp < |t.scraps| && cats == Cats(t.scraps) && !FiresAt(cats, t.pp)
    requires WellFormed(u) && Cats(u.scraps) == cats && u.pp == t.pp + 1
    ensures MendsState(u)
  {
    MoveOnMends(cats, t.pp);
  }

  lemma FiringMends(t: State, rules: Rules, forceLines: bool, next: State -> State)
    requires MendsState(t) && SoundRules(rules) && rules == CweaveRules(forceLines) && next == Next(rules)
    requires t.pp < |t.scraps| && FiresAt(Cats(t.scraps), t.pp)
    ensures MendsState(next(t))
  {
    var p := NextFires(t, rules, forceLines, next);
    StepMends(Cats(t.scraps), t.pp, p, Cats(next(t).scraps), forceLines);
  }

  lemma ScannedMends(s: State, leaves: seq<Leaf>)
    requires FromScanner(s, leaves)
    ensures MendsState(s)
  {
    var cats := Cats(s.scraps);
    forall z: nat
      ensures FencedAt(cats, 0, z)
    {
      assert z < |cats| ==> ScannerMakes(s.scraps[z].cat);
    }
  }

  lemma ScannedHasNone(s: State, leaves: seq<Leaf>, c: Category)
    requires FromScanner(s, leaves) && !ScannerMakes(c)
    ensures c !in Cats(s.scraps)
  {
  }

  /** In every state of every run from scanned scraps, what applies before the cursor waits for
      something that will be taken, or stays apart. */
  lemma EveryStateMends(s: State, leaves: seq<Leaf>, n: nat, rules: Rules, forceLines: bool, next: State -> State)
    requires FromScanner(s, leaves) && SoundRules(rules) && rules == CweaveRules(forceLines) && next == Next(rules)
    ensures MendsState(Iterate(next, s, n))
  {
    ScannedMends(s, leaves);
    forall t | MendsState(t)
      ensures MendsState(next(t))
    {
      NextMends(t, rules, forceLines, next);
    }
    Invariance(next, s, n, t => MendsState(t));
  }

  /** When `translate` ends productions apply exactly to two tags in a row, to `new` and the
      head of a structure, and to an expression and base classes that could be taken. */
  lemma EndsParted(s: State, leaves: seq<Leaf>, rules: Rules, end: State, forceLines: bool)
    requires FromScanner(s, leaves) && SoundRules(rules) && rules == CweaveRules(forceLines) && end == Run(s, rules)
    ensures MendsState(end) && forall i :: 0 <= i < |end.scraps| ==> (Applies(end.scraps, i, rules) <==> Parted(Cats(end.scraps), i))
    ensures Stable(end, rules) <==> forall i :: 0 <= i < |end.scraps| ==> !Parted(Cats(end.scraps), i)
  {
    var next := Next(rules);
    var last := RunIsSteps(s, rules, next);
    EveryStateMends(s, leaves, last, rules, forceLines, next);
    assert Iterate(next, s, last) == end;
    forall i | 0 <= i < |end.scraps|
      ensures Applies(end.scraps, i, rules) <==> Parted(Cats(end.scraps), i)
    {
      MendedEnd(Cats(end.scraps), i);
      CweaveApplies(end.scraps, i, rules, forceLines);
    }
  }

  // ---------- rows on which no pair comes about

  /** No colon, and no structure with a body if there is a `new` that may come before it. */
  predicate Harmless(cats: seq<Category>) {
    COLON !in cats && (STRUCT_LIKE !in cats || LBRACE !in cats || (NEW_LIKE !in cats && OPERATOR_LIKE !in cats))
  }

  /** The same, and nothing that could come of what there is not. */
  predicate Tame(cats: seq<Category>) {
    && COLON !in cats && TAG !in cats && BASE !in cats
    && ((STRUCT_HEAD !in cats && (STRUCT_LIKE !in cats || LBRACE !in cats)) || (NEW_LIKE !in cats && OPERATOR_LIKE !in cats))
  }

  predicate Among(c: Category, a0: Category, a1: Category, a2: Category, a3: Category) {
    c == a0 || c == a1 || c == a2 || c == a3
  }

  // Which categories p can bring in.
  predicate BringsLabel(a0: Category, a1: Category, a2: Category, a3: Category, p: Production)
    requires !p.NoRule?
  {
    && (p.cat == COLON ==> Among(COLON, a0, a1, a2, a3))
    && (p.cat == TAG ==> Among(TAG, a0, a1, a2, a3) || Among(COLON, a0, a1, a2, a3))
    && (p.cat == BASE ==> Among(BASE, a0, a1, a2, a3) || Among(COLON, a0, a1, a2, a3))
  }

  predicate BringsStruct(a0: Category, a1: Category, a2: Category, a3: Category, p: Production)
    requires !p.NoRule?
  {
    && (p.cat == LBRACE || p.cat == STRUCT_LIKE || p.cat == OPERATOR_LIKE ==> Among(p.cat, a0, a1, a2, a3))
    && (p.cat == NEW_LIKE ==> Among(NEW_LIKE, a0, a1, a2, a3) || Among(OPERATOR_LIKE, a0, a1, a2, a3))
  }

  predicate BringsHead(a0: Category, a1: Category, a2: Category, a3: Category, p: Production)
    requires !p.NoRule?
  {
    p.cat == STRUCT_HEAD ==> Among(STRUCT_HEAD, a0, a1, a2, a3) || (Among(STRUCT_LIKE, a0, a1, a2, a3) && Among(LBRACE, a0, a1, a2, a3))
  }

  lemma RulesBringLabel(a0: Category, a1: Category, a2: Category, a3: Category, forceLines: bool)
    ensures var p := CategoryRules(a0, a1, a2, a3, forceLines); p.NoRule? || BringsLabel(a0, a1, a2, a3, p)
  {
  }

  lemma RulesBringStruct(a0: Category, a1: Category, a2: Category, a3: Category, forceLines: bool)
    ensures var p := CategoryRules(a0, a1, a2, a3, forceLines); p.NoRule? || BringsStruct(a0, a1, a2, a3, p)
  {
  }

  lemma RulesBringHead(a0: Category, a1: Category, a2: Category, a3: Category, forceLines: bool)
    ensures var p := CategoryRules(a0, a1, a2, a3, forceLines); p.NoRule? || BringsHead(a0, a1, a2, a3, p)
  {
  }

  lemma MatchBrings(a0: Category, a1: Category, a2: Category, a3: Category, p: Production, forceLines: bool)
    requires p == Match(a0, a1, a2, a3, forceLines) && !p.NoRule?
    ensures BringsLabel(a0, a1, a2, a3, p) && BringsStruct(a0, a1, a2, a3, p) && BringsHead(a0, a1, a2, a3, p)
  {
    RulesBringLabel(a0, a1, a2, a3, forceLines);
    RulesBringStruct(a0, a1, a2, a3, forceLines);
    RulesBringHead(a0, a1, a2, a3, forceLines);
  }

  lemma AfterMembers(cats: seq<Category>, pp: nat, p: Production, now: seq<Category>, c: Category)
    requires !p.NoRule? && 1 <= p.k && pp + p.at + p.k <= |cats| && After(cats, pp, p, now) && c in now
    ensures c in cats || c == p.cat || c == RAW_INT
  {
    var x :| 0 <= x < |now| && now[x] == c;
    assert x < pp + p.at ==> now[x] == cats[x];
    assert x > pp + p.at ==> now[x] == cats[x + p.k - 1] || now[x] == RAW_INT;
  }

  lemma PeekMember(cats: seq<Category>, i: nat, c: Category)
    requires Peek(cats, i) == c && c != PADDING
    ensures c in cats
  {
  }

  lemma StaysTame(cats: seq<Category>, pp: nat, p: Production, now: seq<Category>, forceLines: bool)
    requires Chosen(cats, pp, p, forceLines) && After(cats, pp, p, now) && Tame(cats)
    ensures Tame(now)
  {
    MatchBrings(Peek(cats, pp), Peek(cats, pp + 1), Peek(cats, pp + 2), Peek(cats, pp + 3), p, forceLines);
    forall c: Category | c in now
      ensures c in cats || c == p.cat || c == RAW_INT
    {
      AfterMembers(cats, pp, p, now, c);
    }
  }

  lemma TameHasNone(cats: seq<Category>, i: nat)
    requires Tame(cats)
    ensures !Parted(cats, i)
  {
    var b, c := Peek(cats, i), Peek(cats, i + 1);
    if b == NEW_LIKE { PeekMember(cats, i, b); }
    if c == TAG || c == BASE || c == STRUCT_HEAD { PeekMember(cats, i + 1, c); }
  }

  ghost predicate TameState(s: State) {
    WellFormed(s) && Tame(Cats(s.scraps))
  }

  lemma NextTame(t: State, rules: Rules, forceLines: bool, next: State -> State)
    requires TameState(t) && SoundRules(rules) && rules == CweaveRules(forceLines) && next == Next(rules)
    ensures TameState(next(t))
  {
    var cats := Cats(t.scraps);
    if t.pp == |t.scraps| {
      NextIsStep(t, rules);
    } else if !FiresAt(cats, t.pp) {
      var u := NextMoves(t, rules, forceLines, next);
    } else {
      var p := NextFires(t, rules, forceLines, next);
      StaysTame(cats, t.pp, p, Cats(next(t).scraps), forceLines);
    }
  }

  lemma ScannedTame(s: State, leaves: seq<Leaf>)
    requires FromScanner(s, leaves) && Harmless(Cats(s.scraps))
    ensures TameState(s)
  {
    ScannedHasNone(s, leaves, TAG);
    ScannedHasNone(s, leaves, BASE);
    ScannedHasNone(s, leaves, STRUCT_HEAD);
  }

  /** If the scanned scraps are harmless, no production applies when `translate` ends. */
  lemma HarmlessIsStable(s: State, leaves: seq<Leaf>, rules: Rules, end: State, forceLines: bool)
    requires FromScanner(s, leaves) && Harmless(Cats(s.scraps)) && SoundRules(rules) && rules == CweaveRules(forceLines)
    requires end == Run(s, rules)
    ensures Stable(end, rules)
  {
    var next := Next(rules);
    var last := RunIsSteps(s, rules, next);
    ScannedTame(s, leaves);
    forall t | TameState(t)
      ensures TameState(next(t))
    {
      NextTame(t, rules, forceLines, next);
    }
    Invariance(next, s, last, t => TameState(t));
    assert Iterate(next, s, last) == end;
    EndsParted(s, leaves, rules, end, forceLines);
    forall i | 0 <= i < |end.scraps|
      ensures !Parted(Cats(end.scraps), i)
    {
      TameHasNone(Cats(end.scraps), i);
    }
  }

  // ---------- labels

  function Tags(n: nat): seq<Category> { seq(n, _ => TAG) }

  /** n times a label and its colon. */
  function Labels(n: nat): seq<Category> { seq(2 * n, i => if i % 2 == 0 then EXP else COLON) }

  lemma RunNext(t: State, rules: Rules, next: State -> State)
    requires WellFormed(t) && SoundRules(rules) && next == Next(rules) && t.pp < |t.scraps|
    ensures WellFormed(next(t)) && Run(t, rules) == Run(next(t), rules)
  {
    NextIsStep(t, rules);
    StepDescends(t, rules);
  }

  lemma LabelWindow(x: Category, y: Category, forceLines: bool)
    requires x != INSERT && y != INSERT
    ensures !Fires(TAG, EXP, COLON, x) && !Fires(TAG, PADDING, PADDING, PADDING) && Fires(TAG, TAG, x, y)
    ensures Match(EXP, COLON, x, y, forceLines) == Squash(0, 2, TAG, 0, 7)
  {
  }

  /** i tags, and m labels after them. */
  function LabelRow(i: nat, m: nat): seq<Category> { Tags(i) + Labels(m) }

  lemma LabelPeeks(i: nat, m: nat)
    ensures |LabelRow(i, m)| == i + 2 * m && INSERT !in LabelRow(i, m)
    ensures m > 0 ==> Peek(LabelRow(i, m), i) == EXP && Peek(LabelRow(i, m), i + 1) == COLON
    ensures i > 0 ==> Peek(LabelRow(i, m), i - 1) == TAG
  {
    assert m > 0 ==> Labels(m)[0] == EXP && Labels(m)[1] == COLON;
    assert i > 0 ==> Tags(i)[i-1] == TAG;
  }

  lemma LabelReplaced(i: nat, m: nat, p: Production, now: seq<Category>)
    requires m > 0 && p == Squash(0, 2, TAG, 0, 7) && |LabelRow(i, m)| == i + 2 * m && After(LabelRow(i, m), i, p, now)
    ensures now == LabelRow(i + 1, m - 1)
  {
    forall x | 0 <= x < |now|
      ensures now[x] == LabelRow(i + 1, m - 1)[x]
    {
      if x < i {
        assert now[x] == LabelRow(i, m)[x] == Tags(i)[x];
      } else if x > i {
        assert now[x] == LabelRow(i, m)[x + 1] == Labels(m)[x + 1 - i];
        assert LabelRow(i + 1, m - 1)[x] == Labels(m - 1)[x - 1 - i];
      }
    }
  }

  // One label, with i tags before it, becomes a tag.
  lemma LabelTaken(t: State, i: nat, m: nat, rules: Rules, forceLines: bool, next: State -> State) returns (u: State)
    requires WellFormed(t) && SoundRules(rules) && rules == CweaveRules(forceLines) && next == Next(rules)
    requires m > 0 && Cats(t.scraps) == LabelRow(i, m) && t.pp == i
    ensures Cats(u.scraps) == LabelRow(i + 1, m - 1) && u.pp == i && WellFormed(u) && Run(t, rules) == Run(u, rules)
  {
    var cats, p := LabelRow(i, m), Squash(0, 2, TAG, 0, 7);
    LabelPeeks(i, m);
    LabelWindow(Peek(cats, i + 2), Peek(cats, i + 3), forceLines);
    FiresOnce(t, p, rules, forceLines, next);
    RunNext(t, rules, next);
    u := next(t);
    LabelReplaced(i, m, p, Cats(u.scraps));
  }

  lemma TagPassed(t: State, i: nat, m: nat, rules: Rules, forceLines: bool, next: State -> State) returns (u: State)
    requires WellFormed(t) && SoundRules(rules) && rules == CweaveRules(forceLines) && next == Next(rules)
    requires i > 0 && Cats(t.scraps) == LabelRow(i, m) && t.pp == i - 1
    ensures Cats(u.scraps) == LabelRow(i, m) && u.pp == i && WellFormed(u) && Run(t, rules) == Run(u, rules)
  {
    LabelPeeks(i, m);
    LabelWindow(if m > 0 then Peek(LabelRow(i, m), i + 2) else PADDING, PADDING, forceLines);
    MovesOn(t, rules, forceLines, next);
    RunNext(t, rules, next);
    u := next(t);
  }

  lemma {:induction false} LabelsTaken(t: State, i: nat, m: nat, n: nat, rules: Rules, forceLines: bool, next: State -> State)
    requires WellFormed(t) && SoundRules(rules) && rules == CweaveRules(forceLines) && next == Next(rules)
    requires i > 0 && Cats(t.scraps) == LabelRow(i, m) && t.pp == i - 1 && n == i + m
    ensures Cats(Run(t, rules).scraps) == Tags(n)
    decreases m
  {
    var u := TagPassed(t, i, m, rules, forceLines, next);
    if m == 0 {
      LabelsOver(u, n, rules);
    } else {
      var v := LabelTaken(u, i, m, rules, forceLines, next);
      LabelsTaken(v, i + 1, m - 1, n, rules, forceLines, next);
    }
  }

  lemma LabelsOver(t: State, i: nat, rules: Rules)
    requires WellFormed(t) && SoundRules(rules) && Cats(t.scraps) == LabelRow(i, 0) && t.pp == i
    ensures Cats(Run(t, rules).scraps) == Tags(i)
  {
    NoLabels(i);
    assert |t.scraps| == |Cats(t.scraps)|;
    RunOver(t, rules);
  }

  lemma NoLabels(i: nat)
    ensures LabelRow(i, 0) == Tags(i) && LabelRow(0, i) == Labels(i) && |Tags(i)| == i
  {
  }

  lemma RunOver(t: State, rules: Rules)
    requires WellFormed(t) && SoundRules(rules) && t.pp == |t.scraps|
    ensures Run(t, rules) == t
  {
  }

  lemma LabelsEnd(s: State, n: nat, rules: Rules, forceLines: bool)
    requires WellFormed(s) && s.pp == 0 && Cats(s.scraps) == Labels(n) && SoundRules(rules) && rules == CweaveRules(forceLines)
    ensures Cats(Run(s, rules).scraps) == Tags(n)
  {
    NoLabels(n);
    if n == 0 {
      LabelsOver(s, 0, rules);
    } else {
      var next := Next(rules);
      var t := LabelTaken(s, 0, n, rules, forceLines, next);
      LabelsTaken(t, 1, n - 1, n, rules, forceLines, next);
    }
  }

  /** Two labels or more in a row stay apart: production 7 leaves the cursor on the tag that
      it makes, and production 74, which would join it with the tag before, is not tried. */
  lemma LabelsStayApart(s: State, leaves: seq<Leaf>, n: nat, rules: Rules, end: State, forceLines: bool)
    requires FromScanner(s, leaves) && Cats(s.scraps) == Labels(n) && SoundRules(rules) && rules == CweaveRules(forceLines)
    requires end == Run(s, rules)
    ensures Cats(end.scraps) == Tags(n) && (Stable(end, rules) <==> n <= 1)
  {
    LabelsEnd(s, n, rules, forceLines);
    TagsAreStable(end, n, rules, forceLines);
  }

  lemma TagsAreStable(end: State, n: nat, rules: Rules, forceLines: bool)
    requires Cats(end.scraps) == Tags(n) && rules == CweaveRules(forceLines)
    ensures Stable(end, rules) <==> n <= 1
  {
    LabelWindow(if n > 2 then TAG else PADDING, if n > 3 then TAG else PADDING, forceLines);
    forall i | 0 <= i < n
      ensures Applies(end.scraps, i, rules) <==> FiresAt(Tags(n), i)
    {
      CweaveApplies(end.scraps, i, rules, forceLines);
    }
    if n > 1 { assert Applies(end.scraps, 0, rules); }
  }

  // ---------- `new` before a structure

  lemma NewWindows(x: Category, forceLines: bool)
    requires x == PADDING || x == LBRACE
    ensures Match(OPERATOR_LIKE, STRUCT_LIKE, LBRACE, PADDING, forceLines) == Squash(0, 1, NEW_LIKE, 0, 99)
    ensures !Fires(NEW_LIKE, STRUCT_LIKE, LBRACE, PADDING)
    ensures Match(STRUCT_LIKE, LBRACE, PADDING, PADDING, forceLines) == Reduce(0, 2, STRUCT_HEAD, 0, 44, Spaced())
    ensures !Fires(STRUCT_HEAD, PADDING, PADDING, PADDING) && Fires(NEW_LIKE, STRUCT_HEAD, PADDING, PADDING)
  {
  }

  lemma NewEnds(t: State, rules: Rules, forceLines: bool)
    requires WellFormed(t) && SoundRules(rules) && rules == CweaveRules(forceLines)
    requires Cats(t.scraps) == [NEW_LIKE, STRUCT_LIKE, LBRACE] && t.pp == 0
    ensures Cats(Run(t, rules).scraps) == [NEW_LIKE, STRUCT_HEAD]
  {
    var next := Next(rules);
    NewWindows(PADDING, forceLines);
    MovesOn(t, rules, forceLines, next);
    RunNext(t, rules, next);
    var t1 := next(t);
    FiresOnce(t1, Reduce(0, 2, STRUCT_HEAD, 0, 44, Spaced()), rules, forceLines, next);
    RunNext(t1, rules, next);
    HeadEnds(next(t1), rules, forceLines);
  }

  lemma HeadEnds(t: State, rules: Rules, forceLines: bool)
    requires WellFormed(t) && SoundRules(rules) && rules == CweaveRules(forceLines)
    requires |t.scraps| == 2 && Cats(t.scraps)[0] == NEW_LIKE && Cats(t.scraps)[1] == STRUCT_HEAD && t.pp == 1
    ensures Cats(Run(t, rules).scraps) == [NEW_LIKE, STRUCT_HEAD]
  {
    var next := Next(rules);
    NewWindows(PADDING, forceLines);
    MovesOn(t, rules, forceLines, next);
    RunNext(t, rules, next);
    RunOver(next(t), rules);
  }

  lemma OperatorEnds(t: State, rules: Rules, forceLines: bool)
    requires WellFormed(t) && SoundRules(rules) && rules == CweaveRules(forceLines)
    requires Cats(t.scraps) == [OPERATOR_LIKE, STRUCT_LIKE, LBRACE] && t.pp == 0
    ensures Cats(Run(t, rules).scraps) == [NEW_LIKE, STRUCT_HEAD]
  {
    var u := OperatorTaken(t, rules, forceLines);
    NewEnds(u, rules, forceLines);
  }

  lemma OperatorTaken(t: State, rules: Rules, forceLines: bool) returns (u: State)
    requires WellFormed(t) && SoundRules(rules) && rules == CweaveRules(forceLines)
    requires Cats(t.scraps) == [OPERATOR_LIKE, STRUCT_LIKE, LBRACE] && t.pp == 0
    ensures WellFormed(u) && Cats(u.scraps) == [NEW_LIKE, STRUCT_LIKE, LBRACE] && u.pp == 0 && Run(t, rules) == Run(u, rules)
  {
    var next := Next(rules);
    NewWindows(PADDING, forceLines);
    FiresOnce(t, Squash(0, 1, NEW_LIKE, 0, 99), rules, forceLines, next);
    RunNext(t, rules, next);
    u := next(t);
  }

  lemma HeadIsLeft(end: State, rules: Rules, forceLines: bool)
    requires Cats(end.scraps) == [NEW_LIKE, STRUCT_HEAD] && rules == CweaveRules(forceLines)
    ensures !Stable(end, rules)
  {
    NewWindows(PADDING, forceLines);
    CweaveApplies(end.scraps, 0, rules, forceLines);
    assert |end.scraps| == |Cats(end.scraps)| && Applies(end.scraps, 0, rules);
  }

  /** The head of a structure stays behind `new` or `operator`: production 96, which would
      make an expression of `new`, is not tried again. */
  lemma HeadStaysApart(s: State, leaves: seq<Leaf>, b: Category, rules: Rules, end: State, forceLines: bool)
    requires FromScanner(s, leaves) && (b == NEW_LIKE || b == OPERATOR_LIKE) && Cats(s.scraps) == [b, STRUCT_LIKE, LBRACE]
    requires SoundRules(rules) && rules == CweaveRules(forceLines) && end == Run(s, rules)
    ensures Cats(end.scraps) == [NEW_LIKE, STRUCT_HEAD] && !Stable(end, rules)
  {
    if b == NEW_LIKE { NewEnds(s, rules, forceLines); } else { OperatorEnds(s, rules, forceLines); }
    HeadIsLeft(end, rules, forceLines);
  }

  // ---------- which categories a program must do without

  ghost predicate Without(s: State, without: set<Category>) {
    forall c :: c in without ==> c !in Cats(s.scraps)
  }

  /** Every program without these categories ends with no production left to apply. */
  ghost predicate AlwaysStable(without: set<Category>, rules: Rules)
    requires SoundRules(rules)
  {
    forall s: State, leaves: seq<Leaf> {:trigger FromScanner(s, leaves)} ::
      FromScanner(s, leaves) && Without(s, without) ==> Stable(Run(s, rules), rules)
  }

  predicate Suffices(without: set<Category>) {
    COLON in without && (STRUCT_LIKE in without || LBRACE in without || (NEW_LIKE in without && OPERATOR_LIKE in without))
  }

  lemma SufficesIsStable(without: set<Category>, rules: Rules, forceLines: bool)
    requires SoundRules(rules) && rules == CweaveRules(forceLines) && Suffices(without)
    ensures AlwaysStable(without, rules)
  {
    forall s: State, leaves: seq<Leaf> | FromScanner(s, leaves) && Without(s, without)
      ensures Stable(Run(s, rules), rules)
    {
      HarmlessIsStable(s, leaves, rules, Run(s, rules), forceLines);
    }
  }

  // A row of its own for each way in which categories do not suffice.
  lemma RowFails(cats: seq<Category>, without: set<Category>, rules: Rules, forceLines: bool)
    requires SoundRules(rules) && rules == CweaveRules(forceLines) && (forall c :: c in without ==> c !in cats)
    requires cats == Labels(2) || cats == [NEW_LIKE, STRUCT_LIKE, LBRACE] || cats == [OPERATOR_LIKE, STRUCT_LIKE, LBRACE]
    ensures !AlwaysStable(without, rules)
  {
    RowIsScanned(cats);
    var s, leaves := RowState(cats), RowLeaves(cats);
    var end := Run(s, rules);
    if cats == Labels(2) {
      LabelsStayApart(s, leaves, 2, rules, end, forceLines);
    } else {
      HeadStaysApart(s, leaves, cats[0], rules, end, forceLines);
    }
  }

  /** For programs that may have expressions: to do without some categories keeps anything
      from being left behind exactly if colons are among them, and either structures or
      left braces or both of `new` and `operator`. */
  lemma StableExactlyWithout(without: set<Category>, rules: Rules, forceLines: bool)
    requires SoundRules(rules) && rules == CweaveRules(forceLines) && EXP !in without
    ensures AlwaysStable(without, rules) <==> Suffices(without)
  {
    if Suffices(without) {
      SufficesIsStable(without, rules, forceLines);
    } else if COLON !in without {
      assert Labels(2) == [EXP, COLON, EXP, COLON];
      RowFails(Labels(2), without, rules, forceLines);
    } else if NEW_LIKE !in without {
      RowFails([NEW_LIKE, STRUCT_LIKE, LBRACE], without, rules, forceLines);
    } else {
      RowFails([OPERATOR_LIKE, STRUCT_LIKE, LBRACE], without, rules, forceLines);
    }
  }
}
