// What is left when `translate` ends: whether some production still applies, and which
// productions are to blame (cweb/cweave.c:2249-2293, 2295-2942).

module ReducerStable {
  import opened Basics
  import opened Category
  import opened Productions
  import opened ProductionTable
  import opened TextStore
  import opened Reducer
  import opened ReducerRun
  import opened Sight
  import opened Iteration

  // ---------- windows

  predicate Applies(scraps: seq<Scrap>, i: nat, rules: Rules) {
    !ProductionAt(scraps, i, rules).NoRule?
  }

  /** No production applies anywhere. */
  ghost predicate Stable(s: State, rules: Rules) {
    forall i :: 0 <= i < |s.scraps| ==> !Applies(s.scraps, i, rules)
  }

  /** The cursor has passed the window at i though a production applies there. */
  ghost predicate Left(s: State, i: nat, rules: Rules) {
    i < s.pp && i < |s.scraps| && Applies(s.scraps, i, rules)
  }

  /** The iteration at s replaces scraps that the window at i sees, or scraps before it. */
  ghost predicate Reaches(s: State, i: nat, rules: Rules) {
    s.pp < |s.scraps| && Applies(s.scraps, s.pp, rules) && s.pp + ProductionAt(s.scraps, s.pp, rules).at <= i + 3
  }

  ghost predicate NearRules(rules: Rules) {
    forall c0: Category, c1: Category, c2: Category, c3: Category {:trigger Window(c0, c1, c2, c3)} ::
      Window(c0, c1, c2, c3) ==> GoesBackThree(rules(c0, c1, c2, c3))
  }

  lemma TableNear(forceLines: bool)
    ensures NearRules(CweaveRules(forceLines))
  {
    forall c0: Category, c1: Category, c2: Category, c3: Category | Window(c0, c1, c2, c3)
      ensures GoesBackThree(CweaveRules(forceLines)(c0, c1, c2, c3))
    {
      RulesGoBackThree(c0, c1, c2, c3, forceLines);
    }
  }

  // ---------- what an iteration leaves as it is

  lemma {:induction false} ReserveFromKeeps(toks: seq<Token>, starts: seq<nat>, scraps: seq<Scrap>, i: nat, v: Token)
    requires v.IsName() && i <= |scraps| && InStore(toks, starts, scraps)
    ensures var r := ReserveFrom(toks, starts, scraps, i, v); |r.1| == |scraps| && r.1[..i] == scraps[..i]
    decreases |scraps| - i
  {
    if i < |scraps| {
      var r := ReserveOne(toks, starts, scraps, i, v);
      ReserveFromKeeps(r.0, starts, r.1, i + 1, v);
      ReserveFromFlips(toks, starts, scraps, i, v);
      assert r.1[..i] == scraps[..i];
      var after := ReserveFrom(toks, starts, scraps, i, v).1;
      assert after[..i] == after[..i+1][..i];
    }
  }

  lemma MakeReservedKeeps(store: Store, scraps: seq<Scrap>, p: nat)
    requires store.Valid() && store.Acyclic() && InStore(store.toks, store.starts, scraps) && p < |scraps|
    ensures var r := MakeReserved(store, scraps, p); |r.1| == |scraps| && r.1[..p] == scraps[..p]
  {
    match FindFirstIdent(store, scraps[p].trans)
    case None =>
    case Some(loc) => ReserveFromKeeps(store.toks, store.starts, scraps, p, store.toks[loc]);
  }

  function Cats(scraps: seq<Scrap>): (r: seq<Category>)
    ensures |r| == |scraps| && forall i :: 0 <= i < |r| ==> r[i] == scraps[i].cat
  {
    seq(|scraps|, i requires 0 <= i < |scraps| => scraps[i].cat)
  }

  // `make_reserved` turns expressions into type names, from its scrap on.
  lemma PreparedCats(s: State, p: Production)
    requires WellFormed(s) && Fits(p, |s.scraps| - s.pp) && (ReservedAt(p) > 0 ==> p.at <= ReservedAt(p))
    ensures var t := Prepared(s, p).scraps;
            && |t| == |s.scraps|
            && (forall x :: 0 <= x < s.pp + p.at ==> t[x] == s.scraps[x])
            && (forall x :: 0 <= x < |t| ==> t[x].cat == s.scraps[x].cat || (ReservedAt(p) > 0 && s.scraps[x].cat == EXP && t[x].cat == RAW_INT))
  {
    PreparedValid(s, p);
    if ReservedAt(p) > 0 {
      var t, m := Prepared(s, p).scraps, s.pp + ReservedAt(p);
      MakeReservedKeeps(s.store, s.scraps, m);
      forall x | 0 <= x < s.pp + p.at
        ensures t[x] == s.scraps[x]
      {
        assert t[..m][x] == s.scraps[..m][x];
      }
    }
  }

  lemma ReplaceCats(t: seq<Scrap>, q: nat, k: nat, a: Scrap)
    requires 1 <= k && q + k <= |t|
    ensures Cats(Replace(t, q, k, a)) == Cats(t)[..q] + [a.cat] + Cats(t)[q + k..]
  {
  }

  lemma ReplaceAfter(cats: seq<Category>, t: seq<Category>, pp: nat, p: Production, now: seq<Category>)
    requires !p.NoRule? && 1 <= p.k && pp + p.at + p.k <= |cats| == |t|
    requires forall x :: 0 <= x < pp + p.at ==> t[x] == cats[x]
    requires forall x :: 0 <= x < |t| ==> t[x] == cats[x] || (ReservedAt(p) > 0 && cats[x] == EXP && t[x] == RAW_INT)
    requires now == t[..pp + p.at] + [p.cat] + t[pp + p.at + p.k..]
    ensures After(cats, pp, p, now)
  {
    var q := pp + p.at;
    forall x | q < x < |now|
      ensures now[x] == t[x + p.k - 1]
    {
    }
  }

  /** What a production does to the categories. */
  lemma FireAfter(s: State, p: Production)
    requires WellFormed(s) && Fits(p, |s.scraps| - s.pp)
    requires ReservedAt(p) > 0 ==> p.at <= ReservedAt(p)
    ensures |Fire(s, p).scraps| == |s.scraps| - p.k + 1 && After(Cats(s.scraps), s.pp, p, Cats(Fire(s, p).scraps))
    ensures Fire(s, p).pp == Moved(s.pp, p.d)
  {
    if !Retags(p) {
      PreparedValid(s, p);
      PreparedCats(s, p);
      BuildAfter(Cats(s.scraps), Prepared(s, p), p);
    }
  }

  lemma BuildAfter(cats: seq<Category>, t: State, p: Production)
    requires t.pp <= |t.scraps| && t.store.Valid() && Fits(p, |t.scraps| - t.pp) && |cats| == |t.scraps|
    requires forall x :: 0 <= x < t.pp + p.at ==> t.scraps[x].cat == cats[x]
    requires forall x :: 0 <= x < |cats| ==> t.scraps[x].cat == cats[x] || (ReservedAt(p) > 0 && cats[x] == EXP && t.scraps[x].cat == RAW_INT)
    ensures |Build(t, p).scraps| == |cats| - p.k + 1 && After(cats, t.pp, p, Cats(Build(t, p).scraps))
  {
    ReplaceCats(t.scraps, t.pp + p.at, p.k, NewScrap(t, p));
    ReplaceAfter(cats, Cats(t.scraps), t.pp, p, Cats(Build(t, p).scraps));
  }

  lemma SameWindow(a: seq<Scrap>, b: seq<Scrap>, i: nat, rules: Rules)
    requires |a| > i + 3 && |b| > i + 3 && forall x :: i <= x <= i + 3 ==> a[x].cat == b[x].cat
    ensures Applies(a, i, rules) <==> Applies(b, i, rules)
  {
  }

  lemma FireOutOfReach(s: State, p: Production, i: nat, rules: Rules)
    requires WellFormed(s) && Fits(p, |s.scraps| - s.pp) && (ReservedAt(p) > 0 ==> p.at <= ReservedAt(p))
    requires p.at - p.d <= 3 && i + 3 < s.pp + p.at
    ensures Left(Fire(s, p), i, rules) <==> Applies(s.scraps, i, rules)
  {
    FireAfter(s, p);
    var now := Fire(s, p).scraps;
    assert forall x :: i <= x <= i + 3 ==> Cats(now)[x] == Cats(s.scraps)[x];
    SameWindow(s.scraps, now, i, rules);
  }

  /** An iteration that does not reach a window neither leaves it behind nor takes it up. */
  lemma OutOfReach(s: State, i: nat, rules: Rules, p: Production)
    requires WellFormed(s) && s.pp < |s.scraps| && SoundRules(rules) && NearRules(rules) && p == ProductionAt(s.scraps, s.pp, rules)
    requires !Reaches(s, i, rules)
    ensures Left(Step(s, rules), i, rules) <==> Left(s, i, rules)
  {
    ProductionFits(s, rules);
    assert Window(CatAt(s.scraps, s.pp), CatAt(s.scraps, s.pp + 1), CatAt(s.scraps, s.pp + 2), CatAt(s.scraps, s.pp + 3));
    if !p.NoRule? {
      assert p.at + p.k <= 4;
      FireOutOfReach(s, p, i, rules);
    }
  }

  // ---------- which windows are left behind for good

  lemma NextWellFormed(t: State, rules: Rules)
    requires WellFormed(t) && SoundRules(rules)
    ensures WellFormed(Next(rules)(t))
  {
    NextIsStep(t, rules);
    if t.pp < |t.scraps| { StepDescends(t, rules); }
  }

  lemma NextOutOfReach(t: State, i: nat, rules: Rules)
    requires WellFormed(t) && SoundRules(rules) && NearRules(rules) && !Reaches(t, i, rules)
    ensures Left(Next(rules)(t), i, rules) <==> Left(t, i, rules)
  {
    NextIsStep(t, rules);
    if t.pp < |t.scraps| { OutOfReach(t, i, rules, ProductionAt(t.scraps, t.pp, rules)); }
  }

  ghost function ReachesAt(i: nat, rules: Rules): State -> bool { t => Reaches(t, i, rules) }

  ghost function LeftAt(i: nat, rules: Rules): State -> bool { t => Left(t, i, rules) }

  /** The window at i is behind in the end exactly when some iteration leaves it behind and
      none after that reaches it. */
  lemma LeftExactly(s: State, rules: Rules, i: nat, last: nat, end: State, next: State -> State, reach: State -> bool, left: State -> bool)
    requires WellFormed(s) && SoundRules(rules) && NearRules(rules) && s.pp == 0
    requires next == Next(rules) && reach == ReachesAt(i, rules) && left == LeftAt(i, rules)
    requires end.pp == |end.scraps| && forall n: nat :: last <= n ==> Iterate(next, s, n) == end
    ensures left(end) <==> exists m: nat :: LeavesForGood(next, s, m, reach, left)
  {
    forall t | WellFormed(t)
      ensures WellFormed(next(t)) && (!reach(t) ==> left(next(t)) == left(t))
    {
      NextWellFormed(t, rules);
      if !reach(t) { NextOutOfReach(t, i, rules); }
    }
    LeftForGood(next, s, last, end, t => WellFormed(t), reach, left);
  }

  lemma StableMeans(s: State, rules: Rules)
    requires s.pp == |s.scraps|
    ensures Stable(s, rules) <==> forall i: nat :: !LeftAt(i, rules)(s)
  {
    forall i: nat ensures LeftAt(i, rules)(s) <==> i < |s.scraps| && Applies(s.scraps, i, rules) {
    }
  }

  /** When `translate` ends no production applies any more, exactly if every window that an
      iteration leaves behind is reached by a later one. */
  lemma StableExactly(s: State, rules: Rules, end: State, next: State -> State)
    requires WellFormed(s) && SoundRules(rules) && NearRules(rules) && s.pp == 0 && next == Next(rules) && end == Run(s, rules)
    ensures Stable(end, rules)
       <==> !exists m: nat, i: nat :: LeavesForGood(next, s, m, ReachesAt(i, rules), LeftAt(i, rules))
  {
    var last := RunIsSteps(s, rules, next);
    StableMeans(end, rules);
    forall i: nat
      ensures LeftAt(i, rules)(end) <==> exists m: nat :: LeavesForGood(next, s, m, ReachesAt(i, rules), LeftAt(i, rules))
    {
      LeftExactly(s, rules, i, last, end, next, ReachesAt(i, rules), LeftAt(i, rules));
    }
  }

  // ---------- CWEAVE's table

  lemma CweaveApplies(scraps: seq<Scrap>, i: nat, rules: Rules, forceLines: bool)
    requires rules == CweaveRules(forceLines)
    ensures Applies(scraps, i, rules) <==> FiresAt(Cats(scraps), i)
    ensures ProductionAt(scraps, i, rules) == Chooses(Cats(scraps), i, forceLines)
  {
    LinesDoNotMatter(CatAt(scraps, i), CatAt(scraps, i + 1), CatAt(scraps, i + 2), CatAt(scraps, i + 3), forceLines);
  }

  /** When CWEAVE's `translate` ends no production applies any more, exactly if every window
      that an iteration leaves behind is reached by a later one. */
  lemma CweaveStableExactly(s: State, rules: Rules, end: State, forceLines: bool, next: State -> State)
    requires WellFormed(s) && s.pp == 0 && rules == CweaveRules(forceLines) && SoundRules(rules) && next == Next(rules) && end == Run(s, rules)
    ensures Stable(end, rules)
       <==> !exists m: nat, i: nat :: LeavesForGood(next, s, m, ReachesAt(i, rules), LeftAt(i, rules))
  {
    TableNear(forceLines);
    StableExactly(s, rules, end, next);
  }

  /** The iteration at s does not fire a short-sighted production. */
  ghost predicate FarSighted(s: State, rules: Rules) {
    s.pp < |s.scraps| && Applies(s.scraps, s.pp, rules) ==> !ShortSighted(ProductionAt(s.scraps, s.pp, rules).n)
  }

  lemma StepKeepsTidy(s: State, rules: Rules, forceLines: bool)
    requires WellFormed(s) && s.pp < |s.scraps| && SoundRules(rules) && rules == CweaveRules(forceLines)
    requires Tidy(Cats(s.scraps), s.pp) && FarSighted(s, rules)
    ensures Tidy(Cats(Step(s, rules).scraps), Step(s, rules).pp)
  {
    var cats, p := Cats(s.scraps), ProductionAt(s.scraps, s.pp, rules);
    CweaveApplies(s.scraps, s.pp, rules, forceLines);
    ProductionFits(s, rules);
    if p.NoRule? {
      MoveOnTidy(cats, s.pp);
    } else {
      FireAfter(s, p);
      StepTidy(cats, s.pp, p, Cats(Fire(s, p).scraps), forceLines);
    }
  }

  lemma NextKeepsTidy(t: State, rules: Rules, forceLines: bool, next: State -> State)
    requires WellFormed(t) && SoundRules(rules) && rules == CweaveRules(forceLines) && next == Next(rules)
    requires Tidy(Cats(t.scraps), t.pp) && FarSighted(t, rules)
    ensures WellFormed(next(t)) && Tidy(Cats(next(t).scraps), next(t).pp)
  {
    NextIsStep(t, rules);
    NextWellFormed(t, rules);
    if t.pp < |t.scraps| { StepKeepsTidy(t, rules, forceLines); }
  }

  ghost predicate TidyState(s: State) {
    WellFormed(s) && Tidy(Cats(s.scraps), s.pp)
  }

  lemma StepsKeepTidy(s: State, rules: Rules, n: nat, forceLines: bool, next: State -> State)
    requires WellFormed(s) && SoundRules(rules) && rules == CweaveRules(forceLines) && next == Next(rules) && s.pp == 0
    requires forall m: nat :: FarSighted(Iterate(next, s, m), rules)
    ensures TidyState(Iterate(next, s, n))
  {
    forall t | TidyState(t) && FarSighted(t, rules)
      ensures TidyState(next(t))
    {
      NextKeepsTidy(t, rules, forceLines, next);
    }
    InvarianceWhile(next, s, n, t => TidyState(t), t => FarSighted(t, rules));
  }

  /** If a run fires none of the twelve short-sighted productions, no production applies any
      more at its end. */
  lemma FarSightedIsStable(s: State, rules: Rules, end: State, forceLines: bool, next: State -> State)
    requires WellFormed(s) && SoundRules(rules) && rules == CweaveRules(forceLines) && next == Next(rules) && s.pp == 0
    requires end == Run(s, rules) && forall m: nat :: FarSighted(Iterate(next, s, m), rules)
    ensures Stable(end, rules)
  {
    var last := RunIsSteps(s, rules, next);
    assert Iterate(next, s, last) == end;
    StepsKeepTidy(s, rules, last, forceLines, next);
    forall i | 0 <= i < |end.scraps|
      ensures !Applies(end.scraps, i, rules)
    {
      TidyEnd(Cats(end.scraps), i);
      CweaveApplies(end.scraps, i, rules, forceLines);
    }
  }

  // ---------- single iterations

  lemma MovesOn(s: State, rules: Rules, forceLines: bool, next: State -> State)
    requires WellFormed(s) && SoundRules(rules) && rules == CweaveRules(forceLines) && next == Next(rules)
    requires s.pp < |s.scraps| && !FiresAt(Cats(s.scraps), s.pp)
    ensures next(s) == s.(pp := s.pp + 1) && WellFormed(next(s))
  {
    CweaveApplies(s.scraps, s.pp, rules, forceLines);
    NextIsStep(s, rules);
  }

  lemma FiresOnce(s: State, p: Production, rules: Rules, forceLines: bool, next: State -> State)
    requires WellFormed(s) && SoundRules(rules) && rules == CweaveRules(forceLines) && next == Next(rules)
    requires s.pp < |s.scraps| && p == Chooses(Cats(s.scraps), s.pp, forceLines) && !p.NoRule?
    ensures WellFormed(next(s)) && next(s).pp == Moved(s.pp, p.d)
    ensures Fits(p, |s.scraps| - s.pp) && After(Cats(s.scraps), s.pp, p, Cats(next(s).scraps))
  {
    CweaveApplies(s.scraps, s.pp, rules, forceLines);
    ProductionFits(s, rules);
    FireAfter(s, p);
    NextIsStep(s, rules);
    NextWellFormed(s, rules);
  }
}
