// `translate` as a whole: its iterations keep the state well formed, and they end
// (cweb/cweave.c:2077-2085, 2143-2239, 2951-2970).

module ReducerRun {
  import opened Category
  import opened Productions
  import opened ProductionTable
  import opened TextStore
  import opened Reducer
  import opened Iteration

  // ---------- the state stays well formed

  /** Texts built by productions hold codes and references only. */
  predicate Built(out: seq<Token>, bound: nat) {
    forall i :: 0 <= i < |out| ==> out[i].Code? || (out[i].Ref? && out[i].t < bound)
  }

  lemma {:induction false} BodyBuilds(body: seq<Op>, j: nat, b: Draft, window: seq<Scrap>, bound: nat)
    requires j <= |body| && forall op :: op in body ==> InRange(op, |window|)
    requires Built(b.out, bound)
    requires forall i :: 0 <= i < |window| ==> window[i].trans < bound
    ensures var r := PerformAll(body, j, b, window);
            Built(r.out, bound) && |b.out| <= |r.out| && (j < |body| && body[|body|-1] != SetMath ==> |b.out| < |r.out|)
    decreases |body| - j
  {
    if j < |body| {
      BodyBuilds(body, j + 1, Perform(b, body[j], window), window, bound);
    }
  }

  lemma FlippedStore(a: Store, b: Store)
    requires a.Valid() && a.Acyclic() && a.starts == b.starts && FlippedAll(a.toks, b.toks)
    ensures b.Valid() && b.Acyclic()
  {
    forall t, i | 0 <= t < b.Texts() && b.starts[t] <= i < b.starts[t+1] && b.toks[i].IsRef()
      ensures b.toks[i].Number() < t
    {
      assert b.toks[i] == a.toks[i];
    }
  }

  lemma AppendAcyclic(s: Store, out: seq<Token>)
    requires s.Valid() && s.Acyclic() && Built(out, s.Texts())
    ensures s.Append(out).Acyclic()
  {
    var r := s.Append(out);
    forall t, i | 0 <= t < r.Texts() && r.starts[t] <= i < r.starts[t+1] && r.toks[i].IsRef()
      ensures r.toks[i].Number() < t
    {
      if t == s.Texts() {
        assert r.toks[i] == out[i - |s.toks|];
      } else {
        assert r.starts[t+1] == s.starts[t+1] <= |s.toks|;
      }
    }
  }

  lemma SoundShapely(s: State, p: Production)
    requires SoundAt(s.scraps, s.pp, p)
    ensures Shapely(p)
  {
    if BuildsText(p) {
      InOrderEnds(Body(p), 0, p.at, p.at + p.k, PairsExps(p));
    }
  }

  lemma InOrderEnds(body: seq<Op>, j: nat, i: nat, hi: nat, blank: bool)
    requires j <= |body| && InOrder(body, j, i, hi, blank)
    ensures j == |body| ==> i == hi
    ensures j < |body| ==> body[|body|-1] != SetMath
    decreases |body| - j
  {
    if j + 1 < |body| {
      InOrderEnds(body, j + 1, if body[j].Take? then i + 1 else i, hi, blank);
    }
  }

  lemma PreparedWellFormed(s: State, p: Production)
    requires WellFormed(s) && Fits(p, |s.scraps| - s.pp)
    ensures WellFormed(Prepared(s, p))
  {
    PreparedValid(s, p);
    FlippedStore(s.store, Prepared(s, p).store);
  }

  lemma ReplaceWellFormed(store: Store, scraps: seq<Scrap>, pp: nat, out: seq<Token>, j: nat, k: nat, built: Scrap, pp': nat)
    requires WellFormed(State(store, scraps, pp)) && Built(out, store.Texts()) && |out| > 0
    requires 1 <= k && j + k <= |scraps| && built.trans == store.Texts() && built.cat != PADDING
    requires pp' <= j + 1
    ensures WellFormed(State(store.Append(out), Replace(scraps, j, k, built), pp'))
  {
    AppendAcyclic(store, out);
    var after := Replace(scraps, j, k, built);
    forall i | 0 <= i < |after| && i != j
      ensures after[i] == scraps[if i < j then i else i + k - 1]
    {
    }
  }

  predicate Shapely(p: Production) {
    p.NoRule? || (p.cat != PADDING && p.d <= 1 && (Retags(p) || (|Body(p)| > 0 && Body(p)[|Body(p)|-1] != SetMath)))
  }

  lemma BuildWellFormed(s: State, p: Production)
    requires WellFormed(s) && Shapely(p) && !Retags(p) && Fits(p, |s.scraps| - s.pp)
    ensures WellFormed(Build(s, p))
  {
    var b := Drafted(s, p);
    BodyBuilds(Body(p), 0, EMPTY_DRAFT, s.scraps[s.pp..], s.store.Texts());
    ReplaceWellFormed(s.store, s.scraps, s.pp, b.out, s.pp + p.at, p.k,
                      NewScrap(s, p), Moved(s.pp, p.d));
  }

  lemma FireWellFormed(s: State, p: Production)
    requires WellFormed(s) && Shapely(p) && Fits(p, |s.scraps| - s.pp)
    ensures WellFormed(Fire(s, p))
  {
    if !Retags(p) {
      PreparedValid(s, p);
      PreparedWellFormed(s, p);
      BuildWellFormed(Prepared(s, p), p);
    }
  }

  // ---------- termination

  function SumRank(scraps: seq<Scrap>): nat {
    if scraps == [] then 0 else Rank(scraps[0].cat) + SumRank(scraps[1..])
  }

  lemma {:induction false} SumRankLowered(scraps: seq<Scrap>, j: nat, c: Category)
    requires j < |scraps| && Rank(c) < Rank(scraps[j].cat)
    ensures forall m, t :: SumRank(scraps[j := Scrap(c, m, t)]) < SumRank(scraps)
  {
    forall m, t ensures SumRank(scraps[j := Scrap(c, m, t)]) < SumRank(scraps) {
      var lowered := scraps[j := Scrap(c, m, t)];
      if j == 0 {
        assert lowered[1..] == scraps[1..];
      } else {
        SumRankLowered(scraps[1..], j - 1, c);
        assert lowered[1..] == scraps[1..][j-1 := Scrap(c, m, t)];
      }
    }
  }

  ghost predicate Before(s: State, t: State) {
    || |t.scraps| < |s.scraps|
    || (|t.scraps| == |s.scraps| && SumRank(t.scraps) < SumRank(s.scraps))
    || (t.scraps == s.scraps && t.pp == s.pp + 1 <= |s.scraps|)
  }

  lemma FireDescends(s: State, p: Production)
    requires WellFormed(s) && Fits(p, |s.scraps| - s.pp)
    requires p.k == 1 ==> ReservedAt(p) == 0 && Rank(p.cat) < Rank(s.scraps[s.pp + p.at].cat)
    ensures Before(s, Fire(s, p))
  {
    if !Retags(p) { PreparedValid(s, p); }
    if p.k == 1 {
      var j := s.pp + p.at;
      SumRankLowered(s.scraps, j, p.cat);
      var after := Fire(s, p).scraps;
      assert after == s.scraps[j := Scrap(p.cat, after[j].mathness, after[j].trans)];
    }
  }

  /** Every iteration loses a scrap, or keeps the number of scraps and lowers the
      sum of their ranks, or changes nothing and moves the cursor right. */
  lemma StepDescends(s: State, rules: Rules)
    requires WellFormed(s) && s.pp < |s.scraps| && SoundRules(rules)
    ensures var t := Step(s, rules); WellFormed(t) && Before(s, t)
  {
    var p := ProductionAt(s.scraps, s.pp, rules);
    ProductionFits(s, rules);
    if !p.NoRule? {
      SoundShapely(s, p);
      FireWellFormed(s, p);
      FireDescends(s, p);
    }
  }

  /** All the iterations of `translate`: it stops when the cursor has passed the last scrap. */
  ghost function Run(s: State, rules: Rules): (r: State)
    requires WellFormed(s) && SoundRules(rules)
    ensures WellFormed(r) && r.pp == |r.scraps|
    decreases |s.scraps|, SumRank(s.scraps), |s.scraps| - s.pp
  {
    if s.pp == |s.scraps| then s
    else
      StepDescends(s, rules);
      Run(Step(s, rules), rules)
  }

  /** One iteration, nothing at the end. */
  ghost function Next(rules: Rules): State -> State {
    (s: State) => if WellFormed(s) && SoundRules(rules) && s.pp < |s.scraps| then Step(s, rules) else s
  }

  /** The state after n iterations, or at the end if that comes first. */
  ghost function Steps(s: State, rules: Rules, n: nat): State {
    Iterate(Next(rules), s, n)
  }

  lemma NextIsStep(s: State, rules: Rules)
    requires WellFormed(s) && SoundRules(rules)
    ensures s.pp < |s.scraps| ==> Next(rules)(s) == Step(s, rules)
    ensures s.pp == |s.scraps| ==> Next(rules)(s) == s
  {
  }

  /** `translate` stops after finitely many iterations, in the state Run gives. */
  lemma {:induction false} RunIsSteps(s: State, rules: Rules, next: State -> State) returns (n: nat)
    requires WellFormed(s) && SoundRules(rules) && next == Next(rules)
    ensures forall m :: n <= m ==> Iterate(next, s, m) == Run(s, rules)
    decreases |s.scraps|, SumRank(s.scraps), |s.scraps| - s.pp
  {
    NextIsStep(s, rules);
    if s.pp == |s.scraps| {
      n := 0;
      forall m: nat { IterateFixed(next, s, m); }
    } else {
      StepDescends(s, rules);
      var rest := RunIsSteps(Step(s, rules), rules, next);
      n := rest + 1;
      OneStepMore(next, s, Step(s, rules), rest, Run(s, rules));
    }
  }

  lemma OneStepMore<S>(next: S -> S, s: S, t: S, rest: nat, end: S)
    requires next(s) == t && forall m :: rest <= m ==> Iterate(next, t, m) == end
    ensures forall m :: rest + 1 <= m ==> Iterate(next, s, m) == end
  {
    forall m | rest + 1 <= m
      ensures Iterate(next, s, m) == end
    {
      IterateFirst(next, s, m - 1);
    }
  }

  /** Whatever number of iterations reaches the end, it reaches the state Run gives. */
  lemma EndIsRun(s: State, rules: Rules, n: nat, next: State -> State, t: State)
    requires WellFormed(s) && SoundRules(rules) && next == Next(rules)
    requires t == Iterate(next, s, n) && WellFormed(t) && t.pp == |t.scraps|
    ensures t == Run(s, rules)
  {
    NextIsStep(t, rules);
    var last := RunIsSteps(s, rules, next);
    IterateFixed(next, t, last);
    IterateSum(next, s, n, last);
  }
}
