// The runs of `translate` in a token memory of limited size: the states they pass
// through, and the first of them at which the memory gives trouble
// (cweb/cweave.c:2269-2293).

module RunFate {
  import opened Category
  import opened Productions
  import opened ProductionTable
  import opened TextStore
  import opened Reducer
  import opened ReducerRun
  import opened TokenRoom
  import opened Iteration

  /** t comes after s in a run. */
  ghost predicate Follows(s: State, t: State, rules: Rules) {
    SoundRules(rules) && WellFormed(s) && s.pp < |s.scraps| && t == Step(s, rules)
  }

  ghost predicate Linked(run: seq<State>, i: nat, rules: Rules)
    requires i + 1 < |run|
  {
    Follows(run[i], run[i+1], rules)
  }

  /** The states of a run so far. */
  ghost predicate IsRun(run: seq<State>, rules: Rules) {
    |run| > 0 && forall i :: 0 <= i < |run| - 1 ==> Linked(run, i, rules)
  }

  /** The run goes to s. */
  ghost predicate RunTo(run: seq<State>, rules: Rules, s: State) {
    IsRun(run, rules) && run[|run|-1] == s && WellFormed(s)
  }

  lemma ExtendRun(run: seq<State>, rules: Rules, t: State)
    requires IsRun(run, rules) && Follows(run[|run|-1], t, rules)
    ensures IsRun(run + [t], rules)
  {
    forall i | 0 <= i < |run|
      ensures Linked(run + [t], i, rules)
    {
      if i < |run| - 1 { assert Linked(run, i, rules); }
    }
  }

  lemma StepFollows(s: State, rules: Rules, run: seq<State>, t: State)
    requires RunTo(run, rules, s) && SoundRules(rules) && s.pp < |s.scraps| && t == Step(s, rules)
    ensures RunTo(run + [t], rules, t) && Before(s, t)
  {
    StepDescends(s, rules);
    ExtendRun(run, rules, t);
  }

  lemma LinkIsNext(run: seq<State>, rules: Rules, m: nat, next: State -> State)
    requires IsRun(run, rules) && m + 1 < |run| && next == Next(rules)
    ensures next(run[m]) == run[m+1]
  {
    assert Linked(run, m, rules);
    NextIsStep(run[m], rules);
  }

  lemma {:induction false} RunPrefix(run: seq<State>, rules: Rules, m: nat, next: State -> State)
    requires IsRun(run, rules) && m < |run| && next == Next(rules)
    ensures run[m] == Iterate(next, run[0], m)
    decreases m
  {
    if m > 0 {
      RunPrefix(run, rules, m - 1, next);
      LinkIsNext(run, rules, m - 1, next);
    }
  }

  lemma StaysAt<S>(next: S -> S, s: S, t: S, n: nat, m: nat)
    requires next(t) == t && t == Iterate(next, s, n) && n <= m
    ensures Iterate(next, s, m) == t
  {
    IterateFixed(next, t, m - n);
    IterateSum(next, s, n, m - n);
  }

  lemma RunReaches(run: seq<State>, rules: Rules, s: State, t: State, n: nat, next: State -> State)
    requires IsRun(run, rules) && run[0] == s && run[|run|-1] == t && |run| == n + 1 && next == Next(rules)
    ensures t == Iterate(next, s, n)
  {
    RunPrefix(run, rules, n, next);
  }

  lemma RunEnds(run: seq<State>, rules: Rules, s: State, t: State, n: nat, next: State -> State)
    requires IsRun(run, rules) && run[0] == s && run[|run|-1] == t && |run| == n + 1 && next == Next(rules)
    requires WellFormed(s) && WellFormed(t) && SoundRules(rules) && t.pp == |t.scraps|
    ensures t == Run(s, rules)
  {
    RunReaches(run, rules, s, t, n, next);
    EndIsRun(s, rules, n, next, t);
  }

  // ---------- trouble

  // Texts that are kept free.
  const SAFE_TEXT_INCR := 10

  /** The test at the head of the loop. */
  predicate Guarded(s: State, tokens: nat, texts: nat) {
    |s.store.toks| + SAFE_TOK_INCR < tokens && |s.store.starts| + SAFE_TEXT_INCR <= texts
  }

  /** What comes of the iteration at s, with room for so many tokens and texts. */
  ghost function Fate(s: State, rules: Rules, tokens: nat, texts: nat): Outcome {
    if !Guarded(s, tokens, texts) then Stopped
    else if !WellFormed(s) || !SoundRules(rules) || s.pp == |s.scraps| then Written
    else
      var p := ProductionAt(s.scraps, s.pp, rules);
      ProductionFits(s, rules);
      if p.NoRule? then Written else Outlook(s, p, tokens - |s.store.toks|)
  }

  lemma FateIs(s: State, rules: Rules, p: Production, tokens: nat, texts: nat, room: int)
    requires WellFormed(s) && SoundRules(rules) && s.pp < |s.scraps| && p == ProductionAt(s.scraps, s.pp, rules)
    requires room == tokens - |s.store.toks|
    ensures p.NoRule? || Fits(p, |s.scraps| - s.pp)
    ensures Guarded(s, tokens, texts) ==>
              Fate(s, rules, tokens, texts) == if p.NoRule? then Written else Outlook(s, p, room)
  {
    ProductionFits(s, rules);
  }

  // A squash of one scrap writes nothing.
  lemma RetagsOutlook(s: State, p: Production, room: nat)
    requires s.pp <= |s.scraps| && Fits(p, |s.scraps| - s.pp) && Retags(p)
    ensures Outlook(s, p, room) == Written
  {
  }

  /** The run from s meets r before any other trouble. */
  ghost predicate Meets(s: State, rules: Rules, tokens: nat, texts: nat, r: Outcome) {
    exists n: nat ::
      && Fate(Steps(s, rules, n), rules, tokens, texts) == r
      && forall m: nat :: m < n ==> Fate(Steps(s, rules, m), rules, tokens, texts) == Written
  }

  ghost predicate NoTrouble(s: State, rules: Rules, tokens: nat, texts: nat) {
    forall n: nat :: Fate(Steps(s, rules, n), rules, tokens, texts) == Written
  }

  /** No state of the run but perhaps the last gives trouble. */
  ghost predicate Untroubled(run: seq<State>, rules: Rules, tokens: nat, texts: nat) {
    forall i :: 0 <= i < |run| - 1 ==> Fate(run[i], rules, tokens, texts) == Written
  }

  lemma StillUntroubled(run: seq<State>, rules: Rules, tokens: nat, texts: nat, t: State)
    requires |run| > 0 && Untroubled(run, rules, tokens, texts) && Fate(run[|run|-1], rules, tokens, texts) == Written
    ensures Untroubled(run + [t], rules, tokens, texts)
  {
  }

  lemma RunStays(run: seq<State>, rules: Rules, m: nat, next: State -> State)
    requires IsRun(run, rules) && next == Next(rules) && next(run[|run|-1]) == run[|run|-1]
    ensures Steps(run[0], rules, m) == run[if m < |run| then m else |run| - 1]
  {
    if m < |run| {
      RunPrefix(run, rules, m, next);
    } else {
      RunPrefix(run, rules, |run| - 1, next);
      StaysAt(next, run[0], run[|run|-1], |run| - 1, m);
    }
  }

  /** The trouble that ends a run is the first that it meets. */
  lemma RunMeets(run: seq<State>, rules: Rules, tokens: nat, texts: nat, next: State -> State)
    requires IsRun(run, rules) && Untroubled(run, rules, tokens, texts) && next == Next(rules)
    ensures Meets(run[0], rules, tokens, texts, Fate(run[|run|-1], rules, tokens, texts))
  {
    var n := |run| - 1;
    forall m: nat | m <= n
      ensures Steps(run[0], rules, m) == run[m]
    {
      RunPrefix(run, rules, m, next);
    }
  }

  /** A run that reaches the end without trouble has none. */
  lemma RunHasNoTrouble(run: seq<State>, rules: Rules, tokens: nat, texts: nat, next: State -> State)
    requires IsRun(run, rules) && Untroubled(run, rules, tokens, texts) && next == Next(rules)
    requires var t := run[|run|-1]; WellFormed(t) && SoundRules(rules) && t.pp == |t.scraps| && Fate(t, rules, tokens, texts) == Written
    ensures NoTrouble(run[0], rules, tokens, texts)
  {
    NextIsStep(run[|run|-1], rules);
    forall m: nat
      ensures Fate(Steps(run[0], rules, m), rules, tokens, texts) == Written
    {
      RunStays(run, rules, m, next);
    }
  }

  // ---------- `make_reserved` changes neither cost nor outlook

  /** Scraps that are written alike. */
  predicate WrittenAlike(v: seq<Scrap>, w: seq<Scrap>) {
    |v| == |w| && forall i :: 0 <= i < |v| ==> v[i].mathness == w[i].mathness && v[i].trans == w[i].trans
  }

  lemma {:induction false} AlikeDrafts(body: seq<Op>, j: nat, v: seq<Scrap>, w: seq<Scrap>, room: nat)
    requires j <= |body| && AllInRange(body, v) && AllInRange(body, w) && WrittenAlike(v, w)
    ensures DraftTo(body, j, v) == DraftTo(body, j, w) && WriteTo(body, j, v, room) == WriteTo(body, j, w, room)
  {
    if j > 0 {
      AlikeDrafts(body, j - 1, v, w, room);
      AlikeOne(DraftTo(body, j - 1, v), body[j-1], v, w, room);
    }
  }

  lemma AlikeOne(b: Draft, op: Op, v: seq<Scrap>, w: seq<Scrap>, room: nat)
    requires InRange(op, |v|) && WrittenAlike(v, w)
    ensures Perform(b, op, v) == Perform(b, op, w) && Write(b, op, v, room) == Write(b, op, w, room)
  {
    if op.Take? { assert v[op.i].mathness == w[op.i].mathness && v[op.i].trans == w[op.i].trans; }
  }

  lemma PreparedOutlook(s: State, p: Production, room: nat)
    requires WellFormed(s) && Fits(p, |s.scraps| - s.pp)
    ensures var t := Prepared(s, p);
            t.pp == s.pp && |t.scraps| == |s.scraps| && Outlook(t, p, room) == Outlook(s, p, room) && Cost(t, p) == Cost(s, p)
  {
    PreparedValid(s, p);
    var t := Prepared(s, p);
    CostIs(s, p);
    CostIs(t, p);
    AlikeDrafts(Body(p), |Body(p)|, s.scraps[s.pp..], t.scraps[t.pp..], room);
  }
}
