// A condition on the scanned scraps under which `translate` loses nothing, and a
// family of inputs outside it for which it does.

module ReducerShelter {
  import opened Category
  import opened Productions
  import opened ProductionTable
  import opened TextStore
  import opened Reducer
  import opened ReducerRun
  import opened ReducerMath
  import opened ReducerYield
  import opened Iteration

  /** No insertion touches an angle bracket: none follows one directly, and what comes
      directly before one is not an insertion and cannot become one. */
  predicate Apart(scraps: seq<Scrap>) {
    forall i :: 0 <= i < |scraps| && IsAngle(scraps[i].cat) ==>
      && (i + 1 < |scraps| ==> scraps[i+1].cat != INSERT)
      && (i > 0 ==> !IsInsertion(scraps[i-1].cat))
  }

  /** Apart, the brackets are the scanned ones, and all of them lie ahead. */
  ghost predicate Sheltered(s: State, leaves: seq<Leaf>) {
    && s.pp <= |s.scraps| && Apart(s.scraps)
    && (forall i :: 0 <= i < s.pp ==> !IsAngle(s.scraps[i].cat))
    && (forall i :: 0 <= i < |s.scraps| && IsAngle(s.scraps[i].cat) ==> s.scraps[i].trans < |leaves|)
  }

  // Replacing scraps j..j+k by `a` while the cursor moves from pp to pp'.
  lemma ReplaceSheltered(s: State, leaves: seq<Leaf>, j: nat, k: nat, a: Scrap, t: State)
    requires Sheltered(s, leaves) && 1 <= k && s.pp <= j && j + k <= |s.scraps|
    requires t.scraps == Replace(s.scraps, j, k, a) && t.pp <= s.pp + 1
    requires !IsAngle(a.cat) && (IsInsertion(a.cat) ==> IsInsertion(s.scraps[j+k-1].cat))
    requires a.cat == INSERT ==> j == s.pp
    requires t.pp == s.pp + 1 ==> !IsAngle(s.scraps[s.pp].cat)
    ensures Sheltered(t, leaves)
  {
    ReplacedAt(s.scraps, j, k, a, t.scraps);
    ReplaceApart(s.scraps, s.pp, j, k, a, t.scraps);
  }

  lemma ReplacedAt(scraps: seq<Scrap>, j: nat, k: nat, a: Scrap, now: seq<Scrap>)
    requires 1 <= k && j + k <= |scraps| && now == Replace(scraps, j, k, a)
    ensures |now| == |scraps| - k + 1
    ensures forall i {:trigger now[i]} :: 0 <= i < |now| ==> now[i] == if i < j then scraps[i] else if i == j then a else scraps[i + k - 1]
  {
  }

  lemma ReplaceApart(scraps: seq<Scrap>, pp: nat, j: nat, k: nat, a: Scrap, now: seq<Scrap>)
    requires Apart(scraps) && 1 <= k && pp <= j && j + k <= |scraps| && |now| == |scraps| - k + 1
    requires forall i {:trigger now[i]} :: 0 <= i < |now| ==> now[i] == if i < j then scraps[i] else if i == j then a else scraps[i + k - 1]
    requires !IsAngle(a.cat) && (IsInsertion(a.cat) ==> IsInsertion(scraps[j+k-1].cat))
    requires (a.cat == INSERT ==> j == pp) && forall i :: 0 <= i < pp ==> !IsAngle(scraps[i].cat)
    ensures Apart(now)
  {
    forall i | 0 <= i < |now| && IsAngle(now[i].cat)
      ensures i + 1 < |now| ==> now[i+1].cat != INSERT
      ensures i > 0 ==> !IsInsertion(now[i-1].cat)
    {
      var was := if i < j then i else i + k - 1;
      assert now[i] == scraps[was] && IsAngle(scraps[was].cat);
      if i + 1 < |now| && i + 1 != j {
        assert now[i+1] == scraps[was+1];
      }
      if i > 0 && i != j + 1 {
        assert now[i-1] == scraps[was-1];
      }
    }
  }

  lemma RetagSheltered(s: State, leaves: seq<Leaf>, u: State)
    requires Sheltered(s, leaves) && Retagged(s.scraps, u.scraps) && u.pp == s.pp
    ensures Sheltered(u, leaves)
    ensures forall i :: 0 <= i < |s.scraps| ==> SameKind(s.scraps[i].cat, u.scraps[i].cat)
  {
    assert forall i :: 0 <= i < |s.scraps| ==> SameKind(s.scraps[i].cat, u.scraps[i].cat);
  }

  predicate SameKind(a: Category, b: Category) {
    (IsAngle(a) <==> IsAngle(b)) && (IsInsertion(a) <==> IsInsertion(b)) && (a == INSERT <==> b == INSERT)
  }

  // What a production must look like to keep a state sheltered.
  predicate Gentle(s: State, p: Production)
    requires s.pp <= |s.scraps| && Fits(p, |s.scraps| - s.pp)
  {
    var j := s.pp + p.at;
    && !IsAngle(p.cat) && (IsInsertion(p.cat) ==> IsInsertion(s.scraps[j+p.k-1].cat))
    && (p.cat == INSERT ==> p.at == 0)
    && p.d <= 1 && (p.d == 1 ==> !IsAngle(s.scraps[s.pp].cat))
  }

  lemma SoundGentle(s: State, p: Production, leaves: seq<Leaf>)
    requires SoundAt(s.scraps, s.pp, p) && Sheltered(s, leaves) && Fits(p, |s.scraps| - s.pp)
    ensures Gentle(s, p)
  {
    var j := s.pp + p.at;
    assert CatAt(s.scraps, j + p.k - 1) == s.scraps[j + p.k - 1].cat;
  }

  lemma BuildSheltered(s: State, p: Production, leaves: seq<Leaf>, u: State)
    requires s.store.Valid() && Sheltered(s, leaves) && Fits(p, |s.scraps| - s.pp) && Gentle(s, p)
    requires u.store.Valid() && u.pp == s.pp && Retagged(s.scraps, u.scraps)
    ensures Sheltered(Build(u, p), leaves)
  {
    RetagSheltered(s, leaves, u);
    assert SameKind(s.scraps[s.pp + p.at + p.k - 1].cat, u.scraps[s.pp + p.at + p.k - 1].cat);
    assert SameKind(s.scraps[s.pp].cat, u.scraps[s.pp].cat);
    ReplaceSheltered(u, leaves, s.pp + p.at, p.k, NewScrap(u, p), Build(u, p));
  }

  lemma FireSheltered(s: State, p: Production, leaves: seq<Leaf>)
    requires WellFormed(s) && Sheltered(s, leaves) && Fits(p, |s.scraps| - s.pp) && Gentle(s, p)
    ensures Sheltered(Fire(s, p), leaves)
  {
    if Retags(p) {
      var j := s.pp + p.at;
      assert Fire(s, p).scraps == Replace(s.scraps, j, 1, s.scraps[j].(cat := p.cat));
      ReplaceSheltered(s, leaves, j, 1, s.scraps[j].(cat := p.cat), Fire(s, p));
    } else {
      PreparedValid(s, p);
      BuildSheltered(s, p, leaves, Prepared(s, p));
    }
  }

  lemma StepSheltered(s: State, rules: Rules, leaves: seq<Leaf>)
    requires SoundRules(rules) && WellFormed(s) && Sheltered(s, leaves) && s.pp < |s.scraps|
    ensures Sheltered(Step(s, rules), leaves) && !Loses(s, rules, leaves)
  {
    var p := ProductionAt(s.scraps, s.pp, rules);
    ProductionFits(s, rules);
    assert CatAt(s.scraps, s.pp) == s.scraps[s.pp].cat;
    if !p.NoRule? {
      SoundGentle(s, p, leaves);
      FireSheltered(s, p, leaves);
    }
  }

  lemma StepsSheltered(s: State, rules: Rules, leaves: seq<Leaf>, n: nat, next: State -> State)
    requires SoundRules(rules) && WellFormed(s) && Sheltered(s, leaves) && next == Next(rules)
    ensures WellFormed(Iterate(next, s, n)) && Sheltered(Iterate(next, s, n), leaves)
  {
    var inv := (t: State) => WellFormed(t) && Sheltered(t, leaves);
    forall t: State | inv(t)
      ensures inv(next(t))
    {
      NextIsStep(t, rules);
      if t.pp < |t.scraps| {
        StepSheltered(t, rules, leaves);
        StepDescends(t, rules);
      }
    }
    Invariance(next, s, n, inv);
    assert inv(Iterate(next, s, n));
  }

  /** If no insertion touches an angle bracket in the scanned program, `translate`
      loses nothing: its scraps stand for exactly the scanned program. */
  lemma ApartKeepsProgram(s: State, rules: Rules, leaves: seq<Leaf>)
    requires SoundRules(rules) && Scanned(s, leaves) && Apart(s.scraps)
    ensures YieldOf(Run(s, rules), leaves) == Program(leaves, s.scraps)
  {
    var next := Next(rules);
    forall n: nat
      ensures !Loses(Steps(s, rules, n), rules, leaves)
    {
      StepsSheltered(s, rules, leaves, n, next);
      var t := Iterate(next, s, n);
      if t.pp < |t.scraps| { StepSheltered(t, rules, leaves); }
    }
    TranslateKeepsProgram(s, rules, leaves);
  }

  // ---------- what is lost otherwise

  predicate NoInsertAmong(scraps: seq<Scrap>, from: nat, to: nat) {
    forall i :: from <= i < to && i < |scraps| ==> scraps[i].cat != INSERT
  }

  /** An expression, an angle bracket, an insertion (a comment, say), and anything that
      does not itself begin with more insertions. */
  predicate CommentAfterAngle(scraps: seq<Scrap>) {
    && |scraps| >= 3 && scraps[0].cat == EXP && scraps[1].cat == PRELANGLE && scraps[2].cat == INSERT
    && NoInsertAmong(scraps, 3, 6) && (|scraps| > 3 ==> scraps[3].cat != END_ARG)
  }

  lemma SecondProduction(s: State, rules: Rules)
    requires WellFormed(s) && s.pp == 0 && |s.scraps| >= 2 && s.scraps[0].cat == EXP && s.scraps[1].cat == PRELANGLE
    requires NoInsertAmong(s.scraps, 2, 4) && exists f :: rules == CweaveRules(f)
    ensures ProductionAt(s.scraps, 0, rules).NoRule?
  {
  }

  lemma ThirdProduction(s: State, rules: Rules)
    requires WellFormed(s) && s.pp == 1 && |s.scraps| >= 2 && s.scraps[1].cat == PRELANGLE
    requires NoInsertAmong(s.scraps, 2, 5) && CatAt(s.scraps, 2) != END_ARG && exists f :: rules == CweaveRules(f)
    ensures Rerenders(ProductionAt(s.scraps, 1, rules))
  {
  }

  // The first iteration: the bracket absorbs the comment.
  lemma FirstStep(s: State, rules: Rules, next: State -> State) returns (t: State)
    requires WellFormed(s) && SoundRules(rules) && next == Next(rules) && s.pp == 0 && CommentAfterAngle(s.scraps)
    requires ProductionAt(s.scraps, 0, rules) == Squash(1, 2, PRELANGLE, -1, 0)
    ensures t == next(s) && WellFormed(t) && t.pp == 0
    ensures |t.scraps| == |s.scraps| - 1 && t.scraps[0] == s.scraps[0]
    ensures t.scraps[1].cat == PRELANGLE && t.scraps[1].trans == s.store.Texts()
    ensures forall i :: 2 <= i < |t.scraps| ==> t.scraps[i] == s.scraps[i + 1]
  {
    var p := Squash(1, 2, PRELANGLE, -1, 0);
    NextIsStep(s, rules);
    ProductionFits(s, rules);
    StepDescends(s, rules);
    t := Step(s, rules);
    assert t.scraps == Replace(s.scraps, 1, 2, NewScrap(s, p));
  }

  lemma FirstProduction(s: State, forceLines: bool)
    requires s.pp == 0 && CommentAfterAngle(s.scraps)
    ensures ProductionAt(s.scraps, 0, CweaveRules(forceLines)) == Squash(1, 2, PRELANGLE, -1, 0)
  {
  }

  // The second iteration finds no production at the expression.
  lemma SecondStep(t: State, rules: Rules, next: State -> State)
    requires WellFormed(t) && SoundRules(rules) && next == Next(rules) && t.pp == 0 && |t.scraps| >= 2
    requires ProductionAt(t.scraps, 0, rules).NoRule?
    ensures next(t) == t.(pp := 1)
  {
    NextIsStep(t, rules);
  }

  /** For every program that begins with `a < comment`, the comment is lost: the scraps
      that `translate` leaves no longer stand for the whole scanned program. */
  lemma CommentIsLost(s: State, leaves: seq<Leaf>, rules: Rules, forceLines: bool)
    requires SoundRules(rules) && rules == CweaveRules(forceLines)
    requires Scanned(s, leaves) && CommentAfterAngle(s.scraps)
    ensures YieldOf(Run(s, rules), leaves) != Program(leaves, s.scraps)
  {
    var next := Next(rules);
    FirstProduction(s, forceLines);
    var t := FirstStep(s, rules, next);
    SecondProduction(t, rules);
    SecondStep(t, rules, next);
    ThirdProduction(t.(pp := 1), rules);
    assert Iterate(next, s, 1) == next(Iterate(next, s, 0)) == t;
    assert Steps(s, rules, 2) == t.(pp := 1);
    assert Loses(Steps(s, rules, 2), rules, leaves);
    TranslateKeepsProgram(s, rules, leaves);
  }
}
