// The indentation in every state of every run, and in the finished text
// (cweb/cweave.c:2143-2239, 2269-2293, 2970-2977).

module IndentedRuns {
  import opened Category
  import opened Productions
  import opened ProductionTable
  import opened TextStore
  import opened Reducer
  import opened ReducerRun
  import opened ReducerMath
  import opened Scanner
  import opened Indentation
  import opened Iteration

  // ---------- building a text

  lemma NetPut(store: Store, leaves: nat, a: seq<Token>, tok: Token, bound: nat)
    requires store.Valid()
    ensures NetAll(store, leaves, a + [tok], bound) == NetAll(store, leaves, a, bound) + NetToken(store, leaves, tok, bound)
  {
    assert (a + [tok])[..|a|] == a;
  }

  lemma NetSwitch(store: Store, leaves: nat, a: seq<Token>, mode: nat, bound: nat)
    requires store.Valid()
    ensures NetAll(store, leaves, a + Switch(mode), bound) == NetAll(store, leaves, a, bound)
  {
    var x, y, z := Switch(mode)[0], Switch(mode)[1], Switch(mode)[2];
    assert a + Switch(mode) == a + [x] + [y] + [z];
    NetPut(store, leaves, a, x, bound);
    NetPut(store, leaves, a + [x], y, bound);
    NetPut(store, leaves, a + [x] + [y], z, bound);
  }

  lemma NetEnter(store: Store, leaves: nat, b: Draft, mode: nat, bound: nat)
    requires store.Valid()
    ensures NetAll(store, leaves, Enter(b, mode).out, bound) == NetAll(store, leaves, b.out, bound)
  {
    NetSwitch(store, leaves, b.out, mode, bound);
  }

  lemma NetTake(store: Store, leaves: nat, b: Draft, a: Scrap, bound: nat)
    requires store.Valid() && a.trans < bound
    ensures NetAll(store, leaves, BigApp1(b, a).out, bound) == NetAll(store, leaves, b.out, bound) + Net(store, leaves, a.trans)
  {
    var m := a.mathness % 4;
    NetEnter(store, leaves, b, m, bound);
    NetPut(store, leaves, if m == NO_MATH || m == YES_MATH then Enter(b, m).out else b.out, Ref(a.trans), bound);
  }

  lemma NetBig(store: Store, leaves: nat, b: Draft, c: nat, bound: nat)
    requires store.Valid()
    ensures NetAll(store, leaves, BigApp(b, c).out, bound) == NetAll(store, leaves, b.out, bound) + CodeNet(c)
  {
    var mode := if WantsText(c) then NO_MATH else YES_MATH;
    NetEnter(store, leaves, b, mode, bound);
    NetPut(store, leaves, Enter(b, mode).out, Code(c), bound);
  }

  lemma NetPerform(store: Store, leaves: nat, b: Draft, op: Op, window: seq<Scrap>, w: seq<Category>, bound: nat)
    requires store.Valid() && InRange(op, |window|) && InRange(op, |w|)
    requires op.Take? ==> window[op.i].trans < bound && Net(store, leaves, window[op.i].trans) == Weight(w[op.i])
    ensures NetAll(store, leaves, Perform(b, op, window).out, bound) == NetAll(store, leaves, b.out, bound) + OpWeight(op, w)
  {
    match op {
      case Take(i) => NetTake(store, leaves, b, window[i], bound);
      case Big(c) => NetBig(store, leaves, b, c, bound);
      case Raw(c) => NetPut(store, leaves, b.out, Code(c), bound);
      case Escaped(c) =>
        NetPut(store, leaves, b.out, Code(BACKSLASH), bound);
        NetPut(store, leaves, b.out + [Code(BACKSLASH)], Code(c), bound);
      case SetMath =>
    }
  }

  /** Scraps indent what categories w ask for. */
  ghost predicate AsAsked(store: Store, leaves: nat, scraps: seq<Scrap>, w: seq<Category>)
    requires store.Valid()
  {
    forall i :: 0 <= i < |scraps| && i < |w| ==> Net(store, leaves, scraps[i].trans) == Weight(w[i])
  }

  lemma {:induction false} NetBody(store: Store, leaves: nat, body: seq<Op>, j: nat, b: Draft, window: seq<Scrap>, w: seq<Category>, bound: nat)
    requires store.Valid() && j <= |body| && AsAsked(store, leaves, window, w)
    requires forall op :: op in body ==> InRange(op, |window|) && InRange(op, |w|)
    requires forall i :: 0 <= i < |window| ==> window[i].trans < bound
    ensures NetAll(store, leaves, PerformAll(body, j, b, window).out, bound) == NetAll(store, leaves, b.out, bound) + BodyWeight(body, j, w)
    decreases |body| - j
  {
    if j < |body| {
      NetPerform(store, leaves, b, body[j], window, w, bound);
      NetBody(store, leaves, body, j + 1, Perform(b, body[j], window), window, w, bound);
    }
  }

  // ---------- texts do not change once built

  lemma {:induction false} NetStable(a: Store, b: Store, leaves: nat, t: nat)
    requires Extends(a, b, leaves) && t < a.Texts()
    ensures Net(a, leaves, t) == Net(b, leaves, t)
    decreases t, 2, 0
  {
    if t >= leaves { NetAllStable(a, b, leaves, a.Text(t), t); }
  }

  lemma {:induction false} NetAllStable(a: Store, b: Store, leaves: nat, toks: seq<Token>, bound: nat)
    requires Extends(a, b, leaves) && bound <= a.Texts()
    ensures NetAll(a, leaves, toks, bound) == NetAll(b, leaves, toks, bound)
    decreases bound, 1, |toks|
  {
    if toks != [] {
      NetAllStable(a, b, leaves, toks[..|toks|-1], bound);
      var tok := toks[|toks|-1];
      if tok.Ref? && tok.t < bound { NetStable(a, b, leaves, tok.t); }
    }
  }

  // ---------- one production

  /** Every scrap indents what its category asks for. */
  ghost predicate Indented(s: State, leaves: nat) {
    s.store.Valid() && forall i :: 0 <= i < |s.scraps| ==> Net(s.store, leaves, s.scraps[i].trans) == Weight(s.scraps[i].cat)
  }

  /** What is so in every state of a run. */
  ghost predicate Sane(s: State, leaves: nat) {
    WellFormed(s) && BuiltTexts(s.store, leaves) && leaves <= s.store.Texts()
  }

  function WindowCats(s: State): seq<Category> {
    [CatAt(s.scraps, s.pp), CatAt(s.scraps, s.pp + 1), CatAt(s.scraps, s.pp + 2), CatAt(s.scraps, s.pp + 3)]
  }

  lemma RetagIndents(s: State, p: Production, leaves: nat)
    requires Sane(s, leaves) && Indented(s, leaves) && Fits(p, |s.scraps| - s.pp) && Short(p) && Retags(p)
    ensures Indented(Fire(s, p), leaves) <==> Balanced(p, WindowCats(s))
  {
    var t, j := Fire(s, p), s.pp + p.at;
    assert WindowCats(s)[p.at] == s.scraps[j].cat;
    assert Net(t.store, leaves, t.scraps[j].trans) == Weight(s.scraps[j].cat);
    if Balanced(p, WindowCats(s)) {
      forall i | 0 <= i < |t.scraps|
        ensures Net(t.store, leaves, t.scraps[i].trans) == Weight(t.scraps[i].cat)
      {
        assert i != j ==> t.scraps[i] == s.scraps[i];
      }
    }
  }

  // The scraps a production works on indent what those it was selected for ask.
  lemma PreparedAsAsked(s: State, p: Production, leaves: nat) returns (u: State)
    requires Sane(s, leaves) && Indented(s, leaves) && Fits(p, |s.scraps| - s.pp)
    ensures u == Prepared(s, p) && WellFormed(u) && BuiltTexts(u.store, leaves) && leaves <= u.store.Texts() && u.pp == s.pp
    ensures Indented(u, leaves) && |u.scraps| == |s.scraps|
    ensures AsAsked(u.store, leaves, u.scraps[u.pp..], WindowCats(s))
  {
    u := Prepared(s, p);
    PreparedWellFormed(s, p);
    PreparedValid(s, p);
    FlippedExtends(s.store, u.store, leaves);
    forall i | 0 <= i < |u.scraps|
      ensures Net(u.store, leaves, u.scraps[i].trans) == Weight(u.scraps[i].cat) == Weight(s.scraps[i].cat)
    {
      NetStable(s.store, u.store, leaves, s.scraps[i].trans);
    }
    WindowAsAsked(s, u, leaves);
  }

  lemma WindowAsAsked(s: State, u: State, leaves: nat)
    requires u.store.Valid() && u.pp == s.pp <= |u.scraps| == |s.scraps|
    requires forall i :: 0 <= i < |u.scraps| ==> Net(u.store, leaves, u.scraps[i].trans) == Weight(s.scraps[i].cat)
    ensures AsAsked(u.store, leaves, u.scraps[u.pp..], WindowCats(s))
  {
    forall i | 0 <= i < |u.scraps| - u.pp && i < 4
      ensures Net(u.store, leaves, u.scraps[u.pp..][i].trans) == Weight(WindowCats(s)[i])
    {
      assert u.scraps[u.pp..][i] == u.scraps[u.pp + i];
    }
  }

  lemma BuildIndents(u: State, p: Production, w: seq<Category>, leaves: nat)
    requires WellFormed(u) && BuiltTexts(u.store, leaves) && leaves <= u.store.Texts() && Indented(u, leaves)
    requires Fits(p, |u.scraps| - u.pp) && Short(p) && !Retags(p) && |w| == 4 && AsAsked(u.store, leaves, u.scraps[u.pp..], w)
    ensures Indented(Build(u, p), leaves) <==> Weight(p.cat) == BodyWeight(Body(p), 0, w)
  {
    var window, b, t := u.scraps[u.pp..], Drafted(u, p), Build(u, p);
    var j, a := u.pp + p.at, NewScrap(u, p);
    BodyBuilds(Body(p), 0, EMPTY_DRAFT, window, u.store.Texts());
    NetBody(u.store, leaves, Body(p), 0, EMPTY_DRAFT, window, w, u.store.Texts());
    AppendExtends(u.store, b.out, leaves);
    u.store.AppendFreezes(b.out);
    NetAllStable(u.store, t.store, leaves, b.out, u.store.Texts());
    assert Net(t.store, leaves, a.trans) == BodyWeight(Body(p), 0, w);
    OthersIndent(u, t, leaves, j, p.k, a);
  }

  lemma OthersIndent(u: State, t: State, leaves: nat, j: nat, k: nat, a: Scrap)
    requires Indented(u, leaves) && Extends(u.store, t.store, leaves) && 1 <= k && j + k <= |u.scraps|
    requires t.scraps == Replace(u.scraps, j, k, a) && forall i :: 0 <= i < |u.scraps| ==> u.scraps[i].trans < u.store.Texts()
    ensures Indented(t, leaves) <==> Net(t.store, leaves, a.trans) == Weight(a.cat)
  {
    forall i | 0 <= i < |t.scraps| && i != j
      ensures Net(t.store, leaves, t.scraps[i].trans) == Weight(t.scraps[i].cat)
    {
      var from := if i < j then i else i + k - 1;
      assert t.scraps[i] == u.scraps[from];
      NetStable(u.store, t.store, leaves, u.scraps[from].trans);
    }
    assert t.scraps[j] == a;
  }

  /** A production keeps the indentation exactly if it is balanced. */
  lemma FireIndents(s: State, p: Production, leaves: nat)
    requires Sane(s, leaves) && Indented(s, leaves) && Fits(p, |s.scraps| - s.pp) && Short(p)
    ensures Indented(Fire(s, p), leaves) <==> Balanced(p, WindowCats(s))
  {
    if Retags(p) {
      RetagIndents(s, p, leaves);
    } else {
      PreparedValid(s, p);
      var u := PreparedAsAsked(s, p, leaves);
      BuildIndents(u, p, WindowCats(s), leaves);
    }
  }

  // ---------- whole runs

  /** The next iteration swallows the head of a function. */
  ghost predicate Leaks(s: State) {
    s.pp < |s.scraps| && Swallows(s.scraps[s.pp].cat, CatAt(s.scraps, s.pp + 1))
  }

  lemma EndArgComesFromOne(c0: Category, c1: Category, c2: Category, c3: Category, forceLines: bool)
    ensures var p := Match(c0, c1, c2, c3, forceLines);
            p.NoRule? || p.cat != END_ARG || c0 == END_ARG || c1 == END_ARG || c2 == END_ARG || c3 == END_ARG
  {
  }

  lemma Choice(c0: Category, c1: Category, c2: Category, c3: Category, rules: Rules, forceLines: bool) returns (p: Production)
    requires rules == CweaveRules(forceLines) && c0 != PADDING
    ensures p == rules(c0, c1, c2, c3)
    ensures p.NoRule? ==> !Swallows(c0, c1)
    ensures !p.NoRule? ==> (Balanced(p, [c0, c1, c2, c3]) <==> !Swallows(c0, c1))
    ensures !p.NoRule? && p.cat == END_ARG ==> c0 == END_ARG || c1 == END_ARG || c2 == END_ARG || c3 == END_ARG
  {
    p := Match(c0, c1, c2, c3, forceLines);
    if !p.NoRule? { TableBalanced(c0, c1, c2, c3, forceLines); }
    EndArgComesFromOne(c0, c1, c2, c3, forceLines);
  }

  // What is known of the production that is selected.
  lemma Selected(t: State, rules: Rules, forceLines: bool) returns (p: Production)
    requires WellFormed(t) && SoundRules(rules) && rules == CweaveRules(forceLines) && t.pp < |t.scraps|
    ensures p == ProductionAt(t.scraps, t.pp, rules) && (!p.NoRule? ==> Fits(p, |t.scraps| - t.pp) && Short(p))
    ensures p.NoRule? ==> !Leaks(t)
    ensures !p.NoRule? ==> (Balanced(p, WindowCats(t)) <==> !Leaks(t))
    ensures !p.NoRule? && p.cat == END_ARG ==> END_ARG in WindowCats(t)
  {
    var w := WindowCats(t);
    ProductionFits(t, rules);
    p := Choice(w[0], w[1], w[2], w[3], rules, forceLines);
  }

  lemma NextIndents(t: State, leaves: nat, rules: Rules, forceLines: bool, next: State -> State)
    requires Sane(t, leaves) && Indented(t, leaves)
    requires SoundRules(rules) && rules == CweaveRules(forceLines) && next == Next(rules)
    ensures Indented(next(t), leaves) <==> !Leaks(t)
  {
    NextIsStep(t, rules);
    if t.pp < |t.scraps| {
      var p := Selected(t, rules, forceLines);
      if p.NoRule? {
        assert next(t) == t.(pp := t.pp + 1);
      } else {
        FireIndents(t, p, leaves);
      }
    }
  }

  lemma RunsAreSane(s: State, leaves: seq<Leaf>, rules: Rules, n: nat)
    requires SoundRules(rules) && Scanned(s, leaves)
    ensures Sane(Steps(s, rules, n), |leaves|)
  {
    ScannedKeeps(s, leaves, false);
    EveryStateKeepsMath(s, rules, leaves, false, n);
  }

  lemma ScannedIndents(s: State, leaves: seq<Leaf>)
    requires FromScanner(s, leaves)
    ensures Indented(s, |leaves|)
  {
  }

  lemma NextKeepsMath(t: State, leaves: seq<Leaf>, rules: Rules, next: State -> State)
    requires MathInvariant(t, leaves, false) && SoundRules(rules) && next == Next(rules)
    ensures MathInvariant(next(t), leaves, false)
  {
    NextIsStep(t, rules);
    if t.pp < |t.scraps| { StepKeeps(t, rules, leaves, false); }
  }

  lemma AlwaysIndented(s: State, leaves: seq<Leaf>, rules: Rules, forceLines: bool, next: State -> State, n: nat)
    requires SoundRules(rules) && rules == CweaveRules(forceLines) && next == Next(rules) && FromScanner(s, leaves)
    requires forall m: nat :: !Leaks(Iterate(next, s, m))
    ensures Indented(Iterate(next, s, n), |leaves|)
  {
    var inv := (t: State) => MathInvariant(t, leaves, false) && Indented(t, |leaves|);
    var good := (t: State) => !Leaks(t);
    ScannedKeeps(s, leaves, false);
    ScannedIndents(s, leaves);
    forall t | inv(t) && good(t)
      ensures inv(next(t))
    {
      NextKeepsMath(t, leaves, rules, next);
      NextIndents(t, |leaves|, rules, forceLines, next);
    }
    assert forall m: nat :: good(Iterate(next, s, m)) <==> !Leaks(Iterate(next, s, m));
    InvarianceWhile(next, s, n, inv, good);
    assert inv(Iterate(next, s, n));
  }

  lemma LeakShows(s: State, leaves: seq<Leaf>, rules: Rules, forceLines: bool, next: State -> State, n: nat)
    requires SoundRules(rules) && rules == CweaveRules(forceLines) && next == Next(rules) && FromScanner(s, leaves)
    requires Leaks(Iterate(next, s, n))
    ensures !Indented(Iterate(next, s, n), |leaves|) || !Indented(Iterate(next, s, n + 1), |leaves|)
  {
    var t := Iterate(next, s, n);
    RunsAreSane(s, leaves, rules, n);
    assert Iterate(next, s, n + 1) == next(t);
    if Indented(t, |leaves|) {
      NextIndents(t, |leaves|, rules, forceLines, next);
    }
  }

  /** In every state of a run from scanned scraps every text indents by two if it is the head
      of a function and not at all if it is anything else, as long as no iteration swallows
      the head of a function as an argument; the first that does so brings this to an end. */
  lemma EveryStateIndented(s: State, leaves: seq<Leaf>, rules: Rules, forceLines: bool, next: State -> State)
    requires SoundRules(rules) && rules == CweaveRules(forceLines) && next == Next(rules) && FromScanner(s, leaves)
    ensures (forall n: nat :: Indented(Iterate(next, s, n), |leaves|)) <==> forall n: nat :: !Leaks(Iterate(next, s, n))
  {
    if n: nat :| Leaks(Iterate(next, s, n)) {
      LeakShows(s, leaves, rules, forceLines, next, n);
    } else {
      forall n: nat
        ensures Indented(Iterate(next, s, n), |leaves|)
      {
        AlwaysIndented(s, leaves, rules, forceLines, next, n);
      }
    }
  }

  // ---------- without arguments

  predicate NoArgument(s: State) {
    forall i :: 0 <= i < |s.scraps| ==> s.scraps[i].cat != END_ARG
  }

  lemma FireNoArgument(s: State, p: Production)
    requires WellFormed(s) && NoArgument(s) && Fits(p, |s.scraps| - s.pp) && p.cat != END_ARG
    ensures NoArgument(Fire(s, p))
  {
    if !Retags(p) { PreparedValid(s, p); }
  }

  lemma NoneInWindow(t: State)
    requires NoArgument(t)
    ensures END_ARG !in WindowCats(t) && !Leaks(t)
  {
  }

  lemma NextNoArgument(t: State, rules: Rules, forceLines: bool, next: State -> State)
    requires WellFormed(t) && NoArgument(t) && SoundRules(rules) && rules == CweaveRules(forceLines) && next == Next(rules)
    ensures WellFormed(next(t)) && NoArgument(next(t)) && !Leaks(t)
  {
    NextIsStep(t, rules);
    if t.pp < |t.scraps| {
      var p := Selected(t, rules, forceLines);
      StepDescends(t, rules);
      NoneInWindow(t);
      if !p.NoRule? { FireNoArgument(t, p); }
    }
  }

  /** No iteration does so if no `@]` was scanned. */
  lemma NoArgumentNoLeak(s: State, rules: Rules, forceLines: bool, next: State -> State, n: nat)
    requires WellFormed(s) && NoArgument(s) && SoundRules(rules) && rules == CweaveRules(forceLines) && next == Next(rules)
    ensures !Leaks(Iterate(next, s, n))
  {
    var inv := (t: State) => WellFormed(t) && NoArgument(t);
    forall t | inv(t)
      ensures inv(next(t))
    {
      NextNoArgument(t, rules, forceLines, next);
    }
    Invariance(next, s, n, inv);
    NextNoArgument(Iterate(next, s, n), rules, forceLines, next);
  }

  // ---------- the finished text

  function Heads(scraps: seq<Scrap>): nat {
    if scraps == [] then 0 else Heads(scraps[..|scraps|-1]) + if scraps[|scraps|-1].cat == FN_DECL then 1 else 0
  }

  lemma {:induction false} NetConcat(store: Store, leaves: nat, a: seq<Token>, b: seq<Token>, bound: nat)
    requires store.Valid()
    ensures NetAll(store, leaves, a + b, bound) == NetAll(store, leaves, a, bound) + NetAll(store, leaves, b, bound)
    decreases |b|
  {
    if b == [] {
      assert a + b == a;
    } else {
      NetConcat(store, leaves, a, b[..|b|-1], bound);
      assert (a + b)[..|a + b|-1] == a + b[..|b|-1];
    }
  }

  lemma NetFinishOne(store: Store, leaves: nat, a: Scrap, first: bool, bound: nat)
    requires store.Valid() && a.trans < bound
    ensures NetAll(store, leaves, FinishOne(a, first), bound) == Net(store, leaves, a.trans)
  {
    var blank: seq<Token> := if first then [] else [Code(BLANK)];
    var open: seq<Token> := if a.mathness % 4 == YES_MATH then [Code(DOLLAR)] else [];
    var close: seq<Token> := if a.mathness / 4 == YES_MATH then [Code(DOLLAR)] else [];
    NetConcat(store, leaves, blank + open + [Ref(a.trans)], close, bound);
    NetConcat(store, leaves, blank + open, [Ref(a.trans)], bound);
    NetConcat(store, leaves, blank, open, bound);
    NetOne(store, leaves, Code(BLANK), bound);
    NetOne(store, leaves, Code(DOLLAR), bound);
    NetOne(store, leaves, Ref(a.trans), bound);
  }

  lemma NetOne(store: Store, leaves: nat, tok: Token, bound: nat)
    requires store.Valid()
    ensures NetAll(store, leaves, [tok], bound) == NetToken(store, leaves, tok, bound)
  {
    NetPut(store, leaves, [], tok, bound);
    assert [] + [tok] == [tok];
  }

  lemma {:induction false} NetFinished(store: Store, leaves: nat, scraps: seq<Scrap>)
    requires store.Valid()
    requires forall i :: 0 <= i < |scraps| ==>
               scraps[i].trans < store.Texts() && Net(store, leaves, scraps[i].trans) == Weight(scraps[i].cat)
    ensures NetAll(store, leaves, Finished(scraps), store.Texts()) == 2 * Heads(scraps)
    decreases |scraps|
  {
    if scraps != [] {
      var front, last := scraps[..|scraps|-1], scraps[|scraps|-1];
      NetFinished(store, leaves, front);
      NetFinishOne(store, leaves, last, |scraps| == 1, store.Texts());
      NetConcat(store, leaves, Finished(front), FinishOne(last, |scraps| == 1), store.Texts());
    }
  }

  /** The finished text undoes every indentation, but for two of each head of a function that
      is left without its body. */
  lemma FinishedIndents(s: State, leaves: seq<Leaf>, rules: Rules, forceLines: bool, next: State -> State)
    requires SoundRules(rules) && rules == CweaveRules(forceLines) && next == Next(rules) && FromScanner(s, leaves)
    requires forall n: nat :: !Leaks(Iterate(next, s, n))
    ensures var r := Run(s, rules); NetAll(r.store, |leaves|, Finished(r.scraps), r.store.Texts()) == 2 * Heads(r.scraps)
  {
    var r := Run(s, rules);
    var n := RunIsSteps(s, rules, next);
    assert Iterate(next, s, n) == r;
    EveryStateIndented(s, leaves, rules, forceLines, next);
    assert Indented(r, |leaves|);
    NetFinished(r.store, |leaves|, r.scraps);
  }

  /** So it does if no `@]` was scanned. */
  lemma TranslateIndents(s: State, leaves: seq<Leaf>, rules: Rules, forceLines: bool)
    requires SoundRules(rules) && rules == CweaveRules(forceLines) && FromScanner(s, leaves) && NoArgument(s)
    ensures var r := Run(s, rules); NetAll(r.store, |leaves|, Finished(r.scraps), r.store.Texts()) == 2 * Heads(r.scraps)
  {
    var next := Next(rules);
    forall n: nat { NoArgumentNoLeak(s, rules, forceLines, next, n); }
    FinishedIndents(s, leaves, rules, forceLines, next);
  }
}
