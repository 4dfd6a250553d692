// An argument that swallows the head of a function, and what the finished text then lacks
// (cweb/cweave.c:2297-2299).

module IndentationLeak {
  import opened Category
  import opened Productions
  import opened ProductionTable
  import opened Reducer
  import opened ReducerRun
  import opened ReducerMath
  import opened Sight
  import opened ReducerStable
  import opened Scanner
  import opened StableRows
  import opened Indentation
  import opened IndentedRuns
  import opened Iteration

  /** The state has scraps of these categories, and the cursor at pp. */
  ghost predicate Looks(t: State, cats: seq<Category>, pp: nat) {
    WellFormed(t) && Cats(t.scraps) == cats && t.pp == pp
  }

  // The three rows on which a production fires.

  lemma HeadRow(p: Production, now: seq<Category>, forceLines: bool)
    requires Chosen([EXP, INT_LIKE, END_ARG], 0, p, forceLines) && After([EXP, INT_LIKE, END_ARG], 0, p, now)
    ensures now == [FN_DECL, INT_LIKE, END_ARG] && Moved(0, p.d) == 0
  {
  }

  lemma ArgumentRow(p: Production, now: seq<Category>, forceLines: bool)
    requires Chosen([FN_DECL, INT_LIKE, END_ARG], 1, p, forceLines) && After([FN_DECL, INT_LIKE, END_ARG], 1, p, now)
    ensures now == [FN_DECL, END_ARG] && Moved(1, p.d) == 0
  {
  }

  lemma LeakRow(p: Production, now: seq<Category>, forceLines: bool)
    requires Chosen([FN_DECL, END_ARG], 0, p, forceLines) && After([FN_DECL, END_ARG], 0, p, now)
    ensures now == [END_ARG] && Moved(0, p.d) == 0
  {
  }

  lemma RowsFire()
    ensures FiresAt([EXP, INT_LIKE, END_ARG], 0) && !FiresAt([FN_DECL, INT_LIKE, END_ARG], 0)
    ensures FiresAt([FN_DECL, INT_LIKE, END_ARG], 1) && FiresAt([FN_DECL, END_ARG], 0) && !FiresAt([END_ARG], 0)
  {
  }

  lemma HeadIsMade(t: State, rules: Rules, forceLines: bool, next: State -> State)
    requires SoundRules(rules) && rules == CweaveRules(forceLines) && next == Next(rules) && Looks(t, [EXP, INT_LIKE, END_ARG], 0)
    ensures Looks(next(t), [FN_DECL, INT_LIKE, END_ARG], 0)
  {
    RowsFire();
    var p := NextFires(t, rules, forceLines, next);
    HeadRow(p, Cats(next(t).scraps), forceLines);
  }

  lemma CursorMoves(t: State, rules: Rules, forceLines: bool, next: State -> State)
    requires SoundRules(rules) && rules == CweaveRules(forceLines) && next == Next(rules)
    requires Looks(t, [FN_DECL, INT_LIKE, END_ARG], 0) || Looks(t, [END_ARG], 0)
    ensures Looks(next(t), Cats(t.scraps), 1)
  {
    RowsFire();
    var u := NextMoves(t, rules, forceLines, next);
  }

  lemma ArgumentIsMade(t: State, rules: Rules, forceLines: bool, next: State -> State)
    requires SoundRules(rules) && rules == CweaveRules(forceLines) && next == Next(rules) && Looks(t, [FN_DECL, INT_LIKE, END_ARG], 1)
    ensures Looks(next(t), [FN_DECL, END_ARG], 0)
  {
    RowsFire();
    var p := NextFires(t, rules, forceLines, next);
    ArgumentRow(p, Cats(next(t).scraps), forceLines);
  }

  lemma HeadIsSwallowed(t: State, rules: Rules, forceLines: bool, next: State -> State)
    requires SoundRules(rules) && rules == CweaveRules(forceLines) && next == Next(rules) && Looks(t, [FN_DECL, END_ARG], 0)
    ensures Looks(next(t), [END_ARG], 0)
  {
    RowsFire();
    var p := NextFires(t, rules, forceLines, next);
    LeakRow(p, Cats(next(t).scraps), forceLines);
  }

  // ---------- the run

  /** What is known of a state before the head is swallowed. */
  ghost predicate Fine(t: State, leaves: seq<Leaf>) {
    MathInvariant(t, leaves, false) && Indented(t, |leaves|)
  }

  lemma StaysFine(t: State, leaves: seq<Leaf>, rules: Rules, forceLines: bool, next: State -> State)
    requires SoundRules(rules) && rules == CweaveRules(forceLines) && next == Next(rules) && Fine(t, leaves)
    ensures MathInvariant(next(t), leaves, false) && (Indented(next(t), |leaves|) <==> !Leaks(t))
  {
    NextKeepsMath(t, leaves, rules, next);
    NextIndents(t, |leaves|, rules, forceLines, next);
  }

  lemma LooksLeaks(t: State, cats: seq<Category>, pp: nat)
    requires Looks(t, cats, pp)
    ensures Leaks(t) <==> pp + 1 < |cats| && cats[pp] == FN_DECL && cats[pp+1] == END_ARG
  {
  }

  // Three iterations lead to the head of a function before the end of an argument.
  lemma ThreeIterations(s: State, leaves: seq<Leaf>, rules: Rules, forceLines: bool, next: State -> State)
    requires SoundRules(rules) && rules == CweaveRules(forceLines) && next == Next(rules)
    requires Looks(s, [EXP, INT_LIKE, END_ARG], 0) && Fine(s, leaves)
    ensures var t := next(next(next(s))); Looks(t, [FN_DECL, END_ARG], 0) && Fine(t, leaves)
  {
    HeadIsMade(s, rules, forceLines, next);
    LooksLeaks(s, [EXP, INT_LIKE, END_ARG], 0);
    StaysFine(s, leaves, rules, forceLines, next);
    var a := next(s);
    CursorMoves(a, rules, forceLines, next);
    LooksLeaks(a, [FN_DECL, INT_LIKE, END_ARG], 0);
    StaysFine(a, leaves, rules, forceLines, next);
    var b := next(a);
    ArgumentIsMade(b, rules, forceLines, next);
    LooksLeaks(b, [FN_DECL, INT_LIKE, END_ARG], 1);
    StaysFine(b, leaves, rules, forceLines, next);
  }

  lemma TwoIterations(t: State, leaves: seq<Leaf>, rules: Rules, forceLines: bool, next: State -> State)
    requires SoundRules(rules) && rules == CweaveRules(forceLines) && next == Next(rules)
    requires Looks(t, [FN_DECL, END_ARG], 0) && Fine(t, leaves)
    ensures var r := next(next(t)); Looks(r, [END_ARG], 1) && !Indented(r, |leaves|)
  {
    HeadIsSwallowed(t, rules, forceLines, next);
    LooksLeaks(t, [FN_DECL, END_ARG], 0);
    StaysFine(t, leaves, rules, forceLines, next);
    CursorMoves(next(t), rules, forceLines, next);
    OnlyCursorMoves(next(t), rules, forceLines, next);
  }

  lemma OnlyCursorMoves(u: State, rules: Rules, forceLines: bool, next: State -> State)
    requires SoundRules(rules) && rules == CweaveRules(forceLines) && next == Next(rules) && Looks(u, [END_ARG], 0)
    ensures next(u) == u.(pp := 1)
  {
    RowsFire();
    MovesOn(u, rules, forceLines, next);
  }

  lemma FiveIterations(next: State -> State, s: State)
    ensures Iterate(next, s, 5) == next(next(next(next(next(s)))))
  {
    assert Iterate(next, s, 1) == next(s);
    assert Iterate(next, s, 2) == next(next(s));
    assert Iterate(next, s, 3) == next(next(next(s)));
    assert Iterate(next, s, 4) == next(next(next(next(s))));
  }

  lemma OneScrapIndents(r: State, leaves: nat)
    requires WellFormed(r) && Cats(r.scraps) == [END_ARG] && !Indented(r, leaves)
    ensures Heads(r.scraps) == 0 && NetAll(r.store, leaves, Finished(r.scraps), r.store.Texts()) != 0
  {
    var a := r.scraps[0];
    assert a.cat == Cats(r.scraps)[0] == END_ARG;
    assert r.scraps == [a] && [a][..0] == [];
    assert Heads([]) == 0 && Finished([]) == [];
    NetFinishOne(r.store, leaves, a, true, r.store.Texts());
    assert Finished(r.scraps) == [] + FinishOne(a, true) == FinishOne(a, true);
  }

  /** For example, the scraps of `f int @]`: no head of a function is left at the end, and
      yet the finished text indents what follows it. */
  lemma LeakExample(s: State, leaves: seq<Leaf>, rules: Rules, forceLines: bool)
    requires SoundRules(rules) && rules == CweaveRules(forceLines)
    requires s == RowState([EXP, INT_LIKE, END_ARG]) && leaves == RowLeaves([EXP, INT_LIKE, END_ARG])
    ensures FromScanner(s, leaves)
    ensures var r := Run(s, rules); Heads(r.scraps) == 0 && NetAll(r.store, |leaves|, Finished(r.scraps), r.store.Texts()) != 0
  {
    RowIsScanned([EXP, INT_LIKE, END_ARG]);
    ScannedKeeps(s, leaves, false);
    ScannedIndents(s, leaves);
    var next := Next(rules);
    ThreeIterations(s, leaves, rules, forceLines, next);
    TwoIterations(next(next(next(s))), leaves, rules, forceLines, next);
    FiveIterations(next, s);
    EndIsRun(s, rules, 5, next, Iterate(next, s, 5));
    OneScrapIndents(Run(s, rules), |leaves|);
  }
}
