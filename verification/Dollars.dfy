// The finished text: single blanks between what is left, and no two dollars side by side
// (cweb/cweave.c:2003-2038, 2970-2977; cweb/prod.w:11-14).

module Dollars {
  import opened Basics
  import opened Category
  import opened Productions
  import opened ProductionTable
  import opened TextStore
  import opened Reducer
  import opened ReducerRun
  import opened ReducerMath
  import opened Iteration

  // ---------- what stands between scraps

  function Undollared(toks: seq<Token>): seq<Token> {
    if toks == [] then []
    else Undollared(toks[..|toks|-1]) + if toks[|toks|-1] == Code(DOLLAR) then [] else [toks[|toks|-1]]
  }

  lemma {:induction false} UndollaredBoth(a: seq<Token>, b: seq<Token>)
    ensures Undollared(a + b) == Undollared(a) + Undollared(b)
    decreases |b|
  {
    if b == [] {
      assert a + b == a;
      NothingMore(Undollared(a));
    } else {
      UndollaredBoth(a, b[..|b|-1]);
      assert (a + b)[..|a + b|-1] == a + b[..|b|-1];
      Regroup(Undollared(a), Undollared(b[..|b|-1]), if b[|b|-1] == Code(DOLLAR) then [] else [b[|b|-1]]);
    }
  }

  lemma UndollaredOne(tok: Token)
    ensures Undollared([tok]) == if tok == Code(DOLLAR) then [] else [tok]
  {
    assert [tok][..0] == [] && Undollared([]) == [];
  }

  lemma FinishOneIs(a: Scrap, first: bool)
    ensures Undollared(FinishOne(a, first)) == (if first then [] else [Code(BLANK)]) + [Ref(a.trans)]
  {
    var blank: seq<Token> := if first then [] else [Code(BLANK)];
    var open: seq<Token> := if a.mathness % 4 == YES_MATH then [Code(DOLLAR)] else [];
    var close: seq<Token> := if a.mathness / 4 == YES_MATH then [Code(DOLLAR)] else [];
    UndollaredBoth(blank + open + [Ref(a.trans)], close);
    UndollaredBoth(blank + open, [Ref(a.trans)]);
    UndollaredBoth(blank, open);
    UndollaredOne(Code(BLANK));
    UndollaredOne(Code(DOLLAR));
    UndollaredOne(Ref(a.trans));
    NothingMore(blank);
    NothingMore(blank + [Ref(a.trans)]);
  }

  /** The texts of the scraps, with a blank between every two. */
  predicate Spaced(u: seq<Token>, scraps: seq<Scrap>) {
    && |u| == (if scraps == [] then 0 else 2 * |scraps| - 1)
    && (forall i {:trigger scraps[i]} :: 0 <= i < |scraps| ==> u[2 * i] == Ref(scraps[i].trans))
    && (forall i {:trigger scraps[i]} :: 0 < i < |scraps| ==> u[2 * i - 1] == Code(BLANK))
  }

  lemma SpacedMore(u: seq<Token>, scraps: seq<Scrap>, a: Scrap)
    requires Spaced(u, scraps)
    ensures Spaced(u + ((if scraps == [] then [] else [Code(BLANK)]) + [Ref(a.trans)]), scraps + [a])
  {
    var n, all := |scraps|, scraps + [a];
    var v := u + ((if scraps == [] then [] else [Code(BLANK)]) + [Ref(a.trans)]);
    forall i | 0 <= i < |all|
      ensures v[2 * i] == Ref(all[i].trans)
    {
      if i < n { assert all[i] == scraps[i]; }
    }
    forall i | 0 < i < |all|
      ensures v[2 * i - 1] == Code(BLANK)
    {
      if i < n { assert all[i] == scraps[i]; }
    }
  }

  /** Such is the finished text, but for dollars. */
  lemma {:induction false} FinishedIsSpaced(scraps: seq<Scrap>)
    ensures Spaced(Undollared(Finished(scraps)), scraps)
    decreases |scraps|
  {
    if scraps != [] {
      var n := |scraps| - 1;
      FinishedIsSpaced(scraps[..n]);
      FinishOneIs(scraps[n], n == 0);
      UndollaredBoth(Finished(scraps[..n]), FinishOne(scraps[n], n == 0));
      SpacedMore(Undollared(Finished(scraps[..n])), scraps[..n], scraps[n]);
      assert scraps == scraps[..n] + [scraps[n]];
    }
  }

  // ---------- texts written out

  /** The codes of a text and of all texts that it refers to; a scanned text is one token. */
  function Flat(store: Store, leaves: nat, t: nat): seq<Token>
    requires store.Valid()
    decreases t, 2, 0
  {
    if t < leaves then [Ref(t)] else if t < store.Texts() then FlatAll(store, leaves, store.Text(t), t) else []
  }

  function FlatToken(store: Store, leaves: nat, tok: Token, bound: nat): seq<Token>
    requires store.Valid()
    decreases bound, 0, 0
  {
    if tok.Ref? then (if tok.t < bound then Flat(store, leaves, tok.t) else []) else [tok]
  }

  function FlatAll(store: Store, leaves: nat, toks: seq<Token>, bound: nat): seq<Token>
    requires store.Valid()
    decreases bound, 1, |toks|
  {
    if toks == [] then []
    else FlatAll(store, leaves, toks[..|toks|-1], bound) + FlatToken(store, leaves, toks[|toks|-1], bound)
  }

  predicate DollarAt(s: seq<Token>, i: int) {
    0 <= i < |s| && s[i] == Code(DOLLAR)
  }

  ghost predicate NoPair(s: seq<Token>) {
    forall i {:trigger DollarAt(s, i)} :: DollarAt(s, i) ==> !DollarAt(s, i + 1)
  }

  /** Neither end is a dollar, and no two are side by side. */
  ghost predicate Quiet(s: seq<Token>) {
    s != [] && !DollarAt(s, 0) && !DollarAt(s, |s| - 1) && NoPair(s)
  }

  lemma NoPairBoth(a: seq<Token>, b: seq<Token>)
    requires NoPair(a) && NoPair(b) && !(DollarAt(a, |a| - 1) && DollarAt(b, 0))
    ensures NoPair(a + b)
  {
    var s := a + b;
    forall i | DollarAt(s, i)
      ensures !DollarAt(s, i + 1)
    {
      if i < |a| {
        assert DollarAt(a, i);
        assert i + 1 < |a| ==> (DollarAt(s, i + 1) <==> DollarAt(a, i + 1));
        assert i + 1 == |a| ==> (DollarAt(s, i + 1) <==> DollarAt(b, 0));
      } else {
        assert DollarAt(b, i - |a|);
        assert DollarAt(s, i + 1) <==> DollarAt(b, i - |a| + 1);
      }
    }
  }

  lemma QuietBoth(a: seq<Token>, b: seq<Token>)
    requires (a == [] || Quiet(a)) && Quiet(b)
    ensures Quiet(a + b)
  {
    NoPairBoth(a, b);
    if a == [] {
      assert a + b == b;
    } else {
      assert (a + b)[0] == a[0] && (a + b)[|a + b|-1] == b[|b|-1];
    }
  }

  /** Going over to the other mode in between. */
  lemma QuietSwitch(a: seq<Token>, mode: nat, b: seq<Token>)
    requires (a == [] || Quiet(a)) && Quiet(b) && (a == [] ==> mode == NO_MATH)
    ensures Quiet(a + Switch(mode) + b)
  {
    var w := Switch(mode);
    assert forall i :: DollarAt(w, i) <==> i == if mode == NO_MATH then 2 else 0;
    assert NoPair(w);
    NoPairBoth(a, w);
    NoPairBoth(a + w, b);
    assert DollarAt(a + w, |a + w| - 1) <==> DollarAt(w, 2);
    var s := a + w + b;
    assert s[0] == (if a == [] then w[0] else a[0]) && s[|s|-1] == b[|b|-1];
  }

  // ---------- building a text

  lemma FlatPut(store: Store, leaves: nat, a: seq<Token>, tok: Token, bound: nat)
    requires store.Valid()
    ensures FlatAll(store, leaves, a + [tok], bound) == FlatAll(store, leaves, a, bound) + FlatToken(store, leaves, tok, bound)
  {
    assert (a + [tok])[..|a|] == a;
  }

  lemma FlatSwitch(store: Store, leaves: nat, a: seq<Token>, mode: nat, bound: nat)
    requires store.Valid()
    ensures FlatAll(store, leaves, a + Switch(mode), bound) == FlatAll(store, leaves, a, bound) + Switch(mode)
  {
    var x, y, z := Switch(mode)[0], Switch(mode)[1], Switch(mode)[2];
    var f := FlatAll(store, leaves, a, bound);
    assert a + Switch(mode) == a + [x] + [y] + [z] && f + Switch(mode) == f + [x] + [y] + [z];
    FlatPut(store, leaves, a, x, bound);
    FlatPut(store, leaves, a + [x], y, bound);
    FlatPut(store, leaves, a + [x] + [y], z, bound);
  }

  /** Nothing has been put out, or what has been is quiet. */
  ghost predicate QuietDraft(store: Store, leaves: nat, b: Draft, bound: nat)
    requires store.Valid()
  {
    var f := FlatAll(store, leaves, b.out, bound);
    if f == [] then b.cur != NO_MATH else Quiet(f)
  }

  lemma EnterAndPut(store: Store, leaves: nat, b: Draft, mode: nat, tok: Token, bound: nat)
    requires store.Valid() && QuietDraft(store, leaves, b, bound) && IsMode(mode) && b.cur <= NO_MATH
    requires Quiet(FlatToken(store, leaves, tok, bound))
    ensures Quiet(FlatAll(store, leaves, Put(Enter(b, mode), tok).out, bound))
  {
    var f, g := FlatAll(store, leaves, b.out, bound), FlatToken(store, leaves, tok, bound);
    FlatPut(store, leaves, Enter(b, mode).out, tok, bound);
    if b.cur == MAYBE_MATH || b.cur == mode {
      QuietBoth(f, g);
    } else {
      FlatSwitch(store, leaves, b.out, mode, bound);
      QuietSwitch(f, mode, g);
    }
  }

  lemma JustPut(store: Store, leaves: nat, b: Draft, tok: Token, bound: nat)
    requires store.Valid() && QuietDraft(store, leaves, b, bound) && Quiet(FlatToken(store, leaves, tok, bound))
    ensures Quiet(FlatAll(store, leaves, Put(b, tok).out, bound))
  {
    FlatPut(store, leaves, b.out, tok, bound);
    QuietBoth(FlatAll(store, leaves, b.out, bound), FlatToken(store, leaves, tok, bound));
  }

  predicate NoDollar(op: Op) {
    match op
    case Big(c) => c != DOLLAR
    case Raw(c) => c != DOLLAR
    case Escaped(c) => c != DOLLAR
    case _ => true
  }

  lemma QuietPerform(store: Store, leaves: nat, b: Draft, op: Op, window: seq<Scrap>, bound: nat)
    requires store.Valid() && QuietDraft(store, leaves, b, bound) && b.cur <= NO_MATH && InRange(op, |window|) && NoDollar(op)
    requires op.Take? ==> window[op.i].trans < bound && window[op.i].mathness / 4 <= NO_MATH && Quiet(Flat(store, leaves, window[op.i].trans))
    ensures var c := Perform(b, op, window); QuietDraft(store, leaves, c, bound) && c.cur <= NO_MATH && (b.init <= NO_MATH ==> c.init <= NO_MATH)
    ensures op != SetMath ==> FlatAll(store, leaves, Perform(b, op, window).out, bound) != []
  {
    match op {
      case Take(i) =>
        var m := window[i].mathness % 4;
        if IsMode(m) {
          EnterAndPut(store, leaves, b, m, Ref(window[i].trans), bound);
        } else {
          JustPut(store, leaves, b, Ref(window[i].trans), bound);
        }
      case Big(c) => EnterAndPut(store, leaves, b, if WantsText(c) then NO_MATH else YES_MATH, Code(c), bound);
      case Raw(c) => JustPut(store, leaves, b, Code(c), bound);
      case Escaped(c) =>
        JustPut(store, leaves, b, Code(BACKSLASH), bound);
        JustPut(store, leaves, Put(b, Code(BACKSLASH)), Code(c), bound);
      case SetMath =>
    }
  }

  lemma {:induction false} QuietBody(store: Store, leaves: nat, body: seq<Op>, j: nat, b: Draft, window: seq<Scrap>, bound: nat)
    requires store.Valid() && j <= |body| && QuietDraft(store, leaves, b, bound) && b.cur <= NO_MATH
    requires forall op :: op in body ==> InRange(op, |window|) && NoDollar(op)
    requires forall i :: 0 <= i < |window| ==>
               window[i].trans < bound && window[i].mathness / 4 <= NO_MATH && Quiet(Flat(store, leaves, window[i].trans))
    requires j == |body| ==> FlatAll(store, leaves, b.out, bound) != []
    requires j < |body| ==> body[|body|-1] != SetMath
    ensures Quiet(FlatAll(store, leaves, PerformAll(body, j, b, window).out, bound))
    ensures b.init <= NO_MATH ==> PerformAll(body, j, b, window).init <= NO_MATH && PerformAll(body, j, b, window).cur <= NO_MATH
    decreases |body| - j
  {
    if j < |body| {
      QuietPerform(store, leaves, b, body[j], window, bound);
      QuietBody(store, leaves, body, j + 1, Perform(b, body[j], window), window, bound);
    }
  }

  // ---------- the table

  predicate NoDollars(p: Production) {
    p.Reduce? ==> forall i :: 0 <= i < |p.body| ==> NoDollar(p.body[i])
  }

  predicate Early(c: Category) {
    || c == EXP || c == LPAR || c == QUESTION || c == UNOP || c == UNORBINOP || c == BINOP || c == CAST || c == SIZEOF_LIKE
    || c == INT_LIKE || c == DECL_HEAD
  }

  predicate Middle(c: Category) {
    || c == STRUCT_HEAD || c == FN_DECL || c == FUNCTION || c == LBRACE || c == DO_LIKE || c == IF_LIKE || c == FOR_LIKE || c == ELSE_LIKE
  }

  predicate Late(c: Category) {
    || c == IF_CLAUSE || c == IF_HEAD || c == CASE_LIKE || c == STMT || c == TAG || c == LPROC
  }

  lemma EarlyNoDollars(c0: Category, c1: Category, c2: Category, c3: Category, forceLines: bool)
    requires Early(c0)
    ensures NoDollars(CategoryRules(c0, c1, c2, c3, forceLines))
  {
  }

  lemma MiddleNoDollars(c0: Category, c1: Category, c2: Category, c3: Category, forceLines: bool)
    requires Middle(c0)
    ensures NoDollars(CategoryRules(c0, c1, c2, c3, forceLines))
  {
  }

  lemma LateNoDollars(c0: Category, c1: Category, c2: Category, c3: Category, forceLines: bool)
    requires Late(c0)
    ensures NoDollars(CategoryRules(c0, c1, c2, c3, forceLines))
  {
  }

  lemma OtherNoDollars(c0: Category, c1: Category, c2: Category, c3: Category, forceLines: bool)
    requires !Early(c0) && !Middle(c0) && !Late(c0)
    ensures NoDollars(CategoryRules(c0, c1, c2, c3, forceLines))
  {
  }

  lemma {:induction false} RunNoDollars(at: nat, k: nat)
    ensures forall op :: op in ScrapRun(at, k) ==> NoDollar(op)
    decreases k
  {
    if k > 0 {
      RunNoDollars(at + 1, k - 1);
    }
  }

  lemma TableNoDollars(c0: Category, c1: Category, c2: Category, c3: Category, rules: Rules, forceLines: bool)
    requires rules == CweaveRules(forceLines)
    ensures forall op :: op in Body(rules(c0, c1, c2, c3)) ==> NoDollar(op)
  {
    NoneHasDollars(c0, c1, c2, c3, forceLines);
    var p := Match(c0, c1, c2, c3, forceLines);
    if p.Squash? { RunNoDollars(p.at, p.k); }
  }

  lemma NoneHasDollars(c0: Category, c1: Category, c2: Category, c3: Category, forceLines: bool)
    ensures NoDollars(Match(c0, c1, c2, c3, forceLines))
  {
    if Early(c0) {
      EarlyNoDollars(c0, c1, c2, c3, forceLines);
    } else if Middle(c0) {
      MiddleNoDollars(c0, c1, c2, c3, forceLines);
    } else if Late(c0) {
      LateNoDollars(c0, c1, c2, c3, forceLines);
    } else {
      OtherNoDollars(c0, c1, c2, c3, forceLines);
    }
  }

  // ---------- whole runs

  lemma {:induction false} FlatStable(a: Store, b: Store, leaves: nat, t: nat)
    requires Extends(a, b, leaves) && t < a.Texts()
    ensures Flat(a, leaves, t) == Flat(b, leaves, t)
    decreases t, 2, 0
  {
    if t >= leaves { FlatAllStable(a, b, leaves, a.Text(t), t); }
  }

  lemma {:induction false} FlatAllStable(a: Store, b: Store, leaves: nat, toks: seq<Token>, bound: nat)
    requires Extends(a, b, leaves) && bound <= a.Texts()
    ensures FlatAll(a, leaves, toks, bound) == FlatAll(b, leaves, toks, bound)
    decreases bound, 1, |toks|
  {
    if toks != [] {
      FlatAllStable(a, b, leaves, toks[..|toks|-1], bound);
      var tok := toks[|toks|-1];
      if tok.Ref? && tok.t < bound { FlatStable(a, b, leaves, tok.t); }
    }
  }

  /** The text of every scrap is quiet. */
  ghost predicate AllQuiet(store: Store, leaves: nat, scraps: seq<Scrap>)
    requires store.Valid()
  {
    forall i :: 0 <= i < |scraps| ==>
      scraps[i].trans < store.Texts() && scraps[i].mathness / 4 <= NO_MATH && Quiet(Flat(store, leaves, scraps[i].trans))
  }

  ghost predicate QuietState(s: State, leaves: nat) {
    WellFormed(s) && BuiltTexts(s.store, leaves) && leaves <= s.store.Texts() && AllQuiet(s.store, leaves, s.scraps)
  }

  lemma PreparedQuiet(s: State, p: Production, leaves: nat) returns (u: State)
    requires QuietState(s, leaves) && Fits(p, |s.scraps| - s.pp)
    ensures u == Prepared(s, p) && QuietState(u, leaves) && u.pp == s.pp && |u.scraps| == |s.scraps|
  {
    u := Prepared(s, p);
    PreparedWellFormed(s, p);
    PreparedValid(s, p);
    FlippedExtends(s.store, u.store, leaves);
    forall i | 0 <= i < |u.scraps|
      ensures u.scraps[i].trans < u.store.Texts() && u.scraps[i].mathness / 4 <= NO_MATH && Quiet(Flat(u.store, leaves, u.scraps[i].trans))
    {
      FlatStable(s.store, u.store, leaves, s.scraps[i].trans);
    }
  }

  lemma OthersQuiet(u: State, t: State, leaves: nat, j: nat, k: nat, a: Scrap)
    requires u.store.Valid() && AllQuiet(u.store, leaves, u.scraps) && Extends(u.store, t.store, leaves) && 1 <= k && j + k <= |u.scraps|
    requires t.scraps == Replace(u.scraps, j, k, a)
    requires a.trans < t.store.Texts() && a.mathness / 4 <= NO_MATH && Quiet(Flat(t.store, leaves, a.trans))
    ensures AllQuiet(t.store, leaves, t.scraps)
  {
    forall i | 0 <= i < |t.scraps|
      ensures t.scraps[i].trans < t.store.Texts() && t.scraps[i].mathness / 4 <= NO_MATH && Quiet(Flat(t.store, leaves, t.scraps[i].trans))
    {
      if i != j {
        var from := if i < j then i else i + k - 1;
        assert t.scraps[i] == u.scraps[from];
        FlatStable(u.store, t.store, leaves, u.scraps[from].trans);
      }
    }
  }

  lemma BuildQuiet(u: State, p: Production, leaves: nat)
    requires QuietState(u, leaves) && Fits(p, |u.scraps| - u.pp) && Shapely(p) && !Retags(p)
    requires forall op :: op in Body(p) ==> NoDollar(op)
    ensures BuiltTexts(Build(u, p).store, leaves) && AllQuiet(Build(u, p).store, leaves, Build(u, p).scraps)
  {
    var window, b, t, n := u.scraps[u.pp..], Drafted(u, p), Build(u, p), u.store.Texts();
    BodyBuilds(Body(p), 0, EMPTY_DRAFT, window, n);
    QuietBody(u.store, leaves, Body(p), 0, EMPTY_DRAFT, window, n);
    AppendExtends(u.store, b.out, leaves);
    u.store.AppendFreezes(b.out);
    FlatAllStable(u.store, t.store, leaves, b.out, n);
    OthersQuiet(u, t, leaves, u.pp + p.at, p.k, NewScrap(u, p));
  }

  lemma NextQuiet(t: State, leaves: nat, rules: Rules, forceLines: bool, next: State -> State)
    requires QuietState(t, leaves) && SoundRules(rules) && rules == CweaveRules(forceLines) && next == Next(rules)
    ensures QuietState(next(t), leaves)
  {
    NextIsStep(t, rules);
    if t.pp < |t.scraps| {
      var p := ProductionAt(t.scraps, t.pp, rules);
      ProductionFits(t, rules);
      StepDescends(t, rules);
      if !p.NoRule? {
        SoundShapely(t, p);
        NoDollarsAt(t, rules, forceLines);
        FireQuiet(t, p, leaves);
      }
    }
  }

  lemma NoDollarsAt(t: State, rules: Rules, forceLines: bool)
    requires rules == CweaveRules(forceLines)
    ensures forall op :: op in Body(ProductionAt(t.scraps, t.pp, rules)) ==> NoDollar(op)
  {
    TableNoDollars(CatAt(t.scraps, t.pp), CatAt(t.scraps, t.pp + 1), CatAt(t.scraps, t.pp + 2), CatAt(t.scraps, t.pp + 3), rules, forceLines);
  }

  lemma FireQuiet(t: State, p: Production, leaves: nat)
    requires QuietState(t, leaves) && Fits(p, |t.scraps| - t.pp) && Shapely(p) && forall op :: op in Body(p) ==> NoDollar(op)
    ensures QuietState(Fire(t, p), leaves)
  {
    FireWellFormed(t, p);
    if Retags(p) {
      assert Fire(t, p).store == t.store;
    } else {
      PreparedValid(t, p);
      var u := PreparedQuiet(t, p, leaves);
      BuildQuiet(u, p, leaves);
    }
  }

  lemma ScannedQuiet(s: State, leaves: seq<Leaf>)
    requires Scanned(s, leaves)
    ensures QuietState(s, |leaves|)
  {
    forall i | 0 <= i < |s.scraps|
      ensures s.scraps[i].trans < s.store.Texts() && s.scraps[i].mathness / 4 <= NO_MATH && Quiet(Flat(s.store, |leaves|, s.scraps[i].trans))
    {
      var leaf := leaves[s.scraps[i].trans];
      assert s.scraps[i].mathness == 5 * leaf.mode;
    }
  }

  lemma EveryStateQuiet(s: State, leaves: seq<Leaf>, rules: Rules, forceLines: bool, next: State -> State, n: nat)
    requires SoundRules(rules) && rules == CweaveRules(forceLines) && next == Next(rules) && Scanned(s, leaves)
    ensures QuietState(Iterate(next, s, n), |leaves|)
  {
    ScannedQuiet(s, leaves);
    forall t | QuietState(t, |leaves|)
      ensures QuietState(next(t), |leaves|)
    {
      NextQuiet(t, |leaves|, rules, forceLines, next);
    }
    Invariance(next, s, n, t => QuietState(t, |leaves|));
  }

  // ---------- the finished text

  lemma {:induction false} FlatBoth(store: Store, leaves: nat, a: seq<Token>, b: seq<Token>, bound: nat)
    requires store.Valid()
    ensures FlatAll(store, leaves, a + b, bound) == FlatAll(store, leaves, a, bound) + FlatAll(store, leaves, b, bound)
    decreases |b|
  {
    if b == [] {
      assert a + b == a;
    } else {
      FlatBoth(store, leaves, a, b[..|b|-1], bound);
      assert (a + b)[..|a + b|-1] == a + b[..|b|-1];
      Regroup(FlatAll(store, leaves, a, bound), FlatAll(store, leaves, b[..|b|-1], bound), FlatToken(store, leaves, b[|b|-1], bound));
    }
  }

  lemma FlatOne(store: Store, leaves: nat, tok: Token, bound: nat)
    requires store.Valid()
    ensures FlatAll(store, leaves, [tok], bound) == FlatToken(store, leaves, tok, bound)
  {
    FlatPut(store, leaves, [], tok, bound);
    assert [] + [tok] == [tok] && [] + FlatToken(store, leaves, tok, bound) == FlatToken(store, leaves, tok, bound);
  }

  // A scrap in the finished text, with its dollars.
  lemma FlatFinishOne(store: Store, leaves: nat, a: Scrap, first: bool, bound: nat)
    requires store.Valid() && a.trans < bound && Quiet(Flat(store, leaves, a.trans))
    ensures var f := FlatAll(store, leaves, FinishOne(a, first), bound); NoPair(f) && (!first ==> f != [] && !DollarAt(f, 0))
  {
    var blank: seq<Token> := if first then [] else [Code(BLANK)];
    var open: seq<Token> := if a.mathness % 4 == YES_MATH then [Code(DOLLAR)] else [];
    var close: seq<Token> := if a.mathness / 4 == YES_MATH then [Code(DOLLAR)] else [];
    var text := Flat(store, leaves, a.trans);
    FlatOne(store, leaves, Code(BLANK), bound);
    FlatOne(store, leaves, Code(DOLLAR), bound);
    FlatOne(store, leaves, Ref(a.trans), bound);
    FlatBoth(store, leaves, blank, open, bound);
    FlatBoth(store, leaves, blank + open, [Ref(a.trans)], bound);
    FlatBoth(store, leaves, blank + open + [Ref(a.trans)], close, bound);
    assert FlatAll(store, leaves, FinishOne(a, first), bound) == blank + open + text + close;
    BesideDollars(blank, open, text, close);
  }

  lemma BesideDollars(blank: seq<Token>, open: seq<Token>, text: seq<Token>, close: seq<Token>)
    requires (blank == [] || blank == [Code(BLANK)]) && (open == [] || open == [Code(DOLLAR)]) && (close == [] || close == [Code(DOLLAR)])
    requires Quiet(text)
    ensures var f := blank + open + text + close; NoPair(f) && (blank != [] ==> f != [] && !DollarAt(f, 0))
  {
    NoPairBoth(blank, open);
    assert !DollarAt(text, 0) && !DollarAt(text, |text| - 1);
    NoPairBoth(blank + open, text);
    var s := blank + open + text;
    assert s[|s|-1] == text[|text|-1];
    NoPairBoth(s, close);
  }

  lemma {:induction false} FinishedNoPair(store: Store, leaves: nat, scraps: seq<Scrap>)
    requires store.Valid() && AllQuiet(store, leaves, scraps)
    ensures NoPair(FlatAll(store, leaves, Finished(scraps), store.Texts()))
    decreases |scraps|
  {
    if scraps != [] {
      var n, bound := |scraps| - 1, store.Texts();
      FinishedNoPair(store, leaves, scraps[..n]);
      FlatFinishOne(store, leaves, scraps[n], n == 0, bound);
      FlatBoth(store, leaves, Finished(scraps[..n]), FinishOne(scraps[n], n == 0), bound);
      var f := FlatAll(store, leaves, Finished(scraps[..n]), bound);
      if n == 0 { assert f == []; }
      NoPairBoth(f, FlatAll(store, leaves, FinishOne(scraps[n], n == 0), bound));
    }
  }

  /** In no text of any run, nor in the finished text, two dollars stand side by side. */
  lemma NoDoubleDollar(s: State, leaves: seq<Leaf>, rules: Rules, forceLines: bool)
    requires SoundRules(rules) && rules == CweaveRules(forceLines) && Scanned(s, leaves)
    ensures var r := Run(s, rules); NoPair(FlatAll(r.store, |leaves|, Finished(r.scraps), r.store.Texts()))
  {
    var next := Next(rules);
    var n := RunIsSteps(s, rules, next);
    EveryStateQuiet(s, leaves, rules, forceLines, next, n);
    var r := Run(s, rules);
    assert Iterate(next, s, n) == r;
    FinishedNoPair(r.store, |leaves|, r.scraps);
  }
}
