// The math-mode discipline of CWEAVE's texts: every scrap's text, entered in the
// mode its mathness announces, meets every leaf and every mode-sensitive code in a
// mode it allows and ends in the mode its mathness announces
// (cweb/cweave.c:2003-2038, 2143-2239, 2970-2977).

module ReducerMath {
  import opened Category
  import opened Productions
  import opened ProductionTable
  import opened TextStore
  import opened Reducer
  import opened Iteration
  import opened ReducerRun

  // ---------- what TeX does with a text

  /** A leaf is a text that existed before parsing: it keeps TeX's mode, and wants
      `mode` (MAYBE_MATH for either). `cat` is the category it was scanned with. */
  datatype Leaf = Leaf(mode: nat, cat: Category)

  /** `strict` makes a bare blank illegal inside math. */
  datatype Context = Context(store: Store, leaves: seq<Leaf>, strict: bool)

  const WRONG_MODE := 99
  // Added to the mode between a backslash and the character it escapes.
  const ESCAPE := 10

  predicate IsMode(m: nat) { m == YES_MATH || m == NO_MATH }

  /** The mode after the code c, read in mode m. */
  function ReadCode(c: nat, m: nat, strict: bool): nat {
    if m == YES_MATH + ESCAPE || m == NO_MATH + ESCAPE then m - ESCAPE
    else if !IsMode(m) then WRONG_MODE
    else if c == DOLLAR then YES_MATH + NO_MATH - m
    else if c == BACKSLASH then m + ESCAPE
    else if (OutsideOnly(c, strict) && m != NO_MATH) || (InsideOnly(c) && m != YES_MATH) then WRONG_MODE
    else m
  }

  /** The mode after text t, entered in mode m. */
  function ReadText(x: Context, t: nat, m: nat): nat
    requires x.store.Valid()
    decreases t, 2, 0
  {
    if t < |x.leaves| then
      if IsMode(m) && (x.leaves[t].mode == MAYBE_MATH || x.leaves[t].mode == m) then m else WRONG_MODE
    else if t < x.store.Texts() then ReadAll(x, x.store.Text(t), m, t)
    else WRONG_MODE
  }

  function ReadToken(x: Context, tok: Token, m: nat, bound: nat): nat
    requires x.store.Valid()
    decreases bound, 0, 0
  {
    match tok
    case Code(c) => ReadCode(c, m, x.strict)
    case Ref(t) => if IsMode(m) && t < bound then ReadText(x, t, m) else WRONG_MODE
    case _ => WRONG_MODE
  }

  /** The mode after the tokens `toks`, which may refer to texts below `bound`. */
  function ReadAll(x: Context, toks: seq<Token>, m: nat, bound: nat): nat
    requires x.store.Valid()
    decreases bound, 1, |toks|
  {
    if toks == [] then m
    else ReadToken(x, toks[|toks|-1], ReadAll(x, toks[..|toks|-1], m, bound), bound)
  }

  lemma {:induction false} ReadConcat(x: Context, a: seq<Token>, b: seq<Token>, m: nat, bound: nat)
    requires x.store.Valid()
    ensures ReadAll(x, a + b, m, bound) == ReadAll(x, b, ReadAll(x, a, m, bound), bound)
    decreases |b|
  {
    if b == [] {
      assert a + b == a;
    } else {
      assert (a + b)[..|a + b|-1] == a + b[..|b|-1];
      ReadConcat(x, a, b[..|b|-1], m, bound);
    }
  }

  lemma ReadPut(x: Context, a: seq<Token>, tok: Token, m: nat, bound: nat)
    requires x.store.Valid()
    ensures ReadAll(x, a + [tok], m, bound) == ReadToken(x, tok, ReadAll(x, a, m, bound), bound)
  {
    assert (a + [tok])[..|a|] == a;
  }

  lemma ReadSwitch(x: Context, a: seq<Token>, mode: nat, m: nat, bound: nat)
    requires x.store.Valid() && IsMode(mode) && ReadAll(x, a, m, bound) == YES_MATH + NO_MATH - mode
    ensures ReadAll(x, a + Switch(mode), m, bound) == mode
  {
    var w := Switch(mode);
    ReadPut(x, a, w[0], m, bound);
    ReadPut(x, a + [w[0]], w[1], m, bound);
    ReadPut(x, a + [w[0]] + [w[1]], w[2], m, bound);
    assert a + w == a + [w[0]] + [w[1]] + [w[2]];
  }

  // ---------- scraps and drafts that keep their word

  /** Tokens whose behaviour is summed up by an initial and a final mode. */
  predicate Keeps(x: Context, toks: seq<Token>, init: nat, final: nat, bound: nat)
    requires x.store.Valid()
  {
    if init == MAYBE_MATH then
      final == MAYBE_MATH && ReadAll(x, toks, YES_MATH, bound) == YES_MATH && ReadAll(x, toks, NO_MATH, bound) == NO_MATH
    else
      IsMode(init) && IsMode(final) && ReadAll(x, toks, init, bound) == final
  }

  predicate ScrapKeeps(x: Context, a: Scrap)
    requires x.store.Valid()
  {
    var init, final := a.mathness % 4, a.mathness / 4;
    if init == MAYBE_MATH then
      final == MAYBE_MATH && ReadText(x, a.trans, YES_MATH) == YES_MATH && ReadText(x, a.trans, NO_MATH) == NO_MATH
    else
      IsMode(init) && IsMode(final) && ReadText(x, a.trans, init) == final
  }

  predicate DraftKeeps(x: Context, b: Draft, bound: nat)
    requires x.store.Valid()
  {
    Keeps(x, b.out, b.init, b.cur, bound)
  }

  lemma EnterKeeps(x: Context, b: Draft, mode: nat, bound: nat)
    requires x.store.Valid() && DraftKeeps(x, b, bound) && IsMode(mode)
    ensures DraftKeeps(x, Enter(b, mode), bound) && Enter(b, mode).cur == mode
  {
    if b.cur != MAYBE_MATH && b.cur != mode {
      ReadSwitch(x, b.out, mode, b.init, bound);
    }
  }

  // A token that takes mode `from` to mode `to`, put after a draft that has reached `from`.
  lemma PutKeeps(x: Context, b: Draft, tok: Token, to: nat, bound: nat)
    requires x.store.Valid() && DraftKeeps(x, b, bound) && IsMode(b.cur) && IsMode(to)
    requires ReadToken(x, tok, b.cur, bound) == to
    ensures DraftKeeps(x, Put(b, tok).(cur := to), bound)
  {
    ReadPut(x, b.out, tok, b.init, bound);
  }

  // A token that leaves both modes alone.
  lemma PutNeutral(x: Context, b: Draft, tok: Token, bound: nat)
    requires x.store.Valid() && DraftKeeps(x, b, bound)
    requires ReadToken(x, tok, YES_MATH, bound) == YES_MATH && ReadToken(x, tok, NO_MATH, bound) == NO_MATH
    ensures DraftKeeps(x, Put(b, tok), bound)
  {
    ReadPut(x, b.out, tok, b.init, bound);
    ReadPut(x, b.out, tok, YES_MATH, bound);
    ReadPut(x, b.out, tok, NO_MATH, bound);
  }

  lemma PutEscaped(x: Context, b: Draft, c: nat, bound: nat)
    requires x.store.Valid() && DraftKeeps(x, b, bound)
    ensures DraftKeeps(x, Put(Put(b, Code(BACKSLASH)), Code(c)), bound)
  {
    forall m | IsMode(m) && IsMode(ReadAll(x, b.out, m, bound))
      ensures ReadAll(x, b.out + [Code(BACKSLASH)] + [Code(c)], m, bound) == ReadAll(x, b.out, m, bound)
    {
      ReadPut(x, b.out, Code(BACKSLASH), m, bound);
      ReadPut(x, b.out + [Code(BACKSLASH)], Code(c), m, bound);
    }
  }

  lemma BigAppKeeps(x: Context, b: Draft, c: nat, bound: nat)
    requires x.store.Valid() && DraftKeeps(x, b, bound)
    requires WellPlaced(c)
    ensures DraftKeeps(x, BigApp(b, c), bound)
  {
    var mode := if WantsText(c) then NO_MATH else YES_MATH;
    EnterKeeps(x, b, mode, bound);
    PutKeeps(x, Enter(b, mode), Code(c), mode, bound);
  }

  lemma BigApp1Keeps(x: Context, b: Draft, a: Scrap, bound: nat)
    requires x.store.Valid() && DraftKeeps(x, b, bound) && ScrapKeeps(x, a) && a.trans < bound
    ensures DraftKeeps(x, BigApp1(b, a), bound)
  {
    var m := a.mathness % 4;
    if IsMode(m) {
      EnterKeeps(x, b, m, bound);
      PutKeeps(x, Enter(b, m), Ref(a.trans), a.mathness / 4, bound);
    } else {
      PutNeutral(x, b, Ref(a.trans), bound);
    }
  }

  /** Operations that put no code into a mode TeX rejects. */
  predicate Tame(op: Op, strict: bool) {
    match op
    case Take(_) => true
    case Big(c) => WellPlaced(c)
    case Raw(c) => Neutral(c) || (c == BLANK && !strict)
    case Escaped(_) => true
    case SetMath => false
  }

  lemma {:induction false} BodyKeeps(x: Context, body: seq<Op>, j: nat, b: Draft, window: seq<Scrap>, bound: nat)
    requires x.store.Valid() && DraftKeeps(x, b, bound)
    requires j <= |body| && forall op :: op in body ==> InRange(op, |window|) && Tame(op, x.strict)
    requires forall i :: 0 <= i < |window| ==> ScrapKeeps(x, window[i]) && window[i].trans < bound
    ensures DraftKeeps(x, PerformAll(body, j, b, window), bound)
    decreases |body| - j
  {
    if j < |body| {
      var op := body[j];
      assert op in body;
      match op {
        case Take(i) => BigApp1Keeps(x, b, window[i], bound);
        case Big(c) => BigAppKeeps(x, b, c, bound);
        case Raw(c) => PutNeutral(x, b, Code(c), bound);
        case Escaped(c) => PutEscaped(x, b, c, bound);
      }
      BodyKeeps(x, body, j + 1, Perform(b, op, window), window, bound);
    }
  }

  // ---------- texts do not change once built

  /** The texts built by productions are there in `b` as they are in `a`. */
  ghost predicate Extends(a: Store, b: Store, leaves: nat) {
    && a.Valid() && b.Valid() && a.Texts() <= b.Texts()
    && forall t :: leaves <= t < a.Texts() ==> b.Text(t) == a.Text(t)
  }

  lemma {:induction false} ReadTextStable(x: Context, y: Context, t: nat, m: nat)
    requires Extends(x.store, y.store, |x.leaves|) && x.leaves == y.leaves && x.strict == y.strict
    requires t < x.store.Texts()
    ensures ReadText(x, t, m) == ReadText(y, t, m)
    decreases t, 2, 0
  {
    if t >= |x.leaves| {
      ReadAllStable(x, y, x.store.Text(t), m, t);
    }
  }

  lemma {:induction false} ReadAllStable(x: Context, y: Context, toks: seq<Token>, m: nat, bound: nat)
    requires Extends(x.store, y.store, |x.leaves|) && x.leaves == y.leaves && x.strict == y.strict
    requires bound <= x.store.Texts()
    ensures ReadAll(x, toks, m, bound) == ReadAll(y, toks, m, bound)
    decreases bound, 1, |toks|
  {
    if toks != [] {
      var before := ReadAll(x, toks[..|toks|-1], m, bound);
      ReadAllStable(x, y, toks[..|toks|-1], m, bound);
      var tok := toks[|toks|-1];
      if tok.Ref? && tok.t < bound {
        ReadTextStable(x, y, tok.t, before);
      }
    }
  }

  /** Texts from `leaves` on were built by productions. */
  ghost predicate BuiltTexts(store: Store, leaves: nat) {
    store.Valid() && forall t :: leaves <= t < store.Texts() ==> Built(store.Text(t), t)
  }

  lemma FlippedExtends(a: Store, b: Store, leaves: nat)
    requires BuiltTexts(a, leaves) && b.Valid() && a.starts == b.starts && FlippedAll(a.toks, b.toks)
    ensures Extends(a, b, leaves) && BuiltTexts(b, leaves)
  {
    forall t | leaves <= t < a.Texts()
      ensures b.Text(t) == a.Text(t)
    {
      var was, now := a.Text(t), b.Text(t);
      assert Built(was, t);
      forall i | 0 <= i < |was|
        ensures now[i] == was[i]
      {
        assert Flipped(a.toks[a.starts[t] + i], b.toks[a.starts[t] + i]);
      }
    }
  }

  lemma AppendExtends(a: Store, out: seq<Token>, leaves: nat)
    requires BuiltTexts(a, leaves) && Built(out, a.Texts())
    ensures Extends(a, a.Append(out), leaves) && BuiltTexts(a.Append(out), leaves)
  {
    a.AppendFreezes(out);
  }

  // ---------- the invariant

  /** Every live scrap keeps the word its mathness gives. */
  ghost predicate MathInvariant(s: State, leaves: seq<Leaf>, strict: bool) {
    WellFormed(s) && StoreKeeps(Context(s.store, leaves, strict), s.scraps)
  }

  ghost predicate StoreKeeps(x: Context, scraps: seq<Scrap>) {
    BuiltTexts(x.store, |x.leaves|) && |x.leaves| <= x.store.Texts() && AllKeep(x, scraps)
  }

  ghost predicate AllKeep(x: Context, scraps: seq<Scrap>)
    requires x.store.Valid()
  {
    forall i :: 0 <= i < |scraps| ==> ScrapKeeps(x, scraps[i]) && scraps[i].trans < x.store.Texts()
  }

  lemma ScrapStable(x: Context, y: Context, a: Scrap, b: Scrap)
    requires Extends(x.store, y.store, |x.leaves|) && x.leaves == y.leaves && x.strict == y.strict
    requires a.trans < x.store.Texts() && ScrapKeeps(x, a) && b.mathness == a.mathness && b.trans == a.trans
    ensures ScrapKeeps(y, b)
  {
    ReadTextStable(x, y, a.trans, YES_MATH);
    ReadTextStable(x, y, a.trans, NO_MATH);
  }

  lemma PreparedKeeps(s: State, p: Production, leaves: seq<Leaf>, strict: bool)
    requires MathInvariant(s, leaves, strict) && Fits(p, |s.scraps| - s.pp)
    ensures MathInvariant(Prepared(s, p), leaves, strict)
  {
    var t := Prepared(s, p);
    PreparedWellFormed(s, p);
    PreparedValid(s, p);
    FlippedExtends(s.store, t.store, |leaves|);
    forall i | 0 <= i < |t.scraps|
      ensures ScrapKeeps(Context(t.store, leaves, strict), t.scraps[i]) && t.scraps[i].trans < t.store.Texts()
    {
      ScrapStable(Context(s.store, leaves, strict), Context(t.store, leaves, strict), s.scraps[i], t.scraps[i]);
    }
  }

  predicate TameBody(p: Production, strict: bool) {
    forall op :: op in Body(p) ==> Tame(op, strict)
  }

  lemma NewScrapKeeps(x: Context, y: Context, b: Draft, a: Scrap)
    requires Extends(x.store, y.store, |x.leaves|) && x.leaves == y.leaves && x.strict == y.strict
    requires |x.leaves| <= x.store.Texts() < y.store.Texts() && y.store.Text(x.store.Texts()) == b.out
    requires DraftKeeps(x, b, x.store.Texts()) && a.trans == x.store.Texts() && a.mathness == 4 * b.cur + b.init
    ensures ScrapKeeps(y, a)
  {
    ReadAllStable(x, y, b.out, YES_MATH, x.store.Texts());
    ReadAllStable(x, y, b.out, NO_MATH, x.store.Texts());
  }

  lemma OtherScrapsKeep(x: Context, y: Context, scraps: seq<Scrap>, j: nat, k: nat, a: Scrap)
    requires Extends(x.store, y.store, |x.leaves|) && x.leaves == y.leaves && x.strict == y.strict
    requires AllKeep(x, scraps)
    requires j + k <= |scraps| && 1 <= k && ScrapKeeps(y, a) && a.trans < y.store.Texts()
    ensures AllKeep(y, Replace(scraps, j, k, a))
  {
    var after := Replace(scraps, j, k, a);
    forall i | 0 <= i < |after|
      ensures ScrapKeeps(y, after[i]) && after[i].trans < y.store.Texts()
    {
      if i != j {
        var from := scraps[if i < j then i else i + k - 1];
        assert after[i] == from;
        ScrapStable(x, y, from, from);
      }
    }
  }

  lemma AppendedKeep(x: Context, y: Context, scraps: seq<Scrap>, b: Draft, j: nat, k: nat, a: Scrap, after: seq<Scrap>)
    requires StoreKeeps(x, scraps) && Built(b.out, x.store.Texts()) && DraftKeeps(x, b, x.store.Texts())
    requires j + k <= |scraps| && 1 <= k && a.trans == x.store.Texts() && a.mathness == 4 * b.cur + b.init
    requires y == x.(store := x.store.Append(b.out)) && after == Replace(scraps, j, k, a)
    ensures StoreKeeps(y, after)
  {
    AppendExtends(x.store, b.out, |x.leaves|);
    NewScrapKeeps(x, y, b, a);
    OtherScrapsKeep(x, y, scraps, j, k, a);
  }

  lemma BuildKeeps(s: State, p: Production, x: Context, y: Context)
    requires StoreKeeps(x, s.scraps) && x.store == s.store
    requires s.pp <= |s.scraps| && Fits(p, |s.scraps| - s.pp)
    requires DraftKeeps(x, Drafted(s, p), s.store.Texts()) && Built(Drafted(s, p).out, s.store.Texts())
    requires y == x.(store := Build(s, p).store)
    ensures StoreKeeps(y, Build(s, p).scraps)
  {
    var b, t := Drafted(s, p), Build(s, p);
    AppendedKeep(x, y, s.scraps, b, s.pp + p.at, p.k, NewScrap(s, p), t.scraps);
  }

  lemma DraftedKeeps(s: State, p: Production, leaves: seq<Leaf>, strict: bool)
    requires MathInvariant(s, leaves, strict) && Fits(p, |s.scraps| - s.pp)
    requires TameBody(p, strict) || (Rerenders(p) && exists c :: Body(p) == [SetMath, Raw(c)] && InsideOnly(c))
    ensures DraftKeeps(Context(s.store, leaves, strict), Drafted(s, p), s.store.Texts())
    ensures Built(Drafted(s, p).out, s.store.Texts())
  {
    var x := Context(s.store, leaves, strict);
    var window := s.scraps[s.pp..];
    BodyBuilds(Body(p), 0, EMPTY_DRAFT, window, s.store.Texts());
    if TameBody(p, strict) {
      BodyKeeps(x, Body(p), 0, EMPTY_DRAFT, window, s.store.Texts());
    } else {
      var c :| Body(p) == [SetMath, Raw(c)] && InsideOnly(c);
      var inside := Draft([], YES_MATH, YES_MATH);
      assert Drafted(s, p) == Put(inside, Code(c)) by {
        assert PerformAll(Body(p), 1, inside, window) == PerformAll(Body(p), 2, Put(inside, Code(c)), window);
      }
      PutKeeps(x, inside, Code(c), YES_MATH, s.store.Texts());
    }
  }

  lemma InOrderTame(body: seq<Op>, j: nat, i: nat, hi: nat, blank: bool)
    requires j <= |body| && InOrder(body, j, i, hi, blank)
    ensures forall y :: j <= y < |body| ==> Tame(body[y], !blank)
    decreases |body| - j
  {
    if j < |body| {
      InOrderTame(body, j + 1, if body[j].Take? then i + 1 else i, hi, blank);
    }
  }

  lemma RetagKeeps(s: State, p: Production, leaves: seq<Leaf>, strict: bool)
    requires MathInvariant(s, leaves, strict) && Fits(p, |s.scraps| - s.pp) && Retags(p)
    ensures StoreKeeps(Context(s.store, leaves, strict), Fire(s, p).scraps)
  {
    var x := Context(s.store, leaves, strict);
    forall i | 0 <= i < |s.scraps|
      ensures ScrapKeeps(x, Fire(s, p).scraps[i]) && Fire(s, p).scraps[i].trans < s.store.Texts()
    {
      assert ScrapKeeps(x, s.scraps[i]);
    }
  }

  /** The productions of a sound table keep the invariant; with bare blanks illegal
      inside math, all but the second form of production 80 do. */
  lemma FireKeeps(s: State, p: Production, leaves: seq<Leaf>, strict: bool)
    requires MathInvariant(s, leaves, strict) && Fits(p, |s.scraps| - s.pp) && SoundAt(s.scraps, s.pp, p)
    requires strict ==> !PairsExps(p)
    ensures MathInvariant(Fire(s, p), leaves, strict)
  {
    SoundShapely(s, p);
    FireWellFormed(s, p);
    if Retags(p) {
      RetagKeeps(s, p, leaves, strict);
    } else {
      BodyTame(s, p, strict);
      FireBuildKeeps(s, p, leaves, strict);
    }
  }

  lemma FireBuildKeeps(s: State, p: Production, leaves: seq<Leaf>, strict: bool)
    requires MathInvariant(s, leaves, strict) && Fits(p, |s.scraps| - s.pp) && !Retags(p)
    requires TameBody(p, strict) || (Rerenders(p) && exists c :: Body(p) == [SetMath, Raw(c)] && InsideOnly(c))
    ensures StoreKeeps(Context(Fire(s, p).store, leaves, strict), Fire(s, p).scraps)
  {
    PreparedValid(s, p);
    PreparedKeeps(s, p, leaves, strict);
    var t := Prepared(s, p);
    DraftedKeeps(t, p, leaves, strict);
    BuildKeeps(t, p, Context(t.store, leaves, strict), Context(Build(t, p).store, leaves, strict));
  }

  lemma BodyTame(s: State, p: Production, strict: bool)
    requires SoundAt(s.scraps, s.pp, p) && !p.NoRule? && !Retags(p) && (strict ==> !PairsExps(p))
    ensures TameBody(p, strict) || (Rerenders(p) && exists c :: Body(p) == [SetMath, Raw(c)] && InsideOnly(c))
  {
    if BuildsText(p) {
      InOrderTame(Body(p), 0, p.at, p.at + p.k, PairsExps(p));
    } else {
      assert Body(p) == [SetMath, Raw(if CatAt(s.scraps, s.pp) == PRELANGLE then LESS_CHAR else GREATER_CHAR)];
    }
  }

  // ---------- whole runs

  /** No production fires that puts a bare blank into a text. */
  ghost predicate NoPairs(scraps: seq<Scrap>) {
    forall i :: 0 <= i < |scraps| ==> scraps[i].cat != LPROC
  }

  lemma StepKeeps(s: State, rules: Rules, leaves: seq<Leaf>, strict: bool)
    requires SoundRules(rules) && MathInvariant(s, leaves, strict) && s.pp < |s.scraps|
    requires strict ==> NoPairs(s.scraps)
    ensures MathInvariant(Step(s, rules), leaves, strict)
    ensures NoPairs(s.scraps) ==> NoPairs(Step(s, rules).scraps)
  {
    var p := ProductionAt(s.scraps, s.pp, rules);
    ProductionFits(s, rules);
    if !p.NoRule? {
      FireKeeps(s, p, leaves, strict);
      if NoPairs(s.scraps) { FireNoPairs(s, p); }
    }
  }

  lemma FireNoPairs(s: State, p: Production)
    requires WellFormed(s) && Fits(p, |s.scraps| - s.pp) && p.cat != LPROC && NoPairs(s.scraps)
    ensures NoPairs(Fire(s, p).scraps)
  {
    if !Retags(p) { PreparedValid(s, p); }
  }

  /** In every state of every run, every scrap's text does what its mathness says. */
  lemma EveryStateKeepsMath(s: State, rules: Rules, leaves: seq<Leaf>, strict: bool, n: nat)
    requires SoundRules(rules) && MathInvariant(s, leaves, strict) && (strict ==> NoPairs(s.scraps))
    ensures MathInvariant(Steps(s, rules, n), leaves, strict)
  {
    var next := Next(rules);
    var inv := (t: State) => MathInvariant(t, leaves, strict) && (strict ==> NoPairs(t.scraps));
    forall t: State | inv(t)
      ensures inv(next(t))
    {
      NextIsStep(t, rules);
      if t.pp < |t.scraps| { StepKeeps(t, rules, leaves, strict); }
    }
    Invariance(next, s, n, inv);
    assert inv(Iterate(next, s, n));
  }

  // ---------- the finished text

  /** What `translate` returns: the irreducible scraps separated by blanks, each in
      dollars where its mathness asks for them. */
  function FinishOne(a: Scrap, first: bool): seq<Token> {
    (if first then [] else [Code(BLANK)])
    + (if a.mathness % 4 == YES_MATH then [Code(DOLLAR)] else [])
    + [Ref(a.trans)]
    + (if a.mathness / 4 == YES_MATH then [Code(DOLLAR)] else [])
  }

  function Finished(scraps: seq<Scrap>): seq<Token> {
    if scraps == [] then []
    else Finished(scraps[..|scraps|-1]) + FinishOne(scraps[|scraps|-1], |scraps| == 1)
  }

  lemma FinishOneOutside(x: Context, a: Scrap, first: bool, bound: nat)
    requires x.store.Valid() && ScrapKeeps(x, a) && a.trans < bound
    ensures ReadAll(x, FinishOne(a, first), NO_MATH, bound) == NO_MATH
  {
    var blank := if first then [] else [Code(BLANK)];
    var open := if a.mathness % 4 == YES_MATH then [Code(DOLLAR)] else [];
    var close := if a.mathness / 4 == YES_MATH then [Code(DOLLAR)] else [];
    var inside := if a.mathness % 4 == YES_MATH then YES_MATH else NO_MATH;
    ReadPut(x, [], Code(BLANK), NO_MATH, bound);
    assert [] + [Code(BLANK)] == [Code(BLANK)];
    ReadConcat(x, blank, open, NO_MATH, bound);
    ReadPut(x, [], Code(DOLLAR), NO_MATH, bound);
    ReadPut(x, [], Code(DOLLAR), YES_MATH, bound);
    assert [] + [Code(DOLLAR)] == [Code(DOLLAR)];
    ReadPut(x, blank + open, Ref(a.trans), NO_MATH, bound);
    ReadConcat(x, blank + open + [Ref(a.trans)], close, NO_MATH, bound);
  }

  /** The finished text, read outside math mode, ends outside math mode. */
  lemma {:induction false} FinishedOutside(x: Context, scraps: seq<Scrap>)
    requires x.store.Valid() && AllKeep(x, scraps)
    ensures ReadAll(x, Finished(scraps), NO_MATH, x.store.Texts()) == NO_MATH
    decreases |scraps|
  {
    if scraps != [] {
      var front, last := scraps[..|scraps|-1], scraps[|scraps|-1];
      FinishedOutside(x, front);
      FinishOneOutside(x, last, |scraps| == 1, x.store.Texts());
      ReadConcat(x, Finished(front), FinishOne(last, |scraps| == 1), NO_MATH, x.store.Texts());
    }
  }

  // ---------- from the scanner to the finished text

  /** The scraps as the scanner leaves them: one leaf text each, entered and left in
      one mode (5 * mode is 4 * mode + mode). */
  ghost predicate Scanned(s: State, leaves: seq<Leaf>) {
    && WellFormed(s) && s.pp == 0 && |leaves| == s.store.Texts()
    && (forall t :: 0 <= t < |leaves| ==> leaves[t].mode <= NO_MATH)
    && forall i :: 0 <= i < |s.scraps| ==>
         var leaf := leaves[s.scraps[i].trans];
         s.scraps[i].mathness == 5 * leaf.mode && s.scraps[i].cat == leaf.cat
  }

  lemma ScannedKeeps(s: State, leaves: seq<Leaf>, strict: bool)
    requires Scanned(s, leaves)
    ensures MathInvariant(s, leaves, strict)
  {
  }

  /** For all inputs: `translate` ends, every scrap it leaves does what its mathness
      says, and the text it returns starts and ends outside math mode. Without
      preprocessor lines this holds even when bare blanks are banned from math. */
  lemma TranslateKeepsMath(s: State, rules: Rules, leaves: seq<Leaf>, strict: bool)
    requires SoundRules(rules) && Scanned(s, leaves) && (strict ==> NoPairs(s.scraps))
    ensures var r := Run(s, rules);
            && MathInvariant(r, leaves, strict)
            && ReadAll(Context(r.store, leaves, strict), Finished(r.scraps), NO_MATH, r.store.Texts()) == NO_MATH
  {
    var r := Run(s, rules);
    ScannedKeeps(s, leaves, strict);
    var n := RunIsSteps(s, rules, Next(rules));
    EveryStateKeepsMath(s, rules, leaves, strict, n);
    FinishedOutside(Context(r.store, leaves, strict), r.scraps);
  }

  // ---------- the blank of production 80

  lemma {:induction false} WrongStaysWrong(x: Context, a: seq<Token>, b: seq<Token>, m: nat, bound: nat)
    requires x.store.Valid() && a <= b && ReadAll(x, a, m, bound) == WRONG_MODE
    ensures ReadAll(x, b, m, bound) == WRONG_MODE
    decreases |b|
  {
    if |a| == |b| {
      assert a == b;
    } else {
      WrongStaysWrong(x, a, b[..|b|-1], m, bound);
    }
  }

  // Once a draft has a mode, what follows only adds to it.
  lemma {:induction false} BodyExtends(body: seq<Op>, j: nat, b: Draft, window: seq<Scrap>)
    requires j <= |body| && forall op :: op in body ==> InRange(op, |window|)
    requires forall y :: j <= y < |body| ==> body[y] != SetMath
    requires IsMode(b.cur)
    requires forall i :: 0 <= i < |window| ==> (IsMode(window[i].mathness % 4) ==> IsMode(window[i].mathness / 4))
    ensures var r := PerformAll(body, j, b, window); b.out <= r.out && r.init == b.init
    decreases |body| - j
  {
    if j < |body| {
      BodyExtends(body, j + 1, Perform(b, body[j], window), window);
    }
  }

  // The draft of production 80 up to its bare blank.
  lemma PairsPrefix(x: Context, body: seq<Op>, window: seq<Scrap>, bound: nat) returns (b: Draft)
    requires x.store.Valid() && |window| >= 4
    requires body == [Raw(INSERTED), Take(0), Big(BLANK), Take(1), Raw(BLANK), Escaped(FIVE), Take(2), Take(3)]
    requires forall i :: 0 <= i < |window| ==> ScrapKeeps(x, window[i]) && window[i].trans < bound
    ensures DraftKeeps(x, b, bound) && IsMode(b.cur) && (b.cur == YES_MATH <==> window[1].mathness / 4 == YES_MATH)
    ensures PerformAll(body, 0, EMPTY_DRAFT, window) == PerformAll(body, 5, Put(b, Code(BLANK)), window)
  {
    var b1 := Put(EMPTY_DRAFT, Code(INSERTED));
    PutNeutral(x, EMPTY_DRAFT, Code(INSERTED), bound);
    var b2 := BigApp1(b1, window[0]);
    BigApp1Keeps(x, b1, window[0], bound);
    var b3 := BigApp(b2, BLANK);
    BigAppKeeps(x, b2, BLANK, bound);
    b := BigApp1(b3, window[1]);
    BigApp1Keeps(x, b3, window[1], bound);
    PairsSteps(body, window, b1, b2, b3, b);
  }

  lemma PairsSteps(body: seq<Op>, window: seq<Scrap>, b1: Draft, b2: Draft, b3: Draft, b4: Draft)
    requires body == [Raw(INSERTED), Take(0), Big(BLANK), Take(1), Raw(BLANK), Escaped(FIVE), Take(2), Take(3)] && |window| >= 4
    requires b1 == Put(EMPTY_DRAFT, Code(INSERTED)) && b2 == BigApp1(b1, window[0]) && b3 == BigApp(b2, BLANK) && b4 == BigApp1(b3, window[1])
    ensures (forall op :: op in body ==> InRange(op, |window|))
         && PerformAll(body, 0, EMPTY_DRAFT, window) == PerformAll(body, 5, Put(b4, Code(BLANK)), window)
  {
    assert forall op :: op in body ==> InRange(op, |window|);
    assert PerformAll(body, 0, EMPTY_DRAFT, window) == PerformAll(body, 1, b1, window);
    assert PerformAll(body, 1, b1, window) == PerformAll(body, 2, b2, window);
    assert PerformAll(body, 2, b2, window) == PerformAll(body, 3, b3, window);
    assert PerformAll(body, 3, b3, window) == PerformAll(body, 4, b4, window);
  }

  lemma PairsBuildExactly(s: State, p: Production, x: Context)
    requires StoreKeeps(x, s.scraps) && x.store == s.store && x.strict && s.pp <= |s.scraps|
    requires Fits(p, |s.scraps| - s.pp) && PairsExps(p)
    requires Body(p) == [Raw(INSERTED), Take(0), Big(BLANK), Take(1), Raw(BLANK), Escaped(FIVE), Take(2), Take(3)]
    ensures StoreKeeps(x.(store := Build(s, p).store), Build(s, p).scraps) <==> s.scraps[s.pp + 1].mathness / 4 != YES_MATH
  {
    var b := PairsPrefix(x, Body(p), s.scraps[s.pp..], s.store.Texts());
    var b' := Put(b, Code(BLANK));
    ReadPut(x, b.out, Code(BLANK), b.init, s.store.Texts());
    if s.scraps[s.pp + 1].mathness / 4 == YES_MATH {
      PairsFail(s, p, x, b');
    } else {
      PairsHold(s, p, x, b');
    }
  }

  /** With bare blanks banned from math, production 80 on two expressions keeps the
      invariant exactly when the first of them does not end inside math. */
  lemma PairsKeepExactly(s: State, p: Production, leaves: seq<Leaf>)
    requires MathInvariant(s, leaves, true) && Fits(p, |s.scraps| - s.pp) && SoundAt(s.scraps, s.pp, p) && PairsExps(p)
    ensures MathInvariant(Fire(s, p), leaves, true) <==> s.scraps[s.pp + 1].mathness / 4 != YES_MATH
  {
    SoundShapely(s, p);
    FireWellFormed(s, p);
    PairsBuildExactly(s, p, Context(s.store, leaves, true));
  }

  /** A definition of one expression by another, both in math throughout. */
  function TwoExpressions(): (State, seq<Leaf>) {
    (State(Store([Code(NOOP), Code(NOOP), Code(NOOP), Code(NOOP)], [0, 1, 2, 3, 4]),
           [Scrap(LPROC, 10, 0), Scrap(EXP, 5, 1), Scrap(EXP, 5, 2), Scrap(RPROC, 10, 3)], 0),
     [Leaf(NO_MATH, LPROC), Leaf(YES_MATH, EXP), Leaf(YES_MATH, EXP), Leaf(NO_MATH, RPROC)])
  }

  lemma TwoExpressionsAreScanned()
    ensures var (s, leaves) := TwoExpressions(); Scanned(s, leaves)
  {
  }

  /** Production 80 fires on them, and its bare blank gets into math. */
  lemma PairsExample(s: State, leaves: seq<Leaf>, p: Production, rules: Rules, forceLines: bool)
    requires (s, leaves) == TwoExpressions() && rules == CweaveRules(forceLines)
    requires SoundRules(rules) && p == ProductionAt(s.scraps, s.pp, rules)
    ensures Scanned(s, leaves) && MathInvariant(s, leaves, true) && Fits(p, 4) && PairsExps(p)
    ensures !MathInvariant(Fire(s, p), leaves, true)
  {
    TwoExpressionsAreScanned();
    ScannedKeeps(s, leaves, true);
    ProductionFits(s, rules);
    assert p == Match(LPROC, EXP, EXP, RPROC, forceLines);
    PairsKeepExactly(s, p, leaves);
  }

  lemma WrongDraft(x: Context, y: Context, b: Draft, a: Scrap)
    requires Extends(x.store, y.store, |x.leaves|) && x.leaves == y.leaves && x.strict == y.strict
    requires |x.leaves| <= x.store.Texts() < y.store.Texts() && y.store.Text(x.store.Texts()) == b.out
    requires IsMode(b.init) && ReadAll(x, b.out, b.init, x.store.Texts()) == WRONG_MODE
    requires a.trans == x.store.Texts() && a.mathness == 4 * b.cur + b.init
    ensures !ScrapKeeps(y, a)
  {
    ReadAllStable(x, y, b.out, b.init, x.store.Texts());
    assert a.mathness % 4 == b.init;
  }

  lemma PairsFail(s: State, p: Production, x: Context, b: Draft)
    requires StoreKeeps(x, s.scraps) && x.store == s.store && s.pp <= |s.scraps|
    requires Fits(p, |s.scraps| - s.pp) && PairsExps(p)
    requires Body(p) == [Raw(INSERTED), Take(0), Big(BLANK), Take(1), Raw(BLANK), Escaped(FIVE), Take(2), Take(3)]
    requires IsMode(b.init) && IsMode(b.cur) && ReadAll(x, b.out, b.init, s.store.Texts()) == WRONG_MODE
    requires Drafted(s, p) == PerformAll(Body(p), 5, b, s.scraps[s.pp..])
    ensures !StoreKeeps(x.(store := Build(s, p).store), Build(s, p).scraps)
  {
    var t, r := Build(s, p), Drafted(s, p);
    BodyExtends(Body(p), 5, b, s.scraps[s.pp..]);
    WrongStaysWrong(x, b.out, r.out, b.init, s.store.Texts());
    BodyBuilds(Body(p), 0, EMPTY_DRAFT, s.scraps[s.pp..], s.store.Texts());
    AppendExtends(s.store, r.out, |x.leaves|);
    WrongDraft(x, x.(store := t.store), r, t.scraps[s.pp + p.at]);
  }

  lemma PairsHold(s: State, p: Production, x: Context, b: Draft)
    requires StoreKeeps(x, s.scraps) && x.store == s.store && s.pp <= |s.scraps|
    requires Fits(p, |s.scraps| - s.pp) && PairsExps(p)
    requires Body(p) == [Raw(INSERTED), Take(0), Big(BLANK), Take(1), Raw(BLANK), Escaped(FIVE), Take(2), Take(3)]
    requires DraftKeeps(x, b, s.store.Texts())
    requires Drafted(s, p) == PerformAll(Body(p), 5, b, s.scraps[s.pp..])
    ensures StoreKeeps(x.(store := Build(s, p).store), Build(s, p).scraps)
  {
    var window := s.scraps[s.pp..];
    BodyBuilds(Body(p), 0, EMPTY_DRAFT, window, s.store.Texts());
    PairsRest(Body(p), b, window);
    BodyKeeps(x, Body(p)[5..], 0, b, window, s.store.Texts());
    BuildKeeps(s, p, x, x.(store := Build(s, p).store));
  }

  lemma PairsRest(body: seq<Op>, b: Draft, window: seq<Scrap>)
    requires |body| == 8 && forall op :: op in body ==> InRange(op, |window|)
    ensures forall op :: op in body[5..] ==> op in body
    ensures PerformAll(body, 5, b, window) == PerformAll(body[5..], 0, b, window)
  {
    var rest := body[5..];
    var b1 := Perform(b, body[5], window);
    var b2 := Perform(b1, body[6], window);
    assert PerformAll(body, 5, b, window) == PerformAll(body, 6, b1, window);
    assert PerformAll(rest, 0, b, window) == PerformAll(rest, 1, b1, window);
    assert PerformAll(body, 6, b1, window) == PerformAll(body, 7, b2, window);
    assert PerformAll(rest, 1, b1, window) == PerformAll(rest, 2, b2, window);
  }
}
