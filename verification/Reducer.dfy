// One iteration of CWEAVE's `translate`, on values: scraps are a sequence with a
// cursor, texts are a store that only grows (cweb/cweave.c:2010-2085, 2143-2230,
// 2951-2970).

module Reducer {
  import opened Basics
  import opened Category
  import opened Productions
  import opened ProductionTable
  import opened TextStore

  const MAYBE_MATH := 0
  const YES_MATH := 1
  const NO_MATH := 2

  /** `mathness` is 4 * final mode + initial mode, `trans` the scrap's text. */
  datatype Scrap = Scrap(cat: Category, mathness: nat, trans: nat)

  datatype State = State(store: Store, scraps: seq<Scrap>, pp: nat)

  // ---------- building one text

  /** A text under construction: its tokens, the mode it must be entered in and the
      mode reached so far. */
  datatype Draft = Draft(out: seq<Token>, init: nat, cur: nat)

  function Switch(mode: nat): seq<Token> {
    if mode == NO_MATH then [Code(OPEN_BRACE), Code(CLOSE_BRACE), Code(DOLLAR)]
    else [Code(DOLLAR), Code(OPEN_BRACE), Code(CLOSE_BRACE)]
  }

  function Enter(b: Draft, mode: nat): Draft {
    if b.cur == MAYBE_MATH then b.(init := mode, cur := mode)
    else if b.cur == mode then b
    else b.(out := b.out + Switch(mode), cur := mode)
  }

  function Put(b: Draft, tok: Token): Draft {
    b.(out := b.out + [tok])
  }

  function BigApp(b: Draft, c: nat): Draft {
    Put(Enter(b, if WantsText(c) then NO_MATH else YES_MATH), Code(c))
  }

  function BigApp1(b: Draft, a: Scrap): Draft {
    var m := a.mathness % 4;
    Put(if m == NO_MATH || m == YES_MATH then Enter(b, m).(cur := a.mathness / 4) else b, Ref(a.trans))
  }

  predicate InRange(op: Op, n: nat) {
    op.Take? ==> op.i < n
  }

  function Perform(b: Draft, op: Op, window: seq<Scrap>): Draft
    requires InRange(op, |window|)
  {
    match op
    case Take(i) => BigApp1(b, window[i])
    case Big(c) => BigApp(b, c)
    case Raw(c) => Put(b, Code(c))
    case Escaped(c) => Put(Put(b, Code(BACKSLASH)), Code(c))
    case SetMath => b.(init := YES_MATH, cur := YES_MATH)
  }

  /** Performs the operations of `body` from `j` on. */
  function PerformAll(body: seq<Op>, j: nat, b: Draft, window: seq<Scrap>): Draft
    requires j <= |body| && forall op :: op in body ==> InRange(op, |window|)
    decreases |body| - j
  {
    if j == |body| then b else PerformAll(body, j + 1, Perform(b, body[j], window), window)
  }

  const EMPTY_DRAFT := Draft([], MAYBE_MATH, MAYBE_MATH)

  // ---------- make_reserved

  /** Marks scrap i as a type name if it is an expression that begins with v. */
  function ReserveOne(toks: seq<Token>, starts: seq<nat>, scraps: seq<Scrap>, i: nat, v: Token): (seq<Token>, seq<Scrap>)
    requires i < |scraps| && InStore(toks, starts, scraps)
  {
    var first := starts[scraps[i].trans];
    if scraps[i].cat == EXP && toks[first] == v then
      (toks[first := Res(v.Number())], scraps[i := scraps[i].(cat := RAW_INT)])
    else (toks, scraps)
  }

  /** Marks every `exp` scrap from `i` on whose text begins with `v`. */
  function ReserveFrom(toks: seq<Token>, starts: seq<nat>, scraps: seq<Scrap>, i: nat, v: Token): (seq<Token>, seq<Scrap>)
    requires i <= |scraps| && InStore(toks, starts, scraps)
    decreases |scraps| - i
  {
    if i == |scraps| then (toks, scraps)
    else
      var r := ReserveOne(toks, starts, scraps, i, v);
      ReserveFrom(r.0, starts, r.1, i + 1, v)
  }

  /** Every scrap's text starts inside the token memory. */
  predicate InStore(toks: seq<Token>, starts: seq<nat>, scraps: seq<Scrap>) {
    forall i :: 0 <= i < |scraps| ==> scraps[i].trans + 1 < |starts| && starts[scraps[i].trans] < |toks|
  }

  lemma ReserveOneThenFrom(toks: seq<Token>, starts: seq<nat>, scraps: seq<Scrap>, i: nat, v: Token)
    requires i < |scraps| && InStore(toks, starts, scraps)
    ensures var r := ReserveOne(toks, starts, scraps, i, v);
            && InStore(r.0, starts, r.1) && |r.1| == |scraps|
            && ReserveFrom(r.0, starts, r.1, i + 1, v) == ReserveFrom(toks, starts, scraps, i, v)
  {
  }

  /** `b` is `a` with some expressions turned into type names. */
  predicate Retagged(a: seq<Scrap>, b: seq<Scrap>) {
    && |a| == |b|
    && forall i :: 0 <= i < |a| ==> b[i] == a[i] || (a[i].cat == EXP && b[i] == a[i].(cat := RAW_INT))
  }

  lemma {:induction false} ReserveFromFlips(toks: seq<Token>, starts: seq<nat>, scraps: seq<Scrap>, i: nat, v: Token)
    requires v.IsName() && i <= |scraps| && InStore(toks, starts, scraps)
    ensures var r := ReserveFrom(toks, starts, scraps, i, v); FlippedAll(toks, r.0) && Retagged(scraps, r.1)
    decreases |scraps| - i
  {
    if i < |scraps| {
      var r := ReserveOne(toks, starts, scraps, i, v);
      ReserveFromFlips(r.0, starts, r.1, i + 1, v);
    }
  }

  /** The first identifier of scrap p becomes a reserved word, and so does every later
      expression that begins with it. */
  function MakeReserved(store: Store, scraps: seq<Scrap>, p: nat): (Store, seq<Scrap>)
    requires store.Valid() && store.Acyclic() && InStore(store.toks, store.starts, scraps) && p < |scraps|
  {
    match FindFirstIdent(store, scraps[p].trans)
    case None => (store, scraps)
    case Some(loc) =>
      var v := store.toks[loc];
      var r := ReserveFrom(store.toks, store.starts, scraps, p, v);
      (Store(if loc < |r.0| then r.0[loc := Res(v.Number())] else r.0, store.starts), r.1)
  }

  lemma MakeReservedFlips(store: Store, scraps: seq<Scrap>, p: nat)
    requires store.Valid() && store.Acyclic() && InStore(store.toks, store.starts, scraps) && p < |scraps|
    ensures var r := MakeReserved(store, scraps, p);
            r.0.starts == store.starts && FlippedAll(store.toks, r.0.toks) && Retagged(scraps, r.1)
  {
    match FindFirstIdent(store, scraps[p].trans)
    case None =>
    case Some(loc) => ReserveFromFlips(store.toks, store.starts, scraps, p, store.toks[loc]);
  }

  // ---------- one iteration

  function CatAt(scraps: seq<Scrap>, i: nat): Category {
    if i < |scraps| then scraps[i].cat else PADDING
  }

  function ProductionAt(scraps: seq<Scrap>, pp: nat, rules: Rules): Production {
    rules(CatAt(scraps, pp), CatAt(scraps, pp + 1), CatAt(scraps, pp + 2), CatAt(scraps, pp + 3))
  }

  /** Live scraps have a category, and texts inside the store. */
  predicate WellFormed(s: State) {
    && s.store.Valid() && s.store.Acyclic()
    && InStore(s.store.toks, s.store.starts, s.scraps)
    && s.pp <= |s.scraps|
    && forall i :: 0 <= i < |s.scraps| ==> s.scraps[i].cat != PADDING
  }

  /** p replaces some of the n scraps at the cursor. */
  predicate Fits(p: Production, n: nat) {
    && !p.NoRule? && 1 <= p.k && p.at + p.k <= n
    && ReservedAt(p) < n
    && forall op :: op in Body(p) ==> InRange(op, n)
  }

  /** p looks at no more than four scraps, and its body has at most twelve parts. */
  predicate Short(p: Production) {
    !p.NoRule? && p.at + p.k <= 4 && ReservedAt(p) < 4 && p.d <= 1 && |Body(p)| <= 12 && forall op :: op in Body(p) ==> InRange(op, 4)
  }

  function Moved(pp: nat, d: int): nat {
    if pp + d >= 0 then pp + d else 0
  }

  function Replace(scraps: seq<Scrap>, j: nat, k: nat, a: Scrap): seq<Scrap>
    requires j + k <= |scraps|
  {
    scraps[..j] + [a] + scraps[j+k..]
  }

  /** The store and scraps a production works on, after any `make_reserved`. */
  function Prepared(s: State, p: Production): State
    requires WellFormed(s) && Fits(p, |s.scraps| - s.pp)
  {
    if ReservedAt(p) > 0 then
      var (store, scraps) := MakeReserved(s.store, s.scraps, s.pp + ReservedAt(p));
      s.(store := store, scraps := scraps)
    else s
  }

  function Drafted(s: State, p: Production): Draft
    requires s.pp <= |s.scraps| && Fits(p, |s.scraps| - s.pp)
  {
    PerformAll(Body(p), 0, EMPTY_DRAFT, s.scraps[s.pp..])
  }

  function NewScrap(s: State, p: Production): (a: Scrap)
    requires s.pp <= |s.scraps| && s.store.Valid() && Fits(p, |s.scraps| - s.pp)
    ensures a.cat == p.cat && a.trans == s.store.Texts()
    ensures a.mathness == 4 * Drafted(s, p).cur + Drafted(s, p).init
  {
    var b := Drafted(s, p);
    Scrap(p.cat, 4 * b.cur + b.init, s.store.Texts())
  }

  /** `reduce`: the text just built replaces k scraps, and the cursor moves by d. */
  function Build(s: State, p: Production): State
    requires s.pp <= |s.scraps| && s.store.Valid() && Fits(p, |s.scraps| - s.pp)
  {
    State(s.store.Append(Drafted(s, p).out),
          Replace(s.scraps, s.pp + p.at, p.k, NewScrap(s, p)),
          Moved(s.pp, p.d))
  }

  /** `squash` of one scrap only changes its category; every other production ends
      in `reduce`. */
  function Fire(s: State, p: Production): State
    requires WellFormed(s) && Fits(p, |s.scraps| - s.pp)
  {
    if Retags(p) then
      State(s.store, s.scraps[s.pp + p.at := s.scraps[s.pp + p.at].(cat := p.cat)], Moved(s.pp, p.d))
    else
      PreparedValid(s, p);
      Build(Prepared(s, p), p)
  }

  lemma PreparedValid(s: State, p: Production)
    requires WellFormed(s) && Fits(p, |s.scraps| - s.pp)
    ensures var t := Prepared(s, p);
            && t.store.Valid() && t.pp == s.pp
            && t.store.starts == s.store.starts && FlippedAll(s.store.toks, t.store.toks) && Retagged(s.scraps, t.scraps)
  {
    if ReservedAt(p) > 0 { MakeReservedFlips(s.store, s.scraps, s.pp + ReservedAt(p)); }
  }

  ghost function Step(s: State, rules: Rules): State
    requires WellFormed(s) && s.pp < |s.scraps| && SoundRules(rules)
  {
    var p := ProductionAt(s.scraps, s.pp, rules);
    if p.NoRule? then s.(pp := s.pp + 1)
    else
      ProductionFits(s, rules);
      Fire(s, p)
  }

  predicate SoundAt(scraps: seq<Scrap>, pp: nat, p: Production) {
    Sound(CatAt(scraps, pp), CatAt(scraps, pp + 1), CatAt(scraps, pp + 2), CatAt(scraps, pp + 3), p)
  }

  lemma InOrderInRange(body: seq<Op>, j: nat, i: nat, hi: nat, blank: bool)
    requires j <= |body| && InOrder(body, j, i, hi, blank)
    ensures i <= hi && forall x :: j <= x < |body| ==> InRange(body[x], hi)
    decreases |body| - j
  {
    if j < |body| {
      InOrderInRange(body, j + 1, if body[j].Take? then i + 1 else i, hi, blank);
    }
  }

  /** A sound table selects productions that replace live scraps only. */
  lemma ProductionFits(s: State, rules: Rules)
    requires WellFormed(s) && s.pp < |s.scraps| && SoundRules(rules)
    ensures var p := ProductionAt(s.scraps, s.pp, rules);
            SoundAt(s.scraps, s.pp, p) && (p.NoRule? || (Fits(p, |s.scraps| - s.pp) && Short(p)))
  {
    var p := ProductionAt(s.scraps, s.pp, rules);
    assert Window(CatAt(s.scraps, s.pp), CatAt(s.scraps, s.pp + 1), CatAt(s.scraps, s.pp + 2), CatAt(s.scraps, s.pp + 3));
    if !p.NoRule? {
      assert CatAt(s.scraps, s.pp + p.at + p.k - 1) != PADDING;
      if BuildsText(p) {
        InOrderInRange(Body(p), 0, p.at, p.at + p.k, PairsExps(p));
      }
    }
  }
}
