// Room in the token memory: what one production can write, and what happens when the
// memory ends in the middle of it (cweb/cweave.c:183-185, 255, 1995-2038, 2284-2287).

module TokenRoom {
  import opened Category
  import opened Productions
  import opened ProductionTable
  import opened TextStore
  import opened Reducer

  // The main loop stops unless this many tokens and one more are free.
  const SAFE_TOK_INCR := 20

  /** What comes of writing. `app_str`, which puts in the switches of mode, tests for the
      end of the memory and stops the program; `app` does not. */
  datatype Outcome = Written | Stopped | PastEnd

  /** Whether the operation puts in a switch of mode. */
  predicate Switches(b: Draft, op: Op, window: seq<Scrap>)
    requires InRange(op, |window|)
  {
    match op
    case Take(i) =>
      var m := window[i].mathness % 4;
      (m == NO_MATH || m == YES_MATH) && b.cur != MAYBE_MATH && b.cur != m
    case Big(c) => b.cur != MAYBE_MATH && b.cur != ModeOf(c)
    case _ => false
  }

  /** One operation after the draft b, where `room` tokens were free before the draft.
      The three tokens of a switch are written only while two more than the next are free. */
  function Write(b: Draft, op: Op, window: seq<Scrap>, room: nat): Outcome
    requires InRange(op, |window|)
  {
    if Switches(b, op, window) && room < |b.out| + 5 then Stopped
    else if room < |Perform(b, op, window).out| then PastEnd
    else Written
  }

  predicate AllInRange(body: seq<Op>, window: seq<Scrap>) {
    forall op :: op in body ==> InRange(op, |window|)
  }

  /** The draft after the first j operations. */
  function DraftTo(body: seq<Op>, j: nat, window: seq<Scrap>): Draft
    requires j <= |body| && AllInRange(body, window)
  {
    if j == 0 then EMPTY_DRAFT else Perform(DraftTo(body, j - 1, window), body[j-1], window)
  }

  /** What comes of the first j operations; the first trouble is the end. */
  function WriteTo(body: seq<Op>, j: nat, window: seq<Scrap>, room: nat): Outcome
    requires j <= |body| && AllInRange(body, window)
  {
    if j == 0 then Written
    else
      var before := WriteTo(body, j - 1, window, room);
      if before != Written then before else Write(DraftTo(body, j - 1, window), body[j-1], window, room)
  }

  lemma {:induction false} DraftToIsPerformAll(body: seq<Op>, j: nat, window: seq<Scrap>)
    requires j <= |body| && AllInRange(body, window)
    ensures PerformAll(body, j, DraftTo(body, j, window), window) == DraftTo(body, |body|, window)
    decreases |body| - j
  {
    if j < |body| {
      DraftToIsPerformAll(body, j + 1, window);
    }
  }

  lemma {:induction false} TroubleStays(body: seq<Op>, i: nat, j: nat, window: seq<Scrap>, room: nat)
    requires i <= j <= |body| && AllInRange(body, window) && WriteTo(body, i, window, room) != Written
    ensures WriteTo(body, j, window, room) == WriteTo(body, i, window, room)
    decreases j - i
  {
    if i < j {
      TroubleStays(body, i, j - 1, window, room);
    }
  }

  // ---------- when a production is written

  /** Every operation writes something, except perhaps the first. */
  predicate Writes(body: seq<Op>) {
    forall i :: 0 < i < |body| ==> body[i] != SetMath
  }

  lemma OneWrites(b: Draft, op: Op, window: seq<Scrap>)
    requires InRange(op, |window|)
    ensures var r := Perform(b, op, window);
            |r.out| == |b.out| + (if op == SetMath then 0 else if op.Escaped? then 2 else if Switches(b, op, window) then 4 else 1)
  {
  }

  /** Whether the last operation puts in a switch. */
  predicate EndsInSwitch(body: seq<Op>, j: nat, window: seq<Scrap>)
    requires j <= |body| && AllInRange(body, window)
  {
    j > 0 && Switches(DraftTo(body, j - 1, window), body[j-1], window)
  }

  /** The first j operations are written exactly when there is room for their tokens, and
      one more if the last of them is written with a switch. */
  lemma {:induction false} WrittenExactly(body: seq<Op>, j: nat, window: seq<Scrap>, room: nat)
    requires j <= |body| && AllInRange(body, window) && Writes(body)
    ensures WriteTo(body, j, window, room) == Written
       <==> |DraftTo(body, j, window).out| + (if EndsInSwitch(body, j, window) then 1 else 0) <= room
  {
    if j > 0 {
      WrittenExactly(body, j - 1, window, room);
      OneWrites(DraftTo(body, j - 1, window), body[j-1], window);
    }
  }

  // ---------- when a production writes past the end

  predicate NoEscapes(body: seq<Op>) {
    forall op :: op in body ==> !op.Escaped?
  }

  lemma {:induction false} DraftToGrows(body: seq<Op>, i: nat, j: nat, window: seq<Scrap>)
    requires i <= j <= |body| && AllInRange(body, window)
    ensures |DraftTo(body, i, window).out| <= |DraftTo(body, j, window).out|
    decreases j - i
  {
    if i < j {
      DraftToGrows(body, i, j - 1, window);
      OneWrites(DraftTo(body, j - 1, window), body[j-1], window);
    }
  }

  // Writing past the end takes two operations without a switch after the place where
  // only one token is left.
  lemma {:induction false} PastEndIsLate(body: seq<Op>, j: nat, window: seq<Scrap>, room: nat)
    requires 2 <= j <= |body| && AllInRange(body, window) && Writes(body) && NoEscapes(body) && room >= 5
    requires WriteTo(body, j, window, room) == PastEnd
    ensures |DraftTo(body, j - 2, window).out| + 1 >= room
  {
    var b, c := DraftTo(body, j - 2, window), DraftTo(body, j - 1, window);
    assert DraftTo(body, 0, window) == EMPTY_DRAFT;
    OneWrites(b, body[j-2], window);
    OneWrites(c, body[j-1], window);
    WrittenExactly(body, j - 1, window, room);
    if WriteTo(body, j - 1, window, room) == PastEnd {
      if j > 2 {
        PastEndIsLate(body, j - 1, window, room);
        DraftToGrows(body, j - 3, j - 2, window);
      }
    }
  }

  /** A body whose third-last operation begins before the guarded tokens are used up
      writes past the end exactly when its tokens are one too many and the last two are
      written without a switch. */
  lemma PastEndExactly(body: seq<Op>, window: seq<Scrap>, room: nat)
    requires |body| >= 3 && AllInRange(body, window) && Writes(body) && NoEscapes(body) && room > SAFE_TOK_INCR
    requires |DraftTo(body, |body| - 3, window).out| < SAFE_TOK_INCR
    ensures WriteTo(body, |body|, window, room) == PastEnd
       <==> |DraftTo(body, |body|, window).out| == room + 1
            && !EndsInSwitch(body, |body| - 1, window) && !EndsInSwitch(body, |body|, window)
  {
    var m := |body|;
    OneWrites(DraftTo(body, m - 2, window), body[m-2], window);
    OneWrites(DraftTo(body, m - 1, window), body[m-1], window);
    WrittenExactly(body, m - 1, window, room);
    if WriteTo(body, m - 1, window, room) == PastEnd {
      PastEndIsLate(body, m - 1, window, room);
    }
  }

  // ---------- what the productions of the table cost

  /** w is no less than the draft. */
  predicate Covers(w: Tally, b: Draft) {
    |b.out| <= w.n && (w.mode == UNKNOWN || w.mode == b.cur)
  }

  lemma PriceOneCovers(body: seq<Op>, j: nat, w: Tally, window: seq<Scrap>)
    requires AllInRange(body, window) && Covers(w, DraftTo(body, if j <= |body| then j else |body|, window))
    ensures Covers(PriceOne(body, j, w), DraftTo(body, if j + 1 <= |body| then j + 1 else |body|, window))
  {
    if j < |body| {
      OneWrites(DraftTo(body, j, window), body[j], window);
    }
  }

  lemma PriceFourCovers(body: seq<Op>, j: nat, w: Tally, window: seq<Scrap>)
    requires AllInRange(body, window) && Covers(w, DraftTo(body, if j <= |body| then j else |body|, window))
    ensures Covers(PriceFour(body, j, w), DraftTo(body, if j + 4 <= |body| then j + 4 else |body|, window))
  {
    var w1 := PriceOne(body, j, w);
    var w2 := PriceOne(body, j + 1, w1);
    var w3 := PriceOne(body, j + 2, w2);
    PriceOneCovers(body, j, w, window);
    PriceOneCovers(body, j + 1, w1, window);
    PriceOneCovers(body, j + 2, w2, window);
    PriceOneCovers(body, j + 3, w3, window);
  }

  /** No choice of scraps makes a body write more than its price. */
  lemma PriceAllCovers(body: seq<Op>, window: seq<Scrap>)
    requires |body| <= 12 && AllInRange(body, window)
    ensures |DraftTo(body, |body|, window).out| <= PriceAll(body).n
  {
    var w4 := PriceFour(body, 0, Tally(0, FRESH));
    var w8 := PriceFour(body, 4, w4);
    assert DraftTo(body, 0, window) == EMPTY_DRAFT;
    PriceFourCovers(body, 0, Tally(0, FRESH), window);
    PriceFourCovers(body, 4, w4, window);
    PriceFourCovers(body, 8, w8, window);
  }

  lemma {:induction false} DraftToFront(body: seq<Op>, front: seq<Op>, j: nat, window: seq<Scrap>)
    requires j <= |front| && front <= body && AllInRange(body, window)
    ensures AllInRange(front, window) && DraftTo(front, j, window) == DraftTo(body, j, window)
  {
    forall op | op in front ensures InRange(op, |window|) { assert op in body; }
    if j > 0 {
      DraftToFront(body, front, j - 1, window);
    }
  }

  /** The tokens that production p writes at the cursor of s. */
  function Cost(s: State, p: Production): nat
    requires s.pp <= |s.scraps| && Fits(p, |s.scraps| - s.pp)
  {
    |Drafted(s, p).out|
  }

  /** What comes of production p when `room` tokens are free. */
  function Outlook(s: State, p: Production, room: nat): Outcome
    requires s.pp <= |s.scraps| && Fits(p, |s.scraps| - s.pp)
  {
    WriteTo(Body(p), |Body(p)|, s.scraps[s.pp..], room)
  }

  lemma CostIs(s: State, p: Production)
    requires s.pp <= |s.scraps| && Fits(p, |s.scraps| - s.pp)
    ensures Drafted(s, p) == DraftTo(Body(p), |Body(p)|, s.scraps[s.pp..])
  {
    DraftToIsPerformAll(Body(p), 0, s.scraps[s.pp..]);
  }

  /** The production that the table selects in s. */
  ghost predicate Selected(s: State, p: Production, rules: Rules) {
    && WellFormed(s) && s.pp < |s.scraps| && p == ProductionAt(s.scraps, s.pp, rules)
    && !p.NoRule? && Fits(p, |s.scraps| - s.pp) && SoundAt(s.scraps, s.pp, p) && Listed(p)
  }

  lemma ProductionSelected(s: State, rules: Rules)
    requires WellFormed(s) && s.pp < |s.scraps| && SoundRules(rules) && ListedRules(rules)
    ensures var p := ProductionAt(s.scraps, s.pp, rules); p.NoRule? || Selected(s, p, rules)
  {
    ProductionFits(s, rules);
    assert Window(CatAt(s.scraps, s.pp), CatAt(s.scraps, s.pp + 1), CatAt(s.scraps, s.pp + 2), CatAt(s.scraps, s.pp + 3));
  }

  /** The most that production p can write. */
  function Ceiling(p: Production): nat {
    if !IsDear(p) then 20
    else if p.n == 80 then 21
    else if p.n == 64 || p.n == 67 then 23
    else if p.n == 69 then 25
    else if p.n == 55 then 28
    else 31
  }

  lemma DearPrice(p: Production)
    requires IsDear(p)
    ensures PriceAll(DearBody(p.n)).n == Ceiling(p)
  {
  }

  lemma LongPrice(p: Production)
    requires IsLong(p) && !IsDear(p)
    ensures PriceAll(LongBody(p.n)).n <= 20
  {
  }

  lemma ShortPrice(body: seq<Op>)
    requires |body| <= 5
    ensures PriceAll(body).n <= 20
  {
  }

  /** No production writes more than its ceiling, and only seven can write more than the
      20 tokens that are guarded. */
  lemma CostBound(s: State, p: Production, rules: Rules)
    requires Selected(s, p, rules)
    ensures Cost(s, p) <= Ceiling(p)
  {
    CostIs(s, p);
    if IsDear(p) { DearPrice(p); } else if IsLong(p) { LongPrice(p); } else { ShortPrice(Body(p)); }
    PriceAllCovers(Body(p), s.scraps[s.pp..]);
  }

  /** The scrap leaves TeX outside math if it was entered outside math, with a switch
      or without. */
  predicate EndsOutside(a: Scrap) {
    a.mathness % 4 == NO_MATH || a.mathness % 4 == YES_MATH ==> a.mathness / 4 == MAYBE_MATH || a.mathness / 4 == NO_MATH
  }

  // The last two operations of productions 55, 63 and 66.
  lemma LastTwo(n: nat, window: seq<Scrap>)
    requires n == 55 || n == 63 || n == 66
    requires AllInRange(DearBody(n), window)
    ensures |DearBody(n)| == 10 && |window| >= if n == 55 then 3 else 4
    ensures EndsInSwitch(DearBody(n), 9, window) <==> !EndsOutside(window[2])
    ensures EndsOutside(window[2]) ==>
              (EndsInSwitch(DearBody(n), 10, window) <==> n != 55 && window[3].mathness % 4 == YES_MATH)
  {
    var body := DearBody(n);
    assert body[7] in body && (n != 55 ==> body[9] in body);
    var b := DraftTo(body, 6, window);
    var b7, b8, b9 := DraftTo(body, 7, window), DraftTo(body, 8, window), DraftTo(body, 9, window);
    assert b7 == Perform(b, body[6], window) && b7.cur == NO_MATH;
    assert b8 == Perform(b7, body[7], window);
    assert b9 == Perform(b8, body[8], window) && b9.cur == NO_MATH;
  }

  // The listed bodies reach the guarded 20 tokens near their end only.
  lemma FrontPrice(n: nat)
    requires n == 55 || n == 63 || n == 64 || n == 66 || n == 67 || n == 69
    ensures var body := DearBody(n);
            |body| >= 3 && Writes(body) && NoEscapes(body)
            && PriceAll(body[..|body|-3]).n < SAFE_TOK_INCR
            && (n == 64 || n == 67 || n == 69 ==> PriceAll(body[..|body|-2]).n < SAFE_TOK_INCR)
  {
    var body := DearBody(n);
    if |body| == 8 {
      assert PriceFour(body[..5], 0, Tally(0, FRESH)) == PriceFour(body[..6], 0, Tally(0, FRESH)) == PriceFour(body, 0, Tally(0, FRESH));
    }
  }

  lemma FrontIsCheap(body: seq<Op>, j: nat, window: seq<Scrap>)
    requires j <= |body| <= 12 && AllInRange(body, window)
    ensures |DraftTo(body, j, window).out| <= PriceAll(body[..j]).n
  {
    DraftToFront(body, body[..j], j, window);
    PriceAllCovers(body[..j], window);
  }

  lemma {:induction false} PastEndCosts(body: seq<Op>, j: nat, window: seq<Scrap>, room: nat)
    requires j <= |body| && AllInRange(body, window) && WriteTo(body, j, window, room) == PastEnd
    ensures |DraftTo(body, j, window).out| > room
  {
    if WriteTo(body, j - 1, window, room) == PastEnd {
      PastEndCosts(body, j - 1, window, room);
      DraftToGrows(body, j - 1, j, window);
    }
  }

  /** Whether p is written past the end: productions 55, 63 and 66 are, by one token, when
      their tokens are one more than there is room for and the scraps at their end need no
      switch of mode. */
  predicate Overruns(s: State, p: Production, room: nat)
    requires s.pp <= |s.scraps| && Fits(p, |s.scraps| - s.pp)
  {
    var w := s.scraps[s.pp..];
    && Cost(s, p) == room + 1
    && IsDear(p)
    && (p.n == 55 || ((p.n == 63 || p.n == 66) && |w| > 3 && w[3].mathness % 4 != YES_MATH))
    && |w| > 2 && EndsOutside(w[2])
  }

  // Productions 64, 67 and 69 have only two operations left when 20 tokens are written.
  lemma NeverPastEnd(body: seq<Op>, window: seq<Scrap>, room: nat)
    requires 3 <= |body| <= 12 && AllInRange(body, window) && Writes(body) && NoEscapes(body) && room > SAFE_TOK_INCR
    requires PriceAll(body[..|body|-3]).n < SAFE_TOK_INCR && PriceAll(body[..|body|-2]).n < SAFE_TOK_INCR
    ensures WriteTo(body, |body|, window, room) != PastEnd
  {
    var m := |body|;
    FrontIsCheap(body, m - 3, window);
    FrontIsCheap(body, m - 2, window);
    PastEndExactly(body, window, room);
    OneWrites(DraftTo(body, m - 2, window), body[m-2], window);
    OneWrites(DraftTo(body, m - 1, window), body[m-1], window);
  }

  lemma TailOverruns(n: nat, body: seq<Op>, window: seq<Scrap>, room: nat)
    requires n == 55 || n == 63 || n == 66
    requires body == DearBody(n) && AllInRange(body, window) && room > SAFE_TOK_INCR
    ensures |window| >= if n == 55 then 3 else 4
    ensures WriteTo(body, |body|, window, room) == PastEnd
       <==> |DraftTo(body, |body|, window).out| == room + 1 && EndsOutside(window[2])
            && (n == 55 || window[3].mathness % 4 != YES_MATH)
  {
    FrontPrice(n);
    LastTwo(n, window);
    FrontIsCheap(body, |body| - 3, window);
    PastEndExactly(body, window, room);
  }

  lemma LateNeverOverruns(n: nat, body: seq<Op>, window: seq<Scrap>, room: nat)
    requires n == 64 || n == 67 || n == 69
    requires body == DearBody(n) && AllInRange(body, window) && room > SAFE_TOK_INCR
    ensures WriteTo(body, |body|, window, room) != PastEnd
  {
    FrontPrice(n);
    assert |body| <= 12;
    NeverPastEnd(body, window, room);
  }

  lemma ListedOverruns(s: State, p: Production, room: nat)
    requires s.pp <= |s.scraps| && Fits(p, |s.scraps| - s.pp) && Listed(p) && Cost(s, p) <= Ceiling(p)
    requires room > SAFE_TOK_INCR
    ensures Outlook(s, p, room) == PastEnd <==> Overruns(s, p, room)
  {
    var body, window := Body(p), s.scraps[s.pp..];
    CostIs(s, p);
    if IsDear(p) && (p.n == 55 || p.n == 63 || p.n == 66) {
      TailOverruns(p.n, body, window, room);
    } else if IsDear(p) && p.n != 80 {
      LateNeverOverruns(p.n, body, window, room);
    } else if Outlook(s, p, room) == PastEnd {
      PastEndCosts(body, |body|, window, room);
    }
  }

  /** Under the guard of the source, a production goes past the end of the token memory
      exactly so; otherwise it is written, or the program stops with its message. */
  lemma PastEndIsOverrun(s: State, p: Production, rules: Rules, room: nat)
    requires Selected(s, p, rules) && room > SAFE_TOK_INCR
    ensures Outlook(s, p, room) == PastEnd <==> Overruns(s, p, room)
  {
    CostBound(s, p, rules);
    ListedOverruns(s, p, room);
  }

  /** A production is written exactly when there is room for its tokens, and for one more
      if its last operation is written with a switch. */
  lemma WrittenIsRoom(s: State, p: Production, rules: Rules, room: nat)
    requires Selected(s, p, rules)
    ensures Outlook(s, p, room) == Written
       <==> Cost(s, p) + (if EndsInSwitch(Body(p), |Body(p)|, s.scraps[s.pp..]) then 1 else 0) <= room
  {
    CostIs(s, p);
    SoundWrites(s, p);
    WrittenExactly(Body(p), |Body(p)|, s.scraps[s.pp..], room);
  }

  lemma {:induction false} InOrderWrites(body: seq<Op>, j: nat, i: nat, hi: nat, blank: bool)
    requires j <= |body| && InOrder(body, j, i, hi, blank)
    ensures forall x :: j <= x < |body| ==> body[x] != SetMath
    decreases |body| - j
  {
    if j < |body| {
      InOrderWrites(body, j + 1, if body[j].Take? then i + 1 else i, hi, blank);
    }
  }

  lemma SoundWrites(s: State, p: Production)
    requires SoundAt(s.scraps, s.pp, p) && !p.NoRule?
    ensures Writes(Body(p))
  {
    if BuildsText(p) {
      InOrderWrites(Body(p), 0, p.at, p.at + p.k, PairsExps(p));
    }
  }

  // ---------- a block with a comment behind it

  /** The scraps of a block with one statement, the last of them with mathness m: 5 for the
      brace alone, 9 if a comment has been squashed into it. */
  function Block(m: nat): State {
    State(Store([Code(OPEN_BRACE), Code(NOOP), Code(CLOSE_BRACE)], [0, 1, 2, 3]),
          [Scrap(LBRACE, 5, 0), Scrap(STMT, 5, 1), Scrap(RBRACE, m, 2)], 0)
  }

  function BlockRule(): Production {
    Reduce(0, 3, STMT, -1, 55, DearBody(55))
  }

  lemma BlockSelects(m: nat, rules: Rules, forceLines: bool)
    requires rules == CweaveRules(forceLines)
    ensures Selected(Block(m), BlockRule(), rules)
  {
    var s := Block(m);
    assert WellFormed(s);
    assert ProductionAt(s.scraps, 0, rules) == BlockRule() by {
      assert ProductionAt(s.scraps, 0, rules) == Match(LBRACE, STMT, RBRACE, PADDING, forceLines);
    }
    TableSound(forceLines);
    TableListed(forceLines);
    ProductionSelected(s, rules);
  }

  lemma BlockCost(m: nat, body: seq<Op>, w: seq<Scrap>)
    requires (m == 5 || m == 9) && body == DearBody(55) && w == Block(m).scraps
    ensures |DraftTo(body, 10, w).out| == if m == 5 then 28 else 25
    ensures !EndsInSwitch(body, 10, w)
  {
    assert DraftTo(body, 0, w) == EMPTY_DRAFT;
    var b1 := DraftTo(body, 1, w);
    assert |b1.out| == 1 && b1.cur == NO_MATH;
    var b2 := DraftTo(body, 2, w);
    assert |b2.out| == 5 && b2.cur == YES_MATH;
    var b3 := DraftTo(body, 3, w);
    assert |b3.out| == 9 && b3.cur == NO_MATH;
    var b4 := DraftTo(body, 4, w);
    assert |b4.out| == 10 && b4.cur == NO_MATH;
    var b5 := DraftTo(body, 5, w);
    assert |b5.out| == 14 && b5.cur == YES_MATH;
    var b6 := DraftTo(body, 6, w);
    assert |b6.out| == 18 && b6.cur == NO_MATH;
    var b7 := DraftTo(body, 7, w);
    assert |b7.out| == 19 && b7.cur == NO_MATH;
    var b8 := DraftTo(body, 8, w);
    assert |b8.out| == 23 && b8.cur == m / 4;
    var b9 := DraftTo(body, 9, w);
    assert b9.cur == NO_MATH;
  }

  lemma BlockCosts(s: State, p: Production, m: nat, rules: Rules)
    requires (m == 5 || m == 9) && s == Block(m) && p == BlockRule() && Selected(s, p, rules)
    ensures Cost(s, p) == (if m == 5 then 28 else 25) && !EndsInSwitch(Body(p), |Body(p)|, s.scraps[s.pp..])
  {
    assert s.scraps[s.pp..] == s.scraps;
    CostIs(s, p);
    BlockCost(m, Body(p), s.scraps);
  }

  /** Production 55 writes 28 tokens if all three scraps are math throughout, and 25 if a
      comment follows the block. With 24 tokens free, which passes the guard, the latter
      go past the end of the memory. */
  lemma BlockOverruns(s: State, p: Production, rules: Rules, forceLines: bool, room: nat)
    requires s == Block(9) && p == BlockRule() && rules == CweaveRules(forceLines) && room > SAFE_TOK_INCR
    ensures Selected(s, p, rules) && Cost(s, p) == 25
    ensures Outlook(s, p, room) == PastEnd <==> room == 24
  {
    BlockSelects(9, rules, forceLines);
    BlockCosts(s, p, 9, rules);
    PastEndIsOverrun(s, p, rules, room);
  }

  /** The 28 tokens without the comment never do: a switch of mode is in the way, and the
      program stops. */
  lemma BlockStops(s: State, p: Production, rules: Rules, forceLines: bool, room: nat)
    requires s == Block(5) && p == BlockRule() && rules == CweaveRules(forceLines) && room > SAFE_TOK_INCR
    ensures Selected(s, p, rules) && Cost(s, p) == 28
    ensures Outlook(s, p, room) == if room < 28 then Stopped else Written
  {
    BlockSelects(5, rules, forceLines);
    BlockCosts(s, p, 5, rules);
    PastEndIsOverrun(s, p, rules, room);
    WrittenIsRoom(s, p, rules, room);
  }
}
