// CWEAVE's `translate` as the program runs it: one scrap array with a gap, a token
// array and a text-start array that only grow, and global pointers into them
// (cweb/cweave.c:547-556, 2006-2085, 2143-2239, 2944-2977).

module ScrapEngine {
  import opened Basics
  import opened Category
  import opened Productions
  import opened ProductionTable
  import opened TextStore
  import opened Reducer
  import opened ReducerRun
  import opened ReducerMath
  import opened TokenRoom
  import opened RunFate
  import opened Iteration

  // The scraps on both sides of the gap.
  function Around(a: seq<Scrap>, base: int, lo: int, hi: int, last: int): seq<Scrap>
    requires 0 <= base <= lo + 1 <= hi <= last + 1 <= |a|
  {
    a[base..lo+1] + a[hi..last+1]
  }

  lemma GapMove(a: seq<Scrap>, base: int, lo: int, hi: int, last: int)
    requires 0 <= base <= lo + 1 <= hi <= last < |a|
    ensures Around(a[lo + 1 := a[hi]], base, lo + 1, hi + 1, last) == Around(a, base, lo, hi, last)
  {
  }

  // Reading four scraps from position `at` of the low part.
  lemma WindowReads(a: seq<Scrap>, base: int, lo: int, hi: int, last: int, at: int)
    requires 0 <= base <= at <= lo + 1 <= hi <= last + 1 && at + 4 <= |a| && last < |a|
    requires hi <= last ==> lo >= at + 3
    requires forall x :: lo < x < at + 4 ==> a[x].cat == PADDING
    ensures forall x :: at <= x < at + 4 ==> a[x].cat == CatAt(Around(a, base, lo, hi, last), x - base)
    ensures forall x :: at <= x < at + 4 && x - base < |Around(a, base, lo, hi, last)|
              ==> x <= lo && a[x] == Around(a, base, lo, hi, last)[x - base]
  {
    assert hi > last ==> |Around(a, base, lo, hi, last)| == lo + 1 - base;
  }

  lemma AroundUpdate(a: seq<Scrap>, base: int, lo: int, hi: int, last: int, q: int, at: int, x: Scrap)
    requires 0 <= base <= lo + 1 <= hi <= last + 1 <= |a| && base <= q <= last
    requires if q <= lo then at == q - base else hi <= q && at == q - hi + lo + 1 - base
    ensures 0 <= at < |Around(a, base, lo, hi, last)| && Around(a, base, lo, hi, last)[at] == a[q]
    ensures Around(a[q := x], base, lo, hi, last) == Around(a, base, lo, hi, last)[at := x]
  {
  }

  // Closing up the low part over k scraps at j replaces them by the one put at j.
  lemma ReplaceAround(a: seq<Scrap>, b: seq<Scrap>, base: int, lo: int, hi: int, last: int, j: int, k: int, x: Scrap)
    requires 0 <= base <= j && 1 <= k && j + k - 1 <= lo < hi <= last + 1 <= |a| && |b| == |a|
    requires forall i {:trigger b[i]} :: 0 <= i < |a| ==>
               b[i] == if i == j then x else if j < i <= lo - k + 1 then a[i + k - 1] else a[i]
    ensures Around(b, base, lo - k + 1, hi, last) == Replace(Around(a, base, lo, hi, last), j - base, k, x)
  {
    var was, now := Around(a, base, lo, hi, last), Around(b, base, lo - k + 1, hi, last);
    var want := Replace(was, j - base, k, x);
    forall i | 0 <= i < |now|
      ensures now[i] == want[i]
    {
      var y := if i < lo - k + 2 - base then base + i else hi + i - (lo - k + 2 - base);
      assert now[i] == b[y];
      if i > j - base {
        assert want[i] == was[i + k - 1];
        assert b[y] == if y <= lo - k + 1 then a[y + k - 1] else a[y];
      }
    }
  }

  lemma ClosedUp(was: seq<Scrap>, mid: seq<Scrap>, now: seq<Scrap>, j: int, k: int, lo: int, a: Scrap)
    requires 0 <= j && 1 <= k && j + k - 1 <= lo < |was| == |now| && mid == was[j := a]
    requires if k == 1 then now == mid
             else forall x {:trigger now[x]} :: 0 <= x < |mid| ==> now[x] == if j < x <= lo - k + 1 then mid[x + k - 1] else mid[x]
    ensures forall i {:trigger now[i]} :: 0 <= i < |was| ==>
              now[i] == if i == j then a else if j < i <= lo - k + 1 then was[i + k - 1] else was[i]
  {
  }

  lemma BuildIs(s: State, p: Production, b: Draft, a: Scrap)
    requires s.pp <= |s.scraps| && s.store.Valid() && Fits(p, |s.scraps| - s.pp)
    requires b == Drafted(s, p) && a == Scrap(p.cat, 4 * b.cur + b.init, s.store.Texts())
    ensures Build(s, p) == State(s.store.Append(b.out), Replace(s.scraps, s.pp + p.at, p.k, a), Moved(s.pp, p.d))
  {
    assert a == NewScrap(s, p);
  }

  class Engine {
    // The live scraps are scrapBase..loPtr and hiPtr..scrapPtr; between them is the gap.
    var scrapInfo: array<Scrap>
    var scrapBase: int
    var scrapPtr: int
    var pp: int
    var loPtr: int
    var hiPtr: int
    // Text t is tokMem[tokStart[t]..tokStart[t+1]]; the tokens after tokStart[textPtr]
    // belong to the text being built.
    var tokMem: array<Token>
    var tokPtr: nat
    var tokStart: array<nat>
    var textPtr: nat
    var curMathness: nat
    var initMathness: nat

    ghost predicate GapShaped()
      reads `scrapInfo, `scrapBase, `loPtr, `hiPtr, `scrapPtr
    {
      1 <= scrapBase && scrapBase - 1 <= loPtr < hiPtr <= scrapPtr + 1 && scrapPtr + 4 < scrapInfo.Length
    }

    ghost predicate GapValid()
      reads `scrapInfo, `scrapBase, `loPtr, `hiPtr, `scrapPtr, `pp
    {
      GapShaped() && scrapBase <= pp <= loPtr + 1
    }

    ghost predicate TextValid()
      reads `scrapInfo, `tokMem, `tokPtr, `tokStart, `textPtr, tokStart
    {
      && scrapInfo as object != tokMem && scrapInfo as object != tokStart && tokMem as object != tokStart
      && textPtr < tokStart.Length && tokStart[textPtr] <= tokPtr <= tokMem.Length
    }

    ghost predicate Valid()
      reads this, tokStart
    {
      GapValid() && TextValid()
    }

    /** The scraps to which `translate` has reduced the program so far. */
    ghost function Live(): seq<Scrap>
      requires GapShaped()
      reads `scrapInfo, `scrapBase, `loPtr, `hiPtr, `scrapPtr, scrapInfo
    {
      Around(scrapInfo[..], scrapBase, loPtr, hiPtr, scrapPtr)
    }

    ghost function Texts(): Store
      requires textPtr < tokStart.Length && tokStart[textPtr] <= tokMem.Length
      reads `tokMem, `tokStart, `textPtr, tokMem, tokStart
    {
      Store(tokMem[..tokStart[textPtr]], tokStart[..textPtr+1])
    }

    /** The text being built. */
    ghost function Pending(): Draft
      requires textPtr < tokStart.Length && tokStart[textPtr] <= tokPtr <= tokMem.Length
      reads `tokMem, `tokPtr, `tokStart, `textPtr, `curMathness, `initMathness, tokMem, tokStart
    {
      Draft(tokMem[tokStart[textPtr]..tokPtr], initMathness, curMathness)
    }

    /** The state the pointers and arrays stand for. */
    ghost function View(): State
      requires Valid()
      reads this, scrapInfo, tokMem, tokStart
    {
      State(Texts(), Live(), pp - scrapBase)
    }

    /** The state between two iterations, when no text is being built. */
    ghost function Now(): Option<State>
      reads this, scrapInfo, tokMem, tokStart
    {
      if Valid() && NoPending() then Some(View()) else None
    }

    // ---------- the gap

    /** Moves scraps across the gap until the four at the cursor are in the low part,
        and pads with category 0 when they run out. */
    method FillWindow()
      requires Valid()
      modifies `loPtr, `hiPtr, scrapInfo
      ensures Valid() && Live() == old(Live()) && Texts() == old(Texts()) && tokPtr - tokStart[textPtr] == old(tokPtr - tokStart[textPtr])
      ensures CategoriesReady() && LowReady()
    {
      if loPtr < pp + 3 {
        CloseGap();
        PadWindow();
      }
      WindowIsReady();
    }

    lemma WindowIsReady()
      requires GapValid() && LowReady() && forall x :: loPtr < x < pp + 4 ==> scrapInfo[x].cat == PADDING
      ensures CategoriesReady()
    {
      WindowReads(scrapInfo[..], scrapBase, loPtr, hiPtr, scrapPtr, pp);
    }

    method CloseGap()
      requires Valid() && loPtr < pp + 3
      modifies `loPtr, `hiPtr, scrapInfo
      ensures GapValid() && loPtr <= pp + 3 && Live() == old(Live()) && (hiPtr <= scrapPtr ==> loPtr == pp + 3)
    {
      while hiPtr <= scrapPtr && loPtr != pp + 3
        invariant GapValid() && loPtr <= pp + 3 && Live() == old(Live())
      {
        MoveAcross(Live());
      }
    }

    /** Moves one scrap across the gap. */
    method MoveAcross(ghost live: seq<Scrap>)
      requires GapValid() && hiPtr <= scrapPtr && live == Live()
      modifies `loPtr, `hiPtr, scrapInfo
      ensures GapValid() && loPtr == old(loPtr) + 1 && hiPtr == old(hiPtr) + 1 && Live() == live
    {
      ghost var before := scrapInfo[..];
      scrapInfo[loPtr + 1] := scrapInfo[hiPtr];
      assert scrapInfo[..] == before[loPtr + 1 := before[hiPtr]];
      GapMove(before, scrapBase, loPtr, hiPtr, scrapPtr);
      loPtr, hiPtr := loPtr + 1, hiPtr + 1;
    }

    method PadWindow()
      requires GapValid() && loPtr <= pp + 3 && (hiPtr <= scrapPtr ==> loPtr == pp + 3)
      modifies scrapInfo
      ensures Live() == old(Live())
      ensures forall x :: loPtr < x < pp + 4 ==> scrapInfo[x].cat == PADDING
    {
      for i := loPtr + 1 to pp + 4
        invariant scrapInfo[..loPtr+1] == old(scrapInfo[..loPtr+1])
        invariant hiPtr <= scrapPtr ==> scrapInfo[..] == old(scrapInfo[..])
        invariant forall x :: loPtr < x < i ==> scrapInfo[x].cat == PADDING
      {
        scrapInfo[i] := scrapInfo[i].(cat := PADDING);
      }
      assert scrapInfo[..][scrapBase..loPtr+1] == scrapInfo[..loPtr+1][scrapBase..];
    }

    // ---------- building a text

    /** `app`: one token. */
    method App(tok: Token)
      requires Valid() && tokPtr < tokMem.Length
      modifies `tokPtr, tokMem
      ensures Valid() && Texts() == old(Texts()) && Pending() == Put(old(Pending()), tok) && tokPtr == old(tokPtr) + 1
    {
      ghost var before := tokMem[..];
      tokMem[tokPtr] := tok;
      tokPtr := tokPtr + 1;
      assert tokMem[..] == before[tokPtr - 1 := tok];
      assert tokMem[..tokStart[textPtr]] == tokMem[..][..tokStart[textPtr]];
      assert tokMem[tokStart[textPtr]..tokPtr] == tokMem[..][tokStart[textPtr]..tokPtr];
      assert before[tokStart[textPtr]..tokPtr] == before[tokStart[textPtr]..tokPtr - 1] + [before[tokPtr - 1]];
    }

    /** The tokens from the start of the text being built to the end of the memory. */
    ghost function Room(): nat
      requires textPtr < tokStart.Length && tokStart[textPtr] <= tokMem.Length
      reads `tokMem, `tokStart, `textPtr, tokStart
    {
      tokMem.Length - tokStart[textPtr]
    }

    /** `app`, which does not look where it writes. */
    method AppUnchecked(tok: Token) returns (o: Outcome)
      requires Valid()
      modifies `tokPtr, tokMem
      ensures Valid() && Texts() == old(Texts())
      ensures o == if |old(Pending()).out| < Room() then Written else PastEnd
      ensures o == Written ==> Pending() == Put(old(Pending()), tok)
    {
      if tokPtr == tokMem.Length { return PastEnd; }
      App(tok);
      return Written;
    }

    /** `app_str` of `{}$` or `${}`, which stops two tokens before the end. */
    method AppSwitch(mode: nat) returns (o: Outcome)
      requires Valid()
      modifies `tokPtr, tokMem
      ensures Valid() && Texts() == old(Texts())
      ensures o == if |old(Pending()).out| + 5 <= Room() then Written else Stopped
      ensures o == Written ==> Pending() == old(Pending()).(out := old(Pending()).out + Switch(mode))
    {
      ghost var out := Pending().out;
      var w := Switch(mode);
      for i := 0 to 3
        invariant Valid() && Texts() == old(Texts())
        invariant tokPtr == tokStart[textPtr] + |out| + i && (i > 0 ==> |out| + i + 2 <= Room())
        invariant Pending() == old(Pending()).(out := out + w[..i])
      {
        if tokPtr + 2 > tokMem.Length - 1 { return Stopped; }
        App(w[i]);
        assert w[..i+1] == w[..i] + [w[i]];
      }
      assert w[..3] == w;
      return Written;
    }

    /** The first half of `big_app` and `big_app1`: gets into the mode. */
    method EnterMode(mode: nat) returns (o: Outcome)
      requires Valid()
      modifies `tokPtr, `curMathness, `initMathness, tokMem
      ensures Valid() && Texts() == old(Texts())
      ensures var b := old(Pending());
              o == if b.cur != MAYBE_MATH && b.cur != mode && Room() < |b.out| + 5 then Stopped else Written
      ensures o == Written ==> Pending() == Enter(old(Pending()), mode)
    {
      o := Written;
      if curMathness == MAYBE_MATH {
        initMathness := mode;
      } else if curMathness != mode {
        o := AppSwitch(mode);
      }
      curMathness := mode;
    }

    method BigAppCode(c: nat, ghost window: seq<Scrap>) returns (o: Outcome)
      requires Valid()
      modifies `tokPtr, `curMathness, `initMathness, tokMem
      ensures Valid() && Texts() == old(Texts())
      ensures o == Write(old(Pending()), Big(c), window, Room())
      ensures o == Written ==> Pending() == BigApp(old(Pending()), c)
    {
      o := EnterMode(ModeOf(c));
      if o == Written {
        o := AppUnchecked(Code(c));
      }
    }

    method BigAppScrap(a: Scrap, ghost i: nat, ghost window: seq<Scrap>) returns (o: Outcome)
      requires Valid() && i < |window| && window[i] == a
      modifies `tokPtr, `curMathness, `initMathness, tokMem
      ensures Valid() && Texts() == old(Texts())
      ensures o == Write(old(Pending()), Take(i), window, Room())
      ensures o == Written ==> Pending() == BigApp1(old(Pending()), a)
    {
      var m := a.mathness % 4;
      o := Written;
      if m == NO_MATH || m == YES_MATH {
        o := EnterMode(m);
        curMathness := a.mathness / 4;
      }
      if o == Written {
        o := AppUnchecked(Ref(a.trans));
      }
    }

    method AppEscaped(c: nat, ghost window: seq<Scrap>) returns (o: Outcome)
      requires Valid()
      modifies `tokPtr, tokMem
      ensures Valid() && Texts() == old(Texts())
      ensures o == Write(old(Pending()), Escaped(c), window, Room())
      ensures o == Written ==> Pending() == Put(Put(old(Pending()), Code(BACKSLASH)), Code(c))
    {
      o := AppUnchecked(Code(BACKSLASH));
      if o == Written {
        o := AppUnchecked(Code(c));
      }
    }

    method PerformOp(op: Op, ghost window: seq<Scrap>) returns (o: Outcome)
      requires Valid() && InRange(op, |window|)
      requires op.Take? ==> pp + op.i < scrapInfo.Length && scrapInfo[pp + op.i] == window[op.i]
      requires |Pending().out| <= Room()
      modifies `tokPtr, `curMathness, `initMathness, tokMem
      ensures Valid() && Texts() == old(Texts())
      ensures o == Write(old(Pending()), op, window, Room())
      ensures o == Written ==> Pending() == Perform(old(Pending()), op, window)
    {
      match op {
        case Take(i) => o := BigAppScrap(scrapInfo[pp + i], i, window);
        case Big(c) => o := BigAppCode(c, window);
        case Raw(c) => o := AppUnchecked(Code(c));
        case Escaped(c) => o := AppEscaped(c, window);
        case SetMath => initMathness := YES_MATH; curMathness := YES_MATH; o := Written;
      }
    }

    /** Appends what the body of a production says, as far as the memory allows. The scraps
        it mentions are in the low part, as FillWindow has left them. */
    method BuildText(body: seq<Op>, ghost window: seq<Scrap>) returns (o: Outcome)
      requires Valid() && Pending() == EMPTY_DRAFT
      requires AllInRange(body, window) && forall op :: op in body ==> InRange(op, 4)
      requires forall i :: 0 <= i < 4 && i < |window| ==> scrapInfo[pp + i] == window[i]
      modifies `tokPtr, `curMathness, `initMathness, tokMem
      ensures Valid() && Texts() == old(Texts())
      ensures o == WriteTo(body, |body|, window, Room())
      ensures o == Written ==> Pending() == DraftTo(body, |body|, window)
    {
      ghost var live := scrapInfo[..];
      var j := 0;
      while j < |body|
        invariant Valid() && Texts() == old(Texts()) && 0 <= j <= |body|
        invariant WriteTo(body, j, window, Room()) == Written && Pending() == DraftTo(body, j, window)
        invariant scrapInfo[..] == live
      {
        assert body[j] in body;
        o := PerformOp(body[j], window);
        j := j + 1;
        if o != Written {
          TroubleStays(body, j, |body|, window, Room());
          return;
        }
      }
      return Written;
    }

    // ---------- make_reserved

    ghost predicate NoPending()
      reads this, tokStart
    {
      TextValid() && tokPtr == tokStart[textPtr]
    }

    /** The place of the first identifier of text t. */
    method FindFirst(t: nat, ghost s: Store) returns (loc: Option<nat>)
      requires Valid() && s == Texts() && s.Valid() && s.Acyclic() && t < s.Texts()
      ensures loc == FindFirstIdent(s, t)
      decreases t
    {
      var i := tokStart[t];
      while i < tokStart[t+1]
        invariant tokStart[t] <= i <= tokStart[t+1] && s == Texts()
        invariant FindFrom(s, t, i) == FindFirstIdent(s, t)
      {
        var tok := tokMem[i];
        assert tok == s.toks[i];
        if tok.IsName() { return Some(i); }
        if tok == Code(INSERTED) { return None; }
        if tok.IsRef() {
          var inner := FindFirst(tok.Number(), s);
          if inner.Some? { return inner; }
        }
        i := i + 1;
      }
      return None;
    }

    // Scrap q is the live scrap number `at`.
    ghost predicate Stands(q: int, at: int)
      requires GapValid()
      reads this
    {
      if q <= loPtr then scrapBase <= q && at == q - scrapBase
      else hiPtr <= q <= scrapPtr + 1 && at == q - hiPtr + loPtr + 1 - scrapBase
    }

    /** Marks scrap q as a type name if it is an expression that begins with v. */
    method ReserveScrap(q: int, v: Token, ghost at: int)
      requires Valid() && NoPending() && q <= scrapPtr && Stands(q, at)
      requires InStore(Texts().toks, Texts().starts, Live())
      modifies scrapInfo, tokMem
      ensures 0 <= at < |old(Live())| && Texts().starts == old(Texts().starts)
      ensures (Texts().toks, Live()) == ReserveOne(old(Texts().toks), old(Texts().starts), old(Live()), at, v)
    {
      var a := scrapInfo[q];
      AroundUpdate(scrapInfo[..], scrapBase, loPtr, hiPtr, scrapPtr, q, at, a.(cat := RAW_INT));
      var first := tokStart[a.trans];
      if a.cat == EXP && tokMem[first] == v {
        scrapInfo[q] := a.(cat := RAW_INT);
        tokMem[first] := Res(v.Number());
        assert scrapInfo[..] == old(scrapInfo[..])[q := a.(cat := RAW_INT)];
        assert Texts().toks == old(Texts().toks)[first := Res(v.Number())];
      }
    }

    /** The loop of `make_reserved`: every live scrap from p on, across the gap. */
    method ReserveAll(p: int, v: Token, ghost s: State)
      requires Now() == Some(s) && InStore(s.store.toks, s.store.starts, s.scraps) && scrapBase <= p <= loPtr
      modifies scrapInfo, tokMem
      ensures var r := ReserveFrom(s.store.toks, s.store.starts, s.scraps, p - scrapBase, v);
              Texts() == Store(r.0, s.store.starts) && Live() == r.1
    {
      var q := p;
      ghost var at := p - scrapBase;
      ghost var goal := Reserving(q, at, v);
      while q <= scrapPtr
        invariant Reserving(q, at, v) == goal && goal.Some?
        decreases scrapPtr - q
      {
        q := ReserveNext(q, v, at);
        at := at + 1;
      }
    }

    // What comes of it, when the scraps before number `at` have been dealt with.
    ghost function Reserving(q: int, at: int, v: Token): Option<(Store, seq<Scrap>)>
      reads this, scrapInfo, tokMem, tokStart
    {
      if Valid() && NoPending() && Stands(q, at) && 0 <= at <= |Live()| && InStore(Texts().toks, Texts().starts, Live()) then
        var r := ReserveFrom(Texts().toks, Texts().starts, Live(), at, v);
        Some((Store(r.0, Texts().starts), r.1))
      else None
    }

    method ReserveNext(q: int, v: Token, ghost at: int) returns (next: int)
      requires Reserving(q, at, v).Some? && q <= scrapPtr
      modifies scrapInfo, tokMem
      ensures Reserving(next, at + 1, v) == old(Reserving(q, at, v)) && next > q
    {
      ReserveOneThenFrom(Texts().toks, Texts().starts, Live(), at, v);
      ReserveScrap(q, v, at);
      next := if q == loPtr then hiPtr else q + 1;
    }

    method MakeReservedAt(p: int, ghost s: State)
      requires Now() == Some(s) && WellFormed(s) && scrapBase <= p <= loPtr
      modifies scrapInfo, tokMem
      ensures (Texts(), Live()) == MakeReserved(s.store, s.scraps, p - scrapBase)
    {
      assert scrapInfo[p] == s.scraps[p - scrapBase];
      var loc := FindFirst(scrapInfo[p].trans, s.store);
      if loc.Some? {
        ReserveFirst(p, loc.value, s);
      }
    }

    /** Marks the identifier at loc, and before it every expression that begins with it. */
    method ReserveFirst(p: int, loc: nat, ghost s: State)
      requires Now() == Some(s) && WellFormed(s) && scrapBase <= p <= loPtr && loc < |s.store.toks| && s.store.toks[loc].IsName()
      modifies scrapInfo, tokMem
      ensures var v := s.store.toks[loc];
              var r := ReserveFrom(s.store.toks, s.store.starts, s.scraps, p - scrapBase, v);
              |r.0| == |s.store.toks| && Texts() == Store(r.0[loc := Res(v.Number())], s.store.starts) && Live() == r.1
    {
      var v := tokMem[loc];
      assert v == s.store.toks[loc];
      ghost var r := ReserveFrom(s.store.toks, s.store.starts, s.scraps, p - scrapBase, v);
      ReserveFromFlips(s.store.toks, s.store.starts, s.scraps, p - scrapBase, v);
      ReserveAll(p, v, s);
      SetToken(loc, Res(v.Number()));
    }

    method SetToken(at: nat, tok: Token)
      requires Valid() && at < |Texts().toks|
      modifies tokMem
      ensures Valid() && Live() == old(Live()) && Texts() == Store(old(Texts()).toks[at := tok], old(Texts()).starts)
    {
      ghost var toks := Texts().toks;
      tokMem[at] := tok;
      assert Texts().toks == toks[at := tok];
    }

    // ---------- reduce and squash

    /** `reduce`: freezes the text just built, puts its scrap at j, closes up the low part
        over the k - 1 scraps after it and moves the cursor by d. (The source leaves the
        cursor one lower; every path then adds one.) */
    method ReduceAt(j: int, k: int, c: Category, d: int, ghost s: State, ghost a: Scrap, ghost t: State)
      requires Valid() && scrapBase <= j && 1 <= k && j + k - 1 <= loPtr && textPtr + 1 < tokStart.Length
      requires pp <= j && d <= 1
      requires s == View() && a == Scrap(c, 4 * curMathness + initMathness, textPtr)
      requires t == State(s.store.Append(Pending().out), Replace(s.scraps, j - scrapBase, k, a), Moved(s.pp, d))
      modifies `loPtr, `pp, `textPtr, scrapInfo, tokStart
      ensures Now() == Some(t)
    {
      var b := Scrap(c, 4 * curMathness + initMathness, textPtr);
      Freeze();
      PlaceScrap(j, k, b);
      SetCursor(d, t);
    }

    method SetCursor(d: int, ghost t: State)
      requires GapShaped() && NoPending() && Texts() == t.store && Live() == t.scraps
      requires scrapBase <= pp && t.pp == Moved(pp - scrapBase, d) <= |t.scraps| && scrapBase + t.pp <= loPtr + 1
      modifies `pp
      ensures Now() == Some(t)
    {
      MoveCursor(d);
    }

    method MoveCursor(d: int)
      requires GapShaped() && scrapBase <= pp && (if pp + d >= scrapBase then pp + d else scrapBase) <= loPtr + 1
      modifies `pp
      ensures GapValid() && pp - scrapBase == Moved(old(pp) - scrapBase, d)
    {
      pp := if pp + d >= scrapBase then pp + d else scrapBase;
    }

    method PlaceScrap(j: int, k: int, a: Scrap)
      requires GapValid() && scrapBase <= j && 1 <= k && j + k - 1 <= loPtr && pp <= loPtr - k + 2
      modifies `loPtr, scrapInfo
      ensures GapValid() && loPtr == old(loPtr) - k + 1 && Live() == Replace(old(Live()), j - scrapBase, k, a)
    {
      ghost var was, lo := scrapInfo[..], loPtr;
      ReplaceCells(j, k, a, was);
      loPtr := loPtr - k + 1;
      ReplaceAround(was, scrapInfo[..], scrapBase, lo, hiPtr, scrapPtr, j, k, a);
    }

    method ReplaceCells(j: int, k: int, a: Scrap, ghost was: seq<Scrap>)
      requires GapValid() && scrapBase <= j && 1 <= k && j + k - 1 <= loPtr && was == scrapInfo[..]
      modifies scrapInfo
      ensures var now := scrapInfo[..];
              forall i {:trigger now[i]} :: 0 <= i < |was| ==>
                now[i] == if i == j then a else if j < i <= loPtr - k + 1 then was[i + k - 1] else was[i]
    {
      scrapInfo[j] := a;
      ghost var mid := was[j := a];
      assert scrapInfo[..] == mid;
      if k > 1 {
        CloseUp(j, k, mid);
      }
      ClosedUp(was, mid, scrapInfo[..], j, k, loPtr, a);
    }

    method Freeze()
      requires TextValid() && textPtr + 1 < tokStart.Length
      modifies `textPtr, tokStart
      ensures NoPending() && Texts() == old(Texts()).Append(old(Pending()).out)
    {
      ghost var before := tokStart[..];
      textPtr := textPtr + 1;
      tokStart[textPtr] := tokPtr;
      assert tokStart[..] == before[textPtr := tokPtr];
      assert tokStart[..textPtr+1] == before[..textPtr] + [tokPtr];
      assert tokMem[..tokPtr] == tokMem[..before[textPtr-1]] + tokMem[before[textPtr-1]..tokPtr];
    }

    /** Shifts the low scraps after j + k - 1 down to j + 1. */
    method CloseUp(j: int, k: int, ghost was: seq<Scrap>)
      requires GapValid() && scrapBase <= j && 1 < k && j + k - 1 <= loPtr && was == scrapInfo[..]
      modifies scrapInfo
      ensures var now := scrapInfo[..];
              forall x {:trigger now[x]} :: 0 <= x < |was| ==> now[x] == if j < x <= loPtr - k + 1 then was[x + k - 1] else was[x]
    {
      var i, i1 := j + k, j + 1;
      while i <= loPtr
        invariant j + k <= i <= loPtr + 1 && i1 == i - k + 1
        invariant forall x {:trigger scrapInfo[x]} :: 0 <= x < |was| ==> scrapInfo[x] == if j < x < i1 then was[x + k - 1] else was[x]
      {
        scrapInfo[i1] := scrapInfo[i];
        i, i1 := i + 1, i1 + 1;
      }
    }

    /** `squash` of one scrap. */
    method SquashOne(j: int, c: Category, d: int)
      requires Valid() && pp <= j <= loPtr && d <= 1
      modifies `pp, scrapInfo
      ensures Valid() && pp - scrapBase == Moved(old(pp) - scrapBase, d) && Texts() == old(Texts())
      ensures j - scrapBase < |old(Live())|
      ensures Live() == old(Live())[j - scrapBase := old(Live())[j - scrapBase].(cat := c)]
    {
      AroundUpdate(scrapInfo[..], scrapBase, loPtr, hiPtr, scrapPtr, j, j - scrapBase, scrapInfo[j].(cat := c));
      scrapInfo[j] := scrapInfo[j].(cat := c);
      assert scrapInfo[..] == old(scrapInfo[..])[j := old(scrapInfo[j]).(cat := c)];
      MoveCursor(d);
    }

    // ---------- translate

    /** The four categories at the cursor are those of the live scraps, padded with 0. */
    ghost predicate CategoriesReady()
      requires GapValid()
      reads this, scrapInfo
    {
      forall x :: pp <= x < pp + 4 ==> scrapInfo[x].cat == CatAt(Live(), x - scrapBase)
    }

    /** The scraps at the cursor that exist are in the low part. */
    ghost predicate LowReady()
      reads this
    {
      hiPtr <= scrapPtr ==> loPtr >= pp + 3
    }

    /** Runs `make_reserved` where the production asks for it. */
    method Prepare(p: Production, ghost s: State)
      requires Now() == Some(s) && LowReady() && WellFormed(s) && Fits(p, |s.scraps| - s.pp) && Short(p)
      modifies scrapInfo, tokMem
      ensures Now() == Some(Prepared(s, p))
    {
      if ReservedAt(p) > 0 {
        MakeReservedAt(pp + ReservedAt(p), s);
      }
    }

    /** Builds the text of a production, as far as the memory allows. */
    method DraftAt(p: Production, ghost s: State) returns (o: Outcome)
      requires Now() == Some(s) && LowReady()
      requires Fits(p, |s.scraps| - s.pp) && Short(p)
      modifies `tokPtr, `curMathness, `initMathness, tokMem
      ensures Valid() && Texts() == old(Texts()) && o == Outlook(s, p, Room())
      ensures o == Written ==> Pending() == Drafted(s, p)
    {
      ghost var window := s.scraps[s.pp..];
      WindowIsLow(s);
      OutlookIs(s, p, window, Room());
      BeginText();
      o := BuildText(Body(p), window);
    }

    method BeginText()
      requires NoPending()
      modifies `curMathness, `initMathness
      ensures Pending() == EMPTY_DRAFT
    {
      initMathness, curMathness := MAYBE_MATH, MAYBE_MATH;
    }

    lemma OutlookIs(s: State, p: Production, window: seq<Scrap>, room: nat)
      requires s.pp <= |s.scraps| && Fits(p, |s.scraps| - s.pp) && Short(p) && window == s.scraps[s.pp..]
      ensures AllInRange(Body(p), window) && forall op :: op in Body(p) ==> InRange(op, 4)
      ensures Drafted(s, p) == DraftTo(Body(p), |Body(p)|, window) && Outlook(s, p, room) == WriteTo(Body(p), |Body(p)|, window, room)
    {
      CostIs(s, p);
    }

    // The scraps at the cursor are in the low part.
    lemma WindowIsLow(s: State)
      requires GapValid() && LowReady() && s.pp <= |s.scraps| && Live() == s.scraps && pp - scrapBase == s.pp
      ensures var window := s.scraps[s.pp..]; forall i :: 0 <= i < 4 && i < |window| ==> scrapInfo[pp + i] == window[i]
    {
      var window := s.scraps[s.pp..];
      forall i | 0 <= i < 4 && i < |window|
        ensures scrapInfo[pp + i] == window[i]
      {
        assert window[i] == s.scraps[s.pp + i] == Live()[s.pp + i];
      }
    }

    /** Builds the text of a production and reduces. */
    method BuildAt(p: Production, ghost s: State) returns (o: Outcome)
      requires Now() == Some(s) && LowReady() && s.store.Valid()
      requires Fits(p, |s.scraps| - s.pp) && Short(p) && textPtr + 1 < tokStart.Length
      modifies `loPtr, `pp, `tokPtr, `textPtr, `curMathness, `initMathness, scrapInfo, tokMem, tokStart
      ensures Valid() && o == Outlook(s, p, old(Room()))
      ensures o == Written ==> Now() == Some(Build(s, p))
    {
      o := DraftAt(p, s);
      if o == Written {
        ReduceDraft(p, s);
      }
    }

    method ReduceDraft(p: Production, ghost s: State)
      requires Valid() && s == View() && s.store.Valid() && LowReady()
      requires Fits(p, |s.scraps| - s.pp) && Short(p) && Pending() == Drafted(s, p) && textPtr + 1 < tokStart.Length
      modifies `loPtr, `pp, `textPtr, scrapInfo, tokStart
      ensures Now() == Some(Build(s, p))
    {
      ghost var b, a := Pending(), Scrap(p.cat, 4 * curMathness + initMathness, textPtr);
      BuildIs(s, p, b, a);
      ReduceAt(pp + p.at, p.k, p.cat, p.d, s, a, Build(s, p));
    }

    /** Looks the production up in the table. */
    method Select(rules: Rules, ghost s: State) returns (p: Production)
      requires Valid() && CategoriesReady() && s == View() && pp <= loPtr
      requires WellFormed(s) && SoundRules(rules)
      ensures p == ProductionAt(s.scraps, s.pp, rules) && s.pp < |s.scraps|
      ensures p.NoRule? || (Fits(p, |s.scraps| - s.pp) && Short(p))
      ensures Step(s, rules) == if p.NoRule? then s.(pp := s.pp + 1) else Fire(s, p)
      ensures Guarded(s, tokMem.Length, tokStart.Length) ==>
                Fate(s, rules, tokMem.Length, tokStart.Length) == if p.NoRule? then Written else Outlook(s, p, Room())
    {
      var a, b, c, d := ReadWindow(s);
      p := rules(a, b, c, d);
      StepIs(s, rules, ProductionAt(s.scraps, s.pp, rules));
      FateIs(s, rules, ProductionAt(s.scraps, s.pp, rules), tokMem.Length, tokStart.Length, Room());
    }

    method ReadWindow(ghost s: State) returns (a: Category, b: Category, c: Category, d: Category)
      requires GapValid() && CategoriesReady() && pp <= loPtr && s.scraps == Live() && s.pp == pp - scrapBase
      ensures s.pp < |s.scraps|
      ensures a == CatAt(s.scraps, s.pp) && b == CatAt(s.scraps, s.pp + 1) && c == CatAt(s.scraps, s.pp + 2) && d == CatAt(s.scraps, s.pp + 3)
    {
      a, b, c, d := scrapInfo[pp].cat, scrapInfo[pp+1].cat, scrapInfo[pp+2].cat, scrapInfo[pp+3].cat;
    }

    lemma StepIs(s: State, rules: Rules, p: Production)
      requires WellFormed(s) && SoundRules(rules) && s.pp < |s.scraps| && p == ProductionAt(s.scraps, s.pp, rules)
      ensures p.NoRule? || (Fits(p, |s.scraps| - s.pp) && Short(p))
      ensures Step(s, rules) == if p.NoRule? then s.(pp := s.pp + 1) else Fire(s, p)
    {
      ProductionFits(s, rules);
    }

    method FireAt(p: Production, ghost s: State) returns (o: Outcome)
      requires Now() == Some(s) && LowReady()
      requires WellFormed(s) && Fits(p, |s.scraps| - s.pp) && Short(p) && textPtr + 1 < tokStart.Length
      modifies `loPtr, `pp, `tokPtr, `textPtr, `curMathness, `initMathness, scrapInfo, tokMem, tokStart
      ensures Valid() && o == Outlook(s, p, old(Room()))
      ensures o == Written ==> Now() == Some(Fire(s, p))
    {
      if p.Squash? && p.k == 1 {
        RetagsOutlook(s, p, Room());
        Retag(p, s);
        o := Written;
      } else {
        o := PrepareAndBuild(p, s);
      }
    }

    method Retag(p: Production, ghost s: State)
      requires Now() == Some(s) && WellFormed(s) && Fits(p, |s.scraps| - s.pp) && Short(p) && LowReady() && p.Squash? && p.k == 1
      modifies `pp, scrapInfo
      ensures Now() == Some(Fire(s, p))
    {
      SquashOne(pp + p.at, p.cat, p.d);
    }

    method PrepareAndBuild(p: Production, ghost s: State) returns (o: Outcome)
      requires Now() == Some(s) && LowReady() && !Retags(p)
      requires WellFormed(s) && Fits(p, |s.scraps| - s.pp) && Short(p) && textPtr + 1 < tokStart.Length
      modifies `loPtr, `pp, `tokPtr, `textPtr, `curMathness, `initMathness, scrapInfo, tokMem, tokStart
      ensures Valid() && o == Outlook(s, p, old(Room()))
      ensures o == Written ==> Now() == Some(Fire(s, p))
    {
      PreparedValid(s, p);
      PreparedOutlook(s, p, Room());
      Prepare(p, s);
      o := BuildAt(p, Prepared(s, p));
    }

    /** One iteration: the production that the table selects, or one step right. */
    method IterateOnce(rules: Rules, ghost s: State) returns (o: Outcome)
      requires Now() == Some(s) && LowReady() && CategoriesReady() && pp <= loPtr
      requires WellFormed(s) && SoundRules(rules) && Guarded(s, tokMem.Length, tokStart.Length)
      modifies `loPtr, `pp, `tokPtr, `textPtr, `curMathness, `initMathness, scrapInfo, tokMem, tokStart
      ensures Valid() && s.pp < |s.scraps| && o == Fate(s, rules, tokMem.Length, tokStart.Length)
      ensures o == Written ==> Now() == Some(Step(s, rules))
    {
      var p := Select(rules, s);
      if p.NoRule? {
        StepRight(s);
        o := Written;
      } else {
        o := FireAt(p, s);
      }
    }

    method StepRight(ghost s: State)
      requires Now() == Some(s) && pp <= loPtr
      modifies `pp
      ensures Now() == Some(s.(pp := s.pp + 1))
    {
      pp := pp + 1;
    }

    method StepOn(rules: Rules, ghost s: State, ghost run: seq<State>) returns (o: Outcome, ghost t: State)
      requires Now() == Some(s) && LowReady() && CategoriesReady() && pp <= loPtr && SoundRules(rules)
      requires RunTo(run, rules, s) && Guarded(s, tokMem.Length, tokStart.Length)
      modifies `loPtr, `pp, `tokPtr, `textPtr, `curMathness, `initMathness, scrapInfo, tokMem, tokStart
      ensures Valid() && o == Fate(s, rules, tokMem.Length, tokStart.Length)
      ensures o == Written ==> Now() == Some(t) && Before(s, t) && RunTo(run + [t], rules, t)
    {
      o := IterateOnce(rules, s);
      t := s;
      if o == Written {
        t := View();
        StepFollows(s, rules, run, t);
      }
    }

    /** One turn of the loop of `translate`. */
    method Turn(rules: Rules, ghost s: State, ghost run: seq<State>) returns (r: Progress, ghost t: State)
      requires Now() == Some(s) && SoundRules(rules) && RunTo(run, rules, s)
      modifies `loPtr, `hiPtr, `pp, `tokPtr, `textPtr, `curMathness, `initMathness, scrapInfo, tokMem, tokStart
      ensures Valid() && r.Tells(Fate(s, rules, tokMem.Length, tokStart.Length))
      ensures r.More? ==> Now() == Some(t) && Before(s, t) && RunTo(run + [t], rules, t)
      ensures r.Done? ==> Now() == Some(s) && s.pp == |s.scraps| && hiPtr > scrapPtr
    {
      t := s;
      FillWindow();
      if tokPtr + SAFE_TOK_INCR > tokMem.Length - 1 || textPtr + SAFE_TEXT_INCR > tokStart.Length - 1 {
        r := Trouble(Stopped);
      } else if pp > loPtr {
        r := Done;
      } else {
        var o;
        o, t := StepOn(rules, s, run);
        r := if o == Written then More else Trouble(o);
      }
    }

    /** All iterations, and the states they pass through. */
    method Loop(rules: Rules, ghost start: State) returns (r: Progress, ghost run: seq<State>, ghost s: State)
      requires Now() == Some(start) && SoundRules(rules) && WellFormed(start)
      modifies `loPtr, `hiPtr, `pp, `tokPtr, `textPtr, `curMathness, `initMathness, scrapInfo, tokMem, tokStart
      ensures Valid() && !r.More? && RunTo(run, rules, s) && run[0] == start
      ensures Untroubled(run, rules, tokMem.Length, tokStart.Length) && r.Tells(Fate(s, rules, tokMem.Length, tokStart.Length))
      ensures r.Done? ==> Now() == Some(s) && s.pp == |s.scraps| && hiPtr > scrapPtr
    {
      s, run, r := start, [start], More;
      while r == More
        invariant Valid() && RunTo(run, rules, s) && run[0] == start && Untroubled(run, rules, tokMem.Length, tokStart.Length)
        invariant r.More? || r.Tells(Fate(s, rules, tokMem.Length, tokStart.Length))
        invariant !r.Trouble? ==> Now() == Some(s)
        invariant r.Done? ==> s.pp == |s.scraps| && hiPtr > scrapPtr
        decreases r == More, |s.scraps|, SumRank(s.scraps), |s.scraps| - s.pp
      {
        ghost var t;
        r, t := Turn(rules, s, run);
        if r == More {
          StillUntroubled(run, rules, tokMem.Length, tokStart.Length, t);
          s, run := t, run + [t];
        }
      }
    }

    /** The loop of `translate`: it ends in the state Run, unless the token or text memory
        gives trouble on the way. `o` is the first trouble that the run meets: the program
        stops with its message, or writes past the end of the token memory. */
    method Translate(rules: Rules) returns (o: Outcome)
      requires Valid() && NoPending() && WellFormed(View()) && SoundRules(rules)
      modifies `loPtr, `hiPtr, `pp, `tokPtr, `textPtr, `curMathness, `initMathness, scrapInfo, tokMem, tokStart
      ensures Valid()
      ensures o == Written ==> NoPending() && View() == Run(old(View()), rules) && hiPtr > scrapPtr
      ensures o == Written ==> Guarded(View(), tokMem.Length, tokStart.Length)
      ensures o == Written ==> NoTrouble(old(View()), rules, tokMem.Length, tokStart.Length)
      ensures o != Written ==> Meets(old(View()), rules, tokMem.Length, tokStart.Length, o)
    {
      ghost var start := View();
      var r, run, s := Loop(rules, start);
      if r == Done {
        RunEnds(run, rules, start, s, |run| - 1, Next(rules));
        RunHasNoTrouble(run, rules, tokMem.Length, tokStart.Length, Next(rules));
        o := Written;
      } else {
        RunMeets(run, rules, tokMem.Length, tokStart.Length, Next(rules));
        o := r.outcome;
      }
    }

    /** What `translate` does with the irreducible scraps: one text that holds them all. It
        stops when fewer than seven tokens are free after a scrap. */
    method Finish() returns (ok: bool)
      requires Valid() && NoPending() && hiPtr > scrapPtr && Guarded(View(), tokMem.Length, tokStart.Length)
      modifies `tokPtr, `textPtr, `curMathness, `initMathness, tokMem, tokStart
      ensures Valid()
      ensures ok <==> |old(Live())| == 0 || |old(Texts()).toks| + |Finished(old(Live()))| + 6 < tokMem.Length
      ensures ok ==> NoPending() && Live() == old(Live()) && Texts() == old(Texts()).Append(Finished(Live()))
    {
      ok := Collect(Live());
      if ok { Freeze(); }
    }

    /** The scraps, one after the other. */
    method Collect(ghost live: seq<Scrap>) returns (ok: bool)
      requires Valid() && NoPending() && hiPtr > scrapPtr && live == Live() && tokPtr + 6 < tokMem.Length
      modifies `tokPtr, tokMem
      ensures Valid() && Texts() == old(Texts())
      ensures ok <==> |live| == 0 || |Texts().toks| + |Finished(live)| + 6 < tokMem.Length
      ensures ok ==> Pending().out == Finished(live)
    {
      ghost var texts := Texts();
      var j := scrapBase;
      while j <= loPtr
        invariant Valid() && Texts() == texts && Live() == live && scrapBase <= j <= loPtr + 1
        invariant Pending().out == Finished(live[..j - scrapBase])
        invariant tokPtr + 6 < tokMem.Length
      {
        FinishScrap(j, live, j - scrapBase);
        j := j + 1;
        FinishedGrows(live, j - scrapBase);
        assert tokPtr == |texts.toks| + |Finished(live[..j - scrapBase])|;
        if tokPtr + 6 > tokMem.Length - 1 { return false; }
      }
      assert live[..loPtr + 1 - scrapBase] == live;
      return true;
    }

    method FinishScrap(j: int, ghost live: seq<Scrap>, ghost n: nat)
      requires Valid() && tokPtr + 4 <= tokMem.Length && scrapBase <= j <= loPtr
      requires live == Live() && n == j - scrapBase && Pending().out == Finished(live[..n])
      modifies `tokPtr, tokMem
      ensures Valid() && Texts() == old(Texts()) && n < |live| && Pending().out == Finished(live[..n+1])
    {
      var a := scrapInfo[j];
      ghost var out := Pending().out;
      AppIf(j != scrapBase, Code(BLANK));
      AppIf(a.mathness % 4 == YES_MATH, Code(DOLLAR));
      App(Ref(a.trans));
      AppIf(a.mathness / 4 == YES_MATH, Code(DOLLAR));
      assert live[n] == a;
      FinishedMore(live, n);
      FinishJoined(out, a, j == scrapBase);
    }

    method AppIf(wanted: bool, tok: Token)
      requires Valid() && tokPtr < tokMem.Length
      modifies `tokPtr, tokMem
      ensures Valid() && Texts() == old(Texts()) && old(tokPtr) <= tokPtr <= old(tokPtr) + 1
      ensures Pending().out == old(Pending().out) + if wanted then [tok] else []
    {
      if wanted { App(tok); }
    }
  }

  datatype Progress = More | Done | Trouble(outcome: Outcome) {

    /** This is how the loop tells what came of an iteration. */
    predicate Tells(o: Outcome) {
      if Trouble? then outcome == o && o != Written else o == Written
    }
  }

  lemma {:induction false} FinishedGrows(scraps: seq<Scrap>, n: nat)
    requires n <= |scraps|
    ensures |Finished(scraps[..n])| <= |Finished(scraps)|
    decreases |scraps| - n
  {
    if n == |scraps| {
      assert scraps[..n] == scraps;
    } else {
      FinishedMore(scraps, n);
      FinishedGrows(scraps, n + 1);
    }
  }

  lemma FinishedMore(scraps: seq<Scrap>, n: nat)
    requires n < |scraps|
    ensures Finished(scraps[..n+1]) == Finished(scraps[..n]) + FinishOne(scraps[n], n == 0)
  {
    assert scraps[..n+1][..n] == scraps[..n];
  }

  lemma FinishJoined(out: seq<Token>, a: Scrap, first: bool)
    ensures out + FinishOne(a, first)
         == out + (if !first then [Code(BLANK)] else []) + (if a.mathness % 4 == YES_MATH then [Code(DOLLAR)] else [])
            + [Ref(a.trans)] + (if a.mathness / 4 == YES_MATH then [Code(DOLLAR)] else [])
  {
  }
}
