// CTANGLE's first phase: replacement texts stored in token memory and chained
// together (cweb/ctangle.c:285-302, 415-426, 501-509, 1185-1283, 1388-1460).

module TangleTexts {
  import opened Basics
  import opened TangleTokens
  import opened TangleExpansion
  import opened TangleMarkers
  import opened TangleChains

  lemma EncodeCons(i: Item, rest: seq<Item>)
    requires Fits(i) && AllFit(rest)
    ensures AllFit([i] + rest) && EncodeAll([i] + rest) == Encode(i) + EncodeAll(rest)
  {
    var all := [i] + rest;
    assert all[1..] == rest;
  }

  lemma {:induction false} EncodeSnoc(items: seq<Item>, i: Item)
    requires AllFit(items) && Fits(i)
    ensures AllFit(items + [i]) && EncodeAll(items + [i]) == EncodeAll(items) + Encode(i)
    decreases |items|
  {
    if items == [] {
      assert items + [i] == [i] + [];
      EncodeCons(i, []);
      assert Encode(i) + [] == [] + Encode(i);
    } else {
      var first, rest := items[0], items[1..];
      EncodeSnoc(rest, i);
      EncodeCons(first, rest);
      EncodeCons(first, rest + [i]);
      assert items == [first] + rest && items + [i] == [first] + (rest + [i]);
      Regroup(Encode(first), EncodeAll(rest), Encode(i));
    }
  }

  lemma {:induction false} EncodePrefix(items: seq<Item>, k: nat)
    requires AllFit(items) && k <= |items|
    ensures AllFit(items[..k]) && |EncodeAll(items[..k])| <= |EncodeAll(items)|
    decreases k
  {
    if k > 0 {
      EncodePrefix(items[1..], k - 1);
      assert items[..k][1..] == items[1..][..k-1];
    }
  }

  lemma EncodeStep(items: seq<Item>, k: nat)
    requires AllFit(items) && k < |items|
    ensures AllFit(items[..k]) && AllFit(items[..k+1]) && EncodeAll(items[..k+1]) == EncodeAll(items[..k]) + Encode(items[k])
    ensures |EncodeAll(items[..k+1])| <= |EncodeAll(items)|
  {
    EncodeSnoc(items[..k], items[k]);
    EncodePrefix(items, k + 1);
    assert items[..k] + [items[k]] == items[..k+1];
  }

  lemma MemberMore(items: seq<Item>, k: nat, i: Item)
    requires k < |items|
    ensures i in items[..k+1] <==> i in items[..k] || items[k] == i
  {
    assert items[..k+1] == items[..k] + [items[k]];
  }

  /** The first texts' worth of memory: text t is stored where `starts` says. */
  ghost predicate Stored(mem: seq<Byte>, starts: seq<nat>, h: seq<Entry>, names: nat) {
    && Source(h, names) && |starts| == |h| + 2 && starts[|h|+1] <= |mem|
    && forall t :: 0 <= t <= |h| ==> StoredText(mem, starts, h, t)
  }

  ghost predicate StoredText(mem: seq<Byte>, starts: seq<nat>, h: seq<Entry>, t: nat)
    requires |starts| == |h| + 2 && t <= |h|
  {
    && AllFit(TextsOf(h)[t]) && starts[t] <= starts[t+1] <= |mem|
    && mem[starts[t]..starts[t+1]] == EncodeAll(TextsOf(h)[t])
  }

  // One more text at the end of memory.
  lemma StoreText(mem: seq<Byte>, more: seq<Byte>, starts: seq<nat>, h: seq<Entry>, e: Entry, names: nat)
    requires Stored(mem, starts, h, names) && Scanned(e, names) && |h| + 1 < MAX_TEXTS
    requires starts[|h|+1] == |mem| && more == EncodeAll(TextOf(e))
    ensures Stored(mem + more, starts + [|mem| + |more|], h + [e], names)
  {
    var mem2, starts2, h2 := mem + more, starts + [|mem| + |more|], h + [e];
    forall t: nat | t <= |h2|
      ensures StoredText(mem2, starts2, h2, t)
    {
      if t <= |h| {
        OldTextStays(mem, more, starts, h, e, t);
      } else {
        NewTextIsThere(mem, more, starts, h, e);
      }
    }
  }

  lemma OldTextStays(mem: seq<Byte>, more: seq<Byte>, starts: seq<nat>, h: seq<Entry>, e: Entry, t: nat)
    requires |starts| == |h| + 2 && t <= |h| && StoredText(mem, starts, h, t)
    ensures StoredText(mem + more, starts + [|mem| + |more|], h + [e], t)
  {
    assert TextsOf(h + [e])[t] == TextsOf(h)[t];
    assert (mem + more)[starts[t]..starts[t+1]] == mem[starts[t]..starts[t+1]];
  }

  lemma NewTextIsThere(mem: seq<Byte>, more: seq<Byte>, starts: seq<nat>, h: seq<Entry>, e: Entry)
    requires |starts| == |h| + 2 && starts[|h|+1] == |mem| && AllFit(TextOf(e)) && more == EncodeAll(TextOf(e))
    ensures StoredText(mem + more, starts + [|mem| + |more|], h + [e], |h| + 1)
  {
    assert TextsOf(h + [e])[|h|+1] == TextOf(e);
    assert (mem + more)[|mem|..|mem| + |more|] == more;
  }

  /** The texts in memory are the program that the source means. */
  lemma StoredRepresents(mem: seq<Byte>, starts: seq<nat>, h: seq<Entry>, names: nat)
    requires Stored(mem, starts, h, names)
    ensures Represents(Image(mem, starts, LinksOf(h), HeadsOf(h, names)), ProgramOf(h, names))
  {
    var img, p := Image(mem, starts, LinksOf(h), HeadsOf(h, names)), ProgramOf(h, names);
    ProgramIsValid(h, names, p);
    forall t: nat | t < |p.items|
      ensures HoldsText(img, t, p.items[t])
    {
      assert StoredText(mem, starts, h, t);
    }
  }

  class Texts {
    const tokMem: array<Byte>
    const starts: array<nat>
    const links: array<nat>
    const equiv: array<nat>
    var tokPtr: nat
    var textPtr: nat
    var lastUnnamed: nat
    /** `output_defs_seen` */
    var defsSeen: bool
    ghost var history: seq<Entry>

    ghost predicate Shaped() reads this`tokPtr, this`textPtr, this`history {
      && starts.Length == MAX_TEXTS + 1 && links.Length == MAX_TEXTS && 0 < equiv.Length < NAME_LIMIT
      && starts != links && links != equiv && starts != equiv
      && tokPtr <= tokMem.Length && textPtr == |history| + 1 <= MAX_TEXTS
    }

    function Mem(): seq<Byte> reads this`tokPtr, tokMem requires tokPtr <= tokMem.Length {
      tokMem[..tokPtr]
    }

    /** The texts of `history` are in memory, and nothing after them. */
    ghost predicate Kept() reads this`tokPtr, this`textPtr, this`history, tokMem, starts requires Shaped() {
      Stored(Mem(), starts[..textPtr+1], history, equiv.Length) && starts[textPtr] == tokPtr
    }

    /** The texts of h are on their chains. */
    ghost predicate Chained(h: seq<Entry>) reads this`lastUnnamed, links, equiv {
      && |h| < MAX_TEXTS == links.Length && 0 < equiv.Length
      && links[..|h|+1] == LinksOf(h) && equiv[..] == HeadsOf(h, equiv.Length) && Last(h, 0, lastUnnamed)
    }

    /** Between two texts. */
    ghost predicate Valid() reads this, tokMem, starts, links, equiv {
      Shaped() && Kept() && Chained(history)
    }

    /** Whether some text asks for the macro definitions. */
    ghost predicate Noted() reads this`defsSeen, this`history {
      defsSeen == AsksForDefs(history)
    }

    /** The memory as the second phase sees it. */
    function View(): Image reads this, tokMem, starts, links, equiv
      requires tokPtr <= tokMem.Length && textPtr < starts.Length && textPtr <= links.Length
    {
      Image(Mem(), starts[..textPtr+1], links[..textPtr], equiv[..])
    }

    constructor (toks: nat, names: nat)
      requires 0 < names < NAME_LIMIT
      ensures Valid() && Noted() && history == [] && tokMem.Length == toks && equiv.Length == names
    {
      tokMem := new Byte[toks](_ => 0);
      starts := new nat[MAX_TEXTS + 1](_ => 0);
      links := new nat[MAX_TEXTS](_ => 0);
      equiv := new nat[names](_ => 0);
      tokPtr, textPtr, lastUnnamed, defsSeen, history := 0, 1, 0, false, [];
      new;
      assert StoredText(Mem(), starts[..textPtr+1], [], 0);
      assert forall n :: 0 <= n < names ==> equiv[..][n] == 0;
      assert links[..1] == [0];
    }

    /** `app_repl` */
    method AppRepl(c: Byte) returns (ok: bool)
      requires Shaped()
      modifies this`tokPtr, tokMem
      ensures Shaped() && (ok <==> old(tokPtr) < tokMem.Length)
      ensures Mem() == old(Mem()) + if ok then [c] else []
    {
      ok := tokPtr < tokMem.Length;
      if ok {
        tokMem[tokPtr] := c;
        tokPtr := tokPtr + 1;
      }
    }

    /** `store_two_bytes` */
    method StoreTwoBytes(x: nat) returns (ok: bool)
      requires Shaped() && x < 256 * 256
      modifies this`tokPtr, tokMem
      ensures Shaped() && (ok <==> old(tokPtr) + 2 <= tokMem.Length)
      ensures Mem() == old(Mem()) + if ok then [x / 256, x % 256] else []
    {
      ok := tokPtr + 2 <= tokMem.Length;
      if ok {
        tokMem[tokPtr] := x / 256;
        tokMem[tokPtr+1] := x % 256;
        tokPtr := tokPtr + 2;
      }
    }

    // Two calls of app_repl, for a two-byte code.
    method AppCode(a: nat) returns (ok: bool)
      requires Shaped() && a < 128 * 256
      modifies this`tokPtr, tokMem
      ensures Shaped() && (ok <==> old(tokPtr) + 2 <= tokMem.Length)
      ensures ok ==> Mem() == old(Mem()) + TwoBytes(a)
    {
      ok := AppRepl(a / 256 + 128);
      if ok {
        ok := AppRepl(a % 256);
      }
    }

    method StoreVerbatim(mark: Byte, content: seq<Byte>) returns (ok: bool)
      requires Shaped()
      modifies this`tokPtr, tokMem
      ensures Shaped() && (ok <==> old(tokPtr) + |content| + 2 <= tokMem.Length)
      ensures ok ==> Mem() == old(Mem()) + ([mark] + content + [mark])
    {
      ok := AppRepl(mark);
      var k := 0;
      while ok && k < |content|
        invariant Shaped() && k <= |content|
        invariant ok ==> Mem() == old(Mem()) + [mark] + content[..k]
        invariant !ok ==> old(tokPtr) + |content| + 2 > tokMem.Length
      {
        ok := AppRepl(content[k]);
        if ok {
          k := k + 1;
        }
      }
      if ok {
        ok := AppRepl(mark);
        assert content[..k] == content;
      }
    }

    /** One token of the replacement text, as `scan_repl` encodes it. */
    method StoreItem(i: Item) returns (ok: bool)
      requires Shaped() && Fits(i)
      modifies this`tokPtr, this`defsSeen, tokMem
      ensures Shaped() && (ok <==> old(tokPtr) + |Encode(i)| <= tokMem.Length)
      ensures ok ==> Mem() == old(Mem()) + Encode(i)
      ensures defsSeen == (old(defsSeen) || i.Defs?)
    {
      if i.Defs? {
        defsSeen := true;
      }
      match i {
        case Char(c) => ok := AppRepl(c);
        case Verbatim(mark, content) => ok := StoreVerbatim(mark, content);
        case Ident(n) => ok := AppCode(n);
        case Section(n) => ok := AppCode(n + NAME_LIMIT);
        case Defs => ok := AppCode(OUTPUT_DEFS);
        case Number(n) => ok := StoreTwoBytes(128 * 256 + 2 * NAME_LIMIT + n);
        case Line(l, f) => ok := StoreLine(l, f);
      }
    }

    method StoreLine(l: nat, f: nat) returns (ok: bool)
      requires Shaped() && Fits(Line(l, f))
      modifies this`tokPtr, tokMem
      ensures Shaped() && (ok <==> old(tokPtr) + 6 <= tokMem.Length)
      ensures ok ==> Mem() == old(Mem()) + Encode(Line(l, f))
    {
      ok := StoreTwoBytes(128 * 256 + 2 * NAME_LIMIT);
      if ok { ok := StoreTwoBytes(l); }
      if ok { ok := AppCode(f); }
    }

    method StoreItems(items: seq<Item>) returns (ok: bool)
      requires Shaped() && AllFit(items)
      modifies this`tokPtr, this`defsSeen, tokMem
      ensures Shaped() && (ok <==> old(tokPtr) + |EncodeAll(items)| <= tokMem.Length)
      ensures ok ==> Mem() == old(Mem()) + EncodeAll(items) && defsSeen == (old(defsSeen) || Defs in items)
    {
      ghost var was := Mem();
      var k := 0;
      while k < |items|
        invariant Shaped() && k <= |items| && AllFit(items[..k])
        invariant Mem() == was + EncodeAll(items[..k])
        invariant defsSeen == (old(defsSeen) || Defs in items[..k])
      {
        MemberMore(items, k, Defs);
        EncodeStep(items, k);
        ok := StoreItem(items[k]);
        if !ok {
          return;
        }
        Regroup(was, EncodeAll(items[..k]), Encode(items[k]));
        k := k + 1;
      }
      assert items[..k] == items;
      ok := true;
    }

    /** The end of `scan_repl`: what has been stored since the last text is a text.
        `before` is the memory at that time. */
    method EndText(ghost e: Entry, ghost before: seq<Byte>) returns (ok: bool)
      requires Shaped() && Scanned(e, equiv.Length)
      requires Stored(before, starts[..textPtr+1], history, equiv.Length) && starts[textPtr] == |before|
      requires Mem() == before + EncodeAll(TextOf(e))
      modifies this`textPtr, starts, this`history
      ensures ok <==> old(textPtr) < MAX_TEXTS
      ensures ok ==> Shaped() && history == old(history) + [e] && textPtr == old(textPtr) + 1 && Kept()
    {
      ok := textPtr < MAX_TEXTS;
      if ok {
        ghost var was := starts[..textPtr+1];
        textPtr := textPtr + 1;
        starts[textPtr] := tokPtr;
        history := history + [e];
        assert starts[..textPtr+1] == was + [tokPtr];
        StoreText(before, EncodeAll(TextOf(e)), was, old(history), e, equiv.Length);
      }
    }

    method AddText(items: seq<Item>, ghost e: Entry) returns (ok: bool)
      requires Shaped() && Kept() && Scanned(e, equiv.Length) && items == TextOf(e) && Noted()
      modifies this`tokPtr, this`textPtr, this`defsSeen, this`history, tokMem, starts
      ensures ok <==> old(textPtr) < MAX_TEXTS && old(tokPtr) + |EncodeAll(items)| <= tokMem.Length
      ensures ok ==> Shaped() && history == old(history) + [e] && textPtr == old(textPtr) + 1 && Kept() && Noted()
    {
      ghost var before, h := Mem(), history;
      AsksMore(h, e);
      ok := StoreItems(items);
      if ok {
        assert defsSeen == AsksForDefs(h + [e]);
        ok := EndText(e, before);
      }
    }

    /** A macro definition: a text without chain. */
    method AddMacro(items: seq<Item>) returns (ok: bool)
      requires Valid() && Noted() && Scanned(Macro(items), equiv.Length)
      modifies this, tokMem, starts, links
      ensures ok <==> old(textPtr) < MAX_TEXTS && old(tokPtr) + |EncodeAll(items)| <= tokMem.Length
      ensures ok ==> Valid() && Noted() && history == old(history) + [Macro(items)]
    {
      ok := AddText(items, Macro(items));
      if ok {
        ChainMacro(old(history), Macro(items));
      }
    }

    method ChainMacro(ghost h: seq<Entry>, ghost e: Entry)
      requires Shaped() && Chained(h) && e.Macro? && textPtr == |h| + 2
      modifies links
      ensures Chained(h + [e])
    {
      ghost var was := links[..textPtr-1];
      links[textPtr-1] := 0;
      AppendMacro(h, e);
      AppendHead(h, e, equiv.Length);
      NextAfterAppend(h, e, 0, lastUnnamed + 1);
      assert links[..textPtr] == was + [0];
    }

    /** A C text: it begins with the number of its section and goes to the end of the
        chain of its name. */
    method AddPart(p: nat, section: nat, body: seq<Item>) returns (ok: bool)
      requires Valid() && Noted() && Scanned(Part(p, section, body), equiv.Length)
      modifies this, tokMem, starts, links, equiv
      ensures var e := Part(p, section, body);
              && (ok <==> old(textPtr) < MAX_TEXTS && old(tokPtr) + |EncodeAll(TextOf(e))| <= tokMem.Length)
              && (ok ==> Valid() && Noted() && history == old(history) + [e])
    {
      ghost var h, e := history, Part(p, section, body);
      ok := AddText([Number(section)] + body, e);
      if ok {
        ChainPart(p, h, e);
      }
    }

    /** Put the newest text at the end of the chain of its name. */
    method ChainPart(p: nat, ghost h: seq<Entry>, ghost e: Entry)
      requires Shaped() && Chained(h) && e.Defines(p) && p < equiv.Length && textPtr == |h| + 2
      modifies this`lastUnnamed, links, equiv
      ensures Chained(h + [e])
    {
      if p == 0 {
        ChainUnnamed(h, e);
      } else if equiv[p] == 0 {
        ChainFirst(p, h, e);
      } else {
        ChainLast(p, h, e);
      }
    }

    method ChainUnnamed(ghost h: seq<Entry>, ghost e: Entry)
      requires Shaped() && Chained(h) && e.Defines(0) && textPtr == |h| + 2
      modifies this`lastUnnamed, links
      ensures Chained(h + [e])
    {
      ghost var was := links[..textPtr-1];
      var cur := textPtr - 1;
      AppendHead(h, e, equiv.Length);
      LastSpot(h, e, lastUnnamed);
      ghost var q := lastUnnamed;
      links[lastUnnamed] := cur;
      lastUnnamed := cur;
      links[cur] := SECTION_FLAG;
      assert links[..cur+1] == was[q := cur] + [SECTION_FLAG];
    }

    method ChainFirst(p: nat, ghost h: seq<Entry>, ghost e: Entry)
      requires Shaped() && Chained(h) && e.Defines(p) && 0 < p < equiv.Length && textPtr == |h| + 2 && equiv[p] == 0
      modifies links, equiv
      ensures Chained(h + [e])
    {
      ghost var was, heads := links[..textPtr-1], equiv[..];
      var cur := textPtr - 1;
      assert heads[p] == Head(h, p);
      AppendFirst(h, e);
      AppendHead(h, e, equiv.Length);
      NextAfterAppend(h, e, 0, lastUnnamed + 1);
      equiv[p] := cur;
      links[cur] := SECTION_FLAG;
      assert links[..cur+1] == was + [SECTION_FLAG];
      assert equiv[..] == heads[p := cur];
    }

    method ChainLast(p: nat, ghost h: seq<Entry>, ghost e: Entry)
      requires Shaped() && Chained(h) && e.Defines(p) && 0 < p < equiv.Length && textPtr == |h| + 2 && equiv[p] > 0
      modifies links
      ensures Chained(h + [e])
    {
      ghost var was := links[..textPtr-1];
      var cur := textPtr - 1;
      assert equiv[..][p] == Head(h, p);
      AppendHead(h, e, equiv.Length);
      NextAfterAppend(h, e, 0, lastUnnamed + 1);
      var q := FindLast(p, h);
      LastSpot(h, e, q);
      links[q] := cur;
      links[cur] := SECTION_FLAG;
      assert links[..cur+1] == was[q := cur] + [SECTION_FLAG];
    }

    /** The walk to the last text of a chain. */
    method FindLast(p: nat, ghost h: seq<Entry>) returns (q: nat)
      requires Chained(h) && 0 < p < equiv.Length && equiv[p] == Head(h, p) > 0
      ensures 0 < q && Last(h, p, q)
    {
      q := equiv[p];
      NextIsNext(h, p, 1);
      while links[q] < SECTION_FLAG
        invariant At(h, p, q)
        decreases |h| - q
      {
        assert links[..|h|+1][q] == Next(h, p, q + 1);
        NextIsNext(h, p, q + 1);
        q := links[q];
      }
      assert links[..|h|+1][q] == Next(h, p, q + 1);
      NextIsNext(h, p, q + 1);
    }
  }

  // Text q was the last of its chain; now the new text is.
  lemma LastSpot(h: seq<Entry>, e: Entry, q: nat)
    requires |h| + 1 < MAX_TEXTS && e.Part? && Last(h, e.name, q)
    ensures LinksOf(h + [e]) == LinksOf(h)[q := |h| + 1] + [SECTION_FLAG]
    ensures Last(h + [e], e.name, |h| + 1)
  {
    AppendAtLast(h, e, q);
    assert At(h + [e], e.name, |h| + 1);
  }
}
