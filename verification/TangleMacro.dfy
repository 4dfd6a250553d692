// Reading a macro's text to its end (cweb/ctangle.c:687-715).

module TangleMacro {
  import opened Basics
  import opened TangleTokens
  import opened TangleExpansion
  import opened TangleDefs

  /** What is left to write of a macro's text: the rest of the string or constant that
      is being read, if any, and the items after it. */
  datatype Left = Left(inside: bool, mark: Byte, content: seq<Byte>, rest: seq<Item>) {

    ghost predicate Fine() {
      && AllFit(rest) && AllClean(rest)
      && (forall i :: 0 <= i < |rest| ==> rest[i].Char? || rest[i].Verbatim? || rest[i].Ident?)
      && (inside ==> IsMark(mark) && forall j :: 0 <= j < |content| ==> !IsMark(content[j]))
    }

    function Bytes(): seq<Byte> requires AllFit(rest) {
      (if inside then content + [mark] else []) + EncodeAll(rest)
    }

    function Events(): seq<Event> {
      (if inside then ContentEvents(content) + [Out(mark)] else []) + MacroEvents(rest)
    }

    /** After the first byte or two-byte code. */
    function Tail(): Left {
      if inside then
        if content == [] then Left(false, mark, [], rest) else Left(true, mark, content[1..], rest)
      else if rest != [] && rest[0].Verbatim? then Left(true, rest[0].mark, rest[0].content, rest[1..])
      else if rest != [] then Left(false, mark, [], rest[1..])
      else this
    }
  }

  // The next byte of what is left, and what it stands for.
  lemma LeftInside(l: Left)
    requires l.Fine() && l.inside
    ensures l.Tail().Fine() && l.Bytes() == [l.Bytes()[0]] + l.Tail().Bytes()
    ensures l.Bytes()[0] == if l.content == [] then l.mark else l.content[0]
    ensures l.Events() == [if l.content == [] then Out(l.mark) else ContentEvent(l.content[0])] + l.Tail().Events()
  {
    if l.content != [] {
      assert l.content == [l.content[0]] + l.content[1..];
    }
  }

  // The next token, outside strings and constants.
  lemma LeftOutside(l: Left)
    requires l.Fine() && !l.inside && l.rest != [] && l.rest != [Char(NEWLINE)]
    ensures l.Tail().Fine()
    ensures var bytes, events := l.Tail().Bytes(), l.Tail().Events();
            match l.rest[0]
            case Char(c) => !IsMark(c) && c < 128 && l.Bytes() == [c] + bytes && l.Events() == [Out(c)] + events
            case Verbatim(mark, _) => IsMark(mark) && l.Bytes() == [mark] + bytes && l.Events() == [Out(mark)] + events
            case Ident(n) => n < NAME_LIMIT && l.Bytes() == TwoBytes(n) + bytes && l.Events() == [Name(n)] + events
            case _ => false
  {
    var i, rest := l.rest[0], l.rest[1..];
    assert Fits(i) && Clean(i);
    var code, events := EncodeAll(rest), MacroEvents(rest);
    LeftFirst(l, i, rest, code, events);
    if i.Verbatim? {
      LeftVerbatim(l.Tail(), i, code, events);
    } else {
      assert [] + code == code && [] + events == events;
    }
  }

  lemma LeftFirst(l: Left, i: Item, rest: seq<Item>, code: seq<Byte>, events: seq<Event>)
    requires l.Fine() && !l.inside && l.rest != [] && l.rest != [Char(NEWLINE)] && i == l.rest[0] && rest == l.rest[1..]
    requires code == EncodeAll(rest) && events == MacroEvents(rest)
    ensures l.Bytes() == Encode(i) + code && l.Events() == ItemEvents(i) + events
  {
    var bytes, all := EncodeAll(l.rest), MacroEvents(l.rest);
    assert bytes == Encode(i) + code && all == ItemEvents(i) + events;
    assert [] + bytes == bytes && [] + all == all;
  }

  lemma LeftVerbatim(after: Left, i: Item, code: seq<Byte>, events: seq<Event>)
    requires i.Verbatim? && AllFit(after.rest) && after.inside && after.mark == i.mark && after.content == i.content
    requires Fits(i) && code == EncodeAll(after.rest) && events == MacroEvents(after.rest)
    ensures Encode(i) + code == [i.mark] + after.Bytes() && ItemEvents(i) + events == [Out(i.mark)] + after.Events()
  {
    var mark, content := [i.mark], i.content;
    assert mark + content + mark + code == mark + (content + mark + code);
    var out := ContentEvents(content);
    assert [Out(i.mark)] + out + [Out(i.mark)] + events == [Out(i.mark)] + (out + [Out(i.mark)] + events);
  }

  // Where in memory the rest is.
  ghost predicate LeftAt(mem: seq<Byte>, b: nat, e: nat, l: Left) {
    l.Fine() && b <= e <= |mem| && mem[b..e] == l.Bytes()
  }

  lemma LeftBytes(mem: seq<Byte>, b: nat, e: nat, l: Left, first: seq<Byte>, rest: seq<Byte>)
    requires LeftAt(mem, b, e, l) && l.Bytes() == first + rest && 0 < |first| <= 2
    ensures b + |first| <= e && mem[b] == first[0] && (|first| == 2 ==> mem[b+1] == first[1]) && mem[b+|first|..e] == rest
  {
    SliceSplit(mem, b, e, first, rest);
    assert mem[b + 0] == first[0];
  }

  /** One token of a macro from byte b on: where the next one is, whether it is inside a
      string or constant, and what comes out. */
  function MacroStep(mem: seq<Byte>, b: nat, verbatim: bool): (nat, bool, Event)
    requires b + 1 < |mem| || (b < |mem| && (verbatim || mem[b] < 128))
  {
    var a := mem[b];
    if verbatim && !IsMark(a) && a != NEWLINE then (b + 1, verbatim, Raw(a))
    else if a < 128 then (b + 1, if IsMark(a) then !verbatim else verbatim, Out(a))
    else
      var v := if b + 1 < |mem| then Word(a, mem[b+1]) else 0;
      (b + 2, verbatim, Name(if v < 0 then 0 else v))
  }

  lemma OutsideEvents(l: Left)
    requires !l.inside
    ensures l.Events() == MacroEvents(l.rest)
  {
    assert [] + MacroEvents(l.rest) == MacroEvents(l.rest);
  }

  lemma DefinitionSum(base: seq<Event>, items: seq<Item>, rest: seq<Event>)
    ensures base + [DefStart] + MacroEvents(items) + [DefEnd] + rest == base + ([DefStart] + MacroEvents(items) + [DefEnd] + rest)
  {
  }

  // Reading a macro's next token goes on to what is left after it.
  ghost predicate Reads(mem: seq<Byte>, b: nat, e: nat, l: Left) {
    && b < e <= |mem| && (b + 1 < e || l.inside || mem[b] < 128)
    && var r := MacroStep(mem, b, l.inside);
       LeftAt(mem, r.0, e, l.Tail()) && l.Tail().inside == r.1 && l.Events() == [r.2] + l.Tail().Events() && b < r.0 <= e
  }

  lemma NextToken(mem: seq<Byte>, b: nat, e: nat, l: Left)
    requires LeftAt(mem, b, e, l) && b < e && (b + 1 < e || mem[b] != NEWLINE)
    ensures Reads(mem, b, e, l)
  {
    if l.inside {
      LeftInside(l);
      LeftBytes(mem, b, e, l, [l.Bytes()[0]], l.Tail().Bytes());
    } else {
      LeftShort(l);
      assert mem[b..e][0] == mem[b] && |mem[b..e]| == e - b;
      LeftOutside(l);
      match l.rest[0] {
        case Char(c) => LeftBytes(mem, b, e, l, [c], l.Tail().Bytes());
        case Verbatim(mark, _) => LeftBytes(mem, b, e, l, [mark], l.Tail().Bytes());
        case Ident(n) =>
          LeftBytes(mem, b, e, l, TwoBytes(n), l.Tail().Bytes());
          WordOfTwoBytes(n);
        case _ =>
      }
    }
  }

  lemma ShortItem(i: Item)
    requires Fits(i)
    ensures Encode(i) == [NEWLINE] ==> i == Char(NEWLINE)
  {
    if !i.Char? {
      assert |Encode(i)| >= 2;
    }
  }

  lemma EncodeShort(items: seq<Item>)
    requires AllFit(items)
    ensures EncodeAll(items) == [] ==> items == []
    ensures EncodeAll(items) == [NEWLINE] ==> items == [Char(NEWLINE)]
  {
    if items != [] {
      var first, rest := Encode(items[0]), EncodeAll(items[1..]);
      assert EncodeAll(items) == first + rest;
      if |items| > 1 {
        assert |rest| >= |Encode(items[1])| > 0;
      } else {
        assert items == [items[0]] && rest == [] && first + rest == first;
        ShortItem(items[0]);
      }
    }
  }

  lemma LeftShort(l: Left)
    requires l.Fine()
    ensures l.Bytes() == [] ==> !l.inside && l.rest == []
    ensures l.Bytes() == [NEWLINE] <==> !l.inside && l.rest == [Char(NEWLINE)]
  {
    EncodeShort(l.rest);
    var code := EncodeAll(l.rest);
    if l.inside {
      var bytes := l.content + [l.mark] + code;
      assert l.Bytes() == bytes && bytes[|l.content|] == l.mark;
      assert |bytes| == 1 ==> |l.content| == 0;
    } else {
      assert l.Bytes() == code;
      if l.rest == [Char(NEWLINE)] {
        assert l.rest[1..] == [] && code == Encode(l.rest[0]) + EncodeAll(l.rest[1..]);
      }
    }
  }

  lemma LastNewline(mem: seq<Byte>, b: nat, e: nat, l: Left)
    requires LeftAt(mem, b, e, l) && b + 1 == e && mem[b] == NEWLINE
    ensures !l.inside && l.Events() == []
  {
    assert mem[b..e] == [NEWLINE];
    LeftShort(l);
  }

  lemma NothingLeft(mem: seq<Byte>, b: nat, e: nat, l: Left)
    requires LeftAt(mem, b, e, l) && b == e
    ensures !l.inside && l.Events() == []
  {
    LeftShort(l);
  }
}
