// How CTANGLE stores the tokens of a replacement text as bytes, and how it reads
// them back (cweb/ctangle.c:501-509, 551-588, 761-771, 1209-1283, 1439).

module TangleTokens {
  import opened Basics

  // Verbatim material stands between two equal marks: numeric constants between
  // CONSTANT, strings between STRING.
  const STRING: Byte := 2
  const CONSTANT: Byte := 3
  const NEWLINE: Byte := 10

  // Two-byte codes below NAME_LIMIT are identifiers, the next NAME_LIMIT section
  // names (the last of them asks for the macro definitions), the rest section numbers.
  const NAME_LIMIT := 10240
  const OUTPUT_DEFS := 2 * NAME_LIMIT - 1

  datatype Item =
    | Char(c: Byte)                            // a character of C text
    | Verbatim(mark: Byte, content: seq<Byte>) // a constant or a string
    | Ident(n: nat)
    | Section(n: nat)                          // use of a section name
    | Defs                                     // all macro definitions
    | Number(n: nat)                           // start of section n
    | Line(l: nat, f: nat)                     // line l of the file named f

  predicate IsMark(b: Byte) { b == STRING || b == CONSTANT }

  /** What the scanner can produce. */
  predicate Fits(i: Item) {
    match i
    case Char(c) => c < 128 && !IsMark(c)
    case Verbatim(mark, _) => IsMark(mark)
    case Ident(n) => n < NAME_LIMIT
    case Section(n) => n < NAME_LIMIT - 1
    case Defs => true
    case Number(n) => 0 < n < 128 * 256 - 2 * NAME_LIMIT
    case Line(l, f) => l < 256 * 256 && f < NAME_LIMIT
  }

  /** A string or constant without a mark inside. */
  predicate Clean(i: Item) {
    i.Verbatim? ==> forall j :: 0 <= j < |i.content| ==> !IsMark(i.content[j])
  }

  function TwoBytes(a: nat): seq<Byte>
    requires a < 128 * 256
  {
    [a / 256 + 128, a % 256]
  }

  function Encode(i: Item): (bytes: seq<Byte>)
    requires Fits(i)
    ensures |bytes| > 0
  {
    match i
    case Char(c) => [c]
    case Verbatim(mark, content) => [mark] + content + [mark]
    case Ident(n) => TwoBytes(n)
    case Section(n) => TwoBytes(n + NAME_LIMIT)
    case Defs => TwoBytes(OUTPUT_DEFS)
    case Number(n) => TwoBytes(n + 2 * NAME_LIMIT)
    case Line(l, f) => TwoBytes(2 * NAME_LIMIT) + [l / 256, l % 256] + TwoBytes(f)
  }

  ghost predicate AllFit(items: seq<Item>) {
    forall i :: 0 <= i < |items| ==> Fits(items[i])
  }

  ghost predicate AllClean(items: seq<Item>) {
    forall i :: 0 <= i < |items| ==> Clean(items[i])
  }

  function EncodeAll(items: seq<Item>): seq<Byte>
    requires forall i :: 0 <= i < |items| ==> Fits(items[i])
  {
    if items == [] then [] else Encode(items[0]) + EncodeAll(items[1..])
  }

  // ---------- reading back

  /** The place of the first mark from `i` on, or the end. */
  function MarkFrom(bytes: seq<Byte>, i: nat): (k: nat)
    requires i <= |bytes|
    ensures i <= k <= |bytes| && (k < |bytes| ==> IsMark(bytes[k]))
    ensures forall j :: i <= j < k ==> !IsMark(bytes[j])
    decreases |bytes| - i
  {
    if i == |bytes| || IsMark(bytes[i]) then i else MarkFrom(bytes, i + 1)
  }

  function Word(hi: Byte, lo: Byte): int {
    (hi - 128) * 256 + lo
  }

  /** The first item and the number of bytes it takes: outside verbatim material a byte
      from 128 on starts a two-byte code, inside it every byte up to a mark counts. */
  function DecodeOne(bytes: seq<Byte>): Option<(Item, nat)>
    requires bytes != []
  {
    var a := bytes[0];
    if IsMark(a) then
      var k := MarkFrom(bytes, 1);
      if k == |bytes| then None else Some((Verbatim(a, bytes[1..k]), k + 1))
    else if a < 128 then Some((Char(a), 1))
    else if |bytes| < 2 then None
    else
      var v := Word(a, bytes[1]);
      if v < NAME_LIMIT then Some((Ident(v), 2))
      else if v == OUTPUT_DEFS then Some((Defs, 2))
      else if v < 2 * NAME_LIMIT then Some((Section(v - NAME_LIMIT), 2))
      else if v > 2 * NAME_LIMIT then Some((Number(v - 2 * NAME_LIMIT), 2))
      else if |bytes| < 6 || bytes[4] < 128 then None
      else Some((Line(bytes[2] as int * 256 + bytes[3] as int, Word(bytes[4], bytes[5])), 6))
  }

  function Decode(bytes: seq<Byte>): Option<seq<Item>> {
    if bytes == [] then Some([])
    else
      match DecodeOne(bytes)
      case None => None
      case Some(first) =>
        if first.1 == 0 || first.1 > |bytes| then None
        else
          match Decode(bytes[first.1..])
          case None => None
          case Some(rest) => Some([first.0] + rest)
  }

  // ---------- the round trip

  lemma WordOfTwoBytes(a: nat)
    requires a < 128 * 256
    ensures var w := TwoBytes(a); 128 <= w[0] && Word(w[0], w[1]) == a
  {
  }

  // Reading a clean item, whatever follows it.
  lemma DecodeClean(i: Item, rest: seq<Byte>)
    requires Fits(i) && Clean(i)
    ensures DecodeOne(Encode(i) + rest) == Some((i, |Encode(i)|))
  {
    var bytes := Encode(i) + rest;
    match i {
      case Char(c) =>
      case Verbatim(mark, content) =>
        assert forall j :: 0 <= j < |content| ==> bytes[1 + j] == content[j];
        assert bytes[1 + |content|] == mark;
        var k := MarkFrom(bytes, 1);
        assert k == |content| + 1;
        assert bytes[1..k] == content;
      case Ident(n) => WordOfTwoBytes(n);
      case Section(n) => WordOfTwoBytes(n + NAME_LIMIT);
      case Defs => WordOfTwoBytes(OUTPUT_DEFS);
      case Number(n) => WordOfTwoBytes(n + 2 * NAME_LIMIT);
      case Line(l, f) =>
        WordOfTwoBytes(2 * NAME_LIMIT);
        WordOfTwoBytes(f);
        assert bytes[4] == TwoBytes(f)[0] && bytes[5] == TwoBytes(f)[1];
    }
  }

  // Reading an item with a mark inside: it ends too early.
  lemma DecodeUnclean(i: Item, rest: seq<Byte>)
    requires Fits(i) && !Clean(i)
    ensures var r := DecodeOne(Encode(i) + rest); r.Some? && r.value.0 != i
  {
    var bytes := Encode(i) + rest;
    var j :| 0 <= j < |i.content| && IsMark(i.content[j]);
    assert bytes[1 + j] == i.content[j];
    var k := MarkFrom(bytes, 1);
    assert k <= 1 + j;
    assert |bytes[1..k]| < |i.content|;
  }

  /** The decoder recovers exactly what the encoders wrote if and only if no string or
      constant has a mark inside. */
  lemma {:induction false} RoundTrip(items: seq<Item>)
    requires AllFit(items)
    ensures Decode(EncodeAll(items)) == Some(items) <==> AllClean(items)
  {
    if items != [] {
      var first, rest := items[0], items[1..];
      var tail := EncodeAll(rest);
      var bytes := Encode(first) + tail;
      RoundTrip(rest);
      if Clean(first) {
        DecodeClean(first, tail);
        assert bytes[|Encode(first)|..] == tail;
        assert AllClean(items) <==> AllClean(rest);
        assert items == [first] + rest;
        if Decode(bytes) == Some(items) {
          assert Decode(tail).Some? && [first] + Decode(tail).value == items;
          assert Decode(tail).value == ([first] + Decode(tail).value)[1..];
        }
      } else {
        DecodeUnclean(first, tail);
      }
    }
  }
}
