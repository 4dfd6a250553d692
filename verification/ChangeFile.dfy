// Change files as they are meant to be written (cweb/common.c:388-438, 443-507, 545-579).

module ChangeFile {
  import opened Basics
  import opened ChangeReader
  import opened ChangeMerge

  /** A change with what stands around it: lines of comment before @x, the three lines with
      the control codes, and blank lines behind @x. */
  datatype Written = Written(comment: seq<Line>, x: Line, blanks: nat, pattern: seq<Line>, y: Line, replacement: seq<Line>, z: Line)

  predicate Without(c: char, lines: seq<Line>) {
    forall i :: 0 <= i < |lines| ==> !Says(lines[i], c)
  }

  /** The lines to match begin with one that is not blank, and no line looks like the control
      code that ends it. */
  predicate WellWritten(w: Written) {
    && Without('x', w.comment) && Says(w.x, 'x') && Says(w.y, 'y') && Says(w.z, 'z')
    && w.pattern != [] && w.pattern[0] != [] && Without('y', w.pattern[1..]) && Without('z', w.replacement)
  }

  function Empties(n: nat): seq<Line> {
    if n == 0 then [] else [[]] + Empties(n - 1)
  }

  function WrittenLines(w: Written): seq<Line> {
    w.comment + ([w.x] + (Empties(w.blanks) + (w.pattern + ([w.y] + (w.replacement + [w.z])))))
  }

  function AllWritten(ws: seq<Written>, rest: seq<Line>): seq<Line> {
    if ws == [] then rest else WrittenLines(ws[0]) + AllWritten(ws[1..], rest)
  }

  /** The letters of control codes at the beginning of a line are read in lower case. */
  function Lowered(lines: seq<Line>): (r: seq<Line>)
    ensures |r| == |lines|
  {
    seq(|lines|, i requires 0 <= i < |lines| => Lower(lines[i]))
  }

  function BlockOf(w: Written): Block
    requires w.pattern != []
  {
    Block([w.pattern[0]] + Lowered(w.pattern[1..]), Lowered(w.replacement), true)
  }

  // ---------- reading it

  lemma {:induction false} SkipComment(comment: seq<Line>, rest: seq<Line>)
    requires Without('x', comment)
    ensures Blocks(comment + rest) == Blocks(rest)
    decreases |comment|
  {
    if comment == [] {
      assert comment + rest == rest;
    } else {
      assert (comment + rest)[0] == comment[0] && (comment + rest)[1..] == comment[1..] + rest;
      SkipComment(comment[1..], rest);
    }
  }

  lemma {:induction false} SkipEmpties(n: nat, rest: seq<Line>)
    ensures FirstBlock(Empties(n) + rest) == FirstBlock(rest)
    decreases n
  {
    if n == 0 {
      assert Empties(n) + rest == rest;
    } else {
      assert (Empties(n) + rest)[0] == [] && (Empties(n) + rest)[1..] == Empties(n - 1) + rest;
      SkipEmpties(n - 1, rest);
    }
  }

  lemma {:induction false} UpToEnd(c: char, lines: seq<Line>, end: Line, rest: seq<Line>)
    requires Without(c, lines) && Says(end, c)
    ensures UpTo(c, lines + ([end] + rest)) == Lowered(lines)
    ensures After(c, lines + ([end] + rest)) == rest && Has(c, lines + ([end] + rest))
    decreases |lines|
  {
    var all := lines + ([end] + rest);
    if lines == [] {
      assert all == [end] + rest && all[1..] == rest;
    } else {
      assert all[0] == lines[0] && all[1..] == lines[1..] + ([end] + rest);
      UpToEnd(c, lines[1..], end, rest);
      assert [Lower(lines[0])] + Lowered(lines[1..]) == Lowered(lines);
    }
  }

  lemma OneBlock(w: Written, rest: seq<Line>)
    requires WellWritten(w)
    ensures Blocks(WrittenLines(w) + rest) == [BlockOf(w)] + Blocks(rest)
  {
    var end := w.replacement + ([w.z] + rest);
    var body := w.pattern[1..] + ([w.y] + end);
    var first := [w.pattern[0]] + body;
    assert WrittenLines(w) + rest == w.comment + ([w.x] + (Empties(w.blanks) + first));
    SkipComment(w.comment, [w.x] + (Empties(w.blanks) + first));
    assert ([w.x] + (Empties(w.blanks) + first))[1..] == Empties(w.blanks) + first;
    SkipEmpties(w.blanks, first);
    assert first[0] == w.pattern[0] && first[1..] == body;
    UpToEnd('y', w.pattern[1..], w.y, end);
    UpToEnd('z', w.replacement, w.z, rest);
  }

  /** What is written is what is read, whatever the comments; behind the last change there
      may be anything that does not look like the beginning of another. */
  lemma {:induction false} WrittenIsRead(ws: seq<Written>, rest: seq<Line>)
    requires (forall i :: 0 <= i < |ws| ==> WellWritten(ws[i])) && Without('x', rest)
    ensures |Blocks(AllWritten(ws, rest))| == |ws|
    ensures forall i :: 0 <= i < |ws| ==> ws[i].pattern != [] && Blocks(AllWritten(ws, rest))[i] == BlockOf(ws[i])
    decreases |ws|
  {
    if ws == [] {
      SkipComment(rest, []);
      NothingMore(rest);
    } else {
      WrittenIsRead(ws[1..], rest);
      OneBlock(ws[0], AllWritten(ws[1..], rest));
    }
  }
}
