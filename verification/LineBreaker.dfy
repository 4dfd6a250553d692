// CWEAVE's output buffer: lines of at most 80 characters
// (cweb/cweave.c:183, 538-540, 803-807, 1698-1775).

module LineBreaker {
  import opened Basics

  type Text = seq<char>

  const LINE_LENGTH := 80

  // ---------- one line

  function TrimmedLength(s: Text): (n: nat)
    ensures n <= |s|
  {
    if s == [] || s[|s|-1] != ' ' then |s| else TrimmedLength(s[..|s|-1])
  }

  /** There is a comment character that no backslash precedes. */
  predicate HasComment(s: Text) {
    s != [] && ((s[|s|-1] == '%' && (|s| == 1 || s[|s|-2] != '\\')) || HasComment(s[..|s|-1]))
  }

  /** What one line takes from the buffer: its text, the blanks dropped after it, whether
      % is put at its end, and whether the next line continues a comment. */
  datatype Piece = Piece(text: Text, blanks: nat, mark: bool, comment: bool)

  function Written(p: Piece): Text {
    p.text + if p.mark then "%" else ""
  }

  function Blanks(n: nat): Text { seq(n, _ => ' ') }

  function Taken(p: Piece): Text { p.text + Blanks(p.blanks) }

  /** `flush_buffer`: the line, and what remains in the buffer. */
  function Flush(b: Text, n: nat, mark: bool, carryover: bool): (Piece, Text)
    requires n <= |b|
  {
    var j := if mark then n else TrimmedLength(b[..n]);
    var comment := carryover && HasComment(b[..j]);
    (Piece(b[..j], n - j, mark, comment), (if comment then "%" else "") + b[n..])
  }

  // ---------- where to break

  datatype Break = AtBlank(k: nat) | AtBackslash(k: nat) | Forced

  /** The last blank, or the last backslash that another does not precede, among the first
      k characters. */
  function FindBreak(b: Text, k: nat): Break
    requires k <= |b|
  {
    if k == 0 then Forced
    else if b[k-1] == ' ' then AtBlank(k)
    else if b[k-1] == '\\' && k > 1 && b[k-2] != '\\' then AtBackslash(k)
    else FindBreak(b, k - 1)
  }

  lemma {:induction false} BreakMeans(b: Text, k: nat)
    requires k <= |b|
    ensures match FindBreak(b, k)
            case AtBlank(n) => 0 < n <= k && b[n-1] == ' '
            case AtBackslash(n) => 1 < n <= k && b[n-1] == '\\' && b[n-2] != '\\'
            case Forced => forall i :: 0 <= i < k ==> b[i] != ' '
  {
    if k > 0 {
      BreakMeans(b, k - 1);
    }
  }

  /** A line can be broken at a blank, or before a backslash that another does not precede. */
  predicate Place(b: Text, i: nat)
    requires i < |b|
  {
    b[i] == ' ' || (b[i] == '\\' && i > 0 && b[i-1] != '\\')
  }

  /** It is broken at the last place, or, if there is none, before the last character. */
  lemma {:induction false} BreakIsLast(b: Text, k: nat)
    requires k <= |b|
    ensures match FindBreak(b, k)
            case AtBlank(n) => 0 < n <= k && b[n-1] == ' ' && forall i :: n <= i < k ==> !Place(b, i)
            case AtBackslash(n) => 0 < n <= k && b[n-1] == '\\' && Place(b, n - 1) && forall i :: n <= i < k ==> !Place(b, i)
            case Forced => forall i :: 0 <= i < k ==> !Place(b, i)
  {
    if k > 0 {
      BreakIsLast(b, k - 1);
    }
  }

  /** `break_out` */
  function BreakOut(b: Text): (Piece, Text)
    requires b != []
  {
    BreakMeans(b, |b|);
    match FindBreak(b, |b|)
    case AtBlank(k) => Flush(b, k, false, true)
    case AtBackslash(k) => Flush(b, k - 1, true, true)
    case Forced => Flush(b, |b| - 1, true, true)
  }

  /** The one case in which breaking gains nothing: the line would be a lone %, which is
      carried over. */
  predicate Stuck(b: Text) {
    b != [] && b[0] == '%' && FindBreak(b, |b|) == AtBackslash(2)
  }

  lemma {:induction false} TrimmedMeans(s: Text)
    ensures s == s[..TrimmedLength(s)] + Blanks(|s| - TrimmedLength(s))
    ensures s != [] && s[|s|-1] == ' ' ==> TrimmedLength(s) < |s|
    decreases |s|
  {
    if s != [] && s[|s|-1] == ' ' {
      var t := s[..|s|-1];
      TrimmedMeans(t);
      var n := TrimmedLength(t);
      BlanksMore(|t| - n);
      assert s == t + [' '] && s[..n] == t[..n];
      Regroup(s[..n], Blanks(|t| - n), [' ']);
    } else {
      BlanksMore(0);
      NothingMore(s);
    }
  }

  lemma BlanksMore(n: nat)
    ensures Blanks(n + 1) == Blanks(n) + [' '] && Blanks(0) == []
  {
  }

  /** Breaking shortens the buffer if and only if it is not stuck. */
  lemma BreakShortens(b: Text)
    requires |b| > 2
    ensures |BreakOut(b).1| < |b| <==> !Stuck(b)
  {
    BreakMeans(b, |b|);
    match FindBreak(b, |b|) {
      case AtBlank(k) =>
        BlankShortens(b, k);
      case AtBackslash(k) =>
        MarkShortens(b, k - 1);
      case Forced =>
        MarkShortens(b, |b| - 1);
    }
  }

  lemma BlankShortens(b: Text, k: nat)
    requires 0 < k <= |b| && b[k-1] == ' '
    ensures |Flush(b, k, false, true).1| < |b|
  {
    TrimmedMeans(b[..k]);
    if k == 1 {
      assert b[..TrimmedLength(b[..1])] == [];
    }
  }

  lemma MarkShortens(b: Text, n: nat)
    requires 0 < n < |b|
    ensures |Flush(b, n, true, true).1| < |b| <==> !(n == 1 && b[0] == '%')
  {
    CommentAlone(b);
  }

  /** A stuck buffer: a comment character, a backslash, and no other place to break. */
  lemma {:induction false} StuckLine(b: Text, k: nat)
    requires 2 <= k <= |b| && b[0] == '%' && b[1] == '\\'
    requires forall i :: 2 <= i < |b| ==> b[i] != ' ' && b[i] != '\\'
    ensures FindBreak(b, k) == AtBackslash(2)
    ensures k == |b| ==> Stuck(b)
    decreases k
  {
    if k > 2 {
      StuckLine(b, k - 1);
    }
  }

  /** Breaking a stuck buffer writes a lone comment character and changes nothing. */
  lemma StuckStays(b: Text)
    requires Stuck(b)
    ensures |b| >= 2 && BreakOut(b) == (Piece("%", 0, true, true), b)
  {
    BreakMeans(b, |b|);
    CommentAlone(b);
    assert b[..1] == "%" && "%" + b[1..] == b;
  }

  lemma CommentAlone(b: Text)
    ensures |b| > 0 ==> (HasComment(b[..1]) <==> b[0] == '%')
    ensures !HasComment(b[..0])
  {
    if |b| > 0 {
      assert b[..1][..0] == [];
    }
  }

  lemma {:induction false} NoComment(s: Text)
    requires '%' !in s
    ensures !HasComment(s)
    decreases |s|
  {
    if s != [] {
      NoComment(s[..|s|-1]);
    }
  }

  lemma NeverStuck(b: Text)
    requires '%' !in b
    ensures !Stuck(b)
  {
  }

  /** Lines fit; without comments nothing but the blanks at the end of a line is lost, and
      only a forced break can come after a backslash. */
  lemma BreakOutKeeps(b: Text)
    requires 0 < |b| <= LINE_LENGTH
    ensures |Written(BreakOut(b).0)| <= LINE_LENGTH
    ensures '%' !in b ==> b == Taken(BreakOut(b).0) + BreakOut(b).1 && !BreakOut(b).0.comment
    ensures var t := Taken(BreakOut(b).0); !FindBreak(b, |b|).Forced? ==> t != [] && t[|t|-1] != '\\'
  {
    BreakMeans(b, |b|);
    match FindBreak(b, |b|) {
      case AtBlank(k) =>
        FlushKeeps(b, k, false);
        TrimmedMeans(b[..k]);
      case AtBackslash(k) =>
        FlushKeeps(b, k - 1, true);
      case Forced =>
        FlushKeeps(b, |b| - 1, true);
    }
  }

  lemma FlushKeeps(b: Text, n: nat, mark: bool)
    requires n <= |b|
    ensures var (p, rest) := Flush(b, n, mark, true); Taken(p) == b[..n] && ('%' !in b ==> b == Taken(p) + rest && !p.comment)
  {
    var (p, rest) := Flush(b, n, mark, true);
    TrimmedMeans(b[..n]);
    assert p.text + Blanks(0) == p.text;
    assert b[..n][..TrimmedLength(b[..n])] == b[..TrimmedLength(b[..n])];
    if '%' !in b {
      NoComment(p.text);
      assert "" + b[n..] == b[n..];
      assert b == b[..n] + b[n..];
    }
  }

  lemma {:induction false} TrimmedExactly(s: Text)
    ensures var n := TrimmedLength(s); (n > 0 ==> s[n-1] != ' ') && forall i :: n <= i < |s| ==> s[i] == ' '
    decreases |s|
  {
    if s != [] && s[|s|-1] == ' ' {
      var t := s[..|s|-1];
      TrimmedExactly(t);
      assert forall i :: 0 <= i < |t| ==> s[i] == t[i];
    }
  }

  /** Nothing but blanks is between the backslash before place j and place k. */
  predicate BlanksAfterBackslash(b: Text, j: nat, k: nat) {
    0 < j < k <= |b| && b[j-1] == '\\' && forall i :: j <= i < k ==> b[i] == ' '
  }

  predicate EndsInBackslash(line: Text) { line != "" && line[|line|-1] == '\\' }

  /** A line that is broken at a blank ends with a backslash exactly if nothing but blanks
      is between a backslash and the break: the first of them, which the backslash was to
      make a visible blank, is dropped with the others. */
  lemma BlankIsLost(b: Text, k: nat)
    requires b != [] && FindBreak(b, |b|) == AtBlank(k) && k <= |b|
    ensures EndsInBackslash(Written(BreakOut(b).0)) <==> exists j: nat :: BlanksAfterBackslash(b, j, k)
  {
    var t := b[..k];
    var n := TrimmedLength(t);
    BreakMeans(b, |b|);
    TrimmedExactly(t);
    assert Written(BreakOut(b).0) == b[..n];
    assert n < k by { assert t[k-1] == ' '; }
    assert forall i :: n <= i < k ==> b[i] == t[i];
    if n > 0 && b[n-1] == '\\' {
      assert BlanksAfterBackslash(b, n, k);
    }
    forall j: nat | BlanksAfterBackslash(b, j, k)
      ensures j == n
    {
      assert t[j-1] == b[j-1];
      assert n > 0 ==> t[n-1] == b[n-1];
    }
  }

  /** For example, a backslash and a blank as the only place to break. */
  lemma BlankExample(b: Text)
    requires b == "a\\ b"
    ensures BreakOut(b) == (Piece("a\\", 1, false, false), "b")
  {
    assert FindBreak(b, 4) == FindBreak(b, 3) == AtBlank(3);
    var t := b[..3];
    assert t[..2] == b[..2] == "a\\" && TrimmedLength(t) == TrimmedLength(t[..2]) == 2;
    NoComment(b[..2]);
    assert "" + b[3..] == "b";
  }

  // ---------- a whole stream

  /** The lines written so far and the buffer. */
  datatype Writer = Writer(pieces: seq<Piece>, buffer: Text)

  /** The line is the text without the blanks at its end. */
  predicate WithoutBlanks(s: Text, line: Text) {
    line <= s && (line != "" ==> line[|line|-1] != ' ') && forall i :: |line| <= i < |s| ==> s[i] == ' '
  }

  /** At the end of a line of the input the buffer is written without blanks at its end, and
      a comment is over. */
  lemma FinishFlushes(b: Text)
    ensures var (p, rest) := Flush(b, |b|, false, false);
            && rest == "" && !p.comment && Written(p) + Blanks(p.blanks) == b && (Written(p) != "" ==> Written(p)[|Written(p)|-1] != ' ')
  {
    assert b[..|b|] == b && b[|b|..] == "";
    TrimmedMeans(b);
    TrimmedExactly(b);
    NothingMore(b[..TrimmedLength(b)]);
  }

  /** The macro `out` */
  function Out(w: Writer, c: char): Writer {
    if |w.buffer| >= LINE_LENGTH then
      var (p, rest) := BreakOut(w.buffer);
      Writer(w.pieces + [p], rest + [c])
    else w.(buffer := w.buffer + [c])
  }

  function OutAll(w: Writer, s: Text): Writer
    decreases |s|
  {
    if s == [] then w else OutAll(Out(w, s[0]), s[1..])
  }

  function Rejoined(pieces: seq<Piece>): Text {
    if pieces == [] then "" else Rejoined(pieces[..|pieces|-1]) + Taken(pieces[|pieces|-1])
  }

  /** Everything written so far is in the lines, but for blanks at their ends, and in the
      buffer, and every line fits. */
  ghost predicate Faithful(w: Writer, stream: Text) {
    && Rejoined(w.pieces) + w.buffer == stream && |w.buffer| <= LINE_LENGTH && '%' !in stream
    && forall i :: 0 <= i < |w.pieces| ==> |Written(w.pieces[i])| <= LINE_LENGTH && !w.pieces[i].comment
  }

  lemma OutKeeps(w: Writer, stream: Text, c: char)
    requires Faithful(w, stream) && c != '%'
    ensures Faithful(Out(w, c), stream + [c])
  {
    var b := w.buffer;
    assert forall x :: x in b ==> x in Rejoined(w.pieces) + b;
    if |b| >= LINE_LENGTH {
      var (p, rest) := BreakOut(b);
      BreakOutKeeps(b);
      NeverStuck(b);
      BreakShortens(b);
      FaithfulMore(w, stream, p, rest, c);
    } else {
      assert Rejoined(w.pieces) + (b + [c]) == Rejoined(w.pieces) + b + [c];
    }
  }

  lemma FaithfulMore(w: Writer, stream: Text, p: Piece, rest: Text, c: char)
    requires Faithful(w, stream) && c != '%' && w.buffer == Taken(p) + rest && |rest| < |w.buffer|
    requires |Written(p)| <= LINE_LENGTH && !p.comment
    ensures Faithful(Writer(w.pieces + [p], rest + [c]), stream + [c])
  {
    PieceMore(w.pieces, p, w.buffer, rest, c);
  }

  lemma PieceMore(pieces: seq<Piece>, p: Piece, b: Text, rest: Text, c: char)
    requires b == Taken(p) + rest
    ensures Rejoined(pieces + [p]) + (rest + [c]) == Rejoined(pieces) + b + [c]
  {
    assert (pieces + [p])[..|pieces|] == pieces;
    Regroup(Rejoined(pieces), Taken(p), rest);
    Regroup(Rejoined(pieces) + Taken(p), rest, [c]);
  }

  /** Any stream without % comes out whole, in lines of at most 80 characters. */
  lemma {:induction false} OutAllKeeps(w: Writer, stream: Text, s: Text)
    requires Faithful(w, stream) && '%' !in s
    ensures Faithful(OutAll(w, s), stream + s)
    decreases |s|
  {
    if s == [] {
      assert stream + s == stream;
    } else {
      OutKeeps(w, stream, s[0]);
      OutAllKeeps(Out(w, s[0]), stream + [s[0]], s[1..]);
      assert stream + [s[0]] + s[1..] == stream + s;
    }
  }

  // ---------- in place

  lemma FrontOf(s: Text, j: nat)
    requires 0 < j <= |s|
    ensures s[..j][..j-1] == s[..j-1] && s[..j][j-1] == s[j-1]
  {
  }

  class Buffer {
    const outBuf: array<char>
    var outPtr: nat
    ghost var pieces: seq<Piece>
    var written: seq<Text>

    /** out_buf[0] is a backslash, for the test of the character before. */
    ghost predicate Valid() reads this, outBuf {
      outBuf.Length == LINE_LENGTH + 1 && outPtr <= LINE_LENGTH && outBuf[0] == '\\'
      && |written| == |pieces| && forall i :: 0 <= i < |pieces| ==> written[i] == Written(pieces[i])
    }

    function View(): Text reads this, outBuf requires outPtr < outBuf.Length { outBuf[1..outPtr+1] }

    constructor ()
      ensures Valid() && View() == "" && pieces == []
    {
      outBuf := new char[LINE_LENGTH + 1](_ => '\\');
      outPtr, pieces, written := 0, [], [];
    }

    /** `flush_buffer` */
    method FlushBuffer(b: nat, mark: bool, carryover: bool)
      requires Valid() && b <= outPtr
      modifies this, outBuf
      ensures Valid()
      ensures var (p, rest) := Flush(old(View()), b, mark, carryover); pieces == old(pieces) + [p] && View() == rest
    {
      var comment := PutLine(b, mark, carryover);
      KeepRest(b, comment);
    }

    /** The first half of `flush_buffer`. */
    method PutLine(b: nat, mark: bool, carryover: bool) returns (comment: bool)
      requires Valid() && b <= outPtr
      modifies this`written, this`pieces
      ensures var p := Flush(View(), b, mark, carryover).0;
              Valid() && pieces == old(pieces) + [p] && comment == p.comment && (comment ==> b > 0)
    {
      var j := b;
      if !mark {
        j := LastNonBlank(b);
      }
      comment := false;
      if carryover {
        comment := CommentBefore(j);
      }
      WriteLine(j, mark, Piece(View()[..j], b - j, mark, comment));
    }

    method WriteLine(j: nat, mark: bool, ghost p: Piece)
      requires Valid() && j <= outPtr && p.text == View()[..j] && p.mark == mark
      modifies this`written, this`pieces
      ensures Valid() && pieces == old(pieces) + [p]
    {
      written := written + [outBuf[1..j+1] + if mark then "%" else ""];
      pieces := pieces + [p];
      assert outBuf[1..j+1] == View()[..j];
    }

    /** What is behind b moves to the front, after a % that continues a comment. */
    method KeepRest(b: nat, comment: bool)
      requires Valid() && b <= outPtr && (comment ==> b > 0)
      modifies this`outPtr, outBuf
      ensures Valid() && View() == (if comment then "%" else "") + old(View())[b..]
    {
      ghost var was := View();
      var from := b;
      if comment {
        outBuf[b] := '%';
        from := b - 1;
      }
      assert outBuf[from+1..outPtr+1] == (if comment then "%" else "") + was[b..];
      MoveDown(from);
      outPtr := outPtr - from;
    }

    method LastNonBlank(b: nat) returns (j: nat)
      requires outPtr < outBuf.Length && b <= outPtr
      ensures j == TrimmedLength(View()[..b])
    {
      j := b;
      ghost var s := View()[..b];
      assert s[..j] == s;
      while j > 0 && outBuf[j] == ' '
        invariant j <= b && TrimmedLength(s) == TrimmedLength(s[..j])
      {
        FrontOf(s, j);
        assert s[j-1] == View()[j-1] == outBuf[j];
        j := j - 1;
      }
      assert j > 0 ==> s[..j][j-1] == View()[j-1] == outBuf[j];
    }

    method CommentBefore(j: nat) returns (comment: bool)
      requires outPtr < outBuf.Length && j <= outPtr
      ensures comment == HasComment(View()[..j])
      ensures comment ==> j > 0
    {
      var i: nat := j;
      ghost var s := View();
      while i > 0
        invariant i <= j && HasComment(s[..j]) == HasComment(s[..i])
      {
        FrontOf(s, i);
        assert s[i-1] == outBuf[i] && (i > 1 ==> s[..i][i-2] == outBuf[i-1]);
        if outBuf[i] == '%' && (i == 1 || outBuf[i-1] != '\\') {
          return true;
        }
        i := i - 1;
      }
      comment := false;
    }

    /** `strncpy` */
    method MoveDown(from: nat)
      requires Valid() && from <= outPtr
      modifies outBuf
      ensures outBuf[0] == '\\' && outBuf[1..outPtr-from+1] == old(outBuf[from+1..outPtr+1])
    {
      var i := 1;
      while i <= outPtr - from
        invariant 1 <= i <= outPtr - from + 1 && outBuf[0] == '\\'
        invariant forall k :: 1 <= k < i ==> outBuf[k] == old(outBuf[from+k])
        invariant forall k :: i + from <= k <= outPtr ==> outBuf[k] == old(outBuf[k])
      {
        outBuf[i] := outBuf[from+i];
        i := i + 1;
      }
    }

    /** Where the line is to be broken, and whether that needs a mark. */
    method FindPlace() returns (n: nat, mark: bool)
      requires Valid() && outPtr > 0
      ensures n <= outPtr
      ensures match FindBreak(View(), |View()|)
              case AtBlank(k) => n == k && !mark
              case AtBackslash(k) => n == k - 1 && mark
              case Forced => n == outPtr - 1 && mark
    {
      ghost var was := View();
      var k: nat := outPtr;
      while k > 0
        invariant k <= outPtr && FindBreak(was, |was|) == FindBreak(was, k)
        decreases k
      {
        assert was[k-1] == outBuf[k] && (k > 1 ==> was[k-2] == outBuf[k-1]);
        if outBuf[k] == ' ' {
          return k, false;
        }
        k := k - 1;
        if outBuf[k+1] == '\\' && outBuf[k] != '\\' {
          return k, true;
        }
      }
      return outPtr - 1, true;
    }

    /** `break_out` */
    method BreakLine()
      requires Valid() && outPtr > 0
      modifies this, outBuf
      ensures Valid()
      ensures var (p, rest) := BreakOut(old(View())); pieces == old(pieces) + [p] && View() == rest
    {
      BreakMeans(View(), |View()|);
      var n, mark := FindPlace();
      FlushBuffer(n, mark, true);
    }

    /** `finish_line`: an empty buffer gives an empty line only for a blank line of input. */
    method FinishLine(blankInput: bool)
      requires Valid()
      modifies this, outBuf
      ensures Valid() && View() == ""
      ensures if old(View()) == "" && !blankInput then written == old(written)
              else |written| == |old(written)| + 1 && written[..|old(written)|] == old(written)
                   && WithoutBlanks(old(View()), written[|old(written)|])
    {
      ghost var was, lines, before := View(), written, pieces;
      if outPtr > 0 || blankInput {
        FinishFlushes(was);
        assert was[..|was|] == was;
        TrimmedExactly(was);
        FlushBuffer(outPtr, false, false);
        forall i | 0 <= i < |lines|
          ensures written[i] == lines[i]
        {
          assert pieces[i] == before[i];
        }
        NothingMore(was[..TrimmedLength(was)]);
      }
    }

    /** The macro `out`, which breaks a full line and does not look whether that has made
        room: on a full buffer that is stuck it writes past the end (`inside` is false). */
    method PutChar(c: char) returns (inside: bool)
      requires Valid()
      modifies this, outBuf
      ensures Valid() && (inside <==> !(old(outPtr) == LINE_LENGTH && Stuck(old(View()))))
      ensures inside ==> Writer(pieces, View()) == Out(old(Writer(pieces, View())), c)
      ensures !inside ==> outPtr == LINE_LENGTH && View() == old(View()) && pieces == old(pieces) + [Piece("%", 0, true, true)]
    {
      if outPtr >= LINE_LENGTH {
        ghost var was := View();
        BreakShortens(was);
        if Stuck(was) { StuckStays(was); }
        BreakLine();
        if outPtr >= LINE_LENGTH { return false; }
      }
      outPtr := outPtr + 1;
      outBuf[outPtr] := c;
      return true;
    }

    /** `out_str`, for text without comments. */
    method OutStr(s: Text)
      requires Valid() && '%' !in View() && '%' !in s
      modifies this, outBuf
      ensures Valid() && '%' !in View() && Writer(pieces, View()) == OutAll(old(Writer(pieces, View())), s)
    {
      ghost var w := Writer(pieces, View());
      var i := 0;
      assert s[0..] == s;
      while i < |s|
        invariant i <= |s| && Valid() && '%' !in View() && OutAll(w, s) == OutAll(Writer(pieces, View()), s[i..])
      {
        assert s[i..][0] == s[i] && s[i..][1..] == s[i+1..];
        NeverStuck(View());
        StillPlain(Writer(pieces, View()), s[i]);
        var inside := PutChar(s[i]);
        i := i + 1;
      }
    }
  }

  lemma StillPlain(w: Writer, c: char)
    requires '%' !in w.buffer && c != '%' && |w.buffer| <= LINE_LENGTH
    ensures '%' !in Out(w, c).buffer
  {
    if |w.buffer| == LINE_LENGTH {
      BreakOutKeeps(w.buffer);
      var (p, rest) := BreakOut(w.buffer);
      assert forall x :: x in rest ==> x in Taken(p) + rest;
    }
  }
}
