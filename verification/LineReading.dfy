// What TeX reads of the lines that CWEAVE writes (cweb/cweave.c:1701-1775).

module LineReading {
  import opened Basics
  import opened LineBreaker

  // ---------- how TeX reads

  /** The first % that no backslash precedes, or the end of the line. */
  function CommentAt(l: Text, i: nat): (n: nat)
    requires i <= |l|
    ensures i <= n <= |l|
    decreases |l| - i
  {
    if i == |l| || (l[i] == '%' && (i == 0 || l[i-1] != '\\')) then i else CommentAt(l, i + 1)
  }

  /** Nothing is read behind a %. Else blanks at the end of the line do not count, and the
      end of the line is a blank; the end of an empty line is the end of a paragraph, for
      which a newline stands. */
  function ReadLine(l: Text): Text {
    var n := CommentAt(l, 0);
    if n < |l| then l[..n] else if TrimmedLength(l) == 0 then "\n" else l[..TrimmedLength(l)] + " "
  }

  function Reading(lines: seq<Text>): Text {
    if lines == [] then "" else Reading(lines[..|lines|-1]) + ReadLine(lines[|lines|-1])
  }

  function AllWritten(pieces: seq<Piece>): (r: seq<Text>)
    ensures |r| == |pieces|
  {
    seq(|pieces|, i requires 0 <= i < |pieces| => Written(pieces[i]))
  }

  /** What is read of the lines and will be read of the buffer. */
  function ReadOf(w: Writer): Text {
    Reading(AllWritten(w.pieces)) + w.buffer
  }

  /** Lines that are not read as they were meant: an empty one, and one on which a
      backslash precedes the % at the end. */
  predicate Misread(l: Text) {
    l == "" || (|l| >= 2 && l[|l|-2] == '\\' && l[|l|-1] == '%')
  }

  // ---------- one line

  lemma {:induction false} CommentLast(t: Text, i: nat)
    requires '%' !in t && i <= |t|
    ensures CommentAt(t, i) == |t|
    ensures CommentAt(t + "%", i) == if t != "" && t[|t|-1] == '\\' then |t| + 1 else |t|
    decreases |t| - i
  {
    var l := t + "%";
    if i < |t| {
      assert l[i] == t[i] && t[i] in t;
      CommentLast(t, i + 1);
    } else {
      assert l[|t|] == '%' && CommentAt(l, |t| + 1) == |t| + 1;
    }
  }

  /** A line with a mark is read as its text, if no backslash comes before the mark. */
  lemma ReadMarked(t: Text)
    requires '%' !in t
    ensures t == "" || t[|t|-1] != '\\' ==> ReadLine(t + "%") == t
    ensures t != "" && t[|t|-1] == '\\' ==> '%' in ReadLine(t + "%")
  {
    CommentLast(t, 0);
    var l := t + "%";
    assert l[|l|-1] == '%' && l[..|t|] == t;
    if t != "" && t[|t|-1] == '\\' {
      assert TrimmedLength(l) == |l| && l[..|l|] == l;
      assert ReadLine(l) == l + " ";
      assert ReadLine(l)[|t|] == '%';
    }
  }

  /** A line without one is read with a blank at the end. */
  lemma ReadPlain(t: Text)
    requires '%' !in t && TrimmedLength(t) == |t|
    ensures ReadLine(t) == if t == "" then "\n" else t + " "
  {
    CommentLast(t, 0);
    assert t[..|t|] == t;
  }

  lemma TrimAgain(s: Text)
    ensures var t := s[..TrimmedLength(s)]; TrimmedLength(t) == |t|
  {
    TrimmedExactly(s);
  }

  /** What is broken off the buffer is read as it was, but that the blanks dropped become
      one, unless the line is misread. */
  lemma BreakReads(b: Text)
    requires 0 < |b| && '%' !in b
    ensures var (p, rest) := BreakOut(b);
            && b == p.text + Blanks(p.blanks) + rest && (p.mark <==> p.blanks == 0)
            && (!Misread(Written(p)) ==> ReadLine(Written(p)) == p.text + if p.mark then "" else " ")
            && (Misread(Written(p)) ==> '\n' in ReadLine(Written(p)) || '%' in ReadLine(Written(p)))
  {
    var (p, rest) := BreakOut(b);
    BrokenOff(b);
    NotComment(b, p.text, p.blanks, rest);
    PieceReads(p);
  }

  lemma PieceReads(p: Piece)
    requires '%' !in p.text && (!p.mark ==> TrimmedLength(p.text) == |p.text|)
    ensures !Misread(Written(p)) ==> ReadLine(Written(p)) == p.text + if p.mark then "" else " "
    ensures Misread(Written(p)) ==> '\n' in ReadLine(Written(p)) || '%' in ReadLine(Written(p))
  {
    if p.mark {
      assert Written(p) == p.text + "%";
      ReadMarked(p.text);
      NothingMore(p.text);
    } else {
      NothingMore(p.text);
      ReadPlain(p.text);
      assert p.text != "" ==> p.text[|p.text|-1] in p.text;
    }
  }

  lemma NotComment(b: Text, t: Text, n: nat, rest: Text)
    requires '%' !in b && b == t + Blanks(n) + rest
    ensures '%' !in t
  {
    assert forall c :: c in t ==> c in b;
  }

  lemma BrokenOff(b: Text)
    requires 0 < |b| && '%' !in b
    ensures var (p, rest) := BreakOut(b);
            && b == p.text + Blanks(p.blanks) + rest && (p.mark <==> p.blanks == 0)
            && (!p.mark ==> TrimmedLength(p.text) == |p.text|)
  {
    BreakMeans(b, |b|);
    match FindBreak(b, |b|) {
      case AtBlank(k) =>
        FlushKeeps(b, k, false);
        TrimAgain(b[..k]);
        TrimmedMeans(b[..k]);
        assert b[..k][..TrimmedLength(b[..k])] == b[..TrimmedLength(b[..k])];
      case AtBackslash(k) =>
        FlushKeeps(b, k - 1, true);
      case Forced =>
        FlushKeeps(b, |b| - 1, true);
    }
  }

  // ---------- runs of blanks

  /** The text with a single blank for every run of them. */
  function Squeeze(s: Text): Text {
    if s == "" then ""
    else
      var t := Squeeze(s[..|s|-1]);
      if s[|s|-1] == ' ' && t != "" && t[|t|-1] == ' ' then t else t + [s[|s|-1]]
  }

  lemma SqueezeOne(s: Text, c: char)
    ensures var t := Squeeze(s); Squeeze(s + [c]) == if c == ' ' && t != "" && t[|t|-1] == ' ' then t else t + [c]
  {
    assert (s + [c])[..|s|] == s;
  }

  lemma {:induction false} SqueezeBoth(a: Text, b: Text, s: Text)
    requires Squeeze(a) == Squeeze(b)
    ensures Squeeze(a + s) == Squeeze(b + s)
    decreases |s|
  {
    if s == "" {
      assert a + s == a && b + s == b;
    } else {
      var t, c := s[..|s|-1], s[|s|-1];
      SqueezeBoth(a, b, t);
      SqueezeOne(a + t, c);
      SqueezeOne(b + t, c);
      LastApart(a, s);
      LastApart(b, s);
    }
  }

  lemma {:induction false} SqueezeBlanks(a: Text, n: nat)
    requires n > 0
    ensures Squeeze(a + Blanks(n)) == Squeeze(a + " ")
    decreases n
  {
    BlanksMore(n - 1);
    if n == 1 {
      assert Blanks(0) == "" && Blanks(1) == " ";
    } else {
      SqueezeBlanks(a, n - 1);
      SqueezeOne(a, ' ');
      SqueezeOne(a + Blanks(n - 1), ' ');
      assert a + Blanks(n) == a + Blanks(n - 1) + [' '];
    }
  }

  lemma {:induction false} SqueezeKeeps(s: Text, c: char)
    requires c != ' '
    ensures c in Squeeze(s) <==> c in s
    decreases |s|
  {
    if s != "" {
      SqueezeKeeps(s[..|s|-1], c);
      assert s == s[..|s|-1] + [s[|s|-1]];
    }
  }

  lemma {:induction false} ReadMore(pieces: seq<Piece>, p: Piece)
    ensures AllWritten(pieces + [p]) == AllWritten(pieces) + [Written(p)]
    ensures Reading(AllWritten(pieces + [p])) == Reading(AllWritten(pieces)) + ReadLine(Written(p))
  {
    var lines := AllWritten(pieces);
    assert (pieces + [p])[..|pieces|] == pieces;
    assert AllWritten(pieces + [p]) == lines + [Written(p)];
    assert (lines + [Written(p)])[..|lines|] == lines;
  }

  // ---------- a whole stream

  predicate Plain(s: Text) {
    '%' !in s && '\n' !in s
  }

  predicate WellRead(pieces: seq<Piece>) {
    forall i :: 0 <= i < |pieces| ==> !Misread(Written(pieces[i]))
  }

  /** Either everything is read as it was put out, but for runs of blanks, or something is
      read that was never put out. */
  ghost predicate Understood(w: Writer, stream: Text) {
    && Plain(w.buffer)
    && (WellRead(w.pieces) ==> Squeeze(ReadOf(w)) == Squeeze(stream))
    && (!WellRead(w.pieces) ==> !Plain(ReadOf(w)))
  }

  lemma OutUnderstood(w: Writer, stream: Text, c: char) returns (v: Writer)
    requires Understood(w, stream) && Plain([c])
    ensures v == Out(w, c) && Understood(v, stream + [c])
  {
    var b := w.buffer;
    v := Out(w, c);
    if |b| < LINE_LENGTH {
      KeptUnderstood(w, stream, c);
    } else {
      var (p, rest) := BreakOut(b);
      BreakReads(b);
      ReadMore(w.pieces, p);
      PlainRest(b, p.text + Blanks(p.blanks), rest, c);
      BrokenUnderstood(w, stream, c, p, rest);
    }
  }

  lemma KeptUnderstood(w: Writer, stream: Text, c: char)
    requires Understood(w, stream) && Plain([c])
    ensures Understood(Writer(w.pieces, w.buffer + [c]), stream + [c])
  {
    var lines, b := Reading(AllWritten(w.pieces)), w.buffer;
    PlainMore(b, c);
    assert lines + (b + [c]) == lines + b + [c];
    if WellRead(w.pieces) {
      SqueezeBoth(ReadOf(w), stream, [c]);
    } else {
      StillStrange(lines, b, b + [c]);
    }
  }

  lemma PlainMore(b: Text, c: char)
    requires Plain(b) && Plain([c])
    ensures Plain(b + [c])
  {
  }

  lemma PlainRest(b: Text, taken: Text, rest: Text, c: char)
    requires b == taken + rest && Plain(b) && Plain([c])
    ensures Plain(rest + [c])
  {
    assert forall x :: x in rest ==> x in b;
  }

  lemma BrokenUnderstood(w: Writer, stream: Text, c: char, p: Piece, rest: Text)
    requires Understood(w, stream) && Plain(rest + [c]) && w.buffer == p.text + Blanks(p.blanks) + rest
    requires p.mark <==> p.blanks == 0
    requires !Misread(Written(p)) ==> ReadLine(Written(p)) == p.text + if p.mark then "" else " "
    requires Misread(Written(p)) ==> !Plain(ReadLine(Written(p)))
    requires Reading(AllWritten(w.pieces + [p])) == Reading(AllWritten(w.pieces)) + ReadLine(Written(p))
    ensures Understood(Writer(w.pieces + [p], rest + [c]), stream + [c])
  {
    var v := Writer(w.pieces + [p], rest + [c]);
    var lines, line := Reading(AllWritten(w.pieces)), ReadLine(Written(p));
    assert ReadOf(v) == lines + line + (rest + [c]);
    assert WellRead(v.pieces) <==> WellRead(w.pieces) && !Misread(Written(p)) by { MoreWellRead(w.pieces, p); }
    if !WellRead(w.pieces) {
      StillStrange(lines, w.buffer, line + (rest + [c]));
      Regroup(lines, line, rest + [c]);
    } else if Misread(Written(p)) {
      StrangeInside(lines, line, rest + [c]);
    } else {
      SqueezePiece(lines, p.text, p.blanks, rest + [c]);
      Regrouped(lines, p.text, Blanks(p.blanks), rest, c);
      SqueezeBoth(ReadOf(w), stream, [c]);
    }
  }

  lemma Regrouped(lines: Text, t: Text, blanks: Text, rest: Text, c: char)
    ensures lines + (t + blanks + rest) + [c] == lines + (t + blanks) + (rest + [c])
  {
  }

  lemma MoreWellRead(pieces: seq<Piece>, p: Piece)
    ensures WellRead(pieces + [p]) <==> WellRead(pieces) && !Misread(Written(p))
  {
    assert (pieces + [p])[|pieces|] == p;
    assert forall i :: 0 <= i < |pieces| ==> (pieces + [p])[i] == pieces[i];
  }

  lemma StillStrange(lines: Text, b: Text, more: Text)
    requires Plain(b) && !Plain(lines + b)
    ensures !Plain(lines + more)
  {
    assert forall x :: x in lines + b ==> x in lines || x in b;
    assert forall x :: x in lines ==> x in lines + more;
  }

  lemma StrangeInside(lines: Text, line: Text, rest: Text)
    requires !Plain(line)
    ensures !Plain(lines + line + rest)
  {
    assert forall x :: x in line ==> x in lines + line + rest;
  }

  lemma SqueezePiece(lines: Text, t: Text, n: nat, rest: Text)
    ensures Squeeze(lines + (t + if n == 0 then "" else " ") + rest) == Squeeze(lines + (t + Blanks(n)) + rest)
  {
    var end := if n == 0 then "" else " ";
    assert lines + (t + end) == lines + t + end && lines + (t + Blanks(n)) == lines + t + Blanks(n);
    if n == 0 {
      BlanksMore(0);
    } else {
      SqueezeBlanks(lines + t, n);
      SqueezeBoth(lines + t + end, lines + t + Blanks(n), rest);
    }
  }

  lemma PlainParts(s: Text)
    requires Plain(s) && s != ""
    ensures Plain([s[0]]) && Plain(s[1..])
  {
    assert s[0] in s && forall x :: x in s[1..] ==> x in s;
  }

  lemma HeadMoved(stream: Text, s: Text)
    requires s != ""
    ensures stream + [s[0]] + s[1..] == stream + s
  {
  }

  lemma {:induction false} OutAllUnderstood(w: Writer, stream: Text, s: Text)
    requires Understood(w, stream) && Plain(s)
    ensures Understood(OutAll(w, s), stream + s)
    decreases |s|
  {
    if s == [] {
      assert stream + s == stream;
    } else {
      PlainParts(s);
      var v := OutUnderstood(w, stream, s[0]);
      OutAllUnderstood(v, stream + [s[0]], s[1..]);
      HeadMoved(stream, s);
      assert OutAll(w, s) == OutAll(v, s[1..]);
    }
  }

  lemma WellReadLines(pieces: seq<Piece>)
    ensures WellRead(pieces) <==> forall l <- AllWritten(pieces) :: !Misread(l)
  {
    var lines := AllWritten(pieces);
    assert forall i :: 0 <= i < |lines| ==> lines[i] == Written(pieces[i]) && lines[i] in lines;
  }

  /** TeX reads the lines and the rest in the buffer as the text that was put out, with a
      single blank for every run of blanks, if and only if no line is empty and none has a
      backslash before a % at its end. */
  lemma ReadAsPutOut(s: Text)
    requires Plain(s)
    ensures var w := OutAll(Writer([], ""), s);
            Squeeze(ReadOf(w)) == Squeeze(s) <==> forall l <- AllWritten(w.pieces) :: !Misread(l)
  {
    var w := OutAll(Writer([], ""), s);
    assert AllWritten([]) == [] && Reading([]) + "" == "";
    OutAllUnderstood(Writer([], ""), "", s);
    assert "" + s == s;
    WellReadLines(w.pieces);
    SqueezeKeeps(ReadOf(w), '%');
    SqueezeKeeps(ReadOf(w), '\n');
    SqueezeKeeps(s, '%');
    SqueezeKeeps(s, '\n');
  }

  // ---------- character by character

  predicate Run(s: Text, i: nat) {
    i + LINE_LENGTH - 1 <= |s| && forall j :: i <= j < i + LINE_LENGTH - 1 ==> s[j] == '\\'
  }

  predicate Pair(s: Text, i: nat) {
    i + 1 < |s| && s[i] == ' ' && s[i+1] == ' '
  }

  /** No two blanks in a row, no blank at the beginning, and not 79 backslashes in a row. */
  ghost predicate Tidy(s: Text) {
    && (s != "" ==> s[0] != ' ')
    && (forall i: nat :: !Pair(s, i)) && forall i: nat :: !Run(s, i)
  }

  /** Where a line cannot be broken, backslashes come first. */
  lemma {:induction false} BackslashesDown(b: Text, j: nat)
    requires j < |b| && forall i :: 0 <= i < |b| ==> !Place(b, i)
    ensures b[j] == '\\' ==> forall i :: 0 <= i <= j ==> b[i] == '\\'
    decreases j
  {
    if j > 0 {
      assert !Place(b, j);
      BackslashesDown(b, j - 1);
    }
  }

  lemma FlushPlain(b: Text, n: nat, mark: bool)
    requires n <= |b| && '%' !in b
    ensures var j := if mark then n else TrimmedLength(b[..n]); Flush(b, n, mark, true) == (Piece(b[..j], n - j, mark, false), b[n..])
  {
    NoComment(b[..if mark then n else TrimmedLength(b[..n])]);
    assert "" + b[n..] == b[n..];
  }

  /** What is broken off is read as it was, and what remains does not begin with a blank. */
  ghost predicate ReadWell(b: Text, p: Piece, rest: Text) {
    && b == p.text + (if p.mark then "" else " ") + rest && !Misread(Written(p))
    && (if rest == "" then b != "" && b[|b|-1] == ' ' else rest[0] != ' ')
  }

  /** So it is if a full buffer is tidy. */
  lemma TidyBreak(b: Text)
    requires |b| >= LINE_LENGTH && '%' !in b && Tidy(b)
    ensures ReadWell(b, BreakOut(b).0, BreakOut(b).1)
  {
    BreakMeans(b, |b|);
    match FindBreak(b, |b|) {
      case AtBlank(k) =>
        BlankRead(b, k);
      case AtBackslash(k) =>
        MarkRead(b, k - 1);
      case Forced =>
        NotAllBackslashes(b);
        MarkRead(b, |b| - 1);
    }
  }

  lemma BlankRead(b: Text, k: nat)
    requires 0 < k <= |b| && b[k-1] == ' ' && '%' !in b && Tidy(b)
    ensures var (p, rest) := Flush(b, k, false, true); ReadWell(b, p, rest)
  {
    OneBlank(b, k);
    FlushPlain(b, k, false);
    assert b[k-2] in b && !Pair(b, k - 1);
    assert b == b[..k-1] + " " + b[k..] && b[..k-1] + "" == b[..k-1];
  }

  lemma MarkRead(b: Text, n: nat)
    requires 0 < n < |b| && b[n-1] != '\\' && b[n] != ' ' && '%' !in b
    ensures var (p, rest) := Flush(b, n, true, true); ReadWell(b, p, rest)
  {
    FlushPlain(b, n, true);
    var l := Written(Piece(b[..n], 0, true, false));
    assert l == b[..n] + "%" && l[|l|-2] == b[n-1];
    assert b == b[..n] + "" + b[n..];
  }

  lemma NotAllBackslashes(b: Text)
    requires |b| >= LINE_LENGTH && !Run(b, 0) && FindBreak(b, |b|).Forced?
    ensures b[|b|-2] != '\\' && b[|b|-1] != ' '
  {
    BreakIsLast(b, |b|);
    assert !Place(b, |b| - 1);
    BackslashesDown(b, |b| - 2);
  }

  lemma OneBlank(b: Text, k: nat)
    requires Tidy(b) && 0 < k <= |b| && b[k-1] == ' '
    ensures k > 1 && TrimmedLength(b[..k]) == k - 1 && b[..k][..k-1] == b[..k-1]
  {
    assert k > 1 ==> !Pair(b, k - 2);
    var t := b[..k];
    assert t[..k-1] == b[..k-1] && t[..k-1][k-2] == b[k-2] != ' ';
  }

  ghost predicate Verbatim(w: Writer, stream: Text) {
    ReadOf(w) == stream && Tidy(w.buffer) && Plain(w.buffer) && (w.buffer == "" ==> stream == "")
  }

  lemma TidyEnd(a: Text, b: Text)
    requires Tidy(a + b) && (b != "" ==> b[0] != ' ')
    ensures Tidy(b)
  {
    var s := a + b;
    assert forall j :: 0 <= j < |b| ==> b[j] == s[|a| + j];
    forall i: nat
      ensures !Pair(b, i) && !Run(b, i)
    {
      assert !Pair(s, |a| + i) && !Run(s, |a| + i);
      if Run(b, i) { RunShifted(a, b, i); }
    }
  }

  lemma RunShifted(a: Text, b: Text, i: nat)
    requires Run(b, i)
    ensures Run(a + b, |a| + i)
  {
    forall j | |a| + i <= j < |a| + i + LINE_LENGTH - 1
      ensures (a + b)[j] == '\\'
    {
      assert (a + b)[j] == b[j - |a|];
    }
  }

  lemma OutVerbatim(w: Writer, stream: Text, c: char) returns (v: Writer)
    requires Verbatim(w, stream) && Tidy(stream + [c]) && Plain([c])
    ensures v == Out(w, c) && Verbatim(v, stream + [c])
  {
    var b, lines := w.buffer, Reading(AllWritten(w.pieces));
    v := Out(w, c);
    if |b| < LINE_LENGTH {
      assert lines + (b + [c]) == stream + [c];
      PlainMore(b, c);
      FirstStays(stream, b, c);
      TidyEnd(lines, b + [c]);
    } else {
      var (p, rest) := BreakOut(b);
      BreakReads(b);
      TidyBreak(b);
      ReadMore(w.pieces, p);
      BrokenVerbatim(lines, b, ReadLine(Written(p)), rest, c);
    }
  }

  lemma FirstStays(stream: Text, b: Text, c: char)
    requires Tidy(b) && Tidy(stream + [c]) && (b == "" ==> stream == "")
    ensures (b + [c])[0] != ' '
  {
  }

  lemma BrokenVerbatim(lines: Text, b: Text, line: Text, rest: Text, c: char)
    requires Tidy(lines + b + [c]) && b == line + rest && Plain(b) && Plain([c])
    requires if rest == "" then b != "" && b[|b|-1] == ' ' else rest[0] != ' '
    ensures lines + line + (rest + [c]) == lines + b + [c] && Tidy(rest + [c]) && Plain(rest + [c])
  {
    var s := lines + b + [c];
    assert lines + line + (rest + [c]) == s;
    PlainRest(b, line, rest, c);
    if rest == "" {
      assert !Pair(s, |s| - 2) && s[|s|-2] == b[|b|-1];
    }
    TidyEnd(lines + line, rest + [c]);
  }


  lemma {:induction false} OutAllVerbatim(w: Writer, stream: Text, s: Text)
    requires Verbatim(w, stream) && Tidy(stream + s) && Plain(s)
    ensures Verbatim(OutAll(w, s), stream + s)
    decreases |s|
  {
    if s == [] {
      assert stream + s == stream;
    } else {
      PlainParts(s);
      HeadMoved(stream, s);
      TidyFront(stream + [s[0]], s[1..]);
      var v := OutVerbatim(w, stream, s[0]);
      OutAllVerbatim(v, stream + [s[0]], s[1..]);
      assert OutAll(w, s) == OutAll(v, s[1..]);
    }
  }

  lemma TidyFront(a: Text, b: Text)
    requires Tidy(a + b)
    ensures Tidy(a)
  {
    var s := a + b;
    assert forall j :: 0 <= j < |a| ==> a[j] == s[j];
    forall i: nat
      ensures !Pair(a, i) && !Run(a, i)
    {
      assert !Pair(s, i) && !Run(s, i);
    }
  }

  /** Text without runs of blanks and of backslashes is read as it is. */
  lemma ReadExactly(s: Text)
    requires Plain(s) && Tidy(s)
    ensures ReadOf(OutAll(Writer([], ""), s)) == s
  {
    assert AllWritten([]) == [] && Reading([]) + "" == "" && "" + s == s;
    OutAllVerbatim(Writer([], ""), "", s);
  }

  // ---------- in place

  /** A fresh buffer and the lines it has written are read so. */
  method PutOut(out: Buffer, s: Text)
    requires out.Valid() && out.View() == "" && out.written == [] && Plain(s)
    modifies out, out.outBuf
    ensures out.Valid()
    ensures Squeeze(Reading(out.written) + out.View()) == Squeeze(s) <==> forall l <- out.written :: !Misread(l)
    ensures Tidy(s) ==> Reading(out.written) + out.View() == s
  {
    out.OutStr(s);
    assert out.written == AllWritten(out.pieces);
    ReadAsPutOut(s);
    if Tidy(s) { ReadExactly(s); }
  }
}
