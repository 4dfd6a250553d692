// What TeX reads of the lines when the text has a comment (cweb/cweave.c:1701-1719).

module LineComments {
  import opened Basics
  import opened LineBreaker
  import opened LineReading

  /** A % that no backslash precedes. */
  predicate Unescaped(s: Text, m: nat) {
    m < |s| && s[m] == '%' && (m == 0 || s[m-1] != '\\')
  }

  ghost predicate NoneBefore(s: Text, k: nat) {
    forall m: nat {:trigger Unescaped(s, m)} :: m < k ==> !Unescaped(s, m)
  }

  lemma SameStart(a: Text, b: Text, k: nat)
    requires k <= |a| && k <= |b| && a[..k] == b[..k]
    ensures forall m: nat {:trigger Unescaped(a, m)} {:trigger Unescaped(b, m)} :: m < k ==> (Unescaped(a, m) <==> Unescaped(b, m))
  {
    assert forall m :: 0 <= m < k ==> a[m] == a[..k][m] == b[..k][m] == b[m];
  }

  lemma {:induction false} CommentAtMeans(s: Text, i: nat)
    requires i <= |s|
    ensures var n := CommentAt(s, i); (n < |s| ==> Unescaped(s, n)) && forall m: nat :: i <= m < n ==> !Unescaped(s, m)
    decreases |s| - i
  {
    if i < |s| && !Unescaped(s, i) {
      CommentAtMeans(s, i + 1);
    }
  }

  lemma CommentIs(s: Text, k: nat)
    requires Unescaped(s, k) && NoneBefore(s, k)
    ensures CommentAt(s, 0) == k
  {
    CommentAtMeans(s, 0);
  }

  lemma {:induction false} HasCommentMeans(s: Text)
    ensures HasComment(s) <==> exists m: nat :: Unescaped(s, m)
    decreases |s|
  {
    if s != [] {
      var n, t := |s| - 1, s[..|s|-1];
      HasCommentMeans(t);
      SameStart(s, t, n);
      assert HasComment(s) <==> Unescaped(s, n) || HasComment(t);
      if m: nat :| Unescaped(s, m) { assert m < n ==> Unescaped(t, m); }
      if m: nat :| Unescaped(t, m) { assert Unescaped(s, m); }
    }
  }

  /** What is read of a line that is not complete. */
  function ReadOpen(b: Text): Text { b[..CommentAt(b, 0)] }

  /** Where the comment begins in the buffer. */
  ghost predicate BeginsAt(b: Text, k: nat) {
    Unescaped(b, k) && NoneBefore(b, k) && Tidy(b[..k])
  }

  /** The text up to the comment has been read, or is in the buffer before it. */
  ghost predicate Commented(w: Writer, stream: Text, k: nat) {
    BeginsAt(w.buffer, k) && Reading(AllWritten(w.pieces)) + w.buffer[..k] == stream
  }

  // ---------- the comment begins

  /** A % behind text without one. */
  lemma BeginsThere(b: Text)
    requires '%' !in b && Tidy(b) && (b != "" ==> b[|b|-1] != '\\')
    ensures BeginsAt(b + "%", |b|) && (b + "%")[..|b|] == b
  {
    var s := b + "%";
    assert s[..|b|] == b == b[..|b|];
    SameStart(s, b, |b|);
    assert forall m: nat :: m < |b| ==> b[m] in b;
  }

  lemma CommentBegins(w: Writer, stream: Text) returns (k: nat)
    requires Verbatim(w, stream) && Tidy(stream) && (stream == "" || stream[|stream|-1] != '\\')
    ensures Commented(Out(w, '%'), stream, k)
  {
    var b, lines := w.buffer, Reading(AllWritten(w.pieces));
    if |b| < LINE_LENGTH {
      k := |b|;
      LastOfBoth(lines, b, stream);
      BeginsThere(b);
    } else {
      var (p, rest) := BreakOut(b);
      BreakReads(b);
      TidyBreak(b);
      ReadMore(w.pieces, p);
      k := |rest|;
      RestBegins(lines, b, ReadLine(Written(p)), rest, stream);
    }
  }

  lemma LastOfBoth(a: Text, b: Text, s: Text)
    requires a + b == s
    ensures b != "" ==> b[|b|-1] == s[|s|-1]
  {
  }

  lemma RestBegins(lines: Text, b: Text, line: Text, rest: Text, stream: Text)
    requires b == line + rest && lines + b == stream && '%' !in b && Tidy(stream) && (stream == "" || stream[|stream|-1] != '\\')
    requires rest != "" ==> rest[0] != ' '
    ensures BeginsAt(rest + "%", |rest|) && (rest + "%")[..|rest|] == rest && lines + line + rest == stream
  {
    assert lines + line + rest == stream;
    assert forall x :: x in rest ==> x in b;
    LastOfBoth(lines + line, rest, stream);
    TidyEnd(lines + line, rest);
    BeginsThere(rest);
  }

  // ---------- the comment goes on

  lemma CommentStays(b: Text, more: Text, k: nat)
    requires BeginsAt(b, k)
    ensures BeginsAt(b + more, k) && (b + more)[..k] == b[..k]
  {
    assert (b + more)[..k+1] == b[..k+1] && (b + more)[..k] == b[..k];
    SameStart(b + more, b, k + 1);
  }

  /** A line that holds the beginning of the comment: the next one begins with %. */
  lemma BrokenInside(b: Text, k: nat, n: nat, j: nat, mark: bool)
    requires BeginsAt(b, k) && k < j <= n <= |b| && j == if mark then n else TrimmedLength(b[..n])
    ensures var (p, rest) := Flush(b, n, mark, true); ReadLine(Written(p)) == b[..k] && rest == "%" + b[n..]
  {
    var (p, rest) := Flush(b, n, mark, true);
    var t, l := b[..j], Written(p);
    assert p.text == t && t[..k+1] == b[..k+1] == l[..k+1];
    SameStart(t, b, k + 1);
    SameStart(l, b, k + 1);
    HasCommentMeans(t);
    CommentIs(l, k);
    assert l[..k] == b[..k];
  }

  /** A line that ends before it, at a single blank or with a mark. */
  lemma BrokenBefore(b: Text, k: nat, n: nat, j: nat, mark: bool)
    requires BeginsAt(b, k) && 0 < n <= k && (if mark then b[n-1] != '\\' else b[n-1] == ' ')
    requires j == if mark then n else TrimmedLength(b[..n])
    ensures var (p, rest) := Flush(b, n, mark, true); ReadLine(Written(p)) == b[..n] && rest == b[n..]
  {
    var (p, rest) := Flush(b, n, mark, true);
    var t := b[..j];
    NoCommentBefore(b, k, j);
    assert "" + b[n..] == b[n..];
    if mark {
      MarkIsComment(t);
    } else {
      BlankBefore(b, k, n, j);
      assert t + "" == t;
      CommentAtMeans(t, 0);
      assert t[..|t|] == t;
    }
  }

  lemma NoCommentBefore(b: Text, k: nat, j: nat)
    requires BeginsAt(b, k) && j <= k
    ensures !HasComment(b[..j]) && NoneBefore(b[..j], j)
  {
    var t := b[..j];
    assert t[..j] == b[..j];
    SameStart(t, b, j);
    HasCommentMeans(t);
  }

  lemma MarkIsComment(t: Text)
    requires t != "" && t[|t|-1] != '\\' && NoneBefore(t, |t|)
    ensures ReadLine(t + "%") == t
  {
    var l := t + "%";
    assert l[..|t|] == t == t[..|t|];
    SameStart(l, t, |t|);
    CommentIs(l, |t|);
  }

  // Of a tidy text only one blank is dropped.
  lemma BlankBefore(b: Text, k: nat, n: nat, j: nat)
    requires 0 < n <= k <= |b| && Tidy(b[..k]) && b[n-1] == ' ' && j == TrimmedLength(b[..n])
    ensures j == n - 1 > 0 && TrimmedLength(b[..j]) == j && b[..j] + " " == b[..n]
  {
    var c := b[..k];
    assert c[n-1] == b[n-1];
    OneBlank(c, n);
    assert c[..n] == b[..n];
    TrimAgain(b[..n]);
    assert b[..n][..j] == b[..j];
  }

  /** The comment begins in what remains. */
  lemma BeginsInRest(b: Text, k: nat, n: nat)
    requires BeginsAt(b, k) && 0 < n <= k && (if n == k then b[n-1] != '\\' else b[n] != ' ' && b[n-1] != '\\')
    ensures BeginsAt(b[n..], k - n) && b[..n] + b[n..][..k-n] == b[..k]
  {
    var rest := b[n..];
    forall m: nat | m < k - n
      ensures !Unescaped(rest, m)
    {
      assert !Unescaped(b, n + m);
    }
    assert rest[k-n] == b[k] && (n < k ==> rest[k-n-1] == b[k-1]);
    assert b[..n] + rest[..k-n] == b[..k];
    assert n < k ==> rest[..k-n][0] == b[n];
    TidyEnd(b[..n], rest[..k-n]);
  }

  /** What is broken off a buffer with a comment. */
  ghost predicate BrokenOff(b: Text, k: nat, p: Piece, rest: Text, k2: nat) {
    k <= |b| && BeginsAt(rest, k2) && ReadLine(Written(p)) + rest[..k2] == b[..k]
  }

  lemma BreakInside(b: Text, k: nat, n: nat, j: nat, mark: bool)
    requires BeginsAt(b, k) && k < j <= n <= |b| && j == if mark then n else TrimmedLength(b[..n])
    ensures var (p, rest) := Flush(b, n, mark, true); BrokenOff(b, k, p, rest, 0)
  {
    var (p, rest) := Flush(b, n, mark, true);
    BrokenInside(b, k, n, j, mark);
    assert rest[..0] == "" && Unescaped(rest, 0);
    NothingMore(b[..k]);
  }

  lemma BreakBefore(b: Text, k: nat, n: nat, mark: bool)
    requires BeginsAt(b, k) && 0 < n <= k && (if mark then b[n-1] != '\\' else b[n-1] == ' ') && (n < k ==> b[n] != ' ')
    ensures var (p, rest) := Flush(b, n, mark, true); BrokenOff(b, k, p, rest, k - n)
  {
    BrokenBefore(b, k, n, if mark then n else TrimmedLength(b[..n]), mark);
    BeginsInRest(b, k, n);
  }

  lemma NoBlankAfter(b: Text, k: nat, n: nat)
    requires BeginsAt(b, k) && 0 < n < k && b[n-1] == ' '
    ensures b[n] != ' '
  {
    assert !Pair(b[..k], n - 1) && b[..k][n] == b[n] && b[..k][n-1] == b[n-1];
  }

  lemma BreakComment(b: Text, k: nat) returns (k2: nat)
    requires |b| >= LINE_LENGTH && BeginsAt(b, k)
    ensures BrokenOff(b, k, BreakOut(b).0, BreakOut(b).1, k2)
  {
    BreakMeans(b, |b|);
    match FindBreak(b, |b|) {
      case AtBlank(n) =>
        k2 := BreakUnmarked(b, k, n);
      case AtBackslash(m) =>
        k2 := BreakMarked(b, k, m - 1);
      case Forced =>
        k2 := BreakMarked(b, k, |b| - 1);
    }
  }

  lemma BreakUnmarked(b: Text, k: nat, n: nat) returns (k2: nat)
    requires BeginsAt(b, k) && 0 < n <= |b| && b[n-1] == ' '
    ensures var (p, rest) := Flush(b, n, false, true); BrokenOff(b, k, p, rest, k2)
  {
    if k < n {
      TrimmedExactly(b[..n]);
      assert b[..n][k] == '%';
      BreakInside(b, k, n, TrimmedLength(b[..n]), false);
      k2 := 0;
    } else {
      if n < k { NoBlankAfter(b, k, n); }
      BreakBefore(b, k, n, false);
      k2 := k - n;
    }
  }

  lemma BreakMarked(b: Text, k: nat, n: nat) returns (k2: nat)
    requires BeginsAt(b, k) && 0 < n < |b| && (k >= n ==> k == n || (b[n-1] != '\\' && b[n] != ' '))
    ensures var (p, rest) := Flush(b, n, true, true); BrokenOff(b, k, p, rest, k2)
  {
    if k < n {
      BreakInside(b, k, n, n, true);
      k2 := 0;
    } else {
      BreakBefore(b, k, n, true);
      k2 := k - n;
    }
  }

  lemma OutCommented(w: Writer, stream: Text, k: nat, c: char) returns (v: Writer, k2: nat)
    requires Commented(w, stream, k)
    ensures v == Out(w, c) && Commented(v, stream, k2)
  {
    var b, lines := w.buffer, Reading(AllWritten(w.pieces));
    v := Out(w, c);
    if |b| < LINE_LENGTH {
      k2 := k;
      CommentStays(b, [c], k);
    } else {
      var (p, rest) := BreakOut(b);
      k2 := BreakComment(b, k);
      ReadMore(w.pieces, p);
      CommentStays(rest, [c], k2);
      Regroup(lines, ReadLine(Written(p)), rest[..k2]);
    }
  }

  lemma {:induction false} OutAllCommented(w: Writer, stream: Text, k: nat, s: Text) returns (k2: nat)
    requires Commented(w, stream, k)
    ensures Commented(OutAll(w, s), stream, k2)
    decreases |s|
  {
    if s == [] {
      k2 := k;
    } else {
      var v, k1 := OutCommented(w, stream, k, s[0]);
      k2 := OutAllCommented(v, stream, k1, s[1..]);
      assert OutAll(w, s) == OutAll(v, s[1..]);
    }
  }

  lemma {:induction false} OutAllBoth(w: Writer, a: Text, b: Text)
    ensures OutAll(w, a + b) == OutAll(OutAll(w, a), b)
    decreases |a|
  {
    if a == [] {
      assert a + b == b;
    } else {
      assert (a + b)[0] == a[0] && (a + b)[1..] == a[1..] + b;
      OutAllBoth(Out(w, a[0]), a[1..], b);
    }
  }

  /** Of a text with a comment TeX reads what is before the comment, exactly, and nothing of
      the comment, however the lines are broken. */
  lemma CommentsStayComments(t: Text, u: Text)
    requires Plain(t) && Tidy(t) && (t == "" || t[|t|-1] != '\\')
    ensures var w := OutAll(Writer([], ""), t + ("%" + u)); Reading(AllWritten(w.pieces)) + ReadOpen(w.buffer) == t
  {
    var start := Writer([], "");
    assert AllWritten([]) == [] && Reading([]) + "" == "" && "" + t == t;
    OutAllVerbatim(start, "", t);
    OutAllBoth(start, t, "%" + u);
    var w := OutAll(start, t);
    var k := CommentBegins(w, t);
    assert ("%" + u)[1..] == u && OutAll(w, "%" + u) == OutAll(Out(w, '%'), u);
    var k2 := OutAllCommented(Out(w, '%'), t, k, u);
    CommentIs(OutAll(Out(w, '%'), u).buffer, k2);
  }
}
