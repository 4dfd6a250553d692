// The lines of a file, from its characters alone (cweb/common.c:366-383).

module ChangeText {
  import opened Basics
  import opened ChangeReader
  import opened ChangeMerge

  // ---------- blanks at the end

  /** A line without its blanks at the end. */
  lemma {:induction false} TrimMeans(s: Line)
    ensures var t := Trim(s); |t| <= |s| && t == s[..|t|] && (t != [] ==> t[|t|-1] != ' ') && forall i :: |t| <= i < |s| ==> s[i] == ' '
    decreases |s|
  {
    if s != [] && s[|s|-1] == ' ' {
      var front := s[..|s|-1];
      TrimMeans(front);
      assert forall i :: 0 <= i < |front| ==> s[i] == front[i];
    }
  }

  // ---------- pieces between newlines

  /** Where the first newline is, or the end. */
  function NewlineAt(s: seq<char>): (n: nat)
    ensures n <= |s| && (n < |s| ==> s[n] == '\n') && '\n' !in s[..n]
  {
    if s == [] || s[0] == '\n' then 0
    else
      var m := NewlineAt(s[1..]);
      assert s[..m+1] == [s[0]] + s[1..][..m];
      m + 1
  }

  /** The text between its newlines. */
  function Split(s: seq<char>): (r: seq<Line>)
    ensures r != []
    decreases |s|
  {
    var n := NewlineAt(s);
    if n == |s| then [s] else [s[..n]] + Split(s[n+1..])
  }

  /** A piece that does not fit into the buffer is read in portions. */
  function Portions(s: Line): (r: seq<Line>)
    ensures r != []
    decreases |s|
  {
    if |s| <= CAPACITY then [s] else [s[..CAPACITY]] + Portions(s[CAPACITY..])
  }

  function AllPortions(pieces: seq<Line>): (r: seq<Line>)
    ensures pieces != [] ==> r != []
  {
    if pieces == [] then [] else Portions(pieces[0]) + AllPortions(pieces[1..])
  }

  /** All of them without their blanks at the end; the last is none if it is blank. */
  function Trimmed(pieces: seq<Line>): seq<Line> {
    if pieces == [] then []
    else if |pieces| == 1 && Trim(pieces[0]) == [] then []
    else [Trim(pieces[0])] + Trimmed(pieces[1..])
  }

  /** Characters that can be seen. */
  function Seen(s: seq<char>): seq<char> {
    if s == [] then [] else (if s[0] == ' ' || s[0] == '\n' then [] else [s[0]]) + Seen(s[1..])
  }

  function Newlines(s: seq<char>): nat {
    if s == [] then 0 else (if s[0] == '\n' then 1 else 0) + Newlines(s[1..])
  }

  function Joined(lines: seq<Line>): seq<char> {
    if lines == [] then [] else lines[0] + Joined(lines[1..])
  }

  // ---------- one call

  lemma {:induction false} LineEndIs(text: seq<char>, from: nat, room: nat)
    requires from <= |text|
    ensures var n := NewlineAt(text[from..]); LineEnd(text, from, room) == from + if n <= room then n else room
    decreases room
  {
    var s := text[from..];
    if room > 0 && from < |text| && text[from] != '\n' {
      assert s[0] == text[from] && s[1..] == text[from+1..];
      LineEndIs(text, from + 1, room - 1);
    }
  }

  lemma PartOfRest(text: seq<char>, from: nat, to: nat, n: nat)
    requires from <= to == from + n <= |text|
    ensures text[from..to] == text[from..][..n]
  {
  }

  /** One call reads up to the next newline, or as much as the buffer holds: there is a line
      unless the text ends and nothing but blanks is left of it. */
  lemma InputIsPortion(f: Feed, buffer: Line, s: seq<char>, n: nat)
    requires !f.eof && f.pos <= |f.text| && s == f.text[f.pos..] && n == NewlineAt(s)
    ensures var i := InputLn(f, buffer);
            && i.tooLong == (n > CAPACITY) && i.line == Trim(if n > CAPACITY then s[..CAPACITY] else s[..n])
            && i.ok == (n < |s| || n > CAPACITY || i.line != [])
            && i.feed.text == f.text && i.feed.eof == (n == |s| && n <= CAPACITY)
            && i.feed.pos == f.pos + if n > CAPACITY then CAPACITY else if n < |s| then n + 1 else n
  {
    LineEndIs(f.text, f.pos, CAPACITY);
    var e := LineEnd(f.text, f.pos, CAPACITY);
    PartOfRest(f.text, f.pos, e, e - f.pos);
    if n > CAPACITY { assert '\n' !in s[..n] && s[CAPACITY] == s[..n][CAPACITY]; }
  }

  // ---------- whole files

  lemma SplitLong(s: seq<char>, n: nat)
    requires n == NewlineAt(s) > CAPACITY
    ensures AllPortions(Split(s)) == [s[..CAPACITY]] + AllPortions(Split(s[CAPACITY..]))
  {
    var t := s[CAPACITY..];
    NewlineLater(s, n, CAPACITY);
    var first, rest := s[..n], if n == |s| then [] else Split(s[n+1..]);
    assert n < |s| ==> t[n-CAPACITY+1..] == s[n+1..];
    PartOfFront(s, CAPACITY, n, n - CAPACITY);
    FirstPiece(s, n, first, rest);
    FirstPiece(t, n - CAPACITY, first[CAPACITY..], rest);
    Regroup([first[..CAPACITY]], Portions(first[CAPACITY..]), AllPortions(rest));
  }

  lemma PartOfFront(s: seq<char>, k: nat, n: nat, m: nat)
    requires k <= n == k + m <= |s|
    ensures s[k..][..m] == s[..n][k..] && s[..n][..k] == s[..k]
  {
  }

  lemma FirstPiece(s: seq<char>, n: nat, first: Line, rest: seq<Line>)
    requires n == NewlineAt(s) && first == s[..n] && rest == if n == |s| then [] else Split(s[n+1..])
    ensures Split(s) == [first] + rest && AllPortions(Split(s)) == Portions(first) + AllPortions(rest)
  {
    assert n == |s| ==> s[..n] == s && [s] == [first] + [];
    assert ([first] + rest)[1..] == rest;
  }

  lemma {:induction false} NewlineLater(s: seq<char>, n: nat, k: nat)
    requires n == NewlineAt(s) && k <= n
    ensures NewlineAt(s[k..]) == n - k
    decreases k
  {
    if k == 0 {
      assert s[0..] == s;
    } else {
      NewlineLater(s[1..], n - 1, k - 1);
      assert s[1..][k-1..] == s[k..];
    }
  }

  lemma TrimmedMore(first: Line, rest: seq<Line>)
    ensures rest != [] ==> Trimmed([first] + rest) == [Trim(first)] + Trimmed(rest)
    ensures Trimmed([first]) == if Trim(first) == [] then [] else [Trim(first)]
  {
    assert ([first] + rest)[1..] == rest && [first][1..] == [];
  }

  lemma {:induction false} LinesFrom(f: Feed, s: seq<char>)
    requires !f.eof && f.pos <= |f.text| && s == f.text[f.pos..]
    ensures Lines(f) == Trimmed(AllPortions(Split(s))) && (Torn(f) <==> Trim(LastOf(AllPortions(Split(s)))) != [])
    decreases Left(f)
  {
    var n := NewlineAt(s);
    InputIsPortion(f, [], s, n);
    var i := InputLn(f, []);
    if n > CAPACITY {
      assert i.feed.text[i.feed.pos..] == s[CAPACITY..];
      SplitLong(s, n);
      LinesFrom(i.feed, s[CAPACITY..]);
      TrimmedMore(s[..CAPACITY], AllPortions(Split(s[CAPACITY..])));
      LastOfMore(s[..CAPACITY], AllPortions(Split(s[CAPACITY..])));
    } else if n < |s| {
      assert i.feed.text[i.feed.pos..] == s[n+1..];
      FirstPiece(s, n, s[..n], Split(s[n+1..]));
      LinesFrom(i.feed, s[n+1..]);
      TrimmedMore(s[..n], AllPortions(Split(s[n+1..])));
      LastOfMore(s[..n], AllPortions(Split(s[n+1..])));
    } else {
      FirstPiece(s, n, s, []);
      assert s[..n] == s && [s] + [] == [s];
      TrimmedMore(s, []);
      assert Lines(i.feed) == [] && Torn(i.feed);
    }
  }

  function LastOf(pieces: seq<Line>): Line
    requires pieces != []
  {
    pieces[|pieces|-1]
  }

  lemma LastOfMore(first: Line, rest: seq<Line>)
    requires rest != []
    ensures LastOf([first] + rest) == LastOf(rest)
  {
  }

  /** The lines of a file are the pieces between its newlines, in portions that fit into the
      buffer and without blanks at their ends; a last piece of blanks is none. The file is
      torn exactly if there is such a last piece that is not blank. */
  lemma LinesArePortions(text: seq<char>)
    ensures Lines(Feed(text, 0, false)) == Trimmed(AllPortions(Split(text)))
    ensures Torn(Feed(text, 0, false)) <==> Trim(LastOf(AllPortions(Split(text)))) != []
  {
    assert text[0..] == text;
    LinesFrom(Feed(text, 0, false), text);
  }

  // ---------- nothing is lost

  lemma {:induction false} SeenBoth(a: seq<char>, b: seq<char>)
    ensures Seen(a + b) == Seen(a) + Seen(b)
    decreases |a|
  {
    if a == [] {
      assert a + b == b;
    } else {
      SeenBoth(a[1..], b);
      assert (a + b)[1..] == a[1..] + b && (a + b)[0] == a[0];
    }
  }

  lemma {:induction false} SeenTrim(s: Line)
    ensures Seen(Trim(s)) == Seen(s)
    decreases |s|
  {
    if s != [] && s[|s|-1] == ' ' {
      SeenTrim(s[..|s|-1]);
      SeenBoth(s[..|s|-1], [' ']);
      assert s == s[..|s|-1] + [' '];
    }
  }

  lemma {:induction false} SeenTrimmed(pieces: seq<Line>)
    ensures Seen(Joined(Trimmed(pieces))) == Seen(Joined(pieces))
    decreases |pieces|
  {
    if pieces != [] {
      SeenTrimmed(pieces[1..]);
      SeenTrim(pieces[0]);
      SeenBoth(pieces[0], Joined(pieces[1..]));
      SeenBoth(Trim(pieces[0]), Joined(Trimmed(pieces[1..])));
      assert |pieces| == 1 ==> pieces[1..] == [];
    }
  }

  lemma {:induction false} JoinedBoth(a: seq<Line>, b: seq<Line>)
    ensures Joined(a + b) == Joined(a) + Joined(b)
    decreases |a|
  {
    if a == [] {
      assert a + b == b;
    } else {
      JoinedBoth(a[1..], b);
      assert (a + b)[1..] == a[1..] + b && (a + b)[0] == a[0];
    }
  }

  lemma {:induction false} JoinedPortions(s: Line)
    ensures Joined(Portions(s)) == s
    decreases |s|
  {
    if |s| <= CAPACITY {
      assert Joined([s]) == s + Joined([]);
    } else {
      JoinedPortions(s[CAPACITY..]);
      assert s == s[..CAPACITY] + s[CAPACITY..] && Portions(s)[1..] == Portions(s[CAPACITY..]);
    }
  }

  lemma {:induction false} JoinedAll(pieces: seq<Line>)
    ensures Joined(AllPortions(pieces)) == Joined(pieces)
    decreases |pieces|
  {
    if pieces != [] {
      JoinedAll(pieces[1..]);
      JoinedPortions(pieces[0]);
      JoinedBoth(Portions(pieces[0]), AllPortions(pieces[1..]));
    }
  }

  lemma {:induction false} SeenSplit(s: seq<char>)
    ensures Seen(Joined(Split(s))) == Seen(s)
    decreases |s|
  {
    var n := NewlineAt(s);
    if n == |s| {
      assert Split(s) == [s] && Joined([s]) == s + Joined([]) == s;
    } else {
      SeenSplit(s[n+1..]);
      SeenBoth(s[..n], Joined(Split(s[n+1..])));
      SeenBoth(s[..n], s[n..]);
      assert s == s[..n] + s[n..] && s[n..][1..] == s[n+1..];
      assert Split(s)[1..] == Split(s[n+1..]);
    }
  }

  /** Whatever the text, its lines hold the characters of it that are no blanks and no
      newlines, all of them and in their order. */
  lemma LinesKeepSeen(text: seq<char>)
    ensures Seen(Joined(Lines(Feed(text, 0, false)))) == Seen(text)
  {
    LinesArePortions(text);
    SeenTrimmed(AllPortions(Split(text)));
    JoinedAll(Split(text));
    SeenSplit(text);
  }

  predicate IsPiece(s: Line) {
    '\n' !in s && |s| <= CAPACITY
  }

  lemma {:induction false} PortionsArePieces(s: Line)
    requires '\n' !in s
    ensures forall p <- Portions(s) :: IsPiece(p)
    decreases |s|
  {
    if |s| > CAPACITY {
      PortionsArePieces(s[CAPACITY..]);
      assert IsPiece(s[..CAPACITY]);
    }
  }

  lemma {:induction false} SplitIsPieces(s: seq<char>)
    ensures forall p <- AllPortions(Split(s)) :: IsPiece(p)
    decreases |s|
  {
    var n := NewlineAt(s);
    if n == |s| {
      assert s[..n] == s;
      PortionsArePieces(s);
      assert AllPortions([s]) == Portions(s) + AllPortions([]);
    } else {
      PortionsArePieces(s[..n]);
      SplitIsPieces(s[n+1..]);
      assert Split(s)[1..] == Split(s[n+1..]);
    }
  }

  lemma {:induction false} TrimmedPieces(pieces: seq<Line>)
    requires forall p <- pieces :: IsPiece(p)
    ensures forall l <- Trimmed(pieces) :: IsPiece(l) && (l != [] ==> l[|l|-1] != ' ')
    decreases |pieces|
  {
    if pieces != [] {
      TrimMeans(pieces[0]);
      assert IsPiece(pieces[0]);
      TrimmedPieces(pieces[1..]);
    }
  }

  /** No line holds a newline, is longer than the buffer, or ends in a blank. */
  lemma LinesAreTrim(text: seq<char>)
    ensures forall l <- Lines(Feed(text, 0, false)) :: '\n' !in l && |l| <= CAPACITY && (l != [] ==> l[|l|-1] != ' ')
  {
    LinesArePortions(text);
    SplitIsPieces(text);
    TrimmedPieces(AllPortions(Split(text)));
  }

  // ---------- counting

  lemma {:induction false} TrimmedCount(pieces: seq<Line>)
    requires pieces != []
    ensures |Trimmed(pieces)| == |pieces| - if Trim(LastOf(pieces)) == [] then 1 else 0
    decreases |pieces|
  {
    if |pieces| > 1 {
      TrimmedCount(pieces[1..]);
    } else {
      assert Trimmed(pieces[1..]) == [];
    }
  }

  lemma {:induction false} SplitCount(s: seq<char>)
    ensures |Split(s)| == Newlines(s) + 1
    decreases |s|
  {
    if s != [] {
      SplitCount(s[1..]);
      var m := NewlineAt(s[1..]);
      if s[0] == '\n' {
        assert s[..0] == [];
      } else if m < |s| - 1 {
        assert s[1..][m+1..] == s[m+2..];
      }
    }
  }

  lemma {:induction false} ShortPortions(pieces: seq<Line>)
    requires forall k :: 0 <= k < |pieces| ==> |pieces[k]| <= CAPACITY
    ensures AllPortions(pieces) == pieces
    decreases |pieces|
  {
    if pieces != [] {
      ShortPortions(pieces[1..]);
    }
  }

  /** If the buffer holds every line there is one for each newline, and one more exactly if
      something other than blanks follows the last newline. */
  lemma LinesCount(text: seq<char>)
    requires forall k :: 0 <= k < |Split(text)| ==> |Split(text)[k]| <= CAPACITY
    ensures |Lines(Feed(text, 0, false))| == Newlines(text) + if Trim(LastOf(Split(text))) != [] then 1 else 0
  {
    LinesArePortions(text);
    ShortPortions(Split(text));
    TrimmedCount(Split(text));
    SplitCount(text);
  }
}
