// What the reader of changes complains about, said of the lines of the two files
// (cweb/common.c:366-383, 388-438, 443-507, 545-579).

module ChangeRemarks {
  import opened Basics
  import opened ChangeReader
  import opened ChangeMerge
  import opened ChangeText

  // ---------- the complaints that follow from the lines

  function Noted(wrong: bool, c: Complaint, rest: seq<Complaint>): seq<Complaint> {
    if wrong then [c] + rest else rest
  }

  /** Looking for @x, or for the first line to match behind it. */
  function Seeking(web: seq<Line>, change: seq<Line>): seq<Complaint>
    decreases |web| + |change|, 1, |change|
  {
    if change == [] then []
    else if Says(change[0], 'x') then Skipping(web, change[1..])
    else
      Noted(Says(change[0], 'y') || Says(change[0], 'z') || Says(change[0], 'i'), MissingX, Seeking(web, change[1..]))
  }

  function Skipping(web: seq<Line>, change: seq<Line>): seq<Complaint>
    decreases |web| + |change|, 1, |change|
  {
    if change == [] then [EndedAfterX]
    else if change[0] == [] then Skipping(web, change[1..])
    else Copying(web, change[0], change[1..])
  }

  /** Copying the web file up to a line like the first of the change. */
  function Copying(web: seq<Line>, first: Line, change: seq<Line>): seq<Complaint>
    decreases |web| + |change|, 0, 0
  {
    if web == [] then []
    else if first != [] && web[0] == first then Matching(web[1..], change)
    else Copying(web[1..], first, change)
  }

  /** The lines to match after the first, up to @y. */
  function Matching(web: seq<Line>, change: seq<Line>): seq<Complaint>
    decreases |web| + |change|, 0, 0
  {
    if change == [] then [EndedBeforeY]
    else if Says(change[0], 'y') then Replacing(web, change[1..])
    else
      Noted(Says(change[0], 'x') || Says(change[0], 'z'), WhereY,
            if web == [] then [WebEnded] else Matching(web[1..], change[1..]))
  }

  /** The lines that replace them, up to @z. */
  function Replacing(web: seq<Line>, change: seq<Line>): seq<Complaint>
    decreases |web| + |change|, 0, 0
  {
    if change == [] then [EndedWithoutZ]
    else if Says(change[0], 'z') then Seeking(web, change[1..])
    else Noted(Says(change[0], 'x') || Says(change[0], 'y'), WhereZ, Replacing(web, change[1..]))
  }

  // ---------- those that were made

  /** All but those of changed lines that differ and of lines that are too long. */
  function Remarks(errors: seq<Complaint>): seq<Complaint> {
    if errors == [] then []
    else
      var n := |errors| - 1;
      Remarks(errors[..n]) + if errors[n].Mismatch? || errors[n].TooLong? then [] else [errors[n]]
  }

  /** How often a line was too long, and how often one still will be. */
  function Long(errors: seq<Complaint>): nat {
    if errors == [] then 0
    else
      var n := |errors| - 1;
      Long(errors[..n]) + if errors[n].TooLong? then 1 else 0
  }

  function Cuts(f: Feed): nat
    decreases Left(f)
  {
    var i := InputLn(f, []);
    if i.ok then (if i.tooLong then 1 else 0) + Cuts(i.feed) else 0
  }

  function Ahead(s: Reader): seq<Complaint> {
    if s.ended then []
    else if s.changing then Replacing(Lines(s.web), Lines(s.change))
    else Copying(Lines(s.web), s.changeBuffer, Lines(s.change))
  }

  function LongTotal(s: Reader): nat {
    Long(s.errors) + Cuts(s.web) + Cuts(s.change)
  }

  // ---------- single steps

  lemma ComplainRemarks(s: Reader, c: Complaint)
    ensures Remarks(Complain(s, c).errors) == Remarks(s.errors) + if c.Mismatch? || c.TooLong? then [] else [c]
    ensures Long(Complain(s, c).errors) == Long(s.errors) + if c.TooLong? then 1 else 0
  {
    assert (s.errors + [c])[..|s.errors|] == s.errors;
  }

  lemma CutsOnce(f: Feed, buffer: Line)
    ensures var i := InputLn(f, buffer); Cuts(f) == Cuts(i.feed) + if i.tooLong then 1 else 0
  {
    var i := InputLn(f, []);
    assert f.eof || f.pos > |f.text| || InputLn(f, buffer) == i;
    if !i.ok { assert !InputLn(i.feed, []).ok; }
  }

  lemma ReadChangeRemarks(s: Reader)
    ensures var (r, ok) := ReadChange(s); Remarks(r.errors) == Remarks(s.errors) && LongTotal(r) == LongTotal(s)
  {
    CutsOnce(s.change, s.buffer);
    ComplainRemarks(s, TooLong);
    NothingMore(Remarks(s.errors));
  }

  lemma ReadWebRemarks(s: Reader)
    ensures var (r, ok) := ReadWeb(s); Remarks(r.errors) == Remarks(s.errors) && LongTotal(r) == LongTotal(s)
  {
    CutsOnce(s.web, s.buffer);
    ComplainRemarks(s, TooLong);
    NothingMore(Remarks(s.errors));
  }

  /** `was` and `still` to come at s is what `now` and `then` at r is. */
  ghost predicate Carried(s: Reader, ahead: seq<Complaint>, r: Reader, later: seq<Complaint>) {
    Remarks(s.errors) + ahead == Remarks(r.errors) + later && LongTotal(s) == LongTotal(r)
  }

  lemma CarryNote(s: Reader, wrong: bool, c: Complaint, rest: seq<Complaint>)
    requires !c.Mismatch? && !c.TooLong?
    ensures Carried(s, Noted(wrong, c, rest), if wrong then Complain(s, c) else s, rest)
  {
    ComplainRemarks(s, c);
    Regroup(Remarks(s.errors), [c], rest);
  }

  lemma CarryLast(s: Reader, c: Complaint)
    requires !c.Mismatch? && !c.TooLong?
    ensures Carried(s, [c], Complain(s, c), [])
  {
    ComplainRemarks(s, c);
    NothingMore(Remarks(s.errors) + [c]);
  }

  lemma {:induction false} CopyNothing(web: seq<Line>, change: seq<Line>)
    ensures Copying(web, [], change) == []
    decreases |web|
  {
    if web != [] {
      CopyNothing(web[1..], change);
    }
  }

  // ---------- looking for the next change

  // A line has been read from the change file, or its end.
  ghost predicate LineTaken(s: Reader, s1: Reader, ok: bool, change: seq<Line>) {
    && Remarks(s1.errors) == Remarks(s.errors) && LongTotal(s1) == LongTotal(s)
    && (ok <==> change != []) && (ok ==> s1.buffer == change[0] && Lines(s1.change) == change[1..])
    && (!ok ==> Lines(s1.change) == [])
    && s1.web == s.web && s1.changeBuffer == s.changeBuffer && s1.changing == s.changing && s1.ended == s.ended
  }

  lemma TakesLine(s: Reader) returns (s1: Reader, ok: bool)
    ensures (s1, ok) == ReadChange(s) && LineTaken(s, s1, ok, Lines(s.change))
  {
    s1, ok := ReadChange(s).0, ReadChange(s).1;
    ReadsChange(s);
    ReadChangeRemarks(s);
  }

  lemma {:induction false} SkipBlankRemarks(s: Reader, web: seq<Line>, change: seq<Line>)
    requires s.changeBuffer == [] && web == Lines(s.web) && change == Lines(s.change)
    ensures var r := SkipBlank(s); Carried(s, Skipping(web, change), r, Copying(web, r.changeBuffer, Lines(r.change)))
    decreases Left(s.change)
  {
    var s1, ok := TakesLine(s);
    if ok && s1.buffer == [] { SkipBlankRemarks(s1, web, change[1..]); }
    SkipStep(s, s1, ok, web, change, SkipBlank(s));
  }

  lemma SkipStep(s: Reader, s1: Reader, ok: bool, web: seq<Line>, change: seq<Line>, r: Reader)
    requires s.changeBuffer == [] && LineTaken(s, s1, ok, change)
    requires !ok ==> r == Complain(s1, EndedAfterX)
    requires ok && s1.buffer != [] ==> r == s1.(changeBuffer := s1.buffer)
    requires ok && s1.buffer == [] ==> Carried(s1, Skipping(web, change[1..]), r, Copying(web, r.changeBuffer, Lines(r.change)))
    ensures Carried(s, Skipping(web, change), r, Copying(web, r.changeBuffer, Lines(r.change)))
  {
    if !ok {
      CarryLast(s1, EndedAfterX);
      CopyNothing(web, Lines(s1.change));
    }
  }

  lemma {:induction false} FindXRemarks(s: Reader, web: seq<Line>, change: seq<Line>)
    requires s.changeBuffer == [] && web == Lines(s.web) && change == Lines(s.change)
    ensures var r := FindX(s); Carried(s, Seeking(web, change), r, Copying(web, r.changeBuffer, Lines(r.change)))
    decreases Left(s.change)
  {
    var s1, ok := TakesLine(s);
    if !ok {
      CopyNothing(web, Lines(s1.change));
    } else {
      var s2 := s1.(buffer := Lower(s1.buffer));
      if Says(s1.buffer, 'x') {
        SkipBlankRemarks(s2, web, change[1..]);
      } else {
        var wrong := Says(s1.buffer, 'y') || Says(s1.buffer, 'z') || Says(s1.buffer, 'i');
        CarryNote(s2, wrong, MissingX, Seeking(web, change[1..]));
        FindXRemarks(if wrong then Complain(s2, MissingX) else s2, web, change[1..]);
      }
    }
  }

  lemma PrimeRemarks(s: Reader)
    ensures var r := Prime(s); Carried(s, Seeking(Lines(s.web), Lines(s.change)), r, Copying(Lines(r.web), r.changeBuffer, Lines(r.change)))
  {
    FindXRemarks(s.(changeBuffer := []), Lines(s.web), Lines(s.change));
    FindsX(s.(changeBuffer := []));
  }

  // ---------- matching and replacing

  lemma CompareRemarks(s: Reader, n: nat, web: seq<Line>, change: seq<Line>)
    requires !s.ended && web == Lines(s.web) && change == Lines(s.change)
    ensures var t := Compare(s, n);
            if t.done then Carried(s, if web == [] then [WebEnded] else Matching(web[1..], change), t.s, Ahead(t.s))
            else && !t.s.ended
                 && Carried(s, if web == [] then [WebEnded] else Matching(web[1..], change), t.s,
                            Matching(Lines(t.s.web), Lines(t.s.change)))
  {
    var s4 := s.(changeBuffer := s.buffer, changing := false);
    var (s5, more) := ReadWeb(s4);
    ReadsWeb(s4);
    ReadWebRemarks(s4);
    if !more {
      CarryLast(s5, WebEnded);
    }
  }

  /** What a turn of the loop leaves to be said. */
  ghost predicate TurnCarried(s: Reader, m: seq<Complaint>, t: Turn) {
    if t.done then Carried(s, m, t.s, Ahead(t.s))
    else !t.s.ended && Carried(s, m, t.s, Matching(Lines(t.s.web), Lines(t.s.change)))
  }

  lemma TurnRemarks(s: Reader, n: nat, web: seq<Line>, change: seq<Line>)
    requires !s.ended && web == Lines(s.web) && change == Lines(s.change)
    ensures TurnCarried(s, Matching(web, change), CheckTurn(s, n))
  {
    var s0 := s.(changing := true, printWhere := true);
    var s1, ok := TakesLine(s0);
    if !ok {
      CarryLast(s1, EndedBeforeY);
      CopyNothing(web, Lines(s1.change));
    } else if Says(s1.buffer, 'y') {
      MatchedRemarks(s1.(buffer := Lower(s1.buffer)), n);
    } else {
      LineRemarks(s, s1.(buffer := Lower(s1.buffer)), Says(s1.buffer, 'x') || Says(s1.buffer, 'z'), n, web, change, CheckTurn(s, n));
    }
  }

  lemma MatchedRemarks(s: Reader, n: nat)
    ensures var r := if n > 0 then Complain(s, Mismatch(n)) else s; Remarks(r.errors) == Remarks(s.errors) && LongTotal(r) == LongTotal(s)
  {
    ComplainRemarks(s, Mismatch(n));
    NothingMore(Remarks(s.errors));
  }

  lemma LineRemarks(s: Reader, s2: Reader, wrong: bool, n: nat, web: seq<Line>, change: seq<Line>, t: Turn)
    requires !s2.ended && web == Lines(s2.web) && change != [] && Lines(s2.change) == change[1..] && !Says(change[0], 'y')
    requires wrong == (Says(change[0], 'x') || Says(change[0], 'z')) && t == Compare(if wrong then Complain(s2, WhereY) else s2, n)
    requires Remarks(s2.errors) == Remarks(s.errors) && LongTotal(s2) == LongTotal(s)
    ensures TurnCarried(s, Matching(web, change), t)
  {
    CarryNote(s2, wrong, WhereY, if web == [] then [WebEnded] else Matching(web[1..], change[1..]));
    CompareRemarks(if wrong then Complain(s2, WhereY) else s2, n, web, change[1..]);
  }

  lemma {:induction false} CheckLoopRemarks(s: Reader, n: nat)
    requires !s.ended
    ensures var r := CheckLoop(s, n); Carried(s, Matching(Lines(s.web), Lines(s.change)), r, Ahead(r))
    decreases Left(s.change)
  {
    var t := CheckTurn(s, n);
    TurnRemarks(s, n, Lines(s.web), Lines(s.change));
    if !t.done {
      CheckLoopRemarks(t.s, t.n);
    }
  }

  lemma FromChangeRemarks(s: Reader)
    requires s.changing && !s.ended
    ensures var r := FromChange(s); !r.ended && Carried(s, Ahead(s), r, Ahead(r))
  {
    var r, ok := TakesLine(s);
    var s1 := if ok then r else Complain(r, EndedWithoutZ).(buffer := "@z");
    var s2 := s1.(buffer := Lower(s1.buffer));
    if !ok { EndReplaces(r, Lines(s.web)); }
    ReplacedRemarks(s, r, ok, s2, Lines(s.web), Lines(s.change), FromChange(s));
  }

  lemma EndReplaces(r: Reader, web: seq<Line>)
    ensures Carried(r, Replacing(web, []), Complain(r, EndedWithoutZ), Seeking(web, []))
  {
    CarryLast(r, EndedWithoutZ);
  }

  lemma ReplacedRemarks(s: Reader, r: Reader, ok: bool, s2: Reader, web: seq<Line>, change: seq<Line>, u: Reader)
    requires s.changing && !s.ended && LineTaken(s, r, ok, change) && web == Lines(s.web) && Lines(r.change) == (if ok then change[1..] else [])
    requires s2 == if ok then r.(buffer := Lower(r.buffer)) else Complain(r, EndedWithoutZ).(buffer := Lower("@z"))
    requires !ok ==> Carried(r, Replacing(web, []), Complain(r, EndedWithoutZ), Seeking(web, []))
    requires u == if !ok || Says(r.buffer, 'z') then Prime(s2).(changing := false, printWhere := true)
                  else if Says(r.buffer, 'x') || Says(r.buffer, 'y') then Complain(s2, WhereZ) else s2
    ensures !u.ended && Carried(s, Replacing(web, change), u, Ahead(u))
  {
    if !ok || Says(r.buffer, 'z') {
      ChangeIsOver(s2, web, if ok then change[1..] else []);
    } else {
      CarryNote(s2, Says(r.buffer, 'x') || Says(r.buffer, 'y'), WhereZ, Replacing(web, change[1..]));
    }
  }

  lemma ChangeIsOver(s: Reader, web: seq<Line>, change: seq<Line>)
    requires !s.ended && web == Lines(s.web) && change == Lines(s.change)
    ensures var r := Prime(s).(changing := false, printWhere := true); !r.ended && Carried(s, Seeking(web, change), r, Ahead(r))
  {
    PrimeRemarks(s);
    PrimeKeeps(s);
  }

  lemma FromWebRemarks(s: Reader)
    requires !s.changing && !s.ended
    ensures var r := FromWeb(s); Carried(s, Ahead(s), r, Ahead(r))
  {
    var (s1, ok) := ReadWeb(s);
    ReadsWeb(s);
    ReadWebRemarks(s);
    if ok && s1.buffer == s1.changeBuffer && s1.changeBuffer != [] {
      CheckLoopRemarks(s1, 0);
    }
  }

  // ---------- all lines

  lemma {:induction false} GetLineRemarks(s: Reader)
    requires !s.ended
    ensures var r := GetLine(s); Carried(s, Ahead(s), r, Ahead(r))
    decreases Left(s.web) + Left(s.change), 1
  {
    if s.changing {
      FromChangeRemarks(s);
      FromChangeAdvances(s);
      if !FromChange(s).changing {
        WebLineRemarks(FromChange(s));
      }
    } else {
      WebLineRemarks(s);
    }
  }

  lemma {:induction false} WebLineRemarks(s: Reader)
    requires !s.ended && !s.changing
    ensures var r := GetWebLine(s); Carried(s, Ahead(s), r, Ahead(r))
    decreases Left(s.web) + Left(s.change), 0
  {
    FromWebRemarks(s);
    FromWebAdvances(s);
    NotBoth(s);
    if FromWeb(s).changing {
      GetLineRemarks(FromWeb(s));
    }
  }

  lemma {:induction false} DeliverRemarks(s: Reader)
    ensures var end := Deliver(s).1; end.ended && Carried(s, Ahead(s), end, [])
    decreases Left(s.web) + Left(s.change)
  {
    if !s.ended {
      GetLineAdvances(s);
      GetLineRemarks(s);
      var r := GetLine(s);
      if !r.ended {
        DeliverRemarks(r);
      }
    }
  }

  /** Reading a web file with a change file, whatever they are, complains exactly about what
      is wrong with their lines, in their order; and about as many lines that are too long
      as have been cut. */
  lemma ReadingRemarks(web: seq<char>, change: seq<char>)
    ensures var w, c := Feed(web, 0, false), Feed(change, 0, false);
            var end := Deliver(Start(web, change)).1;
            && Remarks(end.errors) == Seeking(Lines(w), Lines(c))
            && Long(end.errors) + Cuts(end.web) + Cuts(end.change) == Cuts(w) + Cuts(c)
  {
    var s := Reader(Feed(web, 0, false), Feed(change, 0, false), [], [], true, 0, 0, false, false, []);
    PrimeRemarks(s);
    PrimeKeeps(s);
    var start := Start(web, change);
    assert Carried(s, Seeking(Lines(s.web), Lines(s.change)), start, Ahead(start));
    DeliverRemarks(start);
    var end := Deliver(start).1;
    NothingMore(Remarks(end.errors));
    assert [] + Seeking(Lines(s.web), Lines(s.change)) == Seeking(Lines(s.web), Lines(s.change));
  }

  // ---------- lines that are too long

  lemma {:induction false} NewlinesLater(s: seq<char>, k: nat)
    requires k <= NewlineAt(s)
    ensures Newlines(s[k..]) == Newlines(s)
    decreases k
  {
    if k == 0 {
      assert s[0..] == s;
    } else {
      NewlinesLater(s[1..], k - 1);
      assert s[1..][k-1..] == s[k..];
    }
  }

  lemma {:induction false} CutsFrom(f: Feed, s: seq<char>)
    requires !f.eof && f.pos <= |f.text| && s == f.text[f.pos..]
    ensures Cuts(f) == |AllPortions(Split(s))| - |Split(s)|
    decreases Left(f)
  {
    var n := NewlineAt(s);
    InputIsPortion(f, [], s, n);
    var i := InputLn(f, []);
    if n > CAPACITY {
      assert i.feed.text[i.feed.pos..] == s[CAPACITY..];
      SplitLong(s, n);
      CutsFrom(i.feed, s[CAPACITY..]);
      SplitCount(s);
      SplitCount(s[CAPACITY..]);
      NewlinesLater(s, CAPACITY);
    } else if n < |s| {
      assert i.feed.text[i.feed.pos..] == s[n+1..];
      FirstPiece(s, n, s[..n], Split(s[n+1..]));
      CutsFrom(i.feed, s[n+1..]);
    } else {
      FirstPiece(s, n, s, []);
      assert s[..n] == s && Cuts(i.feed) == 0;
    }
  }

  /** A file has as many lines that are too long as its portions are more than its lines. */
  lemma CutsOfText(text: seq<char>)
    ensures Cuts(Feed(text, 0, false)) == |AllPortions(Split(text))| - |Split(text)|
  {
    assert text[0..] == text;
    CutsFrom(Feed(text, 0, false), text);
  }
}
