// Where a delivered line comes from (cweb/common.c:388-438, 453-506, 545-604).

module ChangeLines {
  import opened ChangeReader
  import opened ChangeMerge

  function Drop(lines: seq<Line>, n: nat): seq<Line> {
    if n <= |lines| then lines[n..] else []
  }

  /** The line counters tell how much of each file has been read. */
  ghost predicate Counted(s: Reader, web: seq<Line>, change: seq<Line>) {
    Lines(s.web) == Drop(web, s.curLine) && Lines(s.change) == Drop(change, s.changeLine)
  }

  /** The buffer holds line curLine of the web file. */
  predicate AtWebLine(s: Reader, web: seq<Line>) {
    0 < s.curLine <= |web| && s.buffer == web[s.curLine - 1]
  }

  predicate AtChangeLine(s: Reader, change: seq<Line>) {
    0 < s.changeLine <= |change| && s.buffer == Lower(change[s.changeLine - 1])
  }

  /** The line that is delivered is the one that the counter of its file tells. */
  predicate Exact(r: Reader, web: seq<Line>, change: seq<Line>) {
    if r.changing then AtChangeLine(r, change) else AtWebLine(r, web)
  }

  /** The call before which there were k complaints has ended with this one: the change
      file ended where @y was expected. An empty line stands for the web line. */
  predicate LineLost(r: Reader, k: nat) {
    k < |r.errors| && r.errors[|r.errors|-1] == EndedBeforeY && !r.changing && r.buffer == []
  }

  /** The line is exact, or lost in this very call. */
  predicate Genuine(r: Reader, k: nat, web: seq<Line>, change: seq<Line>) {
    Exact(r, web, change) || (LineLost(r, k) && 0 < r.curLine <= |web|)
  }

  /** The line after the one delivered last, in the same file. */
  predicate Follows(s: Reader, r: Reader) {
    r.changing == s.changing && if r.changing then r.changeLine == s.changeLine + 1 else r.curLine == s.curLine + 1
  }

  lemma DropMore(lines: seq<Line>, n: nat)
    ensures Drop(lines, n) != [] ==> n < |lines| && Drop(lines, n)[0] == lines[n] && Drop(lines, n)[1..] == Drop(lines, n + 1)
    ensures Drop(lines, n) == [] ==> Drop(lines, n + 1) == []
  {
  }

  lemma CountsChange(s: Reader, web: seq<Line>, change: seq<Line>)
    requires Counted(s, web, change)
    ensures var (r, ok) := ReadChange(s);
            && Counted(r, web, change) && |s.errors| <= |r.errors|
            && (ok ==> r.changeLine <= |change| && r.buffer == change[r.changeLine - 1])
            && (!ok ==> r.buffer == s.buffer || r.buffer == [])
            && r == s.(change := r.change, buffer := r.buffer, changeLine := s.changeLine + 1, errors := r.errors)
  {
    ReadsChange(s);
    DropMore(change, s.changeLine);
  }

  lemma CountsWeb(s: Reader, web: seq<Line>, change: seq<Line>)
    requires Counted(s, web, change)
    ensures var (r, ok) := ReadWeb(s);
            && Counted(r, web, change) && (ok ==> AtWebLine(r, web)) && |s.errors| <= |r.errors|
            && r == s.(web := r.web, buffer := r.buffer, curLine := s.curLine + 1, errors := r.errors)
  {
    ReadsWeb(s);
    DropMore(web, s.curLine);
  }

  lemma {:induction false} CountsSkipBlank(s: Reader, web: seq<Line>, change: seq<Line>)
    requires Counted(s, web, change)
    ensures var r := SkipBlank(s); Counted(r, web, change) && r.curLine == s.curLine && |s.errors| <= |r.errors|
    decreases Left(s.change)
  {
    var (s1, ok) := ReadChange(s);
    CountsChange(s, web, change);
    if ok && s1.buffer == [] {
      CountsSkipBlank(s1, web, change);
    }
  }

  lemma {:induction false} CountsFindX(s: Reader, web: seq<Line>, change: seq<Line>)
    requires Counted(s, web, change)
    ensures var r := FindX(s); Counted(r, web, change) && r.curLine == s.curLine && |s.errors| <= |r.errors|
    decreases Left(s.change)
  {
    var (s1, ok) := ReadChange(s);
    CountsChange(s, web, change);
    if ok {
      var s2 := s1.(buffer := Lower(s1.buffer));
      if Says(s1.buffer, 'x') {
        CountsSkipBlank(s2, web, change);
      } else if Says(s1.buffer, 'y') || Says(s1.buffer, 'z') || Says(s1.buffer, 'i') {
        CountsFindX(Complain(s2, MissingX), web, change);
      } else {
        CountsFindX(s2, web, change);
      }
    }
  }

  /** The buffer holds the last web line all through the loop of `check_change`; when it
      ends the change has begun, or the file has ended, or the web line is delivered. */
  lemma {:induction false} CountsCheckLoop(s: Reader, n: nat, web: seq<Line>, change: seq<Line>)
    requires Counted(s, web, change) && AtWebLine(s, web) && !s.ended
    ensures var r := CheckLoop(s, n);
            && Counted(r, web, change) && r.printWhere && |s.errors| <= |r.errors|
            && (r.changing || r.ended || Genuine(r, |s.errors|, web, change))
    decreases Left(s.change)
  {
    var t := CheckTurn(s, n);
    CountsTurn(s, n, web, change);
    if !t.done {
      CountsCheckLoop(t.s, t.n, web, change);
    }
  }

  lemma CountsTurn(s: Reader, n: nat, web: seq<Line>, change: seq<Line>)
    requires Counted(s, web, change) && AtWebLine(s, web) && !s.ended
    ensures var t := CheckTurn(s, n);
            && Counted(t.s, web, change) && t.s.printWhere && |s.errors| <= |t.s.errors|
            && if t.done then t.s.changing || t.s.ended || Genuine(t.s, |s.errors|, web, change) else AtWebLine(t.s, web) && !t.s.ended
  {
    var s0 := s.(changing := true, printWhere := true);
    var (s1, ok) := ReadChange(s0);
    CountsChange(s0, web, change);
    if ok && !Says(s1.buffer, 'y') {
      var s2 := s1.(buffer := Lower(s1.buffer));
      CountsCompare(if Says(s1.buffer, 'x') || Says(s1.buffer, 'z') then Complain(s2, WhereY) else s2, n, web, change);
    }
  }

  lemma CountsCompare(s: Reader, n: nat, web: seq<Line>, change: seq<Line>)
    requires Counted(s, web, change)
    ensures var t := Compare(s, n);
            && Counted(t.s, web, change) && t.s.printWhere == s.printWhere && |s.errors| <= |t.s.errors|
            && if t.done then t.s.ended else AtWebLine(t.s, web) && t.s.ended == s.ended
  {
    CountsWeb(s.(changeBuffer := s.buffer, changing := false), web, change);
  }

  lemma CountsFromChange(s: Reader, web: seq<Line>, change: seq<Line>)
    requires Counted(s, web, change) && s.changing && !s.ended
    ensures var r := FromChange(s);
            && Counted(r, web, change) && !r.ended && r.curLine == s.curLine && |s.errors| <= |r.errors|
            && if r.changing then Exact(r, web, change) && Follows(s, r) else r.printWhere
  {
    var (s0, ok) := ReadChange(s);
    CountsChange(s, web, change);
    var s1 := if ok then s0 else Complain(s0, EndedWithoutZ).(buffer := "@z");
    if Says(s1.buffer, 'z') {
      CountsPrime(s1.(buffer := Lower(s1.buffer)), web, change);
    }
  }

  lemma CountsPrime(s: Reader, web: seq<Line>, change: seq<Line>)
    requires Counted(s, web, change)
    ensures var r := Prime(s); Counted(r, web, change) && r.curLine == s.curLine && r.ended == s.ended && |s.errors| <= |r.errors|
  {
    CountsFindX(s.(changeBuffer := []), web, change);
    PrimeKeeps(s);
  }

  lemma CountsFromWeb(s: Reader, web: seq<Line>, change: seq<Line>)
    requires Counted(s, web, change) && !s.changing && !s.ended
    ensures var r := FromWeb(s);
            && Counted(r, web, change) && |s.errors| <= |r.errors|
            && if r.changing then r.printWhere else r.ended || (Genuine(r, |s.errors|, web, change) && (r.printWhere || Follows(s, r)))
  {
    var (s1, ok) := ReadWeb(s);
    CountsWeb(s, web, change);
    if ok && s1.buffer == s1.changeBuffer && s1.changeBuffer != [] {
      CountsCheckLoop(s1, 0, web, change);
    }
  }

  lemma StaysRaised(s: Reader)
    requires s.printWhere && !s.ended
    ensures s.changing ==> FromChange(s).printWhere
    ensures !s.changing ==> FromWeb(s).printWhere
  {
    if !s.changing {
      var (s1, ok) := ReadWeb(s);
      CheckLoopRaises(s1, 0);
    }
  }

  lemma {:induction false} CheckLoopRaises(s: Reader, n: nat)
    ensures CheckLoop(s, n).printWhere
    decreases Left(s.change)
  {
    var t := CheckTurn(s, n);
    if !t.done {
      CheckLoopRaises(t.s, t.n);
    }
  }

  /** A delivered line is the true line of its file, or it is the empty line that stands
      for one when the change file ends too early in this call; and if it is not the line
      after the one delivered before, print_where is raised. */
  lemma {:induction false} LinesAreGenuine(s: Reader, web: seq<Line>, change: seq<Line>)
    requires Counted(s, web, change) && !s.ended
    ensures var r := GetLine(s);
            && Counted(r, web, change) && |s.errors| <= |r.errors|
            && (!r.ended ==> Genuine(r, |s.errors|, web, change) && (r.printWhere || Follows(s, r)))
            && (s.printWhere ==> r.ended || r.printWhere)
    decreases Left(s.web) + Left(s.change), 1
  {
    if s.changing {
      CountsFromChange(s, web, change);
      FromChangeAdvances(s);
      if s.printWhere {
        StaysRaised(s);
      }
      if !FromChange(s).changing {
        WebLinesAreGenuine(FromChange(s), web, change);
      }
    } else {
      WebLinesAreGenuine(s, web, change);
    }
  }

  lemma {:induction false} WebLinesAreGenuine(s: Reader, web: seq<Line>, change: seq<Line>)
    requires Counted(s, web, change) && !s.ended && !s.changing
    ensures var r := GetWebLine(s);
            && Counted(r, web, change) && |s.errors| <= |r.errors|
            && (!r.ended ==> Genuine(r, |s.errors|, web, change) && (r.printWhere || Follows(s, r)))
            && (s.printWhere ==> r.ended || r.printWhere)
    decreases Left(s.web) + Left(s.change), 0
  {
    CountsFromWeb(s, web, change);
    FromWebAdvances(s);
    NotBoth(s);
    if s.printWhere {
      StaysRaised(s);
    }
    if FromWeb(s).changing {
      LinesAreGenuine(FromWeb(s), web, change);
    }
  }

  /** At the beginning the counters are right. */
  lemma StartIsCounted(web: seq<char>, change: seq<char>)
    ensures Counted(Start(web, change), Lines(Feed(web, 0, false)), Lines(Feed(change, 0, false))) && !Start(web, change).ended
  {
    var s := Reader(Feed(web, 0, false), Feed(change, 0, false), [], [], true, 0, 0, false, false, []);
    CountsFindX(s, Lines(s.web), Lines(s.change));
    FindXKeeps(s);
  }

  /** The state after n calls of `get_line`, each of which finds print_where lowered. */
  function StateAfter(s: Reader, n: nat): Reader {
    if n == 0 then s
    else
      var r := StateAfter(s, n - 1);
      if r.ended then r else GetLine(r.(printWhere := false))
  }

  /** In a whole run, whatever the files contain. */
  lemma {:induction false} EveryLineIsGenuine(web: seq<char>, change: seq<char>, n: nat)
    requires n > 0 && !StateAfter(Start(web, change), n).ended
    ensures var w, c := Lines(Feed(web, 0, false)), Lines(Feed(change, 0, false));
            var s, r := StateAfter(Start(web, change), n - 1), StateAfter(Start(web, change), n);
            Genuine(r, |s.errors|, w, c) && (r.printWhere || Follows(s, r))
  {
    var w, c := Lines(Feed(web, 0, false)), Lines(Feed(change, 0, false));
    var s := StateAfter(Start(web, change), n - 1);
    RunIsCounted(web, change, n - 1);
    LinesAreGenuine(s.(printWhere := false), w, c);
  }

  lemma {:induction false} RunIsCounted(web: seq<char>, change: seq<char>, n: nat)
    ensures Counted(StateAfter(Start(web, change), n), Lines(Feed(web, 0, false)), Lines(Feed(change, 0, false)))
  {
    if n == 0 {
      StartIsCounted(web, change);
    } else {
      RunIsCounted(web, change, n - 1);
      var r := StateAfter(Start(web, change), n - 1);
      if !r.ended {
        LinesAreGenuine(r.(printWhere := false), Lines(Feed(web, 0, false)), Lines(Feed(change, 0, false)));
      }
    }
  }
}
