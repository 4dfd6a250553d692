// The reader that merges a web file with a change file, on values
// (cweb/common.c:364-383, 388-438, 443-507, 512-537, 542-605, 673-682).

module ChangeReader {

  type Line = seq<char>

  const BUF_SIZE := 100
  // What fits between the start of the buffer and buffer_end.
  const CAPACITY := BUF_SIZE - 1

  /** A file that is being read; `eof` is set by the first attempt to read past the end. */
  datatype Feed = Feed(text: seq<char>, pos: nat, eof: bool)

  datatype Complaint =
    | TooLong | MissingX | EndedAfterX | EndedBeforeY | WhereY | Mismatch(n: nat)
    | WebEnded | EndedWithoutZ | WhereZ | Unmatched

  datatype Reader = Reader(
    web: Feed, change: Feed, buffer: Line, changeBuffer: Line, changing: bool,
    curLine: nat, changeLine: nat, ended: bool, printWhere: bool, errors: seq<Complaint>)

  // ---------- one line

  function Trim(s: Line): Line {
    if s == [] then [] else if s[|s|-1] != ' ' then s else Trim(s[..|s|-1])
  }

  /** Where the characters of the line end: at a newline, at the end of the file, or
      when the buffer is full. */
  function LineEnd(text: seq<char>, from: nat, room: nat): (n: nat)
    requires from <= |text|
    ensures from <= n <= |text| && n <= from + room
    decreases room
  {
    if room == 0 || from == |text| || text[from] == '\n' then from else LineEnd(text, from + 1, room - 1)
  }

  /** What one call of `input_ln` does: the file afterwards, the line, whether there was
      one, and whether it was too long. */
  datatype Input = Input(feed: Feed, line: Line, ok: bool, tooLong: bool)

  function InputLn(f: Feed, buffer: Line): (r: Input)
    ensures f.pos <= |f.text| ==> r.feed.pos <= |r.feed.text|
    ensures r.ok ==> f.pos < r.feed.pos <= |f.text|
    ensures r.feed.text == f.text && f.pos <= r.feed.pos
  {
    if f.eof || f.pos > |f.text| then Input(f, buffer, false, false)
    else
      var n := LineEnd(f.text, f.pos, CAPACITY);
      var line := Trim(f.text[f.pos..n]);
      if n == |f.text| then Input(f.(pos := n, eof := true), line, line != [], false)
      else if f.text[n] == '\n' then Input(f.(pos := n + 1), line, true, false)
      else Input(f.(pos := n), line, true, true)
  }

  // ---------- control codes

  function ToLower(c: char): char {
    if 'A' <= c <= 'Z' then c + 32 as char else c
  }

  /** The line with the letter after an initial @ in lower case. */
  function Lower(l: Line): Line {
    if |l| >= 2 && l[0] == '@' then [l[0], ToLower(l[1])] + l[2..] else l
  }

  predicate Says(l: Line, c: char) {
    |l| >= 2 && l[0] == '@' && ToLower(l[1]) == c
  }

  // ---------- reading from the two files

  function Complain(s: Reader, c: Complaint): Reader {
    s.(errors := s.errors + [c])
  }

  function ReadChange(s: Reader): (Reader, bool) {
    var i := InputLn(s.change, s.buffer);
    var s1 := s.(change := i.feed, buffer := i.line, changeLine := s.changeLine + 1);
    (if i.tooLong then Complain(s1, TooLong) else s1, i.ok)
  }

  function ReadWeb(s: Reader): (Reader, bool) {
    var i := InputLn(s.web, s.buffer);
    var s1 := s.(web := i.feed, buffer := i.line, curLine := s.curLine + 1);
    (if i.tooLong then Complain(s1, TooLong) else s1, i.ok)
  }

  function Left(f: Feed): nat {
    if f.pos <= |f.text| then |f.text| - f.pos else 0
  }

  /** `prime_the_change_buffer`: look for @x, then for the first line that is not blank. */
  function Prime(s: Reader): Reader {
    FindX(s.(changeBuffer := []))
  }

  function FindX(s: Reader): Reader
    decreases Left(s.change)
  {
    var (s1, ok) := ReadChange(s);
    if !ok then s1
    else
      var s2 := s1.(buffer := Lower(s1.buffer));
      if Says(s1.buffer, 'x') then SkipBlank(s2)
      else if Says(s1.buffer, 'y') || Says(s1.buffer, 'z') || Says(s1.buffer, 'i') then FindX(Complain(s2, MissingX))
      else FindX(s2)
  }

  function SkipBlank(s: Reader): Reader
    decreases Left(s.change)
  {
    var (s1, ok) := ReadChange(s);
    if !ok then Complain(s1, EndedAfterX)
    else if s1.buffer == [] then SkipBlank(s1)
    else s1.(changeBuffer := s1.buffer)
  }

  /** A turn of the loop in `check_change`: the state after it, whether the loop is left,
      and how many lines have not matched so far. */
  datatype Turn = Turn(s: Reader, done: bool, n: nat)

  function CheckTurn(s: Reader, n: nat): (t: Turn)
    ensures Left(t.s.web) <= Left(s.web) && Left(t.s.change) <= Left(s.change)
    ensures t.s.changing || !t.done ==> Left(t.s.change) < Left(s.change)
  {
    var (s1, ok) := ReadChange(s.(changing := true, printWhere := true));
    if !ok then Turn(Complain(s1, EndedBeforeY).(changeBuffer := [], changing := false), true, n)
    else
      var s2 := s1.(buffer := Lower(s1.buffer));
      if Says(s1.buffer, 'y') then Turn(if n > 0 then Complain(s2, Mismatch(n)) else s2, true, n)
      else Compare(if Says(s1.buffer, 'x') || Says(s1.buffer, 'z') then Complain(s2, WhereY) else s2, n)
  }

  /** The next line of the web file against the line just read from the change file. */
  function Compare(s: Reader, n: nat): (t: Turn)
    ensures Left(t.s.web) <= Left(s.web) && t.s.change == s.change && !t.s.changing
  {
    var (s1, ok) := ReadWeb(s.(changeBuffer := s.buffer, changing := false));
    if !ok then Turn(Complain(s1, WebEnded).(ended := true), true, n)
    else Turn(s1, false, if s1.buffer == s1.changeBuffer then n else n + 1)
  }

  /** The loop of `check_change`; n lines have not matched so far. */
  function CheckLoop(s: Reader, n: nat): Reader
    decreases Left(s.change)
  {
    var t := CheckTurn(s, n);
    if t.done then t.s else CheckLoop(t.s, t.n)
  }

  /** A line of the replacement, or the end of it. */
  function FromChange(s: Reader): Reader {
    var (r, ok) := ReadChange(s);
    var s1 := if ok then r else Complain(r, EndedWithoutZ).(buffer := "@z");
    var s2 := s1.(buffer := Lower(s1.buffer));
    if Says(s1.buffer, 'z') then Prime(s2).(changing := false, printWhere := true)
    else if Says(s1.buffer, 'x') || Says(s1.buffer, 'y') then Complain(s2, WhereZ)
    else s2
  }

  /** A line of the web file, which may be the beginning of a change. */
  function FromWeb(s: Reader): Reader {
    var (s1, ok) := ReadWeb(s);
    if !ok then s1.(printWhere := true, ended := true)
    else if s1.buffer == s1.changeBuffer && s1.changeBuffer != [] then CheckLoop(s1, 0)
    else s1
  }

  lemma {:induction false} CheckLoopAdvances(s: Reader, n: nat)
    ensures var r := CheckLoop(s, n);
            && Left(r.web) <= Left(s.web) && Left(r.change) <= Left(s.change)
            && (r.changing ==> Left(r.change) < Left(s.change))
    decreases Left(s.change)
  {
    var t := CheckTurn(s, n);
    if !t.done {
      CheckLoopAdvances(t.s, t.n);
    }
  }

  // Looking for the next change is not reading the web file.
  lemma {:induction false} SkipBlankKeeps(s: Reader)
    ensures var r := SkipBlank(s); r.changing == s.changing && r.ended == s.ended
    decreases Left(s.change)
  {
    var (s1, ok) := ReadChange(s);
    if ok && s1.buffer == [] {
      SkipBlankKeeps(s1);
    }
  }

  lemma {:induction false} FindXKeeps(s: Reader)
    ensures var r := FindX(s); r.changing == s.changing && r.ended == s.ended
    decreases Left(s.change)
  {
    var (s1, ok) := ReadChange(s);
    if ok {
      var s2 := s1.(buffer := Lower(s1.buffer));
      SkipBlankKeeps(s2);
      FindXKeeps(Complain(s2, MissingX));
      FindXKeeps(s2);
    }
  }

  lemma PrimeKeeps(s: Reader)
    ensures var r := Prime(s); r.changing == s.changing && r.ended == s.ended
  {
    FindXKeeps(s.(changeBuffer := []));
  }

  lemma {:induction false} SkipBlankAdvances(s: Reader)
    ensures var r := SkipBlank(s); r.web == s.web && r.curLine == s.curLine && Left(r.change) <= Left(s.change)
    decreases Left(s.change)
  {
    var (s1, ok) := ReadChange(s);
    if ok && s1.buffer == [] {
      SkipBlankAdvances(s1);
    }
  }

  lemma {:induction false} FindXAdvances(s: Reader)
    ensures var r := FindX(s); r.web == s.web && r.curLine == s.curLine && Left(r.change) <= Left(s.change)
    decreases Left(s.change)
  {
    var (s1, ok) := ReadChange(s);
    if ok {
      var s2 := s1.(buffer := Lower(s1.buffer));
      SkipBlankAdvances(s2);
      FindXAdvances(Complain(s2, MissingX));
      FindXAdvances(s2);
    }
  }

  lemma FromChangeAdvances(s: Reader)
    requires s.changing
    ensures var r := FromChange(s);
            && r.web == s.web && Left(r.change) <= Left(s.change)
            && (r.changing ==> Left(r.change) < Left(s.change)) && (r.ended ==> s.ended)
  {
    var (r, ok) := ReadChange(s);
    var s1 := if ok then r else Complain(r, EndedWithoutZ).(buffer := "@z");
    var s2 := s1.(buffer := Lower(s1.buffer));
    FindXAdvances(s2.(changeBuffer := []));
    PrimeKeeps(s2);
  }

  lemma FromWebAdvances(s: Reader)
    requires !s.changing
    ensures var r := FromWeb(s);
            && Left(r.web) <= Left(s.web) && Left(r.change) <= Left(s.change)
            && (r.changing || (!r.ended && !s.ended) ==> Left(r.web) < Left(s.web))
  {
    var (s1, ok) := ReadWeb(s);
    if ok {
      CheckLoopAdvances(s1, 0);
    }
  }

  /** `get_line`, for one web file without includes. */
  function GetLine(s: Reader): Reader
    decreases Left(s.web) + Left(s.change)
  {
    if s.changing then
      FromChangeAdvances(s);
      var s1 := FromChange(s);
      if s1.changing then s1 else GetWebLine(s1)
    else GetWebLine(s)
  }

  function GetWebLine(s: Reader): Reader
    requires !s.changing
    decreases Left(s.web) + Left(s.change), 0
  {
    FromWebAdvances(s);
    var r := FromWeb(s);
    if r.changing then GetLine(r) else r
  }

  /** `reset_input` */
  function Start(web: seq<char>, change: seq<char>): Reader {
    Prime(Reader(Feed(web, 0, false), Feed(change, 0, false), [], [], true, 0, 0, false, false, [])).(changing := false, buffer := [])
  }

  /** `check_complete` */
  function CheckComplete(s: Reader): Reader {
    if s.changeBuffer != [] then Complain(s.(buffer := s.changeBuffer, changing := true), Unmatched) else s
  }
}
