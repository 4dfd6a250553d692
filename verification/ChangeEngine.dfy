// The reader in place: the line buffer, the change buffer and the counters
// (cweb/common.c:364-383, 388-438, 443-507, 512-537, 542-605, 673-682).

module ChangeEngine {
  import opened ChangeReader
  import opened ChangeMerge

  lemma TrimMore(s: Line, c: char)
    ensures Trim(s + [c]) == if c == ' ' then Trim(s) else s + [c]
  {
    assert (s + [c])[..|s|] == s;
  }

  /** An input file. */
  class Source {
    const text: seq<char>
    var pos: nat
    var eof: bool

    function View(): Feed reads this { Feed(text, pos, eof) }

    constructor (text: seq<char>)
      ensures View() == Feed(text, 0, false)
    {
      this.text := text;
      pos, eof := 0, false;
    }

    /** `getc`: None at the end of the file. */
    method GetChar() returns (atEnd: bool, c: char)
      requires pos <= |text|
      modifies this
      ensures atEnd <==> old(pos) == |text|
      ensures pos == (if atEnd then old(pos) else old(pos) + 1) && eof == (old(eof) || atEnd)
      ensures !atEnd ==> c == text[old(pos)]
    {
      atEnd := pos == |text|;
      if atEnd {
        c := ' ';
        eof := true;
      } else {
        c := text[pos];
        pos := pos + 1;
      }
    }
  }

  class Engine {
    const web: Source
    const change: Source
    const buffer: array<char>
    const changeBuffer: array<char>
    var limit: nat
    var changeLimit: nat
    var changing: bool
    var curLine: nat
    var changeLine: nat
    var ended: bool
    var printWhere: bool
    var errors: seq<Complaint>

    ghost predicate Valid() reads this, web, change {
      && web != change && buffer != changeBuffer && buffer.Length >= BUF_SIZE && changeBuffer.Length == BUF_SIZE
      && limit <= CAPACITY && changeLimit <= CAPACITY && web.pos <= |web.text| && change.pos <= |change.text|
    }

    function Text(): Line reads this`limit, buffer requires limit <= buffer.Length { buffer[..limit] }

    function Match(): Line reads this`changeLimit, changeBuffer requires changeLimit <= changeBuffer.Length {
      changeBuffer[..changeLimit]
    }

    function View(): Reader reads this, web, change, buffer, changeBuffer
      requires limit <= buffer.Length && changeLimit <= changeBuffer.Length
    {
      Reader(web.View(), change.View(), Text(), Match(), changing, curLine, changeLine, ended, printWhere, errors)
    }

    constructor (webText: seq<char>, changeText: seq<char>)
      ensures Valid() && fresh(web) && fresh(change) && fresh(buffer) && fresh(changeBuffer)
      ensures View() == Reader(Feed(webText, 0, false), Feed(changeText, 0, false), [], [], true, 0, 0, false, false, [])
    {
      web := new Source(webText);
      change := new Source(changeText);
      buffer := new char[2 * BUF_SIZE](_ => ' ');
      changeBuffer := new char[BUF_SIZE](_ => ' ');
      limit, changeLimit, curLine, changeLine := 0, 0, 0, 0;
      changing, ended, printWhere, errors := true, false, false, [];
    }

    /** Read characters until the line ends, the file ends or the buffer is full. */
    method FillLine(f: Source) returns (atEnd: bool, newline: bool)
      requires Valid() && (f == web || f == change) && !f.eof
      modifies f, buffer, this`limit
      ensures Valid() && f.eof == atEnd
      ensures var text, from := f.text, old(f.pos);
              var n := LineEnd(text, from, CAPACITY);
              && Text() == Trim(text[from..n]) && f.pos == (if newline then n + 1 else n)
              && atEnd == (n == |text| && n < from + CAPACITY)
              && newline == (n < |text| && n < from + CAPACITY && text[n] == '\n')
    {
      var k := 0;
      atEnd, newline := false, false;
      ghost var text, from := f.text, f.pos;
      limit := 0;
      while k < CAPACITY && !atEnd && !newline
        invariant Filling(f, text, from, k, atEnd, newline)
        decreases CAPACITY - k, !atEnd && !newline
      {
        atEnd, newline, k := FillOne(f, text, from, k);
      }
    }

    /** One character. */
    method FillOne(f: Source, ghost text: seq<char>, ghost from: nat, k: nat) returns (atEnd: bool, newline: bool, k2: nat)
      requires Filling(f, text, from, k, false, false) && k < CAPACITY
      modifies f, buffer, this`limit
      ensures Filling(f, text, from, k2, atEnd, newline) && k2 == if atEnd || newline then k else k + 1
    {
      var c;
      k2, newline := k, false;
      atEnd, c := f.GetChar();
      if !atEnd {
        if c == '\n' {
          newline := true;
        } else {
          Put(text, from, k, c);
          k2 := k + 1;
        }
      }
    }

    // k characters of the line have been read.
    ghost predicate Filling(f: Source, text: seq<char>, from: nat, k: nat, atEnd: bool, newline: bool)
      reads this, web, change, f, buffer, changeBuffer
    {
      && Valid() && (f == web || f == change) && f.text == text && limit <= k <= CAPACITY && from + k <= |text|
      && f.eof == atEnd && !(atEnd && newline) && f.pos == (if newline then from + k + 1 else from + k)
      && (atEnd ==> from + k == |text| && k < CAPACITY)
      && (newline ==> from + k < |text| && text[from + k] == '\n' && k < CAPACITY)
      && buffer[..k] == text[from..from+k] && buffer[..limit] == Trim(text[from..from+k])
      && LineEnd(text, from, CAPACITY) == LineEnd(text, from + k, CAPACITY - k)
    }

    method Put(ghost text: seq<char>, ghost from: nat, k: nat, c: char)
      requires Valid() && limit <= k < CAPACITY && from + k < |text| && text[from + k] == c
      requires buffer[..k] == text[from..from+k] && buffer[..limit] == Trim(text[from..from+k])
      modifies buffer, this`limit
      ensures Valid() && limit <= k + 1
      ensures buffer[..k+1] == text[from..from+k+1] && buffer[..limit] == Trim(text[from..from+k+1])
    {
      TrimMore(text[from..from+k], c);
      assert text[from..from+k+1] == text[from..from+k] + [c];
      buffer[k] := c;
      if c != ' ' {
        limit := k + 1;
      }
    }

    /** `input_ln`: a line without the blanks at its end. */
    method InputLine(f: Source) returns (ok: bool)
      requires Valid() && (f == web || f == change)
      modifies f, buffer, this`limit, this`errors
      ensures Valid()
      ensures var i := InputLn(old(f.View()), old(Text()));
              ok == i.ok && f.View() == i.feed && Text() == i.line && errors == if i.tooLong then old(errors) + [TooLong] else old(errors)
    {
      if f.eof {
        return false;
      }
      var atEnd, newline := FillLine(f);
      if !atEnd && !newline {
        var c;
        atEnd, c := f.GetChar();
        if !atEnd && c != '\n' {
          f.pos := f.pos - 1;
          errors := errors + [TooLong];
        }
      }
      ok := !(atEnd && limit == 0);
    }

    method ReadChangeLine() returns (ok: bool)
      requires Valid()
      modifies change, buffer, this`limit, this`errors, this`changeLine
      ensures Valid() && (View(), ok) == ReadChange(old(View()))
    {
      changeLine := changeLine + 1;
      ok := InputLine(change);
    }

    method ReadWebLine() returns (ok: bool)
      requires Valid()
      modifies web, buffer, this`limit, this`errors, this`curLine
      ensures Valid() && (View(), ok) == ReadWeb(old(View()))
    {
      curLine := curLine + 1;
      ok := InputLine(web);
    }

    /** A control code is put in lower case. */
    method LowerCode()
      requires Valid()
      modifies buffer
      ensures Valid() && View() == old(View()).(buffer := Lower(old(Text())))
    {
      if limit >= 2 && buffer[0] == '@' && 'A' <= buffer[1] <= 'Z' {
        ghost var was := Text();
        buffer[1] := ToLower(buffer[1]);
        assert Text() == Lower(was);
      }
    }

    /** Move the line to the change buffer. */
    method SaveLine()
      requires Valid()
      modifies changeBuffer, this`changeLimit
      ensures Valid() && View() == old(View()).(changeBuffer := Text())
    {
      changeLimit := limit;
      var k := 0;
      while k <= limit
        invariant k <= limit + 1 && forall j :: 0 <= j < k ==> changeBuffer[j] == buffer[j]
        modifies changeBuffer
      {
        changeBuffer[k] := buffer[k];
        k := k + 1;
      }
      assert Match() == Text();
    }

    /** `lines_dont_match` */
    method LinesDiffer() returns (differ: bool)
      requires Valid()
      ensures differ == (Text() != Match())
    {
      if changeLimit != limit {
        return true;
      }
      var k := 0;
      while k < limit
        invariant k <= limit && forall j :: 0 <= j < k ==> changeBuffer[j] == buffer[j]
      {
        if buffer[k] != changeBuffer[k] {
          assert Text()[k] != Match()[k];
          return true;
        }
        k := k + 1;
      }
      differ := false;
      assert Text() == Match();
    }

    method HasCode(c: char) returns (says: bool)
      requires Valid()
      ensures says == Says(Text(), c)
    {
      says := limit >= 2 && buffer[0] == '@' && ToLower(buffer[1]) == c;
    }

    method Report(c: Complaint)
      requires Valid()
      modifies this`errors
      ensures Valid() && View() == Complain(old(View()), c)
    {
      errors := errors + [c];
    }

    /** `prime_the_change_buffer` */
    method PrimeBuffer()
      requires Valid()
      modifies change, buffer, changeBuffer, this`limit, this`changeLimit, this`errors, this`changeLine
      ensures Valid() && View() == Prime(old(View()))
    {
      changeLimit := 0;
      assert View() == old(View()).(changeBuffer := []);
      var found := SeekX();
      if found {
        SeekLine();
      }
    }

    /** The loop that looks for @x. */
    method SeekX() returns (found: bool)
      requires Valid()
      modifies change, buffer, this`limit, this`errors, this`changeLine
      ensures Valid() && FindX(old(View())) == if found then SkipBlank(View()) else View()
    {
      found := false;
      while true
        invariant Valid() && FindX(View()) == FindX(old(View()))
        decreases Left(change.View())
      {
        var ok := ReadChangeLine();
        if !ok {
          return;
        }
        var x := HasCode('x');
        var other := HasOther();
        LowerCode();
        if x {
          return true;
        }
        if other {
          Report(MissingX);
        }
      }
    }

    method HasOther() returns (other: bool)
      requires Valid()
      ensures other == (Says(Text(), 'y') || Says(Text(), 'z') || Says(Text(), 'i'))
    {
      var y := HasCode('y');
      var z := HasCode('z');
      var i := HasCode('i');
      other := y || z || i;
    }

    /** The loop that skips blank lines after @x. */
    method SeekLine()
      requires Valid()
      modifies change, buffer, changeBuffer, this`limit, this`changeLimit, this`errors, this`changeLine
      ensures Valid() && View() == SkipBlank(old(View()))
    {
      ghost var s := View();
      while true
        invariant Valid() && SkipBlank(View()) == SkipBlank(s)
        decreases Left(change.View())
      {
        var ok := ReadChangeLine();
        if !ok {
          Report(EndedAfterX);
          return;
        }
        if limit > 0 {
          SaveLine();
          return;
        }
      }
    }

    /** `check_change`, once the first lines agree. */
    method CheckChange()
      requires Valid()
      modifies this, web, change, buffer, changeBuffer
      ensures Valid() && View() == CheckLoop(old(View()), 0)
    {
      ghost var s := View();
      var n, done := 0, false;
      while !done
        invariant Valid() && CheckLoop(s, 0) == if done then View() else CheckLoop(View(), n)
        decreases !done, Left(change.View())
      {
        done, n := CheckLine(n);
      }
    }

    method CheckLine(n: nat) returns (done: bool, k: nat)
      requires Valid()
      modifies this, web, change, buffer, changeBuffer
      ensures Valid() && CheckTurn(old(View()), n) == Turn(View(), done, k)
    {
      changing, printWhere, done, k := true, true, true, n;
      var ok := ReadChangeLine();
      if !ok {
        Report(EndedBeforeY);
        changeLimit, changing := 0, false;
        return;
      }
      var y := HasCode('y');
      var x := HasCode('x');
      var z := HasCode('z');
      LowerCode();
      if y {
        if n > 0 {
          Report(Mismatch(n));
        }
        return;
      }
      if x || z {
        Report(WhereY);
      }
      done, k := NextWebLine(n);
    }

    method NextWebLine(n: nat) returns (done: bool, k: nat)
      requires Valid()
      modifies this, web, buffer, changeBuffer
      ensures Valid() && Compare(old(View()), n) == Turn(View(), done, k)
    {
      SaveLine();
      changing := false;
      done, k := false, n;
      var ok := ReadWebLine();
      if !ok {
        Report(WebEnded);
        ended, done := true, true;
        return;
      }
      var differ := LinesDiffer();
      if differ {
        k := n + 1;
      }
    }

    /** A line of the change file that replaces something, or @z. */
    method FromChangeFile()
      requires Valid() && changing
      modifies this, web, change, buffer, changeBuffer
      ensures Valid() && View() == FromChange(old(View()))
    {
      var ok := ReadChangeLine();
      if !ok {
        Report(EndedWithoutZ);
        buffer[0], buffer[1] := '@', 'z';
        limit := 2;
        assert Text() == "@z";
      }
      EndOrLine();
    }

    method EndOrLine()
      requires Valid() && changing
      modifies this, web, change, buffer, changeBuffer
      ensures Valid()
      ensures var s1 := old(View());
              var s2 := s1.(buffer := Lower(s1.buffer));
              View() == if Says(s1.buffer, 'z') then Prime(s2).(changing := false, printWhere := true)
                        else if Says(s1.buffer, 'x') || Says(s1.buffer, 'y') then Complain(s2, WhereZ) else s2
    {
      var x := HasCode('x');
      var y := HasCode('y');
      var z := HasCode('z');
      LowerCode();
      if x || y {
        Report(WhereZ);
      } else if z {
        PrimeBuffer();
        changing, printWhere := !changing, true;
      }
    }

    /** A line of the web file, and whether a change begins here. */
    method FromWebFile()
      requires Valid() && !changing
      modifies this, web, change, buffer, changeBuffer
      ensures Valid() && View() == FromWeb(old(View()))
    {
      var ok := ReadWebLine();
      if !ok {
        printWhere, ended := true, true;
        return;
      }
      if limit == changeLimit && buffer[0] == changeBuffer[0] && changeLimit > 0 {
        var differ := LinesDiffer();
        if !differ {
          CheckChange();
        }
      } else {
        assert limit > 0 && limit == changeLimit ==> Text()[0] != Match()[0];
      }
    }

    /** `get_line` */
    method NextLine() returns (more: bool)
      requires Valid()
      modifies this, web, change, buffer, changeBuffer
      ensures Valid() && View() == GetLine(old(View())) && more == !ended
    {
      ghost var s := View();
      var again := true;
      while again
        invariant Valid() && GetLine(s) == if again then GetLine(View()) else View()
        decreases again, Left(web.View()) + Left(change.View())
      {
        again := Attempt();
      }
      more := !ended;
    }

    /** From `restart` to the next `goto restart`. */
    method Attempt() returns (again: bool)
      requires Valid()
      modifies this, web, change, buffer, changeBuffer
      ensures Valid() && GetLine(old(View())) == if again then GetLine(View()) else View()
      ensures again ==> Left(web.View()) + Left(change.View()) < old(Left(web.View()) + Left(change.View()))
    {
      again := false;
      if changing {
        FromChangeAdvances(View());
        FromChangeFile();
      }
      if !changing {
        FromWebAdvances(View());
        FromWebFile();
        again := changing;
      }
    }

    /** `reset_input` */
    method Reset()
      requires Valid() && changing
      modifies this, web, change, buffer, changeBuffer
      ensures Valid() && View() == Prime(old(View())).(changing := false, buffer := [])
    {
      PrimeBuffer();
      changing := !changing;
      limit := 0;
      assert Text() == [];
    }

    /** `check_complete` */
    method Complete()
      requires Valid()
      modifies this, buffer
      ensures Valid() && View() == CheckComplete(old(View()))
    {
      if changeLimit != 0 {
        assert Match() != [];
        var k := 0;
        while k <= changeLimit
          invariant k <= changeLimit + 1 && forall j :: 0 <= j < k ==> buffer[j] == changeBuffer[j]
          modifies buffer
        {
          buffer[k] := changeBuffer[k];
          k := k + 1;
        }
        limit := changeLimit;
        assert Text() == Match();
        changing := true;
        Report(Unmatched);
      } else {
        assert Match() == [];
      }
    }
  }

  /** Read everything: the lines that come out are the web file with its changes, and the
      complaints end with one about the change that is left over, if any. */
  method ReadAll(web: seq<char>, change: seq<char>) returns (lines: seq<Line>, errors: seq<Complaint>)
    ensures var w, c := Feed(web, 0, false), Feed(change, 0, false);
            var m := Merge(Lines(w), Blocks(Lines(c)), Torn(c));
            && lines == m.lines && Counts(errors) == m.counts
            && errors == Deliver(Start(web, change)).1.errors + if m.waiting != [] then [Unmatched] else []
  {
    var e := new Engine(web, change);
    e.Reset();
    PrimeKeeps(Reader(Feed(web, 0, false), Feed(change, 0, false), [], [], true, 0, 0, false, false, []));
    assert e.View() == Start(web, change);
    lines := ReadLines(e);
    ReadingMerges(web, change);
    ghost var end := e.View();
    e.Complete();
    CountsAfter(end, Unmatched);
    errors := e.errors;
  }

  /** Call `get_line` until it fails. */
  method ReadLines(e: Engine) returns (lines: seq<Line>)
    requires e.Valid() && !e.ended
    modifies e, e.web, e.change, e.buffer, e.changeBuffer
    ensures e.Valid() && (lines, e.View()) == Deliver(old(e.View()))
  {
    lines := [];
    var more := true;
    ghost var start := e.View();
    while more
      invariant e.Valid() && more == !e.ended
      invariant Deliver(start).1 == if more then Deliver(e.View()).1 else e.View()
      invariant Deliver(start).0 == if more then lines + Deliver(e.View()).0 else lines
      decreases more, Left(e.web.View()) + Left(e.change.View())
    {
      GetLineAdvances(e.View());
      DeliverOne(lines, e.View());
      more := e.NextLine();
      if more {
        lines := lines + [e.Text()];
      }
    }
  }

  lemma DeliverOne(lines: seq<Line>, s: Reader)
    requires !s.ended
    ensures var r := GetLine(s); Deliver(s).1 == if r.ended then r else Deliver(r).1
    ensures var r := GetLine(s); lines + Deliver(s).0 == if r.ended then lines else lines + [r.buffer] + Deliver(r).0
  {
    var r := GetLine(s);
    GetLineAdvances(s);
    assert Deliver(s) == if r.ended then ([], r) else ([r.buffer] + Deliver(r).0, Deliver(r).1);
  }
}
