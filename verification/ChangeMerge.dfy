// What the reader delivers: the web file with its changes
// (cweb/common.c:388-438, 443-507, 542-605, 673-682).

module ChangeMerge {
  import opened Basics
  import opened ChangeReader

  // ---------- files as lines

  function Lines(f: Feed): seq<Line>
    decreases Left(f)
  {
    var i := InputLn(f, []);
    if i.ok then [i.line] + Lines(i.feed) else []
  }

  /** The file ends in the middle of a line, so that its end is seen with that line. */
  function Torn(f: Feed): bool
    decreases Left(f)
  {
    var i := InputLn(f, []);
    if i.ok then Torn(i.feed) else f.eof || f.pos > |f.text|
  }

  // ---------- the change file as blocks

  /** The lines between @x and @y (without leading blank lines), and those up to @z.
      A block without @y has no replacement. */
  datatype Block = Block(pattern: seq<Line>, replacement: seq<Line>, complete: bool)

  function UpTo(c: char, lines: seq<Line>): (r: seq<Line>)
    ensures |r| <= |lines|
  {
    if lines == [] || Says(lines[0], c) then [] else [Lower(lines[0])] + UpTo(c, lines[1..])
  }

  function After(c: char, lines: seq<Line>): (r: seq<Line>)
    ensures |r| <= |lines|
    ensures lines != [] ==> |r| < |lines|
  {
    if lines == [] then [] else if Says(lines[0], c) then lines[1..] else After(c, lines[1..])
  }

  predicate Has(c: char, lines: seq<Line>) {
    lines != [] && (Says(lines[0], c) || Has(c, lines[1..]))
  }

  function Blocks(lines: seq<Line>): seq<Block>
    decreases |lines|, 1
  {
    if lines == [] then [] else if Says(lines[0], 'x') then FirstBlock(lines[1..]) else Blocks(lines[1..])
  }

  function FirstBlock(lines: seq<Line>): seq<Block>
    decreases |lines|, 1
  {
    if lines == [] then [] else if lines[0] == [] then FirstBlock(lines[1..]) else BlocksFrom(lines[0], lines[1..])
  }

  function BlocksFrom(first: Line, lines: seq<Line>): seq<Block>
    decreases |lines|, 2
  {
    [BlockFrom(first, lines)] + if Has('y', lines) then Blocks(After('z', After('y', lines))) else []
  }

  function BlockFrom(first: Line, lines: seq<Line>): (b: Block)
    ensures b.pattern != [] && b.pattern[0] == first
  {
    Block([first] + UpTo('y', lines), UpTo('z', After('y', lines)), Has('y', lines))
  }

  // ---------- merging

  /** What reading to the end gives: the lines; for every change applied in spite of
      lines that do not match, their number; and the line that waits for a match at the
      end, empty if there is none. */
  datatype Merged = Merged(lines: seq<Line>, counts: seq<nat>, waiting: Line)

  function Before(lines: seq<Line>, counts: seq<nat>, m: Merged): Merged {
    m.(lines := lines + m.lines, counts := counts + m.counts)
  }

  /** How many of the web lines differ from the lines to match. */
  function Differences(web: seq<Line>, lines: seq<Line>): nat {
    if web == [] || lines == [] then 0
    else (if web[0] == lines[0] then 0 else 1) + Differences(web[1..], lines[1..])
  }

  function Count(n: nat): seq<nat> { if n > 0 then [n] else [] }

  function FirstOf(blocks: seq<Block>): Line {
    if blocks != [] && blocks[0].pattern != [] then blocks[0].pattern[0] else []
  }

  /** Where a web line is the first line of the next block, as many web lines as the
      block has to match give way to its replacement. (`torn` matters only if the change
      file ends before @y: then the last line that should match comes back, or an
      empty line.) */
  function Merge(web: seq<Line>, blocks: seq<Block>, torn: bool): Merged
    decreases |web|
  {
    if web == [] then Merged([], [], FirstOf(blocks))
    else if FirstOf(blocks) != [] && web[0] == FirstOf(blocks) then Change(web, blocks, torn)
    else Before([web[0]], [], Merge(web[1..], blocks, torn))
  }

  function Change(web: seq<Line>, blocks: seq<Block>, torn: bool): Merged
    requires web != [] && FirstOf(blocks) != []
    decreases |web|, -1
  {
    var b, m := blocks[0], |blocks[0].pattern|;
    if |web| < m then Merged([], [], b.pattern[|web|])
    else if b.complete then
      Before(b.replacement, Count(Differences(web[1..m], b.pattern[1..])), Merge(web[m..], blocks[1..], torn))
    else Before([if torn then web[m-1] else []], [], Merge(web[m..], [], torn))
  }

  // ---------- what the reader has still to deliver

  function Counts(errors: seq<Complaint>): seq<nat> {
    if errors == [] then []
    else
      var n := |errors| - 1;
      Counts(errors[..n]) + if errors[n].Mismatch? then [errors[n].n] else []
  }

  function Pending(s: Reader): seq<Block> {
    if s.changeBuffer == [] then [] else BlocksFrom(s.changeBuffer, Lines(s.change))
  }

  function Expected(s: Reader): Merged {
    var web, change, torn := Lines(s.web), Lines(s.change), Torn(s.change);
    if s.ended then Merged([], [], s.changeBuffer)
    else if s.changing then Before(UpTo('z', change), [], Merge(web, Blocks(After('z', change)), torn))
    else Merge(web, Pending(s), torn)
  }

  // A line that is read is taken from the front.
  lemma InputIsFirst(f: Feed, buffer: Line)
    ensures var i, lines := InputLn(f, buffer), Lines(f);
            && (i.ok <==> lines != []) && (i.ok ==> i.line == lines[0] && Lines(i.feed) == lines[1..] && Torn(i.feed) == Torn(f))
            && (!i.ok ==> Lines(i.feed) == [] && i.line == if Torn(f) then buffer else [])
  {
    var i := InputLn(f, []);
    assert f.eof || f.pos > |f.text| || InputLn(f, buffer) == i;
    if i.ok {
      assert Lines(f) == [i.line] + Lines(i.feed);
    } else {
      assert !InputLn(i.feed, []).ok;
    }
  }

  lemma CountsAfter(s: Reader, c: Complaint)
    ensures Counts(Complain(s, c).errors) == Counts(s.errors) + if c.Mismatch? then [c.n] else []
  {
    assert (s.errors + [c])[..|s.errors|] == s.errors;
  }

  lemma TooLongIsNoCount(errors: seq<Complaint>)
    ensures Counts(errors + [TooLong]) == Counts(errors)
  {
    assert (errors + [TooLong])[..|errors|] == errors;
    NothingMore(Counts(errors));
  }

  // What reading a line leaves as it is.
  lemma ChangeReadOnly(s: Reader, i: Input)
    requires i == InputLn(s.change, s.buffer)
    ensures var (r, ok) := ReadChange(s);
            && r == s.(change := i.feed, buffer := i.line, changeLine := s.changeLine + 1, errors := r.errors)
            && ok == i.ok && Counts(r.errors) == Counts(s.errors)
  {
    TooLongIsNoCount(s.errors);
  }

  lemma WebReadOnly(s: Reader, i: Input)
    requires i == InputLn(s.web, s.buffer)
    ensures var (r, ok) := ReadWeb(s);
            && r == s.(web := i.feed, buffer := i.line, curLine := s.curLine + 1, errors := r.errors)
            && ok == i.ok && Counts(r.errors) == Counts(s.errors)
  {
    TooLongIsNoCount(s.errors);
  }

  lemma ReadsChange(s: Reader)
    ensures var (r, ok) := ReadChange(s); var lines := Lines(s.change);
            && r == s.(change := r.change, buffer := r.buffer, changeLine := s.changeLine + 1, errors := r.errors)
            && Counts(r.errors) == Counts(s.errors)
            && (ok <==> lines != []) && (ok ==> r.buffer == lines[0] && Lines(r.change) == lines[1..] && Torn(r.change) == Torn(s.change))
            && (!ok ==> Lines(r.change) == [] && r.buffer == if Torn(s.change) then s.buffer else [])
  {
    ChangeReadOnly(s, InputLn(s.change, s.buffer));
    InputIsFirst(s.change, s.buffer);
  }

  lemma ReadsWeb(s: Reader)
    ensures var (r, ok) := ReadWeb(s); var lines := Lines(s.web);
            && r == s.(web := r.web, buffer := r.buffer, curLine := s.curLine + 1, errors := r.errors)
            && Counts(r.errors) == Counts(s.errors)
            && (ok <==> lines != []) && (ok ==> r.buffer == lines[0] && Lines(r.web) == lines[1..])
            && (!ok ==> Lines(r.web) == [])
  {
    WebReadOnly(s, InputLn(s.web, s.buffer));
    InputIsFirst(s.web, s.buffer);
  }

  // ---------- looking for the next change

  lemma {:induction false} SkipsBlank(s: Reader)
    requires s.changeBuffer == []
    ensures var r := SkipBlank(s);
            && r == s.(change := r.change, buffer := r.buffer, changeBuffer := r.changeBuffer, changeLine := r.changeLine, errors := r.errors)
            && Counts(r.errors) == Counts(s.errors) && Pending(r) == FirstBlock(Lines(s.change))
            && (r.changeBuffer != [] ==> Torn(r.change) == Torn(s.change))
    decreases Left(s.change)
  {
    var (s1, ok) := ReadChange(s);
    ReadsChange(s);
    if !ok {
      CountsAfter(s1, EndedAfterX);
    } else if s1.buffer == [] {
      SkipsBlank(s1);
    }
  }

  /** Priming the change buffer finds the next block. */
  lemma {:induction false} FindsX(s: Reader)
    requires s.changeBuffer == []
    ensures var r := FindX(s);
            && r == s.(change := r.change, buffer := r.buffer, changeBuffer := r.changeBuffer, changeLine := r.changeLine, errors := r.errors)
            && Counts(r.errors) == Counts(s.errors) && Pending(r) == Blocks(Lines(s.change))
            && (r.changeBuffer != [] ==> Torn(r.change) == Torn(s.change))
    decreases Left(s.change)
  {
    var (s1, ok) := ReadChange(s);
    ReadsChange(s);
    if ok {
      var s2 := s1.(buffer := Lower(s1.buffer));
      if Says(s1.buffer, 'x') {
        SkipsBlank(s2);
      } else if Says(s1.buffer, 'y') || Says(s1.buffer, 'z') || Says(s1.buffer, 'i') {
        CountsAfter(s2, MissingX);
        FindsX(Complain(s2, MissingX));
      } else {
        FindsX(s2);
      }
    }
  }

  // ---------- matching a change

  /** What the loop of `check_change` leaves. */
  ghost predicate Checked(s: Reader, n: nat, r: Reader) {
    && r == s.(web := r.web, change := r.change, buffer := r.buffer, changeBuffer := r.changeBuffer, changing := r.changing,
               curLine := r.curLine, changeLine := r.changeLine, ended := r.ended, printWhere := true, errors := r.errors)
    && CheckedLines(Lines(s.web), Lines(s.change), UpTo('y', Lines(s.change)), Torn(s.change), s.buffer, s.ended, Counts(s.errors), n, r)
  }

  /** As many web lines are taken as there are lines m to match. */
  ghost predicate CheckedLines(web: seq<Line>, change: seq<Line>, m: seq<Line>, torn: bool, buffer: Line, ended: bool, counts: seq<nat>, n: nat, r: Reader)
  {
    if |web| < |m| then
      r.ended && !r.changing && r.changeBuffer == m[|web|] && Counts(r.errors) == counts
    else
      && r.ended == ended && Lines(r.web) == web[|m|..]
      && if Has('y', change) then
           && r.changing && Lines(r.change) == After('y', change) && Torn(r.change) == torn
           && Counts(r.errors) == counts + Count(n + Differences(web, m))
         else
           && !r.changing && r.changeBuffer == [] && Counts(r.errors) == counts
           && r.buffer == if !torn then [] else if m == [] then buffer else web[|m|-1]
  }

  lemma CheckLast(s: Reader, n: nat)
    requires CheckTurn(s, n).done && (Lines(s.change) == [] || Says(Lines(s.change)[0], 'y'))
    ensures Checked(s, n, CheckTurn(s, n).s)
  {
    var s0 := s.(changing := true, printWhere := true);
    var (s1, ok) := ReadChange(s0);
    ReadsChange(s0);
    if !ok {
      CutIsChecked(s, n, s1);
    } else {
      MatchIsChecked(s, n, s1);
    }
  }

  lemma CutIsChecked(s: Reader, n: nat, s1: Reader)
    requires ReadChange(s.(changing := true, printWhere := true)) == (s1, false) && Lines(s.change) == [] && Counts(s1.errors) == Counts(s.errors)
    requires s1 == s.(change := s1.change, buffer := s1.buffer, changeLine := s1.changeLine, changing := true, printWhere := true, errors := s1.errors)
    requires s1.buffer == if Torn(s.change) then s.buffer else []
    ensures Checked(s, n, CheckTurn(s, n).s)
  {
    CountsAfter(s1, EndedBeforeY);
    assert CheckTurn(s, n).s == Complain(s1, EndedBeforeY).(changeBuffer := [], changing := false);
  }

  lemma MatchIsChecked(s: Reader, n: nat, s1: Reader)
    requires ReadChange(s.(changing := true, printWhere := true)) == (s1, true) && Lines(s.change) != [] && Counts(s1.errors) == Counts(s.errors)
    requires s1 == s.(change := s1.change, buffer := s1.buffer, changeLine := s1.changeLine, changing := true, printWhere := true, errors := s1.errors)
    requires s1.buffer == Lines(s.change)[0] && Says(s1.buffer, 'y') && Lines(s1.change) == Lines(s.change)[1..] && Torn(s1.change) == Torn(s.change)
    ensures Checked(s, n, CheckTurn(s, n).s)
  {
    var s2 := s1.(buffer := Lower(s1.buffer));
    CountsAfter(s2, Mismatch(n));
    var r := if n > 0 then Complain(s2, Mismatch(n)) else s2;
    assert CheckTurn(s, n).s == r;
    NothingMore(Counts(s.errors));
    NothingToMatch(Lines(s.web), Lines(s.change), Torn(s.change), s.buffer, s.ended, Counts(s.errors), n, r);
  }

  lemma NothingToMatch(web: seq<Line>, change: seq<Line>, torn: bool, buffer: Line, ended: bool, counts: seq<nat>, n: nat, r: Reader)
    requires change != [] && Says(change[0], 'y') && r.changing && r.ended == ended && Lines(r.web) == web
    requires Lines(r.change) == change[1..] && Torn(r.change) == torn && Counts(r.errors) == counts + Count(n)
    ensures CheckedLines(web, change, UpTo('y', change), torn, buffer, ended, counts, n, r)
  {
    assert UpTo('y', change) == [] && After('y', change) == change[1..] && web[0..] == web && Differences(web, []) == 0;
  }

  // The next web line against a line to match.
  lemma CompareDoes(s: Reader, n: nat)
    ensures var t, web := Compare(s, n), Lines(s.web);
            && t.s == s.(web := t.s.web, buffer := t.s.buffer, changeBuffer := s.buffer, changing := false,
                         curLine := t.s.curLine, ended := t.s.ended, errors := t.s.errors)
            && Counts(t.s.errors) == Counts(s.errors) && t.done == (web == [])
            && if t.done then t.s.ended
               else t.s.ended == s.ended && Lines(t.s.web) == web[1..] && t.s.buffer == web[0] && t.n == n + if web[0] == s.buffer then 0 else 1
  {
    var s4 := s.(changeBuffer := s.buffer, changing := false);
    ReadsWeb(s4);
    var (s5, more) := ReadWeb(s4);
    CountsAfter(s5, WebEnded);
  }

  // A line to match: it is compared with the next web line, if there is one.
  lemma CheckNext(s: Reader, n: nat)
    requires Lines(s.change) != [] && !Says(Lines(s.change)[0], 'y')
    ensures var t, web, change := CheckTurn(s, n), Lines(s.web), Lines(s.change);
            && t.s == s.(web := t.s.web, change := t.s.change, buffer := t.s.buffer, changeBuffer := Lower(change[0]), changing := false,
                         curLine := t.s.curLine, changeLine := t.s.changeLine, ended := t.s.ended, printWhere := true, errors := t.s.errors)
            && Counts(t.s.errors) == Counts(s.errors) && Lines(t.s.change) == change[1..] && Torn(t.s.change) == Torn(s.change)
            && t.done == (web == [])
            && if t.done then t.s.ended
               else t.s.ended == s.ended && Lines(t.s.web) == web[1..] && t.s.buffer == web[0]
                    && t.n == n + if web[0] == Lower(change[0]) then 0 else 1
  {
    var s0 := s.(changing := true, printWhere := true);
    var (s1, ok) := ReadChange(s0);
    ReadsChange(s0);
    var s2 := s1.(buffer := Lower(s1.buffer));
    CountsAfter(s2, WhereY);
    CompareDoes(if Says(s1.buffer, 'x') || Says(s1.buffer, 'z') then Complain(s2, WhereY) else s2, n);
  }

  // What a turn that goes on leaves.
  ghost predicate Turned(s: Reader, n: nat, t: Reader, k: nat) {
    var web, change := Lines(s.web), Lines(s.change);
    && change != [] && !Says(change[0], 'y') && web != []
    && t == s.(web := t.web, change := t.change, buffer := web[0], changeBuffer := Lower(change[0]), changing := false,
               curLine := t.curLine, changeLine := t.changeLine, printWhere := true, errors := t.errors)
    && Counts(t.errors) == Counts(s.errors) && Lines(t.change) == change[1..] && Torn(t.change) == Torn(s.change)
    && Lines(t.web) == web[1..] && k == n + if web[0] == Lower(change[0]) then 0 else 1
  }

  lemma CheckedAfter(s: Reader, n: nat, t: Reader, k: nat, r: Reader)
    requires Turned(s, n, t, k) && Checked(t, k, r)
    ensures Checked(s, n, r)
  {
    var web, change := Lines(s.web), Lines(s.change);
    MoreLines(web, change, UpTo('y', change), UpTo('y', change[1..]), Torn(s.change), s.buffer, s.ended, Counts(s.errors), n, r);
  }

  lemma MoreLines(web: seq<Line>, change: seq<Line>, m: seq<Line>, rest: seq<Line>, torn: bool, buffer: Line, ended: bool, counts: seq<nat>, n: nat, r: Reader)
    requires change != [] && !Says(change[0], 'y') && web != [] && m == UpTo('y', change) && rest == UpTo('y', change[1..])
    requires CheckedLines(web[1..], change[1..], rest, torn, web[0], ended, counts, n + if web[0] == Lower(change[0]) then 0 else 1, r)
    ensures CheckedLines(web, change, m, torn, buffer, ended, counts, n, r)
  {
    var first := Lower(change[0]);
    assert m == [first] + rest && Has('y', change) == Has('y', change[1..]) && After('y', change) == After('y', change[1..]);
    LineMore(web, web[1..], m, rest, first);
    CheckedMore(web, web[1..], change, change[1..], m, rest, first, torn, buffer, ended, counts, n, r);
  }

  // One line more to match, and one more of the web file.
  lemma CheckedMore(web: seq<Line>, webRest: seq<Line>, change: seq<Line>, changeRest: seq<Line>, m: seq<Line>, rest: seq<Line>, first: Line,
                    torn: bool, buffer: Line, ended: bool, counts: seq<nat>, n: nat, r: Reader)
    requires |web| == |webRest| + 1 && |m| == |rest| + 1
    requires Has('y', change) == Has('y', changeRest) && After('y', change) == After('y', changeRest)
    requires |web| < |m| ==> m[|web|] == rest[|webRest|]
    requires |web| >= |m| ==> web[|m|..] == webRest[|rest|..] && web[|m|-1] == if rest == [] then web[0] else webRest[|rest|-1]
    requires Differences(web, m) == (if web[0] == first then 0 else 1) + Differences(webRest, rest)
    requires CheckedLines(webRest, changeRest, rest, torn, web[0], ended, counts, n + if web[0] == first then 0 else 1, r)
    ensures CheckedLines(web, change, m, torn, buffer, ended, counts, n, r)
  {
  }

  lemma LineMore(web: seq<Line>, webRest: seq<Line>, m: seq<Line>, rest: seq<Line>, first: Line)
    requires web != [] && webRest == web[1..] && m == [first] + rest
    ensures |web| < |m| ==> m[|web|] == rest[|webRest|]
    ensures |web| >= |m| ==> web[|m|..] == webRest[|rest|..] && web[|m|-1] == if rest == [] then web[0] else webRest[|rest|-1]
    ensures Differences(web, m) == (if web[0] == first then 0 else 1) + Differences(webRest, rest)
  {
    assert m[1..] == rest;
  }

  /** Checking a change takes as many web lines as there are lines to match. */
  lemma {:induction false} CheckLoopDoes(s: Reader, n: nat)
    ensures Checked(s, n, CheckLoop(s, n))
    decreases Left(s.change)
  {
    var t := CheckTurn(s, n);
    var change := Lines(s.change);
    if change == [] || Says(change[0], 'y') {
      CheckDone(s, n);
      CheckLast(s, n);
    } else {
      CheckNext(s, n);
      if !t.done {
        CheckLoopDoes(t.s, t.n);
        CheckedAfter(s, n, t.s, t.n, CheckLoop(t.s, t.n));
      }
    }
  }

  lemma CheckDone(s: Reader, n: nat)
    requires Lines(s.change) == [] || Says(Lines(s.change)[0], 'y')
    ensures CheckTurn(s, n).done
  {
    ReadsChange(s.(changing := true, printWhere := true));
  }

  // ---------- one line

  /** What has been reported so far and what is still to come. */
  function Total(s: Reader): Merged {
    Before([], Counts(s.errors), Expected(s))
  }

  // A merge without blocks is the web file, torn or not.
  lemma {:induction false} NoBlocks(web: seq<Line>, torn: bool)
    ensures Merge(web, [], torn) == Merged(web, [], [])
    decreases |web|
  {
    if web != [] {
      NoBlocks(web[1..], torn);
    }
  }

  lemma PendingMerge(s: Reader, web: seq<Line>, torn: bool)
    requires s.changeBuffer != [] ==> Torn(s.change) == torn
    ensures Merge(web, Pending(s), Torn(s.change)) == Merge(web, Pending(s), torn)
  {
    if s.changeBuffer == [] {
      NoBlocks(web, torn);
      NoBlocks(web, Torn(s.change));
    }
  }

  lemma NothingBefore(m: Merged)
    ensures Before([], [], m) == m
  {
  }

  lemma BeforeBefore(a: seq<Line>, b: seq<Line>, c: seq<nat>, d: seq<nat>, m: Merged)
    ensures Before(a, c, Before(b, d, m)) == Before(a + b, c + d, m)
  {
    assert a + (b + m.lines) == a + b + m.lines;
    assert c + (d + m.counts) == c + d + m.counts;
  }

  // The end of a change.
  lemma ChangeEnds(s: Reader, s2: Reader, web: seq<Line>, change: seq<Line>, torn: bool)
    requires s2.changing && !s2.ended && Lines(s2.web) == web && Lines(s2.change) == change && (change != [] ==> Torn(s2.change) == torn)
    ensures var r := Prime(s2).(changing := false, printWhere := true);
            Counts(r.errors) == Counts(s2.errors) && !r.ended && Expected(r) == Merge(web, Blocks(change), torn)
  {
    var s3 := s2.(changeBuffer := []);
    FindsX(s3);
    var r := Prime(s2).(changing := false, printWhere := true);
    assert Pending(r) == Pending(FindX(s3)) == Blocks(change);
    if change == [] {
      NoBlocks(web, torn);
      NoBlocks(web, Torn(r.change));
    } else {
      PendingMerge(r, web, torn);
    }
  }

  lemma FromChangeDelivers(s: Reader)
    requires s.changing && !s.ended
    ensures var r := FromChange(s);
            !r.ended && Total(s) == if r.changing then Before([r.buffer], [], Total(r)) else Total(r)
  {
    var (s0, ok) := ReadChange(s);
    ReadsChange(s);
    var web, change, torn := Lines(s.web), Lines(s.change), Torn(s.change);
    if !ok {
      FileCutShort(s, s0, web, torn);
    } else {
      LineRead(s, s0, web, change, torn);
    }
  }

  lemma FileCutShort(s: Reader, s0: Reader, web: seq<Line>, torn: bool)
    requires s.changing && !s.ended && ReadChange(s) == (s0, false) && s0.changing && !s0.ended
    requires Lines(s.web) == Lines(s0.web) == web && Lines(s.change) == Lines(s0.change) == [] && Torn(s.change) == torn
    requires Counts(s0.errors) == Counts(s.errors)
    ensures var r := FromChange(s); !r.ended && !r.changing && Total(s) == Total(r)
  {
    var s2 := Complain(s0, EndedWithoutZ).(buffer := "@z");
    CountsAfter(s0, EndedWithoutZ);
    assert FromChange(s) == Prime(s2).(changing := false, printWhere := true);
    ChangeEnds(s, s2, web, [], torn);
    EndOfChange(s, s2, web, [], torn);
  }

  lemma LineRead(s: Reader, s0: Reader, web: seq<Line>, change: seq<Line>, torn: bool)
    requires s.changing && !s.ended && ReadChange(s) == (s0, true) && s0.changing && !s0.ended
    requires Lines(s.web) == Lines(s0.web) == web && Lines(s.change) == change && change != [] && Lines(s0.change) == change[1..]
    requires s0.buffer == change[0] && Torn(s.change) == Torn(s0.change) == torn && Counts(s0.errors) == Counts(s.errors)
    ensures var r := FromChange(s);
            !r.ended && Total(s) == if r.changing then Before([r.buffer], [], Total(r)) else Total(r)
  {
    var s2 := s0.(buffer := Lower(s0.buffer));
    CountsAfter(s2, WhereZ);
    if Says(change[0], 'z') {
      assert FromChange(s) == Prime(s2).(changing := false, printWhere := true);
      ChangeEnds(s, s2, web, change[1..], torn);
      EndOfChange(s, s2, web, change, torn);
    } else {
      LineOfChange(s, FromChange(s), web, change, torn);
    }
  }

  lemma EndOfChange(s: Reader, s2: Reader, web: seq<Line>, change: seq<Line>, torn: bool)
    requires s.changing && !s.ended && s2.changing && !s2.ended && Counts(s2.errors) == Counts(s.errors)
    requires Lines(s.web) == Lines(s2.web) == web && Lines(s.change) == change && Torn(s.change) == torn
    requires if change == [] then Lines(s2.change) == [] else Says(change[0], 'z') && Lines(s2.change) == change[1..] && Torn(s2.change) == torn
    ensures Total(s) == Total(Prime(s2).(changing := false, printWhere := true))
  {
    ChangeEnds(s, s2, web, if change == [] then [] else change[1..], torn);
    NothingBefore(Merge(web, Blocks(After('z', change)), torn));
  }

  lemma LineOfChange(s: Reader, r: Reader, web: seq<Line>, change: seq<Line>, torn: bool)
    requires s.changing && !s.ended && r.changing && !r.ended && change != [] && !Says(change[0], 'z')
    requires Lines(s.web) == Lines(r.web) == web && Lines(s.change) == change && Lines(r.change) == change[1..]
    requires Torn(s.change) == Torn(r.change) == torn && r.buffer == Lower(change[0]) && Counts(r.errors) == Counts(s.errors)
    ensures Total(s) == Before([r.buffer], [], Total(r))
  {
    var counts, rest := Counts(s.errors), Merge(web, Blocks(After('z', change)), torn);
    BeforeBefore([r.buffer], UpTo('z', change[1..]), [], [], rest);
    BeforeBefore([], [r.buffer], counts, [], Expected(r));
    BeforeBefore([r.buffer], [], [], counts, Expected(r));
  }

  lemma FromWebDelivers(s: Reader)
    requires !s.changing && !s.ended
    ensures var r := FromWeb(s);
            Total(s) == if r.ended || r.changing then Total(r) else Before([r.buffer], [], Total(r))
  {
    var (s1, ok) := ReadWeb(s);
    ReadsWeb(s);
    var web := Lines(s.web);
    if ok {
      if s1.buffer == s1.changeBuffer && s1.changeBuffer != [] {
        ChangeDelivers(s, s1);
      } else {
        PlainLine(s, s1, web);
      }
    }
  }

  lemma PlainLine(s: Reader, s1: Reader, web: seq<Line>)
    requires !s.changing && !s.ended && !s1.changing && !s1.ended && s1.change == s.change && s1.changeBuffer == s.changeBuffer
    requires web == Lines(s.web) && web != [] && s1.buffer == web[0] && Lines(s1.web) == web[1..] && Counts(s1.errors) == Counts(s.errors)
    requires s.changeBuffer == [] || web[0] != s.changeBuffer
    ensures Total(s) == Before([web[0]], [], Total(s1))
  {
    assert Pending(s1) == Pending(s);
    PlainTotal(web, Pending(s), Torn(s.change), Counts(s.errors));
  }

  lemma PlainTotal(web: seq<Line>, blocks: seq<Block>, torn: bool, counts: seq<nat>)
    requires web != [] && (FirstOf(blocks) == [] || web[0] != FirstOf(blocks))
    ensures Before([], counts, Merge(web, blocks, torn)) == Before([web[0]], [], Before([], counts, Merge(web[1..], blocks, torn)))
  {
    var m := Merge(web[1..], blocks, torn);
    BeforeBefore([], [web[0]], counts, [], m);
    BeforeBefore([web[0]], [], [], counts, m);
  }

  // The first line of a change has been read.
  ghost predicate AtChange(s: Reader, s1: Reader) {
    && !s.changing && !s.ended && !s1.changing && !s1.ended && s1.change == s.change && s1.changeBuffer == s.changeBuffer != []
    && Lines(s.web) != [] && s1.buffer == Lines(s.web)[0] == s.changeBuffer && Lines(s1.web) == Lines(s.web)[1..]
    && Counts(s1.errors) == Counts(s.errors)
  }

  lemma ChangeDelivers(s: Reader, s1: Reader)
    requires AtChange(s, s1)
    ensures var r := CheckLoop(s1, 0);
            Total(s) == if r.ended || r.changing then Total(r) else Before([r.buffer], [], Total(r))
  {
    CheckLoopDoes(s1, 0);
    var r := CheckLoop(s1, 0);
    var web, change, torn, m := Lines(s.web), Lines(s.change), Torn(s.change), UpTo('y', Lines(s.change));
    if |web| <= |m| {
      WebTooShort(s, r, web, change, m, torn);
    } else if Has('y', change) {
      ChangeBegins(s, s1, r, web, change, m, torn);
    } else {
      ChangeCut(s, s1, r, web, change, m, torn);
    }
  }

  lemma WebTooShort(s: Reader, r: Reader, web: seq<Line>, change: seq<Line>, m: seq<Line>, torn: bool)
    requires !s.changing && !s.ended && s.changeBuffer != [] && r.ended && Counts(r.errors) == Counts(s.errors)
    requires web == Lines(s.web) && change == Lines(s.change) && m == UpTo('y', change) && torn == Torn(s.change)
    requires 0 < |web| <= |m| && web[0] == s.changeBuffer && r.changeBuffer == m[|web| - 1]
    ensures Total(s) == Total(r)
  {
    assert Expected(s) == Change(web, Pending(s), torn);
    assert ([s.changeBuffer] + m)[|web|] == m[|web| - 1];
  }

  lemma ChangeBegins(s: Reader, s1: Reader, r: Reader, web: seq<Line>, change: seq<Line>, m: seq<Line>, torn: bool)
    requires AtChange(s, s1) && Checked(s1, 0, r)
    requires web == Lines(s.web) && change == Lines(s.change) && m == UpTo('y', change) && torn == Torn(s.change)
    requires |web| > |m| && Has('y', change)
    ensures Total(s) == Total(r)
  {
    var first := BlockFrom(s.changeBuffer, change);
    var rest := Blocks(After('z', After('y', change)));
    var web2 := web[|m| + 1..];
    assert web2 == web[1..][|m|..];
    assert first.pattern[1..] == m;
    assert Pending(s) == [first] + rest && ([first] + rest)[1..] == rest;
    SameDifferences(web, m);
    var n := Count(Differences(web[1..], m));
    MergeChange(web, first, rest, torn);
    ChangeTotal(Counts(s.errors), n, first.replacement, Merge(web2, rest, torn));
  }

  lemma ChangeCut(s: Reader, s1: Reader, r: Reader, web: seq<Line>, change: seq<Line>, m: seq<Line>, torn: bool)
    requires AtChange(s, s1) && Checked(s1, 0, r)
    requires web == Lines(s.web) && change == Lines(s.change) && m == UpTo('y', change) && torn == Torn(s.change)
    requires |web| > |m| && !Has('y', change)
    ensures Total(s) == Before([r.buffer], [], Total(r))
  {
    var web2, first := web[|m| + 1..], BlockFrom(s.changeBuffer, change);
    assert web2 == web[1..][|m|..];
    NoBlocks(web2, Torn(r.change));
    NoBlocks(web2, torn);
    assert Pending(s) == [first];
    MergeCut(web, first, torn);
    CutTotal(r.buffer, Counts(s.errors), Merge(web2, [], torn));
  }

  lemma CutTotal(line: Line, counts: seq<nat>, m: Merged)
    ensures Before([], counts, Before([line], [], m)) == Before([line], [], Before([], counts, m))
  {
    BeforeBefore([], [line], counts, [], m);
    BeforeBefore([line], [], [], counts, m);
  }

  lemma MergeChange(web: seq<Line>, b: Block, rest: seq<Block>, torn: bool)
    requires web != [] && b.pattern != [] && b.pattern[0] == web[0] != [] && |web| >= |b.pattern| && b.complete
    ensures Merge(web, [b] + rest, torn)
         == Before(b.replacement, Count(Differences(web[1..|b.pattern|], b.pattern[1..])), Merge(web[|b.pattern|..], rest, torn))
  {
    assert ([b] + rest)[1..] == rest;
  }

  lemma MergeCut(web: seq<Line>, b: Block, torn: bool)
    requires web != [] && b.pattern != [] && b.pattern[0] == web[0] != [] && |web| >= |b.pattern| && !b.complete
    ensures Merge(web, [b], torn) == Before([if torn then web[|b.pattern|-1] else []], [], Merge(web[|b.pattern|..], [], torn))
  {
  }

  lemma ChangeTotal(counts: seq<nat>, n: seq<nat>, lines: seq<Line>, m: Merged)
    ensures Before([], counts, Before(lines, n, m)) == Before([], counts + n, Before(lines, [], m))
  {
  }

  lemma SameDifferences(web: seq<Line>, m: seq<Line>)
    requires |web| > |m|
    ensures Differences(web[1..|m| + 1], m) == Differences(web[1..], m)
  {
    assert web[1..|m| + 1] == web[1..][..|m|];
    TakeDifferences(web[1..], m);
  }

  lemma {:induction false} TakeDifferences(web: seq<Line>, m: seq<Line>)
    requires |web| >= |m|
    ensures Differences(web[..|m|], m) == Differences(web, m)
    decreases |m|
  {
    if m != [] {
      TakeDifferences(web[1..], m[1..]);
      assert web[..|m|][1..] == web[1..][..|m| - 1];
    }
  }

  /** One call of `get_line` delivers the next line. */
  lemma {:induction false} GetLineDelivers(s: Reader)
    requires !s.ended
    ensures var r := GetLine(s); Total(s) == if r.ended then Total(r) else Before([r.buffer], [], Total(r))
    decreases Left(s.web) + Left(s.change), 1
  {
    if s.changing {
      FromChangeDelivers(s);
      FromChangeAdvances(s);
      if !FromChange(s).changing {
        WebLineDelivers(FromChange(s));
      }
    } else {
      WebLineDelivers(s);
    }
  }

  lemma {:induction false} WebLineDelivers(s: Reader)
    requires !s.ended && !s.changing
    ensures var r := GetWebLine(s); Total(s) == if r.ended then Total(r) else Before([r.buffer], [], Total(r))
    decreases Left(s.web) + Left(s.change), 0
  {
    FromWebDelivers(s);
    FromWebAdvances(s);
    NotBoth(s);
    if FromWeb(s).changing {
      GetLineDelivers(FromWeb(s));
    }
  }

  lemma NotBoth(s: Reader)
    requires !s.ended && !s.changing
    ensures !(FromWeb(s).changing && FromWeb(s).ended)
  {
    ReadsWeb(s);
    var (s1, ok) := ReadWeb(s);
    if ok && s1.buffer == s1.changeBuffer && s1.changeBuffer != [] {
      CheckLoopDoes(s1, 0);
    }
  }

  // ---------- all lines

  lemma {:induction false} GetLineAdvances(s: Reader)
    requires !s.ended
    ensures var r := GetLine(s); r.ended || Left(r.web) + Left(r.change) < Left(s.web) + Left(s.change)
    decreases Left(s.web) + Left(s.change), 1
  {
    if s.changing {
      FromChangeAdvances(s);
      if !FromChange(s).changing {
        WebLineAdvances(FromChange(s));
      }
    } else {
      WebLineAdvances(s);
    }
  }

  lemma {:induction false} WebLineAdvances(s: Reader)
    requires !s.ended && !s.changing
    ensures var r := GetWebLine(s); r.ended || Left(r.web) + Left(r.change) < Left(s.web) + Left(s.change)
    decreases Left(s.web) + Left(s.change), 0
  {
    FromWebAdvances(s);
    NotBoth(s);
    if FromWeb(s).changing {
      GetLineAdvances(FromWeb(s));
    }
  }

  /** The lines that calls of `get_line` deliver until it fails, and the state then. */
  function Deliver(s: Reader): (seq<Line>, Reader)
    decreases Left(s.web) + Left(s.change)
  {
    if s.ended then ([], s)
    else
      GetLineAdvances(s);
      var r := GetLine(s);
      if r.ended then ([], r) else var (rest, end) := Deliver(r); ([r.buffer] + rest, end)
  }

  lemma {:induction false} DeliverIsTotal(s: Reader)
    ensures var (lines, end) := Deliver(s); end.ended && Total(s) == Merged(lines, Counts(end.errors), end.changeBuffer)
    decreases Left(s.web) + Left(s.change)
  {
    if !s.ended {
      GetLineAdvances(s);
      GetLineDelivers(s);
      var r := GetLine(s);
      if !r.ended {
        DeliverIsTotal(r);
      }
    }
  }

  /** Reading a web file with a change file delivers their merge, reports each change that
      was applied to lines that differ, and leaves the line that waits for a match. */
  lemma ReadingMerges(web: seq<char>, change: seq<char>)
    ensures var (lines, end) := Deliver(Start(web, change));
            var w, c := Feed(web, 0, false), Feed(change, 0, false);
            Merged(lines, Counts(end.errors), end.changeBuffer) == Merge(Lines(w), Blocks(Lines(c)), Torn(c))
  {
    var w, c := Feed(web, 0, false), Feed(change, 0, false);
    var s2 := Reader(w, c, [], [], true, 0, 0, false, false, []);
    ChangeEnds(s2, s2, Lines(w), Lines(c), Torn(c));
    var r := Prime(s2).(changing := false, printWhere := true);
    DeliverIsTotal(Start(web, change));
    FindsX(s2);
    assert Expected(Start(web, change)) == Expected(r);
    NothingBefore(Expected(r));
  }
}
