// When a line of the web file is lost: the change file ends before @y
// (cweb/common.c:457-467, 542-605).

module ChangeLoss {
  import opened ChangeReader
  import opened ChangeMerge
  import opened ChangeLines

  /** A change without @y is applied, where the change file does not end in the middle of a
      line: the last web line that it takes is lost, unless it is empty anyway. */
  predicate Loses(web: seq<Line>, blocks: seq<Block>, torn: bool)
    decreases |web|
  {
    if web == [] then false
    else if FirstOf(blocks) != [] && web[0] == FirstOf(blocks) then
      var m := |blocks[0].pattern|;
      |web| >= m && if blocks[0].complete then Loses(web[m..], blocks[1..], torn) else !torn && web[m-1] != []
    else Loses(web[1..], blocks, torn)
  }

  lemma {:induction false} NoBlocksNoLoss(web: seq<Line>, torn: bool)
    ensures !Loses(web, [], torn)
    decreases |web|
  {
    if web != [] {
      NoBlocksNoLoss(web[1..], torn);
    }
  }

  /** A line can be lost only if the last block lacks its @y. */
  lemma {:induction false} LossNeedsCut(web: seq<Line>, blocks: seq<Block>, torn: bool)
    requires Loses(web, blocks, torn)
    ensures !torn && exists b :: b in blocks && !b.complete
    decreases |web|
  {
    if FirstOf(blocks) != [] && web[0] == FirstOf(blocks) {
      assert blocks[0] in blocks;
      if blocks[0].complete {
        LossNeedsCut(web[|blocks[0].pattern|..], blocks[1..], torn);
        var b :| b in blocks[1..] && !b.complete;
        assert b in blocks;
      }
    } else {
      LossNeedsCut(web[1..], blocks, torn);
    }
  }

  /** The lines that are still to be read contain one that will be lost. */
  predicate WillLose(s: Reader) {
    var web, change, torn := Lines(s.web), Lines(s.change), Torn(s.change);
    if s.ended then false
    else if s.changing then Loses(web, Blocks(After('z', change)), torn)
    else Loses(web, Pending(s), torn)
  }

  // ---------- a line of the change file

  lemma ChangeEndLoses(s2: Reader, web: seq<Line>, change: seq<Line>, torn: bool)
    requires s2.changing && !s2.ended && Lines(s2.web) == web && Lines(s2.change) == change && (change != [] ==> Torn(s2.change) == torn)
    ensures WillLose(Prime(s2).(changing := false, printWhere := true)) == Loses(web, Blocks(change), torn)
  {
    var s3 := s2.(changeBuffer := []);
    FindsX(s3);
    var r := Prime(s2).(changing := false, printWhere := true);
    assert Pending(r) == Pending(FindX(s3)) == Blocks(change);
    if r.changeBuffer == [] {
      NoBlocksNoLoss(web, torn);
      NoBlocksNoLoss(web, Torn(r.change));
    }
  }

  lemma FromChangeLoses(s: Reader)
    requires s.changing && !s.ended
    ensures WillLose(FromChange(s)) == WillLose(s)
  {
    var (s0, ok) := ReadChange(s);
    ReadsChange(s);
    var web, change, torn := Lines(s.web), Lines(s.change), Torn(s.change);
    if !ok {
      FileCutShortLoses(s, s0, web, torn);
    } else {
      LineReadLoses(s, s0, web, change, torn);
    }
  }

  lemma FileCutShortLoses(s: Reader, s0: Reader, web: seq<Line>, torn: bool)
    requires s.changing && !s.ended && ReadChange(s) == (s0, false) && s0.changing && !s0.ended
    requires Lines(s.web) == Lines(s0.web) == web && Lines(s.change) == Lines(s0.change) == [] && Torn(s.change) == torn
    ensures WillLose(FromChange(s)) == WillLose(s)
  {
    var s2 := Complain(s0, EndedWithoutZ).(buffer := "@z");
    assert FromChange(s) == Prime(s2).(changing := false, printWhere := true);
    ChangeEndLoses(s2, web, [], torn);
  }

  lemma LineReadLoses(s: Reader, s0: Reader, web: seq<Line>, change: seq<Line>, torn: bool)
    requires s.changing && !s.ended && ReadChange(s) == (s0, true) && s0.changing && !s0.ended
    requires Lines(s.web) == Lines(s0.web) == web && Lines(s.change) == change && change != [] && Lines(s0.change) == change[1..]
    requires s0.buffer == change[0] && Torn(s.change) == Torn(s0.change) == torn
    ensures WillLose(FromChange(s)) == WillLose(s)
  {
    if Says(change[0], 'z') {
      var s2 := s0.(buffer := Lower(s0.buffer));
      assert FromChange(s) == Prime(s2).(changing := false, printWhere := true);
      ChangeEndLoses(s2, web, change[1..], torn);
    } else {
      assert After('z', change) == After('z', change[1..]);
    }
  }

  // ---------- a line of the web file

  lemma ChangeLoses(s: Reader, s1: Reader, r: Reader, w: seq<Line>, c: seq<Line>)
    requires AtChange(s, s1) && r == CheckLoop(s1, 0) && Counted(s, w, c) && Counted(r, w, c)
    requires !r.changing && !r.ended ==> 0 < r.curLine <= |w|
    ensures WillLose(s) <==> !r.ended && if r.changing then WillLose(r) else !AtWebLine(r, w) || WillLose(r)
  {
    CheckLoopDoes(s1, 0);
    var web, change, torn, m := Lines(s.web), Lines(s.change), Torn(s.change), UpTo('y', Lines(s.change));
    var first := BlockFrom(s.changeBuffer, change);
    if |web| <= |m| {
      ShortChange(s, first, web, change, torn);
    } else if Has('y', change) {
      WholeChange(s, s1, r, first, web, change, torn);
    } else {
      CutChange(s, s1, r, w, c, first, web, change, torn);
    }
  }

  lemma ShortChange(s: Reader, first: Block, web: seq<Line>, change: seq<Line>, torn: bool)
    requires !s.changing && !s.ended && s.changeBuffer != [] && web == Lines(s.web) && change == Lines(s.change) && torn == Torn(s.change)
    requires web != [] && web[0] == s.changeBuffer && first == BlockFrom(s.changeBuffer, change) && |web| < |first.pattern|
    ensures !WillLose(s)
  {
    assert FirstOf(Pending(s)) == s.changeBuffer && Pending(s)[0] == first;
  }

  lemma WholeChange(s: Reader, s1: Reader, r: Reader, first: Block, web: seq<Line>, change: seq<Line>, torn: bool)
    requires AtChange(s, s1) && Checked(s1, 0, r) && web == Lines(s.web) && change == Lines(s.change) && torn == Torn(s.change)
    requires first == BlockFrom(s.changeBuffer, change) && |web| >= |first.pattern| && Has('y', change)
    ensures !r.ended && r.changing && WillLose(s) == WillLose(r)
  {
    var rest, m := Blocks(After('z', After('y', change))), |first.pattern|;
    assert web[m..] == web[1..][m-1..];
    assert Pending(s) == [first] + rest && ([first] + rest)[1..] == rest && FirstOf([first] + rest) == s.changeBuffer;
    assert WillLose(s) == Loses(web[m..], rest, torn);
  }

  lemma CutChange(s: Reader, s1: Reader, r: Reader, w: seq<Line>, c: seq<Line>, first: Block, web: seq<Line>, change: seq<Line>, torn: bool)
    requires AtChange(s, s1) && Checked(s1, 0, r) && web == Lines(s.web) && change == Lines(s.change) && torn == Torn(s.change)
    requires first == BlockFrom(s.changeBuffer, change) && |web| >= |first.pattern| && !Has('y', change)
    requires Counted(s, w, c) && Counted(r, w, c) && (!r.changing && !r.ended ==> 0 < r.curLine <= |w|)
    ensures !r.ended && !r.changing && !WillLose(r) && WillLose(s) == !AtWebLine(r, w)
  {
    var m := |first.pattern|;
    CutLoses(s, first, web, change, torn);
    CutBuffer(s1, r, web, change, torn, m);
    LastIsTaken(s, r, w, c, web, m - 1);
    NoBlocksNoLoss(Lines(r.web), Torn(r.change));
  }

  lemma CutLoses(s: Reader, first: Block, web: seq<Line>, change: seq<Line>, torn: bool)
    requires !s.changing && !s.ended && s.changeBuffer != [] && web == Lines(s.web) && change == Lines(s.change) && torn == Torn(s.change)
    requires first == BlockFrom(s.changeBuffer, change) && |web| >= |first.pattern| && !Has('y', change) && web[0] == s.changeBuffer
    ensures WillLose(s) == (!torn && web[|first.pattern|-1] != [])
  {
    assert Pending(s) == [first] && FirstOf([first]) == s.changeBuffer;
  }

  lemma CutBuffer(s1: Reader, r: Reader, web: seq<Line>, change: seq<Line>, torn: bool, m: nat)
    requires Checked(s1, 0, r) && change == Lines(s1.change) && torn == Torn(s1.change) && !Has('y', change)
    requires m == |UpTo('y', change)| + 1 && |web| >= m && Lines(s1.web) == web[1..] && s1.buffer == web[0]
    ensures r.buffer == if torn then web[m-1] else []
    ensures !r.ended || s1.ended
    ensures !r.changing && r.changeBuffer == [] && Lines(r.web) == web[m..]
  {
    var u := UpTo('y', change);
    assert web[m..] == web[1..][m-1..];
    assert u != [] ==> web[1..][|u|-1] == web[m-1];
  }

  // The counter tells the last web line that was taken.
  lemma LastIsTaken(s: Reader, r: Reader, w: seq<Line>, c: seq<Line>, web: seq<Line>, m: nat)
    requires Counted(s, w, c) && Counted(r, w, c) && web == Lines(s.web) && m < |web| && Lines(r.web) == web[m + 1..]
    requires 0 < r.curLine <= |w|
    ensures w[r.curLine - 1] == web[m]
  {
    assert web == w[s.curLine..] && |w| - r.curLine == |web| - m - 1;
  }

  lemma FromWebLoses(s: Reader, w: seq<Line>, c: seq<Line>)
    requires Counted(s, w, c) && !s.changing && !s.ended
    ensures var r := FromWeb(s);
            WillLose(s) <==> !r.ended && if r.changing then WillLose(r) else !AtWebLine(r, w) || WillLose(r)
  {
    var (s1, ok) := ReadWeb(s);
    ReadsWeb(s);
    CountsWeb(s, w, c);
    if ok {
      if s1.buffer == s1.changeBuffer && s1.changeBuffer != [] {
        CountsCheckLoop(s1, 0, w, c);
        ChangeLoses(s, s1, CheckLoop(s1, 0), w, c);
      } else {
        assert Pending(s1) == Pending(s);
      }
    }
  }

  // ---------- one call, and all calls

  /** A call delivers a line that is not that of its file exactly if this line will be lost. */
  lemma {:induction false} GetLineLoses(s: Reader, w: seq<Line>, c: seq<Line>)
    requires Counted(s, w, c) && !s.ended
    ensures var r := GetLine(s); WillLose(s) <==> !r.ended && (!Exact(r, w, c) || WillLose(r))
    decreases Left(s.web) + Left(s.change), 1
  {
    if s.changing {
      FromChangeLoses(s);
      CountsFromChange(s, w, c);
      FromChangeAdvances(s);
      if !FromChange(s).changing {
        WebLineLoses(FromChange(s), w, c);
      }
    } else {
      WebLineLoses(s, w, c);
    }
  }

  lemma {:induction false} WebLineLoses(s: Reader, w: seq<Line>, c: seq<Line>)
    requires Counted(s, w, c) && !s.ended && !s.changing
    ensures var r := GetWebLine(s); WillLose(s) <==> !r.ended && (!Exact(r, w, c) || WillLose(r))
    decreases Left(s.web) + Left(s.change), 0
  {
    FromWebLoses(s, w, c);
    CountsFromWeb(s, w, c);
    FromWebAdvances(s);
    NotBoth(s);
    if FromWeb(s).changing {
      GetLineLoses(FromWeb(s), w, c);
    }
  }

  /** Line number n of the run, if there is one, is not that of its file. */
  predicate LostAt(s: Reader, w: seq<Line>, c: seq<Line>, n: nat) {
    n > 0 && !StateAfter(s, n).ended && !Exact(StateAfter(s, n), w, c)
  }

  lemma {:induction false} LostSoFar(s: Reader, w: seq<Line>, c: seq<Line>, n: nat)
    requires Counted(s, w, c) && !s.ended
    ensures Counted(StateAfter(s, n), w, c)
    ensures WillLose(s) <==> (exists m: nat :: m <= n && LostAt(s, w, c, m)) || WillLose(StateAfter(s, n))
    decreases n
  {
    if n > 0 {
      var k: nat := n - 1;
      LostSoFar(s, w, c, k);
      var t := StateAfter(s, k);
      if !t.ended {
        LinesAreGenuine(t.(printWhere := false), w, c);
        GetLineLoses(t.(printWhere := false), w, c);
      }
      LostUpTo(s, w, c, k);
    }
  }

  lemma LostUpTo(s: Reader, w: seq<Line>, c: seq<Line>, k: nat)
    ensures (exists m: nat :: m <= k + 1 && LostAt(s, w, c, m)) <==> (exists m: nat :: m <= k && LostAt(s, w, c, m)) || LostAt(s, w, c, k + 1)
  {
  }

  lemma {:induction false} RunEnds(s: Reader, n: nat)
    requires !s.ended
    ensures StateAfter(s, n).ended || Left(StateAfter(s, n).web) + Left(StateAfter(s, n).change) + n <= Left(s.web) + Left(s.change)
    decreases n
  {
    if n > 0 {
      RunEnds(s, n - 1);
      var t := StateAfter(s, n - 1);
      if !t.ended { GetLineAdvances(t.(printWhere := false)); }
    }
  }

  /** Whatever the two files contain, some line is delivered that is not that of its file,
      if and only if the files lose one. */
  lemma LostExactly(web: seq<char>, change: seq<char>)
    ensures var w, c := Feed(web, 0, false), Feed(change, 0, false);
            (exists n: nat :: LostAt(Start(web, change), Lines(w), Lines(c), n)) <==> Loses(Lines(w), Blocks(Lines(c)), Torn(c))
  {
    var w, c, s := Feed(web, 0, false), Feed(change, 0, false), Start(web, change);
    StartIsCounted(web, change);
    StartLoses(web, change);
    var last := Left(s.web) + Left(s.change) + 1;
    forall n: nat | LostAt(s, Lines(w), Lines(c), n)
      ensures WillLose(s)
    {
      LostSoFar(s, Lines(w), Lines(c), n);
    }
    LostSoFar(s, Lines(w), Lines(c), last);
    RunEnds(s, last);
  }

  /** Nothing is lost if every change has its @y, or the change file ends within a line. */
  lemma CompleteLosesNothing(web: seq<char>, change: seq<char>)
    requires var c := Feed(change, 0, false); Torn(c) || forall b :: b in Blocks(Lines(c)) ==> b.complete
    ensures forall n: nat :: !LostAt(Start(web, change), Lines(Feed(web, 0, false)), Lines(Feed(change, 0, false)), n)
  {
    var w, c := Feed(web, 0, false), Feed(change, 0, false);
    LostExactly(web, change);
    if Loses(Lines(w), Blocks(Lines(c)), Torn(c)) { LossNeedsCut(Lines(w), Blocks(Lines(c)), Torn(c)); }
  }

  lemma StartLoses(web: seq<char>, change: seq<char>)
    ensures var w, c := Feed(web, 0, false), Feed(change, 0, false);
            WillLose(Start(web, change)) == Loses(Lines(w), Blocks(Lines(c)), Torn(c))
  {
    var w, c := Feed(web, 0, false), Feed(change, 0, false);
    var s2 := Reader(w, c, [], [], true, 0, 0, false, false, []);
    ChangeEndLoses(s2, Lines(w), Lines(c), Torn(c));
    FindsX(s2);
  }

  // ---------- an example

  lemma OneLine(text: seq<char>, pos: nat, n: nat)
    requires pos <= n < |text| && n <= pos + CAPACITY && text[n] == '\n' && forall i :: pos <= i < n ==> text[i] != '\n'
    ensures InputLn(Feed(text, pos, false), []) == Input(Feed(text, n + 1, false), Trim(text[pos..n]), true, false)
  {
    EndAt(text, pos, CAPACITY, n);
  }

  lemma {:induction false} EndAt(text: seq<char>, from: nat, room: nat, n: nat)
    requires from <= n < |text| && n <= from + room && text[n] == '\n' && forall i :: from <= i < n ==> text[i] != '\n'
    ensures LineEnd(text, from, room) == n
    decreases room
  {
    if from < n {
      EndAt(text, from + 1, room - 1, n);
    }
  }

  /** A web file of the line `a`, and a change file that stops after the line to match. */
  lemma LossExample()
    ensures var w, c := Feed("a\n", 0, false), Feed("@x\na\n", 0, false);
            && Lines(w) == ["a"] && Lines(c) == ["@x", "a"] && !Torn(c)
            && Loses(Lines(w), Blocks(Lines(c)), Torn(c))
            && Merge(Lines(w), Blocks(Lines(c)), Torn(c)).lines == [[]]
  {
    LossWeb("a\n");
    LossChange("@x\na\n");
    LossOfOne();
  }

  lemma LossWeb(web: seq<char>)
    requires web == "a\n"
    ensures Lines(Feed(web, 0, false)) == ["a"]
  {
    OneLine(web, 0, 1);
    assert web[0..1] == "a" && Lines(Feed(web, 2, false)) == [];
  }

  lemma LossChange(change: seq<char>)
    requires change == "@x\na\n"
    ensures Lines(Feed(change, 0, false)) == ["@x", "a"] && !Torn(Feed(change, 0, false))
  {
    OneLine(change, 0, 2);
    OneLine(change, 3, 4);
    var f := Feed(change, 3, false);
    assert Lines(Feed(change, 5, false)) == [] && !Torn(Feed(change, 5, false));
    assert change[3..4] == "a" && Lines(f) == ["a"] && !Torn(f);
    assert change[0..2] == "@x";
  }

  lemma LossOfOne()
    ensures Blocks(["@x", "a"]) == [Block(["a"], [], false)]
    ensures Loses(["a"], [Block(["a"], [], false)], false) && Merge(["a"], [Block(["a"], [], false)], false).lines == [[]]
  {
    assert ["@x", "a"][1..] == ["a"] && ["a"][1..] == [];
    assert BlockFrom("a", []) == Block(["a"], [], false);
    assert Blocks(["@x", "a"]) == FirstBlock(["a"]) == BlocksFrom("a", []) == [BlockFrom("a", [])];
  }
}
