// What merging means: which web lines give way, what is left over, and when lines that
// look the same are reported as different (cweb/common.c:443-507, 542-605, 673-682).

module ChangeLaws {
  import opened Basics
  import opened ChangeReader
  import opened ChangeMerge

  /** pres[0], mids[0], pres[1], mids[1], ... one after the other. */
  function Weave(pres: seq<seq<Line>>, mids: seq<seq<Line>>): seq<Line>
    requires |pres| == |mids|
  {
    if pres == [] then [] else pres[0] + mids[0] + Weave(pres[1..], mids[1..])
  }

  /** A change that @y follows, from a first line that is not blank. */
  predicate Proper(blocks: seq<Block>) {
    forall i :: 0 <= i < |blocks| ==> blocks[i].complete && blocks[i].pattern != [] && blocks[i].pattern[0] != []
  }

  /** The blocks of any change file are proper, but the last may lack its @y. */
  lemma {:induction false} BlocksAreProper(lines: seq<Line>)
    ensures AlmostProper(Blocks(lines)) && AlmostProper(FirstBlock(lines))
    decreases |lines|
  {
    if lines != [] {
      BlocksAreProper(lines[1..]);
      if lines[0] != [] && Has('y', lines[1..]) {
        var rest := After('z', After('y', lines[1..]));
        BlocksAreProper(rest);
        AddProper(BlockFrom(lines[0], lines[1..]), Blocks(rest));
      }
    }
  }

  ghost predicate AlmostProper(blocks: seq<Block>) {
    forall i :: 0 <= i < |blocks| ==> blocks[i].pattern != [] && blocks[i].pattern[0] != [] && (i + 1 < |blocks| ==> blocks[i].complete)
  }

  lemma AddProper(b: Block, rest: seq<Block>)
    requires b.complete && b.pattern != [] && b.pattern[0] != [] && AlmostProper(rest)
    ensures AlmostProper([b] + rest)
  {
    var all := [b] + rest;
    assert forall i :: 0 < i < |all| ==> all[i] == rest[i-1];
  }

  function Replacements(blocks: seq<Block>): seq<seq<Line>> {
    seq(|blocks|, i requires 0 <= i < |blocks| => blocks[i].replacement)
  }

  /** The mismatches that are reported when the lines `mids` give way to the blocks. */
  function Reports(mids: seq<seq<Line>>, blocks: seq<Block>): seq<nat> {
    if mids == [] || blocks == [] then []
    else
      (if mids[0] != [] && blocks[0].pattern != [] then Count(Differences(mids[0][1..], blocks[0].pattern[1..])) else [])
      + Reports(mids[1..], blocks[1..])
  }

  /** The web file in parts: what comes before each applied change, the lines each
      replaces, the lines after the last, and the beginning of a change that the end of
      the file cuts off. */
  datatype Parts = Parts(pres: seq<seq<Line>>, mids: seq<seq<Line>>, tail: seq<Line>, short: seq<Line>)

  /** Every change is applied at the first line equal to its own first line. */
  ghost predicate Applied(web: seq<Line>, blocks: seq<Block>, p: Parts) {
    var k := |p.pres|;
    && |p.mids| == k <= |blocks| && Proper(blocks)
    && web == Weave(p.pres, p.mids) + p.tail + p.short
    && (forall i :: 0 <= i < k ==> |p.mids[i]| == |blocks[i].pattern| && p.mids[i][0] == blocks[i].pattern[0] && blocks[i].pattern[0] !in p.pres[i])
    && (k < |blocks| ==> blocks[k].pattern[0] !in p.tail)
    && (p.short != [] ==> k < |blocks| && |p.short| < |blocks[k].pattern| && p.short[0] == blocks[k].pattern[0])
  }

  /** The replaced lines give way, all others stay; the line that is still waited for is
      that of the first change left over. */
  ghost predicate Outcome(m: Merged, blocks: seq<Block>, p: Parts) {
    var k := |p.pres|;
    && |p.mids| == k <= |blocks| && (k < |blocks| ==> |p.short| < |blocks[k].pattern|)
    && m.lines == Weave(p.pres, Replacements(blocks[..k])) + p.tail
    && m.counts == Reports(p.mids, blocks[..k])
    && m.waiting == if k < |blocks| then blocks[k].pattern[|p.short|] else []
  }

  // The web file ends, perhaps in the middle of a change.
  lemma NoneLeft(web: seq<Line>, blocks: seq<Block>, torn: bool)
    requires Proper(blocks)
    requires web != [] ==> blocks != [] && web[0] == blocks[0].pattern[0] && |web| < |blocks[0].pattern|
    ensures var p := Parts([], [], [], web); Applied(web, blocks, p) && Outcome(Merge(web, blocks, torn), blocks, p)
  {
    assert blocks[..0] == [];
    assert [] + [] + web == web;
  }

  /** Every merge is of this form. */
  lemma {:induction false} Decompose(web: seq<Line>, blocks: seq<Block>, torn: bool) returns (p: Parts)
    requires Proper(blocks)
    ensures Applied(web, blocks, p) && Outcome(Merge(web, blocks, torn), blocks, p)
    decreases |web|
  {
    if web == [] {
      p := Parts([], [], [], []);
      NoneLeft(web, blocks, torn);
    } else if blocks != [] && web[0] == blocks[0].pattern[0] {
      var b, m := blocks[0], |blocks[0].pattern|;
      if |web| < m {
        p := Parts([], [], [], web);
        NoneLeft(web, blocks, torn);
      } else {
        var q := Decompose(web[m..], blocks[1..], torn);
        p := WithChange(web, blocks, torn, q);
      }
    } else {
      var q := Decompose(web[1..], blocks, torn);
      p := WithLine(web, blocks, torn, q);
    }
  }

  lemma WeaveLine(x: seq<Line>, pres: seq<seq<Line>>, mids: seq<seq<Line>>)
    requires |pres| == |mids| > 0
    ensures Weave([x + pres[0]] + pres[1..], mids) == x + Weave(pres, mids)
  {
    var longer := [x + pres[0]] + pres[1..];
    assert longer[1..] == pres[1..];
    assert x + pres[0] + mids[0] + Weave(pres[1..], mids[1..]) == x + (pres[0] + mids[0] + Weave(pres[1..], mids[1..]));
  }

  lemma WeaveMore(pres: seq<seq<Line>>, mid: seq<Line>, mids: seq<seq<Line>>)
    requires |pres| == |mids|
    ensures Weave([[]] + pres, [mid] + mids) == mid + Weave(pres, mids)
  {
    var a, b := [[]] + pres, [mid] + mids;
    assert a[0] == [] && b[0] == mid && a[1..] == pres && b[1..] == mids;
    assert [] + mid == mid;
  }

  lemma RegroupAll(x: seq<Line>, a: seq<Line>, b: seq<Line>, c: seq<Line>)
    ensures x + a + b + c == x + (a + b + c) && x + a + b == x + (a + b)
  {
    Regroup(x, a, b);
    Regroup(x, a + b, c);
  }

  lemma WithLine(web: seq<Line>, blocks: seq<Block>, torn: bool, q: Parts) returns (p: Parts)
    requires web != [] && Proper(blocks) && (blocks != [] ==> web[0] != blocks[0].pattern[0])
    requires Applied(web[1..], blocks, q) && Outcome(Merge(web[1..], blocks, torn), blocks, q)
    ensures Applied(web, blocks, p) && Outcome(Merge(web, blocks, torn), blocks, p)
  {
    var x := [web[0]];
    var m := Merge(web[1..], blocks, torn);
    if q.pres == [] {
      p := q.(tail := x + q.tail);
      LineBeforeNothing(web, blocks, q);
      assert Weave([], Replacements(blocks[..0])) == [];
    } else {
      p := q.(pres := [x + q.pres[0]] + q.pres[1..]);
      LineBeforeChange(web, blocks, q, p);
      var r := Replacements(blocks[..|q.pres|]);
      WeaveLine(x, q.pres, r);
      RegroupAll(x, Weave(q.pres, r), q.tail, []);
    }
    assert Merge(web, blocks, torn) == Before(x, [], m);
  }

  lemma LineBeforeNothing(web: seq<Line>, blocks: seq<Block>, q: Parts)
    requires web != [] && (blocks != [] ==> blocks[0].pattern != [] && web[0] != blocks[0].pattern[0])
    requires q.pres == [] && Applied(web[1..], blocks, q)
    ensures Applied(web, blocks, q.(tail := [web[0]] + q.tail))
  {
    assert web == [web[0]] + web[1..];
    RegroupAll([web[0]], q.tail, q.short, []);
  }

  lemma LineBeforeChange(web: seq<Line>, blocks: seq<Block>, q: Parts, p: Parts)
    requires web != [] && blocks != [] && blocks[0].pattern != [] && web[0] != blocks[0].pattern[0]
    requires q.pres != [] && p == q.(pres := [[web[0]] + q.pres[0]] + q.pres[1..]) && Applied(web[1..], blocks, q)
    ensures Applied(web, blocks, p)
  {
    var x := [web[0]];
    assert web == x + web[1..];
    WeaveLine(x, q.pres, q.mids);
    RegroupAll(x, Weave(q.pres, q.mids), q.tail, q.short);
    forall i | 0 <= i < |p.pres|
      ensures blocks[i].pattern[0] !in p.pres[i]
    {
      assert i > 0 ==> p.pres[i] == q.pres[i];
    }
  }

  lemma WithChange(web: seq<Line>, blocks: seq<Block>, torn: bool, q: Parts) returns (p: Parts)
    requires blocks != [] && Proper(blocks) && web != [] && web[0] == blocks[0].pattern[0] && |web| >= |blocks[0].pattern|
    requires var m := |blocks[0].pattern|; Applied(web[m..], blocks[1..], q) && Outcome(Merge(web[m..], blocks[1..], torn), blocks[1..], q)
    ensures Applied(web, blocks, p) && Outcome(Merge(web, blocks, torn), blocks, p)
  {
    var b, rest, m := blocks[0], blocks[1..], |blocks[0].pattern|;
    p := q.(pres := [[]] + q.pres, mids := [web[..m]] + q.mids);
    ChangeInFront(web, blocks, q, p);
    MergeChange(web, b, rest, torn);
    assert blocks == [b] + rest;
    var k := |q.pres|;
    assert blocks[..k+1] == [b] + rest[..k];
    ReplacementsMore(b, rest[..k]);
    var r := Replacements(rest[..k]);
    WeaveMore(q.pres, b.replacement, r);
    RegroupAll(b.replacement, Weave(q.pres, r), q.tail, []);
    assert web[..m][1..] == web[1..m];
    assert ([b] + rest[..k])[1..] == rest[..k] && p.mids[1..] == q.mids;
  }

  lemma ReplacementsMore(b: Block, blocks: seq<Block>)
    ensures Replacements([b] + blocks) == [b.replacement] + Replacements(blocks)
  {
  }

  lemma ChangeInFront(web: seq<Line>, blocks: seq<Block>, q: Parts, p: Parts)
    requires blocks != [] && Proper(blocks) && web != [] && web[0] == blocks[0].pattern[0] && |web| >= |blocks[0].pattern|
    requires Applied(web[|blocks[0].pattern|..], blocks[1..], q)
    requires p == q.(pres := [[]] + q.pres, mids := [web[..|blocks[0].pattern|]] + q.mids)
    ensures Applied(web, blocks, p)
  {
    var m := |blocks[0].pattern|;
    assert web == web[..m] + web[m..];
    WeaveMore(q.pres, web[..m], q.mids);
    RegroupAll(web[..m], Weave(q.pres, q.mids), q.tail, q.short);
    forall i | 0 <= i < |p.pres|
      ensures |p.mids[i]| == |blocks[i].pattern| && p.mids[i][0] == blocks[i].pattern[0] && blocks[i].pattern[0] !in p.pres[i]
    {
      if i > 0 {
        assert p.mids[i] == q.mids[i-1] && p.pres[i] == q.pres[i-1] && blocks[i] == blocks[1..][i-1];
      }
    }
  }

  lemma PlaceBefore(a: Line, x: seq<Line>, u: seq<Line>, y: seq<Line>, v: seq<Line>)
    requires u != [] && u[0] == a && x + u == y + v
    ensures a in y || |y| <= |x|
  {
    assert (x + u)[|x|] == a;
    if |x| < |y| {
      assert (y + v)[|x|] == y[|x|];
    }
  }

  // The first place of a line decides what is before it.
  lemma FirstPlace(a: Line, x: seq<Line>, u: seq<Line>, y: seq<Line>, v: seq<Line>)
    requires a !in x && a !in y && u != [] && u[0] == a && x + u == y + v
    ensures v != [] && (v[0] == a ==> x == y && u == v)
  {
    PlaceBefore(a, x, u, y, v);
    assert |x + u| == |y + v|;
    if v[0] == a {
      PlaceBefore(a, y, v, x, u);
      SameSplit(x, u, y, v);
    }
  }

  // The parts after the first change.
  function Later(p: Parts): Parts
    requires p.pres != [] && p.mids != []
  {
    p.(pres := p.pres[1..], mids := p.mids[1..])
  }

  lemma LaterApplied(web: seq<Line>, blocks: seq<Block>, p: Parts)
    requires Applied(web, blocks, p) && p.pres != []
    ensures var u := p.mids[0] + (Weave(Later(p).pres, Later(p).mids) + p.tail + p.short);
            web == p.pres[0] + u && u[0] == blocks[0].pattern[0]
    ensures Applied(Weave(Later(p).pres, Later(p).mids) + p.tail + p.short, blocks[1..], Later(p))
  {
    var q := Later(p);
    assert Weave(p.pres, p.mids) == p.pres[0] + p.mids[0] + Weave(q.pres, q.mids);
    assert |p.mids[0]| > 0;
  }

  /** The parts are determined. */
  lemma {:induction false} PartsAreUnique(web: seq<Line>, blocks: seq<Block>, p: Parts, q: Parts)
    requires Applied(web, blocks, p) && Applied(web, blocks, q)
    ensures p == q
    decreases |blocks|
  {
    if blocks == [] {
      NoBlocksNoParts(web, p);
      NoBlocksNoParts(web, q);
    } else if p.pres == [] && q.pres == [] {
      NoneApplied(web, blocks, p, q);
    } else if p.pres != [] && q.pres != [] {
      BothApplied(web, blocks, p, q);
      PartsAreUnique(Weave(Later(p).pres, Later(p).mids) + p.tail + p.short, blocks[1..], Later(p), Later(q));
      FirstAndLater(p);
      FirstAndLater(q);
    } else if p.pres != [] {
      BothOrNone(web, blocks, p, q);
    } else {
      BothOrNone(web, blocks, q, p);
    }
  }

  lemma FirstAndLater(p: Parts)
    requires p.pres != [] && p.mids != []
    ensures p == Parts([p.pres[0]] + Later(p).pres, [p.mids[0]] + Later(p).mids, p.tail, p.short)
  {
  }

  lemma NoBlocksNoParts(web: seq<Line>, p: Parts)
    requires Applied(web, [], p)
    ensures p == Parts([], [], web, [])
  {
    assert p.pres == [] && p.mids == [] && Weave([], []) + p.tail + [] == p.tail;
  }

  lemma NoneApplied(web: seq<Line>, blocks: seq<Block>, p: Parts, q: Parts)
    requires Applied(web, blocks, p) && Applied(web, blocks, q) && blocks != [] && p.pres == [] && q.pres == []
    ensures p == q
  {
    assert web == p.tail + p.short && web == q.tail + q.short;
    if p.short != [] {
      FirstPlace(blocks[0].pattern[0], p.tail, p.short, q.tail, q.short);
    } else if q.short != [] {
      FirstPlace(blocks[0].pattern[0], q.tail, q.short, p.tail, p.short);
    } else {
      assert p.tail + [] == p.tail && q.tail + [] == q.tail;
    }
  }

  lemma BothApplied(web: seq<Line>, blocks: seq<Block>, p: Parts, q: Parts)
    requires Applied(web, blocks, p) && Applied(web, blocks, q) && p.pres != [] && q.pres != []
    ensures p.pres[0] == q.pres[0] && p.mids[0] == q.mids[0]
    ensures var rest := Weave(Later(p).pres, Later(p).mids) + p.tail + p.short;
            Applied(rest, blocks[1..], Later(p)) && Applied(rest, blocks[1..], Later(q))
  {
    LaterApplied(web, blocks, p);
    LaterApplied(web, blocks, q);
    var a, b := Weave(Later(p).pres, Later(p).mids) + p.tail + p.short, Weave(Later(q).pres, Later(q).mids) + q.tail + q.short;
    FirstPlace(blocks[0].pattern[0], p.pres[0], p.mids[0] + a, q.pres[0], q.mids[0] + b);
    SameSplit(p.mids[0], a, q.mids[0], b);
  }

  lemma SameSplit(a: seq<Line>, b: seq<Line>, c: seq<Line>, d: seq<Line>)
    requires a + b == c + d && |a| == |c|
    ensures a == c && b == d
  {
    assert a == (a + b)[..|a|] && b == (a + b)[|a|..] && c == (c + d)[..|c|] && d == (c + d)[|c|..];
  }

  lemma BothOrNone(web: seq<Line>, blocks: seq<Block>, p: Parts, q: Parts)
    requires Applied(web, blocks, p) && Applied(web, blocks, q) && p.pres != []
    ensures q.pres != []
  {
    LaterApplied(web, blocks, p);
    var a := Weave(Later(p).pres, Later(p).mids) + p.tail + p.short;
    if q.pres == [] {
      FirstPlace(blocks[0].pattern[0], p.pres[0], p.mids[0] + a, q.tail, q.short);
    }
  }

  /** However a web file divides into parts, these parts say what the merge is; nothing
      waits for a match at the end if and only if every change was applied (or the file
      ends where a blank line was to match). */
  lemma MergeOfParts(web: seq<Line>, blocks: seq<Block>, torn: bool, p: Parts)
    requires Applied(web, blocks, p)
    ensures Outcome(Merge(web, blocks, torn), blocks, p)
    ensures var k := |p.pres|; Merge(web, blocks, torn).waiting == [] <==> k == |blocks| || blocks[k].pattern[|p.short|] == []
  {
    var q := Decompose(web, blocks, torn);
    PartsAreUnique(web, blocks, p, q);
  }

  // ---------- capital letters

  predicate Plain(l: Line) { Lower(l) == l }

  function Capitals(lines: seq<Line>): nat {
    if lines == [] then 0 else (if Plain(lines[0]) then 0 else 1) + Capitals(lines[1..])
  }

  predicate NoneSays(lines: seq<Line>, c: char) {
    forall i :: 0 <= i < |lines| ==> !Says(lines[i], c)
  }

  /** Lines to match that are copied from the web file are reported as different if and
      only if one of them (not the first) begins with a control code in capitals. */
  lemma {:induction false} CopiedLinesDiffer(copied: seq<Line>, y: Line, rest: seq<Line>)
    requires NoneSays(copied, 'y') && Says(y, 'y')
    ensures var m := UpTo('y', copied + [y] + rest); |m| == |copied| && Differences(copied, m) == Capitals(copied)
    ensures Capitals(copied) == 0 <==> forall i :: 0 <= i < |copied| ==> Plain(copied[i])
    decreases |copied|
  {
    var all := copied + [y] + rest;
    if copied != [] {
      assert all[0] == copied[0] && all[1..] == copied[1..] + [y] + rest;
      CopiedLinesDiffer(copied[1..], y, rest);
      assert (forall i :: 0 <= i < |copied| ==> Plain(copied[i])) <==> Plain(copied[0]) && forall i :: 0 <= i < |copied[1..]| ==> Plain(copied[1..][i]);
    } else {
      assert all[0] == y;
    }
  }

  /** For example. */
  lemma CapitalExample()
    ensures var change := ["@x", "a", "@D b", "@y", "c", "@z"];
            Blocks(change) == [Block(["a", "@d b"], ["c"], true)]
            && Merge(["a", "@D b"], Blocks(change), false) == Merged(["c"], [1], [])
  {
    var change := ["@x", "a", "@D b", "@y", "c", "@z"];
    var end := ["c", "@z"];
    var from := ["@D b", "@y"] + end;
    ExampleBlock(from, end);
    assert change[1..] == ["a"] + from && (["a"] + from)[1..] == from;
    assert Blocks(change) == FirstBlock(["a"] + from) == BlocksFrom("a", from);
    var b := Block(["a", "@d b"], ["c"], true);
    assert BlockFrom("a", from) == b;
    MergeChange(["a", "@D b"], b, [], false);
    assert [b] + [] == [b];
  }

  lemma ExampleBlock(from: seq<Line>, end: seq<Line>)
    requires end == ["c", "@z"] && from == ["@D b", "@y"] + end
    ensures UpTo('y', from) == ["@d b"] && Has('y', from) && After('y', from) == end
    ensures UpTo('z', end) == ["c"] && After('z', end) == []
  {
    assert Lower("@D b") == "@d b" && from[1..] == ["@y"] + end && from[1..][1..] == end;
    assert end[1..] == ["@z"] && end[1..][1..] == [];
  }
}
