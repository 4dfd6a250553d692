// CWEAVE's index sort in place: buckets, links and the stack of lists
// (cweb/cweave.c:3979-4104, 4138-4154).

module IndexSort {
  import opened Basics
  import opened SectionNames
  import opened LinkedList
  import opened IndexOrder

  /** A list on the stack, with the depth up to which its names agree. */
  datatype Pile = Pile(list: seq<nat>, depth: nat)

  predicate Fitting(names: seq<Text>, piles: seq<Pile>) {
    forall i :: 0 <= i < |piles| ==> In(names, piles[i].list)
  }

  /** What is still to be emitted, from the top of the stack down. */
  function StackOut(names: seq<Text>, piles: seq<Pile>): seq<nat>
    requires Fitting(names, piles)
  {
    if piles == [] then []
    else
      var n := |piles| - 1;
      Emit(names, piles[n].list, piles[n].depth) + StackOut(names, piles[..n])
  }

  /** The lists of a pile's buckets, those that come last in the index first. */
  function Piles(names: seq<Text>, list: seq<nat>, d: nat, c: nat): seq<Pile>
    requires In(names, list)
    decreases LAST + 1 - c
  {
    if c > LAST then []
    else
      var b := Bucket(names, list, d, Collate(c));
      Piles(names, list, d, c + 1) + if b == [] then [] else [Pile(b, Deeper(c, d))]
  }

  lemma {:induction false} PilesFit(names: seq<Text>, list: seq<nat>, d: nat, c: nat)
    requires In(names, list)
    ensures Fitting(names, Piles(names, list, d, c))
    decreases LAST + 1 - c
  {
    if c <= LAST {
      PilesFit(names, list, d, c + 1);
      BucketIn(names, list, d, Collate(c));
    }
  }

  /** One more list on top. */
  lemma StackOutPush(names: seq<Text>, piles: seq<Pile>, p: Pile)
    requires Fitting(names, piles) && In(names, p.list)
    ensures Fitting(names, piles + [p]) && StackOut(names, piles + [p]) == Emit(names, p.list, p.depth) + StackOut(names, piles)
  {
    assert (piles + [p])[..|piles|] == piles;
  }

  lemma {:induction false} StackOutMore(names: seq<Text>, piles: seq<Pile>, more: seq<Pile>)
    requires Fitting(names, piles) && Fitting(names, more)
    ensures Fitting(names, piles + more) && StackOut(names, piles + more) == StackOut(names, more) + StackOut(names, piles)
    decreases |more|
  {
    if more == [] {
      assert piles + more == piles;
    } else {
      var front, p := more[..|more|-1], more[|more|-1];
      LastApart(piles, more);
      StackOutMore(names, piles, front);
      StackOutPush(names, piles + front, p);
      StackOutPush(names, front, p);
      Regroup(Emit(names, p.list, p.depth), StackOut(names, front), StackOut(names, piles));
    }
  }

  /** The piles of a list's buckets stand for the fan of the list. */
  lemma {:induction false} PilesAreFan(names: seq<Text>, list: seq<nat>, d: nat, c: nat)
    requires In(names, list) && d < INFINITY
    ensures Fitting(names, Piles(names, list, d, c)) && StackOut(names, Piles(names, list, d, c)) == Fan(names, list, d, c)
    decreases LAST + 1 - c
  {
    PilesFit(names, list, d, c);
    if c <= LAST {
      var b, rest := Bucket(names, list, d, Collate(c)), Piles(names, list, d, c + 1);
      BucketIn(names, list, d, Collate(c));
      PilesAreFan(names, list, d, c + 1);
      if b == [] {
        assert rest + [] == rest;
      } else {
        StackOutPush(names, rest, Pile(b, Deeper(c, d)));
      }
    }
  }

  // ---------- termination

  /** How many passes a list takes. */
  function Passes(names: seq<Text>, list: seq<nat>, d: nat): nat
    requires In(names, list)
    decreases INFINITY - d, LAST + 2
  {
    1 + if |list| <= 1 || d >= INFINITY then 0 else FanPasses(names, list, d, 0)
  }

  function FanPasses(names: seq<Text>, list: seq<nat>, d: nat, c: nat): nat
    requires In(names, list) && d < INFINITY
    decreases INFINITY - d, LAST + 1 - c
  {
    if c > LAST then 0
    else
      var b := Bucket(names, list, d, Collate(c));
      BucketIn(names, list, d, Collate(c));
      (if b == [] then 0 else Passes(names, b, Deeper(c, d))) + FanPasses(names, list, d, c + 1)
  }

  function StackPasses(names: seq<Text>, piles: seq<Pile>): nat
    requires Fitting(names, piles)
  {
    if piles == [] then 0
    else
      var n := |piles| - 1;
      Passes(names, piles[n].list, piles[n].depth) + StackPasses(names, piles[..n])
  }

  lemma StackPassesPush(names: seq<Text>, piles: seq<Pile>, p: Pile)
    requires Fitting(names, piles) && In(names, p.list)
    ensures Fitting(names, piles + [p]) && StackPasses(names, piles + [p]) == Passes(names, p.list, p.depth) + StackPasses(names, piles)
  {
    assert (piles + [p])[..|piles|] == piles;
  }

  lemma {:induction false} StackPassesMore(names: seq<Text>, piles: seq<Pile>, more: seq<Pile>)
    requires Fitting(names, piles) && Fitting(names, more)
    ensures Fitting(names, piles + more) && StackPasses(names, piles + more) == StackPasses(names, more) + StackPasses(names, piles)
    decreases |more|
  {
    if more == [] {
      assert piles + more == piles;
    } else {
      var front, p := more[..|more|-1], more[|more|-1];
      LastApart(piles, more);
      StackPassesMore(names, piles, front);
      StackPassesPush(names, piles + front, p);
      StackPassesPush(names, front, p);
    }
  }

  lemma {:induction false} PilesPasses(names: seq<Text>, list: seq<nat>, d: nat, c: nat)
    requires In(names, list) && d < INFINITY
    ensures Fitting(names, Piles(names, list, d, c)) && StackPasses(names, Piles(names, list, d, c)) == FanPasses(names, list, d, c)
    decreases LAST + 1 - c
  {
    PilesFit(names, list, d, c);
    if c <= LAST {
      var b, rest := Bucket(names, list, d, Collate(c)), Piles(names, list, d, c + 1);
      BucketIn(names, list, d, Collate(c));
      PilesPasses(names, list, d, c + 1);
      if b == [] {
        assert rest + [] == rest;
      } else {
        StackPassesPush(names, rest, Pile(b, Deeper(c, d)));
      }
    }
  }

  // ---------- the stack never holds more lists than there are names

  /** The lists are not empty and have no name in common; each is chained from its head. */
  ghost predicate Stacked(names: seq<Text>, link: seq<nat>, heads: seq<nat>, piles: seq<Pile>) {
    && |heads| == |piles|
    && (forall i :: 0 <= i < |piles| ==> PileOk(names, link, heads[i], piles[i]))
    && Apart(piles)
  }

  ghost predicate Apart(piles: seq<Pile>) {
    forall i, j :: 0 <= i < j < |piles| ==> NoneIn(piles[i].list, piles[j].list)
  }

  predicate NoneOf(piles: seq<Pile>, list: seq<nat>) {
    forall i :: 0 <= i < |piles| ==> NoneIn(piles[i].list, list)
  }

  predicate NoneIn(a: seq<nat>, b: seq<nat>) {
    forall x :: x in a ==> x !in b
  }

  ghost predicate PileOk(names: seq<Text>, link: seq<nat>, head: nat, p: Pile) {
    p.list != [] && In(names, p.list) && Distinct(p.list) && Listed(link, head, p.list)
  }

  function Firsts(piles: seq<Pile>): set<nat> {
    if piles == [] then {}
    else
      var n := |piles| - 1;
      Firsts(piles[..n]) + if piles[n].list == [] then {} else {piles[n].list[0]}
  }

  lemma {:induction false} FirstsOfPiles(piles: seq<Pile>)
    ensures forall x :: x in Firsts(piles) ==> exists i :: 0 <= i < |piles| && x in piles[i].list
    decreases |piles|
  {
    if piles != [] {
      var n := |piles| - 1;
      FirstsOfPiles(piles[..n]);
      forall x | x in Firsts(piles)
        ensures exists i :: 0 <= i < |piles| && x in piles[i].list
      {
        if x in Firsts(piles[..n]) {
          var i :| 0 <= i < n && x in piles[..n][i].list;
          assert x in piles[i].list;
        } else {
          assert x in piles[n].list;
        }
      }
    }
  }

  lemma {:induction false} FirstsDiffer(piles: seq<Pile>)
    requires Apart(piles) && forall i :: 0 <= i < |piles| ==> piles[i].list != []
    ensures |Firsts(piles)| == |piles|
    decreases |piles|
  {
    if piles != [] {
      var n := |piles| - 1;
      var x := piles[n].list[0];
      FirstsDiffer(piles[..n]);
      FirstsOfPiles(piles[..n]);
      NewFirst(piles, n, x);
    }
  }

  lemma NewFirst(piles: seq<Pile>, n: nat, x: nat)
    requires n < |piles| && Apart(piles) && x in piles[n].list
    ensures x !in Firsts(piles[..n])
  {
    FirstsOfPiles(piles[..n]);
    forall y | y in Firsts(piles[..n])
      ensures y != x
    {
      var i :| 0 <= i < n && y in piles[..n][i].list;
      assert NoneIn(piles[i].list, piles[n].list);
    }
  }

  lemma {:induction false} Bounded(s: set<nat>, n: nat)
    requires forall x :: x in s ==> x < n
    ensures |s| <= n
  {
    if n > 0 {
      assert s == (s - {n - 1}) + (s * {n - 1});
      Bounded(s - {n - 1}, n - 1);
    }
  }

  /** The stack is never higher than there are names. */
  lemma StackHeight(names: seq<Text>, link: seq<nat>, heads: seq<nat>, piles: seq<Pile>)
    requires Stacked(names, link, heads, piles)
    ensures |piles| <= |names|
  {
    forall i | 0 <= i < |piles|
      ensures piles[i].list != []
    {
      assert PileOk(names, link, heads[i], piles[i]);
    }
    FirstsDiffer(piles);
    FirstsOfPiles(piles);
    forall x | x in Firsts(piles)
      ensures x < |names|
    {
      var i :| 0 <= i < |piles| && x in piles[i].list;
      assert PileOk(names, link, heads[i], piles[i]);
    }
    Bounded(Firsts(piles), |names|);
  }

  // ---------- how high the stack gets

  /** How many lists of the stack, from this one on, there are when x has come to the top in
      a list that is emitted, or is lost: at each depth the buckets that come after its own
      are below. */
  function Load(names: seq<Text>, list: seq<nat>, d: nat, x: nat): (n: nat)
    requires In(names, list) && x < |names|
    ensures n > 0
    decreases INFINITY - d
  {
    if |list| <= 1 || d >= INFINITY || Char(names[x], d) == DELETE then 1 else Share(names, list, d, x)
  }

  /** The same for a list that goes into buckets. */
  function Share(names: seq<Text>, list: seq<nat>, d: nat, x: nat): (n: nat)
    requires In(names, list) && x < |names| && d < INFINITY && Char(names[x], d) != DELETE
    ensures n > 0
    decreases INFINITY - d, 0
  {
    var c := Rank(Char(names[x], d));
    CharRank(names[x], d);
    BucketIn(names, list, d, Collate(c));
    |Piles(names, list, d, c + 1)| + Load(names, Bucket(names, list, d, Collate(c)), Deeper(c, d), x)
  }

  /** With i lists below it, p needs less than `size` entries. */
  ghost predicate LowAt(names: seq<Text>, i: nat, p: Pile, size: nat)
    requires In(names, p.list)
  {
    forall x :: x in p.list ==> x < |names| && i + Load(names, p.list, p.depth, x) < size
  }

  /** From these lists on the stack stays below `size`. */
  ghost predicate Low(names: seq<Text>, piles: seq<Pile>, size: nat)
    requires Fitting(names, piles)
  {
    forall i {:trigger piles[i]} :: 0 <= i < |piles| ==> LowAt(names, i, piles[i], size)
  }

  // Lists of at most one pile each, the last ones first.
  ghost function Gather(g: nat -> seq<Pile>, c: nat): seq<Pile>
    decreases LAST + 1 - c
  {
    if c > LAST then [] else Gather(g, c + 1) + g(c)
  }

  lemma {:induction false} GatherAt(g: nat -> seq<Pile>, c: nat, j: nat) returns (e: nat)
    requires j < |Gather(g, c)| && forall x: nat :: |g(x)| <= 1
    ensures c <= e <= LAST && |Gather(g, e + 1)| == j && g(e) == [Gather(g, c)[j]]
    decreases LAST + 1 - c
  {
    assert |g(c)| <= 1;
    if j < |Gather(g, c + 1)| {
      e := GatherAt(g, c + 1, j);
    } else {
      e := c;
    }
  }

  lemma {:induction false} GatherOf(g: nat -> seq<Pile>, c: nat, e: nat)
    requires c <= e <= LAST && |g(e)| == 1
    ensures |Gather(g, e + 1)| < |Gather(g, c)| && g(e) == [Gather(g, c)[|Gather(g, e + 1)|]]
    decreases e - c
  {
    if c < e {
      GatherOf(g, c + 1, e);
    }
  }

  ghost function OwnPile(names: seq<Text>, list: seq<nat>, d: nat): nat -> seq<Pile>
    requires In(names, list)
  {
    (c: nat) => if c > LAST || Bucket(names, list, d, Collate(c)) == [] then [] else [Pile(Bucket(names, list, d, Collate(c)), Deeper(c, d))]
  }

  lemma {:induction false} PilesGather(names: seq<Text>, list: seq<nat>, d: nat, c: nat, g: nat -> seq<Pile>)
    requires In(names, list) && g == OwnPile(names, list, d)
    ensures Piles(names, list, d, c) == Gather(g, c)
    decreases LAST + 1 - c
  {
    if c <= LAST {
      PilesGather(names, list, d, c + 1, g);
    }
  }

  // One pile seen from the list: of the bucket c, with j piles below it.
  ghost predicate OfBucket(names: seq<Text>, list: seq<nat>, d: nat, c: nat, j: nat, p: Pile, b: seq<nat>)
    requires In(names, list)
  {
    c <= LAST && |Piles(names, list, d, c + 1)| == j && b == Bucket(names, list, d, Collate(c)) && p == Pile(b, Deeper(c, d))
  }

  lemma PileAt(names: seq<Text>, list: seq<nat>, d: nat, ps: seq<Pile>, j: nat) returns (c: nat)
    requires In(names, list) && ps == Piles(names, list, d, 0) && j < |ps|
    ensures OfBucket(names, list, d, c, j, ps[j], ps[j].list) && ps[j].list != []
  {
    var g := OwnPile(names, list, d);
    PilesGather(names, list, d, 0, g);
    c := GatherAt(g, 0, j);
    PilesGather(names, list, d, c + 1, g);
    OwnPileIs(names, list, d, c, ps[j], g);
  }

  lemma OwnPileIs(names: seq<Text>, list: seq<nat>, d: nat, c: nat, p: Pile, g: nat -> seq<Pile>)
    requires In(names, list) && g == OwnPile(names, list, d) && g(c) == [p]
    ensures c <= LAST && p == Pile(Bucket(names, list, d, Collate(c)), Deeper(c, d)) && p.list != []
  {
  }

  lemma PileOf(names: seq<Text>, list: seq<nat>, d: nat, ps: seq<Pile>, c: nat, b: seq<nat>) returns (j: nat)
    requires In(names, list) && ps == Piles(names, list, d, 0) && c <= LAST && b == Bucket(names, list, d, Collate(c)) && b != []
    ensures j < |ps| && OfBucket(names, list, d, c, j, ps[j], b)
  {
    var g := OwnPile(names, list, d);
    PilesGather(names, list, d, 0, g);
    PilesGather(names, list, d, c + 1, g);
    OwnPileOf(names, list, d, c, b, g);
    GatherOf(g, 0, c);
    j := |Gather(g, c + 1)|;
  }

  lemma OwnPileOf(names: seq<Text>, list: seq<nat>, d: nat, c: nat, b: seq<nat>, g: nat -> seq<Pile>)
    requires In(names, list) && g == OwnPile(names, list, d) && c <= LAST && b == Bucket(names, list, d, Collate(c)) && b != []
    ensures g(c) == [Pile(b, Deeper(c, d))]
  {
  }

  lemma ShareIs(names: seq<Text>, list: seq<nat>, d: nat, c: nat, j: nat, p: Pile, b: seq<nat>, x: nat)
    requires In(names, list) && d < INFINITY && x < |names| && OfBucket(names, list, d, c, j, p, b) && Char(names[x], d) == Collate(c)
    ensures In(names, b) && Char(names[x], d) != DELETE && Share(names, list, d, x) == j + Load(names, p.list, p.depth, x)
  {
    CollateRank(0, c);
    BucketIn(names, list, d, Collate(c));
  }

  // Every name of the list that is not lost is in one of the piles, with its share.
  lemma ShareOf(names: seq<Text>, list: seq<nat>, d: nat, ps: seq<Pile>, x: nat) returns (j: nat)
    requires In(names, list) && d < INFINITY && x in list && x < |names| && Char(names[x], d) != DELETE && ps == Piles(names, list, d, 0)
    ensures Fitting(names, ps) && j < |ps| && x in ps[j].list && Share(names, list, d, x) == j + Load(names, ps[j].list, ps[j].depth, x)
  {
    var c := Rank(Char(names[x], d));
    CharRank(names[x], d);
    CollateRank(Char(names[x], d), c);
    var b := Bucket(names, list, d, Collate(c));
    BucketIn(names, list, d, Collate(c));
    assert x in b;
    PilesFit(names, list, d, 0);
    j := PileOf(names, list, d, ps, c, b);
    ShareIs(names, list, d, c, j, ps[j], b, x);
  }

  lemma ShareAt(names: seq<Text>, list: seq<nat>, d: nat, ps: seq<Pile>, j: nat, x: nat)
    requires In(names, list) && d < INFINITY && ps == Piles(names, list, d, 0) && j < |ps| && x in ps[j].list
    ensures Fitting(names, ps) && x in list && x < |names| && Char(names[x], d) != DELETE
    ensures Share(names, list, d, x) == j + Load(names, ps[j].list, ps[j].depth, x)
  {
    PilesFit(names, list, d, 0);
    var c := PileAt(names, list, d, ps, j);
    BucketIn(names, list, d, Collate(c));
    InMembers(names, list);
    ShareIs(names, list, d, c, j, ps[j], ps[j].list, x);
  }

  /** The names of a list that goes into buckets keep the stack low. */
  ghost predicate ShareLow(names: seq<Text>, list: seq<nat>, d: nat, i: nat, size: nat)
    requires In(names, list) && d < INFINITY
  {
    forall x :: x in list ==> x < |names| && (Char(names[x], d) != DELETE ==> i + Share(names, list, d, x) < size)
  }

  lemma PilesLow(names: seq<Text>, list: seq<nat>, d: nat, below: seq<Pile>, size: nat)
    requires In(names, list) && d < INFINITY && Fitting(names, below)
    ensures Fitting(names, below + Piles(names, list, d, 0))
    ensures Low(names, below + Piles(names, list, d, 0), size) <==> Low(names, below, size) && ShareLow(names, list, d, |below|, size)
  {
    var ps := Piles(names, list, d, 0);
    PilesFit(names, list, d, 0);
    if Low(names, below + ps, size) {
      LowPiles(names, list, d, below, ps, below + ps, size);
    }
    if Low(names, below, size) && ShareLow(names, list, d, |below|, size) {
      LowShares(names, list, d, below, ps, below + ps, size);
    }
  }

  lemma LowPiles(names: seq<Text>, list: seq<nat>, d: nat, below: seq<Pile>, ps: seq<Pile>, all: seq<Pile>, size: nat)
    requires In(names, list) && d < INFINITY && Fitting(names, below) && ps == Piles(names, list, d, 0) && all == below + ps
    requires Fitting(names, all) && Low(names, all, size)
    ensures Low(names, below, size) && ShareLow(names, list, d, |below|, size)
  {
    assert forall i :: 0 <= i < |below| ==> below[i] == all[i];
    InMembers(names, list);
    forall x | x in list && Char(names[x], d) != DELETE
      ensures |below| + Share(names, list, d, x) < size
    {
      var j := ShareOf(names, list, d, ps, x);
      assert all[|below| + j] == ps[j] && LowAt(names, |below| + j, ps[j], size);
    }
  }

  lemma LowShares(names: seq<Text>, list: seq<nat>, d: nat, below: seq<Pile>, ps: seq<Pile>, all: seq<Pile>, size: nat)
    requires In(names, list) && d < INFINITY && Fitting(names, below) && ps == Piles(names, list, d, 0) && all == below + ps
    requires Fitting(names, all) && Low(names, below, size) && ShareLow(names, list, d, |below|, size)
    ensures Low(names, all, size)
  {
    PilesFit(names, list, d, 0);
    forall j | 0 <= j < |ps|
      ensures LowAt(names, |below| + j, ps[j], size)
    {
      ShareLowAt(names, list, d, ps, j, |below|, size);
    }
    assert forall i :: 0 <= i < |all| ==> all[i] == if i < |below| then below[i] else ps[i - |below|];
  }

  lemma ShareLowAt(names: seq<Text>, list: seq<nat>, d: nat, ps: seq<Pile>, j: nat, i: nat, size: nat)
    requires In(names, list) && d < INFINITY && ps == Piles(names, list, d, 0) && j < |ps| && ShareLow(names, list, d, i, size)
    ensures Fitting(names, ps) && LowAt(names, i + j, ps[j], size)
  {
    PilesFit(names, list, d, 0);
    forall x | x in ps[j].list
      ensures x < |names| && i + j + Load(names, ps[j].list, ps[j].depth, x) < size
    {
      ShareAt(names, list, d, ps, j, x);
    }
  }

  lemma PushLow(names: seq<Text>, below: seq<Pile>, p: Pile, size: nat)
    requires Fitting(names, below) && In(names, p.list)
    ensures Fitting(names, below + [p]) && (Low(names, below + [p], size) <==> Low(names, below, size) && LowAt(names, |below|, p, size))
  {
    var all := below + [p];
    assert all[|below|] == p && forall i :: 0 <= i < |below| ==> below[i] == all[i];
  }

  // What becomes of the list on top does not change how high the stack gets.
  lemma TopSplitLow(names: seq<Text>, piles: seq<Pile>, rest: seq<Pile>, top: Pile, size: nat)
    requires Fitting(names, piles) && piles != [] && rest == piles[..|piles|-1] && top == piles[|piles|-1]
    requires |top.list| > 1 && top.depth < INFINITY && |piles| < size
    ensures In(names, top.list) && Fitting(names, rest + Piles(names, top.list, top.depth, 0))
    ensures Low(names, piles, size) <==> Low(names, rest + Piles(names, top.list, top.depth, 0), size)
    ensures size <= |rest| + |Piles(names, top.list, top.depth, 0)| ==> !Low(names, piles, size)
  {
    assert piles == rest + [top];
    PushLow(names, rest, top, size);
    PilesLow(names, top.list, top.depth, rest, size);
    if size <= |rest| + |Piles(names, top.list, top.depth, 0)| { NotLow(names, top.list, top.depth, rest, size); }
  }

  lemma TopEmittedLow(names: seq<Text>, piles: seq<Pile>, rest: seq<Pile>, top: Pile, size: nat)
    requires Fitting(names, piles) && piles != [] && rest == piles[..|piles|-1] && top == piles[|piles|-1]
    requires (|top.list| <= 1 || top.depth >= INFINITY) && |piles| < size
    ensures Fitting(names, rest) && (Low(names, piles, size) <==> Low(names, rest, size))
  {
    assert piles == rest + [top];
    PushLow(names, rest, top, size);
    InMembers(names, top.list);
  }

  /** Where the buckets do not fit, a name does not. */
  lemma NotLow(names: seq<Text>, list: seq<nat>, d: nat, below: seq<Pile>, size: nat)
    requires In(names, list) && d < INFINITY && Fitting(names, below) && |below| < size <= |below| + |Piles(names, list, d, 0)|
    ensures Fitting(names, below + Piles(names, list, d, 0)) && !Low(names, below + Piles(names, list, d, 0), size)
  {
    var ps := Piles(names, list, d, 0);
    var n := |ps| - 1;
    PilesFit(names, list, d, 0);
    var c := PileAt(names, list, d, ps, n);
    var x := ps[n].list[0];
    assert x in ps[n].list && (below + ps)[|below| + n] == ps[n];
    assert !LowAt(names, |below| + n, ps[n], size);
  }

  // ---------- in place

  class Sorter {
    const names: seq<Text>
    const bucket: array<nat>
    const blink: array<nat>
    const heads: array<nat>
    const depths: array<nat>
    var sortPtr: nat
    var out: seq<nat>
    ghost var piles: seq<Pile>

    ghost predicate Shaped() reads this {
      && bucket.Length == 256 && blink.Length == |names| && heads.Length == depths.Length > 0
      && bucket != blink && bucket != heads && bucket != depths && blink != heads && blink != depths && heads != depths
      && sortPtr == |piles| < heads.Length
    }

    /** Every bucket but that of DELETE, which is never emptied, is empty. */
    ghost predicate Empty() reads bucket requires bucket.Length == 256 {
      forall c :: 0 <= c < 256 && c != DELETE ==> bucket[c] == 0
    }

    /** The stack. (The first entry is not used.) */
    ghost predicate Valid() reads this, bucket, blink, heads, depths {
      && Shaped() && Stacked(names, blink[..], heads[1..sortPtr+1], piles)
      && forall i :: 0 <= i < |piles| ==> depths[i+1] == piles[i].depth <= INFINITY
    }

    constructor (names: seq<Text>, stackSize: nat)
      requires stackSize > 0
      ensures Valid() && Empty() && piles == [] && out == [] && this.names == names && heads.Length == stackSize
    {
      this.names := names;
      bucket := new nat[256](_ => 0);
      blink := new nat[|names|](_ => 0);
      heads := new nat[stackSize](_ => 0);
      depths := new nat[stackSize](_ => 0);
      sortPtr, out, piles := 0, [], [];
    }

    /** The buckets hold what the list up to i has put into them. */
    ghost predicate Filled(list: seq<nat>, i: nat, d: nat) reads bucket, blink requires bucket.Length == 256 {
      i <= |list| && In(names, list) && forall c: Byte :: c != DELETE ==> Listed(blink[..], bucket[c], Bucket(names, list[..i], d, c))
    }

    /** Put a name at the front of its bucket. */
    method Put(x: nat, ghost list: seq<nat>, ghost i: nat, d: nat)
      requires Shaped() && Filled(list, i, d) && i < |list| && x == list[i] && 0 < x < |names| && Distinct(list)
      modifies blink, bucket
      ensures Filled(list, i + 1, d) && forall y :: 0 <= y < blink.Length && y != x ==> blink[y] == old(blink[y])
    {
      var c := Char(names[x], d);
      ghost var link := blink[..];
      blink[x] := bucket[c];
      bucket[c] := x;
      assert x !in list[..i];
      forall e: Byte | e != DELETE
        ensures Listed(blink[..], bucket[e], Bucket(names, list[..i+1], d, e))
      {
        BucketSnoc(names, list, i, d, e);
        BucketIn(names, list[..i], d, e);
        InFront(link, blink[..], old(bucket[e]), Bucket(names, list[..i], d, e), x);
      }
    }

    /** Distribute a chained list into the buckets by its characters at depth d. */
    method Deal(head: nat, ghost list: seq<nat>, d: nat)
      requires Shaped() && Empty() && In(names, list) && Distinct(list) && Listed(blink[..], head, list)
      modifies blink, bucket
      ensures Filled(list, |list|, d) && forall y :: 0 <= y < blink.Length && y !in list ==> blink[y] == old(blink[y])
    {
      var next := head;
      ghost var i := 0;
      assert list[0..] == list;
      while next != 0
        invariant Filled(list, i, d) && i <= |list| && Listed(blink[..], next, list[i..])
        invariant forall y :: 0 <= y < blink.Length && y !in list ==> blink[y] == old(blink[y])
        decreases |list| - i
      {
        var cur := next;
        next := blink[cur];
        RestApart(list, i);
        ghost var link := blink[..];
        Put(cur, list, i, d);
        InFront(link, blink[..], next, list[i+1..], cur);
        i := i + 1;
      }
    }

    /** `unbucket`: put the buckets on the stack, the one that comes first in the index on top. */
    method Unbucket(ghost list: seq<nat>, d: nat) returns (ok: bool)
      requires Valid() && 0 < d <= INFINITY && Distinct(list) && Filled(list, |list|, d - 1)
      requires NoneOf(piles, list)
      modifies this`sortPtr, this`piles, bucket, heads, depths
      ensures ok <==> |old(piles)| + |Piles(names, list, d - 1, 0)| < heads.Length
      ensures if ok then Valid() && Empty() && piles == old(piles) + Piles(names, list, d - 1, 0) else heads.Length <= |names|
    {
      ghost var below := piles;
      RestAtFirst(list, d - 1);
      assert below + [] == below;
      for c := LAST + 1 downto 0
        invariant Valid() && Rest(list, d - 1, c) && piles == below + Piles(names, list, d - 1, c)
      {
        ok := TakeBucket(list, d, c, below);
        if !ok {
          FewerPiles(names, list, d - 1, c);
          return;
        }
      }
      ok := true;
    }

    /** What happens to one bucket. */
    method TakeBucket(ghost list: seq<nat>, d: nat, c: nat, ghost below: seq<Pile>) returns (ok: bool)
      requires Valid() && 0 < d <= INFINITY && Distinct(list) && c <= LAST && Rest(list, d - 1, c + 1)
      requires piles == below + Piles(names, list, d - 1, c + 1)
      requires NoneOf(below, list)
      modifies this`sortPtr, this`piles, bucket, heads, depths
      ensures ok <==> |below| + |Piles(names, list, d - 1, c)| < heads.Length
      ensures if ok then Valid() && Rest(list, d - 1, c) && piles == below + Piles(names, list, d - 1, c) else heads.Length <= |names|
    {
      ghost var b := Bucket(names, list, d - 1, Collate(c));
      BucketReady(list, d, c, below, b);
      ok := true;
      if bucket[Collate(c)] != 0 {
        ok := Push(bucket[Collate(c)], if c == 0 then INFINITY else d, b);
        bucket[Collate(c)] := 0;
      }
    }

    lemma BucketReady(list: seq<nat>, d: nat, c: nat, below: seq<Pile>, b: seq<nat>)
      requires Shaped() && 0 < d <= INFINITY && Distinct(list) && c <= LAST && Rest(list, d - 1, c + 1)
      requires b == Bucket(names, list, d - 1, Collate(c)) && NoneOf(below, list)
      ensures bucket[Collate(c)] != 0 <==> b != []
      ensures b != [] ==> PileOk(names, blink[..], bucket[Collate(c)], Pile(b, Deeper(c, d - 1)))
      ensures var ps := below + Piles(names, list, d - 1, c + 1);
              NoneOf(ps, b) && below + Piles(names, list, d - 1, c) == ps + if b == [] then [] else [Pile(b, Deeper(c, d - 1))]
      ensures Collate(c) != DELETE && forall e: Byte :: Rank(e) == c <==> e == Collate(c)
    {
      CollateRank(DELETE, c);
      RankOnly(c);
      BucketChained(list, d, c, b);
      PileApart(names, list, d - 1, c, below, b);
      PilesNext(names, list, d - 1, c, below, b);
    }

    lemma BucketChained(list: seq<nat>, d: nat, c: nat, b: seq<nat>)
      requires Shaped() && 0 < d <= INFINITY && Distinct(list) && c <= LAST && Rest(list, d - 1, c + 1)
      requires b == Bucket(names, list, d - 1, Collate(c))
      ensures (bucket[Collate(c)] != 0 <==> b != []) && (b != [] ==> PileOk(names, blink[..], bucket[Collate(c)], Pile(b, Deeper(c, d - 1))))
    {
      CollateRank(DELETE, c);
      assert Listed(blink[..], bucket[Collate(c)], b);
      BucketIn(names, list, d - 1, Collate(c));
      BucketDistinct(names, list, d - 1, Collate(c));
    }

    lemma RestAtFirst(list: seq<nat>, d: nat)
      requires Shaped() && Filled(list, |list|, d)
      ensures Rest(list, d, LAST + 1)
    {
      assert list[..|list|] == list;
      forall e: Byte | e != DELETE && Rank(e) > LAST
        ensures bucket[e] == 0
      {
        CollateRank(e, 0);
        NoCapitals(names, list, d, e);
      }
    }

    /** The buckets of characters before c in the index still hold their names, the others
        are empty. */
    ghost predicate Rest(list: seq<nat>, d: nat, c: nat) reads bucket, blink requires bucket.Length == 256 {
      && In(names, list)
      && forall e: Byte :: e != DELETE ==> if Rank(e) >= c then bucket[e] == 0 else Listed(blink[..], bucket[e], Bucket(names, list, d, e))
    }

    method Push(head: nat, depth: nat, ghost b: seq<nat>) returns (ok: bool)
      requires Valid() && PileOk(names, blink[..], head, Pile(b, depth)) && depth <= INFINITY
      requires NoneOf(piles, b)
      modifies this`sortPtr, this`piles, heads, depths
      ensures ok <==> old(sortPtr) + 1 < heads.Length
      ensures if ok then Valid() && piles == old(piles) + [Pile(b, depth)] else heads.Length <= |names|
    {
      ghost var link, hs := blink[..], heads[1..sortPtr+1];
      PushStacked(names, link, hs, piles, head, Pile(b, depth));
      StackHeight(names, link, hs + [head], piles + [Pile(b, depth)]);
      ok := sortPtr + 1 < heads.Length;
      if !ok {
        return;
      }
      sortPtr := sortPtr + 1;
      heads[sortPtr] := head;
      depths[sortPtr] := depth;
      piles := piles + [Pile(b, depth)];
      assert heads[1..sortPtr+1] == hs + [head];
    }

    /** The list on top is emitted as it is. */
    method EmitTop()
      requires Valid() && piles != []
      modifies this`out, this`sortPtr, this`piles
      ensures Valid() && piles == old(piles[..|piles|-1]) && out == old(out) + old(piles[|piles|-1].list)
    {
      ghost var list, i, before := piles[|piles|-1].list, 0, out;
      assert PileOk(names, blink[..], heads[1..sortPtr+1][|piles|-1], piles[|piles|-1]);
      var cur := heads[sortPtr];
      assert list[0..] == list && before + list[..0] == before;
      while cur != 0
        invariant i <= |list| && Listed(blink[..], cur, list[i..]) && out == before + list[..i]
        modifies this`out
        decreases |list| - i
      {
        assert list[i..][0] == list[i] && list[i..][1..] == list[i+1..] && list[..i] + [list[i]] == list[..i+1];
        out := out + [cur];
        cur, i := blink[cur], i + 1;
      }
      assert list[..i] == list;
      Pop();
    }

    method Pop()
      requires Valid() && piles != []
      modifies this`sortPtr, this`piles
      ensures Valid() && piles == old(piles[..|piles|-1])
    {
      ghost var hs := heads[1..sortPtr+1];
      PopStacked(names, blink[..], hs, piles);
      sortPtr := sortPtr - 1;
      piles := piles[..|piles|-1];
      assert heads[1..sortPtr+1] == hs[..|hs|-1];
    }

    /** The list on top gives way to its buckets. */
    method SplitTop() returns (ok: bool)
      requires Valid() && Empty() && piles != [] && piles[|piles|-1].depth < INFINITY
      modifies this`sortPtr, this`piles, bucket, blink, heads, depths
      ensures !ok ==> heads.Length <= |names|
      ensures ok ==> Valid() && Empty()
      ensures var top := old(piles[|piles|-1]);
              && In(names, top.list) && (ok <==> old(|piles|) - 1 + |Piles(names, top.list, top.depth, 0)| < heads.Length)
              && (ok ==> piles == old(piles[..|piles|-1]) + Piles(names, top.list, top.depth, 0))
    {
      ghost var top, rest := piles[|piles|-1], piles[..|piles|-1];
      var depth := DealTop(top, rest);
      ok := Unbucket(top.list, depth + 1);
    }

    /** The pile on top goes into the buckets. */
    method DealTop(ghost top: Pile, ghost rest: seq<Pile>) returns (depth: nat)
      requires Valid() && Empty() && piles == rest + [top] && top.depth < INFINITY
      modifies this`sortPtr, this`piles, bucket, blink
      ensures Valid() && piles == rest && depth == top.depth && In(names, top.list) && Distinct(top.list) && Filled(top.list, |top.list|, depth)
      ensures NoneOf(rest, top.list)
    {
      ghost var hs, link := heads[1..sortPtr+1], blink[..];
      assert PileOk(names, link, hs[|rest|], piles[|rest|]);
      assert forall i :: 0 <= i < |rest| ==> rest[i] == piles[i] && NoneIn(rest[i].list, top.list);
      var head := heads[sortPtr];
      depth := depths[sortPtr];
      Pop();
      Deal(head, top.list, depth);
      StackedStays(names, link, blink[..], heads[1..sortPtr+1], rest, top.list);
    }

    /** The main loop: until the stack is empty. */
    method Run() returns (ok: bool)
      requires Valid() && Empty()
      modifies this`out, this`sortPtr, this`piles, bucket, blink, heads, depths
      ensures if ok then Valid() && Fitting(names, old(piles)) && out == old(out) + StackOut(names, old(piles)) else heads.Length <= |names|
      ensures Fitting(names, old(piles)) && (ok <==> Low(names, old(piles), heads.Length))
    {
      AllFit(names, blink[..], heads[1..sortPtr+1], piles);
      ghost var goal, low := out + StackOut(names, piles), Low(names, piles, heads.Length);
      while sortPtr > 0
        invariant Valid() && Empty() && Fitting(names, piles) && out + StackOut(names, piles) == goal
        invariant low <==> Low(names, piles, heads.Length)
        decreases StackPasses(names, piles)
      {
        ok := Pass();
        if !ok {
          return;
        }
      }
      assert out + [] == out;
      ok := true;
    }

    /** One pass: the list on top is emitted, or gives way to its buckets. */
    method Pass() returns (ok: bool)
      requires Valid() && Empty() && piles != [] && Fitting(names, piles)
      modifies this`out, this`sortPtr, this`piles, bucket, blink, heads, depths
      ensures if ok then Valid() && Empty() && Follows(names, old(piles), old(out), piles, out, heads.Length) else heads.Length <= |names|
      ensures !ok ==> !Low(names, old(piles), heads.Length)
    {
      TopIsSingle();
      if blink[heads[sortPtr]] == 0 || depths[sortPtr] == INFINITY {
        EmitPass();
        ok := true;
      } else {
        ok := SplitPass();
      }
    }

    method EmitPass()
      requires Valid() && Empty() && piles != [] && Fitting(names, piles)
      requires var top := piles[|piles|-1]; |top.list| <= 1 || top.depth >= INFINITY
      modifies this`out, this`sortPtr, this`piles
      ensures Valid() && Empty() && Follows(names, old(piles), old(out), piles, out, heads.Length)
    {
      ghost var n := |piles| - 1;
      AfterEmitting(names, piles, piles[..n], piles[n], out, heads.Length);
      EmitTop();
    }

    method SplitPass() returns (ok: bool)
      requires Valid() && Empty() && piles != [] && Fitting(names, piles)
      requires var top := piles[|piles|-1]; |top.list| > 1 && top.depth < INFINITY
      modifies this`sortPtr, this`piles, bucket, blink, heads, depths
      ensures if ok then Valid() && Empty() && Follows(names, old(piles), out, piles, out, heads.Length) else heads.Length <= |names|
      ensures !ok ==> !Low(names, old(piles), heads.Length)
    {
      ghost var n := |piles| - 1;
      TopSplit(names, piles, piles[..n], piles[n]);
      TopSplitLow(names, piles, piles[..n], piles[n], heads.Length);
      ok := SplitTop();
    }

    lemma TopIsSingle()
      requires Valid() && piles != []
      ensures heads[sortPtr] < blink.Length && depths[sortPtr] == piles[|piles|-1].depth <= INFINITY
      ensures blink[heads[sortPtr]] == 0 <==> |piles[|piles|-1].list| == 1
    {
      var p := piles[|piles|-1];
      assert PileOk(names, blink[..], heads[1..sortPtr+1][|piles|-1], p);
      assert Listed(blink[..], blink[heads[sortPtr]], p.list[1..]);
    }

    /** The index of the names in `all`, in the order in which the hash table gives them,
        unless the stack overflows: that it does exactly if some name has too many buckets
        below its own; then the stack has fewer entries than there are names. */
    method Sort(all: seq<nat>) returns (ok: bool)
      requires Valid() && Empty() && piles == [] && out == []
      requires In(names, all) && Distinct(all) && 0 !in all
      modifies this`out, this`sortPtr, this`piles, bucket, blink, heads, depths
      ensures if ok then out == Index(names, all) else heads.Length <= |names|
      ensures ok <==> forall x :: x in all && Char(names[x], 0) != DELETE ==> Share(names, all, 0, x) < heads.Length
    {
      FirstLow(names, all, heads.Length);
      FillFirst(all);
      NoPiles(names, blink[..], heads[1..sortPtr+1]);
      ok := StackFirst(all);
      if ok {
        FirstPiles(names, all);
        ok := Run();
      }
    }

    method StackFirst(ghost all: seq<nat>) returns (ok: bool)
      requires Valid() && piles == [] && Distinct(all) && Filled(all, |all|, 0)
      modifies this`sortPtr, this`piles, bucket, heads, depths
      ensures if ok then Valid() && Empty() && piles == Piles(names, all, 0, 0) else heads.Length <= |names|
      ensures ok <==> |Piles(names, all, 0, 0)| < heads.Length
    {
      ok := Unbucket(all, 1);
      assert [] + Piles(names, all, 0, 0) == Piles(names, all, 0, 0);
    }

    /** Every name goes into the bucket of its first character. */
    method FillFirst(all: seq<nat>)
      requires Shaped() && Empty() && In(names, all) && Distinct(all) && 0 !in all
      modifies bucket, blink
      ensures Filled(all, |all|, 0)
    {
      var i := 0;
      while i < |all|
        invariant i <= |all| && Filled(all, i, 0)
      {
        assert all[i] in all;
        Put(all[i], all, i, 0);
        i := i + 1;
      }
    }
  }

  lemma FirstLow(names: seq<Text>, all: seq<nat>, size: nat)
    requires In(names, all) && 0 < size
    ensures var ps := Piles(names, all, 0, 0);
            && Fitting(names, ps) && (size <= |ps| ==> !Low(names, ps, size))
            && (Low(names, ps, size) <==> forall x :: x in all && Char(names[x], 0) != DELETE ==> Share(names, all, 0, x) < size)
  {
    var ps := Piles(names, all, 0, 0);
    assert [] + ps == ps;
    InMembers(names, all);
    PilesLow(names, all, 0, [], size);
    if size <= |ps| { NotLow(names, all, 0, [], size); }
  }

  lemma FirstPiles(names: seq<Text>, all: seq<nat>)
    requires In(names, all)
    ensures var ps := Piles(names, all, 0, 0); Fitting(names, ps) && [] + StackOut(names, ps) == Index(names, all)
  {
    PilesAreFan(names, all, 0, 0);
    assert [] + Index(names, all) == Index(names, all);
  }

  lemma NoPiles(names: seq<Text>, link: seq<nat>, heads: seq<nat>)
    requires |heads| == 0
    ensures Stacked(names, link, heads, [])
  {
  }

  lemma AllFit(names: seq<Text>, link: seq<nat>, heads: seq<nat>, piles: seq<Pile>)
    requires Stacked(names, link, heads, piles)
    ensures Fitting(names, piles)
  {
    forall i | 0 <= i < |piles|
      ensures In(names, piles[i].list)
    {
      assert PileOk(names, link, heads[i], piles[i]);
    }
  }

  lemma PopStacked(names: seq<Text>, link: seq<nat>, heads: seq<nat>, piles: seq<Pile>)
    requires Stacked(names, link, heads, piles) && piles != []
    ensures Stacked(names, link, heads[..|piles|-1], piles[..|piles|-1])
  {
    forall i | 0 <= i < |piles| - 1
      ensures PileOk(names, link, heads[i], piles[i])
    {
    }
  }

  // Links of a list that is on none of the piles may change.
  lemma StackedStays(names: seq<Text>, link: seq<nat>, link2: seq<nat>, heads: seq<nat>, piles: seq<Pile>, list: seq<nat>)
    requires Stacked(names, link, heads, piles) && |link| == |link2| && forall y :: 0 <= y < |link| && y !in list ==> link2[y] == link[y]
    requires NoneOf(piles, list)
    ensures Stacked(names, link2, heads, piles)
  {
    forall i | 0 <= i < |piles|
      ensures PileOk(names, link2, heads[i], piles[i])
    {
      assert PileOk(names, link, heads[i], piles[i]) && NoneIn(piles[i].list, list);
      ListedBounds(link, heads[i], piles[i].list);
      ListedStays(link, link2, heads[i], piles[i].list);
    }
  }

  // The effect of a pass on what is still to come, and on the number of passes.
  lemma TopEmitted(names: seq<Text>, piles: seq<Pile>, out: seq<nat>)
    requires Fitting(names, piles) && piles != []
    requires |piles[|piles|-1].list| <= 1 || piles[|piles|-1].depth >= INFINITY
    ensures var n := |piles| - 1;
            && out + StackOut(names, piles) == out + piles[n].list + StackOut(names, piles[..n])
            && StackPasses(names, piles[..n]) < StackPasses(names, piles)
  {
  }

  lemma TopSplit(names: seq<Text>, piles: seq<Pile>, rest: seq<Pile>, top: Pile)
    requires Fitting(names, piles) && piles != [] && rest == piles[..|piles|-1] && top == piles[|piles|-1]
    requires |top.list| > 1 && top.depth < INFINITY
    ensures In(names, top.list) && Fitting(names, rest + Piles(names, top.list, top.depth, 0))
    ensures StackOut(names, rest + Piles(names, top.list, top.depth, 0)) == StackOut(names, piles)
    ensures StackPasses(names, rest + Piles(names, top.list, top.depth, 0)) < StackPasses(names, piles)
  {
    PilesAreFan(names, top.list, top.depth, 0);
    PilesPasses(names, top.list, top.depth, 0);
    StackOutMore(names, rest, Piles(names, top.list, top.depth, 0));
    StackPassesMore(names, rest, Piles(names, top.list, top.depth, 0));
  }

  /** What a pass does to the lists that are left and to what has been emitted. */
  ghost predicate Follows(names: seq<Text>, before: seq<Pile>, was: seq<nat>, piles: seq<Pile>, out: seq<nat>, size: nat) {
    && Fitting(names, before) && Fitting(names, piles) && StackPasses(names, piles) < StackPasses(names, before)
    && out + StackOut(names, piles) == was + StackOut(names, before)
    && (Low(names, piles, size) <==> Low(names, before, size))
  }

  lemma AfterEmitting(names: seq<Text>, piles: seq<Pile>, rest: seq<Pile>, top: Pile, out: seq<nat>, size: nat)
    requires Fitting(names, piles) && piles != [] && rest == piles[..|piles|-1] && top == piles[|piles|-1] && |piles| < size
    requires |top.list| <= 1 || top.depth >= INFINITY
    ensures Follows(names, piles, out, rest, out + top.list, size)
  {
    TopEmitted(names, piles, out);
    TopEmittedLow(names, piles, rest, top, size);
  }

  lemma RankOnly(c: nat)
    requires c <= LAST
    ensures forall e: Byte :: Rank(e) == c ==> e == Collate(c)
  {
    forall e: Byte | Rank(e) == c
      ensures e == Collate(c)
    {
      CollateRank(e, c);
    }
  }

  lemma RestApart(list: seq<nat>, i: nat)
    requires i < |list| && Distinct(list)
    ensures list[i..][0] == list[i] && list[i..][1..] == list[i+1..] && list[i] !in list[i+1..] && list[i] in list
  {
  }

  lemma PushStacked(names: seq<Text>, link: seq<nat>, heads: seq<nat>, piles: seq<Pile>, head: nat, p: Pile)
    requires Stacked(names, link, heads, piles) && PileOk(names, link, head, p)
    requires NoneOf(piles, p.list)
    ensures Stacked(names, link, heads + [head], piles + [p])
  {
    var hs, ps := heads + [head], piles + [p];
    forall i | 0 <= i < |ps|
      ensures PileOk(names, link, hs[i], ps[i])
    {
      assert i < |piles| ==> PileOk(names, link, heads[i], piles[i]);
    }
    forall i, j | 0 <= i < j < |ps|
      ensures NoneIn(ps[i].list, ps[j].list)
    {
    }
  }

  /** The names of a pile are from the list and come at c or after. */
  predicate From(names: seq<Text>, list: seq<nat>, d: nat, c: nat, pile: seq<nat>) {
    forall x :: x in pile ==> x in list && x < |names| && Rank(Char(names[x], d)) >= c
  }

  predicate AllFrom(names: seq<Text>, list: seq<nat>, d: nat, c: nat, ps: seq<Pile>) {
    forall i :: 0 <= i < |ps| ==> From(names, list, d, c, ps[i].list)
  }

  lemma {:induction false} PileMembers(names: seq<Text>, list: seq<nat>, d: nat, c: nat)
    requires In(names, list)
    ensures AllFrom(names, list, d, c, Piles(names, list, d, c))
    decreases LAST + 1 - c
  {
    if c <= LAST {
      PileMembers(names, list, d, c + 1);
      BucketFrom(names, list, d, c);
      var rest, ps := Piles(names, list, d, c + 1), Piles(names, list, d, c);
      assert ps == rest || ps == rest + [Pile(Bucket(names, list, d, Collate(c)), Deeper(c, d))];
      forall i | 0 <= i < |ps|
        ensures From(names, list, d, c, ps[i].list)
      {
        assert i < |rest| ==> From(names, list, d, c + 1, rest[i].list);
      }
    }
  }

  lemma BucketFrom(names: seq<Text>, list: seq<nat>, d: nat, c: nat)
    requires In(names, list) && c <= LAST
    ensures From(names, list, d, c, Bucket(names, list, d, Collate(c)))
    ensures forall x :: x in Bucket(names, list, d, Collate(c)) ==> x < |names| && Rank(Char(names[x], d)) == c
  {
    BucketIn(names, list, d, Collate(c));
    CollateRank(0, c);
    InMembers(names, list);
  }

  lemma {:induction false} NoCapitals(names: seq<Text>, list: seq<nat>, d: nat, e: Byte)
    requires In(names, list) && 65 <= e <= 90
    ensures Bucket(names, list, d, e) == []
  {
    if list != [] {
      NoCapitals(names, list[1..], d, e);
    }
  }

  lemma {:induction false} FewerPiles(names: seq<Text>, list: seq<nat>, d: nat, c: nat)
    requires In(names, list)
    ensures |Piles(names, list, d, c)| <= |Piles(names, list, d, 0)|
  {
    if 0 < c <= LAST + 1 {
      FewerPiles(names, list, d, c - 1);
    }
  }

  lemma PilesNext(names: seq<Text>, list: seq<nat>, d: nat, c: nat, below: seq<Pile>, b: seq<nat>)
    requires In(names, list) && c <= LAST && b == Bucket(names, list, d, Collate(c))
    ensures below + Piles(names, list, d, c) == below + Piles(names, list, d, c + 1) + if b == [] then [] else [Pile(b, Deeper(c, d))]
  {
    var ps, last := Piles(names, list, d, c + 1), if b == [] then [] else [Pile(b, Deeper(c, d))];
    assert below + (ps + last) == below + ps + last;
  }

  // The bucket of c has no name in common with what is on the stack.
  lemma PileApart(names: seq<Text>, list: seq<nat>, d: nat, c: nat, below: seq<Pile>, b: seq<nat>)
    requires In(names, list) && c <= LAST && b == Bucket(names, list, d, Collate(c))
    requires NoneOf(below, list)
    ensures var ps := below + Piles(names, list, d, c + 1); NoneOf(ps, b)
  {
    PileMembers(names, list, d, c + 1);
    BucketFrom(names, list, d, c);
    var rest := Piles(names, list, d, c + 1);
    var ps := below + rest;
    forall i | 0 <= i < |ps|
      ensures NoneIn(ps[i].list, b)
    {
      if i < |below| {
        assert NoneIn(below[i].list, list);
      } else {
        assert ps[i] == rest[i - |below|] && From(names, list, d, c + 1, rest[i - |below|].list);
      }
    }
  }

  // The links to a list, and to the list with x in front if x leads to it.
  lemma InFront(link: seq<nat>, link2: seq<nat>, p: nat, list: seq<nat>, x: nat)
    requires Listed(link, p, list) && x !in list && 0 < x < |link| == |link2| && forall y :: 0 <= y < |link| && y != x ==> link2[y] == link[y]
    ensures Listed(link2, p, list) && (link2[x] == p ==> Listed(link2, x, [x] + list))
  {
    ListedBounds(link, p, list);
    ListedStays(link, link2, p, list);
    assert ([x] + list)[1..] == list;
  }

  lemma {:induction false} BucketSnoc(names: seq<Text>, list: seq<nat>, i: nat, d: nat, c: Byte)
    requires In(names, list) && i < |list|
    ensures var b := Bucket(names, list[..i], d, c); Bucket(names, list[..i+1], d, c) == if Char(names[list[i]], d) == c then [list[i]] + b else b
    decreases i
  {
    if i == 0 {
      assert list[..1][1..] == [];
    } else {
      BucketSnoc(names, list[1..], i - 1, d, c);
      assert list[..i+1][1..] == list[1..][..i] && list[..i][1..] == list[1..][..i-1];
    }
  }
}
