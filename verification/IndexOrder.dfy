// The order of CWEAVE's index, and what its radix sort emits
// (cweb/cweave.c:886-911, 3979-4104, 4138-4154).

module IndexOrder {
  import opened Basics
  import opened SectionNames

  const LAST := 228
  const INFINITY := 255
  const DELETE: Byte := 127

  // ---------- characters

  /** `collate`: the characters in the order of the index, from the end of a name on. */
  function Collate(c: nat): Byte
    requires c <= LAST
  {
    if c == 0 then 0
    else if c == 1 then 32
    else if c <= 32 then c - 1
    else if c <= 47 then c
    else if c <= 54 then c + 10
    else if c <= 58 then c + 36
    else if c == 59 then 96
    else if c <= 63 then c + 63
    else if c == 64 then 95
    else if c <= 90 then c + 32
    else if c <= 100 then c - 43
    else c + 27
  }

  /** The place of a character in that order. (Capitals and DELETE have none.) */
  function Rank(b: Byte): nat {
    if b == 0 then 0
    else if b < 32 then b + 1
    else if b == 32 then 1
    else if b <= 47 then b
    else if b <= 57 then b + 43
    else if b <= 64 then b - 10
    else if b <= 90 then LAST + 1
    else if b <= 94 then b - 36
    else if b == 95 then 64
    else if b == 96 then 59
    else if b <= 122 then b - 32
    else if b <= 126 then b - 63
    else if b == 127 then LAST + 1
    else b - 27
  }

  function Fold(b: Byte): Byte {
    if 65 <= b <= 90 then b + 32 else b
  }

  /** All characters but DELETE and the capitals have their place. */
  lemma CollateRank(b: Byte, c: nat)
    ensures c <= LAST ==> Rank(Collate(c)) == c
    ensures Rank(b) <= LAST ==> Collate(Rank(b)) == b
    ensures Rank(b) > LAST <==> b == DELETE || 65 <= b <= 90
  {
  }

  /** The character of a name at depth d, 0 at its end. */
  function Char(name: Text, d: nat): Byte {
    if d < |name| then Fold(name[d]) else 0
  }

  lemma CharRank(name: Text, d: nat)
    ensures Rank(Char(name, d)) > LAST <==> Char(name, d) == DELETE
  {
  }

  /** x does not come after y, as far as their characters from depth d on tell (up to 255). */
  predicate Leq(x: Text, y: Text, d: nat)
    decreases INFINITY - d
  {
    d >= INFINITY || Rank(Char(x, d)) < Rank(Char(y, d))
    || (Char(x, d) == Char(y, d) && (Char(x, d) == 0 || Leq(x, y, d + 1)))
  }

  // ---------- what the sort emits

  /** The names of the list that have c at depth d, last ones first. */
  function Bucket(names: seq<Text>, list: seq<nat>, d: nat, c: Byte): seq<nat>
    requires In(names, list)
  {
    if list == [] then []
    else Bucket(names, list[1..], d, c) + if Char(names[list[0]], d) == c then [list[0]] else []
  }

  predicate In(names: seq<Text>, list: seq<nat>) {
    forall i :: 0 <= i < |list| ==> list[i] < |names|
  }

  lemma {:induction false} BucketIn(names: seq<Text>, list: seq<nat>, d: nat, c: Byte)
    requires In(names, list)
    ensures In(names, Bucket(names, list, d, c)) && |Bucket(names, list, d, c)| <= |list|
    ensures forall x :: x in Bucket(names, list, d, c) <==> x in list && Char(names[x], d) == c
  {
    if list != [] {
      BucketIn(names, list[1..], d, c);
      assert forall x :: x in list <==> x == list[0] || x in list[1..];
    }
  }

  lemma InMembers(names: seq<Text>, list: seq<nat>)
    requires In(names, list)
    ensures forall x :: x in list ==> x < |names|
  {
  }

  /** A list is emitted as it is if it holds one name or the depth is infinite; else its
      buckets are emitted one after the other. */
  function Emit(names: seq<Text>, list: seq<nat>, d: nat): seq<nat>
    requires In(names, list)
    decreases INFINITY - d, LAST + 2
  {
    if |list| <= 1 || d >= INFINITY then list else Fan(names, list, d, 0)
  }

  function Fan(names: seq<Text>, list: seq<nat>, d: nat, c: nat): seq<nat>
    requires In(names, list) && d < INFINITY
    decreases INFINITY - d, LAST + 1 - c
  {
    if c > LAST then []
    else
      BucketIn(names, list, d, Collate(c));
      Emit(names, Bucket(names, list, d, Collate(c)), Deeper(c, d)) + Fan(names, list, d, c + 1)
  }

  /** The depth of a bucket: names that have ended are not looked at any more. */
  function Deeper(c: nat, d: nat): nat
  {
    if c == 0 then INFINITY else d + 1
  }

  // ---------- every name comes out once, in order

  /** A name is in a bucket as often as in the list. */
  lemma {:induction false} BucketCount(names: seq<Text>, list: seq<nat>, d: nat, c: Byte, x: nat)
    requires In(names, list) && x < |names|
    ensures multiset(Bucket(names, list, d, c))[x] == if Char(names[x], d) == c then multiset(list)[x] else 0
  {
    if list != [] {
      BucketCount(names, list[1..], d, c, x);
      assert list == [list[0]] + list[1..];
    }
  }

  /** No name comes out more often than it is in the list. */
  lemma {:induction false} EmitCount(names: seq<Text>, list: seq<nat>, d: nat, x: nat)
    requires In(names, list) && x < |names|
    ensures multiset(Emit(names, list, d))[x] <= multiset(list)[x]
    decreases INFINITY - d, LAST + 2
  {
    if |list| > 1 && d < INFINITY {
      FanCount(names, list, d, 0, x);
    }
  }

  lemma {:induction false} FanCount(names: seq<Text>, list: seq<nat>, d: nat, c: nat, x: nat)
    requires In(names, list) && d < INFINITY && x < |names|
    ensures multiset(Fan(names, list, d, c))[x] <= if c <= Rank(Char(names[x], d)) <= LAST then multiset(list)[x] else 0
    decreases INFINITY - d, LAST + 1 - c
  {
    if c <= LAST {
      var b := Bucket(names, list, d, Collate(c));
      BucketIn(names, list, d, Collate(c));
      BucketCount(names, list, d, Collate(c), x);
      EmitCount(names, b, Deeper(c, d), x);
      FanCount(names, list, d, c + 1, x);
      CollateRank(Char(names[x], d), c);
    }
  }

  predicate Ordered(names: seq<Text>, out: seq<nat>, d: nat) {
    forall i, j :: 0 <= i < j < |out| && out[i] < |names| && out[j] < |names| ==> Leq(names[out[i]], names[out[j]], d)
  }

  lemma {:induction false} EmitIn(names: seq<Text>, list: seq<nat>, d: nat)
    requires In(names, list)
    ensures In(names, Emit(names, list, d)) && forall x :: x in Emit(names, list, d) ==> x in list
    decreases INFINITY - d, LAST + 2
  {
    if |list| > 1 && d < INFINITY {
      FanIn(names, list, d, 0);
    }
  }

  lemma {:induction false} FanIn(names: seq<Text>, list: seq<nat>, d: nat, c: nat)
    requires In(names, list) && d < INFINITY
    ensures In(names, Fan(names, list, d, c))
    ensures forall x :: x in Fan(names, list, d, c) ==> x in list && x < |names| && c <= Rank(Char(names[x], d)) <= LAST
    decreases INFINITY - d, LAST + 1 - c
  {
    if c <= LAST {
      var b := Bucket(names, list, d, Collate(c));
      BucketIn(names, list, d, Collate(c));
      EmitIn(names, b, Deeper(c, d));
      FanIn(names, list, d, c + 1);
      CollateRank(0, c);
      InMembers(names, list);
    }
  }

  /** The names come out in the order of the index. */
  lemma {:induction false} EmitOrdered(names: seq<Text>, list: seq<nat>, d: nat)
    requires In(names, list)
    ensures Ordered(names, Emit(names, list, d), d)
    decreases INFINITY - d, LAST + 2
  {
    if |list| > 1 && d < INFINITY {
      FanOrdered(names, list, d, 0);
    }
  }

  lemma {:induction false} FanOrdered(names: seq<Text>, list: seq<nat>, d: nat, c: nat)
    requires In(names, list) && d < INFINITY
    ensures Ordered(names, Fan(names, list, d, c), d)
    decreases INFINITY - d, LAST + 1 - c
  {
    if c <= LAST {
      var b := Bucket(names, list, d, Collate(c));
      BucketIn(names, list, d, Collate(c));
      var first, rest := Emit(names, b, Deeper(c, d)), Fan(names, list, d, c + 1);
      EmitOrdered(names, b, Deeper(c, d));
      EmitIn(names, b, Deeper(c, d));
      FanOrdered(names, list, d, c + 1);
      FanIn(names, list, d, c + 1);
      CollateRank(0, c);
      JoinOrdered(names, first, rest, d, c);
    }
  }

  lemma JoinOrdered(names: seq<Text>, first: seq<nat>, rest: seq<nat>, d: nat, c: nat)
    requires c <= LAST && d < INFINITY && In(names, first) && Ordered(names, first, Deeper(c, d)) && Ordered(names, rest, d)
    requires forall x :: x in first ==> Char(names[x], d) == Collate(c)
    requires forall x :: x in rest ==> x < |names| && Rank(Char(names[x], d)) > c
    ensures Ordered(names, first + rest, d)
  {
    var out := first + rest;
    CollateRank(0, c);
    forall i, j | 0 <= i < j < |out| && out[i] < |names| && out[j] < |names|
      ensures Leq(names[out[i]], names[out[j]], d)
    {
      if j < |first| {
        assert out[i] == first[i] && out[j] == first[j] && first[i] in first && first[j] in first;
      } else if i < |first| {
        assert out[i] == first[i] && first[i] in first && out[j] == rest[j - |first|] && rest[j - |first|] in rest;
      } else {
        assert out[i] == rest[i - |first|] && out[j] == rest[j - |first|];
      }
    }
  }

  // ---------- which names are lost

  /** Two names agree from depth d up to k, before either ends. */
  predicate Agree(x: Text, y: Text, d: nat, k: nat) {
    forall m :: d <= m < k ==> Char(x, m) == Char(y, m) != 0
  }

  /** Name x has DELETE at depth k, up to where another name of the list agrees with it. */
  predicate Clash(names: seq<Text>, list: seq<nat>, d: nat, x: nat, y: nat, k: nat)
    requires In(names, list)
  {
    x in list && y in list && x != y && d <= k < INFINITY && Agree(names[x], names[y], d, k) && Char(names[x], k) == DELETE
  }

  predicate Distinct(list: seq<nat>) {
    forall i, j :: 0 <= i < j < |list| ==> list[i] != list[j]
  }

  lemma {:induction false} BucketDistinct(names: seq<Text>, list: seq<nat>, d: nat, c: Byte)
    requires In(names, list) && Distinct(list)
    ensures Distinct(Bucket(names, list, d, c))
  {
    if list != [] {
      BucketDistinct(names, list[1..], d, c);
      BucketIn(names, list[1..], d, c);
      var b := Bucket(names, list[1..], d, c);
      assert list[0] !in list[1..];
      assert forall i :: 0 <= i < |b| ==> b[i] in b;
    }
  }

  // A name is in the fan if and only if it is in its bucket's part of it.
  lemma {:induction false} InFan(names: seq<Text>, list: seq<nat>, d: nat, c: nat, x: nat)
    requires In(names, list) && d < INFINITY && x < |names|
    ensures var r := Rank(Char(names[x], d));
            x in Fan(names, list, d, c) <==> c <= r <= LAST && (BucketIn(names, list, d, Collate(r)); x in Emit(names, Bucket(names, list, d, Collate(r)), Deeper(r, d)))
    decreases LAST + 1 - c
  {
    if c <= LAST {
      BucketIn(names, list, d, Collate(c));
      EmitIn(names, Bucket(names, list, d, Collate(c)), Deeper(c, d));
      CollateRank(Char(names[x], d), c);
      InFan(names, list, d, c + 1, x);
    }
  }

  /** A name is lost if it has DELETE where another name agrees with it so far. */
  lemma {:induction false} ClashLoses(names: seq<Text>, list: seq<nat>, d: nat, x: nat, y: nat, k: nat)
    requires In(names, list) && Clash(names, list, d, x, y, k)
    ensures x !in Emit(names, list, d)
    decreases INFINITY - d
  {
    assert |list| > 1;
    var r := Rank(Char(names[x], d));
    CollateRank(Char(names[x], d), r);
    CharRank(names[x], d);
    InFan(names, list, d, 0, x);
    if k > d && r <= LAST {
      assert Char(names[x], d) == Char(names[y], d) != 0;
      var b := Bucket(names, list, d, Collate(r));
      BucketIn(names, list, d, Collate(r));
      ClashLoses(names, b, d + 1, x, y, k);
    }
  }

  /** And only then. */
  lemma {:induction false} LostClashes(names: seq<Text>, list: seq<nat>, d: nat, x: nat) returns (y: nat, k: nat)
    requires In(names, list) && Distinct(list) && x in list && x !in Emit(names, list, d)
    ensures Clash(names, list, d, x, y, k)
    decreases INFINITY - d
  {
    var r := Rank(Char(names[x], d));
    CollateRank(Char(names[x], d), r);
    CharRank(names[x], d);
    InFan(names, list, d, 0, x);
    if r > LAST {
      y, k := if list[0] == x then list[1] else list[0], d;
    } else {
      var b := Bucket(names, list, d, Collate(r));
      BucketIn(names, list, d, Collate(r));
      BucketDistinct(names, list, d, Collate(r));
      y, k := LostClashes(names, b, Deeper(r, d), x);
      ClashAbove(names, list, d, r, b, x, y, k);
    }
  }

  // ---------- the index

  /** All names of the list, beginning with their first characters. */
  function Index(names: seq<Text>, list: seq<nat>): seq<nat>
    requires In(names, list)
  {
    Fan(names, list, 0, 0)
  }

  /** The index is in order, and holds exactly the names that do not begin with DELETE and
      do not have it where another name agrees with them so far. */
  lemma IndexIsSorted(names: seq<Text>, list: seq<nat>)
    requires In(names, list) && Distinct(list)
    ensures Ordered(names, Index(names, list), 0)
    ensures forall x: nat :: x < |names| ==> multiset(Index(names, list))[x] <= 1
    ensures forall x :: x in list ==> (x in Index(names, list) <==>
              Char(names[x], 0) != DELETE && !exists y, k :: k > 0 && Clash(names, list, 0, x, y, k))
    ensures forall x :: x in Index(names, list) ==> x in list
  {
    FanOrdered(names, list, 0, 0);
    FanIn(names, list, 0, 0);
    forall x: nat | x < |names|
      ensures multiset(Index(names, list))[x] <= 1
    {
      FanCount(names, list, 0, 0, x);
      OnceInList(list, x);
    }
    forall x | x in list
      ensures x in Index(names, list) <==> Char(names[x], 0) != DELETE && !exists y, k :: k > 0 && Clash(names, list, 0, x, y, k)
    {
      InIndex(names, list, x);
    }
  }

  /** The name `a` followed by DELETE is in the index, unless the name `a` is as well. */
  lemma DeleteExample(names: seq<Text>, alone: seq<nat>, both: seq<nat>)
    requires names == [[], [97, DELETE], [97]] && alone == [1] && both == [1, 2]
    ensures 1 in Index(names, alone) && 1 !in Index(names, both) && 2 in Index(names, both)
  {
    ExampleNames(names);
    KeptAlone(names, alone, 1);
    LostBehind(names, both, 1, 2);
  }

  lemma ExampleNames(names: seq<Text>)
    requires names == [[], [97, DELETE], [97]]
    ensures Char(names[1], 0) == Char(names[2], 0) == 97 && Char(names[1], 1) == DELETE && forall k: nat :: Char(names[2], k) != DELETE
    ensures Agree(names[1], names[2], 0, 1)
  {
  }

  lemma KeptAlone(names: seq<Text>, list: seq<nat>, x: nat)
    requires x < |names| && list == [x] && Char(names[x], 0) != DELETE
    ensures x in Index(names, list)
  {
    assert Distinct(list);
    InIndex(names, list, x);
  }

  lemma LostBehind(names: seq<Text>, list: seq<nat>, x: nat, y: nat)
    requires x < |names| && y < |names| && list == [x, y] && x != y && Agree(names[x], names[y], 0, 1)
    requires Char(names[x], 1) == DELETE && forall k: nat :: Char(names[y], k) != DELETE
    ensures x !in Index(names, list) && y in Index(names, list)
  {
    assert Distinct(list);
    assert Clash(names, list, 0, x, y, 1);
    InIndex(names, list, x);
    InIndex(names, list, y);
  }

  lemma OnceInList(list: seq<nat>, x: nat)
    requires Distinct(list)
    ensures multiset(list)[x] <= 1
    decreases |list|
  {
    if list != [] {
      OnceInList(list[1..], x);
      assert list == [list[0]] + list[1..];
      assert x == list[0] ==> x !in list[1..];
    }
  }

  lemma InIndex(names: seq<Text>, list: seq<nat>, x: nat)
    requires In(names, list) && Distinct(list) && x in list
    ensures x in Index(names, list) <==> Char(names[x], 0) != DELETE && !exists y, k :: k > 0 && Clash(names, list, 0, x, y, k)
  {
    if Char(names[x], 0) == DELETE {
      InFan(names, list, 0, 0, x);
      CharRank(names[x], 0);
    } else if exists y, k :: k > 0 && Clash(names, list, 0, x, y, k) {
      var y, k :| k > 0 && Clash(names, list, 0, x, y, k);
      NotInIndex(names, list, x, y, k);
    } else if x !in Index(names, list) {
      var y, k := WhyNotInIndex(names, list, x);
    }
  }

  lemma NotInIndex(names: seq<Text>, list: seq<nat>, x: nat, y: nat, k: nat)
    requires In(names, list) && x < |names| && k > 0 && Clash(names, list, 0, x, y, k)
    ensures x !in Index(names, list)
  {
    var r := Rank(Char(names[x], 0));
    CollateRank(Char(names[x], 0), r);
    InFan(names, list, 0, 0, x);
    if r <= LAST {
      BucketIn(names, list, 0, Collate(r));
      assert Char(names[x], 0) == Char(names[y], 0) != 0;
      ClashLoses(names, Bucket(names, list, 0, Collate(r)), 1, x, y, k);
    }
  }

  lemma WhyNotInIndex(names: seq<Text>, list: seq<nat>, x: nat) returns (y: nat, k: nat)
    requires In(names, list) && Distinct(list) && x in list && Char(names[x], 0) != DELETE && x !in Index(names, list)
    ensures k > 0 && Clash(names, list, 0, x, y, k)
  {
    var r := Rank(Char(names[x], 0));
    CollateRank(Char(names[x], 0), r);
    CharRank(names[x], 0);
    InFan(names, list, 0, 0, x);
    var b := Bucket(names, list, 0, Collate(r));
    BucketIn(names, list, 0, Collate(r));
    BucketDistinct(names, list, 0, Collate(r));
    y, k := LostClashes(names, b, Deeper(r, 0), x);
    ClashAbove(names, list, 0, r, b, x, y, k);
  }

  // A clash in a bucket is one in the list.
  lemma ClashAbove(names: seq<Text>, list: seq<nat>, d: nat, r: nat, b: seq<nat>, x: nat, y: nat, k: nat)
    requires In(names, list) && r <= LAST && In(names, b) && (forall z :: z in b ==> z in list && Char(names[z], d) == Collate(r))
    requires Clash(names, b, Deeper(r, d), x, y, k)
    ensures k > d && Clash(names, list, d, x, y, k)
  {
    CollateRank(0, r);
  }

  ghost predicate NoDelete(name: Text) {
    forall k: nat :: Char(name, k) != DELETE
  }

  /** Without DELETE nothing is lost. */
  lemma NothingLost(names: seq<Text>, list: seq<nat>)
    requires In(names, list) && Distinct(list) && forall x :: x in list ==> NoDelete(names[x])
    ensures multiset(Index(names, list)) == multiset(list)
  {
    FanIn(names, list, 0, 0);
    forall x | x in list
      ensures multiset(Index(names, list))[x] == multiset(list)[x]
    {
      NotLost(names, list, x);
    }
    SameCounts(Index(names, list), list);
  }

  lemma SameCounts(a: seq<nat>, b: seq<nat>)
    requires forall x :: x in a ==> x in b
    requires forall x :: x in b ==> multiset(a)[x] == multiset(b)[x]
    ensures multiset(a) == multiset(b)
  {
  }

  lemma NotLost(names: seq<Text>, list: seq<nat>, x: nat)
    requires In(names, list) && Distinct(list) && x in list && NoDelete(names[x])
    ensures multiset(Index(names, list))[x] == multiset(list)[x]
  {
    InIndex(names, list, x);
    FanCount(names, list, 0, 0, x);
    OnceInList(list, x);
    assert x in multiset(Index(names, list)) && x in multiset(list);
  }
}
