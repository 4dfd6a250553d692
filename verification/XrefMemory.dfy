// The cross-reference lists of CWEAVE in place (cweb/cweave.c:124-131, 748-754,
// 1006-1060, 2104-2138).

module XrefMemory {
  import opened LinkedList
  import opened XrefLists

  function NumsAt(num: seq<nat>, list: seq<nat>): seq<nat>
    requires forall i :: 0 <= i < |list| ==> list[i] < |num|
  {
    seq(|list|, i requires 0 <= i < |list| => num[list[i]])
  }

  function Replaced(list: seq<nat>, k: nat, n: nat): seq<nat> {
    if k < |list| then list[k := n] else list
  }

  function InsertAt(list: seq<nat>, k: nat, n: nat): seq<nat> {
    if k <= |list| then list[..k] + [n] + list[k..] else list
  }

  /** The entries of name p, and that no other name has them. */
  ghost predicate Holds(num: seq<nat>, link: seq<nat>, head: nat, list: seq<nat>, owner: seq<nat>, p: nat, nums: seq<nat>) {
    && |num| == |link| == |owner| && Listed(link, head, list)
    && (forall i :: 0 <= i < |list| ==> list[i] < |num| && owner[list[i]] == p)
    && (forall i, j :: 0 <= i < j < |list| ==> list[i] != list[j])
    && nums == NumsAt(num, list)
  }

  /** What belongs to other names does not matter. */
  lemma HoldsStays(num: seq<nat>, link: seq<nat>, num2: seq<nat>, link2: seq<nat>, head: nat, list: seq<nat>, owner: seq<nat>, owner2: seq<nat>, p: nat, nums: seq<nat>)
    requires Holds(num, link, head, list, owner, p, nums) && |num| <= |num2| == |link2| == |owner2|
    requires forall e :: 0 <= e < |owner| && owner[e] == p ==> num2[e] == num[e] && link2[e] == link[e] && owner2[e] == p
    ensures Holds(num2, link2, head, list, owner2, p, nums)
  {
    ListedStays(link, link2, head, list);
    assert NumsAt(num2, list) == NumsAt(num, list);
  }

  /** A new entry at the front. */
  lemma HoldsInFront(num: seq<nat>, link: seq<nat>, num2: seq<nat>, link2: seq<nat>, head: nat, list: seq<nat>, owner: seq<nat>, p: nat, nums: seq<nat>, n: nat)
    requires Holds(num, link, head, list, owner, p, nums) && |num| > 0 && num2 == num + [n] && link2 == link + [head]
    ensures Holds(num2, link2, |num|, [|num|] + list, owner + [p], p, [n] + nums)
  {
    ListedStays(link, link2, head, list);
    var list2 := [|num|] + list;
    assert list2[1..] == list;
    assert forall i :: 0 < i < |list2| ==> list2[i] == list[i-1];
    NumsInFront(num, num2, list, n);
  }

  lemma NumsInFront(num: seq<nat>, num2: seq<nat>, list: seq<nat>, n: nat)
    requires num2 == num + [n] && forall i :: 0 <= i < |list| ==> list[i] < |num|
    ensures forall i :: 0 <= i <= |list| ==> ([|num|] + list)[i] < |num2|
    ensures [n] + NumsAt(num, list) == NumsAt(num2, [|num|] + list)
  {
  }

  /** A new entry behind entry k - 1. */
  lemma HoldsMore(num: seq<nat>, link: seq<nat>, num2: seq<nat>, link2: seq<nat>, head: nat, list: seq<nat>, owner: seq<nat>, owner2: seq<nat>, p: nat,
                  nums: seq<nat>, k: nat, n: nat)
    requires Holds(num, link, head, list, owner, p, nums) && 0 < k <= |list| && owner2 == owner + [p]
    requires |link2| == |num2| == |num| + 1 && num2 == num + [n]
    requires link2[list[k-1]] == |num| && link2[|num|] == link[list[k-1]]
    requires forall e :: 0 <= e < |link| && e != list[k-1] ==> link2[e] == link[e]
    ensures Holds(num2, link2, head, InsertAt(list, k, |num|), owner2, p, InsertAt(nums, k, n))
  {
    LinkedBehind(link, link2, head, list, k, |num|);
    InsertedAt(list, k, |num|);
    var list2 := InsertAt(list, k, |num|);
    forall i | 0 <= i < |list2|
      ensures list2[i] < |num2| && owner2[list2[i]] == p
    {
    }
    NumsMore(num, num2, list, k, n);
  }

  lemma PutLast(now: seq<nat>, was: seq<nat>, k: nat, m: nat)
    requires k <= |was| && |now| == |was| + 1 && now[..k] == was[..k] && now[k+1..] == was[k..]
    ensures Replaced(now, k, m) == InsertAt(was, k, m)
  {
  }

  // Position i gets the number after it.
  lemma MovedUp(now: seq<nat>, was: seq<nat>, i: nat)
    requires i < |was| && |now| == |was| + 1 && now[..i] == was[..i] && now[i+1..] == was[i..]
    ensures var next := Replaced(now, i, now[i+1]); |next| == |now| && next[..i+1] == was[..i+1] && next[i+2..] == was[i+1..]
  {
    assert now[i+1..][0] == now[i+1] && was[i..][0] == was[i] && now[i+2..] == now[i+1..][1..];
  }

  lemma InsertedAt(list: seq<nat>, k: nat, n: nat)
    requires k <= |list| && n !in list && forall i, j :: 0 <= i < j < |list| ==> list[i] != list[j]
    ensures var list2 := InsertAt(list, k, n);
            && |list2| == |list| + 1 && (forall i :: 0 <= i < |list2| ==> list2[i] == if i < k then list[i] else if i == k then n else list[i-1])
            && (forall i, j :: 0 <= i < j < |list2| ==> list2[i] != list2[j])
  {
    var list2 := InsertAt(list, k, n);
    forall i | 0 <= i < |list2|
      ensures list2[i] == if i < k then list[i] else if i == k then n else list[i-1]
    {
    }
    assert forall i :: 0 <= i < |list| ==> list[i] in list;
  }

  lemma NumsMore(num: seq<nat>, num2: seq<nat>, list: seq<nat>, k: nat, n: nat)
    requires k <= |list| && num2 == num + [n] && forall i :: 0 <= i < |list| ==> list[i] < |num|
    ensures forall i :: 0 <= i <= |list| ==> InsertAt(list, k, |num|)[i] < |num2|
    ensures InsertAt(NumsAt(num, list), k, n) == NumsAt(num2, InsertAt(list, k, |num|))
  {
  }

  class Memory {
    const num: array<nat>
    const xlink: array<nat>
    const xref: array<nat>
    var xrefPtr: nat
    ghost var owner: seq<nat>
    ghost var lists: seq<seq<nat>>
    ghost var nums: seq<seq<nat>>

    ghost predicate Shaped() reads this {
      && num.Length == xlink.Length && num != xlink && num != xref && xlink != xref
      && xrefPtr < num.Length && |owner| == xrefPtr + 1 && |lists| == |nums| == xref.Length
    }

    /** The list of name p is in memory. */
    ghost predicate Kept(p: nat) reads this, num, xlink, xref
      requires Shaped() && p < xref.Length
    {
      Holds(num[..xrefPtr+1], xlink[..xrefPtr+1], xref[p], lists[p], owner, p, nums[p])
    }

    ghost predicate Valid() reads this, num, xlink, xref {
      Shaped() && num[0] == 0 && owner[0] == xref.Length && forall p :: 0 <= p < xref.Length ==> Kept(p)
    }

    constructor (size: nat, names: nat)
      requires size > 0
      ensures Valid() && nums == seq(names, _ => []) && num.Length == size && xref.Length == names
    {
      num := new nat[size](_ => 0);
      xlink := new nat[size](_ => 0);
      xref := new nat[names](_ => 0);
      xrefPtr, owner, lists, nums := 0, [names], seq(names, _ => []), seq(names, _ => []);
      new;
      forall p | 0 <= p < xref.Length
        ensures Kept(p)
      {
        assert lists[p] == [] && nums[p] == NumsAt(num[..1], []);
      }
    }

    /** The other names keep their lists. */
    twostate lemma OthersKept(p: nat)
      requires old(Shaped()) && Shaped() && p < xref.Length && old(xrefPtr) <= xrefPtr && old(owner) <= owner
      requires forall o :: 0 <= o < xref.Length ==> old(Kept(o))
      requires forall o :: 0 <= o < xref.Length && o != p ==> lists[o] == old(lists[o]) && nums[o] == old(nums[o]) && xref[o] == old(xref[o])
      requires forall e :: 0 <= e <= old(xrefPtr) && old(owner)[e] != p ==> num[e] == old(num[e]) && xlink[e] == old(xlink[e])
      ensures forall o :: 0 <= o < xref.Length && o != p ==> Kept(o)
    {
      forall o | 0 <= o < xref.Length && o != p
        ensures Kept(o)
      {
        assert old(Kept(o));
        HoldsStays(old(num[..xrefPtr+1]), old(xlink[..xrefPtr+1]), num[..xrefPtr+1], xlink[..xrefPtr+1], xref[o], lists[o], old(owner), owner, o, nums[o]);
      }
    }

    /** `append_xref`, and linking the new entry to the front of a list. */
    method PushFront(p: nat, n: nat)
      requires Valid() && p < xref.Length && xrefPtr + 1 < num.Length
      modifies this`xrefPtr, this`owner, this`lists, this`nums, num, xlink, xref
      ensures Valid() && nums == old(nums[p := [n] + nums[p]]) && lists == old(lists[p := [xrefPtr + 1] + lists[p]])
      ensures xrefPtr == old(xrefPtr) + 1 && xref[p] == xrefPtr
    {
      assert Kept(p);
      ghost var num0, link0, head, list, owner0 := num[..xrefPtr+1], xlink[..xrefPtr+1], xref[p], lists[p], owner;
      AddEntry(p, n);
      HoldsInFront(num0, link0, num[..xrefPtr+1], xlink[..xrefPtr+1], head, list, owner0, p, nums[p], n);
      owner := owner + [p];
      lists := lists[p := [xrefPtr] + list];
      nums := nums[p := [n] + nums[p]];
      OthersKept(p);
    }

    method AddEntry(p: nat, n: nat)
      requires Shaped() && p < xref.Length && xrefPtr + 1 < num.Length
      modifies this`xrefPtr, num, xlink, xref
      ensures xrefPtr == old(xrefPtr) + 1 && xref[p] == xrefPtr
      ensures num[..xrefPtr+1] == old(num[..xrefPtr+1]) + [n] && xlink[..xrefPtr+1] == old(xlink[..xrefPtr+1]) + [old(xref[p])]
      ensures forall o :: 0 <= o < xref.Length && o != p ==> xref[o] == old(xref[o])
      ensures forall e :: 0 <= e < xrefPtr ==> num[e] == old(num[e]) && xlink[e] == old(xlink[e])
    {
      xrefPtr := xrefPtr + 1;
      num[xrefPtr] := n;
      xlink[xrefPtr] := xref[p];
      xref[p] := xrefPtr;
    }

    /** Change the number of entry k of a list. */
    method SetNum(p: nat, e: nat, n: nat, ghost k: nat)
      requires Valid() && p < xref.Length && k < |lists[p]| && e == lists[p][k]
      modifies this`nums, num
      ensures Valid() && nums == old(nums[p := Replaced(nums[p], k, n)])
    {
      assert Kept(p);
      EntryInside(p, k);
      num[e] := n;
      nums := nums[p := Replaced(nums[p], k, n)];
      assert nums[p] == NumsAt(num[..xrefPtr+1], lists[p]);
      OthersKept(p);
    }

    lemma EntryInside(p: nat, k: nat)
      requires Valid() && p < xref.Length && k < |lists[p]|
      ensures 0 < lists[p][k] <= xrefPtr && |nums[p]| == |lists[p]| && nums[p][k] == num[lists[p][k]]
      ensures xlink[lists[p][k]] == if k + 1 < |lists[p]| then lists[p][k+1] else 0
    {
      assert Kept(p);
      LinkAt(xlink[..xrefPtr+1], xref[p], lists[p], k);
    }

    /** Link a new entry behind entry r, at place k > 0 of a list. */
    method PutBehind(p: nat, r: nat, n: nat, ghost k: nat)
      requires Valid() && p < xref.Length && 0 < k <= |lists[p]| && r == lists[p][k-1] && xrefPtr + 1 < num.Length
      modifies this`xrefPtr, this`owner, this`lists, this`nums, num, xlink
      ensures Valid() && nums == old(nums[p := InsertAt(nums[p], k, n)])
    {
      assert Kept(p);
      EntryInside(p, k - 1);
      ghost var num0, link0, list, owner0 := num[..xrefPtr+1], xlink[..xrefPtr+1], lists[p], owner;
      xrefPtr := xrefPtr + 1;
      num[xrefPtr] := n;
      xlink[xrefPtr] := xlink[r];
      xlink[r] := xrefPtr;
      owner := owner + [p];
      HoldsMore(num0, link0, num[..xrefPtr+1], xlink[..xrefPtr+1], xref[p], list, owner0, owner, p, nums[p], k, n);
      lists := lists[p := InsertAt(list, k, xrefPtr)];
      nums := nums[p := InsertAt(nums[p], k, n)];
      OthersKept(p);
    }

    /** `new_xref`. (`unindexed` stands for a reserved word or a name of one letter; the
        result is what is left of `xref_switch`.) */
    method NewXref(p: nat, section: nat, def: bool, noXref: bool, unindexed: bool) returns (defNext: bool)
      requires Valid() && p < xref.Length && xrefPtr + 1 < num.Length
      modifies this`xrefPtr, this`owner, this`lists, this`nums, num, xlink, xref
      ensures var skipped := noXref || (unindexed && !def);
              && Valid() && nums == old(if skipped then nums else nums[p := XrefLists.NewXref(nums[p], section, def)])
              && defNext == (skipped && def)
    {
      defNext := noXref && def;
      if noXref || (unindexed && !def) {
        return;
      }
      var m, q := Entry(section, def), xref[p];
      Head(p);
      if q != 0 {
        var n := num[q];
        if n == m || n == m + DEF_FLAG {
          assert nums == nums[p := nums[p]];
          return;
        } else if m == n + DEF_FLAG {
          assert Replaced(nums[p], 0, m) == [m] + nums[p][1..];
          SetNum(p, q, m, 0);
          return;
        }
      }
      PushFront(p, m);
    }

    lemma Head(p: nat)
      requires Valid() && p < xref.Length
      ensures |nums[p]| == |lists[p]| && (xref[p] == 0 <==> lists[p] == [])
      ensures lists[p] != [] ==> xref[p] == lists[p][0] && xref[p] <= xrefPtr && num[xref[p]] == nums[p][0]
    {
      assert Kept(p);
      if lists[p] != [] {
        EntryInside(p, 0);
      }
    }

    /** `set_file_flag` */
    method SetFileFlag(p: nat)
      requires Valid() && p < xref.Length && xrefPtr + 1 < num.Length
      modifies this`xrefPtr, this`owner, this`lists, this`nums, num, xlink, xref
      ensures Valid() && nums == old(nums[p := XrefLists.SetFileFlag(nums[p])])
    {
      Head(p);
      if num[xref[p]] == FILE_FLAG {
        assert nums == nums[p := nums[p]];
      } else {
        PushFront(p, FILE_FLAG);
      }
    }

    /** `new_section_xref`: the new value of section_xref_switch. */
    method NewSectionXref(p: nat, section: nat, xrefSwitch: nat) returns (switch2: nat)
      requires Valid() && p < xref.Length && xrefPtr + 1 < num.Length && section > 0
      modifies this`xrefPtr, this`owner, this`lists, this`nums, num, xlink, xref
      ensures Valid()
      ensures var (list, there) := XrefLists.NewSectionXref(old(nums[p]), section, xrefSwitch);
              nums == old(nums)[p := list] && switch2 == if there then xrefSwitch else 0
    {
      var q, r: nat := xref[p], 0;
      ghost var k := 0;
      Head(p);
      assert nums[p][0..] == nums[p];
      while num[q] > xrefSwitch
        invariant k <= |lists[p]| == |nums[p]| && q <= xrefPtr && q == (if k < |lists[p]| then lists[p][k] else 0)
        invariant r <= xrefPtr && r == (if k > 0 then lists[p][k-1] else 0)
        invariant Walk(nums[p], xrefSwitch) == k + Walk(nums[p][k..], xrefSwitch)
        modifies {}
        decreases |lists[p]| - k
      {
        EntryInside(p, k);
        assert nums[p][k..][0] == nums[p][k] && nums[p][k..][1..] == nums[p][k+1..];
        r, q, k := q, xlink[q], k + 1;
        if k < |lists[p]| {
          EntryInside(p, k);
        }
      }
      if k < |lists[p]| {
        EntryInside(p, k);
      }
      switch2 := xrefSwitch;
      if k > 0 {
        EntryInside(p, k - 1);
      }
      if num[r] == section + xrefSwitch {
        assert nums == nums[p := nums[p]];
        return;
      }
      switch2 := 0;
      Place(p, r, section + xrefSwitch, k);
    }

    method Place(p: nat, r: nat, n: nat, ghost k: nat)
      requires Valid() && p < xref.Length && xrefPtr + 1 < num.Length && k <= |lists[p]| && r == if k > 0 then lists[p][k-1] else 0
      modifies this`xrefPtr, this`owner, this`lists, this`nums, num, xlink, xref
      ensures Valid() && nums == old(nums[p := InsertAt(nums[p], k, n)])
    {
      if k > 0 {
        EntryInside(p, k - 1);
      }
      if r == 0 {
        assert nums[p][..0] + [n] + nums[p][0..] == [n] + nums[p];
        PushFront(p, n);
      } else {
        PutBehind(p, r, n, k);
      }
    }

    /** `underline_xref` */
    method UnderlineXref(p: nat, m: nat)
      requires Valid() && p < xref.Length && xrefPtr + 1 < num.Length
      modifies this`xrefPtr, this`owner, this`lists, this`nums, num, xlink, xref
      ensures Valid() && nums == old(nums[p := Underline(nums[p], m)])
    {
      var q: nat := xref[p];
      ghost var k := 0;
      Head(p);
      if lists[p] != [] {
        EntryInside(p, 0);
      }
      assert nums[p][0..] == nums[p];
      while q != 0 && num[q] != m && m != num[q] + DEF_FLAG && !(DEF_FLAG <= num[q] < m)
        invariant k <= |lists[p]| == |nums[p]| && q <= xrefPtr && q == (if k < |lists[p]| then lists[p][k] else 0)
        invariant (q != 0 <==> k < |lists[p]|) && (q != 0 ==> num[q] == nums[p][k])
        invariant Stop(nums[p], m) == k + Stop(nums[p][k..], m)
        modifies {}
        decreases |lists[p]| - k
      {
        EntryInside(p, k);
        assert nums[p][k..][0] == nums[p][k] && nums[p][k..][1..] == nums[p][k+1..];
        q, k := xlink[q], k + 1;
        if k < |lists[p]| {
          EntryInside(p, k);
        }
      }
      StopsHere(nums[p], m, k);
      if q != 0 && num[q] == m {
        assert nums == nums[p := nums[p]];
      } else if q != 0 && m == num[q] + DEF_FLAG {
        SetNum(p, q, m, k);
      } else {
        Shift(p, q, m, k);
      }
    }

    lemma StopsHere(list: seq<nat>, m: nat, k: nat)
      requires k <= |list| && Stop(list, m) == k + Stop(list[k..], m)
      requires k < |list| ==> list[k] == m || m == list[k] + DEF_FLAG || DEF_FLAG <= list[k] < m
      ensures Stop(list, m) == k
      ensures Underline(list, m) == if k < |list| && list[k] == m then list else if k < |list| && m == list[k] + DEF_FLAG then Replaced(list, k, m)
                                    else InsertAt(list, k, m)
    {
      assert k < |list| ==> list[k..][0] == list[k];
    }

    /** Put m before entry q: a new entry at the front, and the numbers before q move up. */
    method Shift(p: nat, q: nat, m: nat, ghost k: nat)
      requires Valid() && p < xref.Length && xrefPtr + 1 < num.Length && k <= |lists[p]| && q == if k < |lists[p]| then lists[p][k] else 0
      modifies this`xrefPtr, this`owner, this`lists, this`nums, num, xlink, xref
      ensures Valid() && nums == old(nums[p := InsertAt(nums[p], k, m)])
    {
      Head(p);
      ghost var nums0, was, list := nums, nums[p], lists[p];
      PushFront(p, 0);
      var r: nat := xref[p];
      ghost var i := 0;
      while xlink[r] != q
        invariant Valid() && lists[p] == [xref[p]] + list && i <= k && r == lists[p][i] <= xrefPtr && nums == nums0[p := nums[p]]
        invariant |nums[p]| == |was| + 1 && nums[p][..i] == was[..i] && nums[p][i+1..] == was[i..]
        modifies this`nums, num
        decreases k - i
      {
        DifferentPlaces(p, i, k);
        MovedUp(nums[p], was, i);
        r := MoveUp(p, r, i);
        i := i + 1;
      }
      DifferentPlaces(p, i, k);
      PutLast(nums[p], was, k, m);
      SetNum(p, r, m, i);
    }

    /** Entry r, which is entry i of the list of p, gets the number of the next one. */
    method MoveUp(p: nat, r: nat, ghost i: nat) returns (next: nat)
      requires Valid() && p < xref.Length && i + 1 < |lists[p]| && r == lists[p][i]
      modifies this`nums, num
      ensures Valid() && |old(nums[p])| == |lists[p]| && nums == old(nums[p := Replaced(nums[p], i, nums[p][i+1])]) && next == lists[p][i+1] <= xrefPtr
    {
      EntryInside(p, i);
      EntryInside(p, i + 1);
      next := xlink[r];
      SetNum(p, r, num[next], i);
    }

    // The link of entry i of the longer list leads to old entry k exactly if i is k.
    lemma DifferentPlaces(p: nat, i: nat, k: nat)
      requires Valid() && p < xref.Length && i <= k < |lists[p]|
      ensures lists[p][i] <= xrefPtr
      ensures xlink[lists[p][i]] == (if k + 1 < |lists[p]| then lists[p][k+1] else 0) <==> i == k
    {
      assert Kept(p);
      EntryInside(p, i);
      EntryInside(p, k);
      if i < k {
        EntryInside(p, i + 1);
      }
    }
  }

  lemma {:induction false} LinkAt(link: seq<nat>, head: nat, list: seq<nat>, k: nat)
    requires Listed(link, head, list) && k < |list|
    ensures 0 < list[k] < |link| && link[list[k]] == if k + 1 < |list| then list[k+1] else 0
    decreases |list|
  {
    if k > 0 {
      LinkAt(link, link[head], list[1..], k - 1);
    }
  }

  /** Linking a new entry behind entry k - 1. */
  lemma {:induction false} LinkedBehind(link: seq<nat>, link2: seq<nat>, head: nat, list: seq<nat>, k: nat, added: nat)
    requires Listed(link, head, list) && 0 < k <= |list| && added == |link| < |link2|
    requires forall i, j :: 0 <= i < j < |list| ==> list[i] != list[j]
    requires list[k-1] < |link| && link2[list[k-1]] == added && link2[added] == link[list[k-1]]
    requires forall e :: 0 <= e < |link| && e != list[k-1] ==> link2[e] == link[e]
    ensures Listed(link2, head, InsertAt(list, k, added))
    decreases |list|
  {
    var list2 := InsertAt(list, k, added);
    if k == 1 {
      assert list2[1..] == [added] + list[1..] && list2[1..][1..] == list[1..];
      ListedBounds(link, link[head], list[1..]);
      ListedStays(link, link2, link[head], list[1..]);
    } else {
      var rest := list[1..];
      assert list2[1..] == InsertAt(rest, k - 1, added);
      assert forall i, j :: 0 <= i < j < |rest| ==> rest[i] == list[i+1] && rest[j] == list[j+1];
      LinkedBehind(link, link2, link[head], rest, k - 1, added);
    }
  }
}
