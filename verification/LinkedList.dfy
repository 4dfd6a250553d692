// Lists of array indices that are chained by links, 0 being the end.

module LinkedList {

  /** From p on, links lead through the list. */
  ghost predicate Listed(link: seq<nat>, p: nat, list: seq<nat>)
    decreases |list|
  {
    if list == [] then p == 0 else p == list[0] && 0 < p < |link| && Listed(link, link[p], list[1..])
  }

  /** Links outside the list do not matter. */
  lemma {:induction false} ListedStays(link: seq<nat>, link2: seq<nat>, p: nat, list: seq<nat>)
    requires Listed(link, p, list) && |link| <= |link2| && forall i :: 0 <= i < |list| ==> list[i] < |link| && link2[list[i]] == link[list[i]]
    ensures Listed(link2, p, list)
    decreases |list|
  {
    if list != [] {
      assert list[0] < |link|;
      forall i | 0 <= i < |list[1..]|
        ensures list[1..][i] < |link| && link2[list[1..][i]] == link[list[1..][i]]
      {
        assert list[1..][i] == list[i+1];
      }
      ListedStays(link, link2, link[p], list[1..]);
    }
  }

  lemma {:induction false} ListedBounds(link: seq<nat>, p: nat, list: seq<nat>)
    requires Listed(link, p, list)
    ensures forall i :: 0 <= i < |list| ==> 0 < list[i] < |link|
    decreases |list|
  {
    if list != [] {
      ListedBounds(link, link[p], list[1..]);
      forall i | 0 <= i < |list|
        ensures 0 < list[i] < |link|
      {
        assert i > 0 ==> list[i] == list[1..][i-1];
      }
    }
  }
}
