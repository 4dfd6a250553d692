// The tree of section names, ordered by prefixes none of which begins another
// (cweb/common.c:839, 869-932).

module SectionTree {
  import opened SectionNames

  datatype Tree = Leaf | Node(left: Tree, node: nat, right: Tree)

  function Elems(t: Tree): set<nat> {
    match t
    case Leaf => {}
    case Node(l, x, r) => Elems(l) + {x} + Elems(r)
  }

  /** Every prefix differs from those on its left, which are below it, and from those on
      its right, which are above it. */
  ghost predicate Sorted(t: Tree, pre: nat -> Text) {
    match t
    case Leaf => true
    case Node(l, x, r) =>
      && Sorted(l, pre) && Sorted(r, pre)
      && (forall y {:trigger Below(pre(y), pre(x))} :: y in Elems(l) ==> Below(pre(y), pre(x)))
      && (forall y {:trigger Below(pre(x), pre(y))} :: y in Elems(r) ==> Below(pre(x), pre(y)))
  }

  ghost function Matches(t: Tree, pre: nat -> Text, query: Text): set<nat> {
    set x | x in Elems(t) && Comparable(query, pre(x))
  }

  /** No stored prefix is the beginning of another. */
  lemma {:induction false} PrefixesIncomparable(t: Tree, pre: nat -> Text, x: nat, y: nat)
    requires Sorted(t, pre) && x in Elems(t) && y in Elems(t) && x != y
    ensures !Comparable(pre(x), pre(y))
  {
    if x in Elems(t.left) && y in Elems(t.left) {
      PrefixesIncomparable(t.left, pre, x, y);
    } else if x in Elems(t.right) && y in Elems(t.right) {
      PrefixesIncomparable(t.right, pre, x, y);
    } else if x in Elems(t.left) || y in Elems(t.right) {
      Across(t, pre, x, y);
    } else {
      Across(t, pre, y, x);
    }
  }

  lemma Across(t: Tree, pre: nat -> Text, x: nat, y: nat)
    requires t.Node? && Sorted(t, pre) && x != y
    requires x in Elems(t.left) + {t.node} && y in {t.node} + Elems(t.right)
    ensures Below(pre(x), pre(y)) && !Comparable(pre(x), pre(y))
  {
    if x != t.node && y != t.node {
      BelowTransitive(pre(x), pre(t.node), pre(y));
    }
    BelowIsNotComparable(pre(x), pre(y));
  }

  lemma Disjoint(t: Tree, pre: nat -> Text)
    requires t.Node? && Sorted(t, pre)
    ensures t.node !in Elems(t.left) && t.node !in Elems(t.right) && Elems(t.left) !! Elems(t.right)
  {
    if t.node in Elems(t.left) || t.node in Elems(t.right) {
      BelowIsNotComparable(pre(t.node), pre(t.node));
    }
    if x :| x in Elems(t.left) && x in Elems(t.right) {
      BelowIsNotComparable(pre(x), pre(t.node));
    }
  }

  // ---------- searching

  /** All that matches is on the left of a node that the query is below. */
  lemma GoLeft(t: Tree, pre: nat -> Text, query: Text)
    requires t.Node? && Sorted(t, pre) && Below(query, pre(t.node))
    ensures Matches(t, pre, query) == Matches(t.left, pre, query)
  {
    BelowIsNotComparable(query, pre(t.node));
    forall y | y in Elems(t.right)
      ensures !Comparable(query, pre(y))
    {
      BelowTransitive(query, pre(t.node), pre(y));
      BelowIsNotComparable(query, pre(y));
    }
  }

  lemma GoRight(t: Tree, pre: nat -> Text, query: Text)
    requires t.Node? && Sorted(t, pre) && Below(pre(t.node), query)
    ensures Matches(t, pre, query) == Matches(t.right, pre, query)
  {
    BelowIsNotComparable(pre(t.node), query);
    forall y | y in Elems(t.left)
      ensures !Comparable(query, pre(y))
    {
      BelowTransitive(pre(y), pre(t.node), query);
      BelowIsNotComparable(pre(y), query);
    }
  }

  lemma Here(t: Tree, pre: nat -> Text, query: Text)
    requires t.Node? && Sorted(t, pre) && Comparable(query, pre(t.node))
    ensures Matches(t, pre, query) == {t.node} + Matches(t.left, pre, query) + Matches(t.right, pre, query)
    ensures t.node !in Matches(t.left, pre, query) + Matches(t.right, pre, query)
  {
    Disjoint(t, pre);
  }

  /** Where a new name would go: the last node on the way, and on which side. */
  function Place(t: Tree, pre: nat -> Text, query: Text, par: nat, left: bool): (nat, bool) {
    match t
    case Leaf => (par, left)
    case Node(l, x, r) => if Below(query, pre(x)) then Place(l, pre, query, x, true) else Place(r, pre, query, x, false)
  }

  // ---------- a new name

  function Insert(t: Tree, pre: nat -> Text, query: Text, added: nat): Tree {
    match t
    case Leaf => Node(Leaf, added, Leaf)
    case Node(l, x, r) =>
      if Below(query, pre(x)) then Node(Insert(l, pre, query, added), x, r) else Node(l, x, Insert(r, pre, query, added))
  }

  /** Inserting a name that matches none keeps the order. */
  lemma {:induction false} InsertSorted(t: Tree, pre: nat -> Text, query: Text, added: nat, pre2: nat -> Text)
    requires Sorted(t, pre) && added !in Elems(t) && Matches(t, pre, query) == {}
    requires pre2(added) == query && forall x :: x in Elems(t) ==> pre2(x) == pre(x)
    ensures Sorted(Insert(t, pre, query, added), pre2) && Elems(Insert(t, pre, query, added)) == Elems(t) + {added}
  {
    if t.Node? {
      var x := t.node;
      assert x !in Matches(t, pre, query);
      NotComparable(query, pre(x));
      forall s | s == t.left || s == t.right
        ensures Matches(s, pre, query) == {} && Sorted(s, pre2)
      {
        assert forall y :: y in Matches(s, pre, query) ==> y in Matches(t, pre, query);
        SortedSame(s, pre, pre2);
      }
      InsertSorted(t.left, pre, query, added, pre2);
      InsertSorted(t.right, pre, query, added, pre2);
    }
  }

  lemma NotComparable(j: Text, k: Text)
    requires !Comparable(j, k)
    ensures Below(j, k) || Below(k, j)
  {
    CompareMeans(j, k);
  }

  lemma {:induction false} SortedSame(t: Tree, pre: nat -> Text, pre2: nat -> Text)
    requires Sorted(t, pre) && forall x :: x in Elems(t) ==> pre2(x) == pre(x)
    ensures Sorted(t, pre2)
  {
    if t.Node? {
      SortedSame(t.left, pre, pre2);
      SortedSame(t.right, pre, pre2);
    }
  }

  // ---------- a shorter prefix

  /** Shortening a prefix to a query that matches no other prefix keeps the order. */
  lemma {:induction false} ShortenSorted(t: Tree, pre: nat -> Text, r: nat, query: Text, pre2: nat -> Text)
    requires Sorted(t, pre) && Matches(t, pre, query) <= {r} && query <= pre(r)
    requires pre2(r) == query && forall x :: x in Elems(t) && x != r ==> pre2(x) == pre(x)
    ensures Sorted(t, pre2)
  {
    if t.Node? {
      forall s | s == t.left || s == t.right
        ensures Matches(s, pre, query) <= {r}
      {
        assert forall y :: y in Matches(s, pre, query) ==> y in Matches(t, pre, query);
      }
      ShortenSorted(t.left, pre, r, query, pre2);
      ShortenSorted(t.right, pre, r, query, pre2);
      forall y | y in Elems(t.left)
        ensures Below(pre2(y), pre2(t.node))
      {
        StillBelow(t, pre, r, query, y, t.node);
      }
      forall y | y in Elems(t.right)
        ensures Below(pre2(t.node), pre2(y))
      {
        StillBelow(t, pre, r, query, t.node, y);
      }
    }
  }

  lemma StillBelow(t: Tree, pre: nat -> Text, r: nat, query: Text, x: nat, y: nat)
    requires Matches(t, pre, query) <= {r} && query <= pre(r) && x in Elems(t) && y in Elems(t) && Below(pre(x), pre(y))
    ensures Below(if x == r then query else pre(x), if y == r then query else pre(y))
  {
    assert query == pre(r)[..|query|];
    if x == r && y != r {
      assert y !in Matches(t, pre, query);
      BelowBeginning(pre(y), pre(x), |query|);
    } else if y == r && x != r {
      assert x !in Matches(t, pre, query);
      BelowBeginning(pre(x), pre(y), |query|);
    } else if x == r && y == r {
      BelowIsNotComparable(pre(x), pre(y));
    }
  }

  // ---------- the tree in memory

  /** The links from p on are the tree. (0 is no node.) */
  ghost predicate Realizes(link: seq<nat>, rlink: seq<nat>, p: nat, t: Tree)
    decreases t
  {
    match t
    case Leaf => p == 0
    case Node(l, x, r) =>
      0 < p == x < |link| && p < |rlink| && Realizes(link, rlink, link[p], l) && Realizes(link, rlink, rlink[p], r)
  }

  lemma {:induction false} RealizesSame(link: seq<nat>, rlink: seq<nat>, link2: seq<nat>, rlink2: seq<nat>, p: nat, t: Tree)
    requires Realizes(link, rlink, p, t) && |link| <= |link2| && |rlink| <= |rlink2|
    requires forall x :: x in Elems(t) ==> x < |link| && x < |rlink| && link2[x] == link[x] && rlink2[x] == rlink[x]
    ensures Realizes(link2, rlink2, p, t)
    decreases t
  {
    if t.Node? {
      assert p in Elems(t);
      RealizesSame(link, rlink, link2, rlink2, link[p], t.left);
      RealizesSame(link, rlink, link2, rlink2, rlink[p], t.right);
    }
  }

  lemma {:induction false} RealizesBounds(link: seq<nat>, rlink: seq<nat>, p: nat, t: Tree)
    requires Realizes(link, rlink, p, t)
    ensures forall x :: x in Elems(t) ==> 0 < x < |link| && x < |rlink|
    decreases t
  {
    if t.Node? {
      RealizesBounds(link, rlink, link[p], t.left);
      RealizesBounds(link, rlink, rlink[p], t.right);
    }
  }

  lemma {:induction false} PlaceIsNode(t: Tree, pre: nat -> Text, query: Text, par: nat, left: bool)
    requires t.Node?
    ensures Place(t, pre, query, par, left).0 in Elems(t)
  {
    var next := if Below(query, pre(t.node)) then t.left else t.right;
    if next.Node? {
      PlaceIsNode(next, pre, query, t.node, Below(query, pre(t.node)));
    }
  }

  /** Linking a new node at its place is inserting it. */
  lemma {:induction false} RealizesInsert(link: seq<nat>, rlink: seq<nat>, link2: seq<nat>, rlink2: seq<nat>, p: nat, t: Tree,
                                          pre: nat -> Text, query: Text, added: nat)
    requires t.Node? && Sorted(t, pre) && Realizes(link, rlink, p, t) && |link| <= added < |link2| && |rlink| <= added < |rlink2| && added > 0
    requires link2[added] == 0 && rlink2[added] == 0
    requires Linked(link, rlink, link2, rlink2, t, Place(t, pre, query, 0, true), added)
    ensures Realizes(link2, rlink2, p, Insert(t, pre, query, added))
    decreases t, 0
  {
    var x := t.node;
    var goLeft := Below(query, pre(x));
    NextPlace(t, pre, query);
    if goLeft {
      InsertBelow(link, rlink, link2, rlink2, link[p], t.left, pre, query, added, x, true);
      OtherSide(link, rlink, link2, rlink2, rlink[p], t, t.right, pre, query, added);
    } else {
      InsertBelow(link, rlink, link2, rlink2, rlink[p], t.right, pre, query, added, x, false);
      OtherSide(link, rlink, link2, rlink2, link[p], t, t.left, pre, query, added);
    }
  }

  // The place is this node's if there is nothing on the way, else further on.
  lemma NextPlace(t: Tree, pre: nat -> Text, query: Text)
    requires t.Node? && Sorted(t, pre)
    ensures var x, below := t.node, Below(query, pre(t.node));
            var next, other := if below then t.left else t.right, if below then t.right else t.left;
            var place := Place(t, pre, query, 0, true);
            && place == Place(next, pre, query, x, below) && place.0 !in Elems(other)
            && (if next.Leaf? then place == (x, below) else place.0 in Elems(next) && place.0 != x)
  {
    Disjoint(t, pre);
    var below := Below(query, pre(t.node));
    var next := if below then t.left else t.right;
    if next.Node? {
      PlaceIsNode(next, pre, query, t.node, below);
    }
  }

  /** The new links differ from the old ones only where the new node hangs. */
  ghost predicate Linked(link: seq<nat>, rlink: seq<nat>, link2: seq<nat>, rlink2: seq<nat>, t: Tree, place: (nat, bool), added: nat) {
    var (par, left) := place;
    && par < |link| <= |link2| && par < |rlink| <= |rlink2|
    && (if left then link2[par] == added else rlink2[par] == added)
    && (forall x :: x in Elems(t) && !(x == par && left) ==> x < |link| && link2[x] == link[x])
    && (forall x :: x in Elems(t) && !(x == par && !left) ==> x < |rlink| && rlink2[x] == rlink[x])
  }

  // The side on which the new node goes.
  lemma {:induction false} InsertBelow(link: seq<nat>, rlink: seq<nat>, link2: seq<nat>, rlink2: seq<nat>, p: nat, t: Tree,
                                       pre: nat -> Text, query: Text, added: nat, par: nat, left: bool)
    requires Sorted(t, pre) && Realizes(link, rlink, p, t) && |link| <= added < |link2| && |rlink| <= added < |rlink2| && added > 0
    requires link2[added] == 0 && rlink2[added] == 0
    requires Linked(link, rlink, link2, rlink2, t, Place(t, pre, query, par, left), added)
    requires par < |link| && par < |rlink|
    ensures Realizes(link2, rlink2, if t.Leaf? then added else p, Insert(t, pre, query, added))
    decreases t, 1
  {
    if t.Node? {
      PlaceFrom(t, pre, query, par, left);
      RealizesInsert(link, rlink, link2, rlink2, p, t, pre, query, added);
    }
  }

  // The other side stays as it is.
  lemma OtherSide(link: seq<nat>, rlink: seq<nat>, link2: seq<nat>, rlink2: seq<nat>, p: nat, t: Tree, s: Tree,
                  pre: nat -> Text, query: Text, added: nat)
    requires t.Node? && Sorted(t, pre) && Realizes(link, rlink, p, s) && s == (if Below(query, pre(t.node)) then t.right else t.left)
    requires Linked(link, rlink, link2, rlink2, t, Place(t, pre, query, 0, true), added)
    ensures Realizes(link2, rlink2, p, s)
  {
    NextPlace(t, pre, query);
    RealizesSame(link, rlink, link2, rlink2, p, s);
  }

  lemma PlaceFrom(t: Tree, pre: nat -> Text, query: Text, par: nat, left: bool)
    requires t.Node?
    ensures Place(t, pre, query, par, left) == Place(t, pre, query, 0, true)
  {
  }
}
