// When the expansion of a program fits in CTANGLE's stack (cweb/ctangle.c:518, 547-589).

module TangleDepth {
  import opened TangleTokens
  import opened TangleExpansion

  /** All items of text t and its continuations. */
  function ChainItems(p: Program, t: nat): seq<Item>
    decreases if t < |p.items| then |p.items| - t else 0
  {
    if t >= |p.items| || t >= |p.links| then []
    else p.items[t] + if t < p.links[t] < SECTION_FLAG then ChainItems(p, p.links[t]) else []
  }

  /** Each item of the path stands in the definition of the one before it (the first
      in the chain of t) and needs a level of the stack. */
  ghost predicate UsePath(p: Program, t: nat, path: seq<Item>)
    decreases |path|
  {
    path != [] ==>
      && path[0] in ChainItems(p, t)
      && match path[0]
         case Defs => |path| == 1
         case Section(n) => n < |p.equiv| && p.equiv[n] > 0 && UsePath(p, p.equiv[n], path[1..])
         case _ => false
  }

  lemma {:induction false} ItemsFit(p: Program, defs: seq<Event>, d: nat, items: seq<Item>)
    ensures ItemsOut(p, defs, d, items).ok <==> forall i :: i in items ==> FirstOut(p, defs, d, i).ok
    decreases |items|
  {
    if items != [] {
      ItemsFit(p, defs, d, items[1..]);
      assert items == [items[0]] + items[1..];
      assert ItemsOut(p, defs, d, items).ok <==> FirstOut(p, defs, d, items[0]).ok && ItemsOut(p, defs, d, items[1..]).ok;
      if ItemsOut(p, defs, d, items).ok {
        forall i | i in items
          ensures FirstOut(p, defs, d, i).ok
        {
          assert i == items[0] || i in items[1..];
        }
      }
      assert forall i :: i in items[1..] ==> i in items;
    }
  }

  lemma {:induction false} ChainFits(p: Program, defs: seq<Event>, d: nat, t: nat, section: nat)
    ensures ChainOut(p, defs, d, t, section).ok <==> forall i :: i in ChainItems(p, t) ==> FirstOut(p, defs, d, i).ok
    decreases if t < |p.items| then |p.items| - t else 0
  {
    if t < |p.items| && t < |p.links| {
      ItemsFit(p, defs, d, p.items[t]);
      if t < p.links[t] < SECTION_FLAG {
        ChainFits(p, defs, d, p.links[t], SectionAfter(p.items[t], section));
      }
    }
  }

  /** With room for d more levels, the expansion fails if and only if the program nests
      d + 1 uses in each other (a cyclic program always does). */
  lemma {:induction false} FitsUnlessDeep(p: Program, defs: seq<Event>, d: nat, t: nat, section: nat)
    ensures ChainOut(p, defs, d, t, section).ok <==> !exists path :: |path| == d + 1 && UsePath(p, t, path)
    decreases d
  {
    if exists path :: |path| == d + 1 && UsePath(p, t, path) {
      var path :| |path| == d + 1 && UsePath(p, t, path);
      DeepFails(p, defs, d, t, section, path);
    }
    if !ChainOut(p, defs, d, t, section).ok {
      var path := FailureIsDeep(p, defs, d, t, section);
    }
  }

  lemma {:induction false} DeepFails(p: Program, defs: seq<Event>, d: nat, t: nat, section: nat, path: seq<Item>)
    requires |path| == d + 1 && UsePath(p, t, path)
    ensures !ChainOut(p, defs, d, t, section).ok
    decreases d
  {
    ChainFits(p, defs, d, t, section);
    if path[0].Section? && d > 0 {
      DeepFails(p, defs, d - 1, p.equiv[path[0].n], 0, path[1..]);
    }
    assert !FirstOut(p, defs, d, path[0]).ok;
  }

  lemma {:induction false} FailureIsDeep(p: Program, defs: seq<Event>, d: nat, t: nat, section: nat) returns (path: seq<Item>)
    requires !ChainOut(p, defs, d, t, section).ok
    ensures |path| == d + 1 && UsePath(p, t, path)
    decreases d
  {
    ChainFits(p, defs, d, t, section);
    var i :| i in ChainItems(p, t) && !FirstOut(p, defs, d, i).ok;
    path := [i];
    if i.Section? {
      if d > 0 {
        var rest := FailureIsDeep(p, defs, d - 1, p.equiv[i.n], 0);
        path := [i] + rest;
        assert path[1..] == rest;
      } else {
        assert path[1..] == [];
      }
    }
  }
}
