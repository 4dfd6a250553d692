// The section markers in CTANGLE's output (cweb/ctangle.c:519-524, 535-541, 552-556,
// 585-586, 753-755, 1439).

module TangleMarkers {
  import opened Basics
  import opened TangleTokens
  import opened TangleExpansion

  /** The sections that are open after the events, innermost last; None if a marker
      closes another section than the innermost open one. */
  function Nest(events: seq<Event>, open: seq<nat>): Option<seq<nat>> {
    if events == [] then Some(open)
    else
      match events[0]
      case Open(n) => Nest(events[1..], open + [n])
      case Close(n) => if open != [] && open[|open|-1] == n then Nest(events[1..], open[..|open|-1]) else None
      case _ => Nest(events[1..], open)
  }

  predicate NoNumber(items: seq<Item>) {
    forall i :: 0 <= i < |items| ==> !items[i].Number?
  }

  /** Every C text begins with the number of its section, and has no other. */
  ghost predicate Marked(p: Program) {
    forall t: nat :: p.OnChain(t) ==> p.items[t] != [] && p.items[t][0].Number? && p.items[t][0].n > 0 && NoNumber(p.items[t][1..])
  }

  /** Events without a marker. */
  predicate Unmarked(events: seq<Event>) {
    forall i :: 0 <= i < |events| ==> !events[i].Open? && !events[i].Close?
  }

  lemma {:induction false} NestSplit(a: seq<Event>, b: seq<Event>, open: seq<nat>)
    ensures Nest(a + b, open) == match Nest(a, open) { case None => None case Some(o) => Nest(b, o) }
    decreases |a|
  {
    if a == [] {
      assert a + b == b;
    } else {
      assert (a + b)[0] == a[0] && (a + b)[1..] == a[1..] + b;
      match a[0] {
        case Open(n) => NestSplit(a[1..], b, open + [n]);
        case Close(n) => if open != [] { NestSplit(a[1..], b, open[..|open|-1]); }
        case _ => NestSplit(a[1..], b, open);
      }
    }
  }

  lemma {:induction false} NestUnmarked(a: seq<Event>, open: seq<nat>)
    requires Unmarked(a)
    ensures Nest(a, open) == Some(open)
    decreases |a|
  {
    if a != [] {
      NestUnmarked(a[1..], open);
    }
  }

  /** What is complete leaves the open sections as they were; what is cut off has closed
      none of them. */
  predicate Nested(o: Output, open: seq<nat>) {
    var after := Nest(o.out, open);
    after.Some? && open <= after.value && (o.ok ==> after.value == open)
  }

  lemma NestedThen(a: Output, b: Output, open: seq<nat>)
    requires Nested(a, open) && Nested(b, open)
    ensures Nested(Then(a, b), open)
  {
    NestSplit(a.out, b.out, open);
  }

  lemma {:induction false} PlainEvents(content: seq<Byte>)
    ensures Unmarked(ContentEvents(content))
  {
    if content != [] {
      PlainEvents(content[1..]);
    }
  }

  lemma {:induction false} ItemsNest(p: Program, defs: seq<Event>, d: nat, items: seq<Item>, open: seq<nat>)
    requires p.Valid() && Marked(p) && Unmarked(defs) && NoNumber(items)
    ensures Nested(ItemsOut(p, defs, d, items), open)
    decreases d, 0, |items|
  {
    if items != [] {
      FirstNests(p, defs, d, items[0], open);
      ItemsNest(p, defs, d, items[1..], open);
      NestedThen(FirstOut(p, defs, d, items[0]), ItemsOut(p, defs, d, items[1..]), open);
    }
  }

  lemma {:induction false} FirstNests(p: Program, defs: seq<Event>, d: nat, i: Item, open: seq<nat>)
    requires p.Valid() && Marked(p) && Unmarked(defs) && !i.Number?
    ensures Nested(FirstOut(p, defs, d, i), open)
    decreases d, 0, 0
  {
    match i {
      case Section(n) =>
        if n < |p.equiv| && p.equiv[n] > 0 && d > 0 {
          ChainNests(p, defs, d - 1, p.equiv[n], 0, open);
        }
      case Verbatim(mark, content) =>
        PlainEvents(content);
        NestUnmarked(ItemEvents(i), open);
      case Defs =>
        NestUnmarked(defs, open);
      case _ =>
        NestUnmarked(ItemEvents(i), open);
    }
  }

  lemma {:induction false} SectionStays(items: seq<Item>, section: nat)
    requires NoNumber(items)
    ensures SectionAfter(items, section) == section
  {
    if items != [] {
      SectionStays(items[1..], section);
    }
  }

  // One text: its number opens a section, the end closes it.
  lemma TextNests(n: nat, o: Output, open: seq<nat>)
    requires Nested(o, open + [n])
    ensures Nested(Then(Then(Output([Open(n)], true), o), Output([Close(n)], true)), open)
  {
    NestSplit([Open(n)], o.out, open);
    assert Nest([Open(n)], open) == Some(open + [n]);
    if o.ok {
      NestSplit([Open(n)] + o.out, [Close(n)], open);
      assert (open + [n])[..|open|] == open;
    }
  }

  /** The markers of any expansion nest: each closes the innermost open section, and a
      completed expansion closes all that it opens. */
  lemma {:induction false} ChainNests(p: Program, defs: seq<Event>, d: nat, t: nat, section: nat, open: seq<nat>)
    requires p.Valid() && Marked(p) && Unmarked(defs) && p.OnChain(t)
    ensures Nested(ChainOut(p, defs, d, t, section), open)
    decreases d, 1, |p.items| - t
  {
    var items := p.items[t];
    var n, rest := items[0].n, items[1..];
    ItemsNest(p, defs, d, rest, open + [n]);
    SectionStays(rest, n);
    assert items == [items[0]] + rest;
    TextNests(n, ItemsOut(p, defs, d, rest), open);
    var here := Then(Then(Output([Open(n)], true), ItemsOut(p, defs, d, rest)), Output([Close(n)], true));
    assert ItemsOut(p, defs, d, items) == Then(Output([Open(n)], true), ItemsOut(p, defs, d, rest));
    if p.links[t] < SECTION_FLAG {
      ChainNests(p, defs, d, p.links[t], n, open);
      NestedThen(here, ChainOut(p, defs, d, p.links[t], n), open);
    }
  }
}
