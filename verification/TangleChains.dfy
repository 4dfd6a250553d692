// How CTANGLE's first phase chains the replacement texts of a name together, and what
// a whole program means (cweb/ctangle.c:415-426, 1388-1406, 1413-1460).

module TangleChains {
  import opened TangleTokens
  import opened TangleExpansion
  import opened TangleMarkers

  /** The replacement texts in the order of the source: macros, and C texts that define
      (more of) a section name. Name 0 is the unnamed program. */
  datatype Entry =
    | Macro(items: seq<Item>)
    | Part(name: nat, section: nat, body: seq<Item>)
  {
    predicate Defines(n: nat) { Part? && name == n }
  }

  /** What the scanner can produce when there are `names` names. */
  ghost predicate Scanned(e: Entry, names: nat) {
    var items := TextOf(e);
    && AllFit(items) && AllClean(items)
    && match e
       case Macro(_) => forall i :: 0 <= i < |items| ==> items[i].Char? || items[i].Verbatim? || items[i].Ident?
       case Part(name, section, body) => name < names && section > 0 && NoNumber(body) && Known(names, body)
  }

  predicate Known(names: nat, items: seq<Item>) {
    forall i :: 0 <= i < |items| && items[i].Section? ==> items[i].n < names
  }

  ghost predicate Source(h: seq<Entry>, names: nat) {
    |h| < MAX_TEXTS && names > 0 && forall i :: 0 <= i < |h| ==> Scanned(h[i], names)
  }

  /** The first token of every C text is the number of its section. */
  function TextOf(e: Entry): seq<Item> {
    match e
    case Macro(items) => items
    case Part(_, section, body) => [Number(section)] + body
  }

  // ---------- chains

  /** Text t, which comes from entry t - 1, defines the name. */
  predicate At(h: seq<Entry>, name: nat, t: nat) {
    0 < t <= |h| && h[t-1].Defines(name)
  }

  /** The first text from t on that defines the name. */
  function Next(h: seq<Entry>, name: nat, t: nat): nat
    decreases |h| + 1 - t
  {
    if t == 0 || t > |h| then SECTION_FLAG
    else if At(h, name, t) then t
    else Next(h, name, t + 1)
  }

  function Head(h: seq<Entry>, name: nat): nat {
    if Next(h, name, 1) < SECTION_FLAG then Next(h, name, 1) else 0
  }

  /** The link of text t: macros have 0, and text 0 stands before the unnamed texts. */
  function LinkOf(h: seq<Entry>, t: nat): nat
    requires t <= |h|
  {
    if t == 0 then Head(h, 0)
    else if h[t-1].Macro? then 0
    else Next(h, h[t-1].name, t + 1)
  }

  function LinksOf(h: seq<Entry>): seq<nat> {
    seq(|h| + 1, t requires 0 <= t <= |h| => LinkOf(h, t))
  }

  function HeadsOf(h: seq<Entry>, names: nat): seq<nat> {
    seq(names, (n: nat) => if n == 0 then 0 else Head(h, n))
  }

  function TextsOf(h: seq<Entry>): seq<seq<Item>> {
    [[]] + seq(|h|, i requires 0 <= i < |h| => TextOf(h[i]))
  }

  /** The program that the first phase leaves. */
  function ProgramOf(h: seq<Entry>, names: nat): Program {
    Program(TextsOf(h), LinksOf(h), HeadsOf(h, names))
  }

  lemma {:induction false} NextIsNext(h: seq<Entry>, name: nat, t: nat)
    requires |h| < MAX_TEXTS && t > 0
    ensures var n := Next(h, name, t);
            && (n < SECTION_FLAG ==> t <= n <= |h| && At(h, name, n))
            && (forall u :: t <= u < n ==> !At(h, name, u))
            && n <= SECTION_FLAG
    decreases |h| + 1 - t
  {
    if t <= |h| && !At(h, name, t) {
      NextIsNext(h, name, t + 1);
    }
  }

  /** The texts that follow from t by links. */
  function Follow(p: Program, t: nat): seq<nat>
    decreases if t < |p.links| then |p.links| - t else 0
  {
    if t == 0 || t >= |p.links| then []
    else [t] + if t < p.links[t] < SECTION_FLAG then Follow(p, p.links[t]) else []
  }

  /** The texts that define the name, in the order of the source. */
  function Defining(h: seq<Entry>, name: nat): seq<nat> {
    if h == [] then []
    else
      var n := |h|;
      Defining(h[..n-1], name) + if At(h, name, n) then [n] else []
  }

  // The same texts, collected forwards.
  function DefiningFrom(h: seq<Entry>, name: nat, t: nat): seq<nat>
    decreases |h| + 1 - t
  {
    if t == 0 || t > |h| then []
    else (if At(h, name, t) then [t] else []) + DefiningFrom(h, name, t + 1)
  }

  lemma {:induction false} DefiningSplits(h: seq<Entry>, name: nat, t: nat)
    requires 0 < t <= |h| + 1
    ensures Defining(h, name) == Defining(h[..t-1], name) + DefiningFrom(h, name, t)
    decreases |h| + 1 - t
  {
    if t == |h| + 1 {
      assert h[..t-1] == h;
    } else {
      DefiningSplits(h, name, t + 1);
      assert h[..t][..t-1] == h[..t-1];
    }
  }

  lemma {:induction false} DefiningSkips(h: seq<Entry>, name: nat, t: nat)
    requires |h| < MAX_TEXTS && t > 0
    ensures var n := Next(h, name, t);
            DefiningFrom(h, name, t) == if n < SECTION_FLAG then [n] + DefiningFrom(h, name, n + 1) else []
    decreases |h| + 1 - t
  {
    if t <= |h| && !At(h, name, t) {
      DefiningSkips(h, name, t + 1);
      assert DefiningFrom(h, name, t) == DefiningFrom(h, name, t + 1);
      assert Next(h, name, t) == Next(h, name, t + 1);
    }
  }

  lemma {:induction false} FollowFrom(h: seq<Entry>, names: nat, t: nat)
    requires |h| < MAX_TEXTS && 0 < t <= |h| && h[t-1].Part?
    ensures Follow(ProgramOf(h, names), t) == [t] + DefiningFrom(h, h[t-1].name, t + 1)
    decreases |h| + 1 - t
  {
    var name := h[t-1].name;
    NextIsNext(h, name, t + 1);
    DefiningSkips(h, name, t + 1);
    if Next(h, name, t + 1) < SECTION_FLAG {
      FollowFrom(h, names, Next(h, name, t + 1));
    }
  }

  /** A name's chain lists exactly the texts that define it, in the order of the source. */
  lemma {:induction false} ChainsAreDefinitions(h: seq<Entry>, names: nat, name: nat)
    requires |h| < MAX_TEXTS && name < names
    ensures var p := ProgramOf(h, names);
            Follow(p, if name == 0 then p.links[0] else p.equiv[name]) == Defining(h, name)
  {
    var p := ProgramOf(h, names);
    assert p.links[0] == Head(h, 0);
    NextIsNext(h, name, 1);
    DefiningSkips(h, name, 1);
    DefiningSplits(h, name, 1);
    assert Defining(h[..0], name) == [];
    if Next(h, name, 1) < SECTION_FLAG {
      FollowFrom(h, names, Next(h, name, 1));
    }
  }

  predicate Increasing(ts: seq<nat>) {
    forall i, j :: 0 <= i < j < |ts| ==> ts[i] < ts[j]
  }

  /** Chains are increasing; every text is on the chain of its own name and on no other,
      macros are on none. */
  lemma {:induction false} DefiningExactly(h: seq<Entry>, name: nat)
    ensures forall t :: t in Defining(h, name) <==> At(h, name, t)
    ensures Increasing(Defining(h, name))
    decreases |h|
  {
    if h != [] {
      DefiningExactly(h[..|h|-1], name);
      var before, ts := Defining(h[..|h|-1], name), Defining(h, name);
      forall t: nat
        ensures t in ts <==> At(h, name, t)
      {
        assert t in ts <==> t in before || (t == |h| && At(h, name, |h|));
        assert t < |h| ==> (At(h[..|h|-1], name, t) <==> At(h, name, t));
      }
      forall i | 0 <= i < |before|
        ensures before[i] < |h|
      {
        assert before[i] in before;
        assert At(h[..|h|-1], name, before[i]);
      }
      assert ts == before || ts == before + [|h|];
    }
  }

  // Text t of the program.
  lemma TextAt(h: seq<Entry>, names: nat, p: Program, t: nat)
    requires Source(h, names) && p == ProgramOf(h, names) && 0 < t <= |h|
    ensures |p.items| == |p.links| == |h| + 1
    ensures p.items[t] == TextOf(h[t-1]) && Scanned(h[t-1], names) && p.links[t] == LinkOf(h, t)
    ensures 0 < p.links[t] < SECTION_FLAG ==> t < p.links[t] <= |h| && h[p.links[t]-1].Part?
    ensures p.OnChain(t) <==> h[t-1].Part?
  {
    Indexed(h, names, p, t);
    LinkLeads(h, t);
  }

  lemma Indexed(h: seq<Entry>, names: nat, p: Program, t: nat)
    requires |h| < MAX_TEXTS && p == ProgramOf(h, names) && 0 < t <= |h|
    ensures |p.items| == |p.links| == |h| + 1 && p.items[t] == TextOf(h[t-1]) && p.links[t] == LinkOf(h, t)
  {
  }

  lemma LinkLeads(h: seq<Entry>, t: nat)
    requires |h| < MAX_TEXTS && 0 < t <= |h|
    ensures var l := LinkOf(h, t);
            && (l == 0 <==> h[t-1].Macro?) && (0 < l < SECTION_FLAG ==> t < l <= |h| && h[l-1].Part?)
  {
    if h[t-1].Part? {
      NextIsNext(h, h[t-1].name, t + 1);
    }
  }

  lemma NamesKnown(h: seq<Entry>, names: nat, p: Program, t: nat, i: nat)
    requires Source(h, names) && p == ProgramOf(h, names) && t <= |h| && i < |p.items[t]| && p.items[t][i].Section?
    ensures p.items[t][i].n < names
  {
    if t > 0 {
      TextAt(h, names, p, t);
      if h[t-1].Part? {
        assert i > 0 && p.items[t][i] == h[t-1].body[i-1];
      }
    }
  }

  lemma TextsFit(h: seq<Entry>, names: nat, p: Program, t: nat)
    requires Source(h, names) && p == ProgramOf(h, names) && t <= |h|
    ensures AllFit(p.items[t]) && AllClean(p.items[t])
  {
    if t > 0 {
      TextAt(h, names, p, t);
    }
  }

  lemma TextsMarked(h: seq<Entry>, names: nat, p: Program, t: nat)
    requires Source(h, names) && p == ProgramOf(h, names) && p.OnChain(t)
    ensures p.items[t] != [] && p.items[t][0].Number? && p.items[t][0].n > 0 && NoNumber(p.items[t][1..])
  {
    TextAt(h, names, p, t);
    assert p.items[t][1..] == h[t-1].body;
  }

  lemma ProgramIsMarked(h: seq<Entry>, names: nat)
    requires Source(h, names)
    ensures Marked(ProgramOf(h, names))
  {
    var p := ProgramOf(h, names);
    forall t: nat | p.OnChain(t)
      ensures p.items[t] != [] && p.items[t][0].Number? && p.items[t][0].n > 0 && NoNumber(p.items[t][1..])
    {
      TextsMarked(h, names, p, t);
    }
  }

  lemma LinksLead(h: seq<Entry>, names: nat, p: Program, t: nat)
    requires Source(h, names) && p == ProgramOf(h, names) && 0 < t < |p.items| && 0 < p.links[t] < SECTION_FLAG
    ensures t < p.links[t] < |p.items| && p.OnChain(p.links[t])
  {
    TextAt(h, names, p, t);
    TextAt(h, names, p, p.links[t]);
  }

  lemma HeadsLead(h: seq<Entry>, names: nat, p: Program, n: nat)
    requires Source(h, names) && p == ProgramOf(h, names) && n < names
    ensures p.equiv[n] < |p.items| && (p.equiv[n] > 0 ==> p.OnChain(p.equiv[n]))
  {
    NextIsNext(h, n, 1);
    if p.equiv[n] > 0 {
      TextAt(h, names, p, p.equiv[n]);
    }
  }

  /** The chains lead forwards and stay among the C texts. */
  lemma ProgramIsValid(h: seq<Entry>, names: nat, p: Program)
    requires Source(h, names) && p == ProgramOf(h, names)
    ensures p.Valid()
  {
    forall t: nat | t < |p.items| ensures AllFit(p.items[t]) && AllClean(p.items[t]) {
      TextsFit(h, names, p, t);
    }
    forall t: nat | 0 < t < |p.items| && 0 < p.links[t] < SECTION_FLAG
      ensures t < p.links[t] < |p.items| && p.OnChain(p.links[t])
    {
      LinksLead(h, names, p, t);
    }
    forall n: nat | n < |p.equiv| ensures p.equiv[n] < |p.items| && (p.equiv[n] > 0 ==> p.OnChain(p.equiv[n])) {
      HeadsLead(h, names, p, n);
    }
    forall t, i | 0 <= t < |p.items| && 0 <= i < |p.items[t]| && p.items[t][i].Section?
      ensures p.items[t][i].n < |p.equiv|
    {
      NamesKnown(h, names, p, t, i);
    }
  }

  // ---------- a new text

  lemma {:induction false} NextAfterAppend(h: seq<Entry>, e: Entry, name: nat, t: nat)
    requires |h| + 1 < MAX_TEXTS && 0 < t <= |h| + 1
    ensures Next(h + [e], name, t) ==
            if Next(h, name, t) < SECTION_FLAG then Next(h, name, t) else if e.Defines(name) then |h| + 1 else SECTION_FLAG
    decreases |h| + 1 - t
  {
    if t <= |h| {
      NextAfterAppend(h, e, name, t + 1);
      NextIsNext(h, name, t + 1);
      assert (h + [e])[t-1] == h[t-1];
    } else {
      assert (h + [e])[t-1] == e;
      assert Next(h, name, t) == SECTION_FLAG;
    }
  }

  /** Text q is the last that defines the name so far; text 0 if there is none and the
      name is that of the unnamed program. */
  predicate Last(h: seq<Entry>, name: nat, q: nat) {
    && q <= |h|
    && (if q == 0 then name == 0 else At(h, name, q))
    && Next(h, name, q + 1) == SECTION_FLAG
  }

  /** Appending at the last text of a chain gives the chains of the longer program. */
  lemma AppendAtLast(h: seq<Entry>, e: Entry, q: nat)
    requires |h| + 1 < MAX_TEXTS && e.Part? && Last(h, e.name, q)
    ensures LinksOf(h + [e]) == LinksOf(h)[q := |h| + 1] + [SECTION_FLAG]
  {
    var was, now := LinksOf(h), LinksOf(h + [e]);
    forall t: nat | t <= |h| + 1
      ensures now[t] == (was[q := |h| + 1] + [SECTION_FLAG])[t]
    {
      LinkAfterAppend(h, e, q, t);
    }
  }

  lemma LinkAfterAppend(h: seq<Entry>, e: Entry, q: nat, t: nat)
    requires |h| + 1 < MAX_TEXTS && e.Part? && Last(h, e.name, q) && t <= |h| + 1
    ensures LinkOf(h + [e], t) == if t == |h| + 1 then SECTION_FLAG else if t == q then |h| + 1 else LinkOf(h, t)
  {
    var name := e.name;
    NextIsNext(h, name, q + 1);
    if t == |h| + 1 {
      assert (h + [e])[t-1] == e;
    } else if t == 0 {
      NextAfterAppend(h, e, 0, 1);
      NextIsNext(h, 0, 1);
      assert q > 0 && name == 0 ==> At(h, 0, q);
    } else {
      assert (h + [e])[t-1] == h[t-1];
      if h[t-1].Part? {
        var other := h[t-1].name;
        NextAfterAppend(h, e, other, t + 1);
        NextIsNext(h, other, t + 1);
        assert At(h, other, t);
        assert other == name ==> q != 0 || name == 0;
        if other == name && t < q {
          assert At(h, name, q);
        }
      }
    }
  }

  /** The first text of a name that had none. */
  lemma AppendFirst(h: seq<Entry>, e: Entry)
    requires |h| + 1 < MAX_TEXTS && e.Part? && e.name > 0 && Head(h, e.name) == 0
    ensures LinksOf(h + [e]) == LinksOf(h) + [SECTION_FLAG]
  {
    forall t: nat | t <= |h| + 1
      ensures LinkOf(h + [e], t) == if t == |h| + 1 then SECTION_FLAG else LinkOf(h, t)
    {
      LinkAfterFirst(h, e, t);
    }
  }

  lemma LinkAfterFirst(h: seq<Entry>, e: Entry, t: nat)
    requires |h| + 1 < MAX_TEXTS && e.Part? && e.name > 0 && Head(h, e.name) == 0 && t <= |h| + 1
    ensures LinkOf(h + [e], t) == if t == |h| + 1 then SECTION_FLAG else LinkOf(h, t)
  {
    NextIsNext(h, e.name, 1);
    if 0 < t <= |h| {
      assert (h + [e])[t-1] == h[t-1];
      if h[t-1].Part? {
        assert At(h, h[t-1].name, t) && !At(h, e.name, t);
        NextAfterAppend(h, e, h[t-1].name, t + 1);
        NextIsNext(h, h[t-1].name, t + 1);
      }
    } else if t == 0 {
      NextAfterAppend(h, e, 0, 1);
      NextIsNext(h, 0, 1);
    } else {
      assert (h + [e])[t-1] == e;
    }
  }

  lemma AppendHead(h: seq<Entry>, e: Entry, names: nat)
    requires |h| + 1 < MAX_TEXTS
    ensures HeadsOf(h + [e], names)
         == if e.Part? && 0 < e.name < names && Head(h, e.name) == 0 then HeadsOf(h, names)[e.name := |h| + 1] else HeadsOf(h, names)
  {
    forall n: nat | n < names
      ensures Head(h + [e], n) == if e.Defines(n) && Head(h, n) == 0 then |h| + 1 else Head(h, n)
    {
      NextAfterAppend(h, e, n, 1);
      NextIsNext(h, n, 1);
    }
  }

  lemma AppendMacro(h: seq<Entry>, e: Entry)
    requires |h| + 1 < MAX_TEXTS && e.Macro?
    ensures LinksOf(h + [e]) == LinksOf(h) + [0]
  {
    forall t: nat | t <= |h| + 1
      ensures LinksOf(h + [e])[t] == (LinksOf(h) + [0])[t]
    {
      if t == 0 {
        NextAfterAppend(h, e, 0, 1);
        NextIsNext(h, 0, 1);
      } else if t <= |h| {
        assert (h + [e])[t-1] == h[t-1];
        if h[t-1].Part? {
          NextAfterAppend(h, e, h[t-1].name, t + 1);
          NextIsNext(h, h[t-1].name, t + 1);
        }
      } else {
        assert (h + [e])[t-1] == e;
      }
    }
  }

  // ---------- what a program means

  /** The expansion of a name, said of the source alone: the texts that define it, from
      text t on, each between the markers of its section. */
  function Expansion(h: seq<Entry>, defs: seq<Event>, d: nat, name: nat, t: nat): Output
    decreases d, 1, |h| + 1 - t
  {
    if t == 0 || t > |h| then Output([], true)
    else if At(h, name, t) then
      Then(Then(Then(Output([Open(h[t-1].section)], true), Body(h, defs, d, h[t-1].body)), Output([Close(h[t-1].section)], true)),
           Expansion(h, defs, d, name, t + 1))
    else Expansion(h, defs, d, name, t + 1)
  }

  /** Some text asks for the macro definitions with `@h`. */
  ghost predicate AsksForDefs(h: seq<Entry>) {
    exists i: nat :: Asks(h, i)
  }

  predicate Asks(h: seq<Entry>, i: nat) {
    i < |h| && Defs in TextOf(h[i])
  }

  lemma AsksMore(h: seq<Entry>, e: Entry)
    ensures AsksForDefs(h + [e]) <==> AsksForDefs(h) || Defs in TextOf(e)
  {
    var h2 := h + [e];
    if i: nat :| Asks(h, i) { assert Asks(h2, i); }
    if Defs in TextOf(e) { assert Asks(h2, |h|); }
    if i: nat :| Asks(h2, i) { assert i < |h| ==> Asks(h, i); }
  }

  predicate Defined(h: seq<Entry>, n: nat) {
    exists e :: e in h && e.Defines(n)
  }

  /** Each reference to a name is replaced by the name's own expansion; the unnamed
      program cannot be referred to, and names without definition stand for nothing. */
  function Body(h: seq<Entry>, defs: seq<Event>, d: nat, items: seq<Item>): Output
    decreases d, 0, |items|
  {
    if items == [] then Output([], true)
    else Then(Meaning(h, defs, d, items[0]), Body(h, defs, d, items[1..]))
  }

  function Meaning(h: seq<Entry>, defs: seq<Event>, d: nat, i: Item): Output
    decreases d, 0, 0
  {
    match i
    case Section(n) =>
      if n == 0 || !Defined(h, n) then Output([], true)
      else if d == 0 then Output([], false)
      else Expansion(h, defs, d - 1, n, 1)
    case Defs => Output(if d == 0 then [] else defs, d > 0)
    case _ => Output(ItemEvents(i), true)
  }

  /** The section of the last text from t on that defines the name, or `section`. */
  function SectionFrom(h: seq<Entry>, name: nat, t: nat, section: nat): nat
    decreases |h| + 1 - t
  {
    if t == 0 || t > |h| then section
    else SectionFrom(h, name, t + 1, if At(h, name, t) then h[t-1].section else section)
  }

  lemma {:induction false} SectionSkips(h: seq<Entry>, name: nat, t: nat, section: nat)
    requires |h| < MAX_TEXTS && t > 0
    ensures SectionFrom(h, name, t, section)
         == if Next(h, name, t) < SECTION_FLAG then SectionFrom(h, name, Next(h, name, t), section) else section
    decreases |h| + 1 - t
  {
    if t <= |h| && !At(h, name, t) {
      SectionSkips(h, name, t + 1, section);
    }
  }

  lemma {:induction false} SectionPositive(h: seq<Entry>, names: nat, name: nat, t: nat, section: nat)
    requires Source(h, names) && t > 0
    ensures section > 0 || Next(h, name, t) < SECTION_FLAG ==> SectionFrom(h, name, t, section) > 0
    decreases |h| + 1 - t
  {
    if t <= |h| {
      assert Scanned(h[t-1], names);
      SectionPositive(h, names, name, t + 1, if At(h, name, t) then h[t-1].section else section);
    }
  }

  lemma {:induction false} ExpansionSkips(h: seq<Entry>, defs: seq<Event>, d: nat, name: nat, t: nat)
    requires |h| < MAX_TEXTS && t > 0
    ensures Expansion(h, defs, d, name, t)
         == if Next(h, name, t) < SECTION_FLAG then Expansion(h, defs, d, name, Next(h, name, t)) else Output([], true)
    decreases |h| + 1 - t
  {
    if t <= |h| && !At(h, name, t) {
      ExpansionSkips(h, defs, d, name, t + 1);
    }
  }

  lemma HeadIffDefined(h: seq<Entry>, n: nat)
    requires |h| < MAX_TEXTS
    ensures Head(h, n) > 0 <==> Defined(h, n)
  {
    NextIsNext(h, n, 1);
    if Head(h, n) > 0 {
      assert h[Head(h, n) - 1] in h;
    }
    if Defined(h, n) {
      var e :| e in h && e.Defines(n);
      var i :| 0 <= i < |h| && h[i] == e;
      assert At(h, n, i + 1);
    }
  }

  // Text t of the program is that of the source. (These facts are used only where they
  // are mentioned.)
  predicate TextIs(h: seq<Entry>, p: Program, t: nat)
    requires |p.items| == |p.links| == |h| + 1
  {
    0 < t <= |h| && h[t-1].Part? ==>
      var e := h[t-1];
      p.items[t] == [Number(e.section)] + e.body && p.links[t] == Next(h, e.name, t + 1)
      && e.section > 0 && NoNumber(e.body) && Known(|p.equiv|, e.body)
  }

  predicate FirstIs(h: seq<Entry>, p: Program, n: nat) {
    n < |p.equiv| ==> p.equiv[n] == (if n == 0 then 0 else Head(h, n)) && (p.equiv[n] == 0 <==> n == 0 || !Defined(h, n))
  }

  ghost predicate Agrees(h: seq<Entry>, p: Program) {
    && |h| < MAX_TEXTS && |p.items| == |p.links| == |h| + 1
    && (forall t: nat {:trigger TextIs(h, p, t)} :: TextIs(h, p, t))
    && (forall n: nat {:trigger FirstIs(h, p, n)} :: FirstIs(h, p, n))
  }

  lemma ProgramAgrees(h: seq<Entry>, names: nat, p: Program)
    requires Source(h, names) && p == ProgramOf(h, names)
    ensures Agrees(h, p)
  {
    forall t: nat
      ensures TextIs(h, p, t)
    {
      if 0 < t <= |h| {
        TextAt(h, names, p, t);
      }
    }
    forall n: nat
      ensures FirstIs(h, p, n)
    {
      HeadIffDefined(h, n);
    }
  }

  lemma HeadOfName(h: seq<Entry>, names: nat, p: Program, n: nat)
    requires Source(h, names) && p == ProgramOf(h, names) && n < names
    ensures n < |p.equiv| && (p.equiv[n] == 0 <==> n == 0 || !Defined(h, n)) && (n > 0 ==> p.equiv[n] == Head(h, n))
  {
    HeadIffDefined(h, n);
  }

  lemma {:induction false} BodyExpands(h: seq<Entry>, p: Program, defs: seq<Event>, d: nat, items: seq<Item>)
    requires Agrees(h, p) && Known(|p.equiv|, items)
    ensures ItemsOut(p, defs, d, items) == Body(h, defs, d, items)
    decreases d, 0, |items|
  {
    if items != [] {
      FirstExpands(h, p, defs, d, items[0]);
      BodyExpands(h, p, defs, d, items[1..]);
    }
  }

  lemma {:induction false} FirstExpands(h: seq<Entry>, p: Program, defs: seq<Event>, d: nat, i: Item)
    requires Agrees(h, p) && (i.Section? ==> i.n < |p.equiv|)
    ensures FirstOut(p, defs, d, i) == Meaning(h, defs, d, i)
    decreases d, 0, 0, 1
  {
    if i.Section? {
      assert FirstIs(h, p, i.n);
      if p.equiv[i.n] > 0 && d > 0 {
        HeadExpands(h, p, defs, d - 1, i.n);
      }
    }
  }

  lemma {:induction false} HeadExpands(h: seq<Entry>, p: Program, defs: seq<Event>, d: nat, n: nat)
    requires Agrees(h, p) && 0 < n < |p.equiv| && p.equiv[n] > 0
    ensures ChainOut(p, defs, d, p.equiv[n], 0) == Expansion(h, defs, d, n, 1)
    decreases d, 2
  {
    assert FirstIs(h, p, n);
    NextIsNext(h, n, 1);
    assert At(h, n, p.equiv[n]);
    ExpansionSkips(h, defs, d, n, 1);
    ChainMeans(h, p, defs, d, p.equiv[n], 0);
  }

  lemma {:induction false} ChainMeans(h: seq<Entry>, p: Program, defs: seq<Event>, d: nat, t: nat, section: nat)
    requires Agrees(h, p) && 0 < t <= |h| && h[t-1].Part?
    ensures ChainOut(p, defs, d, t, section) == Expansion(h, defs, d, h[t-1].name, t)
    decreases d, 1, |h| - t
  {
    var e, link := h[t-1], p.links[t];
    assert TextIs(h, p, t);
    var here := TextMeans(h, p, defs, d, t, section, e);
    NextIsNext(h, e.name, t + 1);
    ExpansionSkips(h, defs, d, e.name, t + 1);
    if link < SECTION_FLAG {
      ChainMeans(h, p, defs, d, link, e.section);
    } else {
      assert Then(here, Output([], true)).out == here.out;
    }
  }

  // One text: the number of its section, its body, and the closing mark.
  lemma {:induction false} TextMeans(h: seq<Entry>, p: Program, defs: seq<Event>, d: nat, t: nat, section: nat, e: Entry) returns (here: Output)
    requires Agrees(h, p) && 0 < t <= |h| && e == h[t-1] && e.Part?
    ensures here == Then(Then(Output([Open(e.section)], true), Body(h, defs, d, e.body)), Output([Close(e.section)], true))
    ensures here == Then(ItemsOut(p, defs, d, p.items[t]), Output([Close(e.section)], true))
    ensures SectionAfter(p.items[t], section) == e.section > 0
    decreases d, 1, |h| - t, 0
  {
    var items := p.items[t];
    assert TextIs(h, p, t);
    assert items[0] == Number(e.section) && items[1..] == e.body;
    SectionStays(e.body, e.section);
    BodyExpands(h, p, defs, d, e.body);
    var first := Output([Open(e.section)], true);
    assert FirstOut(p, defs, d, items[0]) == first;
    here := Then(Then(first, Body(h, defs, d, e.body)), Output([Close(e.section)], true));
  }

  /** The expansion by links is the expansion of the source. */
  lemma ChainExpands(h: seq<Entry>, names: nat, p: Program, defs: seq<Event>, d: nat, t: nat, section: nat)
    requires Source(h, names) && p == ProgramOf(h, names) && 0 < t <= |h| && h[t-1].Part?
    ensures ChainOut(p, defs, d, t, section) == Expansion(h, defs, d, h[t-1].name, t)
  {
    ProgramAgrees(h, names, p);
    ChainMeans(h, p, defs, d, t, section);
  }

  /** A chain leaves behind the section of its last text. */
  lemma {:induction false} ChainSectionMeans(h: seq<Entry>, p: Program, t: nat, section: nat)
    requires Agrees(h, p) && 0 < t <= |h| && h[t-1].Part?
    ensures ChainSection(p, t, section) == SectionFrom(h, h[t-1].name, t, section)
    decreases |h| - t
  {
    var e, link := h[t-1], p.links[t];
    assert TextIs(h, p, t);
    SectionStays(e.body, e.section);
    assert ([Number(e.section)] + e.body)[1..] == e.body;
    NextIsNext(h, e.name, t + 1);
    SectionSkips(h, e.name, t + 1, e.section);
    if link < SECTION_FLAG {
      ChainSectionMeans(h, p, link, e.section);
      assert At(h, e.name, link);
    }
  }
}
