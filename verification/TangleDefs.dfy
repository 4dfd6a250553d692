// The preprocessor definitions in CTANGLE's output (cweb/ctangle.c:679-717), and
// output files whose section is missing (cweb/ctangle.c:654-670).

module TangleDefs {
  import opened Basics
  import opened TangleTokens
  import opened TangleExpansion
  import opened TangleMarkers
  import opened TangleChains
  import opened Iteration

  /** A macro's text without the newline that ends it. */
  function MacroEvents(items: seq<Item>): seq<Event> {
    if items == [] || items == [Char(NEWLINE)] then []
    else ItemEvents(items[0]) + MacroEvents(items[1..])
  }

  /** The definitions of all macros from text t on, in the order of the source. */
  function DefsFrom(h: seq<Entry>, t: nat): seq<Event>
    decreases |h| + 1 - t
  {
    if t == 0 || t > |h| then []
    else (if h[t-1].Macro? then [DefStart] + MacroEvents(h[t-1].items) + [DefEnd] else []) + DefsFrom(h, t + 1)
  }

  function AllDefs(h: seq<Entry>): seq<Event> { DefsFrom(h, 1) }

  lemma {:induction false} MacroIsPlain(items: seq<Item>)
    requires forall i :: 0 <= i < |items| ==> items[i].Char? || items[i].Verbatim? || items[i].Ident?
    ensures Unmarked(MacroEvents(items))
  {
    if items != [] {
      if items[0].Verbatim? {
        PlainEvents(items[0].content);
      }
      MacroIsPlain(items[1..]);
    }
  }

  lemma {:induction false} DefsUnmarked(h: seq<Entry>, names: nat, t: nat)
    requires Source(h, names)
    ensures Unmarked(DefsFrom(h, t))
    decreases |h| + 1 - t
  {
    if 0 < t <= |h| {
      DefsUnmarked(h, names, t + 1);
      if h[t-1].Macro? {
        assert Scanned(h[t-1], names);
        MacroIsPlain(h[t-1].items);
      }
    }
  }

  /** The section markers of any program nest, whatever it contains. */
  lemma MarkersNest(h: seq<Entry>, names: nat, d: nat, name: nat, open: seq<nat>)
    requires Source(h, names) && name < names
    ensures Nested(Expansion(h, AllDefs(h), d, name, 1), open)
  {
    var p, defs := ProgramOf(h, names), AllDefs(h);
    if Head(h, name) > 0 {
      ProgramIsValid(h, names, p);
      ProgramIsMarked(h, names);
      DefsUnmarked(h, names, 1);
      HeadMeans(h, names, p, defs, d, name, 0);
      ChainNests(p, defs, d, Head(h, name), 0, open);
    } else {
      NextIsNext(h, name, 1);
      ExpansionSkips(h, defs, d, name, 1);
    }
  }

  // A name means what its chain expands to.
  lemma HeadMeans(h: seq<Entry>, names: nat, p: Program, defs: seq<Event>, d: nat, name: nat, section: nat)
    requires Source(h, names) && p == ProgramOf(h, names) && Head(h, name) > 0
    ensures p.OnChain(Head(h, name)) && ChainOut(p, defs, d, Head(h, name), section) == Expansion(h, defs, d, name, 1)
  {
    var t := Head(h, name);
    NextIsNext(h, name, 1);
    assert At(h, name, t);
    TextAt(h, names, p, t);
    ExpansionSkips(h, defs, d, name, 1);
    ChainExpands(h, names, p, defs, d, t, section);
  }

  // ---------- a missing output file

  /** The state in which the text t starts at the bottom of the stack. */
  function Start(img: Image, t: nat, section: nat, out: seq<Event>): Machine
    requires t + 1 < |img.starts|
  {
    Machine([], FrameOf(img, t, section), true, false, false, out)
  }

  /** The name whose definition is what an output file gets: the unnamed program if its
      own name has none. */
  function Root(h: seq<Entry>, name: nat): nat {
    if Defined(h, name) then name else 0
  }

  /** A name is run from its first text, or from text 0, which is empty and linked to the
      unnamed program, if it has none. In the latter case the first thing that comes out
      closes the section that the run before this one left behind. */
  function FileOut(h: seq<Entry>, defs: seq<Event>, name: nat, section: nat): Output {
    if name > 0 && Defined(h, name) then Expansion(h, defs, STACK_SIZE - 1, name, 1)
    else Then(Output(Closing(section), true), Expansion(h, defs, STACK_SIZE - 1, 0, 1))
  }

  /** The markers of an output file nest exactly if it has a definition, or no section was
      left behind. */
  lemma FileNestsExactly(h: seq<Entry>, names: nat, name: nat, section: nat)
    requires Source(h, names) && name < names
    ensures Nested(FileOut(h, AllDefs(h), name, section), []) <==> (name > 0 && Defined(h, name)) || section == 0
  {
    var defs := AllDefs(h);
    if name > 0 && Defined(h, name) {
      MarkersNest(h, names, STACK_SIZE - 1, name, []);
    } else {
      var o := Expansion(h, defs, STACK_SIZE - 1, 0, 1);
      MarkersNest(h, names, STACK_SIZE - 1, 0, []);
      if section == 0 {
        assert [] + o.out == o.out;
      } else {
        NestSplit([Close(section)], o.out, []);
      }
    }
  }

  /** `m` is at text 0 and no C text is unnamed. */
  ghost predicate Spinning(img: Image, m: Machine, section: nat) {
    && m.active && !m.overflow && m.saved == [] && |img.starts| > 1 && m.cur == FrameOf(img, 0, section)
    && img.starts[0] == img.starts[1] && |img.links| > 0 && img.links[0] == 0
  }

  lemma SpinsOn(img: Image, defs: seq<Event>, step: Machine -> Machine, m: Machine, section: nat)
    requires Steps(step, img, defs) && Spinning(img, m, section)
    ensures Spinning(img, step(m), section)
  {
    StepPop(img, defs, step, m);
  }

  lemma {:induction false} SpinsForever(img: Image, defs: seq<Event>, step: Machine -> Machine, m: Machine, section: nat, n: nat)
    requires Steps(step, img, defs) && Spinning(img, m, section)
    ensures Spinning(img, Iterate(step, m, n), section)
    decreases n
  {
    if n > 0 {
      SpinsForever(img, defs, step, m, section, n - 1);
      SpinsOn(img, defs, step, Iterate(step, m, n - 1), section);
    }
  }

  predicate Stopped(m: Machine) { !m.active || m.overflow }

  /** The end of a run that has output o and leaves a section behind. */
  predicate Ended(r: Machine, out: seq<Event>, o: Output, section: nat) {
    r.out == out + o.out
    && if o.ok then !r.active && !r.overflow && !r.verbatim && r.saved == [] && r.cur.section == section else r.overflow
  }

  /** The run of an output file ends, in completion or in overflow, exactly if its name or
      the unnamed program is defined. */
  lemma FileEndsExactly(h: seq<Entry>, names: nat, img: Image, defs: seq<Event>, step: Machine -> Machine, name: nat, section: nat, out: seq<Event>)
    requires Source(h, names) && Represents(img, ProgramOf(h, names)) && Steps(step, img, defs) && name < names
    ensures (exists n: nat :: Stopped(Iterate(step, Start(img, img.equiv[name], section, out), n)))
       <==> Defined(h, name) || Defined(h, 0)
  {
    var p := ProgramOf(h, names);
    HeadOfName(h, names, p, name);
    HeadIffDefined(h, 0);
    if Defined(h, Root(h, name)) {
      var n := RunFile(h, names, img, defs, step, name, section, out);
      assert Stopped(Iterate(step, Start(img, img.equiv[name], section, out), n));
    } else {
      MissingFileSpins(h, names, p, img, section, out);
      forall n: nat
        ensures !Stopped(Iterate(step, Start(img, 0, section, out), n))
      {
        SpinsForever(img, defs, step, Start(img, 0, section, out), section, n);
      }
    }
  }

  /** Without any definition the machine starts at text 0, and that leads nowhere. */
  lemma MissingFileSpins(h: seq<Entry>, names: nat, p: Program, img: Image, section: nat, out: seq<Event>)
    requires Source(h, names) && p == ProgramOf(h, names) && Represents(img, p) && !Defined(h, 0)
    ensures |img.starts| > 1 && Spinning(img, Start(img, 0, section, out), section)
  {
    HeadIffDefined(h, 0);
    assert HoldsText(img, 0, p.items[0]);
    EmptyText(img, p.items[0]);
    assert img.links[0] == LinkOf(h, 0);
  }

  /** Running from the first text of a name, or from text 0. */
  lemma RunFile(h: seq<Entry>, names: nat, img: Image, defs: seq<Event>, step: Machine -> Machine, name: nat, section: nat, out: seq<Event>)
    returns (n: nat)
    requires Source(h, names) && Represents(img, ProgramOf(h, names)) && Steps(step, img, defs) && name < names
    requires Defined(h, Root(h, name))
    ensures Ended(Iterate(step, Start(img, img.equiv[name], section, out), n), out,
                  FileOut(h, defs, name, section), SectionFrom(h, Root(h, name), 1, section))
  {
    var p := ProgramOf(h, names);
    HeadOfName(h, names, p, name);
    HeadIffDefined(h, Root(h, name));
    if name > 0 && Defined(h, name) {
      n := RunHead(h, names, p, img, defs, step, name, section, out);
    } else {
      n := RunUnnamed(h, names, p, img, defs, step, section, out);
    }
  }

  lemma RunHead(h: seq<Entry>, names: nat, p: Program, img: Image, defs: seq<Event>, step: Machine -> Machine, name: nat, section: nat, out: seq<Event>)
    returns (n: nat)
    requires Source(h, names) && p == ProgramOf(h, names) && Represents(img, p) && Steps(step, img, defs) && name < names && Head(h, name) > 0
    ensures Head(h, name) + 1 < |img.starts|
    ensures Ended(Iterate(step, Start(img, Head(h, name), section, out), n), out,
                  Expansion(h, defs, STACK_SIZE - 1, name, 1), SectionFrom(h, name, 1, section))
  {
    HeadMeans(h, names, p, defs, STACK_SIZE - 1, name, section);
    HeadSection(h, names, p, name, section);
    n := RunStart(p, img, defs, step, Head(h, name), section, out);
  }

  lemma HeadSection(h: seq<Entry>, names: nat, p: Program, name: nat, section: nat)
    requires Source(h, names) && p == ProgramOf(h, names) && Head(h, name) > 0
    ensures ChainSection(p, Head(h, name), section) == SectionFrom(h, name, 1, section)
  {
    var t := Head(h, name);
    NextIsNext(h, name, 1);
    assert At(h, name, t);
    SectionSkips(h, name, 1, section);
    ProgramAgrees(h, names, p);
    ChainSectionMeans(h, p, t, section);
  }

  lemma RunStart(p: Program, img: Image, defs: seq<Event>, step: Machine -> Machine, t: nat, section: nat, out: seq<Event>)
    returns (n: nat)
    requires Represents(img, p) && Steps(step, img, defs) && p.OnChain(t)
    ensures t + 1 < |img.starts|
    ensures Ended(Iterate(step, Start(img, t, section, out), n), out, ChainOut(p, defs, STACK_SIZE - 1, t, section), ChainSection(p, t, section))
  {
    n := RunChain(p, img, defs, step, Start(img, t, section, out), t, STACK_SIZE - 1);
  }

  lemma RunUnnamed(h: seq<Entry>, names: nat, p: Program, img: Image, defs: seq<Event>, step: Machine -> Machine, section: nat, out: seq<Event>)
    returns (n: nat)
    requires Source(h, names) && p == ProgramOf(h, names) && Represents(img, p) && Steps(step, img, defs) && Head(h, 0) > 0
    ensures |img.starts| > 1
    ensures Ended(Iterate(step, Start(img, 0, section, out), n), out,
                  Then(Output(Closing(section), true), Expansion(h, defs, STACK_SIZE - 1, 0, 1)), SectionFrom(h, 0, 1, section))
  {
    StartEmpty(h, names, p, img, defs, step, section, out);
    var n1 := RunHead(h, names, p, img, defs, step, 0, section, out + Closing(section));
    IterateFirst(step, Start(img, 0, section, out), n1);
    n := n1 + 1;
    EndedAfter(Iterate(step, Start(img, 0, section, out), n), out, Closing(section), Expansion(h, defs, STACK_SIZE - 1, 0, 1),
               SectionFrom(h, 0, 1, section));
  }

  lemma EndedAfter(r: Machine, out: seq<Event>, first: seq<Event>, o: Output, section: nat)
    requires Ended(r, out + first, o, section)
    ensures Ended(r, out, Then(Output(first, true), o), section)
  {
    assert out + first + o.out == out + (first + o.out);
  }

  lemma StartEmpty(h: seq<Entry>, names: nat, p: Program, img: Image, defs: seq<Event>, step: Machine -> Machine, section: nat, out: seq<Event>)
    requires Source(h, names) && p == ProgramOf(h, names) && Represents(img, p) && Steps(step, img, defs) && Head(h, 0) > 0
    ensures Head(h, 0) + 1 < |img.starts|
    ensures step(Start(img, 0, section, out)) == Start(img, Head(h, 0), section, out + Closing(section))
  {
    NextIsNext(h, 0, 1);
    assert HoldsText(img, 0, p.items[0]);
    EmptyText(img, p.items[0]);
    StepPop(img, defs, step, Start(img, 0, section, out));
    assert img.links[0] == Head(h, 0);
  }

  lemma EmptyText(img: Image, items: seq<Item>)
    requires items == [] && HoldsText(img, 0, items)
    ensures img.starts[0] == img.starts[1]
  {
    assert |img.mem[img.starts[0]..img.starts[1]]| == 0;
  }

  // ---------- the files of a program

  function NameOut(h: seq<Entry>, name: nat): Output {
    Expansion(h, AllDefs(h), STACK_SIZE - 1, name, 1)
  }

  predicate FileFits(h: seq<Entry>, name: nat) { NameOut(h, Root(h, name)).ok }

  predicate UnnamedFits(h: seq<Entry>) { NameOut(h, 0).ok }

  /** No expansion needs more stack than there is. */
  predicate AllFilesFit(h: seq<Entry>, outputs: seq<nat>) {
    UnnamedFits(h) && OthersFit(h, outputs)
  }

  predicate OthersFit(h: seq<Entry>, outputs: seq<nat>) {
    forall i :: 0 <= i < |outputs| ==> FileFits(h, outputs[i])
  }

  lemma FileFitsIffRoot(h: seq<Entry>, name: nat, section: nat)
    requires name > 0
    ensures FileOut(h, AllDefs(h), name, section).ok <==> FileFits(h, name)
  {
  }

  lemma OneFits(h: seq<Entry>, outputs: seq<nat>, i: nat)
    requires i < |outputs| && OthersFit(h, outputs[..i])
    ensures FileFits(h, outputs[i]) ==> OthersFit(h, outputs[..i+1])
    ensures !FileFits(h, outputs[i]) ==> !OthersFit(h, outputs)
  {
    if FileFits(h, outputs[i]) {
      var more := outputs[..i+1];
      forall j | 0 <= j < |more|
        ensures FileFits(h, more[j])
      {
        assert j < i ==> more[j] == outputs[..i][j];
      }
    }
  }

  /** The C file: the definitions stand in front unless the source says where. */
  ghost function MainFile(h: seq<Entry>): seq<Event> {
    (if AsksForDefs(h) then [] else AllDefs(h)) + if Defined(h, 0) then NameOut(h, 0).out + [Out(NEWLINE)] else []
  }

  /** The section that is left behind by the unnamed program and then by each of the files. */
  function LeftBehind(h: seq<Entry>, outputs: seq<nat>): nat {
    if outputs == [] then SectionFrom(h, 0, 1, 0)
    else
      var n := |outputs| - 1;
      SectionFrom(h, Root(h, outputs[n]), 1, LeftBehind(h, outputs[..n]))
  }

  /** What the last of the files gets. */
  function LastFile(h: seq<Entry>, outputs: seq<nat>): Output
    requires outputs != []
  {
    var n := |outputs| - 1;
    FileOut(h, AllDefs(h), outputs[n], LeftBehind(h, outputs[..n]))
  }

  function OtherFiles(h: seq<Entry>, outputs: seq<nat>): seq<seq<Event>> {
    if outputs == [] then []
    else OtherFiles(h, outputs[..|outputs|-1]) + [LastFile(h, outputs).out + [Out(NEWLINE)]]
  }

  lemma OneFileMore(h: seq<Entry>, outputs: seq<nat>, i: nat, out: seq<Event>)
    requires i < |outputs| && out == FileOut(h, AllDefs(h), outputs[i], LeftBehind(h, outputs[..i])).out + [Out(NEWLINE)]
    ensures OtherFiles(h, outputs[..i+1]) == OtherFiles(h, outputs[..i]) + [out]
    ensures LeftBehind(h, outputs[..i+1]) == SectionFrom(h, Root(h, outputs[i]), 1, LeftBehind(h, outputs[..i]))
  {
    assert outputs[..i+1][..i] == outputs[..i];
  }

  /** If there is an unnamed program, there is always a section left behind. */
  lemma {:induction false} SectionLeftBehind(h: seq<Entry>, names: nat, outputs: seq<nat>)
    requires Source(h, names) && Defined(h, 0)
    ensures LeftBehind(h, outputs) > 0
    decreases |outputs|
  {
    HeadIffDefined(h, 0);
    if outputs == [] {
      SectionPositive(h, names, 0, 1, 0);
    } else {
      var n := |outputs| - 1;
      SectionLeftBehind(h, names, outputs[..n]);
      SectionPositive(h, names, Root(h, outputs[n]), 1, LeftBehind(h, outputs[..n]));
    }
  }

  /** In what CTANGLE writes, the markers of an output file nest if and only if the file
      has a definition: one that gets the unnamed program begins with a stray closing mark. */
  lemma FilesNestIffDefined(h: seq<Entry>, names: nat, outputs: seq<nat>)
    requires Source(h, names) && outputs != [] && 0 < outputs[|outputs|-1] < names
    requires Defined(h, Root(h, outputs[|outputs|-1]))
    ensures Nested(LastFile(h, outputs), []) <==> Defined(h, outputs[|outputs|-1])
  {
    var n := |outputs| - 1;
    FileNestsExactly(h, names, outputs[n], LeftBehind(h, outputs[..n]));
    if Defined(h, 0) { SectionLeftBehind(h, names, outputs[..n]); }
  }

  lemma NothingUnnamed(h: seq<Entry>)
    requires |h| < MAX_TEXTS && !Defined(h, 0)
    ensures UnnamedFits(h) && SectionFrom(h, 0, 1, 0) == 0
  {
    HeadIffDefined(h, 0);
    NextIsNext(h, 0, 1);
    SectionSkips(h, 0, 1, 0);
    ExpansionSkips(h, AllDefs(h), STACK_SIZE - 1, 0, 1);
  }
}
