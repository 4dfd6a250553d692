// What the C file begins with (cweb/ctangle.c:609-640, 682-717).

module TangleMain {
  import opened Basics
  import opened TangleTokens
  import opened TangleExpansion
  import opened TangleMarkers
  import opened TangleChains
  import opened TangleDefs

  // ---------- definitions in a file

  function EndAt(events: seq<Event>): (n: nat)
    ensures n <= |events|
  {
    if events == [] || events[0] == DefEnd then 0 else EndAt(events[1..]) + 1
  }

  /** What stands between the beginning and the end of each definition in a file. */
  function DefinitionsIn(events: seq<Event>): seq<seq<Event>>
    decreases |events|
  {
    if events == [] then []
    else if events[0] != DefStart then DefinitionsIn(events[1..])
    else
      var n := EndAt(events[1..]);
      [events[1..][..n]] + DefinitionsIn(events[1..][n..])
  }

  /** The macros of a source. */
  function MacrosOf(h: seq<Entry>): seq<seq<Item>> {
    if h == [] then [] else (if h[0].Macro? then [h[0].items] else []) + MacrosOf(h[1..])
  }

  /** What each macro stands for: its tokens, but for a newline at the end. */
  function Replacements(macros: seq<seq<Item>>): seq<seq<Event>> {
    if macros == [] then [] else [EventsOf(WithoutNewline(macros[0]))] + Replacements(macros[1..])
  }

  function WithoutNewline(items: seq<Item>): seq<Item> {
    if items != [] && items[|items|-1] == Char(NEWLINE) then items[..|items|-1] else items
  }

  function EventsOf(items: seq<Item>): seq<Event> {
    if items == [] then [] else ItemEvents(items[0]) + EventsOf(items[1..])
  }

  /** No definition begins or ends among the events. */
  predicate NoDefinition(events: seq<Event>) {
    DefStart !in events && DefEnd !in events
  }

  /** The program begins with the marker of its first section, if there is one. */
  predicate BeginsProgram(h: seq<Entry>, events: seq<Event>) {
    if Defined(h, 0) then
      && events != [] && 0 < Next(h, 0, 1) <= |h| && h[Next(h, 0, 1) - 1].Defines(0)
      && events[0] == Open(h[Next(h, 0, 1) - 1].section)
    else events == []
  }

  // ---------- a definition

  lemma {:induction false} MacroEventsMean(items: seq<Item>)
    ensures MacroEvents(items) == EventsOf(WithoutNewline(items))
    decreases |items|
  {
    if items != [] && items != [Char(NEWLINE)] {
      MacroEventsMean(items[1..]);
      if |items| > 1 {
        var t := WithoutNewline(items);
        assert t[0] == items[0] && t[1..] == WithoutNewline(items[1..]);
      } else {
        assert WithoutNewline(items) == items && WithoutNewline(items[1..]) == items[1..] == [];
      }
    }
  }

  lemma {:induction false} ContentIsPlain(content: seq<Byte>)
    ensures NoDefinition(ContentEvents(content))
  {
    if content != [] {
      ContentIsPlain(content[1..]);
    }
  }

  lemma ItemIsPlain(i: Item)
    ensures NoDefinition(ItemEvents(i))
  {
    if i.Verbatim? { ContentIsPlain(i.content); }
  }

  lemma {:induction false} MacroIsPlainText(items: seq<Item>)
    ensures NoDefinition(MacroEvents(items))
  {
    if items != [] {
      ItemIsPlain(items[0]);
      MacroIsPlainText(items[1..]);
    }
  }

  lemma {:induction false} EndAtEnd(events: seq<Event>, rest: seq<Event>)
    requires DefEnd !in events
    ensures EndAt(events + ([DefEnd] + rest)) == |events|
    decreases |events|
  {
    var all := events + ([DefEnd] + rest);
    if events != [] {
      assert all[0] == events[0] && events[0] in events;
      EndAtEnd(events[1..], rest);
      assert all[1..] == events[1..] + ([DefEnd] + rest);
    } else {
      assert all[0] == DefEnd;
    }
  }

  lemma {:induction false} PlainDefinitions(events: seq<Event>, rest: seq<Event>)
    requires DefStart !in events
    ensures DefinitionsIn(events + rest) == DefinitionsIn(rest)
    decreases |events|
  {
    if events == [] {
      assert events + rest == rest;
    } else {
      assert (events + rest)[0] == events[0] && events[0] in events;
      PlainDefinitions(events[1..], rest);
      assert (events + rest)[1..] == events[1..] + rest;
    }
  }

  lemma FirstDefinition(events: seq<Event>, rest: seq<Event>)
    requires NoDefinition(events)
    ensures DefinitionsIn([DefStart] + events + [DefEnd] + rest) == [events] + DefinitionsIn(rest)
  {
    var all := [DefStart] + events + [DefEnd] + rest;
    var tail := events + ([DefEnd] + rest);
    assert all == [DefStart] + tail && all[0] == DefStart && all[1..] == tail;
    EndAtEnd(events, rest);
    assert tail[..|events|] == events && tail[|events|..] == [DefEnd] + rest;
    PlainDefinitions([DefEnd], rest);
  }

  /** The definitions that stand in front, whatever follows them. */
  lemma {:induction false} DefsInFront(h: seq<Entry>, t: nat, rest: seq<Event>)
    requires 0 < t <= |h| + 1
    ensures DefinitionsIn(DefsFrom(h, t) + rest) == Replacements(MacrosOf(h[t-1..])) + DefinitionsIn(rest)
    decreases |h| + 1 - t
  {
    if t > |h| {
      assert h[t-1..] == [] && [] + rest == rest;
      NothingMore(Replacements(MacrosOf(h[t-1..])));
    } else {
      DefsInFront(h, t + 1, rest);
      assert h[t-1..][1..] == h[t..];
      var more := DefsFrom(h, t + 1);
      if h[t-1].Macro? {
        var events := MacroEvents(h[t-1].items);
        MacroIsPlainText(h[t-1].items);
        MacroEventsMean(h[t-1].items);
        FirstDefinition(events, more + rest);
        assert [DefStart] + events + [DefEnd] + more + rest == [DefStart] + events + [DefEnd] + (more + rest);
        ReplacementsFirst(h[t-1].items, MacrosOf(h[t..]), DefinitionsIn(rest));
      } else {
        assert [] + more == more && [] + MacrosOf(h[t..]) == MacrosOf(h[t..]);
      }
    }
  }

  lemma ReplacementsFirst(items: seq<Item>, macros: seq<seq<Item>>, rest: seq<seq<Event>>)
    ensures Replacements([items] + macros) == [EventsOf(WithoutNewline(items))] + Replacements(macros)
    ensures Replacements([items] + macros) + rest == [EventsOf(WithoutNewline(items))] + (Replacements(macros) + rest)
  {
    assert ([items] + macros)[1..] == macros && ([items] + macros)[0] == items;
    Regroup([EventsOf(WithoutNewline(items))], Replacements(macros), rest);
  }

  // ---------- the program

  lemma {:induction false} ExpansionIsPlain(h: seq<Entry>, defs: seq<Event>, d: nat, name: nat, t: nat)
    requires !AsksForDefs(h)
    ensures NoDefinition(Expansion(h, defs, d, name, t).out)
    decreases d, 1, |h| + 1 - t
  {
    if 0 < t <= |h| {
      if At(h, name, t) {
        BodyOf(h, t);
        BodyIsPlain(h, defs, d, h[t-1].body);
      }
      ExpansionIsPlain(h, defs, d, name, t + 1);
    }
  }

  lemma BodyOf(h: seq<Entry>, t: nat)
    requires !AsksForDefs(h) && 0 < t <= |h| && h[t-1].Part?
    ensures Defs !in h[t-1].body
  {
    assert !Asks(h, t - 1);
    BodyInText(h[t-1]);
  }

  lemma BodyInText(e: Entry)
    requires e.Part?
    ensures forall k :: 0 <= k < |e.body| ==> TextOf(e)[k+1] == e.body[k] && e.body[k] in TextOf(e)
  {
    assert forall k :: 0 <= k < |e.body| ==> TextOf(e)[k+1] == e.body[k];
  }

  lemma {:induction false} BodyIsPlain(h: seq<Entry>, defs: seq<Event>, d: nat, items: seq<Item>)
    requires !AsksForDefs(h) && Defs !in items
    ensures NoDefinition(Body(h, defs, d, items).out)
    decreases d, 0, |items|
  {
    if items != [] {
      var i := items[0];
      if i.Section? {
        if i.n > 0 && Defined(h, i.n) && d > 0 { ExpansionIsPlain(h, defs, d - 1, i.n, 1); }
      } else {
        ItemIsPlain(i);
      }
      BodyIsPlain(h, defs, d, items[1..]);
    }
  }

  lemma ProgramBegins(h: seq<Entry>, names: nat, defs: seq<Event>, d: nat)
    requires Source(h, names) && Defined(h, 0)
    ensures BeginsProgram(h, Expansion(h, defs, d, 0, 1).out)
  {
    HeadIffDefined(h, 0);
    NextIsNext(h, 0, 1);
    ExpansionSkips(h, defs, d, 0, 1);
    var t := Next(h, 0, 1);
    OpensFirst(Open(h[t-1].section), Body(h, defs, d, h[t-1].body), Output([Close(h[t-1].section)], true), Expansion(h, defs, d, 0, t + 1));
  }

  lemma OpensFirst(e: Event, a: Output, b: Output, c: Output)
    ensures var o := Then(Then(Then(Output([e], true), a), b), c).out; o != [] && o[0] == e
  {
  }

  // ---------- the C file

  /** If the source does not ask for them, the definitions of all macros come first, one for
      each and in their order, before any marker of a section; then comes the program, which
      has none. */
  lemma DefinitionsFirst(h: seq<Entry>, names: nat, file: seq<Event>) returns (n: nat)
    requires Source(h, names) && !AsksForDefs(h) && file == MainFile(h)
    ensures n <= |file| && Unmarked(file[..n]) && NoDefinition(file[n..]) && BeginsProgram(h, file[n..])
    ensures DefinitionsIn(file) == Replacements(MacrosOf(h)) && (Defined(h, 0) ==> file[|file|-1] == Out(NEWLINE))
  {
    var front := AllDefs(h);
    var rest := if Defined(h, 0) then NameOut(h, 0).out + [Out(NEWLINE)] else [];
    n := |front|;
    assert file == front + rest && file[..n] == front && file[n..] == rest;
    DefsUnmarked(h, names, 1);
    ExpansionIsPlain(h, AllDefs(h), STACK_SIZE - 1, 0, 1);
    if Defined(h, 0) { ProgramBegins(h, names, AllDefs(h), STACK_SIZE - 1); }
    DefsInFront(h, 1, rest);
    PlainDefinitions(rest, []);
    NothingMore(rest);
    assert h[0..] == h && DefinitionsIn([]) == [];
    NothingMore(Replacements(MacrosOf(h)));
  }

  /** If it does, the file begins with the program. */
  lemma ProgramFirst(h: seq<Entry>, names: nat)
    requires Source(h, names) && AsksForDefs(h)
    ensures BeginsProgram(h, MainFile(h)) && (Defined(h, 0) ==> MainFile(h)[|MainFile(h)|-1] == Out(NEWLINE))
  {
    if Defined(h, 0) {
      ProgramBegins(h, names, AllDefs(h), STACK_SIZE - 1);
      assert MainFile(h) == [] + (NameOut(h, 0).out + [Out(NEWLINE)]);
    }
  }
}
