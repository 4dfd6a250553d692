// CTANGLE's second phase: the stack machine of `get_output` against recursive
// expansion (cweb/ctangle.c:514-542, 547-589, 682-717, 746-780).

module TangleExpansion {
  import opened Basics
  import opened TangleTokens
  import opened Iteration

  const STACK_SIZE := 50
  const MAX_TEXTS := 2500
  // A link of this size or more ends a chain of texts.
  const SECTION_FLAG := MAX_TEXTS

  // ---------- what expansion means

  /** A program as the first phase leaves it: the items of every replacement text, the
      text that continues each text, and the first text of every section name (0 for a
      name that was never defined). */
  datatype Program = Program(items: seq<seq<Item>>, links: seq<nat>, equiv: seq<nat>) {

    /** Continuations come later, and definitions exist. */
    ghost predicate Valid() {
      && |items| == |links| <= MAX_TEXTS
      && (forall t :: 0 <= t < |items| ==> AllFit(items[t]) && AllClean(items[t]))
      && (forall t :: 0 < t < |items| && 0 < links[t] < SECTION_FLAG ==> t < links[t] < |items|)
      && (forall p :: 0 <= p < |equiv| ==> equiv[p] < |items| && (equiv[p] > 0 ==> OnChain(equiv[p])))
      && (forall t :: 0 < t < |items| && 0 < links[t] < SECTION_FLAG ==> OnChain(links[t]))
      && (forall t, i :: 0 <= t < |items| && 0 <= i < |items[t]| && items[t][i].Section? ==> items[t][i].n < |equiv|)
    }

    /** Text t is part of a section, not a macro. */
    predicate OnChain(t: nat) {
      0 < t < |items| && t < |links| && links[t] != 0
    }
  }

  /** What reaches the C file: characters, bytes of verbatim material, identifiers,
      section markers and line marks. */
  datatype Event =
    | Out(c: Byte)
    | Raw(b: Byte)
    | Name(n: nat)
    | Open(n: nat)
    | Close(n: nat)
    | LineMark(l: nat, f: nat)
    | DefStart
    | DefEnd

  /** Events, and whether the stack was large enough for all of them. */
  datatype Output = Output(out: seq<Event>, ok: bool)

  function Then(a: Output, b: Output): Output {
    if a.ok then Output(a.out + b.out, b.ok) else a
  }

  function ContentEvents(content: seq<Byte>): seq<Event> {
    if content == [] then []
    else [if content[0] == NEWLINE then Out(NEWLINE) else Raw(content[0])] + ContentEvents(content[1..])
  }

  /** The events of an item that is not a section name. */
  function ItemEvents(i: Item): seq<Event> {
    match i
    case Char(c) => [Out(c)]
    case Verbatim(mark, content) => [Out(mark)] + ContentEvents(content) + [Out(mark)]
    case Ident(n) => [Name(n)]
    case Number(n) => [Open(n)]
    case Line(l, f) => [LineMark(l, f)]
    case Section(_) => []
    case Defs => []
  }

  /** The number of the last section that starts among the items. */
  function SectionAfter(items: seq<Item>, section: nat): nat {
    if items == [] then section
    else SectionAfter(items[1..], if items[0].Number? then items[0].n else section)
  }

  /** The expansion of items with room for d more levels: a section name stands for its
      own expansion, an undefined one for nothing. `defs` is what `@h` stands for. */
  function ItemsOut(p: Program, defs: seq<Event>, d: nat, items: seq<Item>): Output
    decreases d, 0, |items|
  {
    if items == [] then Output([], true)
    else
      Then(FirstOut(p, defs, d, items[0]), ItemsOut(p, defs, d, items[1..]))
  }

  function FirstOut(p: Program, defs: seq<Event>, d: nat, i: Item): Output
    decreases d, 0, 0
  {
    match i
    case Section(n) =>
      if n >= |p.equiv| || p.equiv[n] == 0 then Output([], true)
      else if d == 0 then Output([], false)
      else ChainOut(p, defs, d - 1, p.equiv[n], 0)
    case Defs => if d == 0 then Output([], false) else Output(defs, true)
    case _ => Output(ItemEvents(i), true)
  }

  /** The expansion of text t and its continuations, each followed by the closing mark
      of the section it belongs to. */
  function ChainOut(p: Program, defs: seq<Event>, d: nat, t: nat, section: nat): Output
    decreases d, 1, if t < |p.items| then |p.items| - t else 0
  {
    if t >= |p.items| || t >= |p.links| then Output([], true)
    else
      var after := SectionAfter(p.items[t], section);
      var here := Then(ItemsOut(p, defs, d, p.items[t]), Output(if after == 0 then [] else [Close(after)], true));
      if p.links[t] < SECTION_FLAG && p.links[t] > t then Then(here, ChainOut(p, defs, d, p.links[t], after)) else here
  }

  /** The section that the last text of a chain belongs to. */
  function ChainSection(p: Program, t: nat, section: nat): nat
    decreases if t < |p.items| then |p.items| - t else 0
  {
    if t >= |p.items| || t >= |p.links| then section
    else
      var after := SectionAfter(p.items[t], section);
      if p.links[t] < SECTION_FLAG && p.links[t] > t then ChainSection(p, p.links[t], after) else after
  }

  // ---------- the machine

  /** The memory that the first phase leaves. */
  datatype Image = Image(mem: seq<Byte>, starts: seq<nat>, links: seq<nat>, equiv: seq<nat>)

  ghost predicate Represents(img: Image, p: Program) {
    && p.Valid() && img.links == p.links && img.equiv == p.equiv && |img.starts| == |p.items| + 1
    && (forall t :: 0 <= t < |p.items| ==> HoldsText(img, t, p.items[t]))
  }

  /** Text t is stored as the encoding of `items`. */
  ghost predicate HoldsText(img: Image, t: nat, items: seq<Item>)
    requires AllFit(items)
  {
    && t + 1 < |img.starts| && img.starts[t] <= img.starts[t+1] <= |img.mem|
    && img.mem[img.starts[t]..img.starts[t+1]] == EncodeAll(items)
  }

  /** `output_state`: where we are in which text, and the section it belongs to. */
  datatype Frame = Frame(byte: nat, end: nat, repl: nat, section: nat)

  datatype Machine = Machine(saved: seq<Frame>, cur: Frame, active: bool, verbatim: bool, overflow: bool, out: seq<Event>)

  function Emit(m: Machine, e: Event): Machine {
    m.(out := m.out + [e])
  }

  function Skip(m: Machine, n: nat): Machine {
    m.(cur := m.cur.(byte := m.cur.byte + n))
  }

  function FrameOf(img: Image, t: nat, section: nat): Frame
    requires t + 1 < |img.starts|
  {
    Frame(img.starts[t], img.starts[t+1], t, section)
  }

  /** `pop_level(1)`. */
  function Pop(img: Image, m: Machine): Machine {
    if m.cur.repl < |img.links| && img.links[m.cur.repl] < SECTION_FLAG && img.links[m.cur.repl] + 1 < |img.starts| then
      m.(cur := FrameOf(img, img.links[m.cur.repl], m.cur.section))
    else if m.saved == [] then m.(active := false)
    else m.(cur := m.saved[|m.saved|-1], saved := m.saved[..|m.saved|-1])
  }

  /** `push_level`. */
  function Push(img: Image, m: Machine, t: nat): Machine
    requires t + 1 < |img.starts|
  {
    if |m.saved| + 1 == STACK_SIZE then m.(overflow := true)
    else m.(saved := m.saved + [m.cur], cur := FrameOf(img, t, 0))
  }

  /** One pass through `get_output` up to `restart` or the end. */
  function Step(img: Image, defs: seq<Event>, m: Machine): Machine {
    if !m.active || m.overflow then m
    else if m.cur.byte == m.cur.end then
      var popped := Pop(img, m);
      if m.cur.section == 0 then popped else Emit(popped, Close(m.cur.section))
    else if m.cur.byte >= |img.mem| then m
    else
      var a := img.mem[m.cur.byte];
      if m.verbatim && !IsMark(a) && a != NEWLINE then Emit(Skip(m, 1), Raw(a))
      else if a < 128 then Emit(Skip(m, 1), Out(a)).(verbatim := if IsMark(a) then !m.verbatim else m.verbatim)
      else if m.cur.byte + 1 >= |img.mem| then m
      else
        var v := Word(a, img.mem[m.cur.byte + 1]);
        if v < NAME_LIMIT then Emit(Skip(m, 2), Name(v))
        else if v == OUTPUT_DEFS then
          if |m.saved| + 1 == STACK_SIZE then Skip(m, 2).(overflow := true)
          else Skip(m, 2).(out := m.out + defs)
        else if v < 2 * NAME_LIMIT then
          var n := v - NAME_LIMIT;
          if n >= |img.equiv| || img.equiv[n] == 0 || img.equiv[n] + 1 >= |img.starts| then Skip(m, 2)
          else Push(img, Skip(m, 2), img.equiv[n])
        else if v > 2 * NAME_LIMIT then
          Emit(Skip(m, 2).(cur := m.cur.(byte := m.cur.byte + 2, section := v - 2 * NAME_LIMIT)), Open(v - 2 * NAME_LIMIT))
        else if m.cur.byte + 5 >= |img.mem| || img.mem[m.cur.byte + 4] < 128 then m
        else
          var b := m.cur.byte;
          Emit(Skip(m, 6), LineMark(img.mem[b+2] as int * 256 + img.mem[b+3] as int, Word(img.mem[b+4], img.mem[b+5])))
  }

  /** `step` is the machine's step. (It is unfolded only where Step is mentioned.) */
  ghost predicate Steps(step: Machine -> Machine, img: Image, defs: seq<Event>) {
    forall m {:trigger Step(img, defs, m)} :: step(m) == Step(img, defs, m)
  }

  // ---------- reading one item

  /** The machine is about to read `rest`, up to the end of its text. */
  ghost predicate AtItems(img: Image, m: Machine, rest: seq<Item>) {
    && m.active && !m.overflow && !m.verbatim && AllFit(rest) && AllClean(rest)
    && m.cur.byte <= m.cur.end <= |img.mem| && img.mem[m.cur.byte..m.cur.end] == EncodeAll(rest)
  }

  /** The machine after n more bytes of its text. */
  function Advanced(m: Machine, n: nat, section: nat, out: seq<Event>): Machine {
    m.(cur := m.cur.(byte := m.cur.byte + n, section := section), out := m.out + out)
  }

  lemma IterateOnce<S>(step: S -> S, m: S)
    ensures Iterate(step, m, 1) == step(m)
  {
    assert Iterate(step, m, 0) == m;
  }

  function ContentEvent(b: Byte): Event {
    if b == NEWLINE then Out(NEWLINE) else Raw(b)
  }

  lemma StepContent(img: Image, defs: seq<Event>, step: Machine -> Machine, m: Machine)
    requires Steps(step, img, defs) && m.active && !m.overflow && m.verbatim && m.cur.byte < m.cur.end <= |img.mem|
    requires !IsMark(img.mem[m.cur.byte])
    ensures step(m) == Advanced(m, 1, m.cur.section, [ContentEvent(img.mem[m.cur.byte])])
  {
    assert step(m) == Step(img, defs, m);
  }

  lemma StepMark(img: Image, defs: seq<Event>, step: Machine -> Machine, m: Machine)
    requires Steps(step, img, defs) && m.active && !m.overflow && m.cur.byte < m.cur.end <= |img.mem|
    requires IsMark(img.mem[m.cur.byte])
    ensures step(m) == Advanced(m, 1, m.cur.section, [Out(img.mem[m.cur.byte])]).(verbatim := !m.verbatim)
  {
    assert step(m) == Step(img, defs, m);
  }

  lemma StepChar(img: Image, defs: seq<Event>, step: Machine -> Machine, m: Machine)
    requires Steps(step, img, defs) && m.active && !m.overflow && !m.verbatim && m.cur.byte < m.cur.end <= |img.mem|
    requires !IsMark(img.mem[m.cur.byte]) && img.mem[m.cur.byte] < 128
    ensures step(m) == Advanced(m, 1, m.cur.section, [Out(img.mem[m.cur.byte])])
  {
    assert step(m) == Step(img, defs, m);
  }

  // The machine is at the two-byte code v.
  predicate AtWord(img: Image, m: Machine, v: nat) {
    && m.active && !m.overflow && !m.verbatim && m.cur.byte + 2 <= m.cur.end <= |img.mem|
    && img.mem[m.cur.byte] >= 128 && Word(img.mem[m.cur.byte], img.mem[m.cur.byte+1]) == v
  }

  lemma StepName(img: Image, defs: seq<Event>, step: Machine -> Machine, m: Machine, v: nat)
    requires Steps(step, img, defs) && AtWord(img, m, v) && v < NAME_LIMIT
    ensures step(m) == Advanced(m, 2, m.cur.section, [Name(v)])
  {
    assert step(m) == Step(img, defs, m);
  }

  lemma StepNumber(img: Image, defs: seq<Event>, step: Machine -> Machine, m: Machine, v: nat)
    requires Steps(step, img, defs) && AtWord(img, m, v) && v > 2 * NAME_LIMIT
    ensures step(m) == Advanced(m, 2, v - 2 * NAME_LIMIT, [Open(v - 2 * NAME_LIMIT)])
  {
    assert step(m) == Step(img, defs, m);
  }

  lemma StepLine(img: Image, defs: seq<Event>, step: Machine -> Machine, m: Machine, l: nat, f: nat)
    requires Steps(step, img, defs) && AtWord(img, m, 2 * NAME_LIMIT) && m.cur.byte + 6 <= m.cur.end
    requires var b := m.cur.byte; img.mem[b+4] >= 128 && Word(img.mem[b+4], img.mem[b+5]) == f
                                  && img.mem[b+2] as int * 256 + img.mem[b+3] as int == l
    ensures step(m) == Advanced(m, 6, m.cur.section, [LineMark(l, f)])
  {
    assert step(m) == Step(img, defs, m);
  }

  // The bytes of verbatim material up to the closing mark.
  lemma {:induction false} ReadContent(img: Image, defs: seq<Event>, step: Machine -> Machine, m: Machine, content: seq<Byte>)
    requires Steps(step, img, defs) && m.active && !m.overflow && m.verbatim
    requires m.cur.byte + |content| < m.cur.end <= |img.mem|
    requires forall j :: 0 <= j < |content| ==> img.mem[m.cur.byte + j] == content[j] && !IsMark(content[j])
    ensures Iterate(step, m, |content|) == Advanced(m, |content|, m.cur.section, ContentEvents(content))
    decreases |content|
  {
    if content != [] {
      assert img.mem[m.cur.byte + 0] == content[0];
      StepContent(img, defs, step, m);
      var next := step(m);
      ReadContent(img, defs, step, next, content[1..]);
      IterateFirst(step, m, |content| - 1);
      Regroup(m.out, [ContentEvent(content[0])], ContentEvents(content[1..]));
    }
  }

  lemma SliceSplit<T>(mem: seq<T>, b: nat, e: nat, first: seq<T>, rest: seq<T>)
    requires b <= e <= |mem| && mem[b..e] == first + rest
    ensures b + |first| <= e && mem[b+|first|..e] == rest
    ensures forall j :: 0 <= j < |first| ==> mem[b + j] == first[j]
  {
    var all := mem[b..e];
    assert all[|first|..] == rest;
    forall j | 0 <= j < |first|
      ensures mem[b + j] == first[j]
    {
      assert all[j] == mem[b + j];
    }
  }

  lemma HeadBytes(img: Image, m: Machine, rest: seq<Item>)
    requires AtItems(img, m, rest) && rest != []
    ensures var code, b := Encode(rest[0]), m.cur.byte;
            && b + |code| <= m.cur.end && img.mem[b + |code|..m.cur.end] == EncodeAll(rest[1..])
            && forall j :: 0 <= j < |code| ==> img.mem[b + j] == code[j]
  {
    SliceSplit(img.mem, m.cur.byte, m.cur.end, Encode(rest[0]), EncodeAll(rest[1..]));
  }

  lemma ReadVerbatim(img: Image, defs: seq<Event>, step: Machine -> Machine, m: Machine, mark: Byte, content: seq<Byte>)
    requires Steps(step, img, defs) && m.active && !m.overflow && !m.verbatim && IsMark(mark)
    requires m.cur.byte + |content| + 2 <= m.cur.end <= |img.mem|
    requires img.mem[m.cur.byte] == mark && img.mem[m.cur.byte + 1 + |content|] == mark
    requires forall j :: 0 <= j < |content| ==> img.mem[m.cur.byte + 1 + j] == content[j] && !IsMark(content[j])
    ensures Iterate(step, m, |content| + 2) == Advanced(m, |content| + 2, m.cur.section, ItemEvents(Verbatim(mark, content)))
  {
    StepMark(img, defs, step, m);
    IterateOnce(step, m);
    var m1 := Advanced(m, 1, m.cur.section, [Out(mark)]).(verbatim := true);
    ShiftContent(img.mem, m.cur.byte, content);
    ReadContent(img, defs, step, m1, content);
    var m2 := Advanced(m1, |content|, m.cur.section, ContentEvents(content));
    IterateThree(step, m, m1, |content|, m2);
    assert img.mem[m2.cur.byte] == mark;
    StepMark(img, defs, step, m2);
    VerbatimSum(m, mark, content, m1, m2);
  }

  lemma VerbatimSum(m: Machine, mark: Byte, content: seq<Byte>, m1: Machine, m2: Machine)
    requires !m.verbatim && m1 == Advanced(m, 1, m.cur.section, [Out(mark)]).(verbatim := true)
    requires m2 == Advanced(m1, |content|, m.cur.section, ContentEvents(content))
    ensures Advanced(m2, 1, m2.cur.section, [Out(mark)]).(verbatim := false)
         == Advanced(m, |content| + 2, m.cur.section, ItemEvents(Verbatim(mark, content)))
  {
    OutSum(m.out, mark, content);
  }

  lemma OutSum(out: seq<Event>, mark: Byte, content: seq<Byte>)
    ensures out + [Out(mark)] + ContentEvents(content) + [Out(mark)] == out + ItemEvents(Verbatim(mark, content))
  {
  }

  lemma IterateThree<S>(step: S -> S, m: S, m1: S, n: nat, m2: S)
    requires step(m) == m1 && Iterate(step, m1, n) == m2
    ensures Iterate(step, m, n + 2) == step(m2)
  {
    IterateFirst(step, m, n);
    assert Iterate(step, m, n + 1) == m2;
  }

  lemma ShiftContent(mem: seq<Byte>, b: nat, content: seq<Byte>)
    requires b + 1 + |content| <= |mem|
    requires forall j :: 0 <= j < |content| ==> mem[b + 1 + j] == content[j]
    ensures forall j :: 0 <= j < |content| ==> mem[(b + 1) + j] == content[j]
  {
    forall j | 0 <= j < |content|
      ensures mem[(b + 1) + j] == content[j]
    {
      assert mem[b + 1 + j] == content[j];
    }
  }

  lemma Quoted(mem: seq<Byte>, b: nat, code: seq<Byte>, mark: Byte, content: seq<Byte>)
    requires code == [mark] + content + [mark] && b + |code| <= |mem| && forall j :: 0 <= j < |code| ==> mem[b + j] == code[j]
    ensures mem[b] == mark && mem[b + 1 + |content|] == mark && forall j :: 0 <= j < |content| ==> mem[b + 1 + j] == content[j]
  {
    assert mem[b + 0] == code[0] && mem[b + (1 + |content|)] == code[1 + |content|];
    forall j | 0 <= j < |content|
      ensures mem[b + 1 + j] == content[j]
    {
      assert mem[b + (1 + j)] == code[1 + j];
    }
  }

  lemma ReadString(img: Image, defs: seq<Event>, step: Machine -> Machine, m: Machine, rest: seq<Item>)
    requires Steps(step, img, defs) && AtItems(img, m, rest) && rest != [] && rest[0].Verbatim?
    ensures Iterate(step, m, |rest[0].content| + 2) == Advanced(m, |Encode(rest[0])|, m.cur.section, ItemEvents(rest[0]))
  {
    var mark, content := rest[0].mark, rest[0].content;
    var code, b := Encode(rest[0]), m.cur.byte;
    HeadBytes(img, m, rest);
    assert Clean(rest[0]) && Fits(rest[0]);
    Quoted(img.mem, b, code, mark, content);
    ReadVerbatim(img, defs, step, m, mark, content);
  }

  lemma ReadPlain(img: Image, defs: seq<Event>, step: Machine -> Machine, m: Machine, rest: seq<Item>)
    requires Steps(step, img, defs) && AtItems(img, m, rest) && rest != []
    requires !rest[0].Section? && !rest[0].Defs? && !rest[0].Verbatim?
    ensures step(m) == Advanced(m, |Encode(rest[0])|, if rest[0].Number? then rest[0].n else m.cur.section, ItemEvents(rest[0]))
  {
    HeadBytes(img, m, rest);
    assert Fits(rest[0]);
    match rest[0] {
      case Char(c) =>
        assert img.mem[m.cur.byte + 0] == Encode(rest[0])[0];
        StepChar(img, defs, step, m);
      case Ident(v) =>
        WordAt(img, m, rest, v);
        StepName(img, defs, step, m, v);
      case Number(v) =>
        WordAt(img, m, rest, v + 2 * NAME_LIMIT);
        StepNumber(img, defs, step, m, v + 2 * NAME_LIMIT);
      case Line(l, f) =>
        ReadLine(img, defs, step, m, rest, l, f);
    }
  }

  lemma ReadLine(img: Image, defs: seq<Event>, step: Machine -> Machine, m: Machine, rest: seq<Item>, l: nat, f: nat)
    requires Steps(step, img, defs) && AtItems(img, m, rest) && rest != [] && rest[0] == Line(l, f)
    ensures step(m) == Advanced(m, 6, m.cur.section, [LineMark(l, f)])
  {
    assert Fits(rest[0]);
    var code, b := Encode(rest[0]), m.cur.byte;
    HeadBytes(img, m, rest);
    WordAt(img, m, rest, 2 * NAME_LIMIT);
    WordOfTwoBytes(f);
    assert code[2] == l / 256 && code[3] == l % 256 && code[4] == TwoBytes(f)[0] && code[5] == TwoBytes(f)[1];
    assert img.mem[b+2] == code[2] && img.mem[b+3] == code[3] && img.mem[b+4] == code[4] && img.mem[b+5] == code[5];
    StepLine(img, defs, step, m, l, f);
  }

  /** Reading an item that is neither a section name nor `@h`. */
  lemma ReadItem(img: Image, defs: seq<Event>, step: Machine -> Machine, m: Machine, rest: seq<Item>) returns (n: nat)
    requires Steps(step, img, defs) && AtItems(img, m, rest) && rest != [] && !rest[0].Section? && !rest[0].Defs?
    ensures Iterate(step, m, n)
         == Advanced(m, |Encode(rest[0])|, if rest[0].Number? then rest[0].n else m.cur.section, ItemEvents(rest[0]))
  {
    if rest[0].Verbatim? {
      n := |rest[0].content| + 2;
      ReadString(img, defs, step, m, rest);
    } else {
      n := 1;
      IterateOnce(step, m);
      ReadPlain(img, defs, step, m, rest);
    }
  }

  // An item that starts with a two-byte code.
  lemma WordAt(img: Image, m: Machine, rest: seq<Item>, v: nat)
    requires AtItems(img, m, rest) && rest != [] && v < 128 * 256 && TwoBytes(v) <= Encode(rest[0])
    ensures AtWord(img, m, v)
  {
    HeadBytes(img, m, rest);
    WordOfTwoBytes(v);
    assert img.mem[m.cur.byte + 0] == Encode(rest[0])[0] == TwoBytes(v)[0];
    assert img.mem[m.cur.byte + 1] == Encode(rest[0])[1] == TwoBytes(v)[1];
  }

  // ---------- pushing and popping

  lemma StepUndefined(img: Image, defs: seq<Event>, step: Machine -> Machine, m: Machine, n: nat)
    requires Steps(step, img, defs) && AtWord(img, m, n + NAME_LIMIT) && n < NAME_LIMIT - 1
    requires n < |img.equiv| && img.equiv[n] == 0
    ensures step(m) == Advanced(m, 2, m.cur.section, [])
  {
    assert step(m) == Step(img, defs, m);
  }

  lemma StepPush(img: Image, defs: seq<Event>, step: Machine -> Machine, m: Machine, n: nat)
    requires Steps(step, img, defs) && AtWord(img, m, n + NAME_LIMIT) && n < NAME_LIMIT - 1
    requires n < |img.equiv| && img.equiv[n] > 0 && img.equiv[n] + 1 < |img.starts|
    ensures step(m) == Push(img, Advanced(m, 2, m.cur.section, []), img.equiv[n])
  {
    assert step(m) == Step(img, defs, m);
    assert m.out + [] == m.out;
  }

  lemma StepDefs(img: Image, defs: seq<Event>, step: Machine -> Machine, m: Machine)
    requires Steps(step, img, defs) && AtWord(img, m, OUTPUT_DEFS)
    ensures if |m.saved| + 1 == STACK_SIZE then step(m) == Advanced(m, 2, m.cur.section, []).(overflow := true)
            else step(m) == Advanced(m, 2, m.cur.section, defs)
  {
    assert step(m) == Step(img, defs, m);
    assert m.out + [] == m.out;
  }

  lemma StepPop(img: Image, defs: seq<Event>, step: Machine -> Machine, m: Machine)
    requires Steps(step, img, defs) && m.active && !m.overflow && m.cur.byte == m.cur.end
    ensures step(m) == Pop(img, m).(out := m.out + if m.cur.section == 0 then [] else [Close(m.cur.section)])
  {
    assert step(m) == Step(img, defs, m);
    assert m.out + [] == m.out;
  }

  /** How many more texts the stack can take. */
  function Room(m: Machine): int {
    STACK_SIZE - 1 - |m.saved|
  }

  /** Running out of room in the middle of an expansion that began with `out`. */
  predicate Stuck(r: Machine, m: Machine, o: Output) {
    r.overflow && r.out == m.out + o.out
  }

  /** The machine has read `rest`, which expands to o. */
  predicate ReadTo(r: Machine, m: Machine, rest: seq<Item>, o: Output) {
    if o.ok then r == m.(cur := m.cur.(byte := m.cur.end, section := SectionAfter(rest, m.cur.section)), out := m.out + o.out)
    else Stuck(r, m, o)
  }

  /** The machine has finished the text it was in and all continuations, which expand
      to o, and is back where the text was used; or it is done. */
  predicate Returned(r: Machine, m: Machine, o: Output) {
    if !o.ok then Stuck(r, m, o)
    else
      && !r.overflow && !r.verbatim && r.out == m.out + o.out
      && if m.saved == [] then !r.active && r.saved == []
         else r == m.(cur := m.saved[|m.saved|-1], saved := m.saved[..|m.saved|-1], out := m.out + o.out)
  }

  // Sections named by the items exist.
  predicate Known(p: Program, rest: seq<Item>) {
    forall i :: 0 <= i < |rest| && rest[i].Section? ==> rest[i].n < |p.equiv|
  }

  // After a step that reads the first item and emits `out`.
  lemma AtNext(img: Image, m: Machine, rest: seq<Item>, section: nat, out: seq<Event>)
    requires AtItems(img, m, rest) && rest != []
    ensures AtItems(img, Advanced(m, |Encode(rest[0])|, section, out), rest[1..])
  {
    HeadBytes(img, m, rest);
  }

  lemma ReadOn(m: Machine, r1: Machine, r: Machine, rest: seq<Item>, section: nat, n: nat, first: seq<Event>, tail: Output)
    requires rest != [] && section == (if rest[0].Number? then rest[0].n else m.cur.section)
    requires r1 == Advanced(m, n, section, first)
    requires ReadTo(r, r1, rest[1..], tail)
    ensures ReadTo(r, m, rest, Then(Output(first, true), tail))
  {
    assert m.out + first + tail.out == m.out + (first + tail.out);
  }

  /** Reading items is expanding them. */
  lemma {:induction false} RunItems(p: Program, img: Image, defs: seq<Event>, step: Machine -> Machine, m: Machine, rest: seq<Item>, d: nat)
    returns (n: nat)
    requires Represents(img, p) && Steps(step, img, defs) && AtItems(img, m, rest) && Known(p, rest) && d == Room(m)
    ensures ReadTo(Iterate(step, m, n), m, rest, ItemsOut(p, defs, d, rest))
    decreases d, 0, |rest|
  {
    if rest == [] {
      n := 0;
      assert m.cur.byte == m.cur.end && m.out + [] == m.out;
    } else {
      var n1, r1, first := RunFirst(p, img, defs, step, m, rest, d);
      if !first.ok {
        n := n1;
      } else {
        var section := if rest[0].Number? then rest[0].n else m.cur.section;
        AtNext(img, m, rest, section, first.out);
        var n2 := RunItems(p, img, defs, step, r1, rest[1..], d);
        n := n1 + n2;
        IterateSum(step, m, n1, n2);
        ReadOn(m, r1, Iterate(step, m, n), rest, section, |Encode(rest[0])|, first.out, ItemsOut(p, defs, d, rest[1..]));
      }
    }
  }

  lemma {:induction false} RunFirst(p: Program, img: Image, defs: seq<Event>, step: Machine -> Machine, m: Machine, rest: seq<Item>, d: nat)
    returns (n: nat, r: Machine, first: Output)
    requires Represents(img, p) && Steps(step, img, defs) && AtItems(img, m, rest) && Known(p, rest) && d == Room(m) && rest != []
    ensures r == Iterate(step, m, n) && first == FirstOut(p, defs, d, rest[0])
    ensures if first.ok then r == Advanced(m, |Encode(rest[0])|, if rest[0].Number? then rest[0].n else m.cur.section, first.out)
            else Stuck(r, m, first)
    decreases d, 0, |rest|, 0
  {
    first := FirstOut(p, defs, d, rest[0]);
    assert Fits(rest[0]);
    if rest[0].Section? {
      n := RunSection(p, img, defs, step, m, rest, d);
    } else if rest[0].Defs? {
      n := 1;
      WordAt(img, m, rest, OUTPUT_DEFS);
      StepDefs(img, defs, step, m);
      IterateOnce(step, m);
    } else {
      n := ReadItem(img, defs, step, m, rest);
    }
    r := Iterate(step, m, n);
  }

  lemma {:induction false} RunSection(p: Program, img: Image, defs: seq<Event>, step: Machine -> Machine, m: Machine, rest: seq<Item>, d: nat)
    returns (n: nat)
    requires Represents(img, p) && Steps(step, img, defs) && AtItems(img, m, rest) && Known(p, rest) && d == Room(m)
    requires rest != [] && rest[0].Section?
    ensures var r, first := Iterate(step, m, n), FirstOut(p, defs, d, rest[0]);
            if first.ok then r == Advanced(m, 2, m.cur.section, first.out) else Stuck(r, m, first)
    decreases d, 0, |rest|, -1
  {
    var name := rest[0].n;
    assert Fits(rest[0]);
    WordAt(img, m, rest, name + NAME_LIMIT);
    IterateOnce(step, m);
    if p.equiv[name] == 0 {
      n := 1;
      StepUndefined(img, defs, step, m, name);
    } else {
      n := RunUse(p, img, defs, step, m, name, d);
    }
  }

  /** A defined name is replaced by its own expansion. */
  lemma {:induction false} RunUse(p: Program, img: Image, defs: seq<Event>, step: Machine -> Machine, m: Machine, name: nat, d: nat)
    returns (n: nat)
    requires Represents(img, p) && Steps(step, img, defs) && d == Room(m) && AtWord(img, m, name + NAME_LIMIT)
    requires name < |p.equiv| && name < NAME_LIMIT - 1 && p.equiv[name] > 0
    ensures var r, first := Iterate(step, m, n), FirstOut(p, defs, d, Section(name));
            if first.ok then r == Advanced(m, 2, m.cur.section, first.out) else Stuck(r, m, first)
    decreases d, 0, 0, -1
  {
    var t := p.equiv[name];
    assert HoldsText(img, t, p.items[t]);
    StepPush(img, defs, step, m, name);
    IterateOnce(step, m);
    n := 1;
    var here := Advanced(m, 2, m.cur.section, []);
    if d == 0 {
      assert Stuck(step(m), m, Output([], false));
    } else {
      var m1 := here.(saved := m.saved + [here.cur], cur := FrameOf(img, t, 0));
      assert step(m) == m1;
      var n2 := RunChain(p, img, defs, step, m1, t, d - 1);
      n := 1 + n2;
      IterateSum(step, m, 1, n2);
      BackFromUse(m, m1, here.cur, FrameOf(img, t, 0), Iterate(step, m, n), ChainOut(p, defs, d - 1, t, 0));
    }
  }

  lemma BackFromUse(m: Machine, m1: Machine, here: Frame, cur: Frame, r: Machine, o: Output)
    requires here == m.cur.(byte := m.cur.byte + 2) && m1 == m.(saved := m.saved + [here], cur := cur, out := m.out + [])
    requires Returned(r, m1, o)
    ensures if o.ok then r == Advanced(m, 2, m.cur.section, o.out) else Stuck(r, m, o)
  {
    assert m1.saved[..|m.saved|] == m.saved;
    assert m.out + [] == m.out;
  }

  // At the end of text t, of section `after`, when everything before it has emitted `out`.
  ghost predicate AtEnd(img: Image, r: Machine, m: Machine, t: nat, after: nat, out: seq<Event>) {
    && t + 1 < |img.starts| && m.cur == FrameOf(img, t, m.cur.section)
    && r == m.(cur := m.cur.(byte := m.cur.end, section := after), out := m.out + out)
  }

  function Closing(after: nat): seq<Event> {
    if after == 0 then [] else [Close(after)]
  }

  lemma ChainEnds(img: Image, defs: seq<Event>, step: Machine -> Machine, m: Machine, r: Machine, t: nat, after: nat, out: seq<Event>)
    requires Steps(step, img, defs) && m.active && !m.overflow && !m.verbatim && AtEnd(img, r, m, t, after, out)
    requires t < |img.links| && img.links[t] >= SECTION_FLAG
    ensures Returned(step(r), m, Output(out + Closing(after), true)) && (m.saved == [] ==> step(r).cur.section == after)
  {
    StepPop(img, defs, step, r);
    assert m.out + out + Closing(after) == m.out + (out + Closing(after));
  }

  lemma ChainGoesOn(img: Image, defs: seq<Event>, step: Machine -> Machine, m: Machine, r: Machine, t: nat, after: nat, out: seq<Event>)
    requires Steps(step, img, defs) && m.active && !m.overflow && !m.verbatim && AtEnd(img, r, m, t, after, out)
    requires t < |img.links| && img.links[t] < SECTION_FLAG && img.links[t] + 1 < |img.starts|
    ensures step(r) == m.(cur := FrameOf(img, img.links[t], after), out := m.out + (out + Closing(after)))
  {
    StepPop(img, defs, step, r);
    assert m.out + out + Closing(after) == m.out + (out + Closing(after));
  }

  lemma ReturnedThen(r: Machine, m: Machine, m1: Machine, cur: Frame, out: seq<Event>, tail: Output)
    requires m1 == m.(cur := cur, out := m.out + out) && Returned(r, m1, tail)
    ensures Returned(r, m, Then(Output(out, true), tail))
  {
    assert m.out + out + tail.out == m.out + (out + tail.out);
  }

  // At the bottom of the stack the section of the last text stays behind.
  predicate StaysBehind(r: Machine, m: Machine, o: Output, section: nat) {
    o.ok && m.saved == [] ==> r.cur.section == section
  }

  /** Running from the start of a text emits the expansion of its chain, in order, and
      returns to the place of use. */
  lemma {:induction false} RunChain(p: Program, img: Image, defs: seq<Event>, step: Machine -> Machine, m: Machine, t: nat, d: nat)
    returns (n: nat)
    requires Represents(img, p) && Steps(step, img, defs) && p.OnChain(t) && d == Room(m)
    requires m.active && !m.overflow && !m.verbatim && t + 1 < |img.starts| && m.cur == FrameOf(img, t, m.cur.section)
    ensures Returned(Iterate(step, m, n), m, ChainOut(p, defs, d, t, m.cur.section))
    ensures StaysBehind(Iterate(step, m, n), m, ChainOut(p, defs, d, t, m.cur.section), ChainSection(p, t, m.cur.section))
    decreases d, 1, |p.items| - t
  {
    assert HoldsText(img, t, p.items[t]);
    var items := p.items[t];
    var after := SectionAfter(items, m.cur.section);
    var o := ItemsOut(p, defs, d, items);
    ChainIs(p, defs, d, t, m.cur.section, after, o);
    n := RunItems(p, img, defs, step, m, items, d);
    if o.ok {
      var r1 := Iterate(step, m, n);
      assert AtEnd(img, r1, m, t, after, o.out);
      n := n + 1;
      if p.links[t] < SECTION_FLAG {
        n := RunLink(p, img, defs, step, m, t, d, r1, n, after, o.out);
      } else {
        ChainEnds(img, defs, step, m, r1, t, after, o.out);
      }
    }
  }

  lemma ChainIs(p: Program, defs: seq<Event>, d: nat, t: nat, section: nat, after: nat, o: Output)
    requires p.OnChain(t) && after == SectionAfter(p.items[t], section) && o == ItemsOut(p, defs, d, p.items[t])
    requires p.links[t] < SECTION_FLAG ==> t < p.links[t]
    ensures ChainOut(p, defs, d, t, section) ==
            if !o.ok then o
            else if p.links[t] < SECTION_FLAG then Then(Output(o.out + Closing(after), true), ChainOut(p, defs, d, p.links[t], after))
            else Output(o.out + Closing(after), true)
    ensures ChainSection(p, t, section) == if p.links[t] < SECTION_FLAG then ChainSection(p, p.links[t], after) else after
  {
  }

  lemma {:induction false} RunLink(p: Program, img: Image, defs: seq<Event>, step: Machine -> Machine, m: Machine, t: nat, d: nat,
                                   r1: Machine, n1: nat, after: nat, out: seq<Event>)
    returns (n: nat)
    requires Represents(img, p) && Steps(step, img, defs) && p.OnChain(t) && d == Room(m)
    requires m.active && !m.overflow && !m.verbatim && AtEnd(img, r1, m, t, after, out)
    requires p.links[t] < SECTION_FLAG && n1 > 0 && r1 == Iterate(step, m, n1 - 1)
    ensures Returned(Iterate(step, m, n), m, Then(Output(out + Closing(after), true), ChainOut(p, defs, d, p.links[t], after)))
    ensures StaysBehind(Iterate(step, m, n), m, ChainOut(p, defs, d, p.links[t], after), ChainSection(p, p.links[t], after))
    decreases d, 1, |p.items| - t, -1
  {
    var link := p.links[t];
    ChainGoesOn(img, defs, step, m, r1, t, after, out);
    var m1 := m.(cur := FrameOf(img, link, after), out := m.out + (out + Closing(after)));
    assert Iterate(step, m, n1) == m1;
    var n2 := RunChain(p, img, defs, step, m1, link, d);
    n := n1 + n2;
    IterateSum(step, m, n1, n2);
    ReturnedThen(Iterate(step, m, n), m, m1, FrameOf(img, link, after), out + Closing(after), ChainOut(p, defs, d, link, after));
  }
}
