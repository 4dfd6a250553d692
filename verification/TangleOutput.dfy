// CTANGLE's second phase in place: the stack array, the current state and the
// growing output (cweb/ctangle.c:514-542, 547-589, 607-677, 682-717).

module TangleOutput {
  import opened Basics
  import opened TangleTokens
  import opened TangleExpansion
  import opened TangleChains
  import opened TangleDefs
  import opened TangleMacro
  import opened TangleTexts
  import opened Iteration

  class Expander {
    const texts: Texts
    const stack: array<Frame>
    var stackPtr: nat
    var cur: Frame
    var verbatim: bool
    var full: bool
    var out: seq<Event>

    ghost predicate Ready()
      reads this`stackPtr, texts
    {
      texts.Shaped() && stack.Length == STACK_SIZE + 1 && stackPtr <= STACK_SIZE
    }

    ghost predicate Valid()
      reads this`stackPtr, texts, texts.tokMem, texts.starts, texts.links, texts.equiv
    {
      Ready() && texts.Valid()
    }

    function Saved(): seq<Frame>
      reads this`stackPtr, stack
      requires stackPtr <= stack.Length
    {
      if stackPtr == 0 then [] else stack[1..stackPtr]
    }

    function View(): Machine
      reads this`stackPtr, this`cur, this`verbatim, this`full, this`out, stack
      requires stackPtr <= stack.Length
    {
      Machine(Saved(), cur, stackPtr > 0, verbatim, full, out)
    }

    constructor (texts: Texts)
      requires texts.Valid()
      ensures Valid() && this.texts == texts && out == [] && !full && !verbatim && stackPtr == 0 && fresh(stack)
    {
      this.texts := texts;
      stack := new Frame[STACK_SIZE + 1](_ => Frame(0, 0, 0, 0));
      stackPtr, cur, verbatim, full, out := 0, Frame(0, 0, 0, 0), false, false, [];
    }

    /** `push_level(NULL)` */
    method Save() returns (ok: bool)
      requires Ready() && stackPtr > 0
      modifies this`stackPtr, this`full, stack
      ensures Ready() && stackPtr > 0 && (ok <==> old(stackPtr) < STACK_SIZE)
      ensures Saved() == old(Saved()) + (if ok then [cur] else []) && full == (old(full) || !ok)
    {
      ok := stackPtr < STACK_SIZE;
      if ok {
        stack[stackPtr] := cur;
        stackPtr := stackPtr + 1;
      } else {
        full := true;
      }
    }

    /** `push_level` */
    method PushLevel(t: nat)
      requires Ready() && stackPtr > 0 && t < texts.textPtr
      modifies this`stackPtr, this`cur, this`full, stack
      ensures Ready() && View() == Push(texts.View(), old(View()), t)
    {
      var ok := Save();
      if ok {
        cur := Frame(texts.starts[t], texts.starts[t+1], t, 0);
      }
    }

    /** `pop_level(0)` */
    method Restore()
      requires Ready() && stackPtr > 0
      modifies this`stackPtr, this`cur
      ensures Ready()
      ensures var saved := old(Saved());
              if saved == [] then stackPtr == 0 && cur == old(cur)
              else stackPtr > 0 && cur == saved[|saved|-1] && Saved() == saved[..|saved|-1]
    {
      stackPtr := stackPtr - 1;
      if stackPtr > 0 {
        cur := stack[stackPtr];
      }
    }

    /** `pop_level(1)` */
    method PopLevel()
      requires Ready() && stackPtr > 0 && cur.repl < texts.textPtr
      requires texts.links[cur.repl] < SECTION_FLAG ==> texts.links[cur.repl] < texts.textPtr
      modifies this`stackPtr, this`cur
      ensures Ready() && View() == Pop(texts.View(), old(View()))
    {
      if texts.links[cur.repl] < SECTION_FLAG {
        var t := texts.links[cur.repl];
        cur := Frame(texts.starts[t], texts.starts[t+1], t, cur.section);
      } else {
        Restore();
      }
    }

    lemma LinkInside(t: nat)
      requires texts.Valid() && t < texts.textPtr
      ensures texts.links[t] < SECTION_FLAG ==> texts.links[t] < texts.textPtr
      ensures t > 0 ==> (texts.links[t] == 0 <==> texts.history[t-1].Macro?)
    {
      var h := texts.history;
      assert texts.links[..texts.textPtr][t] == LinkOf(h, t);
      if t == 0 {
        NextIsNext(h, 0, 1);
      } else if h[t-1].Part? {
        NextIsNext(h, h[t-1].name, t + 1);
      }
    }

    /** `output_defs`: whatever state it interrupts is restored. */
    method OutputDefs() returns (ok: bool)
      requires Valid() && stackPtr > 0 && !verbatim
      modifies this`stackPtr, this`cur, this`verbatim, this`full, this`out, stack
      ensures Valid() && (ok <==> old(stackPtr) < STACK_SIZE)
      ensures View() == if ok then old(View()).(out := old(out) + AllDefs(texts.history)) else old(View()).(overflow := true)
    {
      ok := Save();
      if ok {
        OutputMacros();
        Restore();
      }
    }

    method OutputMacros()
      requires texts.Valid() && !verbatim
      modifies this`cur, this`verbatim, this`out
      ensures !verbatim && out == old(out) + AllDefs(texts.history)
    {
      ghost var h := texts.history;
      ghost var goal := out + AllDefs(h);
      var t := 1;
      while t < texts.textPtr
        invariant 1 <= t <= texts.textPtr && !verbatim && out + DefsFrom(h, t) == goal
      {
        LinkInside(t);
        if texts.links[t] == 0 {
          OutputMacro(t);
        } else {
          NoMacro(h, t);
        }
        t := t + 1;
      }
    }

    lemma NoMacro(h: seq<Entry>, t: nat)
      requires 0 < t <= |h| && !h[t-1].Macro?
      ensures DefsFrom(h, t) == DefsFrom(h, t + 1)
    {
      assert [] + DefsFrom(h, t + 1) == DefsFrom(h, t + 1);
    }

    /** One definition. */
    method OutputMacro(t: nat)
      requires texts.Valid() && 0 < t < texts.textPtr && texts.links[t] == 0 && !verbatim
      modifies this`cur, this`verbatim, this`out
      ensures !verbatim && out + DefsFrom(texts.history, t + 1) == old(out) + DefsFrom(texts.history, t)
    {
      ghost var base := out;
      ghost var items := MacroAt(t);
      cur := cur.(byte := texts.starts[t], end := texts.starts[t+1]);
      out := out + [DefStart];
      verbatim := false;
      OutputTokens(items);
      out := out + [DefEnd];
      DefinitionSum(base, items, DefsFrom(texts.history, t + 1));
    }

    method OutputTokens(ghost items: seq<Item>)
      requires texts.tokPtr <= texts.tokMem.Length && !verbatim
      requires LeftAt(texts.Mem(), cur.byte, cur.end, Left(false, STRING, [], items))
      modifies this`cur, this`verbatim, this`out
      ensures !verbatim && out == old(out) + MacroEvents(items)
    {
      ghost var mem, l := texts.Mem(), Left(false, STRING, [], items);
      ghost var goal := out + MacroEvents(items);
      OutsideEvents(l);
      while cur.byte < cur.end
        invariant LeftAt(mem, cur.byte, cur.end, l) && verbatim == l.inside && out + l.Events() == goal
        decreases cur.end - cur.byte
      {
        if cur.byte + 1 == cur.end && texts.tokMem[cur.byte] == NEWLINE {
          LastNewline(mem, cur.byte, cur.end, l);
          cur := cur.(byte := cur.end);
          l := Left(false, STRING, [], []);
          break;
        }
        NextToken(mem, cur.byte, cur.end, l);
        Regroup(out, [MacroStep(mem, cur.byte, verbatim).2], l.Tail().Events());
        MacroToken(mem);
        l := l.Tail();
      }
      NothingLeft(mem, cur.byte, cur.end, l);
      assert out + [] == out;
    }

    /** Text t is a macro, and where it is. */
    lemma MacroAt(t: nat) returns (items: seq<Item>)
      requires texts.Valid() && 0 < t < texts.textPtr && texts.links[t] == 0
      ensures texts.starts[t] <= texts.starts[t+1] <= texts.tokPtr
      ensures LeftAt(texts.Mem(), texts.starts[t], texts.starts[t+1], Left(false, STRING, [], items))
      ensures var h := texts.history; DefsFrom(h, t) == [DefStart] + MacroEvents(items) + [DefEnd] + DefsFrom(h, t + 1)
    {
      var h := texts.history;
      LinkInside(t);
      items := h[t-1].items;
      assert Scanned(h[t-1], texts.equiv.Length);
      assert StoredText(texts.Mem(), texts.starts[..texts.textPtr+1], h, t) && TextsOf(h)[t] == items;
      assert [] + EncodeAll(items) == EncodeAll(items);
    }

    method MacroToken(ghost mem: seq<Byte>)
      requires texts.tokPtr <= texts.tokMem.Length && mem == texts.Mem()
      requires cur.byte + 1 < |mem| || (cur.byte < |mem| && mem[cur.byte] < 128)
      modifies this`cur, this`verbatim, this`out
      ensures var r := MacroStep(mem, old(cur.byte), old(verbatim));
              cur == old(cur).(byte := r.0) && verbatim == r.1 && out == old(out) + [r.2]
    {
      var a := texts.tokMem[cur.byte];
      cur := cur.(byte := cur.byte + 1);
      if verbatim && !IsMark(a) && a != NEWLINE {
        out := out + [Raw(a)];
      } else if a < 128 {
        OutChar(a);
      } else {
        var v := Word(a, texts.tokMem[cur.byte]);
        cur := cur.(byte := cur.byte + 1);
        out := out + [Name(v)];
      }
    }

    // A character; strings and constants begin and end with their marks.
    method OutChar(a: Byte)
      modifies this`verbatim, this`out
      ensures out == old(out) + [Out(a)] && verbatim == if IsMark(a) then !old(verbatim) else old(verbatim)
    {
      out := out + [Out(a)];
      if IsMark(a) {
        verbatim := !verbatim;
      }
    }

    /** One pass through `get_output`; `again` tells whether it goes back to `restart`. */
    method Pass(ghost img: Image, ghost defs: seq<Event>, ghost step: Machine -> Machine, ghost m: Machine) returns (again: bool)
      requires Valid() && stackPtr > 0 && !full && Placed(m, texts.textPtr)
      requires img == texts.View() && defs == AllDefs(texts.history) && m == View() && Steps(step, img, defs) && step(m) != m
      modifies this`stackPtr, this`cur, this`verbatim, this`full, this`out, stack
      ensures Valid() && View() == step(m)
    {
      again := false;
      if cur.byte == cur.end {
        StepPop(img, defs, step, m);
        again := EndOfText(img, m);
      } else {
        StepRead(img, defs, step, m);
        var a := texts.tokMem[cur.byte];
        if verbatim && !IsMark(a) && a != NEWLINE {
          cur := cur.(byte := cur.byte + 1);
          out := out + [Raw(a)];
        } else if a < 128 {
          cur := cur.(byte := cur.byte + 1);
          OutChar(a);
        } else {
          again := TwoByteCode(Word(a, texts.tokMem[cur.byte+1]), img, defs, m, step(m));
        }
      }
    }

    method EndOfText(ghost img: Image, ghost m: Machine) returns (again: bool)
      requires Valid() && stackPtr > 0 && !full && Placed(m, texts.textPtr) && img == texts.View() && m == View()
      modifies this`stackPtr, this`cur, this`out
      ensures Valid() && View() == Pop(img, m).(out := m.out + Closing(m.cur.section))
    {
      var section := cur.section;
      LinkInside(cur.repl);
      PopLevel();
      again := section == 0;
      NothingMore(m.out);
      if !again {
        out := out + [Close(section)];
      }
    }

    method TwoByteCode(v: nat, ghost img: Image, ghost defs: seq<Event>, ghost m: Machine, ghost next: Machine) returns (again: bool)
      requires Valid() && stackPtr > 0 && !full && !verbatim && m == View() && img == texts.View() && defs == AllDefs(texts.history)
      requires cur.byte + 1 < texts.tokPtr && Coded(img, defs, m, v, next) && next != m
      modifies this`stackPtr, this`cur, this`verbatim, this`full, this`out, stack
      ensures Valid() && View() == next
    {
      again := false;
      if v < NAME_LIMIT {
        PutName(v, m);
      } else if v == OUTPUT_DEFS {
        PutDefs(defs, m);
      } else if v < 2 * NAME_LIMIT {
        HeadInside(v - NAME_LIMIT);
        UseName(v - NAME_LIMIT, img, m);
        again := true;
      } else if v > 2 * NAME_LIMIT {
        SectionNumber(v - 2 * NAME_LIMIT, m);
      } else {
        LineNumber(img, m);
      }
    }

    method PutName(v: nat, ghost m: Machine)
      requires Ready() && m == View()
      modifies this`cur, this`out
      ensures View() == Emit(Skip(m, 2), Name(v))
    {
      cur := cur.(byte := cur.byte + 2);
      out := out + [Name(v)];
    }

    method PutDefs(ghost defs: seq<Event>, ghost m: Machine)
      requires Valid() && stackPtr > 0 && !verbatim && defs == AllDefs(texts.history) && m == View()
      modifies this`stackPtr, this`cur, this`verbatim, this`full, this`out, stack
      ensures Valid()
      ensures View() == if |m.saved| + 1 == STACK_SIZE then Skip(m, 2).(overflow := true) else Skip(m, 2).(out := m.out + defs)
    {
      cur := cur.(byte := cur.byte + 2);
      var ok := OutputDefs();
    }

    method UseName(n: nat, ghost img: Image, ghost m: Machine)
      requires Ready() && stackPtr > 0 && img == texts.View() && m == View()
      requires n < texts.equiv.Length ==> texts.equiv[n] < texts.textPtr
      modifies this`stackPtr, this`cur, this`full, stack
      ensures Ready() && View() == Used(img, Skip(m, 2), n)
    {
      cur := cur.(byte := cur.byte + 2);
      if n < texts.equiv.Length && texts.equiv[n] != 0 {
        PushLevel(texts.equiv[n]);
      }
    }

    lemma HeadInside(n: nat)
      requires texts.Valid()
      ensures n < texts.equiv.Length ==> texts.equiv[n] < texts.textPtr
    {
      if n < texts.equiv.Length {
        assert texts.equiv[..][n] == if n == 0 then 0 else Head(texts.history, n);
        NextIsNext(texts.history, n, 1);
      }
    }

    /** The number of a section. */
    method SectionNumber(n: nat, ghost m: Machine)
      requires Ready() && m == View()
      modifies this`cur, this`out
      ensures View() == Emit(m.(cur := m.cur.(byte := m.cur.byte + 2, section := n)), Open(n))
    {
      cur := cur.(byte := cur.byte + 2, section := n);
      out := out + [Open(n)];
    }

    /** A line mark: two more bytes of line number, and the code of the file name. */
    method LineNumber(ghost img: Image, ghost m: Machine)
      requires Ready() && img == texts.View() && m == View()
      requires m.cur.byte + 5 < |img.mem| && img.mem[m.cur.byte+4] >= 128
      modifies this`cur, this`out
      ensures var b, mem := m.cur.byte, img.mem;
              View() == Emit(Skip(m, 6), LineMark(mem[b+2] as int * 256 + mem[b+3] as int, Word(mem[b+4], mem[b+5])))
    {
      var b := cur.byte;
      cur := cur.(byte := b + 6);
      var l: int := texts.tokMem[b+2] as int * 256 + texts.tokMem[b+3] as int;
      out := out + [LineMark(l, Word(texts.tokMem[b+4], texts.tokMem[b+5]))];
    }

    /** `get_output`: one or more passes, which are steps of the machine; `stop` is a
        number of steps after which the machine has stopped. */
    method GetOutput(ghost img: Image, ghost defs: seq<Event>, ghost step: Machine -> Machine, ghost m: Machine, ghost stop: nat)
      returns (ghost n: nat, ghost r: Machine)
      requires Valid() && stackPtr > 0 && !full && Placed(View(), texts.textPtr)
      requires img == texts.View() && defs == AllDefs(texts.history) && m == View()
      requires Steps(step, img, defs) && Stopped(Iterate(step, m, stop))
      modifies this`stackPtr, this`cur, this`verbatim, this`full, this`out, stack
      ensures Valid() && n > 0 && View() == r && r == Iterate(step, m, n) && Placed(r, texts.textPtr)
    {
      n, r := 0, m;
      var again := true;
      while again && stackPtr > 0 && !full
        invariant Valid() && View() == r && r == Iterate(step, m, n) && Placed(r, texts.textPtr)
        invariant n == 0 ==> again && stackPtr > 0 && !full
        decreases stop - n
      {
        Running(img, defs, step, m, n, stop);
        StepPlaced(img, defs, step, r, texts.textPtr);
        again := Pass(img, defs, step, r);
        n, r := n + 1, step(r);
      }
    }

    /** `while (stack_ptr > stack) get_output();` */
    method Run(ghost img: Image, ghost defs: seq<Event>, ghost step: Machine -> Machine, ghost m: Machine, ghost stop: nat)
      requires Valid() && m == View() && Placed(m, texts.textPtr)
      requires img == texts.View() && defs == AllDefs(texts.history)
      requires Steps(step, img, defs) && Stopped(Iterate(step, m, stop))
      modifies this`stackPtr, this`cur, this`verbatim, this`full, this`out, stack
      ensures Valid() && View() == Iterate(step, m, stop)
    {
      ghost var n, r := 0, m;
      while stackPtr > 0 && !full
        invariant Valid() && View() == r && r == Iterate(step, m, n) && Placed(r, texts.textPtr)
        decreases stop - n
      {
        RestOfRun(img, defs, step, m, n, r, stop);
        ghost var more, next := GetOutput(img, defs, step, r, stop - n);
        SomeMore(step, m, n, r, more, next);
        n, r := n + more, next;
      }
      StopsOnce(img, defs, step, m, n, stop);
    }

    /** Run from the start of text t, at the bottom of the stack. */
    method RunText(t: nat, section: nat, ghost o: Output, ghost after: nat, ghost step: Machine -> Machine, ghost stop: nat)
      requires Valid() && !full && !verbatim && t < texts.textPtr && Steps(step, texts.View(), AllDefs(texts.history))
      requires Ended(Iterate(step, Start(texts.View(), t, section, out), stop), out, o, after)
      modifies this`stackPtr, this`cur, this`verbatim, this`full, this`out, stack
      ensures Valid() && (!full ==> !verbatim && stackPtr == 0 && cur.section == after) && full == !o.ok && out == old(out) + o.out
    {
      stackPtr := 1;
      cur := Frame(texts.starts[t], texts.starts[t+1], t, section);
      assert View() == Start(texts.View(), t, section, out);
      Run(texts.View(), AllDefs(texts.history), step, View(), stop);
    }

    /** An output file of its own. A name without definition starts at text 0, which leads
        to the unnamed program. */
    method WriteFile(name: nat)
      requires Valid() && !full && !verbatim && name < texts.equiv.Length && Defined(texts.history, Root(texts.history, name))
      modifies this`stackPtr, this`cur, this`verbatim, this`full, this`out, stack
      ensures Valid() && (!full ==> !verbatim)
      ensures var h, section := texts.history, old(cur).section;
              var o := FileOut(h, AllDefs(h), name, section);
              && full == !o.ok && out == old(out) + o.out
              && (!full ==> cur.section == SectionFrom(h, Root(h, name), 1, section))
    {
      ghost var h := texts.history;
      ghost var step, stop := FileRun(name, cur.section);
      HeadInside(name);
      RunText(texts.equiv[name], cur.section, FileOut(h, AllDefs(h), name, cur.section),
              SectionFrom(h, Root(h, name), 1, cur.section), step, stop);
    }

    lemma FileRun(name: nat, section: nat) returns (step: Machine -> Machine, stop: nat)
      requires Valid() && name < texts.equiv.Length && Defined(texts.history, Root(texts.history, name))
      ensures texts.equiv[name] < texts.textPtr && Steps(step, texts.View(), AllDefs(texts.history))
      ensures var h := texts.history;
              Ended(Iterate(step, Start(texts.View(), texts.equiv[name], section, out), stop), out,
                    FileOut(h, AllDefs(h), name, section), SectionFrom(h, Root(h, name), 1, section))
    {
      var h, img := texts.history, texts.View();
      HeadInside(name);
      MemoryMeans(name);
      step := StepFunction(img, AllDefs(h));
      stop := RunFile(h, texts.equiv.Length, img, AllDefs(h), step, name, section, out);
    }

    /** The unnamed program. */
    method WriteUnnamed()
      requires Valid() && !full && !verbatim && Defined(texts.history, 0)
      modifies this`stackPtr, this`cur, this`verbatim, this`full, this`out, stack
      ensures Valid() && (!full ==> !verbatim && cur.section == SectionFrom(texts.history, 0, 1, 0))
      ensures var o := NameOut(texts.history, 0); full == !o.ok && out == old(out) + o.out
    {
      ghost var step, stop := UnnamedRun();
      LinkInside(0);
      RunText(texts.links[0], 0, NameOut(texts.history, 0), SectionFrom(texts.history, 0, 1, 0), step, stop);
    }

    lemma UnnamedRun() returns (step: Machine -> Machine, stop: nat)
      requires Valid() && Defined(texts.history, 0)
      ensures 0 < texts.links[0] < texts.textPtr && Steps(step, texts.View(), AllDefs(texts.history))
      ensures Ended(Iterate(step, Start(texts.View(), texts.links[0], 0, out), stop), out,
                    NameOut(texts.history, 0), SectionFrom(texts.history, 0, 1, 0))
    {
      var h, names, img := texts.history, texts.equiv.Length, texts.View();
      MemoryMeans(0);
      assert texts.links[..texts.textPtr][0] == LinkOf(h, 0);
      NextIsNext(h, 0, 1);
      step := StepFunction(img, AllDefs(h));
      stop := RunHead(h, names, ProgramOf(h, names), img, AllDefs(h), step, 0, 0, out);
    }

    /** What the output files ask for can be found. */
    ghost predicate Found(outputs: seq<nat>)
      reads texts
    {
      var h := texts.history;
      forall i :: 0 <= i < |outputs| ==> 0 < outputs[i] < texts.equiv.Length && Defined(h, Root(h, outputs[i]))
    }

    /** `phase_two`: the C file, then the other output files in the order in which the
        source mentions them. */
    method PhaseTwo(outputs: seq<nat>) returns (files: seq<seq<Event>>)
      requires Valid() && texts.Noted() && !full && !verbatim && Found(outputs)
      modifies this`stackPtr, this`cur, this`verbatim, this`full, this`out, stack
      ensures Valid() && full == !AllFilesFit(texts.history, outputs)
      ensures !full ==> files == [MainFile(texts.history)] + OtherFiles(texts.history, outputs)
    {
      files := [];
      WriteMain();
      if !full {
        files := WriteOthers([out], outputs);
      }
    }

    method WriteMain()
      requires Valid() && texts.Noted() && !full && !verbatim
      modifies this`stackPtr, this`cur, this`verbatim, this`full, this`out, stack
      ensures Valid() && full == !UnnamedFits(texts.history)
      ensures !full ==> !verbatim && out == MainFile(texts.history) && cur.section == LeftBehind(texts.history, [])
    {
      out := [];
      cur := cur.(section := 0);
      if !texts.defsSeen {
        stackPtr := 1;
        var ok := OutputDefs();
        assert [] + AllDefs(texts.history) == AllDefs(texts.history);
      }
      WriteProgram();
    }

    method WriteProgram()
      requires Valid() && !full && !verbatim && cur.section == 0
      modifies this`stackPtr, this`cur, this`verbatim, this`full, this`out, stack
      ensures Valid() && full == !UnnamedFits(texts.history)
      ensures !full ==> !verbatim && cur.section == SectionFrom(texts.history, 0, 1, 0)
      ensures !full ==> out == old(out) + if Defined(texts.history, 0) then NameOut(texts.history, 0).out + [Out(NEWLINE)] else []
    {
      HeadOfUnnamed();
      if texts.links[0] != 0 {
        ghost var before := out;
        WriteUnnamed();
        if !full {
          EndFile();
          Regroup(before, NameOut(texts.history, 0).out, [Out(NEWLINE)]);
        }
      } else {
        NothingUnnamed(texts.history);
        assert out + [] == out;
      }
    }

    lemma HeadOfUnnamed()
      requires Valid()
      ensures texts.links[0] != 0 <==> Defined(texts.history, 0)
    {
      MemoryMeans(0);
      assert texts.links[..texts.textPtr][0] == LinkOf(texts.history, 0);
    }

    /** `flush_buffer` at the end of a file. */
    method EndFile()
      modifies this`out
      ensures out == old(out) + [Out(NEWLINE)]
    {
      out := out + [Out(NEWLINE)];
    }

    method WriteOther(name: nat)
      requires Valid() && !full && !verbatim && 0 < name < texts.equiv.Length && Defined(texts.history, Root(texts.history, name))
      modifies this`stackPtr, this`cur, this`verbatim, this`full, this`out, stack
      ensures Valid() && full == !FileFits(texts.history, name)
      ensures var h, section := texts.history, old(cur).section;
              !full ==> !verbatim && out == FileOut(h, AllDefs(h), name, section).out + [Out(NEWLINE)]
                        && cur.section == SectionFrom(h, Root(h, name), 1, section)
    {
      ghost var o := FileOut(texts.history, AllDefs(texts.history), name, cur.section).out;
      out := [];
      FileFitsIffRoot(texts.history, name, cur.section);
      WriteFile(name);
      if !full {
        assert [] + o == o;
        EndFile();
      }
    }

    method WriteOthers(main: seq<seq<Event>>, outputs: seq<nat>) returns (files: seq<seq<Event>>)
      requires Valid() && !full && !verbatim && Found(outputs) && cur.section == LeftBehind(texts.history, [])
      modifies this`stackPtr, this`cur, this`verbatim, this`full, this`out, stack
      ensures Valid() && full == !OthersFit(texts.history, outputs)
      ensures !full ==> files == main + OtherFiles(texts.history, outputs)
    {
      ghost var h := texts.history;
      files := main;
      var i := 0;
      while i < |outputs|
        invariant Valid() && !full && !verbatim && i <= |outputs| && files == main + OtherFiles(h, outputs[..i])
        invariant OthersFit(h, outputs[..i]) && cur.section == LeftBehind(h, outputs[..i])
      {
        WriteOther(outputs[i]);
        OneFits(h, outputs, i);
        if full {
          return;
        }
        OneFileMore(h, outputs, i, out);
        files := files + [out];
        Regroup(main, OtherFiles(h, outputs[..i]), [out]);
        i := i + 1;
      }
      assert outputs[..i] == outputs;
    }

    // The memory represents the program, and undefined names have no text.
    lemma MemoryMeans(name: nat)
      requires texts.Valid() && name < texts.equiv.Length
      ensures var h := texts.history;
              && Source(h, texts.equiv.Length) && Represents(texts.View(), ProgramOf(h, texts.equiv.Length))
              && (texts.equiv[name] > 0 <==> name > 0 && Defined(h, name))
              && (Head(h, 0) > 0 <==> Defined(h, 0))
    {
      var h, names := texts.history, texts.equiv.Length;
      StoredRepresents(texts.Mem(), texts.starts[..texts.textPtr+1], h, names);
      HeadOfName(h, names, ProgramOf(h, names), name);
      HeadIffDefined(h, 0);
      assert texts.equiv[..][name] == texts.equiv[name];
    }
  }

  /** All texts that the machine is in exist. */
  predicate Placed(m: Machine, texts: nat) {
    m.cur.repl < texts && forall i :: 0 <= i < |m.saved| ==> m.saved[i].repl < texts
  }

  lemma StepPlaced(img: Image, defs: seq<Event>, step: Machine -> Machine, m: Machine, texts: nat)
    requires Steps(step, img, defs) && Placed(m, texts) && |img.starts| == texts + 1
    ensures Placed(step(m), texts)
  {
    assert step(m) == Step(img, defs, m);
  }

  /** What a two-byte code does. */
  predicate Coded(img: Image, defs: seq<Event>, m: Machine, v: nat, next: Machine) {
    var b := m.cur.byte;
    && (v < NAME_LIMIT ==> next == Emit(Skip(m, 2), Name(v)))
    && (v == OUTPUT_DEFS ==>
          next == if |m.saved| + 1 == STACK_SIZE then Skip(m, 2).(overflow := true) else Skip(m, 2).(out := m.out + defs))
    && (NAME_LIMIT <= v < 2 * NAME_LIMIT && v != OUTPUT_DEFS ==> next == Used(img, Skip(m, 2), v - NAME_LIMIT))
    && (v > 2 * NAME_LIMIT ==>
          next == Emit(m.(cur := m.cur.(byte := b + 2, section := v - 2 * NAME_LIMIT)), Open(v - 2 * NAME_LIMIT)))
    && (v == 2 * NAME_LIMIT ==>
          if b + 5 >= |img.mem| || img.mem[b + 4] < 128 then next == m
          else next == Emit(Skip(m, 6), LineMark(img.mem[b+2] as int * 256 + img.mem[b+3] as int, Word(img.mem[b+4], img.mem[b+5]))))
  }

  /** A section name, as far as it is defined. */
  function Used(img: Image, m: Machine, n: nat): Machine {
    if n >= |img.equiv| || img.equiv[n] == 0 || img.equiv[n] + 1 >= |img.starts| then m else Push(img, m, img.equiv[n])
  }

  /** One step that reads. */
  lemma StepRead(img: Image, defs: seq<Event>, step: Machine -> Machine, m: Machine)
    requires Steps(step, img, defs) && m.active && !m.overflow && m.cur.byte != m.cur.end && step(m) != m
    ensures m.cur.byte < |img.mem|
    ensures var a := img.mem[m.cur.byte];
            if m.verbatim && !IsMark(a) && a != NEWLINE then step(m) == Emit(Skip(m, 1), Raw(a))
            else if a < 128 then step(m) == Emit(Skip(m, 1), Out(a)).(verbatim := if IsMark(a) then !m.verbatim else m.verbatim)
            else m.cur.byte + 1 < |img.mem| && Coded(img, defs, m, Word(a, img.mem[m.cur.byte + 1]), step(m))
  {
    assert step(m) == Step(img, defs, m);
  }

  lemma {:induction false} StaysStopped(img: Image, defs: seq<Event>, step: Machine -> Machine, m: Machine, n: nat)
    requires Steps(step, img, defs) && Stopped(m)
    ensures Iterate(step, m, n) == m
  {
    assert step(m) == Step(img, defs, m);
    IterateFixed(step, m, n);
  }

  lemma RestStops(step: Machine -> Machine, m: Machine, n: nat, stop: nat)
    requires n <= stop
    ensures Iterate(step, m, stop) == Iterate(step, Iterate(step, m, n), stop - n)
  {
    IterateSum(step, m, n, stop - n);
  }

  lemma SomeMore(step: Machine -> Machine, m: Machine, n: nat, before: Machine, more: nat, after: Machine)
    requires before == Iterate(step, m, n) && after == Iterate(step, before, more)
    ensures after == Iterate(step, m, n + more)
  {
    IterateSum(step, m, n, more);
  }

  // A machine that has not stopped has not made its last step, and its next one moves it.
  lemma Running(img: Image, defs: seq<Event>, step: Machine -> Machine, m: Machine, n: nat, stop: nat)
    requires Steps(step, img, defs) && Stopped(Iterate(step, m, stop)) && !Stopped(Iterate(step, m, n))
    ensures n < stop && step(Iterate(step, m, n)) != Iterate(step, m, n)
  {
    var r := Iterate(step, m, n);
    if n >= stop {
      RestStops(step, m, stop, n);
      StaysStopped(img, defs, step, Iterate(step, m, stop), n - stop);
    } else {
      RestStops(step, m, n, stop);
      assert step(r) == Step(img, defs, r);
      if step(r) == r {
        IterateFixed(step, r, stop - n);
      }
    }
  }

  lemma RestOfRun(img: Image, defs: seq<Event>, step: Machine -> Machine, m: Machine, n: nat, r: Machine, stop: nat)
    requires Steps(step, img, defs) && Stopped(Iterate(step, m, stop)) && r == Iterate(step, m, n) && !Stopped(r)
    ensures n < stop && Stopped(Iterate(step, r, stop - n))
  {
    Running(img, defs, step, m, n, stop);
    RestStops(step, m, n, stop);
  }

  lemma StopsOnce(img: Image, defs: seq<Event>, step: Machine -> Machine, m: Machine, a: nat, b: nat)
    requires Steps(step, img, defs) && Stopped(Iterate(step, m, a)) && Stopped(Iterate(step, m, b))
    ensures Iterate(step, m, a) == Iterate(step, m, b)
  {
    var first, last := if a < b then a else b, if a < b then b else a;
    RestStops(step, m, first, last);
    StaysStopped(img, defs, step, Iterate(step, m, first), last - first);
  }

  lemma StepFunction(img: Image, defs: seq<Event>) returns (step: Machine -> Machine)
    ensures Steps(step, img, defs)
  {
    step := m => Step(img, defs, m);
  }
}
