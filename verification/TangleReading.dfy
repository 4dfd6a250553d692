// What comes out for a text says what the text was (cweb/ctangle.c:547-589, 746-780).

module TangleReading {
  import opened Basics
  import opened TangleTokens
  import opened TangleExpansion
  import opened TangleChains
  import opened TangleDefs
  import opened TangleMain

  /** The characters of a string or constant; only its newlines come out like those of the
      program. */
  function ContentRead(events: seq<Event>): seq<Byte> {
    if events == [] then []
    else (match events[0] case Raw(b) => [b] case Out(c) => [c] case _ => []) + ContentRead(events[1..])
  }

  function MarkAt(events: seq<Event>, i: nat): (k: nat)
    requires i <= |events|
    ensures i <= k <= |events|
    decreases |events| - i
  {
    if i == |events| || (events[i].Out? && IsMark(events[i].c)) then i else MarkAt(events, i + 1)
  }

  /** The tokens that the events stand for. */
  function Reread(events: seq<Event>): seq<Item>
    decreases |events|
  {
    if events == [] then []
    else
      var rest := events[1..];
      match events[0]
      case Out(c) =>
        if IsMark(c) && MarkAt(rest, 0) < |rest| then
          [Verbatim(c, ContentRead(rest[..MarkAt(rest, 0)]))] + Reread(rest[MarkAt(rest, 0) + 1..])
        else [Char(c)] + Reread(rest)
      case Name(n) => [Ident(n)] + Reread(rest)
      case Open(n) => [Number(n)] + Reread(rest)
      case LineMark(l, f) => [Line(l, f)] + Reread(rest)
      case _ => Reread(rest)
  }

  lemma {:induction false} ContentReadBack(content: seq<Byte>)
    ensures ContentRead(ContentEvents(content)) == content && |ContentEvents(content)| == |content|
    ensures Raw(NEWLINE) !in ContentEvents(content)
    ensures forall j :: 0 <= j < |content| ==> ContentEvents(content)[j] == if content[j] == NEWLINE then Out(NEWLINE) else Raw(content[j])
  {
    if content != [] {
      ContentReadBack(content[1..]);
      var events := ContentEvents(content);
      assert events[1..] == ContentEvents(content[1..]);
    }
  }

  lemma {:induction false} MarkAtEnd(events: seq<Event>, mark: Byte, rest: seq<Event>, i: nat)
    requires i <= |events| && IsMark(mark) && forall j :: 0 <= j < |events| ==> !(events[j].Out? && IsMark(events[j].c))
    ensures MarkAt(events + ([Out(mark)] + rest), i) == |events|
    decreases |events| - i
  {
    var all := events + ([Out(mark)] + rest);
    if i < |events| {
      assert all[i] == events[i];
      MarkAtEnd(events, mark, rest, i + 1);
    } else {
      assert all[i] == Out(mark);
    }
  }

  lemma VerbatimReadBack(i: Item, rest: seq<Event>)
    requires i.Verbatim? && Fits(i) && Clean(i)
    ensures Reread(ItemEvents(i) + rest) == [i] + Reread(rest)
  {
    var content := ContentEvents(i.content);
    ContentReadBack(i.content);
    MarkAtEnd(content, i.mark, rest, 0);
    var tail := content + ([Out(i.mark)] + rest);
    var all := ItemEvents(i) + rest;
    assert all == [Out(i.mark)] + tail && all[1..] == tail;
    assert tail[..|content|] == content && tail[|content|+1..] == rest;
  }

  lemma ItemReadBack(i: Item, rest: seq<Event>)
    requires Fits(i) && Clean(i) && !i.Section? && !i.Defs?
    ensures Reread(ItemEvents(i) + rest) == [i] + Reread(rest) && Raw(NEWLINE) !in ItemEvents(i)
  {
    if i.Verbatim? {
      VerbatimReadBack(i, rest);
      ContentReadBack(i.content);
    } else {
      assert (ItemEvents(i) + rest)[1..] == rest && (ItemEvents(i) + rest)[0] == ItemEvents(i)[0];
    }
  }

  /** The events of a text without references tell its tokens; the newlines in its strings
      come out as newlines. */
  lemma {:induction false} TextReadsBack(items: seq<Item>)
    requires AllFit(items) && AllClean(items) && forall k :: 0 <= k < |items| ==> !items[k].Section? && !items[k].Defs?
    ensures Reread(EventsOf(items)) == items && Raw(NEWLINE) !in EventsOf(items)
    decreases |items|
  {
    if items != [] {
      assert Fits(items[0]) && Clean(items[0]);
      ItemReadBack(items[0], EventsOf(items[1..]));
      TextReadsBack(items[1..]);
      assert items == [items[0]] + items[1..];
    }
  }

  /** Every output file is the expansion of its name, if that is defined, and ends with a
      newline; the files come in the order in which they were asked for. */
  lemma {:induction false} OtherFilesAre(h: seq<Entry>, outputs: seq<nat>, k: nat)
    requires k < |outputs|
    ensures |OtherFiles(h, outputs)| == |outputs|
    ensures var file := OtherFiles(h, outputs)[k];
            && file != [] && file[|file|-1] == Out(NEWLINE)
            && (outputs[k] > 0 && Defined(h, outputs[k]) ==>
                  file[..|file|-1] == Expansion(h, AllDefs(h), STACK_SIZE - 1, outputs[k], 1).out)
    decreases |outputs|
  {
    var n := |outputs| - 1;
    OtherFilesCount(h, outputs[..n]);
    if k < n {
      OtherFilesAre(h, outputs[..n], k);
    } else {
      var out := LastFile(h, outputs).out;
      assert (out + [Out(NEWLINE)])[..|out|] == out;
    }
  }

  lemma {:induction false} OtherFilesCount(h: seq<Entry>, outputs: seq<nat>)
    ensures |OtherFiles(h, outputs)| == |outputs|
    decreases |outputs|
  {
    if outputs != [] {
      OtherFilesCount(h, outputs[..|outputs|-1]);
    }
  }
}
