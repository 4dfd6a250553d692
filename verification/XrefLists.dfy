// The cross-reference lists of CWEAVE as sequences of numbers
// (cweb/cweave.c:124-131, 1006-1060, 1575-1591, 1642-1645, 2104-2138).

module XrefLists {

  const CITE_FLAG := 10240
  const DEF_FLAG := 2 * CITE_FLAG
  const FILE_FLAG := 3 * CITE_FLAG

  // ---------- identifiers

  /** An entry n is a use in section n, or a definition in section n - DEF_FLAG. */
  predicate IsDef(n: nat) { n > DEF_FLAG }

  function SectionOf(n: nat): nat { if n > DEF_FLAG then n - DEF_FLAG else n }

  predicate IdEntry(n: nat, last: nat) {
    0 < SectionOf(n) <= last && SectionOf(n) < CITE_FLAG
  }

  /** One entry for every section, the latest first. */
  predicate Decreasing(list: seq<nat>, last: nat) {
    && (forall i :: 0 <= i < |list| ==> IdEntry(list[i], last))
    && (forall i, j :: 0 <= i < j < |list| ==> SectionOf(list[i]) > SectionOf(list[j]))
  }

  /** The sections that are referred to, and whether the identifier is defined there. */
  function References(list: seq<nat>): map<nat, bool> {
    if list == [] then map[] else References(list[1..])[SectionOf(list[0]) := IsDef(list[0])]
  }

  function Entry(section: nat, def: bool): nat { section + if def then DEF_FLAG else 0 }

  /** `new_xref` */
  function NewXref(list: seq<nat>, section: nat, def: bool): seq<nat> {
    var m := Entry(section, def);
    if list != [] && (list[0] == m || list[0] == m + DEF_FLAG) then list
    else if list != [] && m == list[0] + DEF_FLAG then [m] + list[1..]
    else [m] + list
  }

  lemma {:induction false} ReferencesBounded(list: seq<nat>, last: nat)
    requires Decreasing(list, last)
    ensures forall s :: s in References(list) ==> s <= last
    ensures list != [] ==> forall s :: s in References(list[1..]) ==> s < SectionOf(list[0])
    decreases |list|
  {
    if list != [] {
      var rest := list[1..];
      assert forall i :: 0 <= i < |rest| ==> rest[i] == list[i+1];
      assert Decreasing(rest, SectionOf(list[0]) - 1);
      ReferencesBounded(rest, SectionOf(list[0]) - 1);
    }
  }

  /** As sections go by, a list keeps one entry for each section, and a definition there
      counts for more than a use. */
  lemma NewXrefKeeps(list: seq<nat>, before: nat, section: nat, def: bool)
    requires Decreasing(list, before) && before <= section && 0 < section < CITE_FLAG
    ensures var list2, refs := NewXref(list, section, def), References(list);
            && Decreasing(list2, section)
            && References(list2) == refs[section := def || (section in refs && refs[section])]
  {
    ReferencesBounded(list, before);
    if list != [] {
      assert IdEntry(list[0], before);
    }
    if list != [] && SectionOf(list[0]) == section {
      SameSection(list, before, section, def);
    } else {
      OneSectionMore(list, before, section, def);
    }
  }

  lemma SameSection(list: seq<nat>, before: nat, section: nat, def: bool)
    requires Decreasing(list, before) && before <= section < CITE_FLAG && list != [] && SectionOf(list[0]) == section > 0
    ensures var list2 := [Entry(section, def || IsDef(list[0]))] + list[1..];
            && NewXref(list, section, def) == list2 && Decreasing(list2, section)
            && References(list2) == References(list)[section := def || References(list)[section]]
  {
    var list2 := [Entry(section, def || IsDef(list[0]))] + list[1..];
    assert list2[1..] == list[1..];
    forall i | 0 < i < |list2|
      ensures list2[i] == list[i]
    {
    }
    assert [list[0]] + list[1..] == list;
  }

  lemma OneSectionMore(list: seq<nat>, before: nat, section: nat, def: bool)
    requires Decreasing(list, before) && before <= section < CITE_FLAG && 0 < section && (list != [] ==> SectionOf(list[0]) != section)
    ensures var list2 := [Entry(section, def)] + list;
            NewXref(list, section, def) == list2 && Decreasing(list2, section) && References(list2) == References(list)[section := def]
    ensures section !in References(list)
  {
    var list2 := [Entry(section, def)] + list;
    assert list2[1..] == list;
    if list != [] {
      assert IdEntry(list[0], before);
      Earlier(list, before);
      ReferencesBounded(list, SectionOf(list[0]));
    }
    InFront(list, section - 1, Entry(section, def), section);
  }

  lemma Earlier(list: seq<nat>, last: nat)
    requires Decreasing(list, last) && list != []
    ensures Decreasing(list, SectionOf(list[0]))
  {
    forall i | 0 <= i < |list|
      ensures IdEntry(list[i], SectionOf(list[0]))
    {
      assert IdEntry(list[i], last);
    }
  }

  lemma InFront(list: seq<nat>, last: nat, m: nat, section: nat)
    requires (list == [] || SectionOf(list[0]) <= last) && last < section && IdEntry(m, section) && SectionOf(m) == section
    requires list == [] || Decreasing(list, SectionOf(list[0]))
    ensures Decreasing([m] + list, section)
  {
    var list2 := [m] + list;
    forall i | 0 < i < |list2|
      ensures list2[i] == list[i-1] && SectionOf(list2[i]) < section && IdEntry(list2[i], section)
    {
      assert IdEntry(list[i-1], SectionOf(list[0]));
    }
  }

  // ---------- making a reference a definition

  /** Where the walk of `underline_xref` stops. */
  function Stop(list: seq<nat>, m: nat): (k: nat)
    ensures k <= |list|
  {
    if list == [] || list[0] == m || m == list[0] + DEF_FLAG || DEF_FLAG <= list[0] < m then 0 else 1 + Stop(list[1..], m)
  }

  /** `underline_xref`: the reference becomes a definition; if there is none, one is put in
      where the walk stops. */
  function Underline(list: seq<nat>, m: nat): seq<nat> {
    var k := Stop(list, m);
    if k < |list| && list[k] == m then list
    else if k < |list| && m == list[k] + DEF_FLAG then list[k := m]
    else list[..k] + [m] + list[k..]
  }

  /** The walk stops at the entry of the section, at the first definition in an earlier
      section before it, or at the end. */
  lemma {:induction false} StopMeans(list: seq<nat>, last: nat, section: nat)
    requires Decreasing(list, last) && 0 < section < CITE_FLAG
    ensures var k := Stop(list, section + DEF_FLAG);
            && (forall i :: 0 <= i < k ==> SectionOf(list[i]) != section && !(IsDef(list[i]) && SectionOf(list[i]) < section))
            && (k < |list| ==> SectionOf(list[k]) == section || (IsDef(list[k]) && SectionOf(list[k]) < section))
    decreases |list|
  {
    if list != [] {
      assert IdEntry(list[0], last);
      var rest := list[1..];
      assert forall i :: 0 <= i < |rest| ==> rest[i] == list[i+1];
      StopMeans(rest, last, section);
    }
  }

  /** A recorded reference becomes a definition, and nothing else changes. */
  lemma UnderlineRecorded(list: seq<nat>, last: nat, section: nat, at: nat)
    requires Decreasing(list, last) && 0 < section < CITE_FLAG && at < |list| && SectionOf(list[at]) == section
    ensures Underline(list, section + DEF_FLAG) == list[at := section + DEF_FLAG]
    ensures Decreasing(list[at := section + DEF_FLAG], last)
  {
    StopMeans(list, last, section);
    var k := Stop(list, section + DEF_FLAG);
    assert IdEntry(list[at], last);
    assert k <= at;
  }

  /** A reference that was not recorded goes to its place if and only if no use in an
      earlier section comes before the first definition in one. */
  lemma UnderlineUnrecorded(list: seq<nat>, last: nat, section: nat)
    requires Decreasing(list, last) && 0 < section <= last && section < CITE_FLAG
    requires forall i :: 0 <= i < |list| ==> SectionOf(list[i]) != section
    ensures var m := section + DEF_FLAG;
            Decreasing(Underline(list, m), last) <==> forall i :: 0 <= i < Stop(list, m) ==> SectionOf(list[i]) > section
  {
    var m := section + DEF_FLAG;
    StopMeans(list, last, section);
    var k, list2 := Stop(list, m), Underline(list, m);
    assert list2 == list[..k] + [m] + list[k..];
    if forall i :: 0 <= i < k ==> SectionOf(list[i]) > section {
      PutInPlace(list, last, section, k);
    } else {
      var i :| 0 <= i < k && SectionOf(list[i]) <= section;
      assert list2[i] == list[i] && list2[k] == m;
    }
  }

  /** A use in section 3, and a definition in section 5 that was not recorded. */
  lemma UnderlineExample()
    ensures Decreasing([3], 5) && Underline([3], 5 + DEF_FLAG) == [3, 5 + DEF_FLAG] && !Decreasing([3, 5 + DEF_FLAG], 5)
  {
    assert [3][1..] == [];
    assert SectionOf([3, 5 + DEF_FLAG][0]) == 3 && SectionOf([3, 5 + DEF_FLAG][1]) == 5;
  }

  lemma PutInPlace(list: seq<nat>, last: nat, section: nat, k: nat)
    requires Decreasing(list, last) && 0 < section <= last && section < CITE_FLAG && k <= |list|
    requires forall i :: 0 <= i < k ==> SectionOf(list[i]) > section
    requires k < |list| ==> SectionOf(list[k]) < section
    ensures Decreasing(list[..k] + [section + DEF_FLAG] + list[k..], last)
  {
    var m, list2 := section + DEF_FLAG, list[..k] + [section + DEF_FLAG] + list[k..];
    forall i | 0 <= i < |list2|
      ensures list2[i] == if i < k then list[i] else if i == k then m else list[i-1]
    {
    }
  }

  // ---------- section names

  /** Definitions, citations and uses are told by what is added to the section. */
  function ClassOf(n: nat): nat {
    if n == FILE_FLAG then 3 else if n > DEF_FLAG then 2 else if n > CITE_FLAG then 1 else 0
  }

  predicate SwitchOk(xrefSwitch: nat) { xrefSwitch == 0 || xrefSwitch == CITE_FLAG || xrefSwitch == DEF_FLAG }

  predicate NameEntry(n: nat, last: nat) {
    n == FILE_FLAG || (n < FILE_FLAG && 0 < n - ClassOf(n) * CITE_FLAG <= last && n - ClassOf(n) * CITE_FLAG < CITE_FLAG)
  }

  predicate Precedes(a: nat, b: nat) {
    ClassOf(a) > ClassOf(b) || (ClassOf(a) == ClassOf(b) && a < b)
  }

  /** The file flag, if any, then definitions, citations and uses, each increasing. */
  predicate InClasses(list: seq<nat>, last: nat) {
    && (forall i :: 0 <= i < |list| ==> NameEntry(list[i], last))
    && (forall i, j :: 0 <= i < j < |list| ==> Precedes(list[i], list[j]))
  }

  /** The first entry that is not above the switch. */
  function Walk(list: seq<nat>, xrefSwitch: nat): (k: nat)
    ensures k <= |list|
  {
    if list == [] || list[0] <= xrefSwitch then 0 else 1 + Walk(list[1..], xrefSwitch)
  }

  /** `new_section_xref`: the new list, and whether the reference was there already. */
  function NewSectionXref(list: seq<nat>, section: nat, xrefSwitch: nat): (seq<nat>, bool) {
    var k := Walk(list, xrefSwitch);
    if k > 0 && list[k-1] == section + xrefSwitch then (list, true) else (list[..k] + [section + xrefSwitch] + list[k..], false)
  }

  /** `set_file_flag` */
  function SetFileFlag(list: seq<nat>): seq<nat> {
    if list != [] && list[0] == FILE_FLAG then list else [FILE_FLAG] + list
  }

  lemma {:induction false} WalkMeans(list: seq<nat>, last: nat, xrefSwitch: nat)
    requires InClasses(list, last) && SwitchOk(xrefSwitch)
    ensures var k := Walk(list, xrefSwitch);
            && (forall i :: 0 <= i < k ==> list[i] > xrefSwitch) && (forall i :: k <= i < |list| ==> list[i] <= xrefSwitch)
    decreases |list|
  {
    if list != [] {
      assert NameEntry(list[0], last);
      if list[0] > xrefSwitch {
        var rest := list[1..];
        assert forall i :: 0 <= i < |rest| ==> rest[i] == list[i+1];
        WalkMeans(rest, last, xrefSwitch);
      } else {
        forall i | 0 <= i < |list|
          ensures list[i] <= xrefSwitch
        {
          assert NameEntry(list[i], last);
          assert i > 0 ==> Precedes(list[0], list[i]);
        }
      }
    }
  }

  /** A reference to a section name is put at the end of its class, unless it is there. */
  lemma NewSectionXrefKeeps(list: seq<nat>, before: nat, section: nat, xrefSwitch: nat)
    requires InClasses(list, before) && before <= section && 0 < section < CITE_FLAG && SwitchOk(xrefSwitch)
    ensures var (list2, there) := NewSectionXref(list, section, xrefSwitch);
            && InClasses(list2, section) && (there <==> section + xrefSwitch in list)
            && forall n :: n in list2 <==> n in list || n == section + xrefSwitch
  {
    var k, m := Walk(list, xrefSwitch), section + xrefSwitch;
    WalkMeans(list, before, xrefSwitch);
    var (list2, there) := NewSectionXref(list, section, xrefSwitch);
    if m in list {
      LastOfClass(list, before, section, xrefSwitch);
    }
    if !there {
      assert m !in list;
      Inserted(list, before, section, xrefSwitch, k);
    }
  }

  lemma LastOfClass(list: seq<nat>, before: nat, section: nat, xrefSwitch: nat)
    requires InClasses(list, before) && before <= section && 0 < section < CITE_FLAG && SwitchOk(xrefSwitch) && section + xrefSwitch in list
    ensures var k := Walk(list, xrefSwitch); k > 0 && list[k-1] == section + xrefSwitch
  {
    var k, m := Walk(list, xrefSwitch), section + xrefSwitch;
    WalkMeans(list, before, xrefSwitch);
    var i :| 0 <= i < |list| && list[i] == m;
    assert NameEntry(list[k-1], before);
  }

  lemma Inserted(list: seq<nat>, before: nat, section: nat, xrefSwitch: nat, k: nat)
    requires InClasses(list, before) && before <= section && 0 < section < CITE_FLAG && SwitchOk(xrefSwitch) && section + xrefSwitch !in list
    requires k == Walk(list, xrefSwitch)
    ensures InClasses(list[..k] + [section + xrefSwitch] + list[k..], section)
  {
    WalkMeans(list, before, xrefSwitch);
    NewEntry(section, xrefSwitch);
    AllAgainstNew(list, before, section, xrefSwitch, k);
    PutBetween(list, section, k, section + xrefSwitch);
  }

  lemma AllAgainstNew(list: seq<nat>, before: nat, section: nat, xrefSwitch: nat, k: nat)
    requires InClasses(list, before) && before <= section && 0 < section < CITE_FLAG && SwitchOk(xrefSwitch) && section + xrefSwitch !in list
    requires k <= |list| && (forall i :: 0 <= i < k ==> list[i] > xrefSwitch) && forall i :: k <= i < |list| ==> list[i] <= xrefSwitch
    ensures InClasses(list, section)
    ensures forall i :: 0 <= i < |list| ==> if i < k then Precedes(list[i], section + xrefSwitch) else Precedes(section + xrefSwitch, list[i])
  {
    var m := section + xrefSwitch;
    forall i | 0 <= i < |list|
      ensures NameEntry(list[i], section) && if i < k then Precedes(list[i], m) else Precedes(m, list[i])
    {
      assert list[i] in list;
      AgainstNew(list[i], before, section, xrefSwitch);
    }
  }

  // An entry between those that go before it and those that come after it.
  lemma PutBetween(list: seq<nat>, last: nat, k: nat, m: nat)
    requires InClasses(list, last) && NameEntry(m, last) && k <= |list|
    requires forall i :: 0 <= i < |list| ==> if i < k then Precedes(list[i], m) else Precedes(m, list[i])
    ensures InClasses(list[..k] + [m] + list[k..], last)
  {
    var list2 := list[..k] + [m] + list[k..];
    assert forall i {:trigger list2[i]} :: 0 <= i < |list2| ==> list2[i] == if i < k then list[i] else if i == k then m else list[i-1];
    forall i, j | 0 <= i < j < |list2|
      ensures Precedes(list2[i], list2[j])
    {
      if i != k && j != k {
        assert Precedes(list[if i < k then i else i - 1], list[if j < k then j else j - 1]);
      }
    }
  }

  lemma NewEntry(section: nat, xrefSwitch: nat)
    requires 0 < section < CITE_FLAG && SwitchOk(xrefSwitch)
    ensures NameEntry(section + xrefSwitch, section)
  {
  }

  // An older entry goes before the new one if it is above the switch.
  lemma AgainstNew(n: nat, before: nat, section: nat, xrefSwitch: nat)
    requires NameEntry(n, before) && before <= section && 0 < section < CITE_FLAG && SwitchOk(xrefSwitch) && n != section + xrefSwitch
    ensures NameEntry(n, section)
    ensures if n > xrefSwitch then Precedes(n, section + xrefSwitch) else Precedes(section + xrefSwitch, n)
  {
  }

  lemma SetFileFlagKeeps(list: seq<nat>, last: nat)
    requires InClasses(list, last)
    ensures InClasses(SetFileFlag(list), last) && forall n :: n in SetFileFlag(list) <==> n in list || n == FILE_FLAG
  {
    var list2 := SetFileFlag(list);
    if list2 != list {
      forall i | 0 < i < |list2|
        ensures list2[i] == list[i-1] && Precedes(FILE_FLAG, list2[i])
      {
        assert NameEntry(list[i-1], last);
        assert i - 1 > 0 ==> Precedes(list[0], list[i-1]);
      }
    }
  }

  // ---------- the switch

  /** What is said of a section name: its definition begins, it is cited in a text, or it
      is used in a C text. */
  datatype Mention = Define(p: nat) | Cite(p: nat) | Use(p: nat)

  datatype Recorder = Recorder(lists: seq<seq<nat>>, xrefSwitch: nat)

  /** Definitions and citations set section_xref_switch; recording lowers it, but not if
      the reference is there already. */
  function Record(r: Recorder, section: nat, m: Mention): Recorder
    requires m.p < |r.lists|
  {
    var xrefSwitch := match m case Define(_) => DEF_FLAG case Cite(_) => CITE_FLAG case Use(_) => r.xrefSwitch;
    var (list, there) := NewSectionXref(r.lists[m.p], section, xrefSwitch);
    Recorder(r.lists[m.p := list], if there then xrefSwitch else 0)
  }

  /** A use after a citation is recorded as a use if and only if the citation was new in
      its section; otherwise it becomes a citation. */
  lemma UseAfterCitation(r: Recorder, before: nat, section: nat, p: nat, q: nat)
    requires p < |r.lists| && q < |r.lists| && p != q && InClasses(r.lists[p], before) && InClasses(r.lists[q], before)
    requires before <= section && 0 < section < CITE_FLAG && section !in r.lists[q] && section + CITE_FLAG !in r.lists[q]
    ensures var list := Record(Record(r, section, Cite(p)), section, Use(q)).lists[q];
            && (section in list <==> section + CITE_FLAG !in r.lists[p])
            && (section + CITE_FLAG in list <==> section + CITE_FLAG in r.lists[p])
  {
    NewSectionXrefKeeps(r.lists[p], before, section, CITE_FLAG);
    NewSectionXrefKeeps(r.lists[q], before, section, 0);
    NewSectionXrefKeeps(r.lists[q], before, section, CITE_FLAG);
  }
}
