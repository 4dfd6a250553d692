// What looking up a section name does, said of the names alone
// (cweb/common.c:845-957).

module SectionDictionary {
  import opened SectionNames
  import opened SectionTree
  import opened NameStore

  /** A section name as the user sees it: its text so far, whether that is all, and the
      prefix by which it can be called. */
  datatype Name = Name(text: Text, complete: bool, pre: Text)

  type Names = map<nat, Name>

  datatype Complaint = NoComplaint | Ambiguous | IsPrefix | Extends | Incompatible

  ghost function Matching(names: Names, query: Text): set<nat> {
    set p | p in names && Comparable(query, names[p].pre)
  }

  /** The names after a lookup that finds the one name r. */
  function Found(names: Names, r: nat, query: Text, ispref: bool): (Names, Complaint)
    requires r in names
  {
    var name := names[r];
    match Verdict(query, name.text, name.complete)
    case Prefix =>
      if !ispref then (names, IsPrefix)
      else (names[r := name.(pre := if |query| < |name.pre| then query else name.pre)], NoComplaint)
    case Same => (names, NoComplaint)
    case Extension =>
      if !ispref || query != name.text then (names[r := name.(text := query, complete := !ispref)], NoComplaint)
      else (names, NoComplaint)
    case BadExtension => (names, Extends)
    case _ => (names, Incompatible)
  }

  /** `section_lookup`: a new name if the query matches no prefix, nothing if it matches
      several, else the one name that it matches. */
  ghost predicate Looked(names: Names, query: Text, ispref: bool, r: nat, names2: Names, complaint: Complaint) {
    var found := Matching(names, query);
    if found == {} then
      r !in names && names2 == names[r := Name(query, !ispref, query)] && complaint == NoComplaint
    else if |found| > 1 then
      names2 == names && complaint == Ambiguous && r == 0
    else
      r in found && (names2, complaint) == Found(names, r, query, ispref)
  }

  /** No prefix begins another, and every prefix begins its own name. */
  ghost predicate Proper(names: Names) {
    && (forall p, q {:trigger Comparable(names[p].pre, names[q].pre)} :: p in names && q in names && p != q ==> !Comparable(names[p].pre, names[q].pre))
    && (forall p :: p in names ==> names[p].pre <= names[p].text)
  }

  lemma One(found: set<nat>, r: nat)
    requires r in found && |found| <= 1
    ensures found == {r}
  {
    if x :| x in found && x != r {
      assert {x, r} <= found;
      Larger({x, r}, found);
    }
  }

  lemma Larger(a: set<nat>, b: set<nat>)
    requires a <= b
    ensures |a| <= |b|
  {
    assert b == a + (b - a);
  }

  lemma FoundKeeps(names: Names, r: nat, query: Text, ispref: bool)
    requires Proper(names) && r in names && Matching(names, query) == {r}
    ensures Proper(Found(names, r, query, ispref).0)
  {
    var name := names[r];
    CompareMeans(query, name.text);
    var names2 := Found(names, r, query, ispref).0;
    if names2 != names {
      var now := names2[r];
      assert now.pre == query || now.pre == name.pre;
      forall p | p in names && p != r
        ensures !Comparable(names[p].pre, now.pre)
      {
        assert p !in Matching(names, query);
      }
    }
  }

  /** Every lookup keeps the prefixes apart. */
  lemma LookedKeeps(names: Names, query: Text, ispref: bool, r: nat, names2: Names, complaint: Complaint)
    requires Proper(names) && Looked(names, query, ispref, r, names2, complaint)
    ensures Proper(names2)
  {
    var found := Matching(names, query);
    if found == {} {
      forall p | p in names
        ensures !Comparable(names[p].pre, query)
      {
        assert p !in found;
      }
    } else if |found| <= 1 {
      One(found, r);
      FoundKeeps(names, r, query, ispref);
    }
  }

  /** After a lookup without complaint the name is the longer of what it was and the query;
      a complete query is then the complete name. */
  lemma LongerText(names: Names, query: Text, ispref: bool, r: nat, names2: Names)
    requires Looked(names, query, ispref, r, names2, NoComplaint)
    ensures r in names2 && (forall p :: p in names && p != r ==> p in names2 && names2[p] == names[p])
    ensures var was := if r in names then names[r].text else [];
            && Comparable(query, was) && names2[r].text == (if |query| >= |was| then query else was)
            && (!ispref ==> names2[r].text == query && names2[r].complete)
            && (r in names && names[r].complete ==> names2[r].complete && names2[r].text == names[r].text)
  {
    if r in names {
      CompareMeans(query, names[r].text);
    }
  }

  /** Exactly when a lookup that finds a name complains, and what it then does to the name. */
  lemma ComplaintExactly(names: Names, query: Text, ispref: bool, r: nat, names2: Names, complaint: Complaint)
    requires r in names && Looked(names, query, ispref, r, names2, complaint)
    ensures complaint == Ambiguous <==> |Matching(names, query)| > 1
    ensures var name := names[r];
            |Matching(names, query)| == 1 ==>
              && (complaint == IsPrefix <==> query < name.text && !ispref)
              && (complaint == Extends <==> name.text < query && name.complete)
              && (complaint == Incompatible <==> !(query <= name.text) && !(name.text <= query))
              && (complaint != NoComplaint ==> names2 == names)
              && (complaint == NoComplaint ==> names2 == names[r := Name(
                    if name.text < query then query else name.text,
                    name.complete || (!ispref && name.text <= query),
                    if query < name.text && |query| < |name.pre| then query else name.pre)])
  {
    var name := names[r];
    CompareMeans(query, name.text);
    assert names[r := name] == names;
  }

  /** Looking the same name up again finds the same name and changes nothing. */
  lemma LookAgain(names: Names, query: Text, ispref: bool, r: nat, names2: Names, r2: nat, names3: Names, complaint: Complaint)
    requires Proper(names) && Looked(names, query, ispref, r, names2, NoComplaint)
    requires Looked(names2, query, ispref, r2, names3, complaint)
    ensures r2 == r && names3 == names2 && complaint == NoComplaint
  {
    LookedKeeps(names, query, ispref, r, names2, NoComplaint);
    LongerText(names, query, ispref, r, names2);
    OnlyOne(names, query, ispref, r, names2);
    assert Matching(names2, query) == {r};
    CompareMeans(query, names2[r].text);
  }

  lemma OnlyOne(names: Names, query: Text, ispref: bool, r: nat, names2: Names)
    requires Proper(names) && Looked(names, query, ispref, r, names2, NoComplaint)
    ensures Matching(names2, query) == {r}
  {
    LongerText(names, query, ispref, r, names2);
    var found := Matching(names, query);
    if found != {} {
      One(found, r);
      CompareMeans(query, names[r].text);
    }
    forall p | p in names2 && p != r
      ensures p !in Matching(names2, query)
    {
      assert p in names && p !in found;
    }
  }
}
