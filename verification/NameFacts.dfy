// What the methods of the name directory rely on: how entries lie in the byte memory,
// how the search narrows the tree, what one piece of a name tells, and what each change
// of the arrays means (cweb/common.c:686-736, 795-991).

module NameFacts {
  import opened Basics
  import opened SectionNames
  import opened SectionTree
  import opened NameStore
  import opened SectionDictionary
  import opened NameMeaning
  import opened IdTable

  // ---------- bytes in memory

  /** The entries lie one after the other in the byte memory. */
  ghost predicate Laid(mem: seq<Byte>, start: seq<nat>, entries: seq<Text>) {
    && |start| == |entries| + 1 && start[|entries|] == |mem|
    && (forall i, j :: 0 <= i <= j < |start| ==> start[i] <= start[j])
    && (forall e :: 0 <= e < |entries| ==> mem[start[e]..start[e+1]] == entries[e])
  }

  lemma LaidMore(mem: seq<Byte>, start: seq<nat>, entries: seq<Text>, bytes: Text)
    requires Laid(mem, start, entries)
    ensures Laid(mem + bytes, start + [|mem| + |bytes|], entries + [bytes])
  {
    var mem2, start2, entries2 := mem + bytes, start + [|mem| + |bytes|], entries + [bytes];
    forall e | 0 <= e < |entries2|
      ensures mem2[start2[e]..start2[e+1]] == entries2[e]
    {
      if e < |entries| {
        assert start2[e] == start[e] && start2[e+1] == start[e+1] && start[e+1] <= start[|entries|];
        assert mem2[start[e]..start[e+1]] == mem[start[e]..start[e+1]];
      } else {
        assert start2[e] == |mem| && start2[e+1] == |mem2|;
        assert mem2[|mem|..] == bytes;
      }
    }
  }

  lemma LaidOther(mem: seq<Byte>, start: seq<nat>, entries: seq<Text>, p: nat, a: Byte, b: Byte)
    requires Laid(mem, start, entries) && p < |entries| && |entries[p]| >= 2
    ensures start[p] + 1 < |mem|
    ensures Laid(mem[start[p] := a][start[p] + 1 := b], start, entries[p := [a, b] + entries[p][2..]])
  {
    assert mem[start[p]..start[p+1]] == entries[p] && start[p+1] <= start[|entries|];
    var mem2, entries2 := mem[start[p] := a][start[p] + 1 := b], entries[p := [a, b] + entries[p][2..]];
    forall e | 0 <= e < |entries|
      ensures mem2[start[e]..start[e+1]] == entries2[e]
    {
      if e == p {
        assert mem2[start[p]..start[p+1]] == [a, b] + mem[start[p]..start[p+1]][2..];
      } else {
        assert if e < p then start[e+1] <= start[p] else start[p+1] <= start[e];
        assert mem[start[e]..start[e+1]] == entries[e];
        assert mem2[start[e]..start[e+1]] == mem[start[e]..start[e+1]];
      }
    }
  }

  // ---------- searching and comparing

  lemma PrefixOf(s: Store, m: Model, r: nat, query: Text)
    requires SectionsOk(s, m) && r in m.pieces && Matches(m.tree, PreOf(s), query) == {r}
    ensures r < s.Size() && |s.entries[r]| >= 2 && r in NamesOf(s, m) && NamesOf(s, m)[r].pre == s.Pre(r) && |s.Pre(r)| == s.PrefixLength(r)
    ensures |query| < |s.Pre(r)| ==> query <= s.Pre(r)
  {
    assert HeadOk(s, m, r);
    PreBegins(s, m.role, r, m.pieces[r]);
    assert r in Matches(m.tree, PreOf(s), query);
  }

  // An extension is possible only where the last piece is open.
  lemma IncompleteIsOpen(query: Text, ps: seq<Piece>)
    requires Chain(Chunks(ps))
    ensures ps != [] && (Verdict(query, Joined(Chunks(ps)), Complete(Chunks(ps))) == Extension ==> ps[|ps|-1].chunk.open)
  {
    assert Chunks(ps)[|ps|-1] == ps[|ps|-1].chunk;
  }

  lemma HashStep(h: nat, text: Text, i: nat)
    requires i < |text|
    ensures HashFrom(h, text[i..]) == HashFrom((h + h + text[i]) % HASH_SIZE, text[i+1..])
  {
    assert text[i..][0] == text[i] && text[i..][1..] == text[i+1..];
  }

  lemma NewText(s: Store, role: seq<Role>, text: Text)
    requires text !in Identifiers(s, role).Values
    ensures forall e: nat :: IsId(role, e) ==> s.Bytes(e) != text
  {
    forall e: nat | IsId(role, e)
      ensures s.Bytes(e) != text
    {
      assert e in Identifiers(s, role) && Identifiers(s, role)[e] == s.Bytes(e);
    }
  }

  lemma IdIsAdded(s: Store, m: Model, hash: seq<nat>, buckets: seq<seq<nat>>, text: Text, r: nat)
    requires SectionsOk(s, m) && IdsOk(s, m.role, hash, buckets) && text != [] && Hash(text) < HASH_SIZE
    requires forall e: nat :: e < s.Size() && IsId(m.role, e) ==> s.Bytes(e) != text
    ensures var h, n := Hash(text), s.Size();
            var s2, m2 := s.Append(text, hash[h], r), m.(role := m.role + [Id]);
            && SectionsOk(s2, m2) && IdsOk(s2, m2.role, hash[h := n], buckets[h := [n] + buckets[h]])
            && NamesOf(s2, m2) == NamesOf(s, m) && Identifiers(s2, m2.role) == Identifiers(s, m.role)[n := text]
  {
    AddIdKeepsSections(s, m, text, hash[Hash(text)], r);
    AddIdOk(s, m.role, hash, buckets, text, r);
    IdentifierMeans(s, m, text, hash[Hash(text)], r);
    OneMore(s, m.role, text, hash[Hash(text)], r);
  }

  lemma OneMore(s: Store, role: seq<Role>, text: Text, l: nat, r: nat)
    requires |role| == s.Size()
    ensures Identifiers(s.Append(text, l, r), role + [Id]) == Identifiers(s, role)[s.Size() := text]
  {
  }

  lemma LookedSeveral(s: Store, m: Model, query: Text, ispref: bool, r: nat, par: nat, left: bool)
    requires SectionsOk(s, m) && SearchResult(s, m, query, r, par, left, true)
    ensures Looked(NamesOf(s, m), query, ispref, 0, NamesOf(s, m), Ambiguous)
  {
    MatchingIsMatches(s, m, query);
  }

  // What each verdict makes of the names.
  lemma FoundIs(names: Names, r: nat, query: Text, ispref: bool, c: Order, n: nat, complaint: Complaint)
    requires r in names && c == Verdict(query, names[r].text, names[r].complete) && Fine(Chunk(query, ispref))
    requires c == Extension ==> n == |names[r].text| && names[r].text <= query
    requires complaint == if c == Prefix && !ispref then IsPrefix else if c == BadExtension then Extends
                          else if c == Smaller || c == Greater then Incompatible else NoComplaint
    ensures Found(names, r, query, ispref).1 == complaint
    ensures c == Extension ==> n <= |query| && Fine(Chunk(query[n..], ispref))
    ensures Found(names, r, query, ispref).0 ==
            if c == Prefix && ispref then (if |query| < |names[r].pre| then Shorter(names, r, query) else names)
            else if c == Extension && (!ispref || n < |query|) then Longer(names, r, query[n..], ispref) else names
  {
    if c == Extension {
      RestOfQuery(query, names[r].text, ispref);
    }
  }

  lemma RestOfQuery(query: Text, text: Text, ispref: bool)
    requires text <= query && Fine(Chunk(query, ispref))
    ensures text + query[|text|..] == query && Fine(Chunk(query[|text|..], ispref))
  {
  }

  /** The last piece of the name is open. */
  predicate Growing(m: Model, p: nat) {
    p in m.pieces && m.pieces[p] != [] && m.pieces[p][|m.pieces[p]|-1].chunk.open
  }

  function Longer(names: Names, p: nat, rest: Text, ispref: bool): Names
    requires p in names
  {
    names[p := names[p].(text := names[p].text + rest, complete := !ispref)]
  }

  function Shorter(names: Names, p: nat, query: Text): Names
    requires p in names
  {
    names[p := names[p].(pre := query)]
  }

  lemma NameIsExtended(s: Store, m: Model, s2: Store, m2: Model, hash: seq<nat>, buckets: seq<seq<nat>>, p: nat, ps: seq<Piece>, c: Chunk, r: nat)
    requires SectionsOk(s, m) && IdsOk(s, m.role, hash, buckets) && p in m.pieces && ps == m.pieces[p] && ps != [] && ps[|ps|-1].chunk.open
    requires (c.open ==> c.text != []) && Fine(c) && HolderOf(ps, |ps| - 1) < s.Size()
    requires s2 == Extend(s, ps, c, r) && m2 == ExtendModel(s, m, p, c)
    ensures SectionsOk(s2, m2) && IdsOk(s2, m2.role, hash, buckets) && Identifiers(s2, m2.role) == Identifiers(s, m.role)
    ensures p in NamesOf(s, m) && NamesOf(s2, m2) == Longer(NamesOf(s, m), p, c.text, c.open)
  {
    assert HeadOk(s, m, p);
    ExtendOk(s, m, p, c, r);
    ExtendedMeans(s, m, p, ps, c, r);
    ExtendedIds(s, m.role, s2, m2.role, p, ps, c, r);
    IdsStay(s, m.role, s2, m2.role, hash, buckets);
    SameIdentifiers(s, m.role, s2, m2.role);
  }

  lemma ExtendedIds(s: Store, role: seq<Role>, s2: Store, role2: seq<Role>, p: nat, ps: seq<Piece>, c: Chunk, r: nat)
    requires s.Shaped() && |role| == s.Size() && NameOk(s, role, p, ps) && ps[|ps|-1].chunk.open && HolderOf(ps, |ps| - 1) < s.Size()
    requires s2 == Extend(s, ps, c, r) && role2 == role + [More(p)]
    ensures SameIds(s, role, s2, role2)
  {
    HolderIsPart(s, role, p, ps, |ps| - 1);
    forall e: nat | IsId(role2, e)
      ensures IsId(role, e)
    {
      assert e != s.Size();
    }
  }

  lemma NameIsShortened(s: Store, m: Model, hash: seq<nat>, buckets: seq<seq<nat>>, p: nat, query: Text) returns (s2: Store)
    requires SectionsOk(s, m) && IdsOk(s, m.role, hash, buckets)
    requires p in m.pieces && query <= s.Pre(p) && Matches(m.tree, PreOf(s), query) <= {p}
    ensures |query| < 256 * 256 && p < s.Size() && |s.entries[p]| >= 2 && s2 == s.SetPrefix(p, |query|)
    ensures SectionsOk(s2, m) && IdsOk(s2, m.role, hash, buckets) && Identifiers(s2, m.role) == Identifiers(s, m.role)
    ensures p in NamesOf(s, m) && NamesOf(s2, m) == Shorter(NamesOf(s, m), p, query)
  {
    assert HeadOk(s, m, p);
    ShortenOk(s, m, p, query);
    ShortenedMeans(s, m, p, query);
    s2 := s.SetPrefix(p, |query|);
    IdsStay(s, m.role, s2, m.role, hash, buckets);
    SameIdentifiers(s, m.role, s2, m.role);
  }

  lemma NameIsAdded(s: Store, m: Model, hash: seq<nat>, buckets: seq<seq<nat>>, place: (nat, bool), query: Text, open: bool, r: nat)
    returns (s2: Store, m2: Model)
    requires SectionsOk(s, m) && IdsOk(s, m.role, hash, buckets) && Matches(m.tree, PreOf(s), query) == {}
    requires |query| < 256 * 256 && (open ==> query != []) && Fine(Chunk(query, open))
    requires place == PlaceOf(s, m, query)
    ensures place.0 < s.Size() && s2 == AddName(s, place, query, open, r) && s.entries <= s2.entries
    ensures SectionsOk(s2, m2) && IdsOk(s2, m2.role, hash, buckets) && Identifiers(s2, m2.role) == Identifiers(s, m.role)
    ensures s.Size() !in NamesOf(s, m) && NamesOf(s2, m2) == NamesOf(s, m)[s.Size() := Name(query, !open, query)]
  {
    AddNameOk(s, m, query, open, r);
    s2, m2 := AddName(s, place, query, open, r), AddNameModel(s, m, query, open);
    AddNameIds(s, m, query, open, r, hash, buckets);
    AddNameMeans(s, m, query, open, r);
  }

  lemma AddNameIds(s: Store, m: Model, query: Text, open: bool, r: nat, hash: seq<nat>, buckets: seq<seq<nat>>)
    requires SectionsOk(s, m) && IdsOk(s, m.role, hash, buckets) && |query| < 256 * 256
    ensures PlaceOf(s, m, query).0 < s.Size()
    ensures IdsOk(AddName(s, PlaceOf(s, m, query), query, open, r), NewRoles(m.role, open), hash, buckets)
    ensures Identifiers(AddName(s, PlaceOf(s, m, query), query, open, r), NewRoles(m.role, open)) == Identifiers(s, m.role)
  {
    PlaceIsHead(s, m, query);
    var place := PlaceOf(s, m, query);
    AddNameGrows(s, m.role, place, query, open, r);
    GrownIds(s, m.role, AddName(s, place, query, open, r), NewRoles(m.role, open), place, query, open);
    IdsStay(s, m.role, AddName(s, place, query, open, r), NewRoles(m.role, open), hash, buckets);
    SameIdentifiers(s, m.role, AddName(s, place, query, open, r), NewRoles(m.role, open));
  }

  lemma AddNameMeans(s: Store, m: Model, query: Text, open: bool, r: nat)
    requires SectionsOk(s, m) && |query| < 256 * 256 && (open ==> query != []) && Fine(Chunk(query, open))
    ensures PlaceOf(s, m, query).0 < s.Size() && s.Size() !in NamesOf(s, m)
    ensures NamesOf(AddName(s, PlaceOf(s, m, query), query, open, r), AddNameModel(s, m, query, open))
         == NamesOf(s, m)[s.Size() := Name(query, !open, query)]
  {
    PlaceIsHead(s, m, query);
    var place := PlaceOf(s, m, query);
    AddNameGrows(s, m.role, place, query, open, r);
    AddedMeans(s, m, AddName(s, place, query, open, r), AddNameModel(s, m, query, open), place, query, open);
  }

  lemma GrownIds(s: Store, role: seq<Role>, s2: Store, role2: seq<Role>, place: (nat, bool), query: Text, open: bool)
    requires Grown(s, role, s2, role2, place, query, open)
    ensures SameIds(s, role, s2, role2)
  {
    var n := s.Size();
    forall e: nat | IsId(role2, e)
      ensures IsId(role, e)
    {
      assert e != n && !(open && e == n + 1);
    }
  }

  lemma AfterStart(mem: seq<Byte>, from: nat, to: nat, bytes: Text, k: nat, c: Chunk)
    requires from <= to <= |mem| && mem[from..to] == bytes && k <= |bytes| && bytes[k..] == Marked(c)
    ensures to == from + k + |c.text| + (if c.open then 1 else 0) && mem[from+k..from+k+|c.text|] == c.text
  {
    assert |Marked(c)| == |bytes| - k;
    assert Marked(c)[..|c.text|] == c.text;
    var part := mem[from+k..from+k+|c.text|];
    forall i | 0 <= i < |part|
      ensures part[i] == c.text[i]
    {
      assert mem[from..to][k+i] == bytes[k..][i];
    }
  }

  lemma LastByte(bytes: Text, k: nat, c: Chunk)
    requires k <= |bytes| && bytes[k..] == Marked(c) && Fine(c) && (c == Chunk([], false) && k > 0 ==> bytes[k-1] != BLANK)
    ensures bytes != [] && bytes[|bytes|-1] == BLANK <==> c.open
  {
    if Marked(c) != [] {
      assert bytes[|bytes|-1] == Marked(c)[|Marked(c)|-1];
    }
  }

  /** What the verdict on the text of a piece becomes, when the piece may be open and
      there may be bytes of another. */
  function AtEnd(c: Order, open: bool, more: Option<Text>): Order {
    match c
    case Same =>
      (match more
       case None => if open then Extension else Same
       case Some(bytes) => if bytes == [] then Same else Prefix)
    case Extension => if open then Extension else BadExtension
    case _ => c
  }

  /** What one piece says about the rest of the query. */
  function PieceVerdict(query: Text, chunks: seq<Chunk>, i: nat): Order
    requires i < |chunks|
  {
    AtEnd(Compare(query, chunks[i].text), chunks[i].open, if i + 1 < |chunks| then Some(Marked(chunks[i+1])) else None)
  }

  function Shifted(n: nat, v: (Order, nat)): (Order, nat) { (v.0, v.1 + n) }

  // Piece i of a name: its bytes, and what its link leads to.
  lemma PieceAt(s: Store, role: seq<Role>, p: nat, ps: seq<Piece>, i: nat)
    requires s.Shaped() && |role| == s.Size() && NameOk(s, role, p, ps) && role[0] == Root && i < |ps|
    ensures var c, e, k := ps[i].chunk, ps[i].entry, if i == 0 then 2 else 0;
            && e < s.Size() && k <= |s.entries[e]| && s.entries[e][k..] == Marked(c) && Fine(c)
            && (c == Chunk([], false) && k > 0 ==> s.entries[e][k-1] != BLANK)
            && (c.open ==> HolderOf(ps, i) < s.Size() && s.link[HolderOf(ps, i)] == if i + 1 < |ps| then ps[i+1].entry else 0)
            && (i > 0 ==> e > 0 && s.entries[e] == Marked(c)) && (i + 1 < |ps| ==> c.open && ps[i+1].entry > 0)
  {
    if i > 0 {
      assert PieceOk(s, role, p, ps[i]);
      assert s.entries[ps[i].entry][0..] == s.entries[ps[i].entry];
    }
    if i + 1 < |ps| {
      assert PieceOk(s, role, p, ps[i+1]);
      assert Chunks(ps)[i].open;
    }
    if i > 0 || ps[0].chunk.open {
      assert LinkOk(s, ps, i);
    }
  }

  // How the verdict on a piece decides, or leads to the next piece.
  lemma OneChunk(query: Text, first: nat, chunks: seq<Chunk>, i: nat)
    requires i < |chunks| && first <= |query| && (i + 1 < |chunks| ==> chunks[i].open)
    ensures var c, v, n := PieceVerdict(query[first..], chunks, i), CompareChunks(query[first..], chunks[i..]), |chunks[i].text|;
            if c == Extension && i + 1 < |chunks| then
              first + n <= |query| && Shifted(first, v) == Shifted(first + n, CompareChunks(query[first+n..], chunks[i+1..]))
            else v.0 == c && (c == Extension ==> v.1 == n)
  {
    var rest, c := query[first..], chunks[i];
    assert chunks[i..][0] == c && chunks[i..][1..] == chunks[i+1..] && (i + 1 < |chunks| ==> chunks[i..][1] == chunks[i+1]);
    if Compare(rest, c.text) == Extension {
      assert rest[|c.text|..] == query[first + |c.text|..];
    }
  }

  lemma JoinedStep(dest: Text, chunks: seq<Chunk>, i: nat)
    requires i < |chunks|
    ensures dest + Joined(chunks[i..]) == dest + chunks[i].text + Joined(chunks[i+1..])
    ensures i + 1 == |chunks| ==> dest + Joined(chunks[i..]) == dest + chunks[i].text
  {
    assert chunks[i..][1..] == chunks[i+1..];
  }

  lemma InMiddle(mem: seq<Byte>, from: nat, to: nat, entry: Text, n: nat)
    requires from <= to <= |mem| && mem[from..to] == entry && 2 + n <= |entry|
    ensures mem[from+2..from+2+n] == entry[2..2+n]
  {
    var part := mem[from+2..from+2+n];
    forall i | 0 <= i < |part|
      ensures part[i] == entry[2..2+n][i]
    {
      assert mem[from..to][2+i] == mem[from+2+i];
    }
  }

  function Count(t: Tree): nat {
    if t.Leaf? then 0 else Count(t.left) + 1 + Count(t.right)
  }

  /** What the search knows: what may still match is in the trees at p and q; the name r
      has been found, or the place of a new name is that in the tree at p. */
  ghost predicate Searching(s: Store, m: Model, query: Text, p: nat, q: nat, r: nat, par: nat, left: bool, tp: Tree, tq: Tree) {
    var pre := PreOf(s);
    && Realizes(s.link, s.rlink, p, tp) && Realizes(s.link, s.rlink, q, tq) && Sorted(tp, pre) && Sorted(tq, pre)
    && Elems(tp) <= Elems(m.tree) && Elems(tq) <= Elems(m.tree)
    && if r == 0 then
         && q == 0 && Matches(m.tree, pre, query) == Matches(tp, pre, query)
         && PlaceOf(s, m, query) == Place(tp, pre, query, par, left)
       else
         && Matches(m.tree, pre, query) == {r} + Matches(tp, pre, query) + Matches(tq, pre, query)
         && r !in Elems(tp) && r !in Elems(tq)
  }

  lemma NodeAt(s: Store, m: Model, p: nat, t: Tree)
    requires SectionsOk(s, m) && p != 0 && Realizes(s.link, s.rlink, p, t) && Elems(t) <= Elems(m.tree)
    ensures t.Node? && t.node == p && p in m.pieces && p < s.Size()
    ensures s.link[p] < s.Size() && s.rlink[p] < s.Size()
    ensures |s.entries[p]| >= 2 && 2 + s.PrefixLength(p) <= |s.entries[p]|
  {
    RealizesBounds(s.link, s.rlink, p, t);
    assert HeadOk(s, m, p);
    PreBegins(s, m.role, p, m.pieces[p]);
  }

  /** None, one or several names match the query. */
  ghost predicate SearchResult(s: Store, m: Model, query: Text, r: nat, par: nat, left: bool, ambiguous: bool) {
    var found := Matches(m.tree, PreOf(s), query);
    if ambiguous then |found| > 1
    else if r == 0 then found == {} && (par, left) == PlaceOf(s, m, query)
    else found == {r}
  }

  lemma SearchBegins(s: Store, m: Model, query: Text)
    requires SectionsOk(s, m)
    ensures Searching(s, m, query, s.rlink[0], 0, 0, 0, s.rlink[0] != 0, m.tree, Leaf) && s.rlink[0] < s.Size()
  {
    RealizesBounds(s.link, s.rlink, s.rlink[0], m.tree);
  }

  lemma SearchEnds(s: Store, m: Model, query: Text, r: nat, par: nat, left: bool, tp: Tree, tq: Tree)
    requires Searching(s, m, query, 0, 0, r, par, left, tp, tq)
    ensures SearchResult(s, m, query, r, par, left, false)
  {
  }

  lemma Turn(s: Store, m: Model, query: Text, q: nat, r: nat, par: nat, left: bool, tp: Tree, tq: Tree)
    requires Searching(s, m, query, 0, q, r, par, left, tp, tq)
    ensures Searching(s, m, query, q, 0, r, par, left, tq, Leaf)
  {
  }

  lemma SearchOn(s: Store, m: Model, query: Text, p: nat, q: nat, r: nat, par: nat, left: bool, tp: Tree, tq: Tree, smaller: bool)
    requires Searching(s, m, query, p, q, r, par, left, tp, tq) && p != 0
    requires if smaller then Below(query, s.Pre(p)) else Below(s.Pre(p), query)
    ensures tp.Node? && tp.node == p < |s.link| && p < |s.rlink|
    ensures Searching(s, m, query, if smaller then s.link[p] else s.rlink[p], q, r, if r == 0 then p else par, if r == 0 then smaller else left,
                      if smaller then tp.left else tp.right, tq)
  {
    var pre := PreOf(s);
    if smaller {
      GoLeft(tp, pre, query);
    } else {
      BelowIsNotComparable(s.Pre(p), query);
      GoRight(tp, pre, query);
    }
  }

  lemma FirstFound(s: Store, m: Model, query: Text, p: nat, q: nat, par: nat, left: bool, tp: Tree, tq: Tree)
    requires Searching(s, m, query, p, q, 0, par, left, tp, tq) && p != 0 && Comparable(query, s.Pre(p))
    ensures tp.Node? && tp.node == p < |s.link| && p < |s.rlink|
    ensures Searching(s, m, query, s.link[p], s.rlink[p], p, par, left, tp.left, tp.right)
  {
    Here(tp, PreOf(s), query);
    Disjoint(tp, PreOf(s));
  }

  lemma TwoFound(s: Store, m: Model, query: Text, p: nat, q: nat, r: nat, par: nat, left: bool, tp: Tree, tq: Tree)
    requires Searching(s, m, query, p, q, r, par, left, tp, tq) && p != 0 && r != 0 && Comparable(query, s.Pre(p))
    ensures |Matches(m.tree, PreOf(s), query)| > 1
  {
    var found := Matches(m.tree, PreOf(s), query);
    assert p in Matches(tp, PreOf(s), query);
    assert {p, r} <= found && p != r;
    Larger({p, r}, found);
  }

  lemma CompareStep(j: Text, k: Text)
    requires j != [] && k != [] && j[0] == k[0]
    ensures Compare(j, k) == Compare(j[1..], k[1..])
  {
  }
}
