// The name directory: identifiers, section names and their pieces share one array of
// entries and one array of bytes (cweb/common.c:54-110, 687-736, 759-864).

module NameStore {
  import opened SectionNames
  import opened SectionTree

  // ---------- entries

  /** The entries in use: their bytes and their two links. (`link` is also the left link
      of the tree.) */
  datatype Store = Store(entries: seq<Text>, link: seq<nat>, rlink: seq<nat>) {

    function Size(): nat { |entries| }

    predicate Shaped() { |rlink| == |link| == |entries| > 0 }

    function Bytes(e: nat): Text {
      if e < |entries| then entries[e] else []
    }

    /** `prefix_length` */
    function PrefixLength(p: nat): nat {
      if |Bytes(p)| >= 2 then Bytes(p)[0] as int * 256 + Bytes(p)[1] as int else 0
    }

    /** The prefix by which the section name can be called. */
    function Pre(p: nat): Text {
      if 2 + PrefixLength(p) <= |Bytes(p)| then Bytes(p)[2..2+PrefixLength(p)] else []
    }

    /** One more entry. */
    function Append(bytes: Text, l: nat, r: nat): Store {
      Store(entries + [bytes], link + [l], rlink + [r])
    }

    function SetLink(e: nat, l: nat): Store requires e < |link| { this.(link := link[e := l]) }

    function SetRlink(e: nat, l: nat): Store requires e < |rlink| { this.(rlink := rlink[e := l]) }

    /** `set_prefix_length` */
    function SetPrefix(p: nat, m: nat): Store
      requires p < |entries| && |entries[p]| >= 2 && m < 256 * 256
    {
      this.(entries := entries[p := [m / 256, m % 256] + entries[p][2..]])
    }
  }

  // ---------- what the entries are for

  datatype Role =
    | Root              // entry 0
    | Id                // an identifier
    | Head              // a section name, with its first piece
    | Holder(of: nat)   // the entry after an open section name, whose link leads to more
    | More(of: nat)     // a further piece of a section name

  datatype Piece = Piece(entry: nat, chunk: Chunk)

  datatype Model = Model(role: seq<Role>, tree: Tree, pieces: map<nat, seq<Piece>>)

  /** How a piece is stored: a blank at the end tells that it is open. */
  function Marked(c: Chunk): Text {
    c.text + if c.open then [BLANK] else []
  }

  predicate Fine(c: Chunk) {
    !c.open && c.text != [] ==> c.text[|c.text|-1] != BLANK
  }

  function Chunks(ps: seq<Piece>): (cs: seq<Chunk>)
    ensures |cs| == |ps|
  {
    seq(|ps|, i requires 0 <= i < |ps| => ps[i].chunk)
  }

  /** The entry whose link leads to the piece after the i-th. */
  function HolderOf(ps: seq<Piece>, i: nat): nat
    requires i < |ps|
  {
    if i == 0 then ps[0].entry + 1 else ps[i].entry
  }

  /** The pieces ps of section name p are stored and linked. */
  ghost predicate NameOk(s: Store, role: seq<Role>, p: nat, ps: seq<Piece>) {
    && ps != [] && ps[0].entry == p < s.Size() == |role| && Chain(Chunks(ps)) && (forall i :: 0 <= i < |ps| ==> Fine(ps[i].chunk))
    && |s.Bytes(p)| >= 2 && s.Bytes(p)[2..] == Marked(ps[0].chunk) && s.PrefixLength(p) <= |ps[0].chunk.text|
    && (ps[0].chunk.open ==> p + 1 < s.Size() && role[p+1] == Holder(p))
    && (forall i {:trigger PieceOk(s, role, p, ps[i])} :: 0 < i < |ps| ==> PieceOk(s, role, p, ps[i]))
    && (forall i {:trigger LinkOk(s, ps, i)} :: 0 <= i < |ps| && (i > 0 || ps[0].chunk.open) ==> LinkOk(s, ps, i))
  }

  ghost predicate PieceOk(s: Store, role: seq<Role>, p: nat, piece: Piece) {
    piece.entry < s.Size() && piece.entry < |role| && role[piece.entry] == More(p) && s.Bytes(piece.entry) == Marked(piece.chunk)
  }

  ghost predicate LinkOk(s: Store, ps: seq<Piece>, i: nat)
    requires i < |ps|
  {
    HolderOf(ps, i) < |s.link| && s.link[HolderOf(ps, i)] == if i + 1 < |ps| then ps[i+1].entry else 0
  }

  /** Entry e is part of section name p. */
  predicate PartOf(role: seq<Role>, p: nat, e: nat) {
    e < |role| && (e == p || role[e] == Holder(p) || role[e] == More(p))
  }

  /** Nothing of section name p has changed. */
  ghost predicate Untouched(s: Store, role: seq<Role>, s2: Store, role2: seq<Role>, p: nat) {
    && s.Shaped() && s2.Shaped() && s.Size() == |role| <= s2.Size() == |role2|
    && forall e: nat :: PartOf(role, p, e) ==> s2.Bytes(e) == s.Bytes(e) && role2[e] == role[e] && (e != p ==> s2.link[e] == s.link[e])
  }

  lemma NameStays(s: Store, role: seq<Role>, s2: Store, role2: seq<Role>, p: nat, ps: seq<Piece>)
    requires NameOk(s, role, p, ps) && Untouched(s, role, s2, role2, p) && role[p] == Head
    ensures NameOk(s2, role2, p, ps)
  {
    assert PartOf(role, p, p);
    if ps[0].chunk.open {
      assert PartOf(role, p, p + 1);
    }
    forall i | 0 < i < |ps|
      ensures PieceOk(s2, role2, p, ps[i])
    {
      assert PieceOk(s, role, p, ps[i]);
      assert PartOf(role, p, ps[i].entry);
    }
    forall i | 0 <= i < |ps| && (i > 0 || ps[0].chunk.open)
      ensures LinkOk(s2, ps, i)
    {
      assert LinkOk(s, ps, i);
      if i > 0 {
        assert PieceOk(s, role, p, ps[i]);
      }
      assert PartOf(role, p, HolderOf(ps, i)) && HolderOf(ps, i) != p;
    }
  }

  function PreOf(s: Store): nat -> Text {
    (p: nat) => s.Pre(p)
  }

  /** All section names are stored. */
  ghost predicate NamesOk(s: Store, m: Model) {
    && s.Shaped() && |m.role| == s.Size() && m.role[0] == Root
    && forall p: nat {:trigger HeadOk(s, m, p)} :: HeadOk(s, m, p)
  }

  /** Entry p is a section name if and only if it has pieces, and they are stored. */
  ghost predicate HeadOk(s: Store, m: Model, p: nat) {
    && (p in m.pieces <==> p < |m.role| && m.role[p] == Head)
    && (p in m.pieces ==> p < s.Size() && NameOk(s, m.role, p, m.pieces[p]))
  }

  /** The tree holds them, sorted by their prefixes. */
  ghost predicate TreeOk(s: Store, m: Model) {
    && |s.rlink| > 0 && Elems(m.tree) == m.pieces.Keys && Realizes(s.link, s.rlink, s.rlink[0], m.tree) && Sorted(m.tree, PreOf(s))
  }

  ghost predicate SectionsOk(s: Store, m: Model) {
    NamesOk(s, m) && TreeOk(s, m)
  }

  // ---------- an identifier

  /** A new identifier changes nothing for the section names. */
  lemma AddIdKeepsSections(s: Store, m: Model, bytes: Text, l: nat, r: nat)
    requires SectionsOk(s, m)
    ensures SectionsOk(s.Append(bytes, l, r), m.(role := m.role + [Id]))
  {
    AddIdKeepsNames(s, m, bytes, l, r);
    var s2 := s.Append(bytes, l, r);
    forall p | p in m.pieces
      ensures SameHead(s, s2, p)
    {
      assert HeadOk(s, m, p);
    }
    SameTree(s, m, s2);
  }

  lemma AddIdKeepsNames(s: Store, m: Model, bytes: Text, l: nat, r: nat)
    requires NamesOk(s, m)
    ensures NamesOk(s.Append(bytes, l, r), m.(role := m.role + [Id]))
  {
    var s2, role2 := s.Append(bytes, l, r), m.role + [Id];
    forall p: nat
      ensures HeadOk(s2, m.(role := role2), p)
    {
      assert HeadOk(s, m, p);
      if p in m.pieces {
        NameStays(s, m.role, s2, role2, p, m.pieces[p]);
      }
    }
  }

  predicate SameHead(s: Store, s2: Store, p: nat) {
    p < |s.link| && p < |s.rlink| && p < |s2.link| && p < |s2.rlink|
    && s2.Pre(p) == s.Pre(p) && s2.link[p] == s.link[p] && s2.rlink[p] == s.rlink[p]
  }

  /** Links and prefixes of the tree have not changed. */
  lemma SameTree(s: Store, m: Model, s2: Store)
    requires s.Shaped() && TreeOk(s, m) && s2.Shaped() && s.Size() <= s2.Size() && s2.rlink[0] == s.rlink[0]
    requires forall p {:trigger SameHead(s, s2, p)} :: p in m.pieces ==> SameHead(s, s2, p)
    ensures Realizes(s2.link, s2.rlink, s2.rlink[0], m.tree) && Sorted(m.tree, PreOf(s2))
  {
    forall p | p in m.pieces
      ensures s2.Pre(p) == s.Pre(p) && p < s.Size() && s2.link[p] == s.link[p] && s2.rlink[p] == s.rlink[p]
    {
      assert SameHead(s, s2, p);
    }
    RealizesBounds(s.link, s.rlink, s.rlink[0], m.tree);
    RealizesSame(s.link, s.rlink, s2.link, s2.rlink, s.rlink[0], m.tree);
    SortedSame(m.tree, PreOf(s), PreOf(s2));
  }

  // ---------- a new section name

  function HeadBytes(query: Text, open: bool): Text
    requires |query| < 256 * 256
  {
    [|query| / 256, |query| % 256] + Marked(Chunk(query, open))
  }

  /** `add_section_name`: the entry, one more if the name is not complete, and the link
      from the place in the tree (or from the root). r is what is left of an old rlink. */
  function AddName(s: Store, place: (nat, bool), query: Text, open: bool, r: nat): Store
    requires s.Shaped() && |query| < 256 * 256 && place.0 < s.Size()
  {
    var s1 := s.Append(HeadBytes(query, open), 0, 0);
    var s2 := if open then s1.Append([], 0, r) else s1;
    if place.0 > 0 && place.1 then s2.SetLink(place.0, s.Size()) else s2.SetRlink(place.0, s.Size())
  }

  function NewRoles(role: seq<Role>, open: bool): seq<Role> {
    role + [Head] + if open then [Holder(|role|)] else []
  }

  function AddNameModel(s: Store, m: Model, query: Text, open: bool): Model {
    var n := s.Size();
    Model(NewRoles(m.role, open), Insert(m.tree, PreOf(s), query, n), m.pieces[n := [Piece(n, Chunk(query, open))]])
  }

  /** Where the new name goes: 0 is the root. */
  function PlaceOf(s: Store, m: Model, query: Text): (nat, bool) {
    if m.tree.Leaf? then (0, false) else Place(m.tree, PreOf(s), query, 0, true)
  }

  /** What has changed when a name has been added. */
  ghost predicate Grown(s: Store, role: seq<Role>, s2: Store, role2: seq<Role>, place: (nat, bool), query: Text, open: bool) {
    var n, left := s.Size(), place.0 > 0 && place.1;
    && s.Shaped() && s2.Shaped() && |role| == n && |role2| == s2.Size() == n + (if open then 2 else 1)
    && |query| < 256 * 256 && place.0 < n && (role[place.0] == Head || role[place.0] == Root)
    && (forall e :: 0 <= e < n ==> s2.entries[e] == s.entries[e] && role2[e] == role[e])
    && (forall e :: 0 <= e < n && !(left && e == place.0) ==> s2.link[e] == s.link[e])
    && (forall e :: 0 <= e < n && !(!left && e == place.0) ==> s2.rlink[e] == s.rlink[e])
    && (if left then s2.link[place.0] == n else s2.rlink[place.0] == n)
    && s2.entries[n] == HeadBytes(query, open) && role2[n] == Head && s2.link[n] == 0 && s2.rlink[n] == 0
    && (open ==> role2[n+1] == Holder(n) && s2.link[n+1] == 0)
  }

  lemma AddNameGrows(s: Store, role: seq<Role>, place: (nat, bool), query: Text, open: bool, r: nat)
    requires s.Shaped() && |role| == s.Size() && |query| < 256 * 256 && place.0 < s.Size()
    requires role[place.0] == Head || role[place.0] == Root
    ensures Grown(s, role, AddName(s, place, query, open, r), NewRoles(role, open), place, query, open)
  {
  }

  lemma NewNameOk(s: Store, role: seq<Role>, s2: Store, role2: seq<Role>, place: (nat, bool), query: Text, open: bool)
    requires Grown(s, role, s2, role2, place, query, open) && (open ==> query != []) && Fine(Chunk(query, open))
    ensures var n := s.Size(); NameOk(s2, role2, n, [Piece(n, Chunk(query, open))]) && s2.Pre(n) == query
  {
    var n, bytes := s.Size(), HeadBytes(query, open);
    assert bytes[2..] == Marked(Chunk(query, open));
    assert bytes[2..2 + |query|] == query;
    var ps := [Piece(n, Chunk(query, open))];
    assert Chunks(ps) == [Chunk(query, open)];
    if open {
      assert LinkOk(s2, ps, 0);
    }
  }

  lemma OldNameOk(s: Store, role: seq<Role>, s2: Store, role2: seq<Role>, place: (nat, bool), query: Text, open: bool, p: nat, ps: seq<Piece>)
    requires Grown(s, role, s2, role2, place, query, open) && p < s.Size() && role[p] == Head && NameOk(s, role, p, ps)
    ensures NameOk(s2, role2, p, ps) && s2.Pre(p) == s.Pre(p)
  {
    NameStays(s, role, s2, role2, p, ps);
  }

  lemma PlaceIsHead(s: Store, m: Model, query: Text)
    requires SectionsOk(s, m)
    ensures var place := PlaceOf(s, m, query);
            place.0 < s.Size() && (m.role[place.0] == Head || m.role[place.0] == Root) && (m.tree.Node? ==> place.0 > 0)
  {
    RealizesBounds(s.link, s.rlink, s.rlink[0], m.tree);
    if m.tree.Node? {
      PlaceIsNode(m.tree, PreOf(s), query, 0, true);
      assert HeadOk(s, m, PlaceOf(s, m, query).0);
    }
  }

  lemma NewTree(s: Store, m: Model, s2: Store, role2: seq<Role>, query: Text, open: bool)
    requires TreeOk(s, m) && Grown(s, m.role, s2, role2, PlaceOf(s, m, query), query, open)
    ensures Realizes(s2.link, s2.rlink, s2.rlink[0], Insert(m.tree, PreOf(s), query, s.Size()))
  {
    var place, n := PlaceOf(s, m, query), s.Size();
    RealizesBounds(s.link, s.rlink, s.rlink[0], m.tree);
    if m.tree.Node? {
      PlaceIsNode(m.tree, PreOf(s), query, 0, true);
      RealizesInsert(s.link, s.rlink, s2.link, s2.rlink, s.rlink[0], m.tree, PreOf(s), query, n);
    }
  }

  lemma NamesGrow(s: Store, m: Model, s2: Store, m2: Model, place: (nat, bool), query: Text, open: bool)
    requires NamesOk(s, m) && Grown(s, m.role, s2, m2.role, place, query, open) && (open ==> query != []) && Fine(Chunk(query, open))
    requires m2.pieces == m.pieces[s.Size() := [Piece(s.Size(), Chunk(query, open))]]
    ensures NamesOk(s2, m2)
  {
    NewNameOk(s, m.role, s2, m2.role, place, query, open);
    forall p: nat
      ensures HeadOk(s2, m2, p)
    {
      assert HeadOk(s, m, p);
      if p in m.pieces {
        OldNameOk(s, m.role, s2, m2.role, place, query, open, p, m.pieces[p]);
      }
    }
  }

  lemma TreeGrows(s: Store, m: Model, s2: Store, m2: Model, query: Text, open: bool)
    requires NamesOk(s, m) && TreeOk(s, m) && Matches(m.tree, PreOf(s), query) == {}
    requires Grown(s, m.role, s2, m2.role, PlaceOf(s, m, query), query, open) && (open ==> query != []) && Fine(Chunk(query, open))
    requires m2.tree == Insert(m.tree, PreOf(s), query, s.Size()) && m2.pieces.Keys == m.pieces.Keys + {s.Size()}
    ensures TreeOk(s2, m2)
  {
    var place, n := PlaceOf(s, m, query), s.Size();
    NewTree(s, m, s2, m2.role, query, open);
    NewNameOk(s, m.role, s2, m2.role, place, query, open);
    forall p | p in m.pieces
      ensures s2.Pre(p) == s.Pre(p)
    {
      assert HeadOk(s, m, p);
      OldNameOk(s, m.role, s2, m2.role, place, query, open, p, m.pieces[p]);
    }
    InsertSorted(m.tree, PreOf(s), query, n, PreOf(s2));
  }

  /** A new name that matches no prefix. */
  lemma AddNameOk(s: Store, m: Model, query: Text, open: bool, r: nat)
    requires SectionsOk(s, m) && |query| < 256 * 256 && (open ==> query != []) && Fine(Chunk(query, open))
    requires Matches(m.tree, PreOf(s), query) == {}
    ensures PlaceOf(s, m, query).0 < s.Size()
    ensures SectionsOk(AddName(s, PlaceOf(s, m, query), query, open, r), AddNameModel(s, m, query, open))
  {
    PlaceIsHead(s, m, query);
    var place := PlaceOf(s, m, query);
    AddNameGrows(s, m.role, place, query, open, r);
    AddedOk(s, m, AddName(s, place, query, open, r), AddNameModel(s, m, query, open), query, open);
  }

  lemma AddedOk(s: Store, m: Model, s2: Store, m2: Model, query: Text, open: bool)
    requires SectionsOk(s, m) && (open ==> query != []) && Fine(Chunk(query, open)) && Matches(m.tree, PreOf(s), query) == {}
    requires Grown(s, m.role, s2, m2.role, PlaceOf(s, m, query), query, open)
    requires m2.pieces == m.pieces[s.Size() := [Piece(s.Size(), Chunk(query, open))]]
    requires m2.tree == Insert(m.tree, PreOf(s), query, s.Size())
    ensures SectionsOk(s2, m2)
  {
    NamesGrow(s, m, s2, m2, PlaceOf(s, m, query), query, open);
    TreeGrows(s, m, s2, m2, query, open);
  }

  // ---------- more of a section name

  lemma JoinedMore(chunks: seq<Chunk>, c: Chunk)
    ensures Joined(chunks + [c]) == Joined(chunks) + c.text
    decreases |chunks|
  {
    if chunks == [] {
      assert Joined([c]) == c.text + Joined([c][1..]);
    } else {
      assert (chunks + [c])[0] == chunks[0] && (chunks + [c])[1..] == chunks[1..] + [c];
      JoinedMore(chunks[1..], c);
      assert chunks[0].text + (Joined(chunks[1..]) + c.text) == chunks[0].text + Joined(chunks[1..]) + c.text;
    }
  }

  /** `extend_section_name`: a further piece, linked from the last one. */
  function Extend(s: Store, ps: seq<Piece>, c: Chunk, r: nat): Store
    requires s.Shaped() && ps != [] && HolderOf(ps, |ps| - 1) < s.Size()
  {
    s.SetLink(HolderOf(ps, |ps| - 1), s.Size()).Append(Marked(c), 0, r)
  }

  function ExtendModel(s: Store, m: Model, p: nat, c: Chunk): Model
    requires p in m.pieces
  {
    m.(role := m.role + [More(p)], pieces := m.pieces[p := m.pieces[p] + [Piece(s.Size(), c)]])
  }

  lemma HolderIsPart(s: Store, role: seq<Role>, p: nat, ps: seq<Piece>, i: nat)
    requires NameOk(s, role, p, ps) && i < |ps| && (i > 0 || ps[0].chunk.open)
    ensures HolderOf(ps, i) < s.Size() && (role[HolderOf(ps, i)] == Holder(p) || role[HolderOf(ps, i)] == More(p))
  {
    if i > 0 {
      assert PieceOk(s, role, p, ps[i]);
    }
  }

  lemma ChainMore(ps: seq<Piece>, e: nat, c: Chunk)
    requires ps != [] && Chain(Chunks(ps)) && ps[|ps|-1].chunk.open && (c.open ==> c.text != [])
    ensures Chain(Chunks(ps + [Piece(e, c)])) && Chunks(ps + [Piece(e, c)]) == Chunks(ps) + [c]
  {
    assert Chunks(ps + [Piece(e, c)]) == Chunks(ps) + [c];
    var cs := Chunks(ps);
    assert cs[|cs|-1].open;
  }

  /** The extended name itself. */
  lemma ExtendedNameOk(s: Store, role: seq<Role>, p: nat, ps: seq<Piece>, c: Chunk, r: nat)
    requires s.Shaped() && NameOk(s, role, p, ps) && role[p] == Head && role[0] == Root && ps[|ps|-1].chunk.open && (c.open ==> c.text != []) && Fine(c)
    ensures HolderOf(ps, |ps| - 1) < s.Size()
    ensures NameOk(Extend(s, ps, c, r), role + [More(p)], p, ps + [Piece(s.Size(), c)])
  {
    HolderIsPart(s, role, p, ps, |ps| - 1);
    ChainMore(ps, s.Size(), c);
    var qs, s2 := ps + [Piece(s.Size(), c)], Extend(s, ps, c, r);
    forall i | 0 < i < |qs|
      ensures PieceOk(s2, role + [More(p)], p, qs[i])
    {
      assert i < |ps| ==> PieceOk(s, role, p, ps[i]);
    }
    forall i | 0 <= i < |qs| && (i > 0 || qs[0].chunk.open)
      ensures LinkOk(s2, qs, i)
    {
      ExtendedLinkOk(s, role, p, ps, c, r, i);
    }
  }

  lemma ExtendedLinkOk(s: Store, role: seq<Role>, p: nat, ps: seq<Piece>, c: Chunk, r: nat, i: nat)
    requires s.Shaped() && NameOk(s, role, p, ps) && role[p] == Head && role[0] == Root && HolderOf(ps, |ps| - 1) < s.Size()
    requires i <= |ps| && (i > 0 || ps[0].chunk.open)
    ensures LinkOk(Extend(s, ps, c, r), ps + [Piece(s.Size(), c)], i)
  {
    var qs := ps + [Piece(s.Size(), c)];
    if i < |ps| - 1 {
      assert LinkOk(s, ps, i);
      HoldersDiffer(s, role, p, ps, i);
      assert HolderOf(qs, i) == HolderOf(ps, i) && qs[i+1] == ps[i+1];
    } else if i == |ps| - 1 {
      assert HolderOf(qs, i) == HolderOf(ps, i) && qs[i+1].entry == s.Size();
    }
  }

  // The last holder is none of the others: its link leads nowhere.
  lemma HoldersDiffer(s: Store, role: seq<Role>, p: nat, ps: seq<Piece>, i: nat)
    requires NameOk(s, role, p, ps) && i < |ps| - 1 && role[p] == Head && role[0] == Root
    ensures HolderOf(ps, i) != HolderOf(ps, |ps| - 1)
  {
    assert Chunks(ps)[0].open;
    assert LinkOk(s, ps, i) && LinkOk(s, ps, |ps| - 1);
    assert PieceOk(s, role, p, ps[i+1]);
  }

  /** Other names do not notice. */
  lemma ExtendOthers(s: Store, role: seq<Role>, p: nat, ps: seq<Piece>, c: Chunk, r: nat, o: nat, os: seq<Piece>)
    requires s.Shaped() && |role| == s.Size() && NameOk(s, role, p, ps) && ps[|ps|-1].chunk.open
    requires HolderOf(ps, |ps| - 1) < s.Size()
    requires o != p && o < s.Size() && role[o] == Head && NameOk(s, role, o, os)
    ensures NameOk(Extend(s, ps, c, r), role + [More(p)], o, os)
  {
    HolderIsPart(s, role, p, ps, |ps| - 1);
    NameStays(s, role, Extend(s, ps, c, r), role + [More(p)], o, os);
  }

  lemma ExtendNames(s: Store, m: Model, p: nat, c: Chunk, r: nat)
    requires NamesOk(s, m) && p in m.pieces && m.pieces[p] != [] && m.pieces[p][|m.pieces[p]|-1].chunk.open
    requires (c.open ==> c.text != []) && Fine(c)
    ensures HolderOf(m.pieces[p], |m.pieces[p]| - 1) < s.Size()
    ensures NamesOk(Extend(s, m.pieces[p], c, r), ExtendModel(s, m, p, c))
  {
    var ps := m.pieces[p];
    assert HeadOk(s, m, p);
    ExtendedNameOk(s, m.role, p, ps, c, r);
    var s2, m2 := Extend(s, ps, c, r), ExtendModel(s, m, p, c);
    forall o: nat
      ensures HeadOk(s2, m2, o)
    {
      assert HeadOk(s, m, o);
      if o in m.pieces && o != p {
        ExtendOthers(s, m.role, p, ps, c, r, o, m.pieces[o]);
      }
    }
  }

  /** A further piece keeps everything in order. */
  lemma ExtendOk(s: Store, m: Model, p: nat, c: Chunk, r: nat)
    requires SectionsOk(s, m) && p in m.pieces && m.pieces[p] != [] && m.pieces[p][|m.pieces[p]|-1].chunk.open
    requires (c.open ==> c.text != []) && Fine(c)
    ensures HolderOf(m.pieces[p], |m.pieces[p]| - 1) < s.Size()
    ensures SectionsOk(Extend(s, m.pieces[p], c, r), ExtendModel(s, m, p, c))
  {
    ExtendNames(s, m, p, c, r);
    var ps := m.pieces[p];
    assert HeadOk(s, m, p);
    HolderIsPart(s, m.role, p, ps, |ps| - 1);
    HeadsAreHeads(s, m);
    ExtendTree(s, m, p, ps, c, r);
  }

  lemma HeadsAreHeads(s: Store, m: Model)
    requires NamesOk(s, m)
    ensures forall o {:trigger o in m.pieces} :: o in m.pieces ==> o < |m.role| && m.role[o] == Head
  {
    assert forall o: nat {:trigger HeadOk(s, m, o)} {:trigger o in m.pieces} :: HeadOk(s, m, o);
  }

  lemma ExtendTree(s: Store, m: Model, p: nat, ps: seq<Piece>, c: Chunk, r: nat)
    requires s.Shaped() && |m.role| == s.Size() && TreeOk(s, m)
    requires forall o {:trigger o in m.pieces} :: o in m.pieces ==> o < |m.role| && m.role[o] == Head
    requires ps != [] && HolderOf(ps, |ps| - 1) < s.Size() && m.role[HolderOf(ps, |ps| - 1)] != Head
    ensures Realizes(Extend(s, ps, c, r).link, Extend(s, ps, c, r).rlink, Extend(s, ps, c, r).rlink[0], m.tree)
    ensures Sorted(m.tree, PreOf(Extend(s, ps, c, r)))
  {
    var s2 := Extend(s, ps, c, r);
    forall o | o in m.pieces
      ensures SameHead(s, s2, o)
    {
      ExtendHead(s, m.role, ps, c, r, o);
    }
    SameTree(s, m, s2);
  }

  lemma ExtendHead(s: Store, role: seq<Role>, ps: seq<Piece>, c: Chunk, r: nat, o: nat)
    requires s.Shaped() && |role| == s.Size() && ps != [] && HolderOf(ps, |ps| - 1) < s.Size()
    requires role[HolderOf(ps, |ps| - 1)] != Head && o < s.Size() && role[o] == Head
    ensures SameHead(s, Extend(s, ps, c, r), o)
  {
    assert Extend(s, ps, c, r).Bytes(o) == s.Bytes(o);
  }

  // ---------- a shorter prefix

  lemma SetPrefixNames(s: Store, m: Model, p: nat, n: nat)
    requires NamesOk(s, m) && p in m.pieces && n <= s.PrefixLength(p) && n < 256 * 256
    ensures p < s.Size() && |s.entries[p]| >= 2 && NamesOk(s.SetPrefix(p, n), m)
  {
    assert HeadOk(s, m, p);
    var s2 := s.SetPrefix(p, n);
    forall o: nat
      ensures HeadOk(s2, m, o)
    {
      assert HeadOk(s, m, o);
      if o == p {
        ShorterNameOk(s, m.role, p, m.pieces[p], n);
      } else if o in m.pieces {
        NameStays(s, m.role, s2, m.role, o, m.pieces[o]);
      }
    }
  }

  lemma ShorterNameOk(s: Store, role: seq<Role>, p: nat, ps: seq<Piece>, n: nat)
    requires s.Shaped() && NameOk(s, role, p, ps) && role[p] == Head && n <= s.PrefixLength(p) && n < 256 * 256
    ensures NameOk(s.SetPrefix(p, n), role, p, ps)
  {
    var s2 := s.SetPrefix(p, n);
    assert s2.entries[p][2..] == s.entries[p][2..];
    forall i | 0 < i < |ps|
      ensures PieceOk(s2, role, p, ps[i])
    {
      assert PieceOk(s, role, p, ps[i]);
    }
    forall i | 0 <= i < |ps| && (i > 0 || ps[0].chunk.open)
      ensures LinkOk(s2, ps, i)
    {
      assert LinkOk(s, ps, i);
    }
  }

  /** Shortening a prefix to a query that matches no other keeps everything in order. */
  lemma ShortenOk(s: Store, m: Model, p: nat, query: Text)
    requires SectionsOk(s, m) && p in m.pieces && query <= s.Pre(p) && Matches(m.tree, PreOf(s), query) <= {p}
    ensures |query| < 256 * 256 && p < s.Size() && |s.entries[p]| >= 2
    ensures SectionsOk(s.SetPrefix(p, |query|), m) && s.SetPrefix(p, |query|).Pre(p) == query
  {
    assert HeadOk(s, m, p);
    SetPrefixNames(s, m, p, |query|);
    var s2 := s.SetPrefix(p, |query|);
    PreAfter(s, p, query);
    RealizesBounds(s.link, s.rlink, s.rlink[0], m.tree);
    RealizesSame(s.link, s.rlink, s2.link, s2.rlink, s.rlink[0], m.tree);
    ShortenSorted(m.tree, PreOf(s), p, query, PreOf(s2));
  }

  lemma PreAfter(s: Store, p: nat, query: Text)
    requires p < s.Size() && |s.entries[p]| >= 2 && query <= s.Pre(p) && |query| < 256 * 256 && 2 + s.PrefixLength(p) <= |s.entries[p]|
    ensures s.SetPrefix(p, |query|).Pre(p) == query
    ensures forall o: nat :: o != p ==> s.SetPrefix(p, |query|).Pre(o) == s.Pre(o)
  {
    var s2 := s.SetPrefix(p, |query|);
    assert s2.entries[p][2..] == s.entries[p][2..];
    assert s2.Pre(p) == s2.entries[p][2..][..|query|] == s.entries[p][2..][..|query|];
    assert s.Pre(p) == s.entries[p][2..][..s.PrefixLength(p)];
  }
}
