// The stored section names as a dictionary (cweb/common.c:811-957).

module NameMeaning {
  import opened SectionNames
  import opened SectionTree
  import opened NameStore
  import opened SectionDictionary

  function NameOf(s: Store, p: nat, ps: seq<Piece>): Name {
    Name(Joined(Chunks(ps)), Complete(Chunks(ps)), s.Pre(p))
  }

  ghost function NamesOf(s: Store, m: Model): Names {
    map p | p in m.pieces :: NameOf(s, p, m.pieces[p])
  }

  lemma MatchingIsMatches(s: Store, m: Model, query: Text)
    requires TreeOk(s, m)
    ensures Matching(NamesOf(s, m), query) == Matches(m.tree, PreOf(s), query)
  {
    assert forall p :: p in Elems(m.tree) <==> p in m.pieces;
  }

  // The stored prefix is the beginning of the first piece.
  lemma PreBegins(s: Store, role: seq<Role>, p: nat, ps: seq<Piece>)
    requires NameOk(s, role, p, ps)
    ensures s.Pre(p) == ps[0].chunk.text[..s.PrefixLength(p)] && s.Pre(p) <= Joined(Chunks(ps))
    ensures |s.Pre(p)| == s.PrefixLength(p) && 2 + s.PrefixLength(p) <= |s.Bytes(p)|
  {
    var text, n := ps[0].chunk.text, s.PrefixLength(p);
    var bytes := s.Bytes(p);
    assert bytes[2..2+n] == bytes[2..][..n] == Marked(ps[0].chunk)[..n] == text[..n];
    assert Joined(Chunks(ps)) == text + Joined(Chunks(ps)[1..]);
    assert (text + Joined(Chunks(ps)[1..]))[..n] == text[..n];
  }

  /** Whatever has been looked up, no stored prefix begins another. */
  lemma StoredIsProper(s: Store, m: Model)
    requires SectionsOk(s, m)
    ensures Proper(NamesOf(s, m))
  {
    var names := NamesOf(s, m);
    forall p, q | p in names && q in names && p != q
      ensures !Comparable(names[p].pre, names[q].pre)
    {
      PrefixesIncomparable(m.tree, PreOf(s), p, q);
    }
    forall p | p in names
      ensures names[p].pre <= names[p].text
    {
      assert HeadOk(s, m, p);
      PreBegins(s, m.role, p, m.pieces[p]);
    }
  }

  // One name has changed or come in addition.
  lemma OneChanged(s: Store, m: Model, s2: Store, m2: Model, p: nat, name: Name)
    requires p in m2.pieces && (forall o :: o in m2.pieces <==> o in m.pieces || o == p)
    requires forall o :: o in m.pieces && o != p ==> m2.pieces[o] == m.pieces[o] && s2.Pre(o) == s.Pre(o)
    requires NameOf(s2, p, m2.pieces[p]) == name
    ensures NamesOf(s2, m2) == NamesOf(s, m)[p := name]
  {
  }

  /** A name is added. */
  lemma AddedMeans(s: Store, m: Model, s2: Store, m2: Model, place: (nat, bool), query: Text, open: bool)
    requires NamesOk(s, m) && Grown(s, m.role, s2, m2.role, place, query, open) && (open ==> query != []) && Fine(Chunk(query, open))
    requires m2.pieces == m.pieces[s.Size() := [Piece(s.Size(), Chunk(query, open))]]
    ensures s.Size() !in m.pieces && NamesOf(s2, m2) == NamesOf(s, m)[s.Size() := Name(query, !open, query)]
  {
    var n := s.Size();
    NewNameOk(s, m.role, s2, m2.role, place, query, open);
    NewNameMeans(s2, n, query, open);
    assert HeadOk(s, m, n);
    forall p | p in m.pieces
      ensures p != n && s2.Pre(p) == s.Pre(p)
    {
      assert HeadOk(s, m, p);
      OldNameOk(s, m.role, s2, m2.role, place, query, open, p, m.pieces[p]);
    }
    OneChanged(s, m, s2, m2, n, Name(query, !open, query));
  }

  lemma NewNameMeans(s: Store, n: nat, query: Text, open: bool)
    requires s.Pre(n) == query
    ensures NameOf(s, n, [Piece(n, Chunk(query, open))]) == Name(query, !open, query)
  {
    var cs := Chunks([Piece(n, Chunk(query, open))]);
    assert cs == [Chunk(query, open)] && cs[1..] == [];
    assert Joined(cs[1..]) == [] && query + [] == query;
  }

  /** A name gets a further piece. */
  lemma ExtendedMeans(s: Store, m: Model, p: nat, ps: seq<Piece>, c: Chunk, r: nat)
    requires NamesOk(s, m) && p in m.pieces && ps == m.pieces[p] && ps != [] && ps[|ps|-1].chunk.open && (c.open ==> c.text != [])
    requires HolderOf(ps, |ps| - 1) < s.Size()
    ensures NamesOf(Extend(s, ps, c, r), ExtendModel(s, m, p, c))
         == NamesOf(s, m)[p := NameOf(s, p, ps).(text := Joined(Chunks(ps)) + c.text, complete := !c.open)]
  {
    var s2, m2 := Extend(s, ps, c, r), ExtendModel(s, m, p, c);
    forall o | o in m.pieces
      ensures s2.Pre(o) == s.Pre(o)
    {
      assert HeadOk(s, m, o) && s2.Bytes(o) == s.Bytes(o);
    }
    assert HeadOk(s, m, p);
    LongerName(s, s2, p, ps, s.Size(), c);
    OneChanged(s, m, s2, m2, p, NameOf(s, p, ps).(text := Joined(Chunks(ps)) + c.text, complete := !c.open));
  }

  lemma LongerName(s: Store, s2: Store, p: nat, ps: seq<Piece>, e: nat, c: Chunk)
    requires ps != [] && Chain(Chunks(ps)) && ps[|ps|-1].chunk.open && (c.open ==> c.text != []) && s2.Pre(p) == s.Pre(p)
    ensures NameOf(s2, p, ps + [Piece(e, c)]) == NameOf(s, p, ps).(text := Joined(Chunks(ps)) + c.text, complete := !c.open)
  {
    ChainMore(ps, e, c);
    JoinedMore(Chunks(ps), c);
  }

  /** A name gets a shorter prefix. */
  lemma ShortenedMeans(s: Store, m: Model, p: nat, query: Text)
    requires NamesOk(s, m) && p in m.pieces && query <= s.Pre(p)
    ensures |query| < 256 * 256 && p < s.Size() && |s.entries[p]| >= 2
    ensures NamesOf(s.SetPrefix(p, |query|), m) == NamesOf(s, m)[p := NameOf(s, p, m.pieces[p]).(pre := query)]
  {
    assert HeadOk(s, m, p);
    PreBegins(s, m.role, p, m.pieces[p]);
    PreAfter(s, p, query);
    OneChanged(s, m, s.SetPrefix(p, |query|), m, p, NameOf(s, p, m.pieces[p]).(pre := query));
  }

  /** An identifier is added. */
  lemma IdentifierMeans(s: Store, m: Model, bytes: Text, l: nat, r: nat)
    requires NamesOk(s, m)
    ensures NamesOf(s.Append(bytes, l, r), m.(role := m.role + [Id])) == NamesOf(s, m)
  {
    assert forall p: nat {:trigger p in m.pieces} :: HeadOk(s, m, p);
    NothingChanged(s, m, s.Append(bytes, l, r), m.(role := m.role + [Id]));
  }

  lemma NothingChanged(s: Store, m: Model, s2: Store, m2: Model)
    requires m2.pieces == m.pieces && forall p :: p in m.pieces ==> p < s.Size() <= s2.Size() && s2.entries[p] == s.entries[p]
    ensures NamesOf(s2, m2) == NamesOf(s, m)
  {
    assert forall p :: p in m.pieces ==> s2.Pre(p) == s.Pre(p);
  }
}
