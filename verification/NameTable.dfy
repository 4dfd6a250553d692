// The name directory in place (cweb/common.c:686-736, 759-780, 795-991).

module NameTable {
  import opened Basics
  import opened SectionNames
  import opened SectionTree
  import opened NameStore
  import opened SectionDictionary
  import opened NameMeaning
  import opened IdTable
  import opened LinkedList
  import opened NameFacts

  class Directory {
    const byteMem: array<Byte>
    const starts: array<nat>
    const link: array<nat>
    const rlink: array<nat>
    const hash: array<nat>
    var namePtr: nat
    var bytePtr: nat
    ghost var entries: seq<Text>
    ghost var model: Model
    ghost var buckets: seq<seq<nat>>

    ghost predicate Shaped() reads this {
      && starts.Length == link.Length == rlink.Length && hash.Length == HASH_SIZE
      && starts != link && starts != rlink && starts != hash && link != rlink && link != hash && rlink != hash
      && 0 < namePtr < starts.Length && bytePtr <= byteMem.Length && |entries| == namePtr
    }

    ghost predicate Layout() reads this, byteMem, starts
      requires bytePtr <= byteMem.Length && namePtr < starts.Length
    {
      Laid(byteMem[..bytePtr], starts[..namePtr+1], entries)
    }

    ghost function View(): Store reads this, link, rlink
      requires namePtr <= link.Length && namePtr <= rlink.Length
    {
      Store(entries, link[..namePtr], rlink[..namePtr])
    }

    ghost predicate Valid() reads this, byteMem, starts, link, rlink, hash {
      && Shaped() && Layout() && SectionsOk(View(), model) && IdsOk(View(), model.role, hash[..], buckets)
    }

    ghost function Names(): Names reads this, link, rlink
      requires namePtr <= link.Length && namePtr <= rlink.Length
    {
      NamesOf(View(), model)
    }

    /** An empty directory. (`common_init`) */
    constructor (names: nat, bytes: nat)
      requires names > 1
      ensures Valid() && Names() == map[] && Ids() == map[] && entries == [[]] && starts.Length == names && byteMem.Length == bytes
    {
      byteMem := new Byte[bytes](_ => 0);
      starts := new nat[names](_ => 0);
      link := new nat[names](_ => 0);
      rlink := new nat[names](_ => 0);
      hash := new nat[HASH_SIZE](_ => 0);
      namePtr, bytePtr := 1, 0;
      entries, model, buckets := [[]], Model([Root], Leaf, map[]), seq(HASH_SIZE, _ => []);
      new;
      assert IdsOk(View(), [Root], hash[..], buckets);
    }

    ghost function Ids(): map<nat, Text> reads this, link, rlink
      requires namePtr <= link.Length && namePtr <= rlink.Length
    {
      Identifiers(View(), model.role)
    }

    /** Whatever a directory holds, its identifiers are told apart by their texts. */
    lemma IdsAreDistinct()
      requires Valid()
      ensures Distinct(Ids())
    {
      StoredDistinct(View(), model.role, hash[..], buckets);
    }

    // ---------- reading bytes

    /** `web_strcmp`: the query from `first` on, and len bytes from s on. */
    method CompareAt(query: Text, first: nat, s: nat, len: nat) returns (c: Order)
      requires first <= |query| && s + len <= byteMem.Length
      ensures c == Compare(query[first..], byteMem[s..s+len])
    {
      var i := 0;
      while i < len && first + i < |query| && query[first+i] == byteMem[s+i]
        invariant i <= len && first + i <= |query|
        invariant Compare(query[first..], byteMem[s..s+len]) == Compare(query[first+i..], byteMem[s+i..s+len])
      {
        CompareStep(query[first+i..], byteMem[s+i..s+len]);
        assert query[first+i..][1..] == query[first+i+1..] && byteMem[s+i..s+len][1..] == byteMem[s+i+1..s+len];
        i := i + 1;
      }
      if i == len {
        c := if first + i == |query| then Same else Extension;
      } else if first + i == |query| {
        c := Prefix;
      } else {
        c := if query[first+i] < byteMem[s+i] then Smaller else Greater;
      }
    }

    /** `prefix_length` */
    method PrefixLengthOf(p: nat, ghost s: Store) returns (n: nat)
      requires Shaped() && Layout() && p < namePtr && |entries[p]| >= 2 && s.entries == entries
      ensures n == s.PrefixLength(p)
    {
      EntryAt(p);
      n := byteMem[starts[p]] as int * 256 + byteMem[starts[p]+1] as int;
    }

    lemma EntryAt(e: nat)
      requires Shaped() && Layout() && e < namePtr
      ensures starts[e] <= starts[e+1] <= bytePtr && |entries[e]| == starts[e+1] - starts[e]
      ensures byteMem[starts[e]..starts[e+1]] == entries[e]
      ensures forall i :: 0 <= i < |entries[e]| ==> byteMem[starts[e]+i] == entries[e][i]
    {
      var start := starts[..namePtr+1];
      assert start[e] == starts[e] && start[e+1] == starts[e+1] && start[namePtr] == starts[namePtr];
      assert byteMem[..bytePtr][starts[e]..starts[e+1]] == byteMem[starts[e]..starts[e+1]];
      forall i | 0 <= i < |entries[e]|
        ensures byteMem[starts[e]+i] == entries[e][i]
      {
        assert byteMem[starts[e]..starts[e+1]][i] == byteMem[starts[e]+i];
      }
    }

    /** `names_match` */
    method NamesMatch(p: nat, text: Text) returns (same: bool)
      requires Shaped() && Layout() && p < namePtr
      ensures same == (View().Bytes(p) == text)
    {
      EntryAt(p);
      if starts[p+1] - starts[p] != |text| {
        return false;
      }
      var i := 0;
      while i < |text|
        invariant i <= |text| && forall j :: 0 <= j < i ==> text[j] == entries[p][j]
      {
        if byteMem[starts[p]+i] != text[i] {
          return false;
        }
        i := i + 1;
      }
      same := true;
    }

    // ---------- searching the tree

    /** How the query compares with the prefix of p. */
    method ComparePrefix(query: Text, p: nat, ghost s: Store) returns (c: Order)
      requires Shaped() && Layout() && p < namePtr && |entries[p]| >= 2 && s.entries == entries && 2 + s.PrefixLength(p) <= |entries[p]|
      ensures c == Compare(query, s.Pre(p))
    {
      EntryAt(p);
      var n := PrefixLengthOf(p, s);
      c := CompareAt(query, 0, starts[p] + 2, n);
      assert query[0..] == query;
      InMiddle(byteMem[..], starts[p], starts[p+1], entries[p], n);
      assert byteMem[starts[p]+2..starts[p]+2+n] == byteMem[..][starts[p]+2..starts[p]+2+n];
    }

    /** The first half of `section_lookup`: the one name whose prefix is comparable with the
        query, or the place of a new name, or the discovery that there are two. */
    method Search(query: Text, ghost s: Store, ghost m: Model) returns (r: nat, par: nat, left: bool, ambiguous: bool)
      requires Shaped() && Layout() && s == View() && SectionsOk(s, m)
      ensures r < namePtr && SearchResult(s, m, query, r, par, left, ambiguous)
    {
      SearchBegins(s, m, query);
      r, par, left, ambiguous := Descend(query, rlink[0], s, m);
    }

    method Descend(query: Text, root: nat, ghost s: Store, ghost m: Model) returns (r: nat, par: nat, left: bool, ambiguous: bool)
      requires Shaped() && Layout() && s == View() && SectionsOk(s, m) && root < namePtr
      requires Searching(s, m, query, root, 0, 0, 0, root != 0, m.tree, Leaf)
      ensures r < namePtr && SearchResult(s, m, query, r, par, left, ambiguous)
    {
      var p: nat, q: nat := root, 0;
      ghost var tp, tq := m.tree, Leaf;
      ghost var size := Count(tp) + Count(tq);
      r, par, left, ambiguous := 0, 0, root != 0, false;
      while p != 0 && !ambiguous
        invariant p < namePtr && q < namePtr && r < namePtr && (p == 0 ==> q == 0) && size == Count(tp) + Count(tq)
        invariant if ambiguous then SearchResult(s, m, query, r, par, left, true) else Searching(s, m, query, p, q, r, par, left, tp, tq)
        decreases !ambiguous, size
      {
        p, q, r, par, left, ambiguous, tp, tq := Visit(query, p, q, r, par, left, s, m, tp, tq);
        size := Count(tp) + Count(tq);
      }
      if !ambiguous {
        SearchEnds(s, m, query, r, par, left, tp, tq);
      }
    }

    /** A node on the way. */
    method Visit(query: Text, p: nat, q: nat, r: nat, par: nat, left: bool, ghost s: Store, ghost m: Model, ghost tp: Tree, ghost tq: Tree)
      returns (p2: nat, q2: nat, r2: nat, par2: nat, left2: bool, ambiguous: bool, ghost tp2: Tree, ghost tq2: Tree)
      requires Shaped() && Layout() && s == View() && SectionsOk(s, m) && p != 0 && q < namePtr && r < namePtr
      requires Searching(s, m, query, p, q, r, par, left, tp, tq)
      ensures ambiguous ==> p2 != 0 && SearchResult(s, m, query, r2, par2, left2, true)
      ensures !ambiguous ==> Searching(s, m, query, p2, q2, r2, par2, left2, tp2, tq2) && Count(tp2) + Count(tq2) < Count(tp) + Count(tq)
      ensures p2 < namePtr && q2 < namePtr && r2 < namePtr && (p2 == 0 ==> q2 == 0)
    {
      NodeAt(s, m, p, tp);
      var c := ComparePrefix(query, p, s);
      CompareMeans(query, s.Pre(p));
      p2, q2, r2, par2, left2, ambiguous, tp2, tq2 := p, q, r, par, left, false, tp, tq;
      if c == Smaller || c == Greater {
        SearchOn(s, m, query, p, q, r, par, left, tp, tq, c == Smaller);
        if r == 0 {
          par2, left2 := p, c == Smaller;
        }
        p2, tp2 := if c == Smaller then link[p] else rlink[p], if c == Smaller then tp.left else tp.right;
      } else if r != 0 {
        TwoFound(s, m, query, p, q, r, par, left, tp, tq);
        ambiguous := true;
      } else {
        FirstFound(s, m, query, p, q, par, left, tp, tq);
        r2, q2, p2, tp2, tq2 := p, rlink[p], link[p], tp.left, tp.right;
      }
      if p2 == 0 {
        Turn(s, m, query, q2, r2, par2, left2, tp2, tq2);
        p2, q2, tp2, tq2 := q2, 0, tq2, Leaf;
      }
    }

    // ---------- reading a name piece by piece

    /** The end of the text of a piece, and whether more may follow: a blank at the end
        says so. The text begins k bytes after the start of entry e. */
    method ReadPiece(e: nat, k: nat, ghost c: Chunk) returns (open: bool, end: nat)
      requires Shaped() && Layout() && e < namePtr && k <= |entries[e]| && entries[e][k..] == Marked(c) && Fine(c)
      requires c == Chunk([], false) && k > 0 ==> entries[e][k-1] != BLANK
      ensures open == c.open && starts[e] + k <= end == starts[e] + k + |c.text| <= bytePtr && byteMem[starts[e]+k..end] == c.text
    {
      EntryAt(e);
      ghost var bytes := entries[e];
      LastByte(bytes, k, c);
      open := starts[e+1] > starts[e] && byteMem[starts[e+1]-1] == BLANK;
      assert starts[e+1] > starts[e] ==> byteMem[starts[e]+(|bytes|-1)] == bytes[|bytes|-1];
      end := if open then starts[e+1] - 1 else starts[e+1];
      AfterStart(byteMem[..], starts[e], starts[e+1], bytes, k, c);
      assert byteMem[starts[e]+k..end] == byteMem[..][starts[e]+k..end];
    }

    /** `section_name_cmp`: the verdict, and how much of the query the name has. */
    method CompareName(query: Text, r: nat, ghost s: Store, ghost role: seq<Role>, ghost ps: seq<Piece>) returns (c: Order, n: nat)
      requires Shaped() && Layout() && s == View() && |role| == namePtr && role[0] == Root && NameOk(s, role, r, ps)
      ensures var v := CompareChunks(query, Chunks(ps)); c == v.0 && (c == Extension ==> n == v.1)
    {
      var e: nat, k: nat, q: nat, first: nat := r, 2, r + 1, 0;
      ghost var i, chunks := 0, Chunks(ps);
      ghost var total := CompareChunks(query, chunks);
      n := 0;
      assert query[0..] == query && chunks[0..] == chunks;
      while true
        invariant i < |ps| && e == ps[i].entry && k == (if i == 0 then 2 else 0) && q == HolderOf(ps, i) && first <= |query|
        invariant total == Shifted(first, CompareChunks(query[first..], chunks[i..]))
        decreases |ps| - i
      {
        var next, len;
        c, next, len := ComparePiece(query, first, e, k, q, s, role, r, ps, i);
        OneChunk(query, first, chunks, i);
        if c != Extension || next == 0 {
          n := first + len;
          return;
        }
        first, e, k, q, i := first + len, next, 0, next, i + 1;
      }
    }

    /** The verdict on one piece, the next piece if there is one, and the length of this. */
    method ComparePiece(query: Text, first: nat, e: nat, k: nat, q: nat, ghost s: Store, ghost role: seq<Role>, ghost r: nat, ghost ps: seq<Piece>, ghost i: nat)
      returns (c: Order, next: nat, len: nat)
      requires Shaped() && Layout() && s == View() && |role| == namePtr && role[0] == Root && NameOk(s, role, r, ps)
      requires i < |ps| && e == ps[i].entry && k == (if i == 0 then 2 else 0) && q == HolderOf(ps, i) && first <= |query|
      ensures len == |ps[i].chunk.text| && c == PieceVerdict(query[first..], Chunks(ps), i)
      ensures c == Extension ==> next == if i + 1 < |ps| then ps[i+1].entry else 0
      ensures next != 0 <==> i + 1 < |ps|
    {
      PieceAt(s, role, r, ps, i);
      if i + 1 < |ps| {
        PieceAt(s, role, r, ps, i + 1);
      }
      c, next, len := CompareBytes(query, first, e, k, q, ps[i].chunk);
      assert Chunks(ps)[i] == ps[i].chunk;
    }

    /** The same for the bytes of entry e after the first k, which are chunk c. */
    method CompareBytes(query: Text, first: nat, e: nat, k: nat, q: nat, ghost c: Chunk) returns (v: Order, next: nat, len: nat)
      requires Shaped() && Layout() && e < namePtr && k <= |entries[e]| && entries[e][k..] == Marked(c) && Fine(c)
      requires (c == Chunk([], false) && k > 0 ==> entries[e][k-1] != BLANK) && first <= |query|
      requires c.open ==> q < namePtr && link[q] < namePtr
      ensures len == |c.text| && next == if c.open then link[q] else 0
      ensures v == AtEnd(Compare(query[first..], c.text), c.open, if next != 0 then Some(entries[next]) else None)
    {
      var open, end := ReadPiece(e, k, c);
      next := if open then link[q] else 0;
      len := end - (starts[e] + k);
      assert byteMem[starts[e]+k..starts[e]+k+len] == c.text;
      v := CompareAt(query, first, starts[e] + k, len);
      v := Decide(v, open, next);
    }

    /** What the verdict on the bytes of a piece becomes when its end counts. */
    method Decide(c: Order, open: bool, next: nat) returns (c2: Order)
      requires Shaped() && Layout() && next < namePtr
      ensures c2 == AtEnd(c, open, if next != 0 then Some(entries[next]) else None)
    {
      c2 := c;
      if c == Same && next != 0 {
        EntryAt(next);
        c2 := if starts[next] == starts[next+1] then Same else Prefix;
      } else if c == Same && open {
        c2 := Extension;
      } else if c == Extension && !open {
        c2 := BadExtension;
      }
    }

    /** `sprint_section_name` */
    method PrintName(p: nat, ghost s: Store, ghost role: seq<Role>, ghost ps: seq<Piece>) returns (dest: Text)
      requires Shaped() && Layout() && s == View() && |role| == namePtr && role[0] == Root && NameOk(s, role, p, ps)
      ensures dest == Joined(Chunks(ps))
    {
      var e: nat, k: nat, q: nat := p, 2, p + 1;
      ghost var i := 0;
      dest := [];
      assert Chunks(ps)[0..] == Chunks(ps);
      while true
        invariant i < |ps| && e == ps[i].entry && k == (if i == 0 then 2 else 0) && q == HolderOf(ps, i)
        invariant dest + Joined(Chunks(ps)[i..]) == Joined(Chunks(ps))
        decreases |ps| - i
      {
        PieceAt(s, role, p, ps, i);
        var open, end := ReadPiece(e, k, ps[i].chunk);
        JoinedStep(dest, Chunks(ps), i);
        dest := dest + byteMem[starts[e]+k..end];
        var next := if open then link[q] else 0;
        if next == 0 {
          return;
        }
        e, k, q, i := next, 0, next, i + 1;
      }
    }

    // ---------- new entries

    /** Store bytes as a new entry. */
    method AppendEntry(bytes: Text, l: nat)
      requires Shaped() && Layout() && bytePtr + |bytes| <= byteMem.Length && namePtr + 1 < starts.Length
      modifies this`namePtr, this`bytePtr, this`entries, byteMem, starts, link
      ensures Shaped() && Layout() && namePtr == old(namePtr) + 1 && bytePtr == old(bytePtr) + |bytes|
      ensures View() == old(View()).Append(bytes, l, rlink[old(namePtr)])
    {
      ghost var mem, start := byteMem[..bytePtr], starts[..namePtr+1];
      WriteBytes(bytes);
      LaidMore(mem, start, entries, bytes);
      link[namePtr] := l;
      namePtr, bytePtr := namePtr + 1, bytePtr + |bytes|;
      starts[namePtr] := bytePtr;
      entries := entries + [bytes];
      assert starts[..namePtr+1] == start + [|mem| + |bytes|];
    }

    method WriteBytes(bytes: Text)
      requires bytePtr + |bytes| <= byteMem.Length
      modifies byteMem
      ensures byteMem[..bytePtr+|bytes|] == old(byteMem[..bytePtr]) + bytes
    {
      ghost var mem := byteMem[..bytePtr];
      var i := 0;
      while i < |bytes|
        invariant i <= |bytes| && byteMem[..bytePtr+i] == mem + bytes[..i]
      {
        byteMem[bytePtr+i] := bytes[i];
        assert byteMem[..bytePtr+i+1] == byteMem[..bytePtr+i] + [bytes[i]];
        i := i + 1;
      }
    }

    /** `add_section_name` */
    method AddSection(par: nat, left: bool, query: Text, ispref: bool) returns (p: nat, ok: bool)
      requires Valid() && (par, left) == PlaceOf(View(), model, query) && Matches(model.tree, PreOf(View()), query) == {}
      requires |query| < 256 * 256 && (ispref ==> query != []) && Fine(Chunk(query, ispref))
      modifies this, byteMem, starts, link, rlink
      ensures ok <==> old(bytePtr) + |HeadBytes(query, ispref)| <= byteMem.Length && old(namePtr) + 2 < starts.Length
      ensures ok ==> Valid() && Ids() == old(Ids()) && p == old(namePtr) && p !in old(Names()) && Names() == old(Names())[p := Name(query, !ispref, query)]
      ensures ok ==> old(entries) <= entries
    {
      p := namePtr;
      ok := bytePtr + 2 + |query| + (if ispref then 1 else 0) <= byteMem.Length && namePtr + 2 < starts.Length;
      if ok {
        ghost var s, m := View(), model;
        PlaceIsHead(s, m, query);
        ghost var r := StoreName(query, ispref);
        HangName(par, left, p);
        ghost var s2, m2 := NameIsAdded(s, m, hash[..], buckets, (par, left), query, ispref, r);
        SetModel(s2, m2);
      }
    }

    /** What the entries stand for now. */
    ghost method SetModel(s: Store, m: Model)
      requires Shaped() && Layout() && s == View() && SectionsOk(s, m) && IdsOk(s, m.role, hash[..], buckets)
      modifies this`model
      ensures Valid() && Names() == NamesOf(s, m) && Ids() == Identifiers(s, m.role) && model == m
    {
      model := m;
    }

    /** The entry of a new name, and one more if it is open. */
    method StoreName(query: Text, ispref: bool) returns (ghost r: nat)
      requires Shaped() && Layout() && |query| < 256 * 256
      requires bytePtr + |HeadBytes(query, ispref)| <= byteMem.Length && namePtr + 2 < starts.Length
      modifies this`namePtr, this`bytePtr, this`entries, byteMem, starts, link, rlink
      ensures Shaped() && Layout()
      ensures var s1 := old(View()).Append(HeadBytes(query, ispref), 0, 0); View() == if ispref then s1.Append([], 0, r) else s1
    {
      rlink[namePtr] := 0;
      AppendEntry([|query| / 256, |query| % 256] + query + if ispref then [BLANK] else [], 0);
      assert entries[|entries|-1] == HeadBytes(query, ispref);
      r := rlink[namePtr];
      if ispref {
        AppendEntry([], 0);
      }
    }

    /** Link the new name p from its place. */
    method HangName(par: nat, left: bool, p: nat)
      requires Shaped() && Layout() && par < namePtr
      modifies link, rlink
      ensures Shaped() && Layout()
      ensures View() == if par > 0 && left then old(View()).SetLink(par, p) else old(View()).SetRlink(par, p)
    {
      if par == 0 {
        rlink[0] := p;
      } else if left {
        link[par] := p;
      } else {
        rlink[par] := p;
      }
    }

    /** What is printed for a section name is its text. */
    method PrintSection(p: nat) returns (dest: Text)
      requires Valid() && p in Names()
      ensures dest == Names()[p].text
    {
      assert HeadOk(View(), model, p);
      dest := PrintName(p, View(), model.role, model.pieces[p]);
    }

    // ---------- longer texts, shorter prefixes

    /** The walk to the last entry that holds a link of the name. */
    method LastHolder(p: nat, ghost s: Store, ghost role: seq<Role>, ghost ps: seq<Piece>) returns (q: nat)
      requires Shaped() && s == View() && |role| == namePtr && role[0] == Root && NameOk(s, role, p, ps) && ps[|ps|-1].chunk.open
      ensures q == HolderOf(ps, |ps| - 1) < namePtr
    {
      q := p + 1;
      ghost var i := 0;
      PieceAt(s, role, p, ps, 0);
      if |ps| > 1 {
        PieceAt(s, role, p, ps, 1);
      }
      while link[q] != 0
        invariant i < |ps| && q == HolderOf(ps, i) < namePtr && link[q] == if i + 1 < |ps| then ps[i+1].entry else 0
        decreases |ps| - i
      {
        q, i := link[q], i + 1;
        PieceAt(s, role, p, ps, i);
      }
      LinksOn(s, role, p, ps, i);
    }

    lemma LinksOn(s: Store, role: seq<Role>, p: nat, ps: seq<Piece>, i: nat)
      requires s.Shaped() && |role| == s.Size() && role[0] == Root && NameOk(s, role, p, ps) && i < |ps|
      requires HolderOf(ps, i) < s.Size() && s.link[HolderOf(ps, i)] == (if i + 1 < |ps| then ps[i+1].entry else 0) == 0
      ensures i + 1 == |ps|
    {
      PieceAt(s, role, p, ps, i);
    }

    /** `extend_section_name` */
    method ExtendName(p: nat, rest: Text, ispref: bool) returns (ok: bool)
      requires Valid() && Growing(model, p)
      requires (ispref ==> rest != []) && Fine(Chunk(rest, ispref))
      modifies this, byteMem, starts, link
      ensures ok <==> old(bytePtr) + |Marked(Chunk(rest, ispref))| <= byteMem.Length && old(namePtr) + 1 < starts.Length
      ensures ok ==> Valid() && Ids() == old(Ids()) && p in old(Names()) && Names() == Longer(old(Names()), p, rest, ispref)
    {
      ghost var s, m, ps, c := View(), model, model.pieces[p], Chunk(rest, ispref);
      assert HeadOk(s, m, p);
      var q := LastHolder(p, s, m.role, ps);
      var bytes := rest + if ispref then [BLANK] else [];
      ok := bytePtr + |bytes| <= byteMem.Length && namePtr + 1 < starts.Length;
      if ok {
        ghost var r := rlink[namePtr];
        StoreRest(q, bytes);
        ghost var s2, m2 := Extend(s, ps, c, r), ExtendModel(s, m, p, c);
        NameIsExtended(s, m, s2, m2, hash[..], buckets, p, ps, c, r);
        SetModel(s2, m2);
      }
    }

    /** A further entry, linked from q. */
    method StoreRest(q: nat, bytes: Text)
      requires Shaped() && Layout() && q < namePtr && bytePtr + |bytes| <= byteMem.Length && namePtr + 1 < starts.Length
      modifies this`namePtr, this`bytePtr, this`entries, byteMem, starts, link
      ensures Shaped() && Layout() && View() == old(View()).SetLink(q, old(namePtr)).Append(bytes, 0, rlink[old(namePtr)])
    {
      link[q] := namePtr;
      AppendEntry(bytes, 0);
    }

    /** `set_prefix_length` */
    method SetPrefixLength(p: nat, n: nat)
      requires Shaped() && Layout() && p < namePtr && |entries[p]| >= 2 && n < 256 * 256
      modifies this`entries, byteMem
      ensures Shaped() && Layout() && View() == old(View()).SetPrefix(p, n)
    {
      EntryAt(p);
      ghost var mem: seq<Byte>, start: seq<nat> := byteMem[..bytePtr], starts[..namePtr+1];
      var hi: Byte, lo: Byte := n / 256, n % 256;
      LaidOther(mem, start, entries, p, hi, lo);
      byteMem[starts[p]], byteMem[starts[p]+1] := hi, lo;
      assert byteMem[..bytePtr] == mem[start[p] := hi][start[p] + 1 := lo];
      entries := entries[p := [hi, lo] + entries[p][2..]];
    }

    /** A shorter prefix for name p. */
    method ShortenPrefix(p: nat, ghost query: Text, n: nat)
      requires Valid() && p in model.pieces && query <= View().Pre(p) && Matches(model.tree, PreOf(View()), query) <= {p} && n == |query|
      modifies this`entries, this`model, byteMem
      ensures Valid() && Ids() == old(Ids()) && p in old(Names()) && Names() == Shorter(old(Names()), p, query)
    {
      ghost var s, m := View(), model;
      ghost var s2 := NameIsShortened(s, m, hash[..], buckets, p, query);
      SetPrefixLength(p, n);
      SetModel(s2, m);
    }

    // ---------- section_lookup

    /** No room for what a lookup may add. */
    predicate Full(query: Text) reads this {
      bytePtr + |query| + 3 > byteMem.Length || namePtr + 2 >= starts.Length
    }

    /** How the query compares with the whole name. */
    method VerdictOn(r: nat, query: Text) returns (c: Order, n: nat)
      requires Valid() && r in model.pieces
      ensures r in Names() && c == Verdict(query, Names()[r].text, Names()[r].complete)
      ensures c == Extension ==> n == |Names()[r].text| && Names()[r].text <= query
      ensures c == Extension ==> Growing(model, r)
    {
      ghost var s, m, ps := View(), model, model.pieces[r];
      assert HeadOk(s, m, r);
      c, n := CompareName(query, r, s, m.role, ps);
      ChunksAreText(query, Chunks(ps));
      IncompleteIsOpen(query, ps);
      assert Names()[r] == NameOf(s, r, ps);
    }

    /** The second half of `section_lookup`, when one name has been found. */
    method FoundName(r: nat, query: Text, ispref: bool) returns (complaint: Complaint, ok: bool)
      requires Valid() && r in model.pieces && Matches(model.tree, PreOf(View()), query) == {r}
      requires Fine(Chunk(query, ispref)) && (ispref ==> query != [])
      modifies this, byteMem, starts, link
      ensures !ok ==> old(Full(query))
      ensures ok ==> Valid() && Ids() == old(Ids()) && r in old(Names()) && (Names(), complaint) == Found(old(Names()), r, query, ispref)
    {
      var c, n := VerdictOn(r, query);
      complaint := if c == Prefix && !ispref then IsPrefix else if c == BadExtension then Extends
                   else if c == Smaller || c == Greater then Incompatible else NoComplaint;
      FoundIs(Names(), r, query, ispref, c, n, complaint);
      ok := Follow(r, query, ispref, c, n);
    }

    /** What the verdict asks for. */
    method Follow(r: nat, query: Text, ispref: bool, c: Order, n: nat) returns (ok: bool)
      requires Valid() && r in model.pieces && Matches(model.tree, PreOf(View()), query) == {r}
      requires c == Extension ==> n <= |query| && Fine(Chunk(query[n..], ispref)) && Growing(model, r)
      modifies this, byteMem, starts, link
      ensures !ok ==> old(Full(query))
      ensures ok ==> Valid() && Ids() == old(Ids()) && r in old(Names())
      ensures ok ==> Names() == var names := old(Names());
                                if c == Prefix && ispref then (if |query| < |names[r].pre| then Shorter(names, r, query) else names)
                                else if c == Extension && (!ispref || n < |query|) then Longer(names, r, query[n..], ispref) else names
    {
      ok := true;
      if c == Prefix && ispref {
        PrefixName(r, query);
        return;
      }
      if c == Extension && (!ispref || n < |query|) {
        ok := ExtendName(r, query[n..], ispref);
        return;
      }
    }

    /** The query begins the name: its prefix becomes shorter, if it is longer than the query. */
    method PrefixName(r: nat, query: Text)
      requires Valid() && r in model.pieces && Matches(model.tree, PreOf(View()), query) == {r}
      modifies this`entries, this`model, byteMem
      ensures Valid() && Ids() == old(Ids()) && r in old(Names())
      ensures Names() == if |query| < |old(Names())[r].pre| then Shorter(old(Names()), r, query) else old(Names())
    {
      var len := LengthOfPrefix(r, query);
      if |query| < len {
        ShortenPrefix(r, query, |query|);
        return;
      }
    }

    method LengthOfPrefix(r: nat, ghost query: Text) returns (len: nat)
      requires Valid() && r in model.pieces && Matches(model.tree, PreOf(View()), query) == {r}
      ensures r in Names() && len == |Names()[r].pre| && (|query| < len ==> query <= View().Pre(r))
    {
      PrefixOf(View(), model, r, query);
      len := PrefixLengthOf(r, View());
    }

    /** `section_lookup` */
    method SectionLookup(query: Text, ispref: bool) returns (r: nat, complaint: Complaint, ok: bool)
      requires Valid() && |query| < 256 * 256 && Fine(Chunk(query, ispref)) && (ispref ==> query != [])
      modifies this, byteMem, starts, link, rlink
      ensures !ok ==> old(Full(query))
      ensures ok ==> Valid() && Ids() == old(Ids()) && Looked(old(Names()), query, ispref, r, Names(), complaint)
    {
      var found, par, left, ambiguous := Search(query, View(), model);
      r, complaint, ok := Conclude(query, ispref, found, par, left, ambiguous);
    }

    method Conclude(query: Text, ispref: bool, found: nat, par: nat, left: bool, ambiguous: bool) returns (r: nat, complaint: Complaint, ok: bool)
      requires Valid() && |query| < 256 * 256 && Fine(Chunk(query, ispref)) && (ispref ==> query != [])
      requires SearchResult(View(), model, query, found, par, left, ambiguous)
      modifies this, byteMem, starts, link, rlink
      ensures !ok ==> old(Full(query))
      ensures ok ==> Valid() && Ids() == old(Ids()) && Looked(old(Names()), query, ispref, r, Names(), complaint)
    {
      r, complaint, ok := 0, Ambiguous, true;
      if ambiguous {
        LookedSeveral(View(), model, query, ispref, found, par, left);
      } else if found == 0 {
        r, complaint, ok := NoneFound(query, ispref, par, left);
      } else {
        r := found;
        complaint, ok := OneFound(found, query, ispref);
      }
    }

    method NoneFound(query: Text, ispref: bool, par: nat, left: bool) returns (r: nat, complaint: Complaint, ok: bool)
      requires Valid() && |query| < 256 * 256 && Fine(Chunk(query, ispref)) && (ispref ==> query != [])
      requires SearchResult(View(), model, query, 0, par, left, false)
      modifies this, byteMem, starts, link, rlink
      ensures !ok ==> old(Full(query))
      ensures ok ==> Valid() && Ids() == old(Ids()) && Looked(old(Names()), query, ispref, r, Names(), complaint)
    {
      complaint := NoComplaint;
      MatchingIsMatches(View(), model, query);
      r, ok := AddSection(par, left, query, ispref);
    }

    method OneFound(r: nat, query: Text, ispref: bool) returns (complaint: Complaint, ok: bool)
      requires Valid() && Fine(Chunk(query, ispref)) && (ispref ==> query != [])
      requires Matches(model.tree, PreOf(View()), query) == {r}
      modifies this, byteMem, starts, link
      ensures !ok ==> old(Full(query))
      ensures ok ==> Valid() && Ids() == old(Ids()) && Looked(old(Names()), query, ispref, r, Names(), complaint)
    {
      MatchingIsMatches(View(), model, query);
      FoundIsHead(View(), model, query, r);
      complaint, ok := FoundName(r, query, ispref);
    }

    lemma FoundIsHead(s: Store, m: Model, query: Text, r: nat)
      requires SectionsOk(s, m) && Matches(m.tree, PreOf(s), query) == {r}
      ensures r in m.pieces
    {
      assert r in Matches(m.tree, PreOf(s), query);
    }

    /** `id_lookup`: the identifier that is spelled like the text, or a new one. */
    method IdLookup(text: Text) returns (p: nat, ok: bool)
      requires Valid() && text != []
      modifies this, byteMem, starts, link, hash
      ensures !ok ==> old(Full(text))
      ensures ok ==> Valid() && Names() == old(Names()) && IdLooked(old(Ids()), text, p, Ids())
    {
      var h := HashOf(text);
      var found;
      p, found := SearchBucket(text, h);
      ok := true;
      if !found {
        ok := bytePtr + |text| <= byteMem.Length && namePtr + 1 < starts.Length;
        p := namePtr;
        if ok {
          AddIdentifier(text, h);
        }
      }
    }

    method HashOf(text: Text) returns (h: nat)
      requires text != []
      ensures h == Hash(text) < HASH_SIZE
    {
      h := text[0];
      var i := 1;
      HashFits(text);
      while i < |text|
        invariant 1 <= i <= |text| && h < HASH_SIZE && HashFrom(h, text[i..]) == Hash(text)
      {
        HashStep(h, text, i);
        h := (h + h + text[i]) % HASH_SIZE;
        i := i + 1;
      }
      assert text[i..] == [];
    }

    method SearchBucket(text: Text, h: nat) returns (p: nat, found: bool)
      requires Valid() && h == Hash(text) < HASH_SIZE
      ensures if found then p in Ids() && Ids()[p] == text else text !in Ids().Values
    {
      ghost var s, list := View(), buckets[h];
      assert Bucket(s, model.role, hash[..][h], list, h);
      p := hash[h];
      ghost var i := 0;
      assert list[0..] == list;
      while p != 0
        invariant i <= |list| && Listed(s.link, p, list[i..]) && forall j :: 0 <= j < i ==> s.Bytes(list[j]) != text
        decreases |list| - i
      {
        assert list[i..][0] == list[i] && list[i..][1..] == list[i+1..];
        assert InBucket(s, model.role, h, list[i]);
        found := NamesMatch(p, text);
        if found {
          assert p in Ids();
          return;
        }
        p, i := link[p], i + 1;
      }
      NotInBucket(s, model.role, hash[..], buckets, text);
      found := false;
    }

    method AddIdentifier(text: Text, h: nat)
      requires Valid() && text != [] && h == Hash(text) < HASH_SIZE && text !in Ids().Values
      requires bytePtr + |text| <= byteMem.Length && namePtr + 1 < starts.Length
      modifies this, byteMem, starts, link, hash
      ensures Valid() && Names() == old(Names()) && old(namePtr) !in old(Ids()) && Ids() == old(Ids())[old(namePtr) := text]
    {
      ghost var s, m, r := View(), model, rlink[namePtr];
      ghost var hash0, buckets0 := hash[..], buckets;
      StoreIdentifier(text, h);
      NewText(s, m.role, text);
      IdIsAdded(s, m, hash0, buckets0, text, r);
      SetModel(s.Append(text, hash0[h], r), m.(role := m.role + [Id]));
    }

    method StoreIdentifier(text: Text, h: nat)
      requires Shaped() && Layout() && h < HASH_SIZE && |buckets| == HASH_SIZE
      requires bytePtr + |text| <= byteMem.Length && namePtr + 1 < starts.Length
      modifies this`namePtr, this`bytePtr, this`entries, this`buckets, byteMem, starts, link, hash
      ensures Shaped() && Layout() && View() == old(View()).Append(text, old(hash[h]), rlink[old(namePtr)])
      ensures hash[..] == old(hash[..])[h := old(namePtr)] && buckets == old(buckets)[h := [old(namePtr)] + old(buckets)[h]]
    {
      var n := namePtr;
      AppendEntry(text, hash[h]);
      hash[h] := n;
      buckets := buckets[h := [n] + buckets[h]];
    }
  }
}
