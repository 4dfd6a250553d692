// Section names as strings and as chains of chunks
// (cweb/common.c:762-780, 798-809, 845-864, 962-991).

module SectionNames {
  import opened Basics

  type Text = seq<Byte>

  const BLANK: Byte := 32

  datatype Order = Smaller | Same | Greater | Prefix | Extension | BadExtension

  // ---------- comparing strings

  /** `web_strcmp`: how j compares with k. */
  function Compare(j: Text, k: Text): (r: Order)
    ensures r == Extension ==> |k| < |j|
  {
    if k == [] then if j == [] then Same else Extension
    else if j == [] then Prefix
    else if j[0] != k[0] then if j[0] < k[0] then Smaller else Greater
    else Compare(j[1..], k[1..])
  }

  /** One is the beginning of the other. */
  predicate Comparable(j: Text, k: Text) { j <= k || k <= j }

  /** They differ, and j is the smaller where they do so first. */
  predicate Below(j: Text, k: Text) {
    j != [] && k != [] && (j[0] < k[0] || (j[0] == k[0] && Below(j[1..], k[1..])))
  }

  /** What the verdicts mean. */
  lemma {:induction false} CompareMeans(j: Text, k: Text)
    ensures match Compare(j, k)
            case Same => j == k
            case Prefix => j < k
            case Extension => k < j
            case Smaller => Below(j, k)
            case Greater => Below(k, j)
            case BadExtension => false
    ensures Compare(j, k) in {Smaller, Greater} <==> !Comparable(j, k)
  {
    if j != [] && k != [] {
      assert j == [j[0]] + j[1..] && k == [k[0]] + k[1..];
      if j[0] == k[0] {
        CompareMeans(j[1..], k[1..]);
        ComparableTail(j, k);
      } else {
        FirstDiffers(j, k);
      }
    }
  }

  lemma FirstDiffers(j: Text, k: Text)
    requires j != [] && k != []
    ensures Comparable(j, k) ==> j[0] == k[0]
  {
    if Comparable(j, k) {
      assert j[0] == k[0];
    }
  }

  lemma ComparableTail(j: Text, k: Text)
    requires j != [] && k != [] && j[0] == k[0]
    ensures j <= k <==> j[1..] <= k[1..]
    ensures k <= j <==> k[1..] <= j[1..]
  {
    assert j == [j[0]] + j[1..] && k == [k[0]] + k[1..];
    if j[1..] <= k[1..] {
      assert k[1..][..|j|-1] == j[1..];
      assert k[..|j|] == [k[0]] + k[1..][..|j|-1];
    }
    if k[1..] <= j[1..] {
      assert j[1..][..|k|-1] == k[1..];
      assert j[..|k|] == [j[0]] + j[1..][..|k|-1];
    }
  }

  lemma {:induction false} BelowIsNotComparable(j: Text, k: Text)
    requires Below(j, k)
    ensures !Comparable(j, k) && !Below(k, j)
  {
    if j[0] == k[0] {
      BelowIsNotComparable(j[1..], k[1..]);
      ComparableTail(j, k);
    }
  }

  lemma {:induction false} BelowTransitive(i: Text, j: Text, k: Text)
    requires Below(i, j) && Below(j, k)
    ensures Below(i, k)
  {
    if i[0] == j[0] == k[0] {
      BelowTransitive(i[1..], j[1..], k[1..]);
    }
  }

  /** What is below (or above) a text and not comparable with its beginning is below (or
      above) the beginning. */
  lemma {:induction false} BelowBeginning(j: Text, k: Text, n: nat)
    requires n <= |k| && !Comparable(j, k[..n])
    ensures Below(j, k) <==> Below(j, k[..n])
    ensures Below(k, j) <==> Below(k[..n], j)
    decreases n
  {
    if n > 0 && j != [] && j[0] == k[0] {
      assert k[..n][1..] == k[1..][..n-1];
      ComparableTail(j, k[..n]);
      BelowBeginning(j[1..], k[1..], n - 1);
    }
  }

  // ---------- comparing with a whole name

  /** How a query compares with a name of which more may follow if it is not complete. */
  function Verdict(query: Text, text: Text, complete: bool): Order {
    match Compare(query, text)
    case Same => if complete then Same else Extension
    case Extension => if complete then BadExtension else Extension
    case c => c
  }

  /** A piece of a name; `open` means that more may follow. */
  datatype Chunk = Chunk(text: Text, open: bool)

  /** Only the last piece can be closed, and open pieces are not empty. */
  predicate Chain(chunks: seq<Chunk>) {
    && chunks != []
    && (forall i :: 0 <= i < |chunks| - 1 ==> chunks[i].open)
    && (forall i :: 0 <= i < |chunks| && chunks[i].open ==> chunks[i].text != [])
  }

  function Joined(chunks: seq<Chunk>): Text {
    if chunks == [] then [] else chunks[0].text + Joined(chunks[1..])
  }

  predicate Complete(chunks: seq<Chunk>) {
    chunks != [] && !chunks[|chunks|-1].open
  }

  /** `section_name_cmp`, and how much of the query is in the name in case of an extension. */
  function CompareChunks(query: Text, chunks: seq<Chunk>): (Order, nat)
    requires chunks != []
  {
    var c := chunks[0];
    match Compare(query, c.text)
    case Same =>
      if |chunks| == 1 then (if c.open then Extension else Same, |c.text|)
      else if !c.open then (Same, 0)
      else (if chunks[1].text == [] && !chunks[1].open then Same else Prefix, 0)
    case Extension =>
      if !c.open then (BadExtension, 0)
      else if |chunks| > 1 then
        var (r, n) := CompareChunks(query[|c.text|..], chunks[1..]);
        (r, n + |c.text|)
      else (Extension, |c.text|)
    case r => (r, 0)
  }

  lemma {:induction false} CompareAfter(query: Text, a: Text, b: Text)
    requires a <= query
    ensures Compare(query, a + b) == Compare(query[|a|..], b)
    decreases |a|
  {
    if a == [] {
      assert a + b == b;
      assert query[0..] == query;
    } else {
      assert (a + b)[0] == a[0] && (a + b)[1..] == a[1..] + b;
      ComparableTail(a, query);
      CompareAfter(query[1..], a[1..], b);
      assert query[1..][|a|-1..] == query[|a|..];
    }
  }

  lemma {:induction false} CompareNot(query: Text, a: Text, b: Text)
    requires Compare(query, a) in {Smaller, Greater} || (Compare(query, a) == Prefix)
    ensures Compare(query, a + b) == Compare(query, a)
    decreases |a|
  {
    assert a != [];
    assert (a + b)[0] == a[0] && (a + b)[1..] == a[1..] + b;
    if query != [] && query[0] == a[0] {
      CompareNot(query[1..], a[1..], b);
    }
  }

  /** Comparing chunk by chunk is comparing with the whole name. */
  lemma {:induction false} ChunksAreText(query: Text, chunks: seq<Chunk>)
    requires Chain(chunks)
    ensures var (r, n) := CompareChunks(query, chunks);
            && r == Verdict(query, Joined(chunks), Complete(chunks))
            && (r == Extension ==> n == |Joined(chunks)| && Joined(chunks) <= query)
    decreases |chunks|
  {
    var c, rest := chunks[0], chunks[1..];
    CompareMeans(query, c.text);
    if |chunks| == 1 {
      assert Joined(rest) == [];
      assert c.text + [] == c.text;
    } else {
      assert Chain(rest);
      assert rest[|rest|-1] == chunks[|chunks|-1];
      match Compare(query, c.text) {
        case Same =>
          CompareAfter(query, c.text, Joined(rest));
          JoinedEmpty(rest);
        case Extension =>
          CompareAfter(query, c.text, Joined(rest));
          ChunksAreText(query[|c.text|..], rest);
          if CompareChunks(query, chunks).0 == Extension {
            PrefixAfter(query, c.text, Joined(rest));
          }
        case _ =>
          CompareNot(query, c.text, Joined(rest));
      }
    }
  }

  lemma PrefixAfter(query: Text, a: Text, b: Text)
    requires a <= query && b <= query[|a|..]
    ensures a + b <= query
  {
    assert query == a + query[|a|..];
  }

  // A chain whose text is empty is one closed empty piece.
  lemma JoinedEmpty(chunks: seq<Chunk>)
    requires Chain(chunks)
    ensures Joined(chunks) == [] <==> chunks[0].text == [] && !chunks[0].open
  {
    if !chunks[0].open {
      assert |chunks| == 1 && chunks[1..] == [];
    }
  }
}
