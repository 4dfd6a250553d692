// The order of the index, said of the names as they are spelled (cweb/cweave.c:886-911).

module IndexAlphabet {
  import opened Basics
  import opened SectionNames
  import opened IndexOrder

  /** The text in lower case. */
  function Small(t: Text): (r: Text)
    ensures |r| == |t|
  {
    seq(|t|, i requires 0 <= i < |t| => if 65 <= t[i] <= 90 then t[i] + 32 else t[i])
  }

  /** The blank comes first, then the control characters, the punctuation, the underline,
      the letters, the digits, and the characters from 128 on. */
  function Kind(b: Byte): nat {
    if b == 32 then 0
    else if b < 32 then 1
    else if b == 95 then 3
    else if 97 <= b <= 122 then 4
    else if 48 <= b <= 57 then 5
    else if b >= 128 then 6
    else 2
  }

  predicate Sooner(b: Byte, c: Byte) {
    Kind(b) < Kind(c) || (Kind(b) == Kind(c) && b < c)
  }

  /** The texts first differ at k, where a ends or has the character that comes sooner. */
  predicate ComesFirst(a: Text, b: Text, k: nat) {
    k <= |a| && k < |b| && a[..k] == b[..k] && (k == |a| || Sooner(a[k], b[k]))
  }

  lemma RankIsAlphabet(b: Byte, c: Byte)
    requires b != DELETE && c != DELETE && !(65 <= b <= 90) && !(65 <= c <= 90) && c != 0
    ensures b == 0 || Sooner(b, c) ==> Rank(b) < Rank(c)
  {
  }

  lemma {:induction false} NotLeq(x: Text, y: Text, d: nat, k: nat)
    requires d <= k < INFINITY && Agree(x, y, d, k) && Rank(Char(x, k)) > Rank(Char(y, k))
    ensures !Leq(x, y, d)
    decreases k - d
  {
    if d < k {
      assert Char(x, d) == Char(y, d) != 0;
      NotLeq(x, y, d + 1, k);
    }
  }

  lemma SmallChars(x: Text, y: Text, k: nat)
    requires 0 !in x && 0 !in y && ComesFirst(Small(x), Small(y), k)
    ensures Agree(x, y, 0, k) && Char(y, k) == Small(y)[k] != 0
    ensures Char(x, k) == if k == |x| then 0 else Small(x)[k]
    ensures !(65 <= Char(x, k) <= 90) && !(65 <= Char(y, k) <= 90)
  {
    var a, b := Small(x), Small(y);
    forall m | 0 <= m < k
      ensures Char(x, m) == Char(y, m) != 0
    {
      assert a[m] == a[..k][m] == b[..k][m] == b[m];
      assert x[m] in x && y[m] in y;
    }
    assert y[k] in y;
  }

  /** Of two names in the index that differ within 255 characters, in lower case, the one
      that comes first by the alphabet stands before the other. */
  lemma IndexIsAlphabetic(names: seq<Text>, list: seq<nat>, i: nat, j: nat, x: nat, y: nat, k: nat)
    requires In(names, list) && Distinct(list) && x < |names| && y < |names| && 0 !in names[x] && 0 !in names[y]
    requires i < |Index(names, list)| && j < |Index(names, list)| && Index(names, list)[i] == x && Index(names, list)[j] == y
    requires k < 255 && ComesFirst(Small(names[x]), Small(names[y]), k)
    ensures i < j
  {
    var out := Index(names, list);
    IndexIsSorted(names, list);
    SmallChars(names[x], names[y], k);
    assert out[i] in out && out[j] in out;
    assert x != y;
    NoDelete(names, list, x, y, k);
    NoDelete(names, list, y, x, k);
    RankIsAlphabet(Char(names[x], k), Char(names[y], k));
    NotLeq(names[y], names[x], 0, k);
    InOrder(names, out, i, j);
  }

  lemma InOrder(names: seq<Text>, out: seq<nat>, i: nat, j: nat)
    requires Ordered(names, out, 0) && i < |out| && j < |out| && i != j && out[i] < |names| && out[j] < |names|
    requires !Leq(names[out[j]], names[out[i]], 0)
    ensures i < j
  {
  }

  lemma NoDelete(names: seq<Text>, list: seq<nat>, x: nat, y: nat, k: nat)
    requires In(names, list) && Distinct(list) && x < |names| && y < |names| && x != y && k < INFINITY
    requires x in Index(names, list) && y in Index(names, list) && Agree(names[x], names[y], 0, k)
    ensures Char(names[x], k) != DELETE
  {
    IndexIsSorted(names, list);
    if Char(names[x], k) == DELETE {
      assert Clash(names, list, 0, x, y, k);
    }
  }

  // ---------- names of letters

  predicate Letters(t: Text) {
    forall i :: 0 <= i < |t| ==> 65 <= t[i] <= 90 || 97 <= t[i] <= 122
  }

  lemma {:induction false} BelowDiffers(a: Text, b: Text) returns (k: nat)
    requires Below(a, b)
    ensures k < |a| && k < |b| && a[..k] == b[..k] && a[k] < b[k]
    decreases |a|
  {
    if a[0] < b[0] {
      k := 0;
    } else {
      var m := BelowDiffers(a[1..], b[1..]);
      k := m + 1;
      assert a[..k] == [a[0]] + a[1..][..m] && b[..k] == [b[0]] + b[1..][..m];
    }
  }

  lemma SmallLetters(t: Text)
    requires Letters(t)
    ensures 0 !in t && forall i :: 0 <= i < |t| ==> Kind(Small(t)[i]) == 4
  {
  }

  /** Names of letters come in the order of dictionaries, whatever their cases. */
  lemma LettersInOrder(names: seq<Text>, list: seq<nat>, i: nat, j: nat, x: nat, y: nat)
    requires In(names, list) && Distinct(list) && x < |names| && y < |names|
    requires i < |Index(names, list)| && j < |Index(names, list)| && Index(names, list)[i] == x && Index(names, list)[j] == y
    requires Letters(names[x]) && Letters(names[y]) && |names[x]| < 255 && |names[y]| < 255
    ensures Small(names[x]) < Small(names[y]) || Below(Small(names[x]), Small(names[y])) ==> i < j
  {
    var a, b := Small(names[x]), Small(names[y]);
    SmallLetters(names[x]);
    SmallLetters(names[y]);
    if a < b {
      IndexIsAlphabetic(names, list, i, j, x, y, |a|);
    } else if Below(a, b) {
      var k := BelowDiffers(a, b);
      assert Sooner(a[k], b[k]);
      IndexIsAlphabetic(names, list, i, j, x, y, k);
    }
  }
}
