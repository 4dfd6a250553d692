// The hash table of identifiers, in the entries that it shares with the section names
// (cweb/common.c:687-736, cweb/ctangle.c:478-485).

module IdTable {
  import opened SectionNames
  import opened NameStore
  import opened LinkedList

  const HASH_SIZE := 353

  function HashFrom(h: nat, text: Text): nat
    decreases |text|
  {
    if text == [] then h else HashFrom((h + h + text[0]) % HASH_SIZE, text[1..])
  }

  /** The first character, then doubled and added to, modulo the table size. */
  function Hash(text: Text): nat {
    if text == [] then 0 else HashFrom(text[0], text[1..])
  }

  lemma {:induction false} HashInTable(h: nat, text: Text)
    requires h < HASH_SIZE
    ensures HashFrom(h, text) < HASH_SIZE
    decreases |text|
  {
    if text != [] {
      HashInTable((h + h + text[0]) % HASH_SIZE, text[1..]);
    }
  }

  lemma HashFits(text: Text)
    ensures Hash(text) < HASH_SIZE
  {
    if text != [] {
      HashInTable(text[0], text[1..]);
    }
  }

  predicate IsId(role: seq<Role>, e: nat) { e < |role| && role[e] == Id }

  /** Entry e is an identifier of bucket h. */
  predicate InBucket(s: Store, role: seq<Role>, h: nat, e: nat) {
    IsId(role, e) && s.Bytes(e) != [] && Hash(s.Bytes(e)) == h
  }

  ghost predicate Bucket(s: Store, role: seq<Role>, p: nat, list: seq<nat>, h: nat) {
    Listed(s.link, p, list) && forall i :: 0 <= i < |list| ==> InBucket(s, role, h, list[i])
  }

  /** Every identifier is in the bucket of its hash, and no two are spelled the same. */
  ghost predicate IdsOk(s: Store, role: seq<Role>, hash: seq<nat>, buckets: seq<seq<nat>>) {
    && s.Shaped() && |role| == s.Size() && |hash| == |buckets| == HASH_SIZE
    && (forall h {:trigger Bucket(s, role, hash[h], buckets[h], h)} :: 0 <= h < HASH_SIZE ==> Bucket(s, role, hash[h], buckets[h], h))
    && (forall e: nat :: IsId(role, e) ==> Hash(s.Bytes(e)) < HASH_SIZE && e in buckets[Hash(s.Bytes(e))])
    && (forall e: nat, f: nat :: IsId(role, e) && IsId(role, f) && s.Bytes(e) == s.Bytes(f) ==> e == f)
  }

  /** The identifiers are the same. */
  ghost predicate SameIds(s: Store, role: seq<Role>, s2: Store, role2: seq<Role>) {
    && s.Shaped() && s2.Shaped() && |role| == s.Size() <= s2.Size() == |role2|
    && (forall e: nat :: IsId(role, e) ==> IsId(role2, e) && s2.Bytes(e) == s.Bytes(e) && s2.link[e] == s.link[e])
    && (forall e: nat :: IsId(role2, e) ==> IsId(role, e))
  }

  lemma BucketStays(s: Store, role: seq<Role>, s2: Store, role2: seq<Role>, p: nat, list: seq<nat>, h: nat)
    requires Bucket(s, role, p, list, h) && SameIds(s, role, s2, role2)
    ensures Bucket(s2, role2, p, list, h)
  {
    forall i | 0 <= i < |list|
      ensures InBucket(s2, role2, h, list[i]) && list[i] < |s.link| && s2.link[list[i]] == s.link[list[i]]
    {
      assert InBucket(s, role, h, list[i]);
    }
    ListedStays(s.link, s2.link, p, list);
  }

  /** Section names do not disturb the identifiers. */
  lemma IdsStay(s: Store, role: seq<Role>, s2: Store, role2: seq<Role>, hash: seq<nat>, buckets: seq<seq<nat>>)
    requires IdsOk(s, role, hash, buckets) && SameIds(s, role, s2, role2)
    ensures IdsOk(s2, role2, hash, buckets)
  {
    forall h | 0 <= h < HASH_SIZE
      ensures Bucket(s2, role2, hash[h], buckets[h], h)
    {
      BucketStays(s, role, s2, role2, hash[h], buckets[h], h);
    }
  }

  // ---------- a new identifier

  lemma AddIdBucket(s: Store, role: seq<Role>, hash: seq<nat>, buckets: seq<seq<nat>>, text: Text, r: nat, h: nat)
    requires IdsOk(s, role, hash, buckets) && text != [] && h < HASH_SIZE && Hash(text) < HASH_SIZE
    ensures var n, k := s.Size(), Hash(text);
            Bucket(s.Append(text, hash[k], r), role + [Id], if h == k then n else hash[h], if h == k then [n] + buckets[k] else buckets[h], h)
  {
    var n, k := s.Size(), Hash(text);
    var s2, role2 := s.Append(text, hash[k], r), role + [Id];
    var list := buckets[h];
    assert Bucket(s, role, hash[h], list, h);
    forall i | 0 <= i < |list|
      ensures InBucket(s2, role2, h, list[i]) && list[i] < |s.link| && s2.link[list[i]] == s.link[list[i]]
    {
      assert InBucket(s, role, h, list[i]);
    }
    ListedStays(s.link, s2.link, hash[h], list);
    if h == k {
      assert s2.Bytes(n) == text && role2[n] == Id;
      assert ([n] + list)[1..] == list;
    }
  }

  /** A new identifier at the front of its bucket. */
  lemma AddIdOk(s: Store, role: seq<Role>, hash: seq<nat>, buckets: seq<seq<nat>>, text: Text, r: nat)
    requires IdsOk(s, role, hash, buckets) && text != []
    requires forall e: nat :: IsId(role, e) ==> s.Bytes(e) != text
    ensures var n, k := s.Size(), Hash(text);
            && k < HASH_SIZE
            && IdsOk(s.Append(text, hash[k], r), role + [Id], hash[k := n], buckets[k := [n] + buckets[k]])
  {
    HashFits(text);
    var n, k := s.Size(), Hash(text);
    var s2, role2 := s.Append(text, hash[k], r), role + [Id];
    var hash2, buckets2 := hash[k := n], buckets[k := [n] + buckets[k]];
    forall h | 0 <= h < HASH_SIZE
      ensures Bucket(s2, role2, hash2[h], buckets2[h], h)
    {
      AddIdBucket(s, role, hash, buckets, text, r, h);
    }
    forall e: nat | IsId(role2, e)
      ensures e < n ==> IsId(role, e) && s2.Bytes(e) == s.Bytes(e)
      ensures e >= n ==> e == n && s2.Bytes(e) == text
    {
    }
    assert n in buckets2[k];
  }

  /** What the search along a bucket finds. */
  lemma NotInBucket(s: Store, role: seq<Role>, hash: seq<nat>, buckets: seq<seq<nat>>, text: Text)
    requires IdsOk(s, role, hash, buckets) && Hash(text) < HASH_SIZE
    requires forall i :: 0 <= i < |buckets[Hash(text)]| ==> s.Bytes(buckets[Hash(text)][i]) != text
    ensures forall e: nat :: IsId(role, e) ==> s.Bytes(e) != text
  {
    forall e: nat | IsId(role, e)
      ensures s.Bytes(e) != text
    {
      assert e in buckets[Hash(s.Bytes(e))];
    }
  }

  // ---------- the identifiers as a map

  /** The identifiers and their spelling. */
  ghost function Identifiers(s: Store, role: seq<Role>): map<nat, Text> {
    map e | 0 <= e < |role| && IsId(role, e) :: s.Bytes(e)
  }

  /** What a lookup does: it finds the identifier that is spelled so, or adds one. */
  ghost predicate IdLooked(ids: map<nat, Text>, text: Text, p: nat, ids2: map<nat, Text>) {
    if text in ids.Values then ids2 == ids && p in ids && ids[p] == text
    else p !in ids && ids2 == ids[p := text]
  }

  ghost predicate Distinct(ids: map<nat, Text>) {
    forall e, f :: e in ids && f in ids && ids[e] == ids[f] ==> e == f
  }

  /** What the table stores is a map that tells texts apart. */
  lemma StoredDistinct(s: Store, role: seq<Role>, hash: seq<nat>, buckets: seq<seq<nat>>)
    requires IdsOk(s, role, hash, buckets)
    ensures Distinct(Identifiers(s, role))
  {
  }

  lemma LookedDistinct(ids: map<nat, Text>, text: Text, p: nat, ids2: map<nat, Text>)
    requires Distinct(ids) && IdLooked(ids, text, p, ids2)
    ensures Distinct(ids2) && p in ids2 && ids2[p] == text && forall e :: e in ids ==> e in ids2 && ids2[e] == ids[e]
  {
    if text !in ids.Values {
      forall e | e in ids ensures ids[e] != text {
        assert ids[e] in ids.Values;
      }
    }
  }

  // ---------- any sequence of lookups

  /** A lookup of an identifier, which has found or made entry p, or of a section name. */
  datatype Lookup = OfIdentifier(text: Text, p: nat) | OfSection

  ghost predicate Did(ids: map<nat, Text>, l: Lookup, ids2: map<nat, Text>) {
    match l
    case OfIdentifier(text, p) => IdLooked(ids, text, p, ids2)
    case OfSection => ids2 == ids
  }

  /** The identifiers before, between and after the lookups. */
  ghost predicate History(states: seq<map<nat, Text>>, lookups: seq<Lookup>) {
    && |states| == |lookups| + 1 && Distinct(states[0])
    && forall i :: 0 <= i < |lookups| ==> Did(states[i], lookups[i], states[i+1])
  }

  lemma {:induction false} HistoryDistinct(states: seq<map<nat, Text>>, lookups: seq<Lookup>, n: nat)
    requires History(states, lookups) && n < |states|
    ensures Distinct(states[n])
  {
    if n > 0 {
      HistoryDistinct(states, lookups, n - 1);
      assert Did(states[n-1], lookups[n-1], states[n-1+1]);
      if lookups[n-1].OfIdentifier? {
        LookedDistinct(states[n-1], lookups[n-1].text, lookups[n-1].p, states[n]);
      }
    }
  }

  lemma {:induction false} HistoryGrows(states: seq<map<nat, Text>>, lookups: seq<Lookup>, m: nat, n: nat)
    requires History(states, lookups) && m <= n < |states|
    ensures forall e :: e in states[m] ==> e in states[n] && states[n][e] == states[m][e]
    decreases n - m
  {
    if m < n {
      HistoryGrows(states, lookups, m, n - 1);
      HistoryDistinct(states, lookups, n - 1);
      assert Did(states[n-1], lookups[n-1], states[n-1+1]);
      if lookups[n-1].OfIdentifier? {
        LookedDistinct(states[n-1], lookups[n-1].text, lookups[n-1].p, states[n]);
      }
    }
  }

  /** Whatever has been looked up before, after and in between, two lookups of identifiers
      give the same entry if and only if their texts are the same. */
  lemma SameEntryIffSameText(states: seq<map<nat, Text>>, lookups: seq<Lookup>, i: nat, j: nat)
    requires History(states, lookups) && i < |lookups| && j < |lookups|
    requires lookups[i].OfIdentifier? && lookups[j].OfIdentifier?
    ensures lookups[i].p == lookups[j].p <==> lookups[i].text == lookups[j].text
  {
    EntryStays(states, lookups, i, |lookups|);
    EntryStays(states, lookups, j, |lookups|);
    HistoryDistinct(states, lookups, |lookups|);
  }

  // The entry keeps its text to the end.
  lemma EntryStays(states: seq<map<nat, Text>>, lookups: seq<Lookup>, i: nat, n: nat)
    requires History(states, lookups) && i < n < |states| && lookups[i].OfIdentifier?
    ensures lookups[i].p in states[n] && states[n][lookups[i].p] == lookups[i].text
  {
    HistoryDistinct(states, lookups, i);
    assert Did(states[i], lookups[i], states[i+1]);
    LookedDistinct(states[i], lookups[i].text, lookups[i].p, states[i+1]);
    HistoryGrows(states, lookups, i + 1, n);
  }

  lemma SameIdentifiers(s: Store, role: seq<Role>, s2: Store, role2: seq<Role>)
    requires SameIds(s, role, s2, role2)
    ensures Identifiers(s2, role2) == Identifiers(s, role)
  {
  }
}
