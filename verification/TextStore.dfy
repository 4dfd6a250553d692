// The token memory of CWEAVE: texts are consecutive slices of one token array,
// and a token may refer to an earlier text (cweb/cweave.c:354-366, 483-490).

module TextStore {
  import opened Basics
  import opened Productions

  /** A token is a code below 256, or a flag plus a number: `id_flag`, `res_flag`,
      `section_flag`, `tok_flag` and `inner_tok_flag` in the source. */
  datatype Token =
    | Code(c: nat)
    | Id(n: nat)
    | Res(n: nat)
    | Section(n: nat)
    | Ref(t: nat)
    | Inner(t: nat)
  {
    predicate IsName() { Id? || Res? }

    predicate IsRef() { Ref? || Inner? }

    function Number(): nat {
      match this
      case Code(c) => c
      case Id(n) => n
      case Res(n) => n
      case Section(n) => n
      case Ref(t) => t
      case Inner(t) => t
    }
  }

  /** Text t occupies toks[starts[t]..starts[t+1]]; the last entry of `starts` is
      where the next text will begin. */
  datatype Store = Store(toks: seq<Token>, starts: seq<nat>) {

    predicate Valid() {
      && |starts| >= 1
      && starts[|starts|-1] == |toks|
      && (forall i, j :: 0 <= i <= j < |starts| ==> starts[i] <= starts[j])
    }

    /** The number of texts, which is also the index the next text will get. */
    function Texts(): nat
      requires Valid()
    {
      |starts| - 1
    }

    function Text(t: nat): seq<Token>
      requires Valid() && t < Texts()
    {
      toks[starts[t]..starts[t+1]]
    }

    function Append(text: seq<Token>): Store {
      Store(toks + text, starts + [|toks| + |text|])
    }

    /** Freezing a text adds it after the texts that are there. */
    lemma AppendFreezes(text: seq<Token>)
      requires Valid()
      ensures var r := Append(text);
              && r.Valid() && r.Texts() == Texts() + 1 && r.Text(Texts()) == text
              && forall t :: 0 <= t < Texts() ==> r.Text(t) == Text(t)
    {
    }

    /** References go to earlier texts. */
    predicate Acyclic()
      requires Valid()
    {
      forall t, i :: 0 <= t < Texts() && starts[t] <= i < starts[t+1] && toks[i].IsRef() ==> toks[i].Number() < t
    }
  }

  /** The place of the first identifier or reserved word in text t, not looking
      past an `inserted` mark. */
  function FindFirstIdent(s: Store, t: nat): (r: Option<nat>)
    requires s.Valid() && t < s.Texts() && s.Acyclic()
    ensures r.Some? ==> r.value < |s.toks| && s.toks[r.value].IsName()
    decreases t, |s.toks| + 1
  {
    FindFrom(s, t, s.starts[t])
  }

  function FindFrom(s: Store, t: nat, i: nat): (r: Option<nat>)
    requires s.Valid() && t < s.Texts() && s.Acyclic() && s.starts[t] <= i <= s.starts[t+1]
    ensures r.Some? ==> r.value < |s.toks| && s.toks[r.value].IsName()
    decreases t, s.starts[t+1] - i
  {
    if i == s.starts[t+1] then None
    else
      var tok := s.toks[i];
      if tok.IsName() then Some(i)
      else if tok == Code(INSERTED) then None
      else if tok.IsRef() && FindFirstIdent(s, tok.Number()).Some? then FindFirstIdent(s, tok.Number())
      else FindFrom(s, t, i + 1)
  }

  /** `b` is `a` with some identifiers turned into reserved words. */
  predicate Flipped(a: Token, b: Token) {
    b == a || (a.Id? && b == Res(a.n))
  }

  predicate FlippedAll(a: seq<Token>, b: seq<Token>) {
    |a| == |b| && forall i :: 0 <= i < |a| ==> Flipped(a[i], b[i])
  }
}
