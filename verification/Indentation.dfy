// How far the text of a scrap indents what follows it: `indent` codes less `outdent` codes
// (cweb/cweave.c:2143-2239, 2295-2942).

module Indentation {
  import opened Category
  import opened Productions
  import opened TextStore

  function CodeNet(c: nat): int {
    if c == INDENT then 1 else if c == OUTDENT then -1 else 0
  }

  /** The codes of a text and of all texts that it refers to, but for the scanned ones. */
  function Net(store: Store, leaves: nat, t: nat): int
    requires store.Valid()
    decreases t, 2, 0
  {
    if t < leaves || t >= store.Texts() then 0 else NetAll(store, leaves, store.Text(t), t)
  }

  function NetToken(store: Store, leaves: nat, tok: Token, bound: nat): int
    requires store.Valid()
    decreases bound, 0, 0
  {
    match tok
    case Code(c) => CodeNet(c)
    case Ref(t) => if t < bound then Net(store, leaves, t) else 0
    case _ => 0
  }

  function NetAll(store: Store, leaves: nat, toks: seq<Token>, bound: nat): int
    requires store.Valid()
    decreases bound, 1, |toks|
  {
    if toks == [] then 0
    else NetAll(store, leaves, toks[..|toks|-1], bound) + NetToken(store, leaves, toks[|toks|-1], bound)
  }

  // ---------- what a production does to it

  /** What the text of a scrap should indent: the head of a function leaves the
      indentation of the declarations of its parameters to be undone. */
  function Weight(c: Category): int {
    if c == FN_DECL then 2 else 0
  }

  function OpWeight(op: Op, w: seq<Category>): int {
    match op
    case Take(i) => if i < |w| then Weight(w[i]) else 0
    case Big(c) => CodeNet(c)
    case Raw(c) => CodeNet(c)
    case Escaped(c) => CodeNet(c)
    case SetMath => 0
  }

  /** What a body adds up to from its j-th part on, if every scrap indents what it should. */
  function BodyWeight(body: seq<Op>, j: nat, w: seq<Category>): int
    decreases |body| - j
  {
    if j >= |body| then 0 else OpWeight(body[j], w) + BodyWeight(body, j + 1, w)
  }

  /** The production swallows the head of a function as an argument. */
  predicate Swallows(c0: Category, c1: Category) {
    c0 == FN_DECL && c1 == END_ARG
  }

  predicate Balanced(p: Production, w: seq<Category>) {
    && !p.NoRule?
    && (Retags(p) ==> p.at < |w| && Weight(p.cat) == Weight(w[p.at]))
    && (!Retags(p) ==> Weight(p.cat) == BodyWeight(Body(p), 0, w))
  }

  // ---------- the table

  function Part(body: seq<Op>, j: nat, w: seq<Category>): int {
    if j < |body| then OpWeight(body[j], w) else 0
  }

  function FourParts(body: seq<Op>, j: nat, w: seq<Category>): int {
    Part(body, j, w) + Part(body, j + 1, w) + Part(body, j + 2, w) + Part(body, j + 3, w)
  }

  lemma FourAtOnce(body: seq<Op>, j: nat, w: seq<Category>)
    ensures BodyWeight(body, j, w) == FourParts(body, j, w) + BodyWeight(body, j + 4, w)
  {
    assert BodyWeight(body, j, w) == Part(body, j, w) + BodyWeight(body, j + 1, w);
    assert BodyWeight(body, j + 1, w) == Part(body, j + 1, w) + BodyWeight(body, j + 2, w);
    assert BodyWeight(body, j + 2, w) == Part(body, j + 2, w) + BodyWeight(body, j + 3, w);
    assert BodyWeight(body, j + 3, w) == Part(body, j + 3, w) + BodyWeight(body, j + 4, w);
  }

  lemma TwelveAtOnce(body: seq<Op>, w: seq<Category>)
    requires |body| <= 12
    ensures BodyWeight(body, 0, w) == FourParts(body, 0, w) + FourParts(body, 4, w) + FourParts(body, 8, w)
  {
    FourAtOnce(body, 0, w);
    FourAtOnce(body, 4, w);
    FourAtOnce(body, 8, w);
  }

  function ScrapsWeight(w: seq<Category>, at: nat, k: nat): int
    decreases k
  {
    if k == 0 then 0 else (if at < |w| then Weight(w[at]) else 0) + ScrapsWeight(w, at + 1, k - 1)
  }

  lemma {:induction false} RunWeight(w: seq<Category>, at: nat, k: nat, body: seq<Op>, j: nat)
    requires j <= |body| && body[j..] == ScrapRun(at, k)
    ensures BodyWeight(body, j, w) == ScrapsWeight(w, at, k)
    decreases k
  {
    if k > 0 {
      assert body[j] == body[j..][0] == Take(at) && body[j+1..] == body[j..][1..];
      RunWeight(w, at + 1, k - 1, body, j + 1);
    }
  }

  predicate Adds(p: Production, w: seq<Category>) {
    match p
    case NoRule => true
    case Squash(at, k, cat, _, _) => at + k <= |w| && ScrapsWeight(w, at, k) == Weight(cat)
    case Reduce(_, _, cat, _, _, body) =>
      |body| <= 12 && FourParts(body, 0, w) + FourParts(body, 4, w) + FourParts(body, 8, w) == Weight(cat)
  }

  lemma AddsUp(p: Production, w: seq<Category>)
    requires Adds(p, w) && !p.NoRule?
    ensures Balanced(p, w)
  {
    if p.Squash? {
      if p.k == 1 {
        assert ScrapsWeight(w, p.at, 1) == Weight(w[p.at]) + ScrapsWeight(w, p.at + 1, 0);
      } else {
        assert ScrapRun(p.at, p.k)[0..] == ScrapRun(p.at, p.k);
        RunWeight(w, p.at, p.k, Body(p), 0);
      }
    } else {
      TwelveAtOnce(p.body, w);
    }
  }

  lemma ExpressionsAdd(c0: Category, c1: Category, c2: Category, c3: Category, forceLines: bool)
    requires c0 == EXP || c0 == LPAR || c0 == QUESTION || c0 == UNOP || c0 == UNORBINOP || c0 == BINOP
             || c0 == CAST || c0 == SIZEOF_LIKE || c0 == INT_LIKE || c0 == DECL_HEAD
    ensures Adds(CategoryRules(c0, c1, c2, c3, forceLines), [c0, c1, c2, c3])
  {
  }

  lemma BlocksAdd(c0: Category, c1: Category, c2: Category, c3: Category, forceLines: bool)
    requires c0 == DECL || c0 == TYPEDEF_LIKE || c0 == STRUCT_LIKE || c0 == STRUCT_HEAD || c0 == FN_DECL
             || c0 == FUNCTION || c0 == LBRACE || c0 == DO_LIKE
    ensures Adds(CategoryRules(c0, c1, c2, c3, forceLines), [c0, c1, c2, c3])
  {
  }

  lemma ClausesAdd(c0: Category, c1: Category, c2: Category, c3: Category, forceLines: bool)
    requires c0 == IF_LIKE || c0 == FOR_LIKE || c0 == ELSE_LIKE || c0 == IF_CLAUSE || c0 == IF_HEAD
             || c0 == ELSE_HEAD || c0 == CASE_LIKE || c0 == STMT || c0 == TAG || c0 == SEMI || c0 == LPROC
    ensures Adds(CategoryRules(c0, c1, c2, c3, forceLines), [c0, c1, c2, c3])
  {
  }

  lemma OthersAdd(c0: Category, c1: Category, c2: Category, c3: Category, forceLines: bool)
    requires c0 !in {EXP, LPAR, QUESTION, UNOP, UNORBINOP, BINOP, CAST, SIZEOF_LIKE, INT_LIKE, DECL_HEAD, DECL,
                     TYPEDEF_LIKE, STRUCT_LIKE, STRUCT_HEAD, FN_DECL, FUNCTION, LBRACE, DO_LIKE, IF_LIKE,
                     FOR_LIKE, ELSE_LIKE, IF_CLAUSE, IF_HEAD, ELSE_HEAD, CASE_LIKE, STMT, TAG, SEMI, LPROC}
    ensures Adds(CategoryRules(c0, c1, c2, c3, forceLines), [c0, c1, c2, c3])
  {
  }

  lemma TwoScraps(p: Production, w: seq<Category>)
    requires p.Squash? && p.k == 2 && p.at + 2 <= |w|
    ensures Balanced(p, w) <==> Weight(p.cat) == Weight(w[p.at]) + Weight(w[p.at+1])
  {
    assert ScrapRun(p.at, 2)[0..] == ScrapRun(p.at, 2);
    RunWeight(w, p.at, 2, Body(p), 0);
    assert ScrapsWeight(w, p.at, 2) == Weight(w[p.at]) + ScrapsWeight(w, p.at + 1, 1);
    assert ScrapsWeight(w, p.at + 1, 1) == Weight(w[p.at+1]) + ScrapsWeight(w, p.at + 2, 0);
  }

  lemma CategoriesAdd(c0: Category, c1: Category, c2: Category, c3: Category, forceLines: bool)
    ensures Adds(CategoryRules(c0, c1, c2, c3, forceLines), [c0, c1, c2, c3])
  {
    if c0 in {EXP, LPAR, QUESTION, UNOP, UNORBINOP, BINOP, CAST, SIZEOF_LIKE, INT_LIKE, DECL_HEAD} {
      ExpressionsAdd(c0, c1, c2, c3, forceLines);
    } else if c0 in {DECL, TYPEDEF_LIKE, STRUCT_LIKE, STRUCT_HEAD, FN_DECL, FUNCTION, LBRACE, DO_LIKE} {
      BlocksAdd(c0, c1, c2, c3, forceLines);
    } else if c0 in {IF_LIKE, FOR_LIKE, ELSE_LIKE, IF_CLAUSE, IF_HEAD, ELSE_HEAD, CASE_LIKE, STMT, TAG, SEMI, LPROC} {
      ClausesAdd(c0, c1, c2, c3, forceLines);
    } else {
      OthersAdd(c0, c1, c2, c3, forceLines);
    }
  }

  /** Every production leaves the indentation that its new category asks for, but the one
      that swallows the head of a function. */
  lemma TableBalanced(c0: Category, c1: Category, c2: Category, c3: Category, forceLines: bool)
    requires c0 != PADDING && !Match(c0, c1, c2, c3, forceLines).NoRule?
    ensures Balanced(Match(c0, c1, c2, c3, forceLines), [c0, c1, c2, c3]) <==> !Swallows(c0, c1)
  {
    var p, w := Match(c0, c1, c2, c3, forceLines), [c0, c1, c2, c3];
    if (c1 == END_ARG && LhsNotSimple(c0)) || c1 == INSERT || c2 == INSERT || c3 == INSERT {
      TwoScraps(p, w);
    } else {
      CategoriesAdd(c0, c1, c2, c3, forceLines);
      AddsUp(p, w);
    }
  }
}
