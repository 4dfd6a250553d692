// The scraps that the scanner makes of a program, before `translate` reduces them
// (cweb/cweave.c:273-276, 919-995, 3008-3186, 3201-3214, 3228, 3282, 3734, 3757, 3807).

module Scanner {
  import opened Category
  import opened Productions
  import opened TextStore
  import opened Reducer
  import opened ReducerRun
  import opened ReducerMath
  import opened ReducerStable

  /** The categories of operators, brackets, separators, insertions and section names. */
  predicate TokenCategory(c: Category) {
    || c == EXP || c == UNOP || c == BINOP || c == UNORBINOP || c == RAW_UNORBIN || c == QUESTION || c == PRELANGLE || c == PRERANGLE
    || c == LPAR || c == RAW_RPAR || c == LBRACE || c == RBRACE || c == COMMA || c == SEMI || c == COLON || c == COLCOL
    || c == INSERT || c == LPROC || c == RPROC || c == SECTION_SCRAP || c == BEGIN_ARG || c == END_ARG || c == DEAD
  }

  /** The categories of reserved words, which `@f` can give to identifiers as well. */
  predicate WordCategory(c: Category) {
    || c == SIZEOF_LIKE || c == INT_LIKE || c == CASE_LIKE || c == CATCH_LIKE || c == RAW_INT || c == STRUCT_LIKE || c == CONST_LIKE
    || c == DEFINE_LIKE || c == DO_LIKE || c == IF_LIKE || c == ELSE_LIKE || c == FOR_LIKE || c == NEW_LIKE || c == OPERATOR_LIKE
    || c == PUBLIC_LIKE || c == TYPEDEF_LIKE || c == DECL
  }

  predicate ScannerMakes(c: Category) { TokenCategory(c) || WordCategory(c) }

  /** The mode in which the text of such a scrap is to be read. (Of identifiers and of
      insertions there are others as well.) */
  function ScannedMode(c: Category): nat {
    if c == UNOP || c == BINOP || c == UNORBINOP || c == RAW_UNORBIN || c == QUESTION || c == PRELANGLE || c == PRERANGLE
       || c == LBRACE || c == RBRACE || c == COMMA then YES_MATH
    else if c == LPROC || c == RPROC || c == DEAD then NO_MATH
    else MAYBE_MATH
  }

  ghost predicate FromScanner(s: State, leaves: seq<Leaf>) {
    Scanned(s, leaves) && forall i :: 0 <= i < |s.scraps| ==> ScannerMakes(s.scraps[i].cat)
  }

  /** Scraps of these categories as the scanner could leave them. */
  function RowState(cats: seq<Category>): State {
    State(Store(seq(|cats|, i => Code(NOOP)), seq(|cats| + 1, i => i)),
          seq(|cats|, i requires 0 <= i < |cats| => Scrap(cats[i], 5 * ScannedMode(cats[i]), i)), 0)
  }

  function RowLeaves(cats: seq<Category>): seq<Leaf> {
    seq(|cats|, i requires 0 <= i < |cats| => Leaf(ScannedMode(cats[i]), cats[i]))
  }

  lemma RowIsScanned(cats: seq<Category>)
    requires forall i :: 0 <= i < |cats| ==> ScannerMakes(cats[i])
    ensures FromScanner(RowState(cats), RowLeaves(cats)) && Cats(RowState(cats).scraps) == cats
  {
    RowIsWellFormed(cats);
    var s, leaves := RowState(cats), RowLeaves(cats);
    forall i | 0 <= i < |s.scraps|
      ensures s.scraps[i].mathness == 5 * leaves[s.scraps[i].trans].mode && s.scraps[i].cat == leaves[s.scraps[i].trans].cat
    {
    }
  }

  lemma RowIsWellFormed(cats: seq<Category>)
    requires PADDING !in cats
    ensures WellFormed(RowState(cats)) && RowState(cats).store.Texts() == |cats|
  {
    var store := RowState(cats).store;
    assert store.Valid();
    assert store.Acyclic();
  }
}
