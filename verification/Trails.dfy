// Runs seen as rows of categories, and for each production that can be the first to leave
// something behind a row of scanned scraps on which it is (cweb/cweave.c:2269-2942).

module Trails {
  import opened Category
  import opened Productions
  import opened ProductionTable
  import opened TextStore
  import opened Reducer
  import opened ReducerRun
  import opened Sight
  import opened ReducerStable
  import opened Iteration

  /** The categories of the live scraps, and the cursor. */
  datatype Row = Row(cats: seq<Category>, pp: nat)

  function RowOf(s: State): Row { Row(Cats(s.scraps), s.pp) }

  /** p turns no expression behind the scraps it replaces into a type name. */
  predicate Plain(r: Row, p: Production) {
    && !p.NoRule? && r.pp + p.at + p.k <= |r.cats|
    && (ReservedAt(p) > 0 ==> EXP !in r.cats[r.pp + p.at + p.k..])
  }

  function RowAct(r: Row, p: Production): Row {
    if p.NoRule? then Row(r.cats, r.pp + 1)
    else if Plain(r, p) then Row(Replaced(r.cats, r.pp, p), Moved(r.pp, p.d))
    else r
  }

  function RowProduction(r: Row, rules: Rules): Production {
    rules(Peek(r.cats, r.pp), Peek(r.cats, r.pp + 1), Peek(r.cats, r.pp + 2), Peek(r.cats, r.pp + 3))
  }

  ghost function RowNext(rules: Rules): Row -> Row { r => RowAct(r, RowProduction(r, rules)) }

  /** The production p at r leaves nothing behind. */
  predicate SmoothBy(r: Row, p: Production) {
    && r.pp < |r.cats|
    && (!p.NoRule? ==> Plain(r, p) && (ShortSighted(p.n) ==> Moved(r.pp, p.d) == 0))
  }

  ghost function SmoothRow(rules: Rules): Row -> bool { r => SmoothBy(r, RowProduction(r, rules)) }

  // ---------- single iterations

  predicate Sees(r: Row, c0: Category, c1: Category, c2: Category, c3: Category) {
    && r.pp < |r.cats|
    && c0 == Peek(r.cats, r.pp) && c1 == Peek(r.cats, r.pp + 1) && c2 == Peek(r.cats, r.pp + 2) && c3 == Peek(r.cats, r.pp + 3)
  }

  /** No production applies to these four. */
  predicate Rests(rules: Rules, c0: Category, c1: Category, c2: Category, c3: Category) {
    rules(c0, c1, c2, c3).NoRule?
  }

  /** The production that applies to these four. */
  predicate Acts(rules: Rules, c0: Category, c1: Category, c2: Category, c3: Category, at: nat, k: nat, cat: Category, d: int) {
    var p := rules(c0, c1, c2, c3);
    !p.NoRule? && p.at == at && p.k == k && p.cat == cat && p.d == d && ReservedAt(p) == 0 && (ShortSighted(p.n) ==> cat == TAG && d == 0)
  }

  lemma Pass(rules: Rules, next: Row -> Row, smooth: Row -> bool, r: Row, n: nat, t: Row, c0: Category, c1: Category, c2: Category, c3: Category)
    requires next == RowNext(rules) && smooth == SmoothRow(rules)
    requires LeadsTo(next, smooth, r, t, n) && Sees(t, c0, c1, c2, c3) && Rests(rules, c0, c1, c2, c3)
    ensures LeadsTo(next, smooth, r, Row(t.cats, t.pp + 1), n + 1)
  {
    LeadsOn(next, smooth, r, t, n, Row(t.cats, t.pp + 1));
  }

  lemma Take(rules: Rules, next: Row -> Row, smooth: Row -> bool, r: Row, n: nat, t: Row, c0: Category, c1: Category, c2: Category, c3: Category,
             at: nat, k: nat, cat: Category, d: int, now: seq<Category>)
    requires next == RowNext(rules) && smooth == SmoothRow(rules)
    requires LeadsTo(next, smooth, r, t, n) && Sees(t, c0, c1, c2, c3) && Acts(rules, c0, c1, c2, c3, at, k, cat, d)
    requires t.pp + at + k <= |t.cats| && now == t.cats[..t.pp+at] + [cat] + t.cats[t.pp+at+k..]
    requires cat == TAG ==> t.pp == 0
    ensures LeadsTo(next, smooth, r, Row(now, Moved(t.pp, d)), n + 1)
  {
    LeadsOn(next, smooth, r, t, n, Row(now, Moved(t.pp, d)));
  }

  // ---------- rows that lead to a production that leaves something behind

  predicate KnowsLabels(rules: Rules) {
    && Acts(rules, EXP, COLON, EXP, COLON, 0, 2, TAG, 0)
    && Rests(rules, TAG, EXP, COLON, PADDING)
  }

  lemma LabelsWindows(rules: Rules, forceLines: bool)
    requires rules == CweaveRules(forceLines)
    ensures KnowsLabels(rules)
  {
  }

  lemma LabelsTrail(rules: Rules, next: Row -> Row, smooth: Row -> bool)
    requires KnowsLabels(rules) && next == RowNext(rules) && smooth == SmoothRow(rules)
    ensures LeadsTo(next, smooth, Row([EXP, COLON, EXP, COLON], 0), Row([TAG, EXP, COLON], 1), 2)
  {
    var r := Row([EXP, COLON, EXP, COLON], 0);
    var a1 := r.cats;
    var a2 := [TAG, EXP, COLON];
    assert a1[..0] == [] && a1[2..] == [EXP, COLON];
    Take(rules, next, smooth, r, 0, Row(a1, 0), EXP, COLON, EXP, COLON, 0, 2, TAG, 0, a2);
    Pass(rules, next, smooth, r, 1, Row(a2, 0), TAG, EXP, COLON, PADDING);
  }

  predicate KnowsTypedef(rules: Rules) {
    && Rests(rules, TYPEDEF_LIKE, INT_LIKE, EXP, LPAR)
    && Acts(rules, INT_LIKE, EXP, LPAR, INT_LIKE, 0, 1, DECL_HEAD, -1)
    && Rests(rules, TYPEDEF_LIKE, DECL_HEAD, EXP, LPAR)
    && Rests(rules, DECL_HEAD, EXP, LPAR, INT_LIKE)
    && Rests(rules, EXP, LPAR, INT_LIKE, RAW_RPAR)
    && Rests(rules, LPAR, INT_LIKE, RAW_RPAR, PADDING)
    && Rests(rules, INT_LIKE, RAW_RPAR, PADDING, PADDING)
    && Acts(rules, RAW_RPAR, PADDING, PADDING, PADDING, 0, 1, RPAR, -3)
    && Rests(rules, EXP, LPAR, INT_LIKE, RPAR)
  }

  lemma TypedefWindows(rules: Rules, forceLines: bool)
    requires rules == CweaveRules(forceLines)
    ensures KnowsTypedef(rules)
  {
  }

  lemma TypedefBegins(rules: Rules, next: Row -> Row, smooth: Row -> bool)
    requires KnowsTypedef(rules) && next == RowNext(rules) && smooth == SmoothRow(rules)
    ensures LeadsTo(next, smooth, Row([TYPEDEF_LIKE, INT_LIKE, EXP, LPAR, INT_LIKE, RAW_RPAR], 0), Row([TYPEDEF_LIKE, DECL_HEAD, EXP, LPAR, INT_LIKE, RAW_RPAR], 3), 5)
  {
    var r := Row([TYPEDEF_LIKE, INT_LIKE, EXP, LPAR, INT_LIKE, RAW_RPAR], 0);
    var a1 := r.cats;
    Pass(rules, next, smooth, r, 0, Row(a1, 0), TYPEDEF_LIKE, INT_LIKE, EXP, LPAR);
    var a2 := [TYPEDEF_LIKE, DECL_HEAD, EXP, LPAR, INT_LIKE, RAW_RPAR];
    assert a1[..1] == [TYPEDEF_LIKE] && a1[2..] == [EXP, LPAR, INT_LIKE, RAW_RPAR];
    Take(rules, next, smooth, r, 1, Row(a1, 1), INT_LIKE, EXP, LPAR, INT_LIKE, 0, 1, DECL_HEAD, -1, a2);
    Pass(rules, next, smooth, r, 2, Row(a2, 0), TYPEDEF_LIKE, DECL_HEAD, EXP, LPAR);
    Pass(rules, next, smooth, r, 3, Row(a2, 1), DECL_HEAD, EXP, LPAR, INT_LIKE);
    Pass(rules, next, smooth, r, 4, Row(a2, 2), EXP, LPAR, INT_LIKE, RAW_RPAR);
  }

  lemma TypedefTrail(rules: Rules, next: Row -> Row, smooth: Row -> bool)
    requires KnowsTypedef(rules) && next == RowNext(rules) && smooth == SmoothRow(rules)
    ensures LeadsTo(next, smooth, Row([TYPEDEF_LIKE, INT_LIKE, EXP, LPAR, INT_LIKE, RAW_RPAR], 0), Row([TYPEDEF_LIKE, DECL_HEAD, EXP, LPAR, INT_LIKE, RPAR], 3), 9)
  {
    TypedefBegins(rules, next, smooth);
    var r := Row([TYPEDEF_LIKE, INT_LIKE, EXP, LPAR, INT_LIKE, RAW_RPAR], 0);
    var a2 := [TYPEDEF_LIKE, DECL_HEAD, EXP, LPAR, INT_LIKE, RAW_RPAR];
    Pass(rules, next, smooth, r, 5, Row(a2, 3), LPAR, INT_LIKE, RAW_RPAR, PADDING);
    Pass(rules, next, smooth, r, 6, Row(a2, 4), INT_LIKE, RAW_RPAR, PADDING, PADDING);
    var a3 := [TYPEDEF_LIKE, DECL_HEAD, EXP, LPAR, INT_LIKE, RPAR];
    assert a2[..5] == [TYPEDEF_LIKE, DECL_HEAD, EXP, LPAR, INT_LIKE] && a2[6..] == [];
    Take(rules, next, smooth, r, 7, Row(a2, 5), RAW_RPAR, PADDING, PADDING, PADDING, 0, 1, RPAR, -3, a3);
    Pass(rules, next, smooth, r, 8, Row(a3, 2), EXP, LPAR, INT_LIKE, RPAR);
  }

  predicate KnowsNewStruct(rules: Rules) {
    && Rests(rules, NEW_LIKE, STRUCT_LIKE, LBRACE, PADDING)
  }

  lemma NewStructWindows(rules: Rules, forceLines: bool)
    requires rules == CweaveRules(forceLines)
    ensures KnowsNewStruct(rules)
  {
  }

  lemma NewStructTrail(rules: Rules, next: Row -> Row, smooth: Row -> bool)
    requires KnowsNewStruct(rules) && next == RowNext(rules) && smooth == SmoothRow(rules)
    ensures LeadsTo(next, smooth, Row([NEW_LIKE, STRUCT_LIKE, LBRACE], 0), Row([NEW_LIKE, STRUCT_LIKE, LBRACE], 1), 1)
  {
    var r := Row([NEW_LIKE, STRUCT_LIKE, LBRACE], 0);
    var a1 := r.cats;
    Pass(rules, next, smooth, r, 0, Row(a1, 0), NEW_LIKE, STRUCT_LIKE, LBRACE, PADDING);
  }

  predicate KnowsNewDeclarator(rules: Rules) {
    && Rests(rules, NEW_LIKE, STRUCT_LIKE, EXP, SEMI)
  }

  lemma NewDeclaratorWindows(rules: Rules, forceLines: bool)
    requires rules == CweaveRules(forceLines)
    ensures KnowsNewDeclarator(rules)
  {
  }

  lemma NewDeclaratorTrail(rules: Rules, next: Row -> Row, smooth: Row -> bool)
    requires KnowsNewDeclarator(rules) && next == RowNext(rules) && smooth == SmoothRow(rules)
    ensures LeadsTo(next, smooth, Row([NEW_LIKE, STRUCT_LIKE, EXP, SEMI], 0), Row([NEW_LIKE, STRUCT_LIKE, EXP, SEMI], 1), 1)
  {
    var r := Row([NEW_LIKE, STRUCT_LIKE, EXP, SEMI], 0);
    var a1 := r.cats;
    Pass(rules, next, smooth, r, 0, Row(a1, 0), NEW_LIKE, STRUCT_LIKE, EXP, SEMI);
  }

  predicate KnowsNewNamedStruct(rules: Rules) {
    && Rests(rules, NEW_LIKE, STRUCT_LIKE, EXP, LBRACE)
  }

  lemma NewNamedStructWindows(rules: Rules, forceLines: bool)
    requires rules == CweaveRules(forceLines)
    ensures KnowsNewNamedStruct(rules)
  {
  }

  lemma NewNamedStructTrail(rules: Rules, next: Row -> Row, smooth: Row -> bool)
    requires KnowsNewNamedStruct(rules) && next == RowNext(rules) && smooth == SmoothRow(rules)
    ensures LeadsTo(next, smooth, Row([NEW_LIKE, STRUCT_LIKE, EXP, LBRACE], 0), Row([NEW_LIKE, STRUCT_LIKE, EXP, LBRACE], 1), 1)
  {
    var r := Row([NEW_LIKE, STRUCT_LIKE, EXP, LBRACE], 0);
    var a1 := r.cats;
    Pass(rules, next, smooth, r, 0, Row(a1, 0), NEW_LIKE, STRUCT_LIKE, EXP, LBRACE);
  }

  predicate KnowsDoIf(rules: Rules) {
    && Rests(rules, DO_LIKE, SEMI, IF_LIKE, EXP)
    && Acts(rules, SEMI, IF_LIKE, EXP, SEMI, 0, 1, STMT, -1)
    && Rests(rules, DO_LIKE, STMT, IF_LIKE, EXP)
    && Rests(rules, STMT, IF_LIKE, EXP, SEMI)
    && Acts(rules, IF_LIKE, EXP, SEMI, ELSE_LIKE, 0, 2, IF_CLAUSE, 0)
    && Rests(rules, IF_CLAUSE, SEMI, ELSE_LIKE, SEMI)
    && Acts(rules, SEMI, ELSE_LIKE, SEMI, PADDING, 0, 1, STMT, -1)
  }

  lemma DoIfWindows(rules: Rules, forceLines: bool)
    requires rules == CweaveRules(forceLines)
    ensures KnowsDoIf(rules)
  {
  }

  lemma DoIfBegins(rules: Rules, next: Row -> Row, smooth: Row -> bool)
    requires KnowsDoIf(rules) && next == RowNext(rules) && smooth == SmoothRow(rules)
    ensures LeadsTo(next, smooth, Row([DO_LIKE, SEMI, IF_LIKE, EXP, SEMI, ELSE_LIKE, SEMI], 0), Row([DO_LIKE, STMT, IF_LIKE, EXP, SEMI, ELSE_LIKE, SEMI], 2), 4)
  {
    var r := Row([DO_LIKE, SEMI, IF_LIKE, EXP, SEMI, ELSE_LIKE, SEMI], 0);
    var a1 := r.cats;
    Pass(rules, next, smooth, r, 0, Row(a1, 0), DO_LIKE, SEMI, IF_LIKE, EXP);
    var a2 := [DO_LIKE, STMT, IF_LIKE, EXP, SEMI, ELSE_LIKE, SEMI];
    assert a1[..1] == [DO_LIKE] && a1[2..] == [IF_LIKE, EXP, SEMI, ELSE_LIKE, SEMI];
    Take(rules, next, smooth, r, 1, Row(a1, 1), SEMI, IF_LIKE, EXP, SEMI, 0, 1, STMT, -1, a2);
    Pass(rules, next, smooth, r, 2, Row(a2, 0), DO_LIKE, STMT, IF_LIKE, EXP);
    Pass(rules, next, smooth, r, 3, Row(a2, 1), STMT, IF_LIKE, EXP, SEMI);
  }

  lemma DoIfClause(rules: Rules, next: Row -> Row, smooth: Row -> bool, r: Row)
    requires KnowsDoIf(rules) && next == RowNext(rules) && smooth == SmoothRow(rules)
    requires LeadsTo(next, smooth, r, Row([DO_LIKE, STMT, IF_LIKE, EXP, SEMI, ELSE_LIKE, SEMI], 2), 4)
    ensures LeadsTo(next, smooth, r, Row([DO_LIKE, STMT, IF_CLAUSE, SEMI, ELSE_LIKE, SEMI], 3), 6)
  {
    var a2 := [DO_LIKE, STMT, IF_LIKE, EXP, SEMI, ELSE_LIKE, SEMI];
    var a3 := [DO_LIKE, STMT, IF_CLAUSE, SEMI, ELSE_LIKE, SEMI];
    assert a2[..2] == [DO_LIKE, STMT] && a2[4..] == [SEMI, ELSE_LIKE, SEMI];
    Take(rules, next, smooth, r, 4, Row(a2, 2), IF_LIKE, EXP, SEMI, ELSE_LIKE, 0, 2, IF_CLAUSE, 0, a3);
    Pass(rules, next, smooth, r, 5, Row(a3, 2), IF_CLAUSE, SEMI, ELSE_LIKE, SEMI);
  }

  lemma DoIfEnds(rules: Rules, next: Row -> Row, smooth: Row -> bool, r: Row)
    requires KnowsDoIf(rules) && next == RowNext(rules) && smooth == SmoothRow(rules)
    requires LeadsTo(next, smooth, r, Row([DO_LIKE, STMT, IF_CLAUSE, SEMI, ELSE_LIKE, SEMI], 3), 6)
    ensures LeadsTo(next, smooth, r, Row([DO_LIKE, STMT, IF_CLAUSE, STMT, ELSE_LIKE, SEMI], 2), 7)
  {
    var a3 := [DO_LIKE, STMT, IF_CLAUSE, SEMI, ELSE_LIKE, SEMI];
    var a4 := [DO_LIKE, STMT, IF_CLAUSE, STMT, ELSE_LIKE, SEMI];
    assert a3[..3] == [DO_LIKE, STMT, IF_CLAUSE] && a3[4..] == [ELSE_LIKE, SEMI];
    Take(rules, next, smooth, r, 6, Row(a3, 3), SEMI, ELSE_LIKE, SEMI, PADDING, 0, 1, STMT, -1, a4);
  }

  lemma DoIfTrail(rules: Rules, next: Row -> Row, smooth: Row -> bool)
    requires KnowsDoIf(rules) && next == RowNext(rules) && smooth == SmoothRow(rules)
    ensures LeadsTo(next, smooth, Row([DO_LIKE, SEMI, IF_LIKE, EXP, SEMI, ELSE_LIKE, SEMI], 0),
                    Row([DO_LIKE, STMT, IF_CLAUSE, STMT, ELSE_LIKE, SEMI], 2), 7)
  {
    var r := Row([DO_LIKE, SEMI, IF_LIKE, EXP, SEMI, ELSE_LIKE, SEMI], 0);
    DoIfBegins(rules, next, smooth);
    DoIfClause(rules, next, smooth, r);
    DoIfEnds(rules, next, smooth, r);
  }

  predicate KnowsIfBlock(rules: Rules) {
    && Rests(rules, DO_LIKE, SEMI, IF_LIKE, EXP)
    && Acts(rules, SEMI, IF_LIKE, EXP, LBRACE, 0, 1, STMT, -1)
    && Rests(rules, DO_LIKE, STMT, IF_LIKE, EXP)
    && Rests(rules, STMT, IF_LIKE, EXP, LBRACE)
  }

  predicate KnowsBlock(rules: Rules) {
    && Acts(rules, IF_LIKE, EXP, LBRACE, RBRACE, 0, 2, IF_CLAUSE, 0)
    && Acts(rules, IF_CLAUSE, LBRACE, RBRACE, ELSE_LIKE, 0, 1, IF_HEAD, 0)
    && Rests(rules, IF_HEAD, LBRACE, RBRACE, ELSE_LIKE)
    && Acts(rules, LBRACE, RBRACE, ELSE_LIKE, SEMI, 0, 2, STMT, -1)
  }

  lemma IfBlockWindows(rules: Rules, forceLines: bool)
    requires rules == CweaveRules(forceLines)
    ensures KnowsIfBlock(rules)
  {
  }

  lemma BlockWindows(rules: Rules, forceLines: bool)
    requires rules == CweaveRules(forceLines)
    ensures KnowsBlock(rules)
  {
  }

  lemma DoIfBlockBegins(rules: Rules, next: Row -> Row, smooth: Row -> bool)
    requires KnowsIfBlock(rules) && next == RowNext(rules) && smooth == SmoothRow(rules)
    ensures LeadsTo(next, smooth, Row([DO_LIKE, SEMI, IF_LIKE, EXP, LBRACE, RBRACE, ELSE_LIKE, SEMI], 0),
                    Row([DO_LIKE, STMT, IF_LIKE, EXP, LBRACE, RBRACE, ELSE_LIKE, SEMI], 2), 4)
  {
    var r := Row([DO_LIKE, SEMI, IF_LIKE, EXP, LBRACE, RBRACE, ELSE_LIKE, SEMI], 0);
    var a1 := r.cats;
    Pass(rules, next, smooth, r, 0, Row(a1, 0), DO_LIKE, SEMI, IF_LIKE, EXP);
    var a2 := [DO_LIKE, STMT, IF_LIKE, EXP, LBRACE, RBRACE, ELSE_LIKE, SEMI];
    assert a1[..1] == [DO_LIKE] && a1[2..] == [IF_LIKE, EXP, LBRACE, RBRACE, ELSE_LIKE, SEMI];
    Take(rules, next, smooth, r, 1, Row(a1, 1), SEMI, IF_LIKE, EXP, LBRACE, 0, 1, STMT, -1, a2);
    Pass(rules, next, smooth, r, 2, Row(a2, 0), DO_LIKE, STMT, IF_LIKE, EXP);
    Pass(rules, next, smooth, r, 3, Row(a2, 1), STMT, IF_LIKE, EXP, LBRACE);
  }

  lemma DoIfBlockClause(rules: Rules, next: Row -> Row, smooth: Row -> bool, r: Row)
    requires KnowsBlock(rules) && next == RowNext(rules) && smooth == SmoothRow(rules)
    requires LeadsTo(next, smooth, r, Row([DO_LIKE, STMT, IF_LIKE, EXP, LBRACE, RBRACE, ELSE_LIKE, SEMI], 2), 4)
    ensures LeadsTo(next, smooth, r, Row([DO_LIKE, STMT, IF_CLAUSE, LBRACE, RBRACE, ELSE_LIKE, SEMI], 2), 5)
  {
    var a2 := [DO_LIKE, STMT, IF_LIKE, EXP, LBRACE, RBRACE, ELSE_LIKE, SEMI];
    var a3 := [DO_LIKE, STMT, IF_CLAUSE, LBRACE, RBRACE, ELSE_LIKE, SEMI];
    assert a2[..2] == [DO_LIKE, STMT] && a2[4..] == [LBRACE, RBRACE, ELSE_LIKE, SEMI];
    Take(rules, next, smooth, r, 4, Row(a2, 2), IF_LIKE, EXP, LBRACE, RBRACE, 0, 2, IF_CLAUSE, 0, a3);
  }

  lemma DoIfBlockHead(rules: Rules, next: Row -> Row, smooth: Row -> bool, r: Row)
    requires KnowsBlock(rules) && next == RowNext(rules) && smooth == SmoothRow(rules)
    requires LeadsTo(next, smooth, r, Row([DO_LIKE, STMT, IF_CLAUSE, LBRACE, RBRACE, ELSE_LIKE, SEMI], 2), 5)
    ensures LeadsTo(next, smooth, r, Row([DO_LIKE, STMT, IF_HEAD, LBRACE, RBRACE, ELSE_LIKE, SEMI], 2), 6)
  {
    var a3 := [DO_LIKE, STMT, IF_CLAUSE, LBRACE, RBRACE, ELSE_LIKE, SEMI];
    var a4 := [DO_LIKE, STMT, IF_HEAD, LBRACE, RBRACE, ELSE_LIKE, SEMI];
    assert a3[..2] == [DO_LIKE, STMT] && a3[3..] == [LBRACE, RBRACE, ELSE_LIKE, SEMI];
    Take(rules, next, smooth, r, 5, Row(a3, 2), IF_CLAUSE, LBRACE, RBRACE, ELSE_LIKE, 0, 1, IF_HEAD, 0, a4);
  }

  lemma DoIfBlockEnds(rules: Rules, next: Row -> Row, smooth: Row -> bool, r: Row)
    requires KnowsBlock(rules) && next == RowNext(rules) && smooth == SmoothRow(rules)
    requires LeadsTo(next, smooth, r, Row([DO_LIKE, STMT, IF_HEAD, LBRACE, RBRACE, ELSE_LIKE, SEMI], 2), 6)
    ensures LeadsTo(next, smooth, r, Row([DO_LIKE, STMT, IF_HEAD, STMT, ELSE_LIKE, SEMI], 2), 8)
  {
    var a4 := [DO_LIKE, STMT, IF_HEAD, LBRACE, RBRACE, ELSE_LIKE, SEMI];
    Pass(rules, next, smooth, r, 6, Row(a4, 2), IF_HEAD, LBRACE, RBRACE, ELSE_LIKE);
    BlockBecomesStatement(rules, next, smooth, r, a4);
  }

  lemma BlockBecomesStatement(rules: Rules, next: Row -> Row, smooth: Row -> bool, r: Row, a4: seq<Category>)
    requires KnowsBlock(rules) && next == RowNext(rules) && smooth == SmoothRow(rules)
    requires a4 == [DO_LIKE, STMT, IF_HEAD, LBRACE, RBRACE, ELSE_LIKE, SEMI] && LeadsTo(next, smooth, r, Row(a4, 3), 7)
    ensures LeadsTo(next, smooth, r, Row([DO_LIKE, STMT, IF_HEAD, STMT, ELSE_LIKE, SEMI], 2), 8)
  {
    var a5 := [DO_LIKE, STMT, IF_HEAD, STMT, ELSE_LIKE, SEMI];
    assert a4[..3] == [DO_LIKE, STMT, IF_HEAD] && a4[5..] == [ELSE_LIKE, SEMI];
    Take(rules, next, smooth, r, 7, Row(a4, 3), LBRACE, RBRACE, ELSE_LIKE, SEMI, 0, 2, STMT, -1, a5);
  }

  lemma DoIfBlockTrail(rules: Rules, next: Row -> Row, smooth: Row -> bool)
    requires KnowsIfBlock(rules) && KnowsBlock(rules) && next == RowNext(rules) && smooth == SmoothRow(rules)
    ensures LeadsTo(next, smooth, Row([DO_LIKE, SEMI, IF_LIKE, EXP, LBRACE, RBRACE, ELSE_LIKE, SEMI], 0),
                    Row([DO_LIKE, STMT, IF_HEAD, STMT, ELSE_LIKE, SEMI], 2), 8)
  {
    var r := Row([DO_LIKE, SEMI, IF_LIKE, EXP, LBRACE, RBRACE, ELSE_LIKE, SEMI], 0);
    DoIfBlockBegins(rules, next, smooth);
    DoIfBlockClause(rules, next, smooth, r);
    DoIfBlockHead(rules, next, smooth, r);
    DoIfBlockEnds(rules, next, smooth, r);
  }

  predicate KnowsBases(rules: Rules) {
    && Acts(rules, STRUCT_LIKE, EXP, COLON, PUBLIC_LIKE, 2, 1, BASE, -1)
    && Rests(rules, STRUCT_LIKE, EXP, BASE, PUBLIC_LIKE)
    && Rests(rules, EXP, BASE, PUBLIC_LIKE, EXP)
  }

  lemma BasesWindows(rules: Rules, forceLines: bool)
    requires rules == CweaveRules(forceLines)
    ensures KnowsBases(rules)
  {
  }

  lemma BasesTrail(rules: Rules, next: Row -> Row, smooth: Row -> bool)
    requires KnowsBases(rules) && next == RowNext(rules) && smooth == SmoothRow(rules)
    ensures LeadsTo(next, smooth, Row([STRUCT_LIKE, EXP, COLON, PUBLIC_LIKE, EXP, COMMA, INT_LIKE, COMMA], 0), Row([STRUCT_LIKE, EXP, BASE, PUBLIC_LIKE, EXP, COMMA, INT_LIKE, COMMA], 2), 3)
  {
    var r := Row([STRUCT_LIKE, EXP, COLON, PUBLIC_LIKE, EXP, COMMA, INT_LIKE, COMMA], 0);
    var a1 := r.cats;
    var a2 := [STRUCT_LIKE, EXP, BASE, PUBLIC_LIKE, EXP, COMMA, INT_LIKE, COMMA];
    assert a1[..2] == [STRUCT_LIKE, EXP] && a1[3..] == [PUBLIC_LIKE, EXP, COMMA, INT_LIKE, COMMA];
    Take(rules, next, smooth, r, 0, Row(a1, 0), STRUCT_LIKE, EXP, COLON, PUBLIC_LIKE, 2, 1, BASE, -1, a2);
    Pass(rules, next, smooth, r, 1, Row(a2, 0), STRUCT_LIKE, EXP, BASE, PUBLIC_LIKE);
    Pass(rules, next, smooth, r, 2, Row(a2, 1), EXP, BASE, PUBLIC_LIKE, EXP);
  }

  predicate KnowsArgument(rules: Rules) {
    && Acts(rules, INT_LIKE, EXP, LPAR, END_ARG, 0, 1, DECL_HEAD, -1)
    && Rests(rules, DECL_HEAD, EXP, LPAR, END_ARG)
    && Rests(rules, EXP, LPAR, END_ARG, PADDING)
  }

  lemma ArgumentWindows(rules: Rules, forceLines: bool)
    requires rules == CweaveRules(forceLines)
    ensures KnowsArgument(rules)
  {
  }

  lemma ArgumentTrail(rules: Rules, next: Row -> Row, smooth: Row -> bool)
    requires KnowsArgument(rules) && next == RowNext(rules) && smooth == SmoothRow(rules)
    ensures LeadsTo(next, smooth, Row([INT_LIKE, EXP, LPAR, END_ARG], 0), Row([DECL_HEAD, EXP, LPAR, END_ARG], 2), 3)
  {
    var r := Row([INT_LIKE, EXP, LPAR, END_ARG], 0);
    var a1 := r.cats;
    var a2 := [DECL_HEAD, EXP, LPAR, END_ARG];
    assert a1[..0] == [] && a1[1..] == [EXP, LPAR, END_ARG];
    Take(rules, next, smooth, r, 0, Row(a1, 0), INT_LIKE, EXP, LPAR, END_ARG, 0, 1, DECL_HEAD, -1, a2);
    Pass(rules, next, smooth, r, 1, Row(a2, 0), DECL_HEAD, EXP, LPAR, END_ARG);
    Pass(rules, next, smooth, r, 2, Row(a2, 1), EXP, LPAR, END_ARG, PADDING);
  }
}
