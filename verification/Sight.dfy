// How far a production can be seen from the left. A window before the cursor that had no
// production may get one when the scraps in its sight are replaced; the cursor has to go
// back to it (cweb/cweave.c:2249-2293).

module Sight {
  import opened Category
  import opened Productions
  import opened ProductionTable
  import opened Reducer

  /** Some production applies to these four categories. */
  predicate Fires(c0: Category, c1: Category, c2: Category, c3: Category) {
    !Match(c0, c1, c2, c3, false).NoRule?
  }

  lemma LinesDoNotMatter(c0: Category, c1: Category, c2: Category, c3: Category, forceLines: bool)
    ensures Match(c0, c1, c2, c3, forceLines).NoRule? <==> !Fires(c0, c1, c2, c3)
  {
  }

  /** The productions after which the cursor does not always go back far enough. */
  predicate ShortSighted(n: nat) {
    || n == 7 || n == 13 || n == 44 || n == 45 || n == 46 || n == 63 || n == 64 || n == 65 || n == 66 || n == 67
    || n == 101 || n == 111
  }

  // ---------- which categories matter to a window

  // What a new fourth category x in place of a can change.
  lemma FourthMatters(b3: Category, b2: Category, b1: Category, a: Category, x: Category)
    requires Fires(b3, b2, b1, x) && !Fires(b3, b2, b1, a) && x != INSERT
    ensures
      || (b3 == EXP && b2 == BASE && b1 == INT_LIKE && (x == COMMA || x == LBRACE))
      || (b3 == DECL_HEAD && (b2 == BINOP || b2 == COLON) && b1 == EXP && (x == COMMA || x == SEMI || x == RPAR))
      || (b3 == TYPEDEF_LIKE && b2 == DECL_HEAD && b1 == EXP && x != LPAR && x != EXP && (a == LPAR || a == EXP))
      || (b3 == LBRACE && b2 == EXP && b1 == COMMA && x == RBRACE)
      || (b3 == DO_LIKE && b2 == STMT && b1 == ELSE_LIKE && x == SEMI)
      || (b3 == LPROC && b2 == EXP && b1 == EXP && x == RPROC)
  {
  }

  /** Categories that complete a phrase when they come third. */
  predicate Completes(x: Category) {
    x == EXP || x == COMMA || x == INT_LIKE || x == RPAR || x == COLON || x == SEMI || x == RBRACE || x == RPROC || x == PRERANGLE
  }

  // What new third and fourth categories x, z in place of a0, a1 can change.
  lemma ThirdMatters(b2: Category, b1: Category, a0: Category, a1: Category, x: Category, z: Category)
    requires Fires(b2, b1, x, z) && !Fires(b2, b1, a0, a1) && x != INSERT && z != INSERT
    ensures
      || Completes(x)
      || (b2 == DO_LIKE && b1 == STMT && x == ELSE_LIKE && z == SEMI)
      || (b2 == DECL_HEAD && b1 == EXP && x != LPAR && x != EXP && (a0 == LPAR || a0 == EXP))
      || (b2 == DECL_HEAD && b1 == INT_LIKE && x != COLCOL && a0 == COLCOL)
      || (b2 == STRUCT_LIKE && (b1 == EXP || b1 == INT_LIKE) && x != BASE && a0 == BASE)
      || (b2 == NEW_LIKE && b1 == RAW_INT && x != PRELANGLE && x != LANGLE && (a0 == PRELANGLE || a0 == LANGLE))
      || (b2 == OPERATOR_LIKE && (b1 == BINOP || b1 == UNOP || b1 == UNORBINOP) && x != BINOP && a0 == BINOP)
  {
  }

  /** Categories that productions leave at the cursor. */
  predicate LeftAtCursor(x: Category, z: Category) {
    || x == FN_DECL || x == LPAR || (x == DECL_HEAD && z == COLON) || x == IF_CLAUSE || x == ELSE_HEAD || x == IF_HEAD
    || x == LPROC || x == LANGLE || x == NEW_LIKE || x == RAW_RPAR || x == RAW_UNORBIN
  }

  /** Categories that a production takes before anything. */
  predicate Restless(b: Category) {
    || b == SEMI || b == SECTION_SCRAP || b == INSERT || b == PRELANGLE || b == PRERANGLE || b == PUBLIC_LIKE
    || b == RAW_RPAR || b == RAW_UNORBIN || b == CONST_LIKE || b == RAW_INT
  }

  lemma RestlessFires(b: Category, c1: Category, c2: Category, c3: Category)
    requires Restless(b) && c1 != PADDING
    ensures Fires(b, c1, c2, c3)
  {
  }

  // What goes before one of these went before most others as well.
  lemma SecondMatters(b1: Category, x: Category, z: Category, w: Category)
    requires Fires(b1, x, z, w) && z != INSERT && w != INSERT && LeftAtCursor(x, z)
    ensures Restless(b1) || (b1 == NEW_LIKE && x != LPAR) || b1 == OPERATOR_LIKE
  {
  }

  // What goes before an operator or an expression.
  lemma NewAndOperator(b1: Category, a0: Category, a1: Category, a2: Category)
    requires b1 == NEW_LIKE || b1 == OPERATOR_LIKE
    requires a0 != BINOP && a0 != UNOP && a0 != UNORBINOP && a0 != RAW_INT && a0 != STRUCT_LIKE && a0 != PADDING
    requires b1 == NEW_LIKE ==> a0 != LPAR
    ensures Fires(b1, a0, a1, a2)
  {
  }

  // ---------- what productions leave

  /** Insertions, and ends of arguments: the rules that come before all others. */
  predicate Urgent(a0: Category, a1: Category, a2: Category, a3: Category) {
    a1 == INSERT || a2 == INSERT || a3 == INSERT || (a1 == END_ARG && LhsNotSimple(a0))
  }

  /** Of the urgent productions, one that replaces the scrap at the cursor by another
      category and moves back less than three makes an EXP, or moves back too little. */
  lemma UrgentLeaves(a0: Category, a1: Category, a2: Category, a3: Category, forceLines: bool)
    requires Urgent(a0, a1, a2, a3)
    ensures var p := Match(a0, a1, a2, a3, forceLines);
            && (p.at == 0 ==> p.d <= -1 && (p.cat == a0 || p.n == 111 || (a0 == BEGIN_ARG && p.cat == EXP)) && (p.d == -1 ==> p.n == 111))
            && (p.at > 0 ==> !ShortSighted(p.n) && p.k == 2 && p.cat == At(a0, a1, a2, a3, p.at) && At(a0, a1, a2, a3, p.at + 1) == INSERT && p.at == p.d + 2)
  {
  }

  /** The cursor goes back at most three scraps before those that are replaced. */
  predicate GoesBackThree(p: Production) {
    p.NoRule? || p.at - p.d <= 3
  }

  lemma RulesGoBackThree(a0: Category, a1: Category, a2: Category, a3: Category, forceLines: bool)
    ensures GoesBackThree(Match(a0, a1, a2, a3, forceLines))
  {
    if !Urgent(a0, a1, a2, a3) {
      assert GoesBackThree(CategoryRules(a0, a1, a2, a3, forceLines));
    }
  }

  // The categories that matter in the fourth place.
  predicate Closes(x: Category) {
    x == COMMA || x == LBRACE || x == SEMI || x == RPAR || x == RBRACE || x == RPROC
  }

  predicate ThreeBack(a0: Category, p: Production) {
    !p.NoRule? && p.at == 0 && p.d >= -2 && !ShortSighted(p.n) && a0 != INSERT ==>
      && (p.cat == INSERT ==> p.d < 0) && (p.cat == a0 || !Closes(p.cat))
      && (a0 == LPAR ==> p.cat == LPAR || p.cat == EXP)
  }

  lemma RulesThreeBack(a0: Category, a1: Category, a2: Category, a3: Category, forceLines: bool)
    ensures ThreeBack(a0, CategoryRules(a0, a1, a2, a3, forceLines))
  {
  }

  predicate TwoBack(a0: Category, a1: Category, a2: Category, a3: Category, p: Production) {
    !p.NoRule? && p.at == 0 && p.d >= -1 && !ShortSighted(p.n) && a0 != INSERT ==>
      && (Completes(p.cat) || p.cat == ELSE_LIKE ==> a0 == EXP && a1 == BASE && a3 == LBRACE && p.cat == EXP && p.k == 3)
      && p.n != 42 && p.d <= 1 && (p.d == 1 ==> p.k == 2 && p.cat == FN_DECL && a2 == LBRACE)
      && a0 != COLCOL && a0 != BASE && (a0 == BINOP ==> p.cat == BINOP) && (a0 == LPAR ==> p.cat == LPAR)
  }

  lemma RulesTwoBack(a0: Category, a1: Category, a2: Category, a3: Category, forceLines: bool)
    ensures TwoBack(a0, a1, a2, a3, CategoryRules(a0, a1, a2, a3, forceLines))
  {
  }

  predicate OneBack(a0: Category, a1: Category, p: Production) {
    !p.NoRule? && p.at == 0 && p.d >= 0 && !ShortSighted(p.n) && a0 != INSERT ==>
      && LeftAtCursor(p.cat, if p.k == 1 then a1 else PADDING)
      && a0 != BINOP && a0 != UNOP && a0 != UNORBINOP && a0 != RAW_INT && a0 != STRUCT_LIKE && (a0 == LPAR ==> p.cat == LPAR)
  }

  lemma RulesOneBack(a0: Category, a1: Category, a2: Category, a3: Category, forceLines: bool)
    ensures OneBack(a0, a1, CategoryRules(a0, a1, a2, a3, forceLines))
  {
  }

  // Productions that leave the scrap at the cursor as it is.
  predicate LaterOn(a0: Category, a1: Category, a2: Category, a3: Category, p: Production) {
    !p.NoRule? && p.at > 0 ==>
      || (p.n == 8 && p.at == 1 && p.k == 3 && p.d == 0 && p.cat == BASE && a0 == EXP && a1 == BASE)
      || (p.n == 29 && p.at == 1 && p.k == 1 && p.d == 1 && p.cat == LANGLE && a0 == INT_LIKE && a1 == PRELANGLE)
      || (p.n == 42 && p.at == 1 && p.k == 2 && p.d == 0 && p.cat == DECL_HEAD && a0 == TYPEDEF_LIKE && a1 == DECL_HEAD)
      || (p.n == 102 && p.at == 1 && p.k == 2 && p.d == -1 && p.cat == INT_LIKE && a0 == BASE && a1 == PUBLIC_LIKE)
      || (p.n == 47 && p.at == 2 && p.k == 1 && p.d == -1)
  }

  lemma RulesLaterOn(a0: Category, a1: Category, a2: Category, a3: Category, forceLines: bool)
    ensures LaterOn(a0, a1, a2, a3, CategoryRules(a0, a1, a2, a3, forceLines))
  {
  }

  // ---------- the windows in front of the cursor

  predicate Near(c1: Category, c2: Category) { c1 == INSERT || c2 == INSERT }

  // The window three scraps before the cursor.
  lemma KeptThree(b3: Category, b2: Category, b1: Category, a0: Category, a1: Category, a2: Category, a3: Category, p: Production, forceLines: bool)
    requires p == Match(a0, a1, a2, a3, forceLines) && !p.NoRule? && p.at == 0 && p.d >= -2 && !ShortSighted(p.n)
    requires !Fires(b3, b2, b1, a0) && (Fires(b1, a0, a1, a2) ==> Near(a1, a2))
    requires Fires(b3, b2, b1, p.cat)
    ensures p.cat == INSERT && p.d < 0
  {
    assert a0 != INSERT;
    if Urgent(a0, a1, a2, a3) {
      UrgentLeaves(a0, a1, a2, a3, forceLines);
      FourthMatters(b3, b2, b1, a0, p.cat);
    } else {
      RulesThreeBack(a0, a1, a2, a3, forceLines);
      if p.cat != INSERT { FourthMatters(b3, b2, b1, a0, p.cat); }
      assert Fires(EXP, EXP, a1, a2);
    }
  }

  // The category behind the replaced scraps, `u` if it is out of sight.
  function Behind(a1: Category, a2: Category, a3: Category, u: Category, k: nat): Category {
    if k == 1 then a1 else if k == 2 then a2 else if k == 3 then a3 else u
  }

  /** What the rules leave, as far as the windows before the cursor are concerned. */
  predicate LeavesCalm(a0: Category, a1: Category, a2: Category, a3: Category, p: Production) {
    a0 != INSERT && ThreeBack(a0, p) && TwoBack(a0, a1, a2, a3, p) && OneBack(a0, a1, p)
  }

  // A production that moves the cursor forwards.
  lemma CalmForwards(a0: Category, a1: Category, a2: Category, a3: Category, p: Production, forceLines: bool)
    requires p == Match(a0, a1, a2, a3, forceLines) && !p.NoRule? && p.at == 0 && p.d >= 1 && !ShortSighted(p.n)
    ensures !Urgent(a0, a1, a2, a3) && LeavesCalm(a0, a1, a2, a3, p)
  {
    if Urgent(a0, a1, a2, a3) {
      UrgentLeaves(a0, a1, a2, a3, forceLines);
    } else {
      RulesThreeBack(a0, a1, a2, a3, forceLines);
      RulesTwoBack(a0, a1, a2, a3, forceLines);
      RulesOneBack(a0, a1, a2, a3, forceLines);
    }
  }

  lemma CalmOrUrgent(b1: Category, a0: Category, a1: Category, a2: Category, a3: Category, p: Production, forceLines: bool)
    requires p == Match(a0, a1, a2, a3, forceLines) && !p.NoRule? && p.at == 0 && p.d >= -1 && !ShortSighted(p.n)
    requires a0 != PADDING && (Fires(b1, a0, a1, a2) ==> Near(a1, a2))
    ensures !Near(a1, a2) && LeavesCalm(a0, a1, a2, a3, p)
  {
    assert Fires(b1, INSERT, a1, a2);
    if Urgent(a0, a1, a2, a3) {
      UrgentLeaves(a0, a1, a2, a3, forceLines);
    } else {
      RulesThreeBack(a0, a1, a2, a3, forceLines);
      RulesTwoBack(a0, a1, a2, a3, forceLines);
      RulesOneBack(a0, a1, a2, a3, forceLines);
    }
  }

  // The window two scraps before the cursor.
  lemma KeptTwo(b2: Category, b1: Category, a0: Category, a1: Category, a2: Category, a3: Category, u: Category, p: Production)
    requires !p.NoRule? && p.at == 0 && p.d >= -1 && !ShortSighted(p.n) && LeavesCalm(a0, a1, a2, a3, p)
    requires !Fires(b2, b1, a0, a1) && !Fires(b1, a0, a1, a2) && !Near(a1, a2)
    requires a0 != PADDING && Fires(b2, b1, p.cat, Behind(a1, a2, a3, u, p.k))
    ensures (p.cat == INSERT && p.d < 0) || (Behind(a1, a2, a3, u, p.k) == INSERT && p.d < 1)
  {
    var x, z := p.cat, Behind(a1, a2, a3, u, p.k);
    if x != INSERT && z != INSERT {
      ThirdMatters(b2, b1, a0, a1, x, z);
      if Completes(x) {
        FourthMatters(b2, b1, EXP, BASE, LBRACE);
      } else if b1 == RAW_INT {
        RestlessFires(b1, a0, a1, a2);
      }
    }
  }

  // The window one scrap before the cursor.
  lemma KeptOne(b1: Category, a0: Category, a1: Category, a2: Category, a3: Category, u: Category, w: Category, p: Production)
    requires !p.NoRule? && p.at == 0 && p.d >= 0 && !ShortSighted(p.n) && LeavesCalm(a0, a1, a2, a3, p)
    requires !Fires(b1, a0, a1, a2) && !Near(a1, a2)
    requires a0 != PADDING && Fires(b1, p.cat, Behind(a1, a2, a3, u, p.k), w)
    ensures (Behind(a1, a2, a3, u, p.k) == INSERT && p.d < 1) || w == INSERT
  {
    var z := Behind(a1, a2, a3, u, p.k);
    if z != INSERT && w != INSERT {
      SecondMatters(b1, p.cat, z, w);
      if Restless(b1) { RestlessFires(b1, a0, a1, a2); } else { NewAndOperator(b1, a0, a1, a2); }
    }
  }

  // ---------- a whole row of scraps

  function Peek(cats: seq<Category>, i: nat): Category {
    if i < |cats| then cats[i] else PADDING
  }

  /** Some production applies with the cursor at i. */
  predicate FiresAt(cats: seq<Category>, i: nat) {
    Fires(Peek(cats, i), Peek(cats, i + 1), Peek(cats, i + 2), Peek(cats, i + 3))
  }

  /** In the window at i there is an insertion that the cursor at pp has not reached. */
  predicate Waits(cats: seq<Category>, pp: nat, i: nat) {
    exists x :: pp < x <= i + 3 && x < |cats| && cats[x] == INSERT
  }

  /** Nothing applies before the cursor but what waits for an insertion, which the cursor
      has in sight. */
  predicate Tidy(cats: seq<Category>, pp: nat) {
    forall i :: 0 <= i < pp && i < |cats| && FiresAt(cats, i) ==> Waits(cats, pp, i)
  }

  /** The same for the window at i alone. */
  predicate TidyAt(cats: seq<Category>, pp: nat, i: nat) {
    FiresAt(cats, i) ==> Waits(cats, pp, i)
  }

  predicate Chosen(cats: seq<Category>, pp: nat, p: Production, forceLines: bool) {
    && pp < |cats| && PADDING !in cats
    && p == Match(Peek(cats, pp), Peek(cats, pp + 1), Peek(cats, pp + 2), Peek(cats, pp + 3), forceLines)
    && !p.NoRule? && 1 <= p.k && pp + p.at + p.k <= |cats|
  }

  /** `now` comes of p at the cursor: some expressions behind may have become type names. */
  predicate After(cats: seq<Category>, pp: nat, p: Production, now: seq<Category>)
    requires !p.NoRule? && 1 <= p.k && pp + p.at + p.k <= |cats|
  {
    var q := pp + p.at;
    && |now| == |cats| - p.k + 1 && now[q] == p.cat
    && (forall x :: 0 <= x < q ==> now[x] == cats[x])
    && (forall x :: q < x < |now| ==> now[x] == cats[x + p.k - 1] || (ReservedAt(p) > 0 && cats[x + p.k - 1] == EXP && now[x] == RAW_INT))
  }

  lemma AfterPeek(cats: seq<Category>, pp: nat, p: Production, now: seq<Category>, x: nat)
    requires !p.NoRule? && 1 <= p.k && pp + p.at + p.k <= |cats| && After(cats, pp, p, now)
    ensures x < pp + p.at ==> Peek(now, x) == Peek(cats, x)
    ensures x == pp + p.at ==> Peek(now, x) == p.cat
    ensures x > pp + p.at && ReservedAt(p) == 0 ==> Peek(now, x) == Peek(cats, x + p.k - 1)
  {
  }

  lemma WaitsAt(cats: seq<Category>, pp: nat, i: nat, x: nat)
    requires pp < x <= i + 3 && Peek(cats, x) == INSERT
    ensures Waits(cats, pp, i)
  {
  }

  // What is known of the windows before the cursor.
  lemma TidyBefore(cats: seq<Category>, pp: nat, i: nat)
    requires TidyAt(cats, pp, i) && i < pp < |cats| && FiresAt(cats, i)
    ensures i + 2 >= pp && ((i + 2 >= pp && Peek(cats, pp + 1) == INSERT) || (i + 1 == pp && Peek(cats, pp + 2) == INSERT))
  {
    var x :| pp < x <= i + 3 && x < |cats| && cats[x] == INSERT;
  }

  /** What the step lemmas share. */
  predicate Fired(cats: seq<Category>, pp: nat, p: Production, now: seq<Category>, forceLines: bool) {
    Chosen(cats, pp, p, forceLines) && After(cats, pp, p, now) && !ShortSighted(p.n)
  }

  /** The window directly before the cursor is tidy, and so is the one at i. */
  predicate TidyNear(cats: seq<Category>, pp: nat, i: nat) {
    (i < pp ==> TidyAt(cats, pp, i)) && (0 < pp ==> TidyAt(cats, pp, pp - 1))
  }

  lemma ThreeBefore(cats: seq<Category>, pp: nat, p: Production, now: seq<Category>, i: nat, forceLines: bool)
    requires Fired(cats, pp, p, now, forceLines) && TidyNear(cats, pp, i) && p.at == 0 && i + 3 == pp && i < Moved(pp, p.d) && FiresAt(now, i)
    ensures Waits(now, Moved(pp, p.d), i)
  {
    if FiresAt(cats, i) { TidyBefore(cats, pp, i); }
    if FiresAt(cats, pp - 1) { TidyBefore(cats, pp, pp - 1); }
    KeptThree(cats[i], cats[i+1], cats[i+2], cats[pp], Peek(cats, pp + 1), Peek(cats, pp + 2), Peek(cats, pp + 3), p, forceLines);
    WaitsAt(now, Moved(pp, p.d), i, pp);
  }

  /** The same without the table: what is known of p is what rules leave that are not urgent. */
  predicate Calm(cats: seq<Category>, pp: nat, p: Production, now: seq<Category>) {
    && pp < |cats| && PADDING !in cats && !p.NoRule? && p.at == 0 && 1 <= p.k && pp + p.k <= |cats|
    && After(cats, pp, p, now) && !ShortSighted(p.n) && (0 < pp ==> TidyAt(cats, pp, pp - 1))
    && LeavesCalm(cats[pp], Peek(cats, pp + 1), Peek(cats, pp + 2), Peek(cats, pp + 3), p)
    && !Near(Peek(cats, pp + 1), Peek(cats, pp + 2)) && Peek(cats, pp + 3) != INSERT
  }

  lemma FiredIsCalm(cats: seq<Category>, pp: nat, p: Production, now: seq<Category>, forceLines: bool)
    requires Fired(cats, pp, p, now, forceLines) && p.at == 0 && p.d >= -1
    requires pp > 0 && TidyAt(cats, pp, pp - 1)
    ensures Calm(cats, pp, p, now)
  {
    if FiresAt(cats, pp - 1) { TidyBefore(cats, pp, pp - 1); }
    CalmOrUrgent(cats[pp-1], cats[pp], Peek(cats, pp + 1), Peek(cats, pp + 2), Peek(cats, pp + 3), p, forceLines);
  }

  lemma TwoBefore(cats: seq<Category>, pp: nat, p: Production, now: seq<Category>, i: nat)
    requires Calm(cats, pp, p, now) && TidyAt(cats, pp, i) && i + 2 == pp && i < Moved(pp, p.d) && FiresAt(now, i)
    ensures Waits(now, Moved(pp, p.d), i)
  {
    var a1, a2, a3, u := Peek(cats, pp + 1), Peek(cats, pp + 2), Peek(cats, pp + 3), Peek(cats, pp + p.k);
    if FiresAt(cats, i) { TidyBefore(cats, pp, i); }
    if FiresAt(cats, pp - 1) { TidyBefore(cats, pp, pp - 1); }
    AfterPeek(cats, pp, p, now, pp + 1);
    assert Peek(now, pp + 1) == Behind(a1, a2, a3, u, p.k);
    assert Peek(now, i) == cats[i] && Peek(now, i + 1) == cats[i+1] && Peek(now, pp) == p.cat;
    KeptTwo(cats[i], cats[i+1], cats[pp], a1, a2, a3, u, p);
    if p.cat == INSERT && p.d < 0 { WaitsAt(now, Moved(pp, p.d), i, pp); } else { WaitsAt(now, Moved(pp, p.d), i, pp + 1); }
  }

  lemma OneBefore(cats: seq<Category>, pp: nat, p: Production, now: seq<Category>, i: nat)
    requires Calm(cats, pp, p, now) && i + 1 == pp && i < Moved(pp, p.d) && FiresAt(now, i)
    ensures Waits(now, Moved(pp, p.d), i)
  {
    var a1, a2, a3, u := Peek(cats, pp + 1), Peek(cats, pp + 2), Peek(cats, pp + 3), Peek(cats, pp + p.k);
    if FiresAt(cats, i) { TidyBefore(cats, pp, i); }
    AfterPeek(cats, pp, p, now, pp + 1);
    assert Peek(now, pp + 1) == Behind(a1, a2, a3, u, p.k);
    assert Peek(now, i) == cats[i] && Peek(now, pp) == p.cat;
    KeptOne(cats[i], cats[pp], a1, a2, a3, u, Peek(now, pp + 2), p);
    if Peek(now, pp + 2) == INSERT { WaitsAt(now, Moved(pp, p.d), i, pp + 2); } else { WaitsAt(now, Moved(pp, p.d), i, pp + 1); }
  }

  // Production 31 alone moves the cursor past the scrap it makes.
  lemma AtCursor(cats: seq<Category>, pp: nat, p: Production, now: seq<Category>)
    requires Calm(cats, pp, p, now) && pp < Moved(pp, p.d) && FiresAt(now, pp)
    ensures Waits(now, Moved(pp, p.d), pp)
  {
    AfterPeek(cats, pp, p, now, pp + 1);
    AfterPeek(cats, pp, p, now, pp + 2);
    assert Fires(FN_DECL, LBRACE, Peek(now, pp + 2), Peek(now, pp + 3));
    WaitsAt(now, Moved(pp, p.d), pp, pp + 3);
  }

  // ---------- productions that begin behind the cursor

  // Windows that a production at least one scrap behind the cursor leaves in sight.
  lemma LaterUrgent(cats: seq<Category>, pp: nat, p: Production, now: seq<Category>, i: nat, forceLines: bool)
    requires Fired(cats, pp, p, now, forceLines) && (i < pp ==> TidyAt(cats, pp, i)) && p.at > 0 && i < Moved(pp, p.d)
    requires Urgent(cats[pp], Peek(cats, pp + 1), Peek(cats, pp + 2), Peek(cats, pp + 3))
    ensures !FiresAt(now, i)
  {
    var a0, a1, a2, a3 := cats[pp], Peek(cats, pp + 1), Peek(cats, pp + 2), Peek(cats, pp + 3);
    UrgentLeaves(a0, a1, a2, a3, forceLines);
    assert i + 3 <= pp + p.at;
    AfterPeek(cats, pp, p, now, i + 3);
    assert Peek(now, i + 3) == Peek(cats, i + 3) && Peek(now, i) == Peek(cats, i) && Peek(now, i + 1) == Peek(cats, i + 1) && Peek(now, i + 2) == Peek(cats, i + 2);
    if FiresAt(cats, i) { TidyBefore(cats, pp, i); }
  }

  lemma LaterCalm(cats: seq<Category>, pp: nat, p: Production, now: seq<Category>, i: nat)
    requires pp < |cats| && !p.NoRule? && 1 <= p.k && pp + p.at + p.k <= |cats| && After(cats, pp, p, now) && p.at > 0
    requires var a1, a2, a3 := Peek(cats, pp + 1), Peek(cats, pp + 2), Peek(cats, pp + 3);
             !Urgent(cats[pp], a1, a2, a3) && LaterOn(cats[pp], a1, a2, a3, p)
    requires i < Moved(pp, p.d) && FiresAt(now, i) && (i < pp ==> !FiresAt(cats, i))
    ensures Waits(now, Moved(pp, p.d), i)
  {
    var q := pp + p.at;
    AfterPeek(cats, pp, p, now, i);
    AfterPeek(cats, pp, p, now, i + 1);
    AfterPeek(cats, pp, p, now, i + 2);
    AfterPeek(cats, pp, p, now, i + 3);
    if i + 3 == q {
      FourthMatters(Peek(cats, i), Peek(cats, i + 1), Peek(cats, i + 2), Peek(cats, i + 3), p.cat);
    } else if i + 2 == q {
      if Peek(now, i + 3) == INSERT {
        WaitsAt(now, Moved(pp, p.d), i, i + 3);
      } else {
        ThirdMatters(Peek(cats, i), Peek(cats, i + 1), Peek(cats, i + 2), Peek(cats, i + 3), p.cat, Peek(now, i + 3));
      }
    }
  }

  // ---------- the theorem

  /** A production that is not short-sighted leaves nothing behind the cursor that it
      could have taken, but for what waits for an insertion. */
  lemma StepTidy(cats: seq<Category>, pp: nat, p: Production, now: seq<Category>, forceLines: bool)
    requires Fired(cats, pp, p, now, forceLines) && Tidy(cats, pp)
    ensures Tidy(now, Moved(pp, p.d))
  {
    forall i | 0 <= i < Moved(pp, p.d) && i < |now| && FiresAt(now, i)
      ensures Waits(now, Moved(pp, p.d), i)
    {
      StepTidyAt(cats, pp, p, now, i, forceLines);
    }
  }

  /** The same for the window at i alone. */
  lemma StepTidyAt(cats: seq<Category>, pp: nat, p: Production, now: seq<Category>, i: nat, forceLines: bool)
    requires Fired(cats, pp, p, now, forceLines) && TidyNear(cats, pp, i) && i < Moved(pp, p.d) && FiresAt(now, i)
    ensures Waits(now, Moved(pp, p.d), i)
  {
    if p.at == 0 { StepTidyHere(cats, pp, p, now, i, forceLines); } else { StepTidyLater(cats, pp, p, now, i, forceLines); }
  }

  lemma StepTidyLater(cats: seq<Category>, pp: nat, p: Production, now: seq<Category>, i: nat, forceLines: bool)
    requires Fired(cats, pp, p, now, forceLines) && (i < pp ==> TidyAt(cats, pp, i)) && p.at > 0 && i < Moved(pp, p.d) && FiresAt(now, i)
    ensures Waits(now, Moved(pp, p.d), i)
  {
    var a0, a1, a2, a3 := cats[pp], Peek(cats, pp + 1), Peek(cats, pp + 2), Peek(cats, pp + 3);
    if Urgent(a0, a1, a2, a3) {
      LaterUrgent(cats, pp, p, now, i, forceLines);
    } else {
      if i < pp && FiresAt(cats, i) { TidyBefore(cats, pp, i); }
      RulesLaterOn(a0, a1, a2, a3, forceLines);
      LaterCalm(cats, pp, p, now, i);
    }
  }

  lemma StepTidyHere(cats: seq<Category>, pp: nat, p: Production, now: seq<Category>, i: nat, forceLines: bool)
    requires Fired(cats, pp, p, now, forceLines) && TidyNear(cats, pp, i) && p.at == 0 && i < Moved(pp, p.d) && FiresAt(now, i)
    ensures Waits(now, Moved(pp, p.d), i)
  {
    if i + 3 < pp {
      assert Peek(now, i) == Peek(cats, i) && Peek(now, i + 1) == Peek(cats, i + 1) && Peek(now, i + 2) == Peek(cats, i + 2) && Peek(now, i + 3) == Peek(cats, i + 3);
      TidyBefore(cats, pp, i);
    } else if i + 3 == pp {
      ThreeBefore(cats, pp, p, now, i, forceLines);
    } else if i < pp {
      FiredIsCalm(cats, pp, p, now, forceLines);
      if i + 2 == pp { TwoBefore(cats, pp, p, now, i); } else { OneBefore(cats, pp, p, now, i); }
    } else {
      CalmForwards(cats[pp], Peek(cats, pp + 1), Peek(cats, pp + 2), Peek(cats, pp + 3), p, forceLines);
      AtCursor(cats, pp, p, now);
    }
  }

  /** Where no production applies the cursor moves on, and nothing waits. */
  lemma MoveOnTidy(cats: seq<Category>, pp: nat)
    requires Tidy(cats, pp) && pp < |cats| && !FiresAt(cats, pp)
    ensures Tidy(cats, pp + 1)
  {
    forall i | 0 <= i < pp
      ensures !FiresAt(cats, i)
    {
      if FiresAt(cats, i) { TidyBefore(cats, pp, i); }
    }
  }

  /** At the end nothing can wait any more. */
  lemma TidyEnd(cats: seq<Category>, i: nat)
    requires Tidy(cats, |cats|) && i < |cats|
    ensures !FiresAt(cats, i)
  {
  }

  // ---------- the short-sighted productions

  /** The scraps and the cursor before a production of rule n that leaves something behind. */
  function Context(n: nat): (seq<Category>, nat) {
    if n == 7 then ([TAG, EXP, COLON], 1)
    else if n == 13 then ([TYPEDEF_LIKE, DECL_HEAD, EXP, LPAR, DECL_HEAD, RPAR], 3)
    else if n == 44 then ([NEW_LIKE, STRUCT_LIKE, LBRACE], 1)
    else if n == 45 then ([NEW_LIKE, STRUCT_LIKE, EXP, SEMI], 1)
    else if n == 46 then ([NEW_LIKE, STRUCT_LIKE, EXP, LBRACE], 1)
    else if n == 63 then ([LPROC, IF_CLAUSE, STMT, ELSE_LIKE, IF_LIKE], 1)
    else if n == 64 then ([LPROC, IF_CLAUSE, STMT, ELSE_LIKE], 1)
    else if n == 65 then ([LPROC, IF_CLAUSE, STMT], 1)
    else if n == 66 then ([LPROC, IF_HEAD, STMT, ELSE_LIKE, IF_LIKE], 1)
    else if n == 67 then ([LPROC, IF_HEAD, STMT, ELSE_LIKE], 1)
    else if n == 101 then ([EXP, BASE, PUBLIC_LIKE, EXP, COMMA, INT_LIKE, COMMA], 1)
    else ([DECL_HEAD, EXP, LPAR, END_ARG], 2)
  }

  /** Production p at the cursor leaves something behind that it could have taken. */
  predicate FallsShort(cats: seq<Category>, pp: nat, p: Production, now: seq<Category>, forceLines: bool) {
    Chosen(cats, pp, p, forceLines) && After(cats, pp, p, now) && Tidy(cats, pp) && !Tidy(now, Moved(pp, p.d))
  }

  function Chooses(cats: seq<Category>, pp: nat, forceLines: bool): Production {
    Match(Peek(cats, pp), Peek(cats, pp + 1), Peek(cats, pp + 2), Peek(cats, pp + 3), forceLines)
  }

  /** The scraps after p, if it turns no expression into a type name. */
  function Replaced(cats: seq<Category>, pp: nat, p: Production): seq<Category>
    requires !p.NoRule? && pp + p.at + p.k <= |cats|
  {
    cats[..pp + p.at] + [p.cat] + cats[pp + p.at + p.k..]
  }

  lemma FirstIsLeft(cats: seq<Category>, pp: nat, p: Production, now: seq<Category>, forceLines: bool)
    requires Chosen(cats, pp, p, forceLines) && now == Replaced(cats, pp, p)
    requires forall i :: 0 <= i < pp ==> !FiresAt(cats, i)
    requires 0 < Moved(pp, p.d) && FiresAt(now, 0) && forall x :: 0 < x <= 3 && x < |now| ==> now[x] != INSERT
    ensures FallsShort(cats, pp, p, now, forceLines)
  {
    ReplacedIsAfter(cats, pp, p);
    NothingWaits(now, Moved(pp, p.d));
  }

  lemma ReplacedIsAfter(cats: seq<Category>, pp: nat, p: Production)
    requires !p.NoRule? && 1 <= p.k && pp + p.at + p.k <= |cats|
    ensures After(cats, pp, p, Replaced(cats, pp, p))
  {
  }

  lemma NothingWaits(cats: seq<Category>, pp: nat)
    requires 0 < pp && cats != [] && FiresAt(cats, 0) && forall x :: 0 < x <= 3 && x < |cats| ==> cats[x] != INSERT
    ensures !Tidy(cats, pp)
  {
    assert !Waits(cats, pp, 0);
  }

  // The production in its context leaves the first window behind.
  predicate LeavesFirst(n: nat, forceLines: bool) {
    var (cats, pp) := Context(n);
    var p := Chooses(cats, pp, forceLines);
    && Chosen(cats, pp, p, forceLines) && p.n == n && 0 < Moved(pp, p.d)
    && (forall i :: 0 <= i < pp ==> !FiresAt(cats, i))
    && FiresAt(Replaced(cats, pp, p), 0) && INSERT !in Replaced(cats, pp, p)
  }

  lemma LeavesTag(forceLines: bool)
    ensures LeavesFirst(7, forceLines)
  {
  }

  lemma LeavesTypedef(forceLines: bool)
    ensures LeavesFirst(13, forceLines)
  {
    NoneBeforeTypedef();
  }

  lemma NoneBeforeTypedef()
    ensures forall i :: 0 <= i < 3 ==> !FiresAt(Context(13).0, i)
  {
  }

  lemma LeavesNew(forceLines: bool)
    ensures LeavesFirst(44, forceLines)
  {
  }

  lemma LeavesStruct(forceLines: bool)
    ensures LeavesFirst(45, forceLines)
  {
  }

  lemma LeavesStructBody(forceLines: bool)
    ensures LeavesFirst(46, forceLines)
  {
  }

  lemma LeavesElseIf(forceLines: bool)
    ensures LeavesFirst(63, forceLines)
  {
  }

  lemma LeavesElse(forceLines: bool)
    ensures LeavesFirst(64, forceLines)
  {
  }

  lemma LeavesIf(forceLines: bool)
    ensures LeavesFirst(65, forceLines)
  {
  }

  lemma LeavesHeadElseIf(forceLines: bool)
    ensures LeavesFirst(66, forceLines)
  {
  }

  lemma LeavesHeadElse(forceLines: bool)
    ensures LeavesFirst(67, forceLines)
  {
  }

  lemma LeavesBase(forceLines: bool)
    ensures LeavesFirst(101, forceLines)
  {
  }

  lemma LeavesArgument(forceLines: bool)
    ensures LeavesFirst(111, forceLines)
  {
  }

  // What a short-sighted production leaves behind in its context.
  lemma LeavesSomething(n: nat, forceLines: bool) returns (p: Production, now: seq<Category>)
    requires ShortSighted(n)
    ensures FallsShort(Context(n).0, Context(n).1, p, now, forceLines) && p.n == n
  {
    if n == 7 { LeavesTag(forceLines); }
    else if n == 13 { LeavesTypedef(forceLines); }
    else if n == 44 { LeavesNew(forceLines); }
    else if n == 45 { LeavesStruct(forceLines); }
    else if n == 46 { LeavesStructBody(forceLines); }
    else if n == 63 { LeavesElseIf(forceLines); }
    else if n == 64 { LeavesElse(forceLines); }
    else if n == 65 { LeavesIf(forceLines); }
    else if n == 66 { LeavesHeadElseIf(forceLines); }
    else if n == 67 { LeavesHeadElse(forceLines); }
    else if n == 101 { LeavesBase(forceLines); }
    else { LeavesArgument(forceLines); }
    assert LeavesFirst(n, forceLines);
    var (cats, pp) := Context(n);
    p := Chooses(cats, pp, forceLines);
    now := Replaced(cats, pp, p);
    FirstIsLeft(cats, pp, p, now, forceLines);
  }

  /** The short-sighted productions are exactly those that can leave something behind. */
  lemma ShortSightedExactly(n: nat, forceLines: bool)
    ensures ShortSighted(n) <==> exists cats: seq<Category>, pp: nat, p: Production, now: seq<Category> ::
                                   FallsShort(cats, pp, p, now, forceLines) && p.n == n
  {
    if ShortSighted(n) {
      var p, now := LeavesSomething(n, forceLines);
    }
    forall cats: seq<Category>, pp: nat, p: Production, now: seq<Category> | FallsShort(cats, pp, p, now, forceLines)
      ensures ShortSighted(p.n)
    {
      if !ShortSighted(p.n) { StepTidy(cats, pp, p, now, forceLines); }
    }
  }
}
