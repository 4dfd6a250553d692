// If clauses: what applies before them, where they come from, and what the productions 63 to
// 67 leave behind that take them (cweb/cweave.c:2606-2682, 2744-2761).

module IfClauses {
  import opened Category
  import opened Productions
  import opened Reducer
  import opened Sight

  predicate IsIf(c: Category) { c == IF_CLAUSE || c == IF_HEAD }

  // ---------- the table

  // What applies before an if clause takes a scrap by itself.
  lemma BeforeIf(b: Category, x: Category)
    requires IsIf(x) && Fires(b, x, PADDING, PADDING)
    ensures Restless(b) || b == NEW_LIKE || b == OPERATOR_LIKE
  {
  }

  lemma FiresBeforeIf(b: Category, x: Category, c2: Category, c3: Category)
    requires (Restless(b) || b == NEW_LIKE || b == OPERATOR_LIKE) && (IsIf(x) || x == IF_LIKE)
    ensures Fires(b, x, c2, c3)
  {
    if Restless(b) { RestlessFires(b, x, c2, c3); } else { NewAndOperator(b, x, c2, c3); }
  }

  // An if clause in place of another, or of IF_LIKE, admits nothing new before it.
  lemma NewIf(b3: Category, b2: Category, b1: Category, a0: Category, a1: Category, a2: Category, x: Category)
    requires IsIf(x) && (IsIf(a0) || a0 == IF_LIKE)
    ensures !Fires(b3, b2, b1, a0) ==> !Fires(b3, b2, b1, x)
    ensures !Fires(b2, b1, a0, a1) ==> !Fires(b2, b1, x, PADDING)
    ensures !Fires(b1, a0, a1, a2) ==> !Fires(b1, x, PADDING, PADDING)
  {
    if !Fires(b3, b2, b1, a0) && Fires(b3, b2, b1, x) { FourthMatters(b3, b2, b1, a0, x); }
    if !Fires(b2, b1, a0, a1) && Fires(b2, b1, x, PADDING) { ThirdMatters(b2, b1, a0, a1, x, PADDING); }
    if Fires(b1, x, PADDING, PADDING) {
      BeforeIf(b1, x);
      FiresBeforeIf(b1, a0, a1, a2);
    }
  }

  lemma DirectiveFires(a1: Category, a2: Category)
    ensures Fires(LPROC, IF_LIKE, a1, a2)
  {
  }

  // A production that replaces only what is before an if clause does not look behind it.
  lemma CutAfterIf(a0: Category, a1: Category, a2: Category, a3: Category, forceLines: bool)
    ensures var p := Match(a0, a1, a2, a3, forceLines);
            && (!p.NoRule? && IsIf(a1) && p.at + p.k <= 1 ==> Match(a0, a1, PADDING, PADDING, forceLines) == p)
            && (!p.NoRule? && IsIf(a2) && p.at + p.k <= 2 ==> Match(a0, a1, a2, PADDING, forceLines) == p)
  {
  }

  // What applies without what is behind an if clause applies with it.
  lemma CutFires(a0: Category, a1: Category, a2: Category, a3: Category)
    ensures IsIf(a1) && Fires(a0, a1, PADDING, PADDING) ==> Fires(a0, a1, a2, a3)
    ensures IsIf(a2) && Fires(a0, a1, a2, PADDING) ==> Fires(a0, a1, a2, a3)
  {
  }

  // Where if clauses come from: production 57, or an if clause in the same place, or one
  // directly behind an insertion.
  predicate ComesFromIf(a0: Category, a1: Category, a2: Category, a3: Category, p: Production)
    requires !p.NoRule?
  {
    || (p.n == 57 && p.at == 0 && p.d == 0 && p.cat == IF_CLAUSE && a0 == IF_LIKE && a1 == EXP)
    || (p.at == 0 && p.d >= -2 && IsIf(a0)) || (p.at == 1 && p.d == -1 && p.cat == a1) || (p.at == 2 && p.d == 0 && p.cat == a2)
    || (p.at == 0 && a0 == INSERT && p.cat == a1)
  }

  lemma RulesMakeIf(a0: Category, a1: Category, a2: Category, a3: Category, forceLines: bool)
    ensures var p := CategoryRules(a0, a1, a2, a3, forceLines); !p.NoRule? && IsIf(p.cat) ==> ComesFromIf(a0, a1, a2, a3, p)
  {
  }

  lemma MakesIf(a0: Category, a1: Category, a2: Category, a3: Category, p: Production, forceLines: bool)
    requires p == Match(a0, a1, a2, a3, forceLines) && !p.NoRule? && IsIf(p.cat)
    ensures ComesFromIf(a0, a1, a2, a3, p) && (p.at == 0 && a0 == IF_LIKE ==> a1 != INSERT && a2 != INSERT)
  {
    RulesMakeIf(a0, a1, a2, a3, forceLines);
  }

  // ---------- rows

  lemma AfterFront(cats: seq<Category>, pp: nat, p: Production, now: seq<Category>, z: nat)
    requires !p.NoRule? && 1 <= p.k && pp + p.at + p.k <= |cats| && After(cats, pp, p, now) && z <= pp + p.at
    ensures if z < pp + p.at then now[..z+1] == cats[..z+1] && now[z] == cats[z] else now[..z+1] == cats[..z] + [p.cat] && now[z] == p.cat
  {
  }

  lemma AfterBack(cats: seq<Category>, pp: nat, p: Production, now: seq<Category>, z: nat)
    requires !p.NoRule? && 1 <= p.k && pp + p.at + p.k <= |cats| && After(cats, pp, p, now) && pp + p.at < z < |now| && IsIf(now[z])
    ensures z + p.k - 1 < |cats| && cats[z + p.k - 1] == now[z]
  {
  }

  // ---------- what the productions of if clauses leave behind

  predicate OfIf(n: nat) { 63 <= n <= 67 }

  lemma OnlyIfs(a0: Category, a1: Category, a2: Category, a3: Category, forceLines: bool)
    ensures var p := CategoryRules(a0, a1, a2, a3, forceLines); !p.NoRule? && OfIf(p.n) ==> IsIf(a0)
  {
  }

  // What p is, if it is one of them.
  predicate IfRule(a0: Category, a1: Category, a2: Category, p: Production)
    requires !p.NoRule?
  {
    && IsIf(a0) && a1 != INSERT && a2 != INSERT && p.at == 0 && p.d == 0 && ReservedAt(p) == 0
    && p.cat == (if p.n == 63 || p.n == 66 then IF_LIKE else ELSE_LIKE) && (p.n == 65 ==> p.k == 1 && a1 == STMT)
  }

  lemma IfRules(a0: Category, a1: Category, a2: Category, a3: Category, p: Production, forceLines: bool)
    requires p == Match(a0, a1, a2, a3, forceLines) && !p.NoRule? && OfIf(p.n)
    ensures IfRule(a0, a1, a2, p)
  {
    OnlyIfs(a0, a1, a2, a3, forceLines);
    if a0 == IF_CLAUSE { assert p == IfClauseRules(a1, a2, a3); } else { assert p == IfHeadRules(a1, a2, a3); }
  }

  lemma BeforeElse(b: Category, x: Category, z: Category, w: Category)
    requires (x == IF_LIKE || x == ELSE_LIKE) && Fires(b, x, z, w) && z != INSERT && w != INSERT
    ensures Restless(b) || b == NEW_LIKE || b == OPERATOR_LIKE || b == LPROC
  {
  }

  /** The body of a do statement, and what follows it unless it is a semicolon. */
  predicate DoWhile(cats: seq<Category>, i: nat) {
    Peek(cats, i) == DO_LIKE && Peek(cats, i + 1) == STMT && Peek(cats, i + 2) == ELSE_LIKE && Peek(cats, i + 3) == SEMI
  }

  // A window before an if clause that has given way to x, with z and w behind it.
  lemma IfWindow(b3: Category, b2: Category, b1: Category, a0: Category, a1: Category, a2: Category, x: Category, z: Category, w: Category)
    requires IsIf(a0) && (x == IF_LIKE || x == ELSE_LIKE)
    ensures !Fires(b3, b2, b1, a0) ==> !Fires(b3, b2, b1, x)
    ensures !Fires(b2, b1, a0, a1) && Fires(b2, b1, x, z) && z != INSERT ==> b2 == DO_LIKE && b1 == STMT && x == ELSE_LIKE && z == SEMI
    ensures !Fires(b1, a0, a1, a2) && b1 != LPROC && z != INSERT && w != INSERT ==> !Fires(b1, x, z, w)
  {
    if !Fires(b3, b2, b1, a0) && Fires(b3, b2, b1, x) { FourthMatters(b3, b2, b1, a0, x); }
    if !Fires(b2, b1, a0, a1) && Fires(b2, b1, x, z) && z != INSERT { ThirdMatters(b2, b1, a0, a1, x, z); }
    if Fires(b1, x, z, w) && b1 != LPROC && z != INSERT && w != INSERT {
      BeforeElse(b1, x, z, w);
      FiresBeforeIf(b1, a0, a1, a2);
    }
  }

  /** Productions 63 to 67 leave nothing behind that does not wait, but for a do statement
      that its semicolon will complete, unless there is a preprocessor mark before them. */
  lemma IfLeaves(cats: seq<Category>, pp: nat, p: Production, now: seq<Category>, i: nat, forceLines: bool)
    requires Chosen(cats, pp, p, forceLines) && After(cats, pp, p, now) && OfIf(p.n) && (0 < pp ==> cats[pp-1] != LPROC)
    requires i < pp && TidyAt(cats, pp, i) && FiresAt(now, i)
    ensures p.at == 0 && p.d == 0
    ensures Waits(now, pp, i) || (DoWhile(now, i) && i + 2 == pp && (p.n == 64 || p.n == 67))
  {
    IfRules(cats[pp], Peek(cats, pp + 1), Peek(cats, pp + 2), Peek(cats, pp + 3), p, forceLines);
    if FiresAt(cats, i) { TidyBefore(cats, pp, i); }
    IfLeavesWindow(cats, pp, p, now, i);
  }

  lemma IfLeavesWindow(cats: seq<Category>, pp: nat, p: Production, now: seq<Category>, i: nat)
    requires pp < |cats| && !p.NoRule? && p.at == 0 && 1 <= p.k && pp + p.k <= |cats| && After(cats, pp, p, now)
    requires IfRule(cats[pp], Peek(cats, pp + 1), Peek(cats, pp + 2), p) && OfIf(p.n)
    requires i < pp && FiresAt(now, i) && !FiresAt(cats, i) && cats[pp-1] != LPROC
    ensures Waits(now, pp, i) || (DoWhile(now, i) && i + 2 == pp && (p.n == 64 || p.n == 67))
  {
    if i + 3 < pp {
      SameWindow(cats, pp, p, now, i);
    } else if Peek(now, pp + 1) == INSERT && i + 2 >= pp {
      WaitsAt(now, pp, i, pp + 1);
    } else if Peek(now, pp + 2) == INSERT && i + 1 == pp {
      WaitsAt(now, pp, i, pp + 2);
    } else {
      IfWindowAt(cats, pp, p, now, i);
      AfterPeek(cats, pp, p, now, pp + 1);
    }
  }

  // The three windows that see the scrap at the cursor.
  lemma IfWindowAt(cats: seq<Category>, pp: nat, p: Production, now: seq<Category>, i: nat)
    requires !p.NoRule? && p.at == 0 && 1 <= p.k && pp + p.k <= |cats| && After(cats, pp, p, now) && i < pp <= i + 3 && FiresAt(now, i)
    requires IsIf(cats[pp]) && (p.cat == IF_LIKE || p.cat == ELSE_LIKE) && !FiresAt(cats, i) && cats[pp-1] != LPROC
    requires (i + 2 >= pp ==> Peek(now, pp + 1) != INSERT) && (i + 1 == pp ==> Peek(now, pp + 2) != INSERT)
    ensures i + 2 == pp && DoWhile(now, i) && p.cat == ELSE_LIKE && Peek(now, pp + 1) == SEMI
  {
    var a0, a1, a2, x, z, w := cats[pp], Peek(cats, pp + 1), Peek(cats, pp + 2), p.cat, Peek(now, pp + 1), Peek(now, pp + 2);
    if i + 3 == pp {
      IfWindow(cats[i], cats[i+1], cats[i+2], a0, a1, a2, x, z, w);
    } else if i + 2 == pp {
      IfWindow(cats[i], cats[i], cats[i+1], a0, a1, a2, x, z, w);
    } else {
      IfWindow(cats[i], cats[i], cats[i], a0, a1, a2, x, z, w);
    }
  }

  lemma SameWindow(cats: seq<Category>, pp: nat, p: Production, now: seq<Category>, i: nat)
    requires !p.NoRule? && 1 <= p.k && pp + p.at + p.k <= |cats| && After(cats, pp, p, now) && i + 3 < pp + p.at
    ensures FiresAt(now, i) <==> FiresAt(cats, i)
  {
    assert Peek(now, i) == Peek(cats, i) && Peek(now, i + 1) == Peek(cats, i + 1) && Peek(now, i + 2) == Peek(cats, i + 2) && Peek(now, i + 3) == Peek(cats, i + 3);
  }
}
