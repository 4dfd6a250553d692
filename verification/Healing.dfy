// What is left behind the cursor. Whatever applies there waits for something just ahead that
// will be taken, but for three pairs of scraps that stay apart: two tags, `new` and the head
// of a structure, and an expression and its base classes (cweb/cweave.c:2249-2293,
// 2295-2942).

module Healing {
  import opened Category
  import opened Productions
  import opened Reducer
  import opened Sight
  import opened IfClauses

  /** Two scraps that productions would have joined, had the cursor been on the first. */
  predicate Apart(cats: seq<Category>, i: nat) {
    var b, c := Peek(cats, i), Peek(cats, i + 1);
    (b == TAG && c == TAG) || (b == NEW_LIKE && c == STRUCT_HEAD) || (b == EXP && c == BASE)
  }

  /** The production at the cursor takes the end of an argument. */
  predicate TakesEnd(cats: seq<Category>, pp: nat) {
    Peek(cats, pp + 1) == END_ARG && LhsNotSimple(Peek(cats, pp))
  }

  /** At the cursor a declarator and a cast behind `typedef`. */
  predicate TakesCast(cats: seq<Category>, pp: nat) {
    && 0 < pp && Peek(cats, pp - 1) == TYPEDEF_LIKE && Peek(cats, pp) == DECL_HEAD
    && Peek(cats, pp + 1) == EXP && Peek(cats, pp + 2) == CAST
  }

  /** At the cursor the end of a declaration. */
  predicate TakesDeclaration(cats: seq<Category>, pp: nat) {
    Peek(cats, pp) == DECL_HEAD && Peek(cats, pp + 1) == SEMI
  }

  /** The window at i, before the cursor, waits for something ahead that will be taken, or
      stays as it is. */
  predicate Heals(cats: seq<Category>, pp: nat, i: nat) {
    || Apart(cats, i)
    || Waits(cats, pp, i)
    || (DoWhile(cats, i) && pp <= i + 3)
    || (TakesEnd(cats, pp) && pp <= i + 2)
    || (TakesCast(cats, pp) && pp == i + 1)
    || (TakesDeclaration(cats, pp) && pp == i + 1)
  }

  predicate AllHeal(cats: seq<Category>, pp: nat) {
    forall i :: 0 <= i < pp && i < |cats| && FiresAt(cats, i) ==> Heals(cats, pp, i)
  }

  lemma HealsNear(cats: seq<Category>, pp: nat, i: nat)
    requires AllHeal(cats, pp) && i < pp && i < |cats| && FiresAt(cats, i) && !Apart(cats, i)
    ensures pp <= i + 3 && (pp == i + 3 ==> DoWhile(cats, i))
    ensures pp == i + 2 ==> Peek(cats, pp + 1) == INSERT || DoWhile(cats, i) || TakesEnd(cats, pp)
  {
    if Waits(cats, pp, i) {
      var x :| pp < x <= i + 3 && x < |cats| && cats[x] == INSERT;
    }
  }

  // A pair before the scraps that a production replaces stays as it is.
  lemma StaysApart(cats: seq<Category>, pp: nat, p: Production, now: seq<Category>, i: nat)
    requires !p.NoRule? && 1 <= p.k && pp + p.at + p.k <= |cats| && After(cats, pp, p, now) && i + 1 < pp + p.at
    ensures Apart(now, i) <==> Apart(cats, i)
  {
  }

  /** Of the scraps before the cursor none is one that the end of an argument leaves alone. */
  predicate NoneSimple(cats: seq<Category>, pp: nat) {
    forall j :: 0 <= j < pp && j < |cats| ==> LhsNotSimple(cats[j])
  }

  // ---------- the cursor moves on

  lemma SimpleFires(a0: Category, a1: Category, a2: Category, a3: Category)
    requires !LhsNotSimple(a0)
    ensures Fires(a0, a1, a2, a3)
  {
  }

  lemma AheadFires(a0: Category, a1: Category, a2: Category, a3: Category)
    requires (LhsNotSimple(a0) && a1 == END_ARG) || a1 == INSERT || a2 == INSERT || a0 == SEMI
          || (a0 == DECL_HEAD && a1 == EXP && a2 == CAST) || (a0 == DECL_HEAD && a1 == SEMI)
    ensures Fires(a0, a1, a2, a3)
  {
  }

  lemma MoveOnHeals(cats: seq<Category>, pp: nat)
    requires AllHeal(cats, pp) && NoneSimple(cats, pp) && pp < |cats| && !FiresAt(cats, pp)
    ensures AllHeal(cats, pp + 1) && NoneSimple(cats, pp + 1)
  {
    var a0, a1, a2, a3 := Peek(cats, pp), Peek(cats, pp + 1), Peek(cats, pp + 2), Peek(cats, pp + 3);
    if !LhsNotSimple(a0) { SimpleFires(a0, a1, a2, a3); }
    forall i | 0 <= i < pp + 1 && i < |cats| && FiresAt(cats, i)
      ensures Heals(cats, pp + 1, i)
    {
      MovedPast(cats, pp, i);
    }
  }

  // What waits goes on waiting.
  lemma MovedPast(cats: seq<Category>, pp: nat, i: nat)
    requires AllHeal(cats, pp) && pp < |cats| && !FiresAt(cats, pp) && i <= pp && FiresAt(cats, i)
    ensures i < pp && (Apart(cats, i) || (DoWhile(cats, i) && pp + 1 <= i + 3))
  {
    var a0, a1, a2, a3 := Peek(cats, pp), Peek(cats, pp + 1), Peek(cats, pp + 2), Peek(cats, pp + 3);
    assert Heals(cats, pp, i);
    if Apart(cats, i) {
    } else if Waits(cats, pp, i) {
      var x :| pp < x <= i + 3 && x < |cats| && cats[x] == INSERT;
      AheadFires(a0, a1, a2, a3);
    } else if !DoWhile(cats, i) || pp == i + 3 {
      AheadFires(a0, a1, a2, a3);
    }
  }

  // ---------- insertions

  /** The scrap at q takes up the insertion behind it. */
  predicate TakesInsertion(cats: seq<Category>, pp: nat, p: Production) {
    && !p.NoRule? && p.k == 2 && p.d == p.at - 2 && p.at <= 2 && pp + p.at + 1 < |cats| && p.cat == cats[pp + p.at]
    && cats[pp + p.at + 1] == INSERT
  }

  lemma InsertionHeals(cats: seq<Category>, pp: nat, p: Production, now: seq<Category>)
    requires pp < |cats| && TakesInsertion(cats, pp, p) && After(cats, pp, p, now) && AllHeal(cats, pp) && !TakesEnd(cats, pp)
    ensures AllHeal(now, Moved(pp, p.d))
  {
    forall i | 0 <= i < Moved(pp, p.d) && i < |now| && FiresAt(now, i)
      ensures Heals(now, Moved(pp, p.d), i)
    {
      InsertionHealsAt(cats, pp, p, now, i);
    }
  }

  lemma InsertionHealsAt(cats: seq<Category>, pp: nat, p: Production, now: seq<Category>, i: nat)
    requires pp < |cats| && TakesInsertion(cats, pp, p) && After(cats, pp, p, now) && AllHeal(cats, pp) && !TakesEnd(cats, pp)
    requires i < Moved(pp, p.d) && i < |now| && FiresAt(now, i)
    ensures Heals(now, Moved(pp, p.d), i)
  {
    var q := pp + p.at;
    assert forall x: nat :: x <= q ==> Peek(now, x) == Peek(cats, x);
    assert i + 3 <= q && FiresAt(cats, i) && Heals(cats, pp, i);
    if Apart(cats, i) {
      StaysApart(cats, pp, p, now, i);
    } else if Waits(cats, pp, i) {
      var x :| pp < x <= i + 3 && x < |cats| && cats[x] == INSERT;
      WaitsAt(now, Moved(pp, p.d), i, x);
    }
  }

  // ---------- the end of an argument

  lemma EndHeals(cats: seq<Category>, pp: nat, p: Production, now: seq<Category>, forceLines: bool)
    requires Chosen(cats, pp, p, forceLines) && After(cats, pp, p, now) && AllHeal(cats, pp) && NoneSimple(cats, pp) && TakesEnd(cats, pp)
    ensures AllHeal(now, Moved(pp, p.d))
  {
    forall i | 0 <= i < Moved(pp, p.d) && i < |now| && FiresAt(now, i)
      ensures Heals(now, Moved(pp, p.d), i)
    {
      if i + 1 < pp { StaysApart(cats, pp, p, now, i); }
      if FiresAt(cats, i) && !Apart(cats, i) { HealsNear(cats, pp, i); }
      if Apart(cats, i) {
      } else if i + 3 < pp {
        SameWindow(cats, pp, p, now, i);
      } else if cats[pp] == BEGIN_ARG {
        FourthMatters(cats[i], cats[i+1], cats[i+2], BEGIN_ARG, EXP);
      } else {
        assert TakesEnd(now, pp - 1);
      }
    }
  }

  // ---------- what waits for its semicolon

  lemma SemicolonHeals(cats: seq<Category>, pp: nat, p: Production, now: seq<Category>)
    requires pp < |cats| && p.Reduce? && p.at == 0 && p.k == 1 && p.cat == STMT && p.d == -1 && ReservedAt(p) == 0 && After(cats, pp, p, now)
    requires AllHeal(cats, pp) && 3 <= pp && DoWhile(cats, pp - 3) && Peek(cats, pp + 1) != INSERT
    ensures AllHeal(now, Moved(pp, p.d))
  {
    forall i | 0 <= i < Moved(pp, p.d) && i < |now| && FiresAt(now, i)
      ensures Heals(now, Moved(pp, p.d), i)
    {
      AfterPeek(cats, pp, p, now, pp + 1);
      StaysApart(cats, pp, p, now, i);
      if Apart(cats, i) {
      } else if i + 3 < pp {
        SameWindow(cats, pp, p, now, i);
        HealsNear(cats, pp, i);
      } else {
        BodyRests(Peek(cats, pp + 1));
      }
    }
  }

  lemma BodyRests(x: Category)
    requires x != INSERT
    ensures !Fires(DO_LIKE, STMT, ELSE_LIKE, STMT) && !Fires(STMT, ELSE_LIKE, STMT, x)
  {
  }

  // A declarator takes the expression before a cast.
  lemma CastHeals(cats: seq<Category>, pp: nat, p: Production, now: seq<Category>)
    requires pp < |cats| && p.Squash? && p.at == 0 && p.k == 2 && pp + 2 <= |cats| && p.cat == DECL_HEAD && p.d == -1 && After(cats, pp, p, now)
    requires AllHeal(cats, pp) && TakesCast(cats, pp)
    ensures AllHeal(now, Moved(pp, p.d))
  {
    forall i | 0 <= i < Moved(pp, p.d) && i < |now| && FiresAt(now, i)
      ensures Heals(now, Moved(pp, p.d), i)
    {
      StaysApart(cats, pp, p, now, i);
      if FiresAt(cats, i) && !Apart(cats, i) { HealsNear(cats, pp, i); }
      if Apart(cats, i) {
      } else if i + 2 == pp {
        TypedefRests(cats[i], CAST);
      }
    }
  }

  lemma TypedefRests(b: Category, x: Category)
    requires x != INSERT && Fires(b, TYPEDEF_LIKE, DECL_HEAD, x)
    ensures Fires(b, TYPEDEF_LIKE, DECL_HEAD, EXP)
  {
  }

  // A declarator and its semicolon become a declaration.
  lemma DeclarationHeals(cats: seq<Category>, pp: nat, p: Production, now: seq<Category>)
    requires pp < |cats| && p.Squash? && p.at == 0 && p.k == 2 && pp + 2 <= |cats| && p.cat == DECL && p.d == -1 && After(cats, pp, p, now)
    requires AllHeal(cats, pp) && TakesDeclaration(cats, pp)
    ensures AllHeal(now, Moved(pp, p.d))
  {
    forall i | 0 <= i < Moved(pp, p.d) && i < |now| && FiresAt(now, i)
      ensures Heals(now, Moved(pp, p.d), i)
    {
      StaysApart(cats, pp, p, now, i);
      if FiresAt(cats, i) && !Apart(cats, i) { HealsNear(cats, pp, i); }
      var z := Peek(now, pp + 1);
      if Apart(cats, i) {
      } else if i + 3 < pp {
        SameWindow(cats, pp, p, now, i);
      } else if i + 3 == pp {
        FourthMatters(cats[i], cats[i+1], cats[i+2], DECL_HEAD, DECL);
      } else if z == INSERT {
        WaitsAt(now, pp - 1, i, pp + 1);
      } else {
        ThirdMatters(cats[i], cats[i+1], DECL_HEAD, SEMI, DECL, z);
      }
    }
  }

  // ---------- where nothing is taken at the cursor

  /** What applies before the cursor waits for an insertion or stays as it is. */
  predicate Loose(cats: seq<Category>, pp: nat) {
    forall i {:trigger TidyAt(cats, pp, i)} :: 0 <= i < pp && i < |cats| && !Apart(cats, i) ==> TidyAt(cats, pp, i)
  }

  /** The new row is to heal at i; what is known of the old one there. */
  lemma LooseAt(cats: seq<Category>, pp: nat, p: Production, now: seq<Category>, i: nat)
    requires !p.NoRule? && 1 <= p.k && pp + p.at + p.k <= |cats| && After(cats, pp, p, now) && Loose(cats, pp)
    requires i < pp && (i + 1 < pp + p.at || !Apart(cats, i))
    ensures Apart(now, i) || TidyAt(cats, pp, i)
  {
    if Apart(cats, i) { StaysApart(cats, pp, p, now, i); } else { assert TidyAt(cats, pp, i); }
  }

  // ---------- the short-sighted productions

  // What they are, but for those of if clauses.
  predicate ShortRule(a0: Category, a1: Category, a2: Category, p: Production)
    requires !p.NoRule?
  {
    && (p.n == 7 ==> a0 == EXP && a1 == COLON && p.at == 0 && p.k == 2 && p.cat == TAG && p.d == 0)
    && (p.n == 101 ==> a0 == BASE && a1 == PUBLIC_LIKE && a2 == EXP && p.at == 0 && p.k == 4 && p.cat == BASE && p.d == 0)
    && (p.n == 13 ==> a0 == LPAR && p.at == 0 && p.k == 3 && p.cat == CAST && p.d == -2)
  }

  predicate StructRule(a0: Category, a1: Category, a2: Category, p: Production)
    requires !p.NoRule?
  {
    && (p.n == 44 || p.n == 46 ==> a0 == STRUCT_LIKE && (a1 == LBRACE || a2 == LBRACE) && p.at == 0 && p.cat == STRUCT_HEAD && p.d == 0)
    && (p.n == 45 ==> a0 == STRUCT_LIKE && a2 == SEMI && p.at == 0 && p.k == 2 && p.cat == DECL_HEAD && p.d == 0)
  }

  lemma ShortRules(a0: Category, a1: Category, a2: Category, a3: Category, forceLines: bool)
    ensures var p := CategoryRules(a0, a1, a2, a3, forceLines); p.NoRule? || ShortRule(a0, a1, a2, p)
  {
  }

  lemma StructRules(a0: Category, a1: Category, a2: Category, a3: Category, forceLines: bool)
    ensures var p := CategoryRules(a0, a1, a2, a3, forceLines); p.NoRule? || StructRule(a0, a1, a2, p)
  {
  }

  lemma UrgentRules(a0: Category, a1: Category, a2: Category, a3: Category, p: Production, forceLines: bool)
    requires p == Match(a0, a1, a2, a3, forceLines) && !p.NoRule?
    ensures p.n == 111 ==> LhsNotSimple(a0) && a1 == END_ARG
    ensures ShortSighted(p.n) && p.n != 111 ==> p == CategoryRules(a0, a1, a2, a3, forceLines) && a1 != INSERT && a2 != INSERT
  {
  }

  // A tag is left behind only after another.
  lemma LabelHeals(cats: seq<Category>, pp: nat, p: Production, now: seq<Category>)
    requires pp < |cats| && cats[pp] == EXP && Peek(cats, pp + 1) == COLON && Peek(cats, pp + 2) != INSERT
    requires !p.NoRule? && p.at == 0 && p.k == 2 && pp + 2 <= |cats| && p.cat == TAG && p.d == 0 && After(cats, pp, p, now) && Loose(cats, pp)
    ensures AllHeal(now, pp)
  {
    forall i | 0 <= i < pp && i < |now| && FiresAt(now, i)
      ensures Heals(now, pp, i)
    {
      LooseAt(cats, pp, p, now, i);
      LooseAt(cats, pp, p, now, pp - 1);
      if !Apart(now, i) { LabelHealsAt(cats, pp, p, now, i); }
    }
  }

  lemma LabelHealsAt(cats: seq<Category>, pp: nat, p: Production, now: seq<Category>, i: nat)
    requires pp < |cats| && cats[pp] == EXP && Peek(cats, pp + 1) == COLON && Peek(cats, pp + 2) != INSERT
    requires !p.NoRule? && p.at == 0 && p.k == 2 && pp + 2 <= |cats| && p.cat == TAG && p.d == 0 && After(cats, pp, p, now)
    requires i < pp && TidyAt(cats, pp, i) && TidyAt(cats, pp, pp - 1) && FiresAt(now, i) && !Apart(now, i)
    ensures Heals(now, pp, i)
  {
    var z, w := Peek(now, pp + 1), Peek(now, pp + 2);
    if FiresAt(cats, i) { TidyBefore(cats, pp, i); }
    if FiresAt(cats, pp - 1) { TidyBefore(cats, pp, pp - 1); }
    LabelRests(cats[pp-1], Peek(cats, pp + 2));
    if i + 3 < pp {
      SameWindow(cats, pp, p, now, i);
    } else if i + 3 == pp {
      FourthMatters(cats[i], cats[i+1], cats[i+2], EXP, TAG);
    } else if z == INSERT {
      WaitsAt(now, pp, i, pp + 1);
    } else if i + 2 == pp {
      ThirdMatters(cats[i], cats[i+1], EXP, COLON, TAG, z);
    } else if w == INSERT {
      WaitsAt(now, pp, i, pp + 2);
    } else {
      BeforeTag(cats[i], z, w);
    }
  }

  // What comes before a label that is not yet a tag.
  lemma LabelRests(b: Category, x: Category)
    ensures Restless(b) || b == NEW_LIKE || b == OPERATOR_LIKE || b == EXP ==> Fires(b, EXP, COLON, x)
  {
    if Restless(b) { RestlessFires(b, EXP, COLON, x); }
  }

  lemma BeforeTag(b: Category, z: Category, w: Category)
    requires Fires(b, TAG, z, w) && z != INSERT && w != INSERT && b != TAG
    ensures Restless(b) || b == NEW_LIKE || b == OPERATOR_LIKE
  {
  }

  // Base classes are left behind only after an expression.
  lemma BaseHeals(cats: seq<Category>, pp: nat, p: Production, now: seq<Category>)
    requires pp < |cats| && cats[pp] == BASE && Peek(cats, pp + 1) == PUBLIC_LIKE && Peek(cats, pp + 2) == EXP
    requires !p.NoRule? && p.at == 0 && 1 <= p.k && pp + p.k <= |cats| && p.cat == BASE && p.d == 0 && After(cats, pp, p, now) && Loose(cats, pp)
    ensures AllHeal(now, pp)
  {
    forall i | 0 <= i < pp && i < |now| && FiresAt(now, i)
      ensures Heals(now, pp, i)
    {
      if !Apart(now, i) {
        assert i + 1 == pp ==> !Apart(cats, i);
        LooseAt(cats, pp, p, now, i);
        BaseHealsAt(cats, pp, p, now, i);
      }
    }
  }

  lemma BaseHealsAt(cats: seq<Category>, pp: nat, p: Production, now: seq<Category>, i: nat)
    requires pp < |cats| && cats[pp] == BASE && Peek(cats, pp + 1) == PUBLIC_LIKE && Peek(cats, pp + 2) == EXP
    requires !p.NoRule? && p.at == 0 && 1 <= p.k && pp + p.k <= |cats| && p.cat == BASE && p.d == 0 && After(cats, pp, p, now)
    requires i < pp && TidyAt(cats, pp, i) && FiresAt(now, i) && !Apart(now, i)
    ensures Heals(now, pp, i)
  {
    var z, w := Peek(now, pp + 1), Peek(now, pp + 2);
    if FiresAt(cats, i) { TidyBefore(cats, pp, i); }
    if i + 3 < pp {
      SameWindow(cats, pp, p, now, i);
    } else if i + 3 == pp {
    } else if z == INSERT {
      WaitsAt(now, pp, i, pp + 1);
    } else if i + 2 == pp {
      ThirdMatters(cats[i], cats[i+1], BASE, PUBLIC_LIKE, BASE, z);
    } else if w == INSERT {
      WaitsAt(now, pp, i, pp + 2);
    } else {
      BeforeBase(cats[i], z, w, PUBLIC_LIKE, EXP);
    }
  }

  lemma BeforeBase(b: Category, z: Category, w: Category, z2: Category, w2: Category)
    requires Fires(b, BASE, z, w) && z != INSERT && w != INSERT && b != EXP
    ensures Fires(b, BASE, z2, w2)
  {
  }

  // A cast is left behind only where a declarator comes next.
  lemma CastIsTaken(cats: seq<Category>, pp: nat, p: Production, now: seq<Category>)
    requires pp < |cats| && cats[pp] == LPAR && p.Squash? && p.at == 0 && p.k == 3 && pp + 3 <= |cats| && p.cat == CAST && p.d == -2
    requires After(cats, pp, p, now) && Loose(cats, pp)
    ensures AllHeal(now, Moved(pp, p.d))
  {
    forall i | 0 <= i < Moved(pp, p.d) && i < |now| && FiresAt(now, i)
      ensures Heals(now, Moved(pp, p.d), i)
    {
      LooseAt(cats, pp, p, now, i);
      if !Apart(now, i) {
        if FiresAt(cats, i) { TidyBefore(cats, pp, i); }
        if i + 3 < pp {
          SameWindow(cats, pp, p, now, i);
        } else {
          FourthMatters(cats[i], cats[i+1], cats[i+2], LPAR, CAST);
        }
      }
    }
  }

  // What applies before the head of a structure takes a scrap by itself.
  lemma BeforeStruct(b: Category, z: Category, w: Category)
    requires Fires(b, STRUCT_HEAD, z, w) && z != INSERT && w != INSERT
    ensures Restless(b) || b == OPERATOR_LIKE || b == NEW_LIKE
  {
  }

  lemma OperatorFires(a1: Category, a2: Category)
    ensures Fires(OPERATOR_LIKE, STRUCT_LIKE, a1, a2)
  {
  }

  predicate MakesStruct(cats: seq<Category>, pp: nat, p: Production, now: seq<Category>) {
    && pp < |cats| && cats[pp] == STRUCT_LIKE && Peek(cats, pp + 1) != INSERT && Peek(cats, pp + 2) != INSERT
    && p.Reduce? && p.at == 0 && 1 <= p.k && pp + p.k <= |cats| && p.d == 0 && After(cats, pp, p, now) && Loose(cats, pp)
  }

  // The head of a structure is left behind only after `new`.
  lemma StructHeals(cats: seq<Category>, pp: nat, p: Production, now: seq<Category>)
    requires MakesStruct(cats, pp, p, now) && p.cat == STRUCT_HEAD
    ensures AllHeal(now, pp)
  {
    forall i | 0 <= i < pp && i < |now| && FiresAt(now, i)
      ensures Heals(now, pp, i)
    {
      LooseAt(cats, pp, p, now, i);
      if !Apart(now, i) {
        if FiresAt(cats, i) { TidyBefore(cats, pp, i); }
        StructHealsAt(cats, pp, p, now, i);
      }
    }
  }

  lemma StructHealsAt(cats: seq<Category>, pp: nat, p: Production, now: seq<Category>, i: nat)
    requires MakesStruct(cats, pp, p, now) && p.cat == STRUCT_HEAD && i < pp && FiresAt(now, i) && !FiresAt(cats, i) && !Apart(now, i)
    ensures Heals(now, pp, i)
  {
    var z, w := Peek(now, pp + 1), Peek(now, pp + 2);
    if i + 3 < pp {
      SameWindow(cats, pp, p, now, i);
    } else if i + 3 == pp {
      FourthMatters(cats[i], cats[i+1], cats[i+2], STRUCT_LIKE, STRUCT_HEAD);
    } else if z == INSERT {
      WaitsAt(now, pp, i, pp + 1);
    } else if i + 2 == pp {
      ThirdMatters(cats[i], cats[i+1], STRUCT_LIKE, Peek(cats, pp + 1), STRUCT_HEAD, z);
    } else if w == INSERT {
      WaitsAt(now, pp, i, pp + 2);
    } else {
      BeforeStruct(cats[i], z, w);
      if Restless(cats[i]) {
        RestlessFires(cats[i], STRUCT_LIKE, Peek(cats, pp + 1), Peek(cats, pp + 2));
      } else {
        OperatorFires(Peek(cats, pp + 1), Peek(cats, pp + 2));
      }
    }
  }

  // A declarator without a body is taken with its semicolon.
  lemma DeclaratorHeals(cats: seq<Category>, pp: nat, p: Production, now: seq<Category>)
    requires MakesStruct(cats, pp, p, now) && p.cat == DECL_HEAD && p.k == 2 && Peek(cats, pp + 2) == SEMI
    ensures AllHeal(now, pp)
  {
    assert Peek(now, pp + 1) == SEMI;
    forall i | 0 <= i < pp && i < |now| && FiresAt(now, i)
      ensures Heals(now, pp, i)
    {
      LooseAt(cats, pp, p, now, i);
      if FiresAt(cats, i) && !Apart(now, i) { TidyBefore(cats, pp, i); }
      if Apart(now, i) {
      } else if i + 3 < pp {
        SameWindow(cats, pp, p, now, i);
      } else if i + 3 == pp {
        FourthMatters(cats[i], cats[i+1], cats[i+2], STRUCT_LIKE, DECL_HEAD);
      } else if i + 2 == pp {
        ThirdMatters(cats[i], cats[i+1], STRUCT_LIKE, Peek(cats, pp + 1), DECL_HEAD, SEMI);
      } else {
        assert TakesDeclaration(now, pp);
      }
    }
  }

  lemma IfHeals(cats: seq<Category>, pp: nat, p: Production, now: seq<Category>, forceLines: bool)
    requires Chosen(cats, pp, p, forceLines) && After(cats, pp, p, now) && Loose(cats, pp) && OfIf(p.n) && (0 < pp ==> cats[pp-1] != LPROC)
    ensures AllHeal(now, Moved(pp, p.d))
  {
    IfRules(cats[pp], Peek(cats, pp + 1), Peek(cats, pp + 2), Peek(cats, pp + 3), p, forceLines);
    forall i | 0 <= i < pp && i < |now| && FiresAt(now, i)
      ensures Heals(now, pp, i)
    {
      LooseAt(cats, pp, p, now, i);
      if !Apart(now, i) { IfLeaves(cats, pp, p, now, i, forceLines); }
    }
  }

  /** A short-sighted production leaves behind only what will be taken, or stays apart. */
  lemma ShortHeals(cats: seq<Category>, pp: nat, p: Production, now: seq<Category>, forceLines: bool)
    requires Chosen(cats, pp, p, forceLines) && After(cats, pp, p, now) && Loose(cats, pp) && (0 < pp && IsIf(cats[pp]) ==> cats[pp-1] != LPROC)
    requires ShortSighted(p.n) && !TakesEnd(cats, pp)
    ensures AllHeal(now, Moved(pp, p.d))
  {
    var a0, a1, a2, a3 := Peek(cats, pp), Peek(cats, pp + 1), Peek(cats, pp + 2), Peek(cats, pp + 3);
    UrgentRules(a0, a1, a2, a3, p, forceLines);
    ShortRules(a0, a1, a2, a3, forceLines);
    StructRules(a0, a1, a2, a3, forceLines);
    OnlyIfs(a0, a1, a2, a3, forceLines);
    if OfIf(p.n) {
      IfHeals(cats, pp, p, now, forceLines);
    } else if p.n == 7 {
      LabelHeals(cats, pp, p, now);
    } else if p.n == 101 {
      BaseHeals(cats, pp, p, now);
    } else if p.n == 13 {
      CastIsTaken(cats, pp, p, now);
    } else if p.n == 45 {
      DeclaratorHeals(cats, pp, p, now);
    } else {
      StructHeals(cats, pp, p, now);
    }
  }

  // ---------- the others

  // What a production makes of the second of a pair.
  predicate WallRule(a0: Category, p: Production)
    requires !p.NoRule?
  {
    && (a0 == STRUCT_HEAD && p.at == 0 ==> p.d == -2 && p.cat == INT_LIKE)
    && (a0 == TAG && p.at == 0 ==> p.d == -1 && (p.cat == TAG || p.cat == STMT || p.cat == DECL || p.cat == FUNCTION))
    && (a0 == BASE && p.at == 0 ==> p.n == 101)
  }

  lemma WallRules(a0: Category, a1: Category, a2: Category, a3: Category, forceLines: bool)
    ensures var p := CategoryRules(a0, a1, a2, a3, forceLines); p.NoRule? || WallRule(a0, p)
  {
  }

  // The second of a pair at the cursor.
  lemma WallHeals(cats: seq<Category>, pp: nat, p: Production, now: seq<Category>)
    requires pp < |cats| && !p.NoRule? && p.at == 0 && 1 <= p.k && pp + p.k <= |cats| && After(cats, pp, p, now) && Loose(cats, pp)
    requires (cats[pp] == STRUCT_HEAD || cats[pp] == TAG) && WallRule(cats[pp], p) && Peek(cats, pp + 1) != INSERT
    ensures AllHeal(now, Moved(pp, p.d))
  {
    forall i | 0 <= i < Moved(pp, p.d) && i < |now| && FiresAt(now, i)
      ensures Heals(now, Moved(pp, p.d), i)
    {
      LooseAt(cats, pp, p, now, i);
      if !Apart(now, i) { WallHealsAt(cats, pp, p, now, i); }
    }
  }

  lemma WallHealsAt(cats: seq<Category>, pp: nat, p: Production, now: seq<Category>, i: nat)
    requires pp < |cats| && !p.NoRule? && p.at == 0 && 1 <= p.k && pp + p.k <= |cats| && After(cats, pp, p, now)
    requires (cats[pp] == STRUCT_HEAD || cats[pp] == TAG) && WallRule(cats[pp], p) && Peek(cats, pp + 1) != INSERT
    requires i < Moved(pp, p.d) && TidyAt(cats, pp, i) && FiresAt(now, i)
    ensures Waits(now, Moved(pp, p.d), i)
  {
    var z := Peek(now, pp + 1);
    if FiresAt(cats, i) { TidyBefore(cats, pp, i); }
    if i + 3 < pp {
      SameWindow(cats, pp, p, now, i);
    } else if i + 3 == pp {
      FourthMatters(cats[i], cats[i+1], cats[i+2], cats[pp], p.cat);
    } else if z == INSERT {
      WaitsAt(now, Moved(pp, p.d), i, pp + 1);
    } else {
      ThirdMatters(cats[i], cats[i+1], cats[pp], Peek(cats, pp + 1), p.cat, z);
    }
  }

  lemma FarHeals(cats: seq<Category>, pp: nat, p: Production, now: seq<Category>, forceLines: bool)
    requires Fired(cats, pp, p, now, forceLines) && Loose(cats, pp) && (p.at > 0 || (0 < pp ==> !Apart(cats, pp - 1)))
    ensures AllHeal(now, Moved(pp, p.d))
  {
    forall i | 0 <= i < Moved(pp, p.d) && i < |now| && FiresAt(now, i)
      ensures Heals(now, Moved(pp, p.d), i)
    {
      FarHealsHere(cats, pp, p, now, i, forceLines);
    }
  }

  lemma FarHealsHere(cats: seq<Category>, pp: nat, p: Production, now: seq<Category>, i: nat, forceLines: bool)
    requires Fired(cats, pp, p, now, forceLines) && Loose(cats, pp) && (p.at > 0 || (0 < pp ==> !Apart(cats, pp - 1)))
    requires i < Moved(pp, p.d) && FiresAt(now, i)
    ensures Apart(now, i) || Waits(now, Moved(pp, p.d), i)
  {
    if i < pp { LooseAt(cats, pp, p, now, i); }
    if 0 < pp && p.at == 0 { assert TidyAt(cats, pp, pp - 1); }
    if !Apart(now, i) { FarHealsAt(cats, pp, p, now, i, forceLines); }
  }

  lemma FarHealsAt(cats: seq<Category>, pp: nat, p: Production, now: seq<Category>, i: nat, forceLines: bool)
    requires Fired(cats, pp, p, now, forceLines) && i < Moved(pp, p.d) && FiresAt(now, i)
    requires (i < pp ==> TidyAt(cats, pp, i)) && (p.at == 0 && 0 < pp ==> TidyAt(cats, pp, pp - 1))
    ensures Waits(now, Moved(pp, p.d), i)
  {
    if p.at == 0 { StepTidyHere(cats, pp, p, now, i, forceLines); } else { StepTidyLater(cats, pp, p, now, i, forceLines); }
  }

  // What the production at the cursor is where something waits for it.
  predicate Taking(a0: Category, a1: Category, a2: Category, p: Production) {
    && (a0 == SEMI ==> p.Reduce? && p.at == 0 && p.k == 1 && p.cat == STMT && p.d == -1 && ReservedAt(p) == 0)
    && (a0 == DECL_HEAD && a1 == EXP && a2 == CAST ==> p == Squash(0, 2, DECL_HEAD, -1, 35))
    && (a0 == DECL_HEAD && a1 == SEMI ==> p == Squash(0, 2, DECL, -1, 39))
  }

  lemma TakingRules(a0: Category, a1: Category, a2: Category, a3: Category, p: Production, forceLines: bool)
    requires p == Match(a0, a1, a2, a3, forceLines) && !p.NoRule? && !(a1 == END_ARG && LhsNotSimple(a0))
    ensures a1 == INSERT ==> p == Squash(0, 2, a0, -2, 0)
    ensures a1 != INSERT && a2 == INSERT ==> p == Squash(1, 2, a1, -1, 0)
    ensures a1 != INSERT && a2 != INSERT && a3 == INSERT ==> p == Squash(2, 2, a2, 0, 0)
    ensures a1 != INSERT && a2 != INSERT && a3 != INSERT ==>
              Taking(a0, a1, a2, p) && !(a0 == STMT && a1 == ELSE_LIKE) && !(a0 == ELSE_LIKE && a1 == SEMI)
  {
  }

  // Where nothing is taken at the cursor.
  lemma HealingIsLoose(cats: seq<Category>, pp: nat)
    requires AllHeal(cats, pp) && !TakesEnd(cats, pp) && !TakesCast(cats, pp) && !TakesDeclaration(cats, pp)
    requires forall i :: 0 <= i < pp <= i + 3 ==> !DoWhile(cats, i)
    ensures Loose(cats, pp)
  {
  }

  lemma LooseHeals(cats: seq<Category>, pp: nat, p: Production, now: seq<Category>, forceLines: bool)
    requires Chosen(cats, pp, p, forceLines) && After(cats, pp, p, now) && Loose(cats, pp) && !TakesEnd(cats, pp)
    requires Peek(cats, pp + 1) != INSERT && Peek(cats, pp + 2) != INSERT && Peek(cats, pp + 3) != INSERT
    requires 0 < pp && IsIf(cats[pp]) ==> cats[pp-1] != LPROC
    ensures AllHeal(now, Moved(pp, p.d))
  {
    if ShortSighted(p.n) {
      ShortHeals(cats, pp, p, now, forceLines);
    } else if p.at == 0 && 0 < pp && Apart(cats, pp - 1) {
      WallRules(cats[pp], Peek(cats, pp + 1), Peek(cats, pp + 2), Peek(cats, pp + 3), forceLines);
      WallHeals(cats, pp, p, now);
    } else {
      FarHeals(cats, pp, p, now, forceLines);
    }
  }

  // Only productions 29 and 31 move forwards.
  lemma ForwardRules(a0: Category, a1: Category, a2: Category, a3: Category, forceLines: bool)
    ensures var p := CategoryRules(a0, a1, a2, a3, forceLines); !p.NoRule? && p.d > p.at ==> p.d == 1 && p.cat == FN_DECL
  {
  }

  lemma ForwardBehind(a0: Category, a1: Category, a2: Category, a3: Category, forceLines: bool)
    ensures var p := CategoryRules(a0, a1, a2, a3, forceLines); !p.NoRule? && p.d > 0 && p.at > 0 ==> p.d == 1 && LhsNotSimple(a0)
  {
  }

  lemma StaysNoneSimple(cats: seq<Category>, pp: nat, p: Production, now: seq<Category>, forceLines: bool)
    requires Chosen(cats, pp, p, forceLines) && After(cats, pp, p, now) && NoneSimple(cats, pp)
    ensures NoneSimple(now, Moved(pp, p.d))
  {
    ForwardRules(Peek(cats, pp), Peek(cats, pp + 1), Peek(cats, pp + 2), Peek(cats, pp + 3), forceLines);
    ForwardBehind(Peek(cats, pp), Peek(cats, pp + 1), Peek(cats, pp + 2), Peek(cats, pp + 3), forceLines);
    var q := pp + p.at;
    forall j | 0 <= j < Moved(pp, p.d) && j < |now|
      ensures LhsNotSimple(now[j])
    {
      assert j < q ==> now[j] == cats[j];
    }
  }

  /** Every production keeps all this, if no if clause stands behind a preprocessor mark. */
  lemma StepHeals(cats: seq<Category>, pp: nat, p: Production, now: seq<Category>, forceLines: bool)
    requires Chosen(cats, pp, p, forceLines) && After(cats, pp, p, now) && AllHeal(cats, pp) && NoneSimple(cats, pp)
    requires 0 < pp && IsIf(cats[pp]) ==> cats[pp-1] != LPROC
    ensures AllHeal(now, Moved(pp, p.d))
  {
    if TakesEnd(cats, pp) {
      EndHeals(cats, pp, p, now, forceLines);
    } else {
      var a0, a1, a2, a3 := Peek(cats, pp), Peek(cats, pp + 1), Peek(cats, pp + 2), Peek(cats, pp + 3);
      TakingRules(a0, a1, a2, a3, p, forceLines);
      if a1 == INSERT || a2 == INSERT || a3 == INSERT {
        assert TakesInsertion(cats, pp, p);
        InsertionHeals(cats, pp, p, now);
      } else if (3 <= pp && DoWhile(cats, pp - 3)) || TakesCast(cats, pp) || TakesDeclaration(cats, pp) {
        TakingHeals(cats, pp, p, now);
      } else {
        NoneTaken(cats, pp, a1);
        LooseHeals(cats, pp, p, now, forceLines);
      }
    }
  }

  lemma TakingHeals(cats: seq<Category>, pp: nat, p: Production, now: seq<Category>)
    requires pp < |cats| && !p.NoRule? && 1 <= p.k && pp + p.at + p.k <= |cats| && After(cats, pp, p, now) && AllHeal(cats, pp)
    requires (3 <= pp && DoWhile(cats, pp - 3)) || TakesCast(cats, pp) || TakesDeclaration(cats, pp)
    requires Peek(cats, pp + 1) != INSERT && Taking(cats[pp], Peek(cats, pp + 1), Peek(cats, pp + 2), p)
    ensures AllHeal(now, Moved(pp, p.d))
  {
    if 3 <= pp && DoWhile(cats, pp - 3) {
      SemicolonHeals(cats, pp, p, now);
    } else if TakesCast(cats, pp) {
      CastHeals(cats, pp, p, now);
    } else {
      DeclarationHeals(cats, pp, p, now);
    }
  }

  lemma NoneTaken(cats: seq<Category>, pp: nat, a1: Category)
    requires pp < |cats| && AllHeal(cats, pp) && !TakesEnd(cats, pp) && !TakesCast(cats, pp) && !TakesDeclaration(cats, pp) && a1 == Peek(cats, pp + 1)
    requires !(3 <= pp && DoWhile(cats, pp - 3)) && !(cats[pp] == STMT && a1 == ELSE_LIKE) && !(cats[pp] == ELSE_LIKE && a1 == SEMI)
    ensures Loose(cats, pp)
  {
    forall i | 0 <= i < pp <= i + 3
      ensures !DoWhile(cats, i)
    {
    }
    HealingIsLoose(cats, pp);
  }
}
