// No if clause ever stands behind a preprocessor mark. Productions 63, 65 and 66 leave the
// cursor on what they make of one, so they could leave a production behind only there.
// Before an if clause everything has been tried; where the cursor goes back before it, a
// scrap that nothing takes from the left shields it (cweb/cweave.c:2606-2682, 2744-2761).

module Fences {
  import opened Category
  import opened Productions
  import opened ProductionTable
  import opened Reducer
  import opened Sight
  import opened IfClauses
  import opened Healing

  /** The categories that shield what is behind them: only another tag takes them from the left. */
  predicate Shield(c: Category) { c == TAG || c == STRUCT_HEAD }

  /** In a row that ends with an if clause nothing applies before it, from w on, but pairs
      that stay apart. */
  predicate Quiet(row: seq<Category>, w: nat) {
    forall i :: w <= i < |row| - 1 && FiresAt(row, i) ==> Apart(row, i)
  }

  /** A row that ends with an if clause, with the cursor at pp. */
  predicate Fenced(row: seq<Category>, pp: nat)
    requires row != []
  {
    var z := |row| - 1;
    && (0 < z ==> row[z-1] != LPROC)
    && AllHeal(row, if pp < z then pp else z)
    && (pp < z ==> Shield(row[z-1]) || (z <= pp + 2 && Quiet(row, pp)))
  }

  /** What follows an if clause does not matter. */
  predicate FencedAt(cats: seq<Category>, pp: nat, z: nat) {
    z < |cats| && IsIf(cats[z]) ==> Fenced(cats[..z+1], pp)
  }

  ghost predicate AllFenced(cats: seq<Category>, pp: nat) {
    forall z: nat {:trigger FencedAt(cats, pp, z)} :: FencedAt(cats, pp, z)
  }

  // ---------- rows that end with an if clause

  lemma QuietBehind(row: seq<Category>)
    requires row != [] && IsIf(row[|row|-1]) && AllHeal(row, |row| - 1)
    ensures Quiet(row, 0)
  {
    var z := |row| - 1;
    forall i | 0 <= i < z && FiresAt(row, i)
      ensures Apart(row, i)
    {
      assert Heals(row, z, i) && !Waits(row, z, i);
    }
  }

  lemma QuietIsFenced(row: seq<Category>, pp: nat)
    requires row != [] && Quiet(row, 0) && |row| <= pp + 3 && (1 < |row| ==> row[|row|-2] != LPROC)
    ensures Fenced(row, pp)
  {
  }

  // An if clause in the place of another, or of IF_LIKE, lets nothing new apply before it.
  predicate IfFor(x: Category, a: Category) { IsIf(x) && (IsIf(a) || a == IF_LIKE) }

  lemma AlikeFires(c0: Category, c1: Category, c2: Category, c3: Category, a1: Category, a2: Category, a3: Category)
    requires (c1 == a1 && c2 == a2 && (c3 == a3 || IfFor(c3, a3))) || (c1 == a1 && IfFor(c2, a2) && c3 == PADDING)
          || (IfFor(c1, a1) && c2 == PADDING && c3 == PADDING)
    requires Fires(c0, c1, c2, c3)
    ensures Fires(c0, a1, a2, a3)
  {
    if IsIf(c1) && c2 == PADDING && c3 == PADDING && c1 != a1 {
      NewIf(c0, c0, c0, a1, a2, a3, c1);
    } else if IsIf(c1) && c2 == PADDING && c3 == PADDING {
      NewIf(c0, c0, c0, a1, a2, a3, c1);
    } else if IsIf(c2) && c3 == PADDING {
      NewIf(c0, c0, c1, a2, a3, PADDING, c2);
    } else if IsIf(c3) {
      NewIf(c0, c1, c2, a3, PADDING, PADDING, c3);
    }
  }

  lemma FiredBefore(was: seq<Category>, row: seq<Category>, pp: nat, i: nat)
    requires i < pp < |was| && |row| == pp + 1 && (forall x :: 0 <= x < pp ==> row[x] == was[x])
    requires IfFor(row[pp], was[pp]) && FiresAt(row, i)
    ensures FiresAt(was, i)
  {
    assert Peek(row, i) == Peek(was, i);
    AlikeFires(Peek(row, i), Peek(row, i + 1), Peek(row, i + 2), Peek(row, i + 3), Peek(was, i + 1), Peek(was, i + 2), Peek(was, i + 3));
  }

  // Another if clause in the place of one.
  lemma QuietAlike(was: seq<Category>, row: seq<Category>, pp: nat)
    requires |was| == |row| == pp + 1 && IsIf(was[pp]) && IsIf(row[pp]) && Quiet(was, 0) && forall x :: 0 <= x < pp ==> row[x] == was[x]
    ensures Quiet(row, 0)
  {
    forall i | 0 <= i < pp && FiresAt(row, i)
      ensures Apart(row, i)
    {
      FiredBefore(was, row, pp, i);
      assert Apart(was, i);
    }
  }

  lemma CutFiresAt(cats: seq<Category>, z: nat, i: nat)
    requires i < z < |cats| && IsIf(cats[z]) && FiresAt(cats[..z+1], i)
    ensures FiresAt(cats, i)
  {
    CutFires(Peek(cats, i), Peek(cats, i + 1), Peek(cats, i + 2), Peek(cats, i + 3));
  }

  // With the cursor directly before an if clause.
  lemma NextIsIf(row: seq<Category>, pp: nat, i: nat)
    requires |row| == pp + 2 && IsIf(row[pp+1]) && AllHeal(row, pp) && i < pp && FiresAt(row, i)
    ensures Apart(row, i) || (DoWhile(row, i) && i + 3 == pp)
  {
    assert Heals(row, pp, i) && !Waits(row, pp, i);
  }

  lemma FencedRow(cats: seq<Category>, pp: nat, z: nat) returns (row: seq<Category>)
    requires AllFenced(cats, pp) && z < |cats| && IsIf(cats[z])
    ensures row == cats[..z+1] && Fenced(row, pp)
  {
    row := cats[..z+1];
    assert FencedAt(cats, pp, z);
  }

  // ---------- the cursor moves on

  lemma MoveOnFencedAt(cats: seq<Category>, pp: nat, z: nat)
    requires pp < |cats| && NoneSimple(cats, pp) && !FiresAt(cats, pp) && z < |cats| && IsIf(cats[z]) && Fenced(cats[..z+1], pp)
    ensures Fenced(cats[..z+1], pp + 1)
  {
    var row := cats[..z+1];
    if pp < z {
      if FiresAt(row, pp) { CutFiresAt(cats, z, pp); }
      MoveOnHeals(row, pp);
    }
  }

  // ---------- an if clause before the replaced scraps

  lemma NearTable(a0: Category, a1: Category, a2: Category, a3: Category, forceLines: bool)
    ensures var p := CategoryRules(a0, a1, a2, a3, forceLines); p.NoRule? || (p.at <= 2 && p.at + p.k <= 4 && p.d <= 1 && (p.at == 2 ==> !IsIf(a1)))
  {
  }

  // No production begins more than two scraps behind the cursor or moves it far.
  lemma NearMatch(a0: Category, a1: Category, a2: Category, a3: Category, p: Production, forceLines: bool)
    requires p == Match(a0, a1, a2, a3, forceLines) && !p.NoRule?
    ensures p.at <= 2 && p.at + p.k <= 4 && p.d <= 1 && p.at - p.d <= 3 && (p.at == 2 && IsIf(a1) ==> p.d == 0)
  {
    NearTable(a0, a1, a2, a3, forceLines);
    RulesGoBackThree(a0, a1, a2, a3, forceLines);
  }

  lemma FrontFenced(cats: seq<Category>, pp: nat, p: Production, now: seq<Category>, z: nat, row: seq<Category>)
    requires pp < |cats| && !p.NoRule? && 1 <= p.k && pp + p.at + p.k <= |cats| && After(cats, pp, p, now)
    requires p.at <= 2 && p.at - p.d <= 3 && (p.at == 2 && IsIf(Peek(cats, pp + 1)) ==> p.d == 0)
    requires z < pp + p.at && IsIf(cats[z]) && row == cats[..z+1] && Fenced(row, pp)
    ensures now[..z+1] == row && Fenced(row, Moved(pp, p.d))
  {
    AfterFront(cats, pp, p, now, z);
    if z <= pp {
      BehindFenced(row, pp, Moved(pp, p.d));
    } else {
      assert z == pp + 1 && IsIf(Peek(cats, pp + 1));
    }
  }

  // The cursor goes back to at most two scraps before an if clause.
  lemma BehindFenced(row: seq<Category>, pp: nat, pp2: nat)
    requires row != [] && IsIf(row[|row|-1]) && Fenced(row, pp) && |row| <= pp + 1 && |row| <= pp2 + 3
    ensures Fenced(row, pp2)
  {
    QuietBehind(row);
    QuietIsFenced(row, pp2);
  }

  // ---------- an if clause that a production makes

  lemma MadeFenced(cats: seq<Category>, pp: nat, p: Production, now: seq<Category>, row: seq<Category>, forceLines: bool)
    requires Chosen(cats, pp, p, forceLines) && After(cats, pp, p, now) && IsIf(p.cat) && AllHeal(cats, pp) && AllFenced(cats, pp)
    requires row == cats[..pp + p.at] + [p.cat]
    ensures now[..pp + p.at + 1] == row && Fenced(row, Moved(pp, p.d))
  {
    var a0, a1 := cats[pp], Peek(cats, pp + 1);
    MakesIf(a0, a1, Peek(cats, pp + 2), Peek(cats, pp + 3), p, forceLines);
    AfterFront(cats, pp, p, now, pp + p.at);
    if p.at == 0 && IsIf(a0) {
      SameIfFenced(cats, pp, row, Moved(pp, p.d));
    } else if p.at == 0 && a0 == INSERT {
      NotBehindInsertion(cats, pp);
    } else if p.at == 0 {
      NewFenced(cats, pp, row);
    } else {
      var was := FencedRow(cats, pp, pp + p.at);
      assert was == row;
      if p.at == 1 { StillFenced(row, pp); }
    }
  }

  lemma SameIfFenced(cats: seq<Category>, pp: nat, row: seq<Category>, pp2: nat)
    requires AllFenced(cats, pp) && pp < |cats| && IsIf(cats[pp]) && |row| == pp + 1 && IsIf(row[pp]) && row[..pp] == cats[..pp] && pp <= pp2 + 2
    ensures Fenced(row, pp2)
  {
    var was := cats[..pp+1];
    assert FencedAt(cats, pp, pp) && forall x :: 0 <= x < pp ==> row[x] == row[..pp][x] == cats[..pp][x] == was[x];
    QuietBehind(was);
    QuietAlike(was, row, pp);
    QuietIsFenced(row, pp2);
  }

  lemma NotBehindInsertion(cats: seq<Category>, pp: nat)
    requires pp + 1 < |cats| && cats[pp] == INSERT && AllFenced(cats, pp)
    ensures !IsIf(cats[pp+1])
  {
    if IsIf(cats[pp+1]) {
      assert FencedAt(cats, pp, pp + 1);
      InsertFires(cats[pp+1]);
      assert FiresAt(cats[..pp+2], pp);
    }
  }

  lemma InsertFires(x: Category)
    requires IsIf(x)
    ensures Fires(INSERT, x, PADDING, PADDING)
  {
  }

  // The cursor goes back one scrap from directly before an if clause.
  lemma StillFenced(row: seq<Category>, pp: nat)
    requires |row| == pp + 2 && IsIf(row[pp+1]) && Fenced(row, pp)
    ensures Fenced(row, Moved(pp, -1))
  {
    forall i | 0 <= i < pp && FiresAt(row, i)
      ensures Apart(row, i) || (DoWhile(row, i) && i + 3 == pp)
    {
      NextIsIf(row, pp, i);
    }
  }

  // Production 57.
  lemma NewFenced(cats: seq<Category>, pp: nat, row: seq<Category>)
    requires pp + 1 < |cats| && cats[pp] == IF_LIKE && cats[pp+1] == EXP && Peek(cats, pp + 2) != INSERT && AllHeal(cats, pp)
    requires row == cats[..pp] + [IF_CLAUSE]
    ensures Fenced(row, pp)
  {
    forall i | 0 <= i < pp && FiresAt(row, i)
      ensures Apart(row, i)
    {
      FiredBefore(cats, row, pp, i);
      ApartBefore(cats, pp, i);
    }
    if 0 < pp && cats[pp-1] == LPROC {
      DirectiveFires(cats[pp+1], Peek(cats, pp + 2));
      ApartBefore(cats, pp, pp - 1);
    }
    QuietIsFenced(row, pp);
  }

  lemma ApartBefore(cats: seq<Category>, pp: nat, i: nat)
    requires i < pp && pp + 1 < |cats| && cats[pp] == IF_LIKE && cats[pp+1] == EXP && Peek(cats, pp + 2) != INSERT
    requires AllHeal(cats, pp) && FiresAt(cats, i)
    ensures Apart(cats, i) && i + 1 < pp
  {
    assert Heals(cats, pp, i) && !Waits(cats, pp, i);
  }

  // ---------- an if clause behind the replaced scraps

  // The production is the same without what follows the if clause, n scraps on.
  lemma CutMatch(a0: Category, a1: Category, a2: Category, a3: Category, p: Production, n: nat, forceLines: bool)
    requires p == Match(a0, a1, a2, a3, forceLines) && !p.NoRule? && 0 < n && p.at + p.k <= n && (n < 4 ==> IsIf(At(a0, a1, a2, a3, n)))
    ensures Match(a0, a1, if n < 2 then PADDING else a2, if n < 3 then PADDING else a3, forceLines) == p
  {
    CutAfterIf(a0, a1, a2, a3, forceLines);
  }

  lemma CutChosen(cats: seq<Category>, pp: nat, p: Production, z: nat, row: seq<Category>, forceLines: bool)
    requires Chosen(cats, pp, p, forceLines) && z < |cats| && IsIf(cats[z]) && pp + p.at + p.k <= z && row == cats[..z+1]
    ensures Chosen(row, pp, p, forceLines)
  {
    var a0, a1, a2, a3, n := Peek(cats, pp), Peek(cats, pp + 1), Peek(cats, pp + 2), Peek(cats, pp + 3), z - pp;
    assert n < 4 ==> At(a0, a1, a2, a3, n) == cats[z];
    CutMatch(a0, a1, a2, a3, p, n, forceLines);
    assert Peek(row, pp) == a0 && Peek(row, pp + 1) == a1;
    assert Peek(row, pp + 2) == if n < 2 then PADDING else a2;
    assert Peek(row, pp + 3) == if n < 3 then PADDING else a3;
  }

  lemma CutAfter(cats: seq<Category>, pp: nat, p: Production, now: seq<Category>, z: nat, z2: nat, row: seq<Category>, row2: seq<Category>)
    requires !p.NoRule? && 1 <= p.k && pp + p.at + p.k <= z < |cats| && After(cats, pp, p, now) && z2 + p.k == z + 1
    requires row == cats[..z+1] && row2 == now[..z2+1]
    ensures After(row, pp, p, row2)
  {
  }

  // What takes a shield before an if clause leaves one.
  lemma ShieldTable(a0: Category, a1: Category, a2: Category, a3: Category, forceLines: bool)
    ensures var p := CategoryRules(a0, a1, a2, a3, forceLines);
            p.NoRule? || (
              && (p.at + p.k == 1 && IsIf(a1) ==> !Shield(a0)) && (p.at + p.k == 2 && Shield(a1) ==> Shield(p.cat))
              && (p.at + p.k == 3 ==> !Shield(a2)) && (p.at + p.k == 4 ==> !Shield(a3)))
  {
  }

  lemma ShieldTaken(a0: Category, a1: Category, a2: Category, a3: Category, p: Production, n: nat, forceLines: bool)
    requires p == Match(a0, a1, a2, a3, forceLines) && !p.NoRule? && 0 < n <= 4 && n == p.at + p.k
    requires Shield(At(a0, a1, a2, a3, n - 1)) && (n < 4 ==> IsIf(At(a0, a1, a2, a3, n)))
    ensures Shield(p.cat)
  {
    ShieldTable(a0, a1, a2, a3, forceLines);
  }

  lemma BaseRests(x: Category)
    requires IsIf(x)
    ensures !Fires(EXP, BASE, x, PADDING)
  {
  }

  lemma ShieldLast(cats: seq<Category>, pp: nat, p: Production, z: nat, forceLines: bool)
    requires Chosen(cats, pp, p, forceLines) && z < |cats| && IsIf(cats[z]) && pp + p.at + p.k == z && Shield(cats[z-1]) && p.at + p.k <= 4
    ensures Shield(p.cat)
  {
    var a0, a1, a2, a3, n := Peek(cats, pp), Peek(cats, pp + 1), Peek(cats, pp + 2), Peek(cats, pp + 3), p.at + p.k;
    assert At(a0, a1, a2, a3, n - 1) == cats[z-1] && (n < 4 ==> At(a0, a1, a2, a3, n) == cats[z]);
    ShieldTaken(a0, a1, a2, a3, p, n, forceLines);
  }

  // What fires before an if clause leaves a shield in front of it.
  lemma ShieldStays(cats: seq<Category>, pp: nat, p: Production, now: seq<Category>, z: nat, z2: nat)
    requires pp < |cats| && !p.NoRule? && 1 <= p.k && pp + p.at + p.k <= z < |cats| && After(cats, pp, p, now) && Shield(cats[z-1])
    requires (pp + p.at + p.k == z ==> Shield(p.cat)) && z2 + p.k == z + 1
    ensures Shield(now[z2-1])
  {
    if pp + p.at + p.k < z { assert now[z2-1] == cats[z-1]; }
  }

  lemma IsShielded(row: seq<Category>, pp: nat, p: Production, forceLines: bool)
    requires Chosen(row, pp, p, forceLines) && pp + 1 < |row| && IsIf(row[|row|-1]) && Fenced(row, pp)
    ensures Shield(row[|row|-2])
  {
    if !Shield(row[|row|-2]) {
      LinesDoNotMatter(Peek(row, pp), Peek(row, pp + 1), Peek(row, pp + 2), Peek(row, pp + 3), forceLines);
      assert FiresAt(row, pp) && Apart(row, pp);
      BaseRests(row[|row|-1]);
    }
  }

  // What p leaves in front of the if clause at z, which comes to stand at z2.
  lemma BackShielded(cats: seq<Category>, pp: nat, p: Production, now: seq<Category>, z: nat, z2: nat, row: seq<Category>, forceLines: bool)
    requires Chosen(cats, pp, p, forceLines) && After(cats, pp, p, now) && z2 + p.k == z + 1
    requires z < |cats| && IsIf(cats[z]) && pp + p.at + p.k <= z && row == cats[..z+1] && Fenced(row, pp)
    requires Chosen(row, pp, p, forceLines)
    ensures Shield(now[z2-1]) && Moved(pp, p.d) <= z2
  {
    IsShielded(row, pp, p, forceLines);
    NearMatch(Peek(cats, pp), Peek(cats, pp + 1), Peek(cats, pp + 2), Peek(cats, pp + 3), p, forceLines);
    if pp + p.at + p.k == z { ShieldLast(cats, pp, p, z, forceLines); }
    ShieldStays(cats, pp, p, now, z, z2);
  }

  lemma BackFenced(cats: seq<Category>, pp: nat, p: Production, now: seq<Category>, z: nat, z2: nat, row: seq<Category>, row2: seq<Category>, forceLines: bool)
    requires !p.NoRule? && 1 <= p.k && pp + p.at + p.k <= z < |cats| && After(cats, pp, p, now) && NoneSimple(cats, pp) && z2 + p.k == z + 1
    requires 0 < pp && IsIf(cats[pp]) ==> cats[pp-1] != LPROC
    requires row == cats[..z+1] && Fenced(row, pp) && row2 == now[..z2+1] && Chosen(row, pp, p, forceLines)
    requires Shield(now[z2-1]) && Moved(pp, p.d) <= z2
    ensures Fenced(row2, Moved(pp, p.d))
  {
    CutAfter(cats, pp, p, now, z, z2, row, row2);
    CutReady(cats, pp, z, row);
    StepHeals(row, pp, p, row2, forceLines);
    ShieldIsFenced(row2, Moved(pp, p.d));
  }

  lemma CutReady(cats: seq<Category>, pp: nat, z: nat, row: seq<Category>)
    requires pp < z < |cats| && row == cats[..z+1] && Fenced(row, pp) && NoneSimple(cats, pp) && (0 < pp && IsIf(cats[pp]) ==> cats[pp-1] != LPROC)
    ensures AllHeal(row, pp) && NoneSimple(row, pp) && (0 < pp && IsIf(row[pp]) ==> row[pp-1] != LPROC)
  {
  }

  lemma ShieldIsFenced(row: seq<Category>, pp: nat)
    requires 1 < |row| && Shield(row[|row|-2]) && AllHeal(row, pp) && pp < |row|
    ensures Fenced(row, pp)
  {
  }

  // ---------- every iteration

  lemma StepFenced(cats: seq<Category>, pp: nat, p: Production, now: seq<Category>, forceLines: bool)
    requires Chosen(cats, pp, p, forceLines) && After(cats, pp, p, now) && AllHeal(cats, pp) && NoneSimple(cats, pp) && AllFenced(cats, pp)
    ensures AllFenced(now, Moved(pp, p.d))
  {
    forall z: nat
      ensures FencedAt(now, Moved(pp, p.d), z)
    {
      if z < |now| && IsIf(now[z]) { StepFencedAt(cats, pp, p, now, z, forceLines); }
    }
  }

  lemma StepFencedAt(cats: seq<Category>, pp: nat, p: Production, now: seq<Category>, z: nat, forceLines: bool)
    requires Chosen(cats, pp, p, forceLines) && After(cats, pp, p, now) && AllHeal(cats, pp) && NoneSimple(cats, pp) && AllFenced(cats, pp)
    requires z < |now| && IsIf(now[z])
    ensures Fenced(now[..z+1], Moved(pp, p.d))
  {
    var q := pp + p.at;
    if z < q {
      AfterFront(cats, pp, p, now, z);
      var row := FencedRow(cats, pp, z);
      NearMatch(Peek(cats, pp), Peek(cats, pp + 1), Peek(cats, pp + 2), Peek(cats, pp + 3), p, forceLines);
      FrontFenced(cats, pp, p, now, z, row);
    } else if z == q {
      MadeFenced(cats, pp, p, now, cats[..q] + [p.cat], forceLines);
    } else {
      StepFencedBack(cats, pp, p, now, z + p.k - 1, z, now[..z+1], forceLines);
    }
  }

  lemma StepFencedBack(cats: seq<Category>, pp: nat, p: Production, now: seq<Category>, z: nat, z2: nat, row2: seq<Category>, forceLines: bool)
    requires Chosen(cats, pp, p, forceLines) && After(cats, pp, p, now) && NoneSimple(cats, pp) && AllFenced(cats, pp)
    requires pp + p.at < z2 < |now| && IsIf(now[z2]) && z2 + p.k == z + 1 && row2 == now[..z2+1]
    ensures Fenced(row2, Moved(pp, p.d))
  {
    AfterBack(cats, pp, p, now, z2);
    if 0 < pp && IsIf(cats[pp]) { NoMarkBefore(cats, pp); }
    var row := FencedRow(cats, pp, z);
    CutChosen(cats, pp, p, z, row, forceLines);
    BackShielded(cats, pp, p, now, z, z2, row, forceLines);
    BackFenced(cats, pp, p, now, z, z2, row, row2, forceLines);
  }

  /** No if clause at the cursor stands behind a preprocessor mark. */
  lemma NoMarkBefore(cats: seq<Category>, pp: nat)
    requires AllFenced(cats, pp) && 0 < pp < |cats| && IsIf(cats[pp])
    ensures cats[pp-1] != LPROC
  {
    assert FencedAt(cats, pp, pp);
  }

  /** What every iteration keeps, on whatever row of categories. */
  ghost predicate Mends(cats: seq<Category>, pp: nat) {
    NoneSimple(cats, pp) && AllHeal(cats, pp) && AllFenced(cats, pp)
  }

  /** Every production keeps all this. */
  lemma StepMends(cats: seq<Category>, pp: nat, p: Production, now: seq<Category>, forceLines: bool)
    requires Chosen(cats, pp, p, forceLines) && After(cats, pp, p, now) && Mends(cats, pp)
    ensures Mends(now, Moved(pp, p.d))
  {
    StaysNoneSimple(cats, pp, p, now, forceLines);
    if 0 < pp && IsIf(cats[pp]) { NoMarkBefore(cats, pp); }
    StepHeals(cats, pp, p, now, forceLines);
    StepFenced(cats, pp, p, now, forceLines);
  }

  /** And so does moving on. */
  lemma MoveOnMends(cats: seq<Category>, pp: nat)
    requires Mends(cats, pp) && pp < |cats| && !FiresAt(cats, pp)
    ensures Mends(cats, pp + 1)
  {
    var pp2 := pp + 1;
    MoveOnHeals(cats, pp);
    forall z: nat
      ensures FencedAt(cats, pp2, z)
    {
      assert FencedAt(cats, pp, z);
      if z < |cats| && IsIf(cats[z]) { MoveOnFencedAt(cats, pp, z); }
    }
  }

  /** The pairs that stay apart, as far as a production applies to them. */
  predicate Parted(cats: seq<Category>, i: nat) {
    var c0, c1, c2, c3 := Peek(cats, i), Peek(cats, i + 1), Peek(cats, i + 2), Peek(cats, i + 3);
    || (c0 == TAG && c1 == TAG)
    || (c0 == NEW_LIKE && c1 == STRUCT_HEAD)
    || (c0 == EXP && c1 == BASE && c2 == INT_LIKE && (c3 == COMMA || c3 == LBRACE))
  }

  lemma PartedFires(c0: Category, c1: Category, c2: Category, c3: Category)
    ensures c0 == TAG && c1 == TAG ==> Fires(c0, c1, c2, c3)
    ensures c0 == NEW_LIKE && c1 == STRUCT_HEAD ==> Fires(c0, c1, c2, c3)
    ensures c0 == EXP && c1 == BASE && c2 != INSERT && c3 != INSERT ==> (Fires(c0, c1, c2, c3) <==> c2 == INT_LIKE && (c3 == COMMA || c3 == LBRACE))
    ensures c1 == INSERT ==> Fires(c0, c1, c2, c3)
  {
  }

  lemma OnlyApart(cats: seq<Category>, i: nat)
    requires Mends(cats, |cats|) && i < |cats| && FiresAt(cats, i)
    ensures Apart(cats, i)
  {
    assert Heals(cats, |cats|, i) && !Waits(cats, |cats|, i);
  }

  // No insertion is left but at the very beginning.
  lemma NoneInserted(cats: seq<Category>, i: nat)
    requires Mends(cats, |cats|) && i < |cats|
    ensures Peek(cats, i + 1) != INSERT
  {
    if Peek(cats, i + 1) == INSERT {
      PartedFires(Peek(cats, i), Peek(cats, i + 1), Peek(cats, i + 2), Peek(cats, i + 3));
      OnlyApart(cats, i);
    }
  }

  /** At the end productions apply to these pairs, and to nothing else. */
  lemma MendedEnd(cats: seq<Category>, i: nat)
    requires Mends(cats, |cats|) && i < |cats|
    ensures FiresAt(cats, i) <==> Parted(cats, i)
  {
    PartedFires(Peek(cats, i), Peek(cats, i + 1), Peek(cats, i + 2), Peek(cats, i + 3));
    if i + 1 < |cats| { NoneInserted(cats, i + 1); }
    if i + 2 < |cats| { NoneInserted(cats, i + 2); }
    if FiresAt(cats, i) { OnlyApart(cats, i); }
  }
}
