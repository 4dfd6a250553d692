// Which words and scraps `make_reserved` changes (cweb/cweave.c:2043-2087).

module Reserving {
  import opened Basics
  import opened Category
  import opened Productions
  import opened ProductionTable
  import opened TextStore
  import opened Reducer
  import opened ReducerRun

  // ---------- the first identifier

  /** The places of all names in a text from i on, in the order in which they are read:
      those of a text that is referred to come where the reference stands, and nothing is
      read of a text behind an `inserted` mark of its own. */
  function Names(s: Store, t: nat, i: nat): seq<nat>
    requires s.Valid() && t < s.Texts() && s.Acyclic() && s.starts[t] <= i <= s.starts[t+1]
    decreases t, s.starts[t+1] - i
  {
    if i == s.starts[t+1] || s.toks[i] == Code(INSERTED) then []
    else (if s.toks[i].IsName() then [i] else Inside(s, t, i)) + Names(s, t, i + 1)
  }

  function Inside(s: Store, t: nat, i: nat): seq<nat>
    requires s.Valid() && t < s.Texts() && s.Acyclic() && s.starts[t] <= i < s.starts[t+1]
    decreases t, 0
  {
    if s.toks[i].IsRef() then Names(s, s.toks[i].Number(), s.starts[s.toks[i].Number()]) else []
  }

  function FirstOf(places: seq<nat>): Option<nat> {
    if places == [] then None else Some(places[0])
  }

  lemma {:induction false} FindFromIsFirst(s: Store, t: nat, i: nat)
    requires s.Valid() && t < s.Texts() && s.Acyclic() && s.starts[t] <= i <= s.starts[t+1]
    ensures FindFrom(s, t, i) == FirstOf(Names(s, t, i))
    decreases t, s.starts[t+1] - i
  {
    if i < s.starts[t+1] && s.toks[i] != Code(INSERTED) {
      FindFromIsFirst(s, t, i + 1);
      if s.toks[i].IsRef() {
        var u := s.toks[i].Number();
        FindFromIsFirst(s, u, s.starts[u]);
      }
    }
  }

  // ---------- the scraps

  /** Scrap k is an expression whose text begins with v. */
  predicate Begins(toks: seq<Token>, starts: seq<nat>, scraps: seq<Scrap>, k: nat, v: Token)
    requires InStore(toks, starts, scraps)
  {
    k < |scraps| && scraps[k].cat == EXP && toks[starts[scraps[k].trans]] == v
  }

  /** Before scrap k, but not before scrap i, there is one that begins at the same place.
      (That is so only if the text of one of them is empty.) */
  ghost predicate Shared(toks: seq<Token>, starts: seq<nat>, scraps: seq<Scrap>, i: nat, k: nat, v: Token)
    requires InStore(toks, starts, scraps) && k < |scraps|
  {
    exists j: nat :: i <= j < k && Begins(toks, starts, scraps, j, v) && starts[scraps[j].trans] == starts[scraps[k].trans]
  }

  ghost predicate BeginsAt(toks: seq<Token>, starts: seq<nat>, scraps: seq<Scrap>, i: nat, loc: nat, v: Token)
    requires InStore(toks, starts, scraps)
  {
    exists k: nat :: i <= k < |scraps| && Begins(toks, starts, scraps, k, v) && starts[scraps[k].trans] == loc
  }

  /** What becomes of scrap k and of the token at place loc. */
  ghost function ScrapThen(toks: seq<Token>, starts: seq<nat>, scraps: seq<Scrap>, i: nat, v: Token, k: nat): Scrap
    requires InStore(toks, starts, scraps) && k < |scraps|
  {
    if i <= k && Begins(toks, starts, scraps, k, v) && (v.Res? || !Shared(toks, starts, scraps, i, k, v))
    then scraps[k].(cat := RAW_INT)
    else scraps[k]
  }

  ghost function TokenThen(toks: seq<Token>, starts: seq<nat>, scraps: seq<Scrap>, i: nat, v: Token, loc: nat): Token
    requires InStore(toks, starts, scraps) && loc < |toks|
  {
    if BeginsAt(toks, starts, scraps, i, loc, v) then Res(v.Number()) else toks[loc]
  }

  lemma {:induction false} ReserveFromExactly(toks: seq<Token>, starts: seq<nat>, scraps: seq<Scrap>, i: nat, v: Token)
    requires v.IsName() && i <= |scraps| && InStore(toks, starts, scraps)
    ensures var r := ReserveFrom(toks, starts, scraps, i, v);
            && |r.0| == |toks| && |r.1| == |scraps|
            && (forall loc: nat :: loc < |toks| ==> r.0[loc] == TokenThen(toks, starts, scraps, i, v, loc))
            && forall k: nat :: k < |scraps| ==> r.1[k] == ScrapThen(toks, starts, scraps, i, v, k)
    decreases |scraps| - i
  {
    if i < |scraps| {
      ReserveOneThenFrom(toks, starts, scraps, i, v);
      var r := ReserveOne(toks, starts, scraps, i, v);
      ReserveFromExactly(r.0, starts, r.1, i + 1, v);
      forall loc: nat | loc < |toks|
        ensures TokenThen(r.0, starts, r.1, i + 1, v, loc) == TokenThen(toks, starts, scraps, i, v, loc)
      {
        TokenNext(toks, starts, scraps, i, v, r.0, r.1, loc);
      }
      forall k: nat | k < |scraps|
        ensures ScrapThen(r.0, starts, r.1, i + 1, v, k) == ScrapThen(toks, starts, scraps, i, v, k)
      {
        ScrapNext(toks, starts, scraps, i, v, r.0, r.1, k);
      }
    }
  }

  lemma BeginsNext(toks: seq<Token>, starts: seq<nat>, scraps: seq<Scrap>, i: nat, v: Token, toks1: seq<Token>, scraps1: seq<Scrap>, k: nat)
    requires v.IsName() && i < k < |scraps| && InStore(toks, starts, scraps) && (toks1, scraps1) == ReserveOne(toks, starts, scraps, i, v)
    ensures |scraps1| == |scraps| && InStore(toks1, starts, scraps1) && scraps1[k] == scraps[k]
    ensures Begins(toks1, starts, scraps1, k, v) <==>
              && Begins(toks, starts, scraps, k, v)
              && !(v.Id? && Begins(toks, starts, scraps, i, v) && starts[scraps[i].trans] == starts[scraps[k].trans])
  {
  }

  lemma TokenNext(toks: seq<Token>, starts: seq<nat>, scraps: seq<Scrap>, i: nat, v: Token, toks1: seq<Token>, scraps1: seq<Scrap>, loc: nat)
    requires v.IsName() && i < |scraps| && InStore(toks, starts, scraps) && (toks1, scraps1) == ReserveOne(toks, starts, scraps, i, v)
    requires loc < |toks|
    ensures |toks1| == |toks| && |scraps1| == |scraps| && InStore(toks1, starts, scraps1)
    ensures TokenThen(toks1, starts, scraps1, i + 1, v, loc) == TokenThen(toks, starts, scraps, i, v, loc)
  {
    ReserveOneThenFrom(toks, starts, scraps, i, v);
    forall k | i < k < |scraps| { BeginsNext(toks, starts, scraps, i, v, toks1, scraps1, k); }
    if Begins(toks, starts, scraps, i, v) && starts[scraps[i].trans] == loc {
      assert BeginsAt(toks, starts, scraps, i, loc, v);
    } else {
      if BeginsAt(toks, starts, scraps, i, loc, v) {
        var k: nat :| i <= k < |scraps| && Begins(toks, starts, scraps, k, v) && starts[scraps[k].trans] == loc;
        assert Begins(toks1, starts, scraps1, k, v);
      }
      if BeginsAt(toks1, starts, scraps1, i + 1, loc, v) {
        var k: nat :| i + 1 <= k < |scraps| && Begins(toks1, starts, scraps1, k, v) && starts[scraps1[k].trans] == loc;
        assert Begins(toks, starts, scraps, k, v);
      }
    }
  }

  lemma ScrapNext(toks: seq<Token>, starts: seq<nat>, scraps: seq<Scrap>, i: nat, v: Token, toks1: seq<Token>, scraps1: seq<Scrap>, k: nat)
    requires v.IsName() && i < |scraps| && InStore(toks, starts, scraps) && (toks1, scraps1) == ReserveOne(toks, starts, scraps, i, v)
    requires k < |scraps|
    ensures |scraps1| == |scraps| && InStore(toks1, starts, scraps1)
    ensures ScrapThen(toks1, starts, scraps1, i + 1, v, k) == ScrapThen(toks, starts, scraps, i, v, k)
  {
    ReserveOneThenFrom(toks, starts, scraps, i, v);
    if k > i {
      BeginsNext(toks, starts, scraps, i, v, toks1, scraps1, k);
      SharedNext(toks, starts, scraps, i, v, toks1, scraps1, k);
    }
  }

  lemma SharedNext(toks: seq<Token>, starts: seq<nat>, scraps: seq<Scrap>, i: nat, v: Token, toks1: seq<Token>, scraps1: seq<Scrap>, k: nat)
    requires v.IsName() && i < k < |scraps| && InStore(toks, starts, scraps) && (toks1, scraps1) == ReserveOne(toks, starts, scraps, i, v)
    ensures |scraps1| == |scraps| && InStore(toks1, starts, scraps1)
    ensures var first := Begins(toks, starts, scraps, i, v) && starts[scraps[i].trans] == starts[scraps[k].trans];
            Begins(toks, starts, scraps, k, v) && !first ==>
              (Shared(toks, starts, scraps, i, k, v) <==> Shared(toks1, starts, scraps1, i + 1, k, v))
    ensures Begins(toks, starts, scraps, i, v) && starts[scraps[i].trans] == starts[scraps[k].trans] ==> Shared(toks, starts, scraps, i, k, v)
  {
    ReserveOneThenFrom(toks, starts, scraps, i, v);
    forall j | i < j <= k { BeginsNext(toks, starts, scraps, i, v, toks1, scraps1, j); }
  }

  /** Afterwards the first identifier of scrap p is a reserved word. An expression from p on
      whose text begins with that identifier begins with the reserved word, and becomes a
      type name, unless it begins at the very place where one before it does. Nothing
      else changes. */
  lemma ReservedExactly(store: Store, scraps: seq<Scrap>, p: nat)
    requires store.Valid() && store.Acyclic() && InStore(store.toks, store.starts, scraps) && p < |scraps|
    ensures var r, t := MakeReserved(store, scraps, p), scraps[p].trans;
            var names := Names(store, t, store.starts[t]);
            if names == [] then r == (store, scraps)
            else
              names[0] < |store.toks| && store.toks[names[0]].IsName() &&
              var v := store.toks[names[0]];
              && r.0.starts == store.starts && |r.0.toks| == |store.toks| && |r.1| == |scraps|
              && (forall loc: nat :: loc < |store.toks| ==>
                    r.0.toks[loc] == if loc == names[0] then Res(v.Number()) else TokenThen(store.toks, store.starts, scraps, p, v, loc))
              && forall k: nat :: k < |scraps| ==> r.1[k] == ScrapThen(store.toks, store.starts, scraps, p, v, k)
  {
    var t := scraps[p].trans;
    FindFromIsFirst(store, t, store.starts[t]);
    match FindFirstIdent(store, t)
    case None =>
    case Some(loc) =>
      ReserveFromExactly(store.toks, store.starts, scraps, p, store.toks[loc]);
  }

  // ---------- which productions do it

  /** The name that a typedef declares, or the tag of a structure that is declared or
      defined: how many scraps from the cursor on it stands. */
  function DeclaredAt(c0: Category, c1: Category, c2: Category, c3: Category): nat {
    if c1 == END_ARG || c1 == INSERT || c2 == INSERT || c3 == INSERT then 0
    else if c0 == TYPEDEF_LIKE && c1 == DECL_HEAD && (c2 == INT_LIKE || (c2 == EXP && c3 != LPAR && c3 != EXP)) then 2
    else if c0 == STRUCT_LIKE && (c1 == EXP || c1 == INT_LIKE) && (c2 == LBRACE || c2 == SEMI) then 1
    else 0
  }

  lemma LowDeclareNothing(c0: Category, c1: Category, c2: Category, c3: Category, forceLines: bool)
    requires c0 < DECL
    ensures ReservedAt(CategoryRules(c0, c1, c2, c3, forceLines)) == 0
  {
  }

  lemma MiddleDeclareNothing(c0: Category, c1: Category, c2: Category, c3: Category, forceLines: bool)
    requires DECL <= c0 <= DEAD
    ensures ReservedAt(CategoryRules(c0, c1, c2, c3, forceLines)) == 0
  {
  }

  lemma HighDeclareNothing(c0: Category, c1: Category, c2: Category, c3: Category, forceLines: bool)
    requires c0 > DEAD && c0 != TYPEDEF_LIKE && c0 != STRUCT_LIKE
    ensures ReservedAt(CategoryRules(c0, c1, c2, c3, forceLines)) == 0
  {
  }

  lemma ReservedIsDeclared(c0: Category, c1: Category, c2: Category, c3: Category, forceLines: bool)
    ensures ReservedAt(Match(c0, c1, c2, c3, forceLines)) == DeclaredAt(c0, c1, c2, c3)
  {
    if c0 < DECL {
      LowDeclareNothing(c0, c1, c2, c3, forceLines);
    } else if c0 <= DEAD {
      MiddleDeclareNothing(c0, c1, c2, c3, forceLines);
    } else if c0 != TYPEDEF_LIKE && c0 != STRUCT_LIKE {
      HighDeclareNothing(c0, c1, c2, c3, forceLines);
    }
  }

  /** An iteration that declares a type name reserves its first identifier; no other
      iteration changes a token that was there. */
  lemma StepReserves(s: State, rules: Rules, forceLines: bool, k: nat)
    requires WellFormed(s) && s.pp < |s.scraps| && SoundRules(rules) && rules == CweaveRules(forceLines)
    requires k == DeclaredAt(CatAt(s.scraps, s.pp), CatAt(s.scraps, s.pp + 1), CatAt(s.scraps, s.pp + 2), CatAt(s.scraps, s.pp + 3))
    ensures |Step(s, rules).store.toks| >= |s.store.toks|
    ensures k == 0 ==> Step(s, rules).store.toks[..|s.store.toks|] == s.store.toks
    ensures k > 0 ==> s.pp + k < |s.scraps| && var t := s.scraps[s.pp + k].trans; var names := Names(s.store, t, s.store.starts[t]);
              names != [] ==> names[0] < |s.store.toks| && Step(s, rules).store.toks[names[0]] == Res(s.store.toks[names[0]].Number())
  {
    var p := ProductionAt(s.scraps, s.pp, rules);
    ProductionFits(s, rules);
    ReservedIsDeclared(CatAt(s.scraps, s.pp), CatAt(s.scraps, s.pp + 1), CatAt(s.scraps, s.pp + 2), CatAt(s.scraps, s.pp + 3), forceLines);
    if !p.NoRule? {
      FireReserves(s, p);
    }
  }

  lemma FireReserves(s: State, p: Production)
    requires WellFormed(s) && Fits(p, |s.scraps| - s.pp) && (Retags(p) ==> ReservedAt(p) == 0)
    ensures var k, toks := ReservedAt(p), Fire(s, p).store.toks;
            && |toks| >= |s.store.toks| && s.pp + k < |s.scraps| && (k == 0 ==> toks[..|s.store.toks|] == s.store.toks)
            && var t := s.scraps[s.pp + k].trans; var names := Names(s.store, t, s.store.starts[t]);
               k > 0 && names != [] ==> names[0] < |s.store.toks| && toks[names[0]] == Res(s.store.toks[names[0]].Number())
  {
    var k := ReservedAt(p);
    if !Retags(p) {
      PreparedValid(s, p);
      var u := Prepared(s, p);
      assert Fire(s, p).store.toks == u.store.toks + Drafted(u, p).out;
      if k > 0 { ReservedExactly(s.store, s.scraps, s.pp + k); }
    }
  }
}
