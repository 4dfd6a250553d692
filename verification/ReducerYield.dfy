// What productions do with the scanned program: no production loses, repeats or
// reorders a leaf text, except that productions 84 and 85 throw away whatever was
// merged into the angle bracket they re-render (cweb/cweave.c:2143-2239, 2295-2942).

module ReducerYield {
  import opened Basics
  import opened Category
  import opened Productions
  import opened ProductionTable
  import opened TextStore
  import opened Reducer
  import opened Iteration
  import opened ReducerRun
  import opened ReducerMath

  /** A scanned text, or an angle bracket whichever way it is rendered. */
  datatype Symbol = Own(t: nat) | Less | Greater

  function LeafSymbol(leaves: seq<Leaf>, t: nat): Symbol
    requires t < |leaves|
  {
    if leaves[t].cat == PRELANGLE then Less else if leaves[t].cat == PRERANGLE then Greater else Own(t)
  }

  /** The leaves below text t, from left to right. */
  function Yield(store: Store, leaves: seq<Leaf>, t: nat): seq<Symbol>
    requires store.Valid()
    decreases t, 2, 0
  {
    if t < |leaves| then [LeafSymbol(leaves, t)]
    else if t < store.Texts() then YieldAll(store, leaves, store.Text(t), t)
    else []
  }

  function YieldToken(store: Store, leaves: seq<Leaf>, tok: Token, bound: nat): seq<Symbol>
    requires store.Valid()
    decreases bound, 0, 0
  {
    match tok
    case Code(c) => if c == LESS_CHAR then [Less] else if c == GREATER_CHAR then [Greater] else []
    case Ref(t) => if t < bound then Yield(store, leaves, t) else []
    case _ => []
  }

  function YieldAll(store: Store, leaves: seq<Leaf>, toks: seq<Token>, bound: nat): seq<Symbol>
    requires store.Valid()
    decreases bound, 1, |toks|
  {
    if toks == [] then []
    else YieldAll(store, leaves, toks[..|toks|-1], bound) + YieldToken(store, leaves, toks[|toks|-1], bound)
  }

  /** The scanned program that the live scraps stand for. */
  function YieldScraps(store: Store, leaves: seq<Leaf>, scraps: seq<Scrap>): seq<Symbol>
    requires store.Valid()
  {
    if scraps == [] then []
    else Yield(store, leaves, scraps[0].trans) + YieldScraps(store, leaves, scraps[1..])
  }

  lemma {:induction false} YieldScrapsConcat(store: Store, leaves: seq<Leaf>, a: seq<Scrap>, b: seq<Scrap>)
    requires store.Valid()
    ensures YieldScraps(store, leaves, a + b) == YieldScraps(store, leaves, a) + YieldScraps(store, leaves, b)
  {
    if a == [] {
      assert a + b == b;
    } else {
      assert (a + b)[1..] == a[1..] + b;
      YieldScrapsConcat(store, leaves, a[1..], b);
    }
  }

  lemma YieldPut(store: Store, leaves: seq<Leaf>, a: seq<Token>, tok: Token, bound: nat)
    requires store.Valid()
    ensures YieldAll(store, leaves, a + [tok], bound)
         == YieldAll(store, leaves, a, bound) + YieldToken(store, leaves, tok, bound)
  {
    assert (a + [tok])[..|a|] == a;
  }

  // A code that is no angle bracket yields nothing.
  lemma YieldCode(store: Store, leaves: seq<Leaf>, a: seq<Token>, c: nat, bound: nat)
    requires store.Valid() && !IsAngleCode(c)
    ensures YieldAll(store, leaves, a + [Code(c)], bound) == YieldAll(store, leaves, a, bound)
  {
    YieldPut(store, leaves, a, Code(c), bound);
  }

  lemma YieldSwitch(store: Store, leaves: seq<Leaf>, a: seq<Token>, mode: nat, bound: nat)
    requires store.Valid()
    ensures YieldAll(store, leaves, a + Switch(mode), bound) == YieldAll(store, leaves, a, bound)
  {
    var x, y, z := if mode == NO_MATH then OPEN_BRACE else DOLLAR, if mode == NO_MATH then CLOSE_BRACE else OPEN_BRACE,
                   if mode == NO_MATH then DOLLAR else CLOSE_BRACE;
    assert a + Switch(mode) == a + [Code(x)] + [Code(y)] + [Code(z)];
    YieldCode(store, leaves, a, x, bound);
    YieldCode(store, leaves, a + [Code(x)], y, bound);
    YieldCode(store, leaves, a + [Code(x)] + [Code(y)], z, bound);
  }

  lemma YieldEnter(store: Store, leaves: seq<Leaf>, b: Draft, mode: nat, bound: nat)
    requires store.Valid()
    ensures YieldAll(store, leaves, Enter(b, mode).out, bound) == YieldAll(store, leaves, b.out, bound)
  {
    YieldSwitch(store, leaves, b.out, mode, bound);
  }

  lemma YieldTake(store: Store, leaves: seq<Leaf>, b: Draft, a: Scrap, bound: nat)
    requires store.Valid() && a.trans < bound
    ensures YieldAll(store, leaves, BigApp1(b, a).out, bound) == YieldAll(store, leaves, b.out, bound) + Yield(store, leaves, a.trans)
  {
    var m := a.mathness % 4;
    YieldEnter(store, leaves, b, m, bound);
    YieldPut(store, leaves, if m == NO_MATH || m == YES_MATH then Enter(b, m).out else b.out, Ref(a.trans), bound);
  }

  lemma YieldBig(store: Store, leaves: seq<Leaf>, b: Draft, c: nat, bound: nat)
    requires store.Valid() && !IsAngleCode(c)
    ensures YieldAll(store, leaves, BigApp(b, c).out, bound) == YieldAll(store, leaves, b.out, bound)
  {
    var mode := if WantsText(c) then NO_MATH else YES_MATH;
    YieldEnter(store, leaves, b, mode, bound);
    YieldCode(store, leaves, Enter(b, mode).out, c, bound);
  }

  lemma YieldPerform(store: Store, leaves: seq<Leaf>, b: Draft, op: Op, window: seq<Scrap>, bound: nat)
    requires store.Valid() && InRange(op, |window|) && op != SetMath
    requires match op case Big(c) => !IsAngleCode(c) case Raw(c) => !IsAngleCode(c) case Escaped(c) => !IsAngleCode(c) case _ => true
    requires op.Take? ==> window[op.i].trans < bound
    ensures YieldAll(store, leaves, Perform(b, op, window).out, bound)
         == YieldAll(store, leaves, b.out, bound) + if op.Take? then Yield(store, leaves, window[op.i].trans) else []
  {
    match op {
      case Take(i) => YieldTake(store, leaves, b, window[i], bound);
      case Big(c) => YieldBig(store, leaves, b, c, bound);
      case Raw(c) => YieldCode(store, leaves, b.out, c, bound);
      case Escaped(c) =>
        YieldCode(store, leaves, b.out, BACKSLASH, bound);
        YieldCode(store, leaves, b.out + [Code(BACKSLASH)], c, bound);
    }
  }

  lemma YieldWindow(store: Store, leaves: seq<Leaf>, window: seq<Scrap>, i: nat, hi: nat)
    requires store.Valid() && i < hi <= |window|
    ensures YieldScraps(store, leaves, window[i..hi])
         == Yield(store, leaves, window[i].trans) + YieldScraps(store, leaves, window[i+1..hi])
  {
    assert window[i..hi][1..] == window[i+1..hi];
  }

  /** A body that mentions scraps i..hi in order yields what they yield. */
  lemma {:induction false} YieldBody(store: Store, leaves: seq<Leaf>, body: seq<Op>, j: nat, i: nat, hi: nat, blank: bool,
                                     b: Draft, window: seq<Scrap>, bound: nat)
    requires store.Valid() && j <= |body| && InOrder(body, j, i, hi, blank) && i <= hi <= |window|
    requires forall op :: op in body ==> InRange(op, |window|)
    requires forall y :: 0 <= y < |window| ==> window[y].trans < bound
    ensures YieldAll(store, leaves, PerformAll(body, j, b, window).out, bound)
         == YieldAll(store, leaves, b.out, bound) + YieldScraps(store, leaves, window[i..hi])
    decreases |body| - j
  {
    if j == |body| {
      assert window[i..hi] == [];
      NothingMore(YieldAll(store, leaves, b.out, bound));
    } else {
      var op := body[j];
      var c := Perform(b, op, window);
      YieldPerform(store, leaves, b, op, window, bound);
      if op.Take? {
        InOrderInRange(body, j + 1, i + 1, hi, blank);
        YieldBody(store, leaves, body, j + 1, i + 1, hi, blank, c, window, bound);
        YieldWindow(store, leaves, window, i, hi);
        Regroup(YieldAll(store, leaves, b.out, bound), Yield(store, leaves, window[i].trans), YieldScraps(store, leaves, window[i+1..hi]));
      } else {
        YieldBody(store, leaves, body, j + 1, i, hi, blank, c, window, bound);
        NothingMore(YieldAll(store, leaves, b.out, bound));
      }
    }
  }

  // ---------- yields do not change once a text is built

  lemma {:induction false} YieldStable(a: Store, b: Store, leaves: seq<Leaf>, t: nat)
    requires Extends(a, b, |leaves|) && t < a.Texts()
    ensures Yield(a, leaves, t) == Yield(b, leaves, t)
    decreases t, 2, 0
  {
    if t >= |leaves| { YieldAllStable(a, b, leaves, a.Text(t), t); }
  }

  lemma {:induction false} YieldAllStable(a: Store, b: Store, leaves: seq<Leaf>, toks: seq<Token>, bound: nat)
    requires Extends(a, b, |leaves|) && bound <= a.Texts()
    ensures YieldAll(a, leaves, toks, bound) == YieldAll(b, leaves, toks, bound)
    decreases bound, 1, |toks|
  {
    if toks != [] {
      YieldAllStable(a, b, leaves, toks[..|toks|-1], bound);
      var tok := toks[|toks|-1];
      if tok.Ref? && tok.t < bound { YieldStable(a, b, leaves, tok.t); }
    }
  }

  lemma {:induction false} YieldScrapsStable(a: Store, b: Store, leaves: seq<Leaf>, was: seq<Scrap>, now: seq<Scrap>)
    requires Extends(a, b, |leaves|) && |was| == |now|
    requires forall i :: 0 <= i < |was| ==> now[i].trans == was[i].trans < a.Texts()
    ensures YieldScraps(a, leaves, was) == YieldScraps(b, leaves, now)
  {
    if was != [] {
      YieldStable(a, b, leaves, was[0].trans);
      YieldScrapsStable(a, b, leaves, was[1..], now[1..]);
    }
  }

  // ---------- one production

  /** Every scrap stands for something, and an angle bracket that is not the scanned
      one stands for more than the bracket. */
  ghost predicate YieldInvariant(s: State, leaves: seq<Leaf>) {
    WellFormed(s) && Standing(s, leaves)
  }

  ghost predicate Standing(s: State, leaves: seq<Leaf>) {
    s.pp <= |s.scraps| && BuiltTexts(s.store, |leaves|) && |leaves| <= s.store.Texts() && AllStand(s.store, leaves, s.scraps)
  }

  ghost predicate AllStand(store: Store, leaves: seq<Leaf>, scraps: seq<Scrap>)
    requires store.Valid()
  {
    forall i :: 0 <= i < |scraps| ==> Stands(store, leaves, scraps[i])
  }

  predicate Scanned1(leaves: seq<Leaf>, a: Scrap) {
    a.trans < |leaves| && leaves[a.trans].cat == a.cat
  }

  predicate Stands(store: Store, leaves: seq<Leaf>, a: Scrap)
    requires store.Valid()
  {
    && a.trans < store.Texts()
    && |Yield(store, leaves, a.trans)| >= 1
    && (IsAngle(a.cat) ==> Scanned1(leaves, a) || (a.trans >= |leaves| && |Yield(store, leaves, a.trans)| >= 2))
  }

  function YieldOf(s: State, leaves: seq<Leaf>): seq<Symbol>
    requires s.store.Valid()
  {
    YieldScraps(s.store, leaves, s.scraps)
  }

  lemma {:induction false} YieldScrapsLong(store: Store, leaves: seq<Leaf>, scraps: seq<Scrap>)
    requires store.Valid() && AllStand(store, leaves, scraps)
    ensures |YieldScraps(store, leaves, scraps)| >= |scraps|
  {
    if scraps != [] { YieldScrapsLong(store, leaves, scraps[1..]); }
  }

  lemma YieldReplace(store: Store, leaves: seq<Leaf>, scraps: seq<Scrap>, j: nat, k: nat, a: Scrap)
    requires store.Valid() && j + k <= |scraps|
    ensures YieldScraps(store, leaves, Replace(scraps, j, k, a))
         == YieldScraps(store, leaves, scraps[..j]) + Yield(store, leaves, a.trans) + YieldScraps(store, leaves, scraps[j+k..])
  {
    YieldScrapsConcat(store, leaves, scraps[..j] + [a], scraps[j+k..]);
    YieldScrapsConcat(store, leaves, scraps[..j], [a]);
  }

  lemma YieldSplit(store: Store, leaves: seq<Leaf>, scraps: seq<Scrap>, j: nat, k: nat)
    requires store.Valid() && j + k <= |scraps|
    ensures YieldScraps(store, leaves, scraps)
         == YieldScraps(store, leaves, scraps[..j]) + YieldScraps(store, leaves, scraps[j..j+k]) + YieldScraps(store, leaves, scraps[j+k..])
  {
    assert scraps == scraps[..j] + scraps[j..j+k] + scraps[j+k..];
    YieldScrapsConcat(store, leaves, scraps[..j] + scraps[j..j+k], scraps[j+k..]);
    YieldScrapsConcat(store, leaves, scraps[..j], scraps[j..j+k]);
  }

  function YieldSlice(store: Store, leaves: seq<Leaf>, scraps: seq<Scrap>, j: nat, k: nat): seq<Symbol>
    requires store.Valid() && j + k <= |scraps|
  {
    YieldScraps(store, leaves, scraps[j..j+k])
  }

  function Bracket(c: Category): seq<Op> {
    [SetMath, Raw(if c == PRELANGLE then LESS_CHAR else GREATER_CHAR)]
  }

  function BracketSymbol(c: Category): Symbol {
    if c == PRELANGLE then Less else Greater
  }

  lemma WindowSlice(scraps: seq<Scrap>, pp: nat, at: nat, k: nat)
    requires pp + at + k <= |scraps|
    ensures scraps[pp..][at..at+k] == scraps[pp+at..pp+at+k]
  {
  }

  /** What the text of a production yields: the scraps it replaces ... */
  lemma YieldDrafted(s: State, p: Production, leaves: seq<Leaf>)
    requires s.store.Valid() && s.pp <= |s.scraps| && Fits(p, |s.scraps| - s.pp)
    requires forall i :: 0 <= i < |s.scraps| ==> s.scraps[i].trans < s.store.Texts()
    requires InOrder(Body(p), 0, p.at, p.at + p.k, PairsExps(p))
    ensures YieldAll(s.store, leaves, Drafted(s, p).out, s.store.Texts()) == YieldSlice(s.store, leaves, s.scraps, s.pp + p.at, p.k)
  {
    YieldBody(s.store, leaves, Body(p), 0, p.at, p.at + p.k, PairsExps(p), EMPTY_DRAFT, s.scraps[s.pp..], s.store.Texts());
    WindowSlice(s.scraps, s.pp, p.at, p.k);
  }

  /** ... or a fresh bracket. */
  lemma YieldBracket(s: State, p: Production, leaves: seq<Leaf>)
    requires s.store.Valid() && s.pp < |s.scraps| && Fits(p, |s.scraps| - s.pp)
    requires Body(p) == Bracket(s.scraps[s.pp].cat)
    ensures YieldAll(s.store, leaves, Drafted(s, p).out, s.store.Texts()) == [BracketSymbol(s.scraps[s.pp].cat)]
  {
    var window := s.scraps[s.pp..];
    var c := if s.scraps[s.pp].cat == PRELANGLE then LESS_CHAR else GREATER_CHAR;
    var inside := Draft([], YES_MATH, YES_MATH);
    assert PerformAll(Body(p), 0, EMPTY_DRAFT, window) == PerformAll(Body(p), 1, inside, window);
    assert PerformAll(Body(p), 1, inside, window) == PerformAll(Body(p), 2, Put(inside, Code(c)), window);
    YieldPut(s.store, leaves, [], Code(c), s.store.Texts());
  }

  // The new scrap, and all the others, after a text has been appended.
  lemma YieldAppended(store: Store, leaves: seq<Leaf>, scraps: seq<Scrap>, out: seq<Token>, j: nat, k: nat, a: Scrap)
    requires BuiltTexts(store, |leaves|) && |leaves| <= store.Texts() && Built(out, store.Texts())
    requires j + k <= |scraps| && a.trans == store.Texts()
    requires forall i :: 0 <= i < |scraps| ==> scraps[i].trans < store.Texts()
    ensures var after := store.Append(out);
            && Yield(after, leaves, a.trans) == YieldAll(store, leaves, out, store.Texts())
            && YieldScraps(after, leaves, Replace(scraps, j, k, a))
               == YieldScraps(store, leaves, scraps[..j]) + YieldAll(store, leaves, out, store.Texts()) + YieldScraps(store, leaves, scraps[j+k..])
  {
    var after := store.Append(out);
    store.AppendFreezes(out);
    AppendExtends(store, out, |leaves|);
    YieldAllStable(store, after, leaves, out, store.Texts());
    YieldReplace(after, leaves, scraps, j, k, a);
    YieldScrapsStable(store, after, leaves, scraps[..j], scraps[..j]);
    YieldScrapsStable(store, after, leaves, scraps[j+k..], scraps[j+k..]);
  }

  lemma PreparedYields(s: State, p: Production, leaves: seq<Leaf>)
    requires YieldInvariant(s, leaves) && Fits(p, |s.scraps| - s.pp)
    ensures YieldInvariant(Prepared(s, p), leaves) && YieldOf(Prepared(s, p), leaves) == YieldOf(s, leaves)
  {
    var t := Prepared(s, p);
    PreparedWellFormed(s, p);
    PreparedValid(s, p);
    FlippedExtends(s.store, t.store, |leaves|);
    YieldScrapsStable(s.store, t.store, leaves, s.scraps, t.scraps);
    forall i | 0 <= i < |t.scraps|
      ensures Stands(t.store, leaves, t.scraps[i])
    {
      assert Stands(s.store, leaves, s.scraps[i]);
      YieldStable(s.store, t.store, leaves, s.scraps[i].trans);
    }
  }

  /** The production re-renders a bracket that something has been merged into. */
  predicate Drops(s: State, p: Production, leaves: seq<Leaf>) {
    Rerenders(p) && s.pp < |s.scraps| && s.scraps[s.pp].trans >= |leaves|
  }

  // The facts about a production that matter for yields.
  predicate Orderly(s: State, p: Production) {
    && (BuildsText(p) ==> InOrder(Body(p), 0, p.at, p.at + p.k, PairsExps(p)))
    && (Rerenders(p) ==> p.at == 0 && p.k == 1 && s.pp < |s.scraps| && IsAngle(s.scraps[s.pp].cat) && Body(p) == Bracket(s.scraps[s.pp].cat))
    && (!p.NoRule? && IsAngle(p.cat) ==> p.k == 2 && BuildsText(p))
  }

  lemma SoundOrderly(s: State, p: Production)
    requires SoundAt(s.scraps, s.pp, p) && s.pp < |s.scraps|
    ensures Orderly(s, p)
  {
  }

  lemma AllStandSlice(store: Store, leaves: seq<Leaf>, scraps: seq<Scrap>, j: nat, k: nat)
    requires store.Valid() && AllStand(store, leaves, scraps) && j + k <= |scraps|
    ensures |YieldScraps(store, leaves, scraps[j..j+k])| >= k
  {
    YieldScrapsLong(store, leaves, scraps[j..j+k]);
  }

  lemma BracketYield(store: Store, leaves: seq<Leaf>, a: Scrap)
    requires store.Valid() && Stands(store, leaves, a) && IsAngle(a.cat)
    ensures a.trans < |leaves| ==> Yield(store, leaves, a.trans) == [BracketSymbol(a.cat)]
    ensures a.trans >= |leaves| ==> |Yield(store, leaves, a.trans)| >= 2
    ensures YieldScraps(store, leaves, [a]) == Yield(store, leaves, a.trans)
  {
  }

  // The text of a production against the scraps it replaces.
  lemma YieldAgainst(s: State, p: Production, leaves: seq<Leaf>, j: nat, text: seq<Symbol>)
    requires Standing(s, leaves) && Fits(p, |s.scraps| - s.pp) && Orderly(s, p) && !Retags(p)
    requires j == s.pp + p.at && text == YieldAll(s.store, leaves, Drafted(s, p).out, s.store.Texts())
    ensures Drops(s, p, leaves) ==> |text| < |YieldSlice(s.store, leaves, s.scraps, j, p.k)|
    ensures !Drops(s, p, leaves) ==> text == YieldSlice(s.store, leaves, s.scraps, j, p.k)
    ensures |text| >= 1 && (IsAngle(p.cat) ==> |text| >= 2)
  {
    if Rerenders(p) {
      YieldBracket(s, p, leaves);
      RerenderAgainst(s.store, leaves, s.scraps, s.pp);
    } else {
      YieldDrafted(s, p, leaves);
      AllStandSlice(s.store, leaves, s.scraps, j, p.k);
    }
  }

  lemma RerenderAgainst(store: Store, leaves: seq<Leaf>, scraps: seq<Scrap>, j: nat)
    requires store.Valid() && AllStand(store, leaves, scraps) && j < |scraps| && IsAngle(scraps[j].cat)
    ensures scraps[j].trans < |leaves| ==> YieldSlice(store, leaves, scraps, j, 1) == [BracketSymbol(scraps[j].cat)]
    ensures scraps[j].trans >= |leaves| ==> |YieldSlice(store, leaves, scraps, j, 1)| >= 2
  {
    BracketYield(store, leaves, scraps[j]);
    assert scraps[j..j+1] == [scraps[j]];
  }

  lemma ReplacedStand(store: Store, after: Store, leaves: seq<Leaf>, scraps: seq<Scrap>, j: nat, k: nat, a: Scrap, scraps': seq<Scrap>)
    requires Extends(store, after, |leaves|) && AllStand(store, leaves, scraps) && Stands(after, leaves, a)
    requires 1 <= k && j + k <= |scraps| && scraps' == Replace(scraps, j, k, a)
    ensures AllStand(after, leaves, scraps')
  {
    forall i | 0 <= i < |scraps'|
      ensures Stands(after, leaves, scraps'[i])
    {
      if i != j {
        var from := scraps[if i < j then i else i + k - 1];
        assert scraps'[i] == from && Stands(store, leaves, from);
        YieldStable(store, after, leaves, from.trans);
      }
    }
  }

  // After a text has been appended: what the live scraps yield, and that all stand.
  lemma AppendedStands(store: Store, after: Store, leaves: seq<Leaf>, scraps: seq<Scrap>, scraps': seq<Scrap>,
                       out: seq<Token>, j: nat, k: nat, a: Scrap, text: seq<Symbol>)
    requires BuiltTexts(store, |leaves|) && |leaves| <= store.Texts() && Built(out, store.Texts()) && AllStand(store, leaves, scraps)
    requires text == YieldAll(store, leaves, out, store.Texts())
    requires |text| >= 1 && (IsAngle(a.cat) ==> |text| >= 2)
    requires 1 <= k && j + k <= |scraps| && a.trans == store.Texts()
    requires after == store.Append(out) && scraps' == Replace(scraps, j, k, a)
    ensures BuiltTexts(after, |leaves|) && AllStand(after, leaves, scraps')
    ensures YieldScraps(after, leaves, scraps')
         == YieldScraps(store, leaves, scraps[..j]) + text + YieldScraps(store, leaves, scraps[j+k..])
  {
    AppendExtends(store, out, |leaves|);
    YieldAppended(store, leaves, scraps, out, j, k, a);
    ReplacedStand(store, after, leaves, scraps, j, k, a, scraps');
  }

  // Replacing scraps j..j+k by one that yields `text`.
  lemma YieldCompared(store: Store, leaves: seq<Leaf>, scraps: seq<Scrap>, j: nat, k: nat, text: seq<Symbol>, drops: bool)
    requires store.Valid() && j + k <= |scraps|
    requires drops ==> |text| < |YieldSlice(store, leaves, scraps, j, k)|
    requires !drops ==> text == YieldSlice(store, leaves, scraps, j, k)
    ensures var now := YieldScraps(store, leaves, scraps[..j]) + text + YieldScraps(store, leaves, scraps[j+k..]);
            && (drops ==> |now| < |YieldScraps(store, leaves, scraps)|)
            && (!drops ==> now == YieldScraps(store, leaves, scraps))
  {
    YieldSplit(store, leaves, scraps, j, k);
  }

  lemma BuiltStands(store: Store, after: Store, leaves: seq<Leaf>, scraps: seq<Scrap>, scraps': seq<Scrap>,
                    out: seq<Token>, j: nat, k: nat, a: Scrap, text: seq<Symbol>)
    requires BuiltTexts(store, |leaves|) && |leaves| <= store.Texts() && Built(out, store.Texts()) && AllStand(store, leaves, scraps)
    requires text == YieldAll(store, leaves, out, store.Texts()) && |text| >= 1 && (IsAngle(a.cat) ==> |text| >= 2)
    requires 1 <= k && j + k <= |scraps| && a.trans == store.Texts()
    requires after == store.Append(out) && scraps' == Replace(scraps, j, k, a)
    ensures BuiltTexts(after, |leaves|) && AllStand(after, leaves, scraps')
    ensures after.Valid() && YieldScraps(after, leaves, scraps')
         == YieldScraps(store, leaves, scraps[..j]) + text + YieldScraps(store, leaves, scraps[j+k..])
  {
    store.AppendFreezes(out);
    AppendedStands(store, after, leaves, scraps, scraps', out, j, k, a, text);
  }

  lemma BuildYields(s: State, p: Production, leaves: seq<Leaf>, t: State)
    requires Standing(s, leaves) && Fits(p, |s.scraps| - s.pp) && Orderly(s, p) && !Retags(p) && t == Build(s, p)
    ensures BuiltTexts(t.store, |leaves|) && AllStand(t.store, leaves, t.scraps)
    ensures Drops(s, p, leaves) ==> |YieldOf(t, leaves)| < |YieldOf(s, leaves)|
    ensures !Drops(s, p, leaves) ==> YieldOf(t, leaves) == YieldOf(s, leaves)
  {
    var out, j, a := Drafted(s, p).out, s.pp + p.at, NewScrap(s, p);
    var text := TextOfBuild(s, p, leaves, out, j);
    PutYields(s.store, t.store, leaves, s.scraps, t.scraps, out, j, p.k, a, text, Drops(s, p, leaves));
  }

  // A text that replaces scraps j..j+k, and what it says compared with them.
  lemma PutYields(store: Store, after: Store, leaves: seq<Leaf>, scraps: seq<Scrap>, scraps': seq<Scrap>,
                  out: seq<Token>, j: nat, k: nat, a: Scrap, text: seq<Symbol>, drops: bool)
    requires BuiltTexts(store, |leaves|) && |leaves| <= store.Texts() && Built(out, store.Texts()) && AllStand(store, leaves, scraps)
    requires text == YieldAll(store, leaves, out, store.Texts()) && |text| >= 1 && (IsAngle(a.cat) ==> |text| >= 2)
    requires 1 <= k && j + k <= |scraps| && a.trans == store.Texts()
    requires after == store.Append(out) && scraps' == Replace(scraps, j, k, a)
    requires if drops then |text| < |YieldSlice(store, leaves, scraps, j, k)| else text == YieldSlice(store, leaves, scraps, j, k)
    ensures BuiltTexts(after, |leaves|) && AllStand(after, leaves, scraps') && after.Valid()
    ensures if drops then |YieldScraps(after, leaves, scraps')| < |YieldScraps(store, leaves, scraps)|
            else YieldScraps(after, leaves, scraps') == YieldScraps(store, leaves, scraps)
  {
    BuiltStands(store, after, leaves, scraps, scraps', out, j, k, a, text);
    YieldCompared(store, leaves, scraps, j, k, text, drops);
  }

  lemma TextOfBuild(s: State, p: Production, leaves: seq<Leaf>, out: seq<Token>, j: nat) returns (text: seq<Symbol>)
    requires Standing(s, leaves) && Fits(p, |s.scraps| - s.pp) && Orderly(s, p) && !Retags(p) && j == s.pp + p.at && out == Drafted(s, p).out
    ensures Built(out, s.store.Texts()) && text == YieldAll(s.store, leaves, out, s.store.Texts())
    ensures Drops(s, p, leaves) ==> |text| < |YieldSlice(s.store, leaves, s.scraps, j, p.k)|
    ensures !Drops(s, p, leaves) ==> text == YieldSlice(s.store, leaves, s.scraps, j, p.k)
    ensures |text| >= 1 && (IsAngle(p.cat) ==> |text| >= 2)
  {
    text := YieldAll(s.store, leaves, out, s.store.Texts());
    BodyBuilds(Body(p), 0, EMPTY_DRAFT, s.scraps[s.pp..], s.store.Texts());
    YieldAgainst(s, p, leaves, j, text);
  }

  lemma RetagStands(s: State, p: Production, leaves: seq<Leaf>)
    requires YieldInvariant(s, leaves) && Fits(p, |s.scraps| - s.pp) && Orderly(s, p) && Retags(p)
    ensures AllStand(s.store, leaves, Fire(s, p).scraps) && YieldOf(Fire(s, p), leaves) == YieldOf(s, leaves)
  {
    var t := Fire(s, p);
    forall i | 0 <= i < |t.scraps|
      ensures Stands(s.store, leaves, t.scraps[i])
    {
      assert Stands(s.store, leaves, s.scraps[i]);
    }
    YieldScrapsStable(s.store, s.store, leaves, s.scraps, t.scraps);
  }

  lemma PreparedOrderly(s: State, p: Production, leaves: seq<Leaf>)
    requires WellFormed(s) && Fits(p, |s.scraps| - s.pp) && Orderly(s, p)
    ensures Orderly(Prepared(s, p), p) && (Drops(Prepared(s, p), p, leaves) <==> Drops(s, p, leaves))
  {
    PreparedValid(s, p);
  }

  /** A production keeps the scanned program, unless it re-renders a bracket that
      something has been merged into; then it loses what was merged. */
  lemma FireYields(s: State, p: Production, leaves: seq<Leaf>)
    requires YieldInvariant(s, leaves) && Fits(p, |s.scraps| - s.pp) && Shapely(p) && Orderly(s, p)
    ensures var t := Fire(s, p);
            YieldInvariant(t, leaves) &&
            if Drops(s, p, leaves) then |YieldOf(t, leaves)| < |YieldOf(s, leaves)| else YieldOf(t, leaves) == YieldOf(s, leaves)
  {
    FireWellFormed(s, p);
    if Retags(p) {
      RetagStands(s, p, leaves);
    } else {
      PreparedValid(s, p);
      PreparedYields(s, p, leaves);
      PreparedOrderly(s, p, leaves);
      var t := Prepared(s, p);
      BuildYields(t, p, leaves, Build(t, p));
    }
  }

  // ---------- whole runs

  /** The next iteration re-renders a bracket that something has been merged into. */
  ghost predicate Loses(s: State, rules: Rules, leaves: seq<Leaf>) {
    s.pp < |s.scraps| && Drops(s, ProductionAt(s.scraps, s.pp, rules), leaves)
  }

  lemma StepYields(s: State, rules: Rules, leaves: seq<Leaf>) returns (t: State)
    requires SoundRules(rules) && YieldInvariant(s, leaves) && s.pp < |s.scraps|
    ensures t == Step(s, rules) && YieldInvariant(t, leaves)
    ensures Loses(s, rules, leaves) ==> |YieldOf(t, leaves)| < |YieldOf(s, leaves)|
    ensures !Loses(s, rules, leaves) ==> YieldOf(t, leaves) == YieldOf(s, leaves)
  {
    var p := ProductionAt(s.scraps, s.pp, rules);
    ProductionFits(s, rules);
    t := Step(s, rules);
    if !p.NoRule? {
      SoundShapely(s, p);
      SoundOrderly(s, p);
      FireYields(s, p, leaves);
    }
  }

  /** Some iteration of the run re-renders a bracket that something has been merged into. */
  ghost predicate LosesSometime(s: State, rules: Rules, leaves: seq<Leaf>) {
    exists n: nat :: Loses(Steps(s, rules, n), rules, leaves)
  }

  lemma ScannedYields(s: State, leaves: seq<Leaf>)
    requires Scanned(s, leaves)
    ensures YieldInvariant(s, leaves)
  {
  }

  /** The scanned program: one symbol a scrap. */
  function Program(leaves: seq<Leaf>, scraps: seq<Scrap>): seq<Symbol>
    requires forall i :: 0 <= i < |scraps| ==> scraps[i].trans < |leaves|
  {
    if scraps == [] then [] else [LeafSymbol(leaves, scraps[0].trans)] + Program(leaves, scraps[1..])
  }

  lemma {:induction false} ProgramIsYield(store: Store, leaves: seq<Leaf>, scraps: seq<Scrap>)
    requires store.Valid() && forall i :: 0 <= i < |scraps| ==> scraps[i].trans < |leaves|
    ensures YieldScraps(store, leaves, scraps) == Program(leaves, scraps)
  {
    if scraps != [] { ProgramIsYield(store, leaves, scraps[1..]); }
  }

  lemma NextYields(t: State, rules: Rules, leaves: seq<Leaf>, next: State -> State)
    requires SoundRules(rules) && YieldInvariant(t, leaves) && next == Next(rules)
    ensures YieldInvariant(next(t), leaves)
    ensures Loses(t, rules, leaves) ==> |YieldOf(next(t), leaves)| < |YieldOf(t, leaves)|
    ensures !Loses(t, rules, leaves) ==> YieldOf(next(t), leaves) == YieldOf(t, leaves)
  {
    NextIsStep(t, rules);
    if t.pp < |t.scraps| {
      var r := StepYields(t, rules, leaves);
    }
  }

  /** n iterations keep the scanned program if none of them loses something; otherwise
      something is missing at the end. */
  lemma StepsYield(s: State, rules: Rules, leaves: seq<Leaf>, n: nat, next: State -> State)
    requires SoundRules(rules) && YieldInvariant(s, leaves) && next == Next(rules)
    ensures YieldInvariant(Iterate(next, s, n), leaves)
    ensures (forall m :: 0 <= m < n ==> !Loses(Iterate(next, s, m), rules, leaves))
            ==> YieldOf(Iterate(next, s, n), leaves) == YieldOf(s, leaves)
    ensures (exists m :: 0 <= m < n && Loses(Iterate(next, s, m), rules, leaves))
            ==> |YieldOf(Iterate(next, s, n), leaves)| < |YieldOf(s, leaves)|
  {
    var inv := (t: State) => YieldInvariant(t, leaves);
    var bad := (t: State) => Loses(t, rules, leaves);
    var value := (t: State) => if t.store.Valid() then YieldOf(t, leaves) else [];
    forall t: State | inv(t)
      ensures inv(next(t))
      ensures bad(t) ==> |value(next(t))| < |value(t)|
      ensures !bad(t) ==> value(next(t)) == value(t)
    {
      NextYields(t, rules, leaves, next);
    }
    Conservation(next, s, n, inv, bad, value);
    Invariance(next, s, n, inv);
    assert inv(Iterate(next, s, n));
    assert forall m :: bad(Iterate(next, s, m)) <==> Loses(Iterate(next, s, m), rules, leaves);
  }

  /** For all inputs: the scraps that `translate` leaves stand for exactly the scanned
      program if and only if no iteration re-rendered a bracket that something had been
      merged into. */
  lemma TranslateKeepsProgram(s: State, rules: Rules, leaves: seq<Leaf>)
    requires SoundRules(rules) && Scanned(s, leaves)
    ensures YieldOf(Run(s, rules), leaves) == Program(leaves, s.scraps) <==> !LosesSometime(s, rules, leaves)
  {
    ScannedYields(s, leaves);
    ProgramIsYield(s.store, leaves, s.scraps);
    var next := Next(rules);
    var last := RunIsSteps(s, rules, next);
    if n: nat :| Loses(Steps(s, rules, n), rules, leaves) {
      StepsYield(s, rules, leaves, last + n + 1, next);
      assert Loses(Iterate(next, s, n), rules, leaves);
    } else {
      StepsYield(s, rules, leaves, last, next);
      assert forall m: nat :: Steps(s, rules, m) == Iterate(next, s, m);
    }
  }
}
