// Repeated application of one step, and what follows from what one step does.

module Iteration {

  ghost function Iterate<S>(next: S -> S, s: S, n: nat): S
    decreases n
  {
    if n == 0 then s else next(Iterate(next, s, n - 1))
  }

  lemma {:induction false} IterateFirst<S>(next: S -> S, s: S, n: nat)
    ensures Iterate(next, next(s), n) == Iterate(next, s, n + 1)
    decreases n
  {
    if n > 0 {
      IterateFirst(next, s, n - 1);
    }
  }

  lemma {:induction false} IterateFixed<S>(next: S -> S, s: S, n: nat)
    requires next(s) == s
    ensures Iterate(next, s, n) == s
    decreases n
  {
    if n > 0 {
      IterateFixed(next, s, n - 1);
    }
  }

  lemma {:induction false} IterateSum<S>(next: S -> S, s: S, m: nat, n: nat)
    ensures Iterate(next, Iterate(next, s, m), n) == Iterate(next, s, m + n)
    decreases n
  {
    if n > 0 {
      IterateSum(next, s, m, n - 1);
    }
  }

  /** What every step keeps holds in every state of every run. */
  lemma {:induction false} Invariance<S(!new)>(next: S -> S, s: S, n: nat, inv: S -> bool)
    requires inv(s) && forall t {:trigger next(t)} :: inv(t) ==> inv(next(t))
    ensures inv(Iterate(next, s, n))
    decreases n
  {
    if n > 0 {
      Invariance(next, s, n - 1, inv);
    }
  }

  /** What every step from a good state keeps holds in every state of a run of good ones. */
  lemma {:induction false} InvarianceWhile<S(!new)>(next: S -> S, s: S, n: nat, inv: S -> bool, good: S -> bool)
    requires inv(s) && forall t {:trigger next(t)} :: inv(t) && good(t) ==> inv(next(t))
    requires forall m: nat :: good(Iterate(next, s, m))
    ensures inv(Iterate(next, s, n))
    decreases n
  {
    if n > 0 {
      InvarianceWhile(next, s, n - 1, inv, good);
      assert good(Iterate(next, s, n - 1));
    }
  }

  /** If bad steps shorten a value and the others keep it, the value at the end is the
      value at the start exactly when no step was bad. */
  lemma {:induction false} Conservation<S(!new), T>(next: S -> S, s: S, n: nat, inv: S -> bool, bad: S -> bool, value: S -> seq<T>)
    requires inv(s) && forall t {:trigger next(t)} :: inv(t) ==> inv(next(t))
    requires forall t {:trigger next(t)} :: inv(t) && bad(t) ==> |value(next(t))| < |value(t)|
    requires forall t {:trigger next(t)} :: inv(t) && !bad(t) ==> value(next(t)) == value(t)
    ensures (forall m :: 0 <= m < n ==> !bad(Iterate(next, s, m))) ==> value(Iterate(next, s, n)) == value(s)
    ensures (exists m :: 0 <= m < n && bad(Iterate(next, s, m))) ==> |value(Iterate(next, s, n))| < |value(s)|
    decreases n
  {
    if n > 0 {
      Conservation(next, s, n - 1, inv, bad, value);
      Invariance(next, s, n - 1, inv);
    }
  }

  /** The m-th step is the last of n steps that could change `left`, and it brought it about. */
  ghost predicate LastCause<S(!new)>(next: S -> S, s: S, n: nat, m: nat, reach: S -> bool, left: S -> bool) {
    && m < n && reach(Iterate(next, s, m)) && left(Iterate(next, s, m + 1))
    && forall x: nat :: m < x < n ==> !reach(Iterate(next, s, x))
  }

  /** If only steps that reach can change a property that does not hold at first, then it
      holds at the end exactly when the last step that reached brought it about. */
  lemma {:induction false} LeftByLast<S(!new)>(next: S -> S, s: S, n: nat, inv: S -> bool, reach: S -> bool, left: S -> bool)
    requires inv(s) && !left(s) && forall t {:trigger next(t)} :: inv(t) ==> inv(next(t))
    requires forall t {:trigger next(t)} :: inv(t) && !reach(t) ==> left(next(t)) == left(t)
    ensures left(Iterate(next, s, n)) <==> exists m: nat :: LastCause(next, s, n, m, reach, left)
    decreases n
  {
    if n > 0 {
      var k: nat := n - 1;
      LeftByLast(next, s, k, inv, reach, left);
      Invariance(next, s, k, inv);
      var t := Iterate(next, s, k);
      if reach(t) {
        forall m: nat | LastCause(next, s, n, m, reach, left)
          ensures m == k
        {
        }
        assert left(next(t)) ==> LastCause(next, s, n, k, reach, left);
      } else {
        forall m: nat
          ensures LastCause(next, s, n, m, reach, left) <==> LastCause(next, s, k, m, reach, left)
        {
          SameCause(next, s, n, m, reach, left);
        }
        assert left(Iterate(next, s, n)) == left(next(t)) == left(t);
      }
    }
  }

  lemma SameCause<S(!new)>(next: S -> S, s: S, n: nat, m: nat, reach: S -> bool, left: S -> bool)
    requires n > 0 && !reach(Iterate(next, s, n - 1))
    ensures LastCause(next, s, n, m, reach, left) <==> LastCause(next, s, n - 1, m, reach, left)
  {
    if LastCause(next, s, n, m, reach, left) {
      assert m != n - 1;
    }
  }

  /** The m-th step is the last of all that could change `left`, and it brought it about. */
  ghost predicate LeavesForGood<S(!new)>(next: S -> S, s: S, m: nat, reach: S -> bool, left: S -> bool) {
    && reach(Iterate(next, s, m)) && left(Iterate(next, s, m + 1))
    && forall n: nat :: m < n ==> !reach(Iterate(next, s, n))
  }

  /** The same for a run that ends after `last` steps, in a state in which nothing is reached. */
  lemma LeftForGood<S(!new)>(next: S -> S, s: S, last: nat, end: S, inv: S -> bool, reach: S -> bool, left: S -> bool)
    requires inv(s) && !left(s) && forall t {:trigger next(t)} :: inv(t) ==> inv(next(t))
    requires forall t {:trigger next(t)} :: inv(t) && !reach(t) ==> left(next(t)) == left(t)
    requires !reach(end) && forall n: nat :: last <= n ==> Iterate(next, s, n) == end
    ensures left(end) <==> exists m: nat :: LeavesForGood(next, s, m, reach, left)
  {
    LeftByLast(next, s, last, inv, reach, left);
    forall m: nat
      ensures LeavesForGood(next, s, m, reach, left) <==> LastCause(next, s, last, m, reach, left)
    {
      EndsForGood(next, s, last, end, m, reach, left);
    }
  }

  lemma EndsForGood<S(!new)>(next: S -> S, s: S, last: nat, end: S, m: nat, reach: S -> bool, left: S -> bool)
    requires !reach(end) && forall n: nat :: last <= n ==> Iterate(next, s, n) == end
    ensures LeavesForGood(next, s, m, reach, left) <==> LastCause(next, s, last, m, reach, left)
  {
    if LeavesForGood(next, s, m, reach, left) {
      assert m < last;
    }
    if LastCause(next, s, last, m, reach, left) {
      forall n: nat | m < n
        ensures !reach(Iterate(next, s, n))
      {
        if n >= last { assert Iterate(next, s, n) == end; }
      }
    }
  }

  /** If steps from states that look good look like the steps of what is seen, so does a run
      as long as what is seen is good. */
  lemma {:induction false} Simulation<S(!new), R(!new)>(next: S -> S, view: S -> R, seen: R -> R, s: S, r: R, n: nat, inv: S -> bool, good: R -> bool)
    requires inv(s) && view(s) == r
    requires forall t {:trigger next(t)} :: inv(t) && good(view(t)) ==> inv(next(t)) && view(next(t)) == seen(view(t))
    requires forall m: nat {:trigger good(Iterate(seen, r, m))} :: m < n ==> good(Iterate(seen, r, m))
    ensures inv(Iterate(next, s, n)) && view(Iterate(next, s, n)) == Iterate(seen, r, n)
    decreases n
  {
    if n > 0 {
      Simulation(next, view, seen, s, r, n - 1, inv, good);
      assert good(Iterate(seen, r, n - 1));
    }
  }

  /** What holds at first and not after n steps is brought to an end by some step. */
  lemma {:induction false} FirstEnd<S(!new)>(next: S -> S, s: S, n: nat, inv: S -> bool) returns (m: nat)
    requires inv(s) && !inv(Iterate(next, s, n))
    ensures m < n && !inv(Iterate(next, s, m + 1)) && forall k: nat {:trigger inv(Iterate(next, s, k))} :: k <= m ==> inv(Iterate(next, s, k))
    decreases n
  {
    if exists k: nat :: k < n && !inv(Iterate(next, s, k)) {
      var k: nat :| k < n && !inv(Iterate(next, s, k));
      m := FirstEnd(next, s, k, inv);
    } else {
      m := n - 1;
    }
  }

  /** From s the state t is reached in n steps from good states. */
  ghost predicate LeadsTo<S(!new)>(next: S -> S, good: S -> bool, s: S, t: S, n: nat) {
    Iterate(next, s, n) == t && forall m: nat {:trigger good(Iterate(next, s, m))} :: m < n ==> good(Iterate(next, s, m))
  }

  lemma LeadsOn<S(!new)>(next: S -> S, good: S -> bool, s: S, t: S, n: nat, u: S)
    requires LeadsTo(next, good, s, t, n) && good(t) && next(t) == u
    ensures LeadsTo(next, good, s, u, n + 1)
  {
  }
}
