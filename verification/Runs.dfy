/**
 Runs of an interleaved program.  A program is given by its step function: `next(s, a)` is the
 state after the schedule picks `a`, or None when `a` cannot happen in `s` (a thread that is
 blocked or finished).  A schedule is the sequence of the picks.
 */
module Runs {

  datatype Option<+T> = None | Some(value: T)

  /** The state reached from `s` by the schedule `acts`, or None if some pick could not happen. */
  function Exec<S, A>(next: (S, A) -> Option<S>, s: S, acts: seq<A>): Option<S>
  {
    if acts == [] then Some(s)
    else match next(s, acts[0])
         case None => None
         case Some(t) => Exec(next, t, acts[1..])
  }

  /** No pick can happen. */
  ghost predicate Stuck<S, A(!new)>(next: (S, A) -> Option<S>, s: S)
  {
    forall a :: next(s, a).None?
  }

  /** Some schedule leads from `s` to `t`. */
  ghost predicate Reaches<S, A(!new)>(next: (S, A) -> Option<S>, s: S, t: S)
  {
    exists acts :: Exec(next, s, acts) == Some(t)
  }

  /** What every step keeps, every run keeps. */
  lemma {:induction false} Keeps<S(!new), A(!new)>(next: (S, A) -> Option<S>, inv: S -> bool, s: S, acts: seq<A>)
    requires inv(s)
    requires forall t, a :: inv(t) && next(t, a).Some? ==> inv(next(t, a).value)
    requires Exec(next, s, acts).Some?
    ensures inv(Exec(next, s, acts).value)
  {
    if acts == [] {
    } else {
      Keeps(next, inv, next(s, acts[0]).value, acts[1..]);
    }
  }

  /** Every state that some schedule reaches has the property. */
  ghost predicate Always<S(!new), A(!new)>(next: (S, A) -> Option<S>, start: S, inv: S -> bool)
  {
    forall s :: Reaches(next, start, s) ==> inv(s)
  }

  lemma Invariant<S(!new), A(!new)>(next: (S, A) -> Option<S>, inv: S -> bool, start: S)
    requires inv(start)
    requires forall t, a :: inv(t) && next(t, a).Some? ==> inv(next(t, a).value)
    ensures Always(next, start, inv)
  {
    forall s | Reaches(next, start, s) ensures inv(s) {
      var acts :| Exec(next, start, acts) == Some(s);
      Keeps(next, inv, start, acts);
    }
  }

  /** A measure that every step brings down bounds the length of every run. */
  lemma {:induction false} Bounded<S(!new), A(!new)>(next: (S, A) -> Option<S>, inv: S -> bool, rank: S -> nat,
                                                     s: S, acts: seq<A>)
    requires inv(s)
    requires forall t, a :: inv(t) && next(t, a).Some? ==> inv(next(t, a).value) && rank(next(t, a).value) < rank(t)
    requires Exec(next, s, acts).Some?
    ensures inv(Exec(next, s, acts).value)
    ensures |acts| + rank(Exec(next, s, acts).value) <= rank(s)
  {
    if acts == [] {
    } else {
      Bounded(next, inv, rank, next(s, acts[0]).value, acts[1..]);
    }
  }

  /** A measure that every step brings down by one counts the steps of every run. */
  lemma {:induction false} Counted<S(!new), A(!new)>(next: (S, A) -> Option<S>, inv: S -> bool, rank: S -> nat,
                                                     s: S, acts: seq<A>)
    requires inv(s)
    requires forall t, a :: inv(t) && next(t, a).Some? ==>
                              inv(next(t, a).value) && rank(next(t, a).value) + 1 == rank(t)
    requires Exec(next, s, acts).Some?
    ensures inv(Exec(next, s, acts).value)
    ensures |acts| + rank(Exec(next, s, acts).value) == rank(s)
  {
    if acts == [] {
    } else {
      Counted(next, inv, rank, next(s, acts[0]).value, acts[1..]);
    }
  }

  lemma {:induction false} ExecAppend<S, A>(next: (S, A) -> Option<S>, s: S, xs: seq<A>, ys: seq<A>)
    ensures Exec(next, s, xs + ys)
            == match Exec(next, s, xs) case None => None case Some(t) => Exec(next, t, ys)
  {
    if xs == [] {
      assert xs + ys == ys;
    } else {
      assert (xs + ys)[0] == xs[0] && (xs + ys)[1..] == xs[1..] + ys;
      if next(s, xs[0]).Some? {
        ExecAppend(next, next(s, xs[0]).value, xs[1..], ys);
      }
    }
  }

  lemma ExecCons<S, A>(next: (S, A) -> Option<S>, s: S, a: A, rest: seq<A>)
    requires next(s, a).Some?
    ensures Exec(next, s, [a] + rest) == Exec(next, next(s, a).value, rest)
  {
    assert ([a] + rest)[1..] == rest;
  }

  lemma ReachesSelf<S, A(!new)>(next: (S, A) -> Option<S>, s: S)
    ensures Reaches(next, s, s)
  {
    var none: seq<A> := [];
    assert Exec(next, s, none) == Some(s);
  }

  lemma ReachesTrans<S, A(!new)>(next: (S, A) -> Option<S>, s: S, t: S, u: S)
    requires Reaches(next, s, t) && Reaches(next, t, u)
    ensures Reaches(next, s, u)
  {
    var xs :| Exec(next, s, xs) == Some(t);
    var ys :| Exec(next, t, ys) == Some(u);
    ExecAppend(next, s, xs, ys);
  }

  lemma ReachesStep<S, A(!new)>(next: (S, A) -> Option<S>, s: S, t: S, a: A)
    requires Reaches(next, s, t) && next(t, a).Some?
    ensures Reaches(next, s, next(t, a).value)
  {
    var acts :| Exec(next, s, acts) == Some(t);
    ExecAppend(next, s, acts, [a]);
    assert Exec(next, next(t, a).value, [a][1..]) == next(t, a);
    assert Exec(next, s, acts + [a]) == next(t, a);
  }

  // ----- What a schedule determines

  /** How many picks of the schedule are of the kind `p`. */
  function CountIf<A>(p: A -> bool, acts: seq<A>): nat
  {
    if acts == [] then 0 else CountIf(p, acts[..|acts| - 1]) + if p(acts[|acts| - 1]) then 1 else 0
  }

  lemma CountSnoc<A>(p: A -> bool, acts: seq<A>, a: A)
    ensures CountIf(p, acts + [a]) == CountIf(p, acts) + if p(a) then 1 else 0
  {
    assert (acts + [a])[..|acts|] == acts;
  }

  lemma ExecSnoc<S, A>(next: (S, A) -> Option<S>, s: S, acts: seq<A>, a: A)
    ensures Exec(next, s, acts + [a]) == match Exec(next, s, acts) case None => None case Some(t) => next(t, a)
  {
    ExecAppend(next, s, acts, [a]);
    if Exec(next, s, acts).Some? {
      var t := Exec(next, s, acts).value;
      var none: seq<A> := [];
      if next(t, a).Some? {
        ExecCons(next, t, a, none);
        assert [a] + none == [a];
      }
    }
  }

  lemma ExecPrefix<S, A>(next: (S, A) -> Option<S>, s: S, acts: seq<A>, k: nat)
    requires Exec(next, s, acts).Some? && k <= |acts|
    ensures Exec(next, s, acts[..k]).Some?
    ensures Exec(next, s, acts) == Exec(next, Exec(next, s, acts[..k]).value, acts[k..])
  {
    assert acts == acts[..k] + acts[k..];
    ExecAppend(next, s, acts[..k], acts[k..]);
  }

  lemma {:induction false} CountPrefix<A>(p: A -> bool, acts: seq<A>, k: nat)
    requires k <= |acts|
    ensures CountIf(p, acts[..k]) <= CountIf(p, acts)
    decreases |acts|
  {
    if k == |acts| {
      assert acts[..k] == acts;
    } else {
      var past := acts[..|acts| - 1];
      assert past[..k] == acts[..k];
      CountPrefix(p, past, k);
    }
  }

  /** What ties the end of every run from `s` to its schedule. */
  ghost predicate Ties<S(!new), A(!new)>(next: (S, A) -> Option<S>, s: S, tie: (seq<A>, S) -> bool)
  {
    forall acts :: Exec(next, s, acts).Some? ==> tie(acts, Exec(next, s, acts).value)
  }

  lemma {:induction false} KeptAtTheEnd<S(!new), A(!new)>(next: (S, A) -> Option<S>, tie: (seq<A>, S) -> bool,
                                                          s: S, acts: seq<A>)
    requires tie([], s)
    requires forall past, t, a :: tie(past, t) && next(t, a).Some? ==> tie(past + [a], next(t, a).value)
    requires Exec(next, s, acts).Some?
    ensures tie(acts, Exec(next, s, acts).value)
  {
    if acts == [] {
    } else {
      var past, a := acts[..|acts| - 1], acts[|acts| - 1];
      assert acts == past + [a];
      ExecSnoc(next, s, past, a);
      KeptAtTheEnd(next, tie, s, past);
    }
  }

  /** A tie that holds at the start and that every step keeps holds along every run. */
  lemma KeepsAlong<S(!new), A(!new)>(next: (S, A) -> Option<S>, tie: (seq<A>, S) -> bool, s: S)
    requires tie([], s)
    requires forall past, t, a :: tie(past, t) && next(t, a).Some? ==> tie(past + [a], next(t, a).value)
    ensures Ties(next, s, tie)
  {
    forall acts | Exec(next, s, acts).Some? ensures tie(acts, Exec(next, s, acts).value) {
      KeptAtTheEnd(next, tie, s, acts);
    }
  }
}
