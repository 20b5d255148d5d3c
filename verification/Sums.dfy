/** Adding a weight over the threads of a program. */
module Sums {

  function Sum<T>(w: T -> nat, ts: seq<T>): nat
  {
    if ts == [] then 0 else w(ts[0]) + Sum(w, ts[1..])
  }

  /** Changing one thread changes the sum by the change of its weight. */
  lemma {:induction false} SumUpdate<T>(w: T -> nat, ts: seq<T>, i: nat, x: T)
    requires i < |ts|
    ensures Sum(w, ts[i := x]) + w(ts[i]) == Sum(w, ts) + w(x)
  {
    if i == 0 {
      assert ts[0 := x][1..] == ts[1..];
    } else {
      assert ts[i := x][1..] == ts[1..][i - 1 := x];
      SumUpdate(w, ts[1..], i - 1, x);
    }
  }

  lemma SumUpdateTwo<T>(w: T -> nat, ts: seq<T>, i: nat, x: T, j: nat, y: T)
    requires i < |ts| && j < |ts| && i != j
    ensures Sum(w, ts[i := x][j := y]) + w(ts[i]) + w(ts[j]) == Sum(w, ts) + w(x) + w(y)
  {
    SumUpdate(w, ts, i, x);
    SumUpdate(w, ts[i := x], j, y);
  }

  /** The sum is between the least and the greatest weight times the number of threads. */
  lemma {:induction false} SumBounds<T>(w: T -> nat, ts: seq<T>, lo: nat, hi: nat)
    requires forall i :: 0 <= i < |ts| ==> lo <= w(ts[i]) <= hi
    ensures lo * |ts| <= Sum(w, ts) <= hi * |ts|
  {
    if ts == [] {
    } else {
      assert forall i :: 0 <= i < |ts[1..]| ==> ts[1..][i] == ts[i + 1];
      SumBounds(w, ts[1..], lo, hi);
      var n := |ts[1..]|;
      assert lo * (n + 1) == lo * n + lo && hi * (n + 1) == hi * n + hi;
    }
  }

  /** One thread's weight is part of the sum, two threads' weights are. */
  lemma {:induction false} SumPart<T>(w: T -> nat, ts: seq<T>, i: nat)
    requires i < |ts|
    ensures w(ts[i]) <= Sum(w, ts)
  {
    if i == 0 {
    } else {
      SumPart(w, ts[1..], i - 1);
    }
  }

  lemma {:induction false} SumTwoParts<T>(w: T -> nat, ts: seq<T>, i: nat, j: nat)
    requires i < j < |ts|
    ensures w(ts[i]) + w(ts[j]) <= Sum(w, ts)
  {
    if i == 0 {
      SumPart(w, ts[1..], j - 1);
    } else {
      SumTwoParts(w, ts[1..], i - 1, j - 1);
    }
  }

  /** A positive sum has a thread of positive weight. */
  lemma {:induction false} SumWitness<T>(w: T -> nat, ts: seq<T>) returns (i: nat)
    requires Sum(w, ts) > 0
    ensures i < |ts| && w(ts[i]) > 0
  {
    if w(ts[0]) > 0 {
      i := 0;
    } else {
      var j := SumWitness(w, ts[1..]);
      i := j + 1;
    }
  }

  lemma SumZero<T>(w: T -> nat, ts: seq<T>)
    ensures Sum(w, ts) == 0 <==> forall i :: 0 <= i < |ts| ==> w(ts[i]) == 0
  {
    if Sum(w, ts) > 0 {
      var i := SumWitness(w, ts);
    } else if i :| 0 <= i < |ts| && w(ts[i]) > 0 {
      SumPart(w, ts, i);
    }
  }

  lemma {:induction false} SumSame<T>(w: T -> nat, v: T -> nat, ts: seq<T>)
    requires forall i :: 0 <= i < |ts| ==> w(ts[i]) == v(ts[i])
    ensures Sum(w, ts) == Sum(v, ts)
  {
    if ts == [] {
    } else {
      SumSame(w, v, ts[1..]);
    }
  }

  /** Two groups of threads whose weights agree one by one. */
  lemma {:induction false} SumAlike<T>(w: T -> nat, a: seq<T>, b: seq<T>)
    requires |a| == |b| && forall i :: 0 <= i < |a| ==> w(a[i]) == w(b[i])
    ensures Sum(w, a) == Sum(w, b)
  {
    if a == [] {
    } else {
      SumAlike(w, a[1..], b[1..]);
    }
  }

  /** A weight nowhere above another, and below it at `k`, has the smaller sum. */
  lemma {:induction false} SumBelow<T>(w: T -> nat, v: T -> nat, ts: seq<T>, k: nat)
    requires forall i :: 0 <= i < |ts| ==> w(ts[i]) <= v(ts[i])
    requires k < |ts| ==> w(ts[k]) < v(ts[k])
    ensures Sum(w, ts) <= Sum(v, ts)
    ensures k < |ts| ==> Sum(w, ts) < Sum(v, ts)
  {
    if ts == [] {
    } else {
      SumBelow(w, v, ts[1..], if k == 0 then |ts| else k - 1);
    }
  }
}
