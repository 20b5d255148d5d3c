/**
 thread_test/race_condition_test.c and thread_test/unnamed_sem_bin_thread_condition.c: n threads
 add one to a shared cell without a lock.  The increment is a load into the thread's own register and a
 store of that register plus one; the schedule names the thread that makes its next access.
 */
module RaceCounter {
  import opened Runs
  import opened Sums

  datatype Phase = Ready | Loaded(v: nat) | Finished

  datatype State = State(cell: nat, threads: seq<Phase>)

  function Init(n: nat): State
  {
    State(0, seq(n, _ => Ready))
  }

  function Next(s: State, i: nat): Option<State>
  {
    if i >= |s.threads| then None
    else match s.threads[i]
         case Ready => Some(s.(threads := s.threads[i := Loaded(s.cell)]))
         case Loaded(v) => Some(State(v + 1, s.threads[i := Finished]))
         case Finished => None
  }

  /** Every thread has returned, so main's joins are over and it prints the cell. */
  ghost predicate Complete(s: State)
  {
    forall i :: 0 <= i < |s.threads| ==> s.threads[i].Finished?
  }

  function IsFinished(p: Phase): nat { if p.Finished? then 1 else 0 }

  /** The number of stores made. */
  function Stores(s: State): nat
  {
    Sum(IsFinished, s.threads)
  }

  ghost predicate Inv(s: State)
  {
    && s.cell <= Stores(s)
    && (Stores(s) > 0 ==> s.cell > 0)
    && forall i :: 0 <= i < |s.threads| && s.threads[i].Loaded? ==>
         s.threads[i].v <= Stores(s) && (s.threads[i].v == Stores(s) ==> s.cell == Stores(s))
  }

  lemma InitInv(n: nat)
    ensures Inv(Init(n)) && Stores(Init(n)) == 0
  {
    SumBounds(IsFinished, Init(n).threads, 0, 0);
  }

  lemma StepStores(s: State, i: nat)
    requires Next(s, i).Some?
    ensures Stores(Next(s, i).value) == Stores(s) + if s.threads[i].Loaded? then 1 else 0
  {
    SumUpdate(IsFinished, s.threads, i, Next(s, i).value.threads[i]);
  }

  lemma StepKeepsInv(s: State, i: nat)
    requires Inv(s) && Next(s, i).Some?
    ensures Inv(Next(s, i).value)
  {
    StepStores(s, i);
  }

  lemma Reachable(n: nat)
    ensures Always(Next, Init(n), s => Inv(s) && |s.threads| == n)
  {
    InitInv(n);
    forall t, i | Inv(t) && |t.threads| == n && Next(t, i).Some? ensures Inv(Next(t, i).value) {
      StepKeepsInv(t, i);
    }
    Invariant(Next, t => Inv(t) && |t.threads| == n, Init(n));
  }

  lemma CompleteStores(s: State)
    requires Complete(s)
    ensures Stores(s) == |s.threads|
  {
    SumBounds(IsFinished, s.threads, 1, 1);
  }

  // ----- The count is right exactly when no two windows overlap

  /** Some access of another thread falls between a thread's load and its store. */
  ghost predicate Overlap(acts: seq<nat>)
  {
    exists p, q, r :: 0 <= p < q < r < |acts| && acts[p] == acts[r] && acts[q] != acts[p]
  }

  /** An update is lost or bound to be: the cell is behind, a register is out of date, or two threads hold a
      register at once. */
  ghost predicate Lost(s: State)
  {
    || s.cell < Stores(s)
    || (exists i :: 0 <= i < |s.threads| && s.threads[i].Loaded? && s.threads[i].v < Stores(s))
    || (exists i, j :: 0 <= i < j < |s.threads| && s.threads[i].Loaded? && s.threads[j].Loaded?)
  }

  lemma StepKeepsLost(s: State, k: nat)
    requires Inv(s) && Lost(s) && Next(s, k).Some?
    ensures Lost(Next(s, k).value)
  {
    var t := Next(s, k).value;
    StepStores(s, k);
    if i, j :| 0 <= i < j < |s.threads| && s.threads[i].Loaded? && s.threads[j].Loaded? {
      var other := if k == i then j else i;
      assert (t.threads[i].Loaded? && t.threads[j].Loaded?) || t.threads[other].v < Stores(t);
    } else if i :| 0 <= i < |s.threads| && s.threads[i].Loaded? && s.threads[i].v < Stores(s) {
      assert t.cell < Stores(t) || t.threads[i].v < Stores(t);
    }
  }

  lemma RunKeepsLost(s: State, acts: seq<nat>)
    requires Inv(s) && Lost(s) && Exec(Next, s, acts).Some?
    ensures Lost(Exec(Next, s, acts).value)
  {
    forall t, i | Inv(t) && Lost(t) && Next(t, i).Some? ensures Inv(Next(t, i).value) && Lost(Next(t, i).value) {
      StepKeepsInv(t, i);
      StepKeepsLost(t, i);
    }
    Keeps(Next, t => Inv(t) && Lost(t), s, acts);
  }

  lemma {:induction false} FinishedRests(s: State, acts: seq<nat>, i: nat)
    requires i < |s.threads| && s.threads[i].Finished? && Exec(Next, s, acts).Some?
    ensures i !in acts
    decreases |acts|
  {
    if acts == [] {
    } else {
      FinishedRests(Next(s, acts[0]).value, acts[1..], i);
    }
  }

  lemma {:induction false} UnscheduledRests(s: State, acts: seq<nat>, i: nat)
    requires i < |s.threads| && i !in acts && Exec(Next, s, acts).Some?
    ensures |Exec(Next, s, acts).value.threads| == |s.threads|
    ensures Exec(Next, s, acts).value.threads[i] == s.threads[i]
    decreases |acts|
  {
    if acts == [] {
    } else {
      UnscheduledRests(Next(s, acts[0]).value, acts[1..], i);
    }
  }

  /** Another thread's access at `q` inside the open window of thread `i`, which stores at `r`. */
  lemma {:induction false} BrokenWindow(s: State, acts: seq<nat>, i: nat, q: nat, r: nat)
    requires Inv(s) && Exec(Next, s, acts).Some?
    requires i < |s.threads| && s.threads[i].Loaded?
    requires q < r < |acts| && acts[r] == i && acts[q] != i
    ensures Lost(Exec(Next, s, acts).value)
    decreases |acts|
  {
    var j := acts[0];
    var t := Next(s, j).value;
    StepKeepsInv(s, j);
    StepStores(s, j);
    assert acts[1..][r - 1] == i;
    if j == i {
      FinishedRests(t, acts[1..], i);
    } else if q == 0 {
      assert t.threads[i] == s.threads[i];
      assert t.threads[j].Loaded? || t.threads[i].v < Stores(t);
      assert Lost(t);
      RunKeepsLost(t, acts[1..]);
    } else {
      BrokenWindow(t, acts[1..], i, q - 1, r - 1);
    }
  }

  lemma {:induction false} OverlapLoses(s: State, acts: seq<nat>, p: nat, q: nat, r: nat)
    requires Inv(s) && Exec(Next, s, acts).Some?
    requires p < q < r < |acts| && acts[p] == acts[r] && acts[q] != acts[p]
    ensures Lost(Exec(Next, s, acts).value)
    decreases |acts|
  {
    var t := Next(s, acts[0]).value;
    StepKeepsInv(s, acts[0]);
    if p > 0 {
      OverlapLoses(t, acts[1..], p - 1, q - 1, r - 1);
    } else {
      var i := acts[0];
      assert acts[1..][r - 1] == i;
      if t.threads[i].Finished? {
        FinishedRests(t, acts[1..], i);
      } else {
        BrokenWindow(t, acts[1..], i, q - 1, r - 1);
      }
    }
  }

  /** Between windows: nobody holds a register and no update is lost. */
  ghost predicate Clean(s: State)
  {
    && s.cell == Stores(s)
    && forall i :: 0 <= i < |s.threads| ==> !s.threads[i].Loaded?
  }

  lemma OverlapOfSuffix(acts: seq<nat>, k: nat)
    requires k <= |acts|
    ensures Overlap(acts[k..]) ==> Overlap(acts)
  {
    var late := acts[k..];
    if p, q, r :| 0 <= p < q < r < |late| && late[p] == late[r] && late[q] != late[p] {
      assert acts[k + p] == acts[k + r] && acts[k + q] != acts[k + p];
    }
  }

  lemma StoreFollows(acts: seq<nat>, r: nat)
    requires 1 <= r < |acts| && acts[r] == acts[0]
    ensures acts[1] == acts[0] || Overlap(acts)
  {
  }

  /** Without an overlap each thread's store follows its load at once. */
  lemma {:induction false} SerialRunIsExact(s: State, acts: seq<nat>)
    requires Clean(s) && Exec(Next, s, acts).Some? && Complete(Exec(Next, s, acts).value)
    requires !Overlap(acts)
    ensures Exec(Next, s, acts).value.cell == Stores(Exec(Next, s, acts).value)
    decreases |acts|
  {
    if acts == [] {
    } else {
      var i := acts[0];
      var t := Next(s, i).value;
      if i !in acts[1..] {
        UnscheduledRests(t, acts[1..], i);
        assert false;
      }
      var r :| 1 <= r < |acts| && acts[r] == i;
      StoreFollows(acts, r);
      var u := Next(t, i).value;
      StepStores(s, i);
      StepStores(t, i);
      assert acts[1..][1..] == acts[2..];
      OverlapOfSuffix(acts, 2);
      SerialRunIsExact(u, acts[2..]);
    }
  }

  /** A complete run counts every thread if and only if no two threads' windows overlap. */
  lemma ExactIffNoOverlap(n: nat, acts: seq<nat>, e: State)
    requires Exec(Next, Init(n), acts) == Some(e) && Complete(e)
    ensures e.cell == n <==> !Overlap(acts)
  {
    assert Reaches(Next, Init(n), e);
    Reachable(n);
    CompleteStores(e);
    InitInv(n);
    if Overlap(acts) {
      var p, q, r :| 0 <= p < q < r < |acts| && acts[p] == acts[r] && acts[q] != acts[p];
      OverlapLoses(Init(n), acts, p, q, r);
    } else {
      SerialRunIsExact(Init(n), acts);
    }
  }

  // ----- Every value from 1 to n, and no other, can be printed

  /** Threads lo..hi run one after the other. */
  lemma {:induction false} RunSerially(n: nat, s: State, lo: nat, hi: nat) returns (t: State)
    requires Reaches(Next, Init(n), s) && |s.threads| == n && lo <= hi <= n
    requires forall i :: lo <= i < hi ==> s.threads[i].Ready?
    ensures Reaches(Next, Init(n), t) && |t.threads| == n
    ensures t.cell == s.cell + (hi - lo)
    ensures forall i :: 0 <= i < n ==> t.threads[i] == if lo <= i < hi then Finished else s.threads[i]
    decreases hi - lo
  {
    t := s;
    if lo < hi {
      ReachesStep(Next, Init(n), t, lo);
      t := Next(t, lo).value;
      ReachesStep(Next, Init(n), t, lo);
      t := Next(t, lo).value;
      t := RunSerially(n, t, lo + 1, hi);
    }
  }

  /** Thread 0 loads, threads 1..n-k run, thread 0 stores 1 over their work, the other k-1 threads run. */
  lemma ScheduleFor(n: nat, k: nat) returns (s: State)
    requires 1 <= k <= n
    ensures Reaches(Next, Init(n), s) && Complete(s) && s.cell == k
  {
    s := Init(n);
    ReachesSelf(Next, s);
    ReachesStep(Next, Init(n), s, 0);
    s := Next(s, 0).value;
    s := RunSerially(n, s, 1, n - k + 1);
    ReachesStep(Next, Init(n), s, 0);
    s := Next(s, 0).value;
    s := RunSerially(n, s, n - k + 1, n);
  }

  /** What main can print after the joins. */
  ghost predicate Outcome(n: nat, k: nat)
  {
    exists s :: Reaches(Next, Init(n), s) && Complete(s) && s.cell == k
  }

  lemma Outcomes(n: nat, k: nat)
    requires n >= 1
    ensures Outcome(n, k) <==> 1 <= k <= n
  {
    if Outcome(n, k) {
      var s :| Reaches(Next, Init(n), s) && Complete(s) && s.cell == k;
      Reachable(n);
      CompleteStores(s);
    }
    if 1 <= k <= n {
      var s := ScheduleFor(n, k);
    }
  }

  // ----- What a schedule determines

  /** How often thread `i` is picked. */
  function Times(acts: seq<nat>, i: nat): nat
  {
    CountIf((j: nat) => j == i, acts)
  }

  lemma TimesSnoc(acts: seq<nat>, j: nat, i: nat)
    ensures Times(acts + [j], i) == Times(acts, i) + if j == i then 1 else 0
  {
    CountSnoc((k: nat) => k == i, acts, j);
  }

  lemma {:induction false} PickedSometime(acts: seq<nat>, i: nat)
    ensures i in acts <==> Times(acts, i) > 0
    decreases |acts|
  {
    if acts == [] {
    } else {
      var past, j := acts[..|acts| - 1], acts[|acts| - 1];
      assert acts == past + [j];
      PickedSometime(past, i);
      TimesSnoc(past, j, i);
    }
  }

  /** The position of the first pick of thread `i`, its load. */
  function First(acts: seq<nat>, i: nat): (k: nat)
    ensures k <= |acts|
  {
    if acts == [] || acts[0] == i then 0 else First(acts[1..], i) + 1
  }

  /** The chain of windows back from the last store: that store, the last store before its load, and so on. */
  function Chain(acts: seq<nat>): nat
    decreases |acts|
  {
    if acts == [] then 0
    else
      var past, i := acts[..|acts| - 1], acts[|acts| - 1];
      if i in past then 1 + Chain(past[..First(past, i)]) else Chain(past)
  }

  function Stage(p: Phase): nat { match p case Ready => 0 case Loaded(_) => 1 case Finished => 2 }

  /** A thread's position is the number of its picks; the cell, and a register, hold the chain back from there. */
  ghost predicate Follows(n: nat, acts: seq<nat>, s: State)
  {
    && |s.threads| == n && s.cell == Chain(acts)
    && (forall i :: i in acts ==> i < n)
    && (forall i :: 0 <= i < n ==> Stage(s.threads[i]) == Times(acts, i))
    && (forall i :: 0 <= i < n && s.threads[i].Loaded? ==> i in acts && s.threads[i].v == Chain(acts[..First(acts, i)]))
  }

  lemma {:induction false} FirstIs(acts: seq<nat>, i: nat, k: nat)
    requires k < |acts| && acts[k] == i && i !in acts[..k]
    ensures First(acts, i) == k
  {
    if k == 0 {
    } else {
      assert acts[0] == acts[..k][0] && acts[1..][..k - 1] == acts[..k][1..];
      FirstIs(acts[1..], i, k - 1);
    }
  }

  lemma {:induction false} FirstFinds(acts: seq<nat>, i: nat)
    requires i in acts
    ensures First(acts, i) < |acts| && acts[First(acts, i)] == i && i !in acts[..First(acts, i)]
  {
    if acts[0] == i {
    } else {
      assert acts == [acts[0]] + acts[1..];
      FirstFinds(acts[1..], i);
      var k := First(acts[1..], i);
      assert acts[..k + 1] == [acts[0]] + acts[1..][..k];
    }
  }

  lemma FirstStays(acts: seq<nat>, j: nat, i: nat)
    requires i in acts
    ensures First(acts + [j], i) == First(acts, i) && (acts + [j])[..First(acts, i)] == acts[..First(acts, i)]
  {
    FirstFinds(acts, i);
    var k := First(acts, i);
    assert (acts + [j])[..k] == acts[..k];
    FirstIs(acts + [j], i, k);
  }

  lemma StepFollows(n: nat, acts: seq<nat>, s: State, j: nat)
    requires Follows(n, acts, s) && Next(s, j).Some?
    ensures Follows(n, acts + [j], Next(s, j).value)
  {
    var t, now := Next(s, j).value, acts + [j];
    assert now[..|acts|] == acts && now[|acts|] == j;
    PickedSometime(acts, j);
    forall i | 0 <= i < n ensures Stage(t.threads[i]) == Times(now, i) {
      TimesSnoc(acts, j, i);
    }
    forall i | 0 <= i < n && t.threads[i].Loaded? ensures i in now && t.threads[i].v == Chain(now[..First(now, i)]) {
      if i == j {
        FirstIs(now, j, |acts|);
      } else {
        FirstStays(acts, j, i);
      }
    }
  }

  lemma RunFollows(n: nat)
    ensures Ties(Next, Init(n), (past, t) => Follows(n, past, t))
  {
    forall past, t, j: nat | Follows(n, past, t) && Next(t, j).Some? ensures Follows(n, past + [j], Next(t, j).value) {
      StepFollows(n, past, t, j);
    }
    KeepsAlong(Next, (past, t) => Follows(n, past, t), Init(n));
  }

  /** Nothing makes a thread wait: the schedules are those that pick each of the n threads at most twice. */
  lemma {:induction false} Schedules(n: nat, acts: seq<nat>)
    ensures Exec(Next, Init(n), acts).Some? <==> forall i :: i in acts ==> i < n && Times(acts, i) <= 2
    decreases |acts|
  {
    if acts == [] {
    } else {
      var past := acts[..|acts| - 1];
      var j: nat := acts[|acts| - 1];
      assert acts == past + [j];
      Schedules(n, past);
      ExecSnoc(Next, Init(n), past, j);
      PickedSometime(past, j);
      if Exec(Next, Init(n), past).Some? {
        RunFollows(n);
      }
      forall i: nat | i in acts ensures Times(acts, i) == Times(past, i) + (if j == i then 1 else 0) {
        TimesSnoc(past, j, i);
      }
      if Exec(Next, Init(n), acts).Some? {
        assert forall i :: i in acts ==> i == j || i in past;
      } else if Exec(Next, Init(n), past).Some? {
        assert j in acts && (j >= n || Times(past, j) >= 2);
      } else {
        var i :| i in past && (i >= n || Times(past, i) > 2);
        assert i in acts;
      }
    }
  }

  /** The value of any run, complete or not. */
  lemma CellIsChain(n: nat, acts: seq<nat>, e: State)
    requires Exec(Next, Init(n), acts) == Some(e)
    ensures e.cell == Chain(acts)
  {
    RunFollows(n);
  }

  lemma ThirdPick(acts: seq<nat>, p: nat, r: nat)
    requires p < r < |acts| && acts[p] == acts[r] && acts[r] in acts[..p]
    ensures Times(acts, acts[r]) >= 3
  {
    var i := acts[r];
    PickedSometime(acts[..p], i);
    assert acts[..p + 1] == acts[..p] + [i] && acts[..r + 1] == acts[..r] + [i];
    TimesSnoc(acts[..p], i, i);
    TimesSnoc(acts[..r], i, i);
    assert acts[..r][..p + 1] == acts[..p + 1];
    CountPrefix((j: nat) => j == i, acts[..r], p + 1);
    CountPrefix((j: nat) => j == i, acts, r + 1);
  }

  lemma ChainAtStore(acts: seq<nat>, p: nat, r: nat)
    requires p < r < |acts| && acts[p] == acts[r] && acts[r] !in acts[..p]
    ensures Chain(acts[..r + 1]) == Chain(acts[..p]) + 1
  {
    var i, all, past := acts[r], acts[..r + 1], acts[..r];
    assert past[..p] == acts[..p] && past[p] == i;
    FirstIs(past, i, p);
    assert all[..r] == past && all[r] == i;
  }

  /** The cell after the first `k` picks of a run. */
  function CellAfter(n: nat, acts: seq<nat>, k: nat): nat
    requires Exec(Next, Init(n), acts).Some? && k <= |acts|
  {
    match Exec(Next, Init(n), acts[..k])
    case Some(s) => s.cell
    case None => 0
  }

  lemma CellAfterIsChain(n: nat, acts: seq<nat>, k: nat)
    requires Exec(Next, Init(n), acts).Some? && k <= |acts|
    ensures Exec(Next, Init(n), acts[..k]).Some? && CellAfter(n, acts, k) == Chain(acts[..k])
  {
    ExecPrefix(Next, Init(n), acts, k);
    RunFollows(n);
  }

  /** A store leaves one more than the cell held at the load of the same thread, whatever came between; a load
      leaves the cell alone. */
  lemma StoreAddsToItsLoad(n: nat, acts: seq<nat>, p: nat, r: nat)
    requires Exec(Next, Init(n), acts).Some? && p < |acts| && r < |acts| && acts[p] == acts[r]
    ensures p < r ==> CellAfter(n, acts, r + 1) == CellAfter(n, acts, p) + 1
    ensures acts[r] !in acts[..r] ==> CellAfter(n, acts, r + 1) == CellAfter(n, acts, r)
  {
    CellAfterIsChain(n, acts, p);
    CellAfterIsChain(n, acts, r);
    CellAfterIsChain(n, acts, r + 1);
    assert acts[..r + 1][..r] == acts[..r];
    if p < r {
      if acts[r] in acts[..p] {
        ThirdPick(acts, p, r);
        Schedules(n, acts);
      }
      ChainAtStore(acts, p, r);
    }
  }

  // ----- The shared cell in memory

  class Tally {
    var num: nat
    const threads: array<Phase>

    ghost function View(): State
      reads this, threads
    {
      State(num, threads[..])
    }

    constructor (n: nat)
      ensures View() == Init(n) && fresh(threads)
    {
      num := 0;
      threads := new Phase[n](_ => Ready);
    }

    /** The next memory access of thread `i`: `int tmp = num + 1`, then `num = tmp`. */
    method Access(i: nat) returns (ran: bool)
      modifies this, threads
      ensures var next := Next(old(View()), i);
              ran == next.Some? && View() == if ran then next.value else old(View())
    {
      ran := i < threads.Length && !threads[i].Finished?;
      if ran {
        match threads[i] {
          case Ready => threads[i] := Loaded(num);
          case Loaded(v) => num := v + 1; threads[i] := Finished;
        }
      }
    }
  }
}
