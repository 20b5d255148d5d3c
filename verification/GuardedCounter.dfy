/**
 The counter behind a lock: thread_test/mutex_test.c and unnamed_sem_bin_thread.c (threads, one mutex or one
 semaphore at 1), unnamed_sem_bin_process.c (processes, one semaphore in the shared mapping) and
 unnamed_sem_bin_process_isolate.c (the semaphore is on the stack, so fork gives every process its own).
 `shared` says which of the two it is.  A mutex is a semaphore at 1 that its holder posts.
 */
module GuardedCounter {
  import opened Runs
  import opened Sums
  import Race = RaceCounter

  datatype Phase = Arrived | Entered | Loaded(v: nat) | Stored | Left

  /** `permits` are the semaphore values: one for all, or one a process. */
  datatype State = State(cell: nat, permits: seq<nat>, threads: seq<Phase>)

  function Init(shared: bool, n: nat): State
  {
    State(0, seq(if shared then 1 else n, _ => 1), seq(n, _ => Arrived))
  }

  function Own(shared: bool, i: nat): nat { if shared then 0 else i }

  function Next(shared: bool, s: State, i: nat): Option<State>
  {
    var k := Own(shared, i);
    if i >= |s.threads| || k >= |s.permits| then None
    else match s.threads[i]
         case Arrived =>
           if s.permits[k] == 0 then None
           else Some(s.(permits := s.permits[k := s.permits[k] - 1], threads := s.threads[i := Entered]))
         case Entered => Some(s.(threads := s.threads[i := Loaded(s.cell)]))
         case Loaded(v) => Some(s.(cell := v + 1, threads := s.threads[i := Stored]))
         case Stored => Some(s.(permits := s.permits[k := s.permits[k] + 1], threads := s.threads[i := Left]))
         case Left => None
  }

  function Sys(shared: bool): (State, nat) -> Option<State>
  {
    (s: State, i: nat) => Next(shared, s, i)
  }

  ghost predicate Complete(s: State)
  {
    forall i :: 0 <= i < |s.threads| ==> s.threads[i].Left?
  }

  function IsInside(p: Phase): nat { if p.Entered? || p.Loaded? || p.Stored? then 1 else 0 }

  function HasStored(p: Phase): nat { if p.Stored? || p.Left? then 1 else 0 }

  function StepsLeft(p: Phase): nat
  {
    match p case Arrived => 4 case Entered => 3 case Loaded(_) => 2 case Stored => 1 case Left => 0
  }

  /** A finished run's value can be `k`. */
  ghost predicate Outcome(shared: bool, n: nat, k: nat)
  {
    exists s :: Reaches(Sys(shared), Init(shared, n), s) && Complete(s) && s.cell == k
  }

  /** Whatever the kind of lock, a thread makes exactly four steps. */
  lemma StepsCount(shared: bool, s: State, i: nat)
    requires Next(shared, s, i).Some?
    ensures Sum(StepsLeft, Next(shared, s, i).value.threads) + 1 == Sum(StepsLeft, s.threads)
  {
    SumUpdate(StepsLeft, s.threads, i, Next(shared, s, i).value.threads[i]);
  }

  lemma RunLength(shared: bool, s: State, acts: seq<nat>)
    requires Exec(Sys(shared), s, acts).Some?
    ensures |acts| + Sum(StepsLeft, Exec(Sys(shared), s, acts).value.threads) == Sum(StepsLeft, s.threads)
  {
    forall t, i: nat | Sys(shared)(t, i).Some?
      ensures Sum(StepsLeft, Sys(shared)(t, i).value.threads) + 1 == Sum(StepsLeft, t.threads)
    {
      StepsCount(shared, t, i);
    }
    Counted(Sys(shared), _ => true, (t: State) => Sum(StepsLeft, t.threads), s, acts);
  }

  // ----- One lock for all

  /** The permit is free or exactly one thread is inside; the cell is the number of finished increments; a
      register inside the section is up to date. */
  ghost predicate LockInv(n: nat, s: State)
  {
    && |s.threads| == n && |s.permits| == 1
    && s.permits[0] + Sum(IsInside, s.threads) == 1
    && s.cell == Sum(HasStored, s.threads)
    && forall i :: 0 <= i < n && s.threads[i].Loaded? ==> s.threads[i].v == s.cell
  }

  lemma StepKeepsLock(n: nat, s: State, i: nat)
    requires LockInv(n, s) && Next(true, s, i).Some?
    ensures LockInv(n, Next(true, s, i).value)
  {
    var t := Next(true, s, i).value;
    SumUpdate(IsInside, s.threads, i, t.threads[i]);
    SumUpdate(HasStored, s.threads, i, t.threads[i]);
    forall j | 0 <= j < n && t.threads[j].Loaded? ensures t.threads[j].v == t.cell {
      if j < i { SumTwoParts(IsInside, s.threads, j, i); }
      if i < j { SumTwoParts(IsInside, s.threads, i, j); }
    }
  }

  lemma InitLock(n: nat)
    ensures LockInv(n, Init(true, n)) && Sum(StepsLeft, Init(true, n).threads) == 4 * n
  {
    SumBounds(IsInside, Init(true, n).threads, 0, 0);
    SumBounds(HasStored, Init(true, n).threads, 0, 0);
    SumBounds(StepsLeft, Init(true, n).threads, 4, 4);
  }

  lemma SharedReachable(n: nat)
    ensures Always(Sys(true), Init(true, n), s => LockInv(n, s))
  {
    InitLock(n);
    forall t, i: nat | LockInv(n, t) && Sys(true)(t, i).Some? ensures LockInv(n, Sys(true)(t, i).value) {
      StepKeepsLock(n, t, i);
    }
    Invariant(Sys(true), t => LockInv(n, t), Init(true, n));
  }

  lemma MutualExclusion(n: nat, s: State, i: nat, j: nat)
    requires Reaches(Sys(true), Init(true, n), s)
    requires i < j < n
    ensures |s.threads| == n && (IsInside(s.threads[i]) == 0 || IsInside(s.threads[j]) == 0)
  {
    SharedReachable(n);
    SumTwoParts(IsInside, s.threads, i, j);
  }

  lemma SomeoneCanStep(n: nat, s: State) returns (i: nat)
    requires LockInv(n, s) && !Complete(s)
    ensures Next(true, s, i).Some?
  {
    if s.permits[0] > 0 {
      i :| 0 <= i < n && !s.threads[i].Left?;
    } else {
      i := SumWitness(IsInside, s.threads);
    }
  }

  lemma OverIffComplete(n: nat, s: State)
    requires LockInv(n, s)
    ensures Stuck(Sys(true), s) <==> Complete(s)
    ensures Complete(s) <==> Sum(StepsLeft, s.threads) == 0
    ensures Complete(s) ==> s.cell == n
  {
    if Complete(s) {
      SumBounds(HasStored, s.threads, 1, 1);
      SumBounds(StepsLeft, s.threads, 0, 0);
      assert forall i: nat :: Next(true, s, i).None?;
    } else {
      var i := SomeoneCanStep(n, s);
      assert Sys(true)(s, i).Some?;
      var j :| 0 <= j < n && !s.threads[j].Left?;
      SumPart(StepsLeft, s.threads, j);
    }
  }

  /** No schedule loses an update and none deadlocks: a run that cannot go on is over after 4n steps, with
      the cell at n. */
  lemma LockedRunsCountAll(n: nat, acts: seq<nat>, e: State)
    requires Exec(Sys(true), Init(true, n), acts) == Some(e)
    ensures |acts| <= 4 * n
    ensures Stuck(Sys(true), e) <==> Complete(e)
    ensures Complete(e) <==> |acts| == 4 * n
    ensures Complete(e) ==> e.cell == n
  {
    assert Reaches(Sys(true), Init(true, n), e);
    SharedReachable(n);
    InitLock(n);
    RunLength(true, Init(true, n), acts);
    OverIffComplete(n, e);
  }

  /** The specification: increments that happen at once, each thread's only once. */
  datatype Atomic = Atomic(count: nat, served: set<nat>)

  function AtomicNext(a: Atomic, i: nat): Option<Atomic>
  {
    if i in a.served then None else Some(Atomic(a.count + 1, a.served + {i}))
  }

  function Abstract(s: State): Atomic
  {
    Atomic(s.cell, set i: nat | i < |s.threads| && HasStored(s.threads[i]) == 1)
  }

  /** Under the lock the store is the atomic increment and the other three steps are invisible. */
  lemma StepRefines(n: nat, s: State, i: nat)
    requires LockInv(n, s) && Next(true, s, i).Some?
    ensures var t := Next(true, s, i).value;
            if s.threads[i].Loaded? then AtomicNext(Abstract(s), i) == Some(Abstract(t)) else Abstract(t) == Abstract(s)
  {
    var t := Next(true, s, i).value;
    assert forall j :: 0 <= j < n && j != i ==> t.threads[j] == s.threads[j];
    if s.threads[i].Loaded? {
      assert Abstract(t).served == Abstract(s).served + {i};
    } else {
      assert HasStored(t.threads[i]) == HasStored(s.threads[i]);
      assert Abstract(t).served == Abstract(s).served;
    }
  }

  lemma RunRefinesAtomic(n: nat, s: State)
    requires Reaches(Sys(true), Init(true, n), s)
    ensures Reaches(AtomicNext, Atomic(0, {}), Abstract(s))
  {
    var acts :| Exec(Sys(true), Init(true, n), acts) == Some(s);
    InitLock(n);
    assert Abstract(Init(true, n)) == Atomic(0, {});
    ReachesSelf(AtomicNext, Atomic(0, {}));
    var inv := t => LockInv(n, t) && Reaches(AtomicNext, Atomic(0, {}), Abstract(t));
    forall t, i: nat | inv(t) && Sys(true)(t, i).Some? ensures inv(Sys(true)(t, i).value) {
      StepKeepsLock(n, t, i);
      StepRefines(n, t, i);
      if t.threads[i].Loaded? {
        ReachesStep(AtomicNext, Atomic(0, {}), Abstract(t), i);
      }
    }
    Keeps(Sys(true), inv, Init(true, n), acts);
  }

  // ----- A copy of the semaphore for every process

  /** A process's own permit is taken only while the process itself is inside. */
  ghost predicate CopyInv(n: nat, s: State)
  {
    && |s.threads| == n && |s.permits| == n
    && forall i :: 0 <= i < n ==> s.permits[i] == 1 - IsInside(s.threads[i])
  }

  /** What is left of a process when its private semaphore is ignored. */
  function ProjectPhase(p: Phase): Race.Phase
  {
    match p
    case Arrived | Entered => Race.Ready
    case Loaded(v) => Race.Loaded(v)
    case Stored | Left => Race.Finished
  }

  function Project(s: State): Race.State
  {
    Race.State(s.cell, seq(|s.threads|, i requires 0 <= i < |s.threads| => ProjectPhase(s.threads[i])))
  }

  /** Whatever the kind of lock, a load or a store is an access of the unlocked counter, any other step is none. */
  lemma AccessProjects(shared: bool, s: State, i: nat)
    requires Next(shared, s, i).Some?
    ensures var t := Next(shared, s, i).value;
            if s.threads[i].Entered? || s.threads[i].Loaded? then Race.Next(Project(s), i) == Some(Project(t))
            else Project(t) == Project(s)
  {
    var t := Next(shared, s, i).value;
    assert Project(t).threads == Project(s).threads[i := ProjectPhase(t.threads[i])];
  }

  lemma StepProjects(n: nat, s: State, i: nat)
    requires CopyInv(n, s) && Next(false, s, i).Some?
    ensures CopyInv(n, Next(false, s, i).value)
    ensures var t := Next(false, s, i).value;
            if s.threads[i].Entered? || s.threads[i].Loaded? then Race.Next(Project(s), i) == Some(Project(t))
            else Project(t) == Project(s)
  {
    AccessProjects(false, s, i);
  }

  lemma PrivateReachable(n: nat)
    ensures Always(Sys(false), Init(false, n), s => CopyInv(n, s) && Reaches(Race.Next, Race.Init(n), Project(s)))
  {
    assert Project(Init(false, n)) == Race.Init(n);
    ReachesSelf(Race.Next, Race.Init(n));
    var inv := t => CopyInv(n, t) && Reaches(Race.Next, Race.Init(n), Project(t));
    forall t, i: nat | inv(t) && Sys(false)(t, i).Some? ensures inv(Sys(false)(t, i).value) {
      StepProjects(n, t, i);
      if t.threads[i].Entered? || t.threads[i].Loaded? {
        ReachesStep(Race.Next, Race.Init(n), Project(t), i);
      }
    }
    Invariant(Sys(false), inv, Init(false, n));
  }

  /** A private copy never makes anyone wait. */
  lemma CopiesNeverBlock(n: nat, s: State, i: nat)
    requires Reaches(Sys(false), Init(false, n), s) && i < n
    ensures |s.threads| == n && (Next(false, s, i).Some? <==> !s.threads[i].Left?)
  {
    PrivateReachable(n);
  }

  /** At rest: every process is before its wait, between its load and its store, or gone. */
  ghost predicate AtRest(s: State)
  {
    forall i :: 0 <= i < |s.threads| ==> s.threads[i].Arrived? || s.threads[i].Loaded? || s.threads[i].Left?
  }

  /** Two steps of process `i` (wait and load, or store and post) follow one access of the unlocked thread. */
  lemma TwoSteps(n: nat, s: State, i: nat) returns (t: State)
    requires Reaches(Sys(false), Init(false, n), s) && AtRest(s) && Race.Next(Project(s), i).Some?
    ensures Reaches(Sys(false), Init(false, n), t) && AtRest(t) && Race.Next(Project(s), i) == Some(Project(t))
  {
    PrivateReachable(n);
    t := Next(false, s, i).value;
    ReachesStep(Sys(false), Init(false, n), s, i);
    StepProjects(n, s, i);
    StepProjects(n, t, i);
    ReachesStep(Sys(false), Init(false, n), t, i);
    t := Next(false, t, i).value;
  }

  ghost predicate Matched(n: nat, r: Race.State)
  {
    exists s :: Reaches(Sys(false), Init(false, n), s) && AtRest(s) && Project(s) == r
  }

  lemma EveryRaceHappens(n: nat, r: Race.State)
    requires Reaches(Race.Next, Race.Init(n), r)
    ensures Matched(n, r)
  {
    var acts :| Exec(Race.Next, Race.Init(n), acts) == Some(r);
    ReachesSelf(Sys(false), Init(false, n));
    assert Project(Init(false, n)) == Race.Init(n) && AtRest(Init(false, n));
    forall q, i | Matched(n, q) && Race.Next(q, i).Some? ensures Matched(n, Race.Next(q, i).value) {
      var s :| Reaches(Sys(false), Init(false, n), s) && AtRest(s) && Project(s) == q;
      var t := TwoSteps(n, s, i);
    }
    Keeps(Race.Next, q => Matched(n, q), Race.Init(n), acts);
  }

  lemma {:induction false} LockedRunExists(n: nat, s: State)
    requires Reaches(Sys(true), Init(true, n), s)
    ensures Outcome(true, n, n)
    decreases Sum(StepsLeft, s.threads)
  {
    SharedReachable(n);
    if Complete(s) {
      SumBounds(HasStored, s.threads, 1, 1);
    } else {
      var i := SomeoneCanStep(n, s);
      StepsCount(true, s, i);
      ReachesStep(Sys(true), Init(true, n), s, i);
      LockedRunExists(n, Next(true, s, i).value);
    }
  }

  lemma SharedOutcomes(n: nat, k: nat)
    ensures Outcome(true, n, k) <==> k == n
  {
    if Outcome(true, n, k) {
      var s :| Reaches(Sys(true), Init(true, n), s) && Complete(s) && s.cell == k;
      SharedReachable(n);
      SumBounds(HasStored, s.threads, 1, 1);
    }
    if k == n {
      ReachesSelf(Sys(true), Init(true, n));
      LockedRunExists(n, Init(true, n));
    }
  }

  lemma PrivateOutcomes(n: nat, k: nat)
    ensures Outcome(false, n, k) <==> Race.Outcome(n, k)
  {
    if Outcome(false, n, k) {
      var s :| Reaches(Sys(false), Init(false, n), s) && Complete(s) && s.cell == k;
      PrivateReachable(n);
      assert Race.Complete(Project(s));
    }
    if Race.Outcome(n, k) {
      var r :| Reaches(Race.Next, Race.Init(n), r) && Race.Complete(r) && r.cell == k;
      EveryRaceHappens(n, r);
      var s :| Reaches(Sys(false), Init(false, n), s) && AtRest(s) && Project(s) == r;
      assert forall i :: 0 <= i < |s.threads| ==> r.threads[i] == ProjectPhase(s.threads[i]);
    }
  }

  /** One semaphore forces n; private copies leave every outcome of the unlocked counter. */
  lemma SharedAgainstPrivate(n: nat, k: nat)
    ensures Outcome(true, n, k) <==> k == n
    ensures Outcome(false, n, k) <==> Race.Outcome(n, k)
    ensures n >= 1 ==> (Outcome(false, n, k) <==> 1 <= k <= n)
  {
    SharedOutcomes(n, k);
    PrivateOutcomes(n, k);
    if n >= 1 { Race.Outcomes(n, k); }
  }

  // ----- The cell and its lock in memory

  class Guarded {
    const shared: bool
    var value: nat
    const permits: array<nat>
    const threads: array<Phase>

    ghost function View(): State
      reads this, permits, threads
    {
      State(value, permits[..], threads[..])
    }

    constructor (shared: bool, n: nat)
      ensures View() == Init(shared, n) && this.shared == shared && fresh(permits) && fresh(threads)
    {
      this.shared := shared;
      value := 0;
      permits := new nat[if shared then 1 else n](_ => 1);
      threads := new Phase[n](_ => Arrived);
    }

    /** The next step of thread or process `i`: wait, load, store, post. */
    method Step(i: nat) returns (ran: bool)
      modifies this, permits, threads
      ensures var next := Next(shared, old(View()), i);
              ran == next.Some? && View() == if ran then next.value else old(View())
    {
      var k := if shared then 0 else i;
      ran := false;
      if i < threads.Length && k < permits.Length {
        match threads[i] {
          case Arrived =>
            if permits[k] > 0 {
              permits[k] := permits[k] - 1;
              threads[i] := Entered;
              ran := true;
            }
          case Entered =>
            threads[i] := Loaded(value);
            ran := true;
          case Loaded(tmp) =>
            value := tmp + 1;
            threads[i] := Stored;
            ran := true;
          case Stored =>
            permits[k] := permits[k] + 1;
            threads[i] := Left;
            ran := true;
          case Left =>
        }
      }
    }
  }
}
