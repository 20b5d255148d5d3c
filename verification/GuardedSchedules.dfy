/**
 The counter behind a lock, continued: what a schedule determines, for one lock and for private copies.
 */
module GuardedSchedules {
  import opened Runs
  import opened Sums
  import opened GuardedCounter
  import Race = RaceCounter

  function Stage(p: Phase): nat
  {
    match p case Arrived => 0 case Entered => 1 case Loaded(_) => 2 case Stored => 3 case Left => 4
  }

  /** The picks that access the cell: each thread's second, the load, and its third, the store. */
  function Accesses(acts: seq<nat>): seq<nat>
  {
    if acts == [] then []
    else
      var past, i := acts[..|acts| - 1], acts[|acts| - 1];
      Accesses(past) + if Race.Times(past, i) == 1 || Race.Times(past, i) == 2 then [i] else []
  }

  ghost predicate Follows(n: nat, acts: seq<nat>, s: State)
  {
    && |s.threads| == n
    && (forall i :: 0 <= i < n ==> Stage(s.threads[i]) == Race.Times(acts, i))
    && Exec(Race.Next, Race.Init(n), Accesses(acts)) == Some(Project(s))
  }

  lemma AccessesSnoc(acts: seq<nat>, j: nat)
    ensures Accesses(acts + [j])
            == Accesses(acts) + if Race.Times(acts, j) == 1 || Race.Times(acts, j) == 2 then [j] else []
  {
    assert (acts + [j])[..|acts|] == acts;
  }

  lemma StepFollows(shared: bool, n: nat, acts: seq<nat>, s: State, j: nat)
    requires Follows(n, acts, s) && Next(shared, s, j).Some?
    ensures Follows(n, acts + [j], Next(shared, s, j).value)
  {
    var t := Next(shared, s, j).value;
    forall i: nat ensures Race.Times(acts + [j], i) == Race.Times(acts, i) + (if j == i then 1 else 0) {
      Race.TimesSnoc(acts, j, i);
    }
    AccessesSnoc(acts, j);
    AccessProjects(shared, s, j);
    assert Stage(s.threads[j]) == Race.Times(acts, j);
    if s.threads[j].Entered? || s.threads[j].Loaded? {
      ExecSnoc(Race.Next, Race.Init(n), Accesses(acts), j);
    } else {
      assert Accesses(acts) + [] == Accesses(acts);
    }
  }

  lemma RunFollows(shared: bool, n: nat)
    ensures Ties(Sys(shared), Init(shared, n), (past, t) => Follows(n, past, t))
  {
    forall past, t, j: nat | Follows(n, past, t) && Sys(shared)(t, j).Some?
      ensures Follows(n, past + [j], Sys(shared)(t, j).value)
    {
      StepFollows(shared, n, past, t, j);
    }
    assert Project(Init(shared, n)) == Race.Init(n);
    KeepsAlong(Sys(shared), (past, t) => Follows(n, past, t), Init(shared, n));
  }

  /** With any kind of lock the loads and stores of a run are, on their own, a run of the unlocked counter, and the
      cell is the chain of windows back from the last store. */
  lemma AccessesAreARun(shared: bool, n: nat, acts: seq<nat>, e: State)
    requires Exec(Sys(shared), Init(shared, n), acts) == Some(e)
    ensures Exec(Race.Next, Race.Init(n), Accesses(acts)) == Some(Project(e))
    ensures e.cell == Race.Chain(Accesses(acts))
  {
    RunFollows(shared, n);
    Race.CellIsChain(n, Accesses(acts), Project(e));
  }

  lemma PermitIffNobodyInside(n: nat, s: State)
    requires LockInv(n, s)
    ensures s.permits[0] > 0 <==> forall j :: 0 <= j < n ==> IsInside(s.threads[j]) == 0
  {
    if s.permits[0] == 0 {
      var j := SumWitness(IsInside, s.threads);
    } else if j :| 0 <= j < n && IsInside(s.threads[j]) != 0 {
      SumPart(IsInside, s.threads, j);
    }
  }

  /** A thread with steps left can always make the next one, except that with one semaphore for all it enters
      only when every other thread has not yet entered or has left. */
  lemma WhoCanGoOn(shared: bool, n: nat, acts: seq<nat>, i: nat)
    requires Exec(Sys(shared), Init(shared, n), acts).Some?
    ensures Exec(Sys(shared), Init(shared, n), acts + [i]).Some?
            <==> i < n && Race.Times(acts, i) < 4
                 && (shared && Race.Times(acts, i) == 0
                     ==> forall j :: 0 <= j < n ==> Race.Times(acts, j) == 0 || Race.Times(acts, j) == 4)
  {
    var e := Exec(Sys(shared), Init(shared, n), acts).value;
    RunFollows(shared, n);
    ExecSnoc(Sys(shared), Init(shared, n), acts, i);
    assert forall j :: 0 <= j < n ==>
             (IsInside(e.threads[j]) == 0 <==> Stage(e.threads[j]) == 0 || Stage(e.threads[j]) == 4);
    assert Reaches(Sys(shared), Init(shared, n), e);
    if shared {
      SharedReachable(n);
      PermitIffNobodyInside(n, e);
    } else {
      PrivateReachable(n);
    }
  }
}
