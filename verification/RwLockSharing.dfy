/**
 thread_test/rwlock_test.c and rwlock_hungry_solved.c: who can be in the section together, and when a thread that
 asks for the lock has to wait.
 */
module RwLockSharing {
  import opened Runs
  import opened Sums
  import opened RwLock

  /** Whether thread `i` may enter, from what the other threads are doing. */
  ghost predicate NobodyInTheWay(prefer: bool, roles: seq<Role>, s: State, i: nat)
    requires i < |roles| == |s.threads|
  {
    forall j :: 0 <= j < |roles| ==>
      if roles[i].Writer? then !Inside(s.threads[j])
      else roles[j].Writer? ==> !Inside(s.threads[j]) && !(prefer && s.threads[j].phase.Waiting?)
  }

  lemma FreeIffNobodyInTheWay(prefer: bool, roles: seq<Role>, s: State, i: nat)
    requires Inv(roles, s) && i < |roles|
    ensures Free(prefer, s, roles[i]) <==> NobodyInTheWay(prefer, roles, s, i)
  {
    SumZero(WriterIn, s.threads);
    SumZero(ReaderIn, s.threads);
    SumZero(WriterWaits, s.threads);
    if roles[i].Writer? {
      assert forall j :: 0 <= j < |roles| ==>
               (!Inside(s.threads[j]) <==> WriterIn(s.threads[j]) == 0 && ReaderIn(s.threads[j]) == 0);
    }
  }

  /** A thread that asks enters at once if nobody is in its way - for a reader that is a writer inside, or under
      writer preference a waiting one, but never a reader - and else waits; a waiting thread can go on exactly
      when the way is free; a thread inside can always go on. */
  lemma WhoCanGoOn(prefer: bool, roles: seq<Role>, s: State, i: nat)
    requires Reaches(Sys(prefer), Init(roles), s) && i < |roles|
    ensures |s.threads| == |roles|
    ensures var next := Next(prefer, s, i);
            var free := NobodyInTheWay(prefer, roles, s, i);
            && (next.Some? <==> !s.threads[i].phase.Left? && (s.threads[i].phase.Waiting? ==> free))
            && (s.threads[i].phase.Idle? ==>
                  if free then Inside(next.value.threads[i]) else next.value.threads[i].phase.Waiting?)
            && (s.threads[i].phase.Waiting? && free ==> Inside(next.value.threads[i]))
  {
    Reachable(prefer, roles);
    FreeIffNobodyInTheWay(prefer, roles, s, i);
  }

  ghost predicate NoWriterAsked(s: State)
  {
    forall j :: 0 <= j < |s.threads| ==>
      if s.threads[j].role.Writer? then s.threads[j].phase.Idle? else !s.threads[j].phase.Waiting?
  }

  /** In a run in which no writer has asked for the lock no reader ever waits, under either policy. */
  lemma ReadersAloneNeverWait(prefer: bool, roles: seq<Role>, acts: seq<nat>, e: State, i: nat)
    requires Exec(Sys(prefer), Init(roles), acts) == Some(e) && i < |roles|
    requires forall a :: a in acts ==> a < |roles| && roles[a].Reader?
    ensures |e.threads| == |roles| && !e.threads[i].phase.Waiting?
    ensures roles[i].Reader? ==> (Next(prefer, e, i).Some? <==> !e.threads[i].phase.Left?)
  {
    InitInv(roles);
    NoWriterEverAsks(prefer, roles, Init(roles), acts);
    assert Reaches(Sys(prefer), Init(roles), e);
    Reachable(prefer, roles);
  }

  lemma {:induction false} NoWriterEverAsks(prefer: bool, roles: seq<Role>, s: State, acts: seq<nat>)
    requires Inv(roles, s) && NoWriterAsked(s) && Exec(Sys(prefer), s, acts).Some?
    requires forall a :: a in acts ==> a < |roles| && roles[a].Reader?
    ensures NoWriterAsked(Exec(Sys(prefer), s, acts).value)
    decreases |acts|
  {
    if acts == [] {
    } else {
      var i := acts[0];
      assert i in acts && forall a :: a in acts[1..] ==> a in acts;
      FreeIffNobodyInTheWay(prefer, roles, s, i);
      StepKeepsInv(prefer, roles, s, i);
      NoWriterEverAsks(prefer, roles, Next(prefer, s, i).value, acts[1..]);
    }
  }

  // ----- Who can be inside together

  ghost function InsideSet(s: State): set<nat>
  {
    set i: nat | i < |s.threads| && Inside(s.threads[i])
  }

  ghost predicate CanBeInside(prefer: bool, roles: seq<Role>, crowd: set<nat>)
  {
    exists s :: Reaches(Sys(prefer), Init(roles), s) && InsideSet(s) == crowd
  }

  /** Everyone in the crowd has just got the lock, nobody else has asked for it. */
  ghost predicate JustEntered(roles: seq<Role>, crowd: set<nat>, s: State)
  {
    && |s.threads| == |roles|
    && forall j :: 0 <= j < |roles| ==> s.threads[j] == Thread(roles[j], if j in crowd then Holding else Idle)
  }

  /** One more reader joins the readers inside, or a writer enters the free section. */
  lemma OneMoreEnters(prefer: bool, roles: seq<Role>, crowd: set<nat>, s: State, i: nat) returns (t: State)
    requires Reaches(Sys(prefer), Init(roles), s) && JustEntered(roles, crowd, s)
    requires i < |roles| && i !in crowd && (roles[i].Writer? ==> crowd == {})
    requires forall j :: j in crowd ==> j < |roles| && roles[j].Reader?
    ensures Reaches(Sys(prefer), Init(roles), t) && JustEntered(roles, crowd + {i}, t)
  {
    Reachable(prefer, roles);
    FreeIffNobodyInTheWay(prefer, roles, s, i);
    ReachesStep(Sys(prefer), Init(roles), s, i);
    t := Next(prefer, s, i).value;
  }

  lemma {:induction false} ReadersEnter(prefer: bool, roles: seq<Role>, crowd: set<nat>) returns (s: State)
    requires forall j :: j in crowd ==> j < |roles| && roles[j].Reader?
    ensures Reaches(Sys(prefer), Init(roles), s) && JustEntered(roles, crowd, s)
    decreases |crowd|
  {
    if crowd == {} {
      s := Init(roles);
      ReachesSelf(Sys(prefer), s);
    } else {
      var i :| i in crowd;
      s := ReadersEnter(prefer, roles, crowd - {i});
      s := OneMoreEnters(prefer, roles, crowd - {i}, s, i);
      assert crowd - {i} + {i} == crowd;
    }
  }

  lemma OnlyTheseCanBeInside(prefer: bool, roles: seq<Role>, s: State)
    requires Reaches(Sys(prefer), Init(roles), s)
    ensures forall i :: i in InsideSet(s) ==> i < |roles|
    ensures (forall i :: i in InsideSet(s) ==> roles[i].Reader?) || exists w :: InsideSet(s) == {w}
  {
    Reachable(prefer, roles);
    if w :| w in InsideSet(s) && roles[w].Writer? {
      forall j | j in InsideSet(s) ensures j == w {
        if j != w { WriterExcludesAll(prefer, roles, s, w, j); }
      }
      assert InsideSet(s) == {w};
    }
  }

  /** Exactly the sets of readers and the single writers can be in the section together, under either policy. */
  lemma WhoCanBeInside(prefer: bool, roles: seq<Role>, crowd: set<nat>)
    ensures CanBeInside(prefer, roles, crowd)
            <==> && (forall i :: i in crowd ==> i < |roles|)
                 && ((forall i :: i in crowd ==> roles[i].Reader?) || exists w :: crowd == {w})
  {
    if CanBeInside(prefer, roles, crowd) {
      var s :| Reaches(Sys(prefer), Init(roles), s) && InsideSet(s) == crowd;
      OnlyTheseCanBeInside(prefer, roles, s);
    }
    if forall i :: i in crowd ==> i < |roles| {
      if forall i :: i in crowd ==> roles[i].Reader? {
        var s := ReadersEnter(prefer, roles, crowd);
        assert InsideSet(s) == crowd;
      } else if w :| crowd == {w} {
        assert w in crowd;
        var none: set<nat> := {};
        var s := ReadersEnter(prefer, roles, none);
        s := OneMoreEnters(prefer, roles, none, s, w);
        assert InsideSet(s) == crowd;
      }
    }
  }
}
