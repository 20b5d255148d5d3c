/**
 thread_test/rwlock_test.c: which orders of admission, and with them which values seen by the readers, a complete
 run can have.  The answer is exact and the same for both policies.
 */
module RwLockOrders {
  import opened Runs
  import opened Sums
  import opened RwLock
  import opened RwLockPassing

  /** Readers, each once, with numbers of completed writers that never decrease. */
  ghost predicate LegalOrder(roles: seq<Role>, order: seq<Admission>)
  {
    && (forall k :: 0 <= k < |order| ==>
          order[k].who < |roles| && roles[order[k].who].Reader? && order[k].completed <= Writers(roles))
    && (forall k, l :: 0 <= k < l < |order| ==>
          order[k].who != order[l].who && order[k].completed <= order[l].completed)
  }

  ghost predicate NamesEveryReader(roles: seq<Role>, order: seq<Admission>)
  {
    forall i :: 0 <= i < |roles| && roles[i].Reader? ==> exists k :: 0 <= k < |order| && order[k].who == i
  }

  /** Each reader saw the number of writers that goes with its admission. */
  ghost predicate Saw(s: State, order: seq<Admission>)
  {
    forall k :: 0 <= k < |order| ==>
      order[k].who < |s.threads| && s.threads[order[k].who].phase == Left(order[k].completed)
  }

  /** Some complete run admits the readers in this order and shows them these values. */
  ghost predicate CanHappen(prefer: bool, roles: seq<Role>, order: seq<Admission>)
  {
    exists s :: Reaches(Sys(prefer), Init(roles), s) && Complete(s) && s.admitted == order && Saw(s, order)
  }

  lemma CompleteRunIsLegal(prefer: bool, roles: seq<Role>, s: State)
    requires Reaches(Sys(prefer), Init(roles), s) && Complete(s)
    ensures LegalOrder(roles, s.admitted) && NamesEveryReader(roles, s.admitted) && Saw(s, s.admitted)
  {
    Reachable(prefer, roles);
    StuckIffComplete(prefer, s);
    SumAlike(IsWriter, Init(roles).threads, s.threads);
    forall k | 0 <= k < |s.admitted|
      ensures var a := s.admitted[k];
              && a.who < |roles| && roles[a.who].Reader? && a.completed <= Writers(roles)
              && s.threads[a.who].phase == Left(a.completed)
    {
      assert AdmissionOk(s, s.admitted[k]);
    }
    forall i | 0 <= i < |roles| && roles[i].Reader?
      ensures exists k :: 0 <= k < |s.admitted| && s.admitted[k].who == i
    {
      AdmittedHas(s, i);
    }
  }

  // ----- A run for every legal order

  /** Between two passages everyone is idle or gone. */
  ghost predicate Quiet(s: State)
  {
    forall i :: 0 <= i < |s.threads| ==> s.threads[i].phase.Idle? || s.threads[i].phase.Left?
  }

  lemma {:induction false} IdleOrLeft(ts: seq<Thread>)
    requires forall i :: 0 <= i < |ts| ==> ts[i].phase.Idle? || ts[i].phase.Left?
    ensures Sum(IdleWriter, ts) + Sum(WriterLeft, ts) == Sum(IsWriter, ts)
  {
    if ts == [] {
    } else {
      IdleOrLeft(ts[1..]);
    }
  }

  lemma QuietCounts(prefer: bool, roles: seq<Role>, s: State)
    requires Reaches(Sys(prefer), Init(roles), s) && Quiet(s)
    ensures NobodyInside(s) && Sum(WriterWaits, s.threads) == 0
    ensures Sum(WriterLeft, s.threads) == s.data && Sum(IdleWriter, s.threads) + s.data == Writers(roles)
  {
    Reachable(prefer, roles);
    NobodyStays(s);
    SumBounds(WriterWaits, s.threads, 0, 0);
    SumBounds(WriterStored, s.threads, 0, 0);
    IdleOrLeft(s.threads);
    SumAlike(IsWriter, Init(roles).threads, s.threads);
  }

  /** Writers pass until `v` of them have. */
  lemma {:induction false} Advance(prefer: bool, roles: seq<Role>, s: State, v: nat) returns (t: State)
    requires Reaches(Sys(prefer), Init(roles), s) && Quiet(s) && s.data <= v <= Writers(roles)
    ensures Reaches(Sys(prefer), Init(roles), t) && Quiet(t) && t.data == v && t.admitted == s.admitted
    decreases v - s.data
  {
    if s.data == v {
      t := s;
    } else {
      QuietCounts(prefer, roles, s);
      var i := SumWitness(IdleWriter, s.threads);
      var u := WriterPasses(prefer, Init(roles), s, i);
      t := Advance(prefer, roles, u, v);
    }
  }

  /** An idle reader comes, sees the value and goes. */
  lemma ReaderPasses(prefer: bool, roles: seq<Role>, s: State, i: nat) returns (t: State)
    requires Reaches(Sys(prefer), Init(roles), s) && Quiet(s)
    requires i < |s.threads| && IdleReader(s.threads[i]) == 1
    ensures Reaches(Sys(prefer), Init(roles), t) && Quiet(t) && t.data == s.data
    ensures t.admitted == s.admitted + [Admission(i, s.data)]
  {
    QuietCounts(prefer, roles, s);
    var inside := Acquire(s, i);
    assert Next(prefer, s, i) == Some(inside);
    ReachesStep(Sys(prefer), Init(roles), s, i);
    t := Finishes(prefer, Init(roles), inside, i);
  }

  lemma NotYetAdmitted(prefer: bool, roles: seq<Role>, s: State, i: nat)
    requires Reaches(Sys(prefer), Init(roles), s) && Quiet(s) && i < |roles| && roles[i].Reader?
    requires forall k :: 0 <= k < |s.admitted| ==> s.admitted[k].who != i
    ensures i < |s.threads| && IdleReader(s.threads[i]) == 1
  {
    Reachable(prefer, roles);
    if WasAdmitted(s.threads[i]) {
      AdmittedHas(s, i);
    }
  }

  lemma AdmitNext(prefer: bool, roles: seq<Role>, s: State, a: Admission) returns (t: State)
    requires Reaches(Sys(prefer), Init(roles), s) && Quiet(s) && s.data <= a.completed <= Writers(roles)
    requires a.who < |roles| && roles[a.who].Reader?
    requires forall k :: 0 <= k < |s.admitted| ==> s.admitted[k].who != a.who
    ensures Reaches(Sys(prefer), Init(roles), t) && Quiet(t)
    ensures t.admitted == s.admitted + [a] && t.data == a.completed
  {
    var ready := Advance(prefer, roles, s, a.completed);
    NotYetAdmitted(prefer, roles, ready, a.who);
    t := ReaderPasses(prefer, roles, ready, a.who);
  }

  lemma LegalPrefix(roles: seq<Role>, order: seq<Admission>, a: Admission)
    requires LegalOrder(roles, order + [a])
    ensures LegalOrder(roles, order)
    ensures a.who < |roles| && roles[a.who].Reader? && a.completed <= Writers(roles)
    ensures forall k :: 0 <= k < |order| ==> order[k].who != a.who && order[k].completed <= a.completed
  {
    var whole := order + [a];
    assert whole[|order|] == a && forall k :: 0 <= k < |order| ==> whole[k] == order[k];
  }

  function LastValue(order: seq<Admission>): nat
  {
    if order == [] then 0 else order[|order| - 1].completed
  }

  /** Before each reader the writers it is to see pass. */
  lemma {:induction false} RunInOrder(prefer: bool, roles: seq<Role>, order: seq<Admission>) returns (s: State)
    requires LegalOrder(roles, order)
    ensures Reaches(Sys(prefer), Init(roles), s) && Quiet(s) && s.admitted == order && s.data == LastValue(order)
    decreases |order|
  {
    if order == [] {
      s := Init(roles);
      ReachesSelf(Sys(prefer), s);
    } else {
      var most, a := order[..|order| - 1], order[|order| - 1];
      assert order == most + [a];
      LegalPrefix(roles, most, a);
      s := RunInOrder(prefer, roles, most);
      s := AdmitNext(prefer, roles, s, a);
    }
  }

  lemma QuietAndCounted(prefer: bool, roles: seq<Role>, s: State)
    requires Reaches(Sys(prefer), Init(roles), s) && Quiet(s)
    requires s.data == Writers(roles) && NamesEveryReader(roles, s.admitted)
    ensures Complete(s)
  {
    Reachable(prefer, roles);
    QuietCounts(prefer, roles, s);
    forall i | 0 <= i < |s.threads| ensures s.threads[i].phase.Left? {
      if roles[i].Reader? {
        var k :| 0 <= k < |s.admitted| && s.admitted[k].who == i;
        assert AdmissionOk(s, s.admitted[k]);
      } else {
        SumPart(IdleWriter, s.threads, i);
      }
    }
  }

  /** The complete runs admit the readers in exactly the legal orders: every order of all the readers, with any
      values from 0 to the number of writers that do not decrease along it. */
  lemma AdmissionOrders(prefer: bool, roles: seq<Role>, order: seq<Admission>)
    ensures CanHappen(prefer, roles, order) <==> LegalOrder(roles, order) && NamesEveryReader(roles, order)
  {
    if CanHappen(prefer, roles, order) {
      var s :| Reaches(Sys(prefer), Init(roles), s) && Complete(s) && s.admitted == order && Saw(s, order);
      CompleteRunIsLegal(prefer, roles, s);
    }
    if LegalOrder(roles, order) && NamesEveryReader(roles, order) {
      var s := RunInOrder(prefer, roles, order);
      s := Advance(prefer, roles, s, Writers(roles));
      QuietAndCounted(prefer, roles, s);
      CompleteRunIsLegal(prefer, roles, s);
    }
  }
}
