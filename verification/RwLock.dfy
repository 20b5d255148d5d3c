/**
 thread_test/rwlock_test.c, rwlock_write_hungry.c and rwlock_hungry_solved.c: readers print a shared value and
 writers add one to it, load and store apart, under a read-write lock.  `prefer` is the attribute
 PTHREAD_RWLOCK_PREFER_WRITER_NONRECURSIVE_NP: a reader is not admitted while a writer waits.  Without it a
 reader is admitted whenever no writer holds the lock.
 */
module RwLock {
  import opened Runs
  import opened Sums

  datatype Role = Reader | Writer

  /** Waiting is inside rdlock or wrlock, after the lock was found not available; Left keeps the value a
      reader saw. */
  datatype Phase = Idle | Waiting | Holding | Seen(v: nat) | Loaded(v: nat) | Stored | Left(v: nat)

  datatype Thread = Thread(role: Role, phase: Phase)

  /** `admitted` is history: the readers in the order in which they got the lock, each with the number of
      writers that had released it by then. */
  datatype Admission = Admission(who: nat, completed: nat)

  datatype State = State(data: nat, threads: seq<Thread>, admitted: seq<Admission>)

  function Init(roles: seq<Role>): State
  {
    State(0, seq(|roles|, i requires 0 <= i < |roles| => Thread(roles[i], Idle)), [])
  }

  function IsReader(t: Thread): nat { if t.role.Reader? then 1 else 0 }
  function IsWriter(t: Thread): nat { if t.role.Writer? then 1 else 0 }

  predicate Inside(t: Thread)
  {
    t.phase.Holding? || t.phase.Seen? || t.phase.Loaded? || t.phase.Stored?
  }

  function ReaderIn(t: Thread): nat { if t.role.Reader? && Inside(t) then 1 else 0 }
  function WriterIn(t: Thread): nat { if t.role.Writer? && Inside(t) then 1 else 0 }
  function WriterWaits(t: Thread): nat { if t.role.Writer? && t.phase.Waiting? then 1 else 0 }
  function WriterStored(t: Thread): nat { if t.role.Writer? && t.phase.Stored? then 1 else 0 }
  function WriterLeft(t: Thread): nat { if t.role.Writer? && t.phase.Left? then 1 else 0 }
  function WriterEntered(t: Thread): nat { if t.role.Writer? && (Inside(t) || t.phase.Left?) then 1 else 0 }

  /** Whether the lock is available to a thread that asks for it. */
  predicate Free(prefer: bool, s: State, role: Role)
  {
    && Sum(WriterIn, s.threads) == 0
    && if role.Writer? then Sum(ReaderIn, s.threads) == 0
       else prefer ==> Sum(WriterWaits, s.threads) == 0
  }

  function SetPhase(s: State, i: nat, p: Phase): State
    requires i < |s.threads|
  {
    s.(threads := s.threads[i := Thread(s.threads[i].role, p)])
  }

  function Acquire(s: State, i: nat): State
    requires i < |s.threads|
  {
    SetPhase(s, i, Holding).(admitted := s.admitted + if s.threads[i].role.Reader?
                                                      then [Admission(i, Sum(WriterLeft, s.threads))] else [])
  }

  function Next(prefer: bool, s: State, i: nat): Option<State>
  {
    if i >= |s.threads| then None
    else
      var role := s.threads[i].role;
      match s.threads[i].phase
      case Idle => Some(if Free(prefer, s, role) then Acquire(s, i) else SetPhase(s, i, Waiting))
      case Waiting => if Free(prefer, s, role) then Some(Acquire(s, i)) else None
      case Holding => Some(SetPhase(s, i, if role.Reader? then Seen(s.data) else Loaded(s.data)))
      case Seen(v) => Some(SetPhase(s, i, Left(v)))
      case Loaded(v) => Some(SetPhase(s, i, Stored).(data := v + 1))
      case Stored => Some(SetPhase(s, i, Left(s.data)))
      case Left(_) => None
  }

  function Sys(prefer: bool): (State, nat) -> Option<State>
  {
    (s: State, i: nat) => Next(prefer, s, i)
  }

  ghost predicate Complete(s: State)
  {
    forall i :: 0 <= i < |s.threads| ==> s.threads[i].phase.Left?
  }

  // ----- Exclusion and the values seen

  ghost predicate CountInv(s: State)
  {
    && Sum(WriterIn, s.threads) <= 1
    && (Sum(WriterIn, s.threads) == 1 ==> Sum(ReaderIn, s.threads) == 0)
    && s.data == Sum(WriterLeft, s.threads) + Sum(WriterStored, s.threads)
  }

  ghost predicate LockInv(s: State)
  {
    && CountInv(s)
    && (forall i :: 0 <= i < |s.threads| && s.threads[i].phase.Loaded? ==>
          s.threads[i].role.Writer? && s.threads[i].phase.v == s.data)
    && (forall i :: 0 <= i < |s.threads| && s.threads[i].phase.Stored? ==> s.threads[i].role.Writer?)
    && (forall i :: 0 <= i < |s.threads| && s.threads[i].phase.Seen? ==> s.threads[i].role.Reader?)
  }

  /** An admitted reader inside the section: the completed writers are still those of its admission. */
  ghost predicate AdmissionOk(s: State, a: Admission)
  {
    && a.who < |s.threads| && s.threads[a.who].role.Reader? && a.completed <= s.data
    && match s.threads[a.who].phase
       case Holding => a.completed == s.data
       case Seen(v) => v == a.completed == s.data
       case Left(v) => v == a.completed
       case _ => false
  }

  predicate WasAdmitted(t: Thread)
  {
    t.role.Reader? && (Inside(t) || t.phase.Left?)
  }

  ghost predicate HistoryInv(s: State)
  {
    && (forall k :: 0 <= k < |s.admitted| ==> AdmissionOk(s, s.admitted[k]))
    && (forall k, l :: 0 <= k < l < |s.admitted| ==>
          s.admitted[k].who != s.admitted[l].who && s.admitted[k].completed <= s.admitted[l].completed)
    && (forall i :: 0 <= i < |s.threads| && WasAdmitted(s.threads[i]) ==>
          exists k :: 0 <= k < |s.admitted| && s.admitted[k].who == i)
  }

  ghost predicate Inv(roles: seq<Role>, s: State)
  {
    && |s.threads| == |roles| && (forall i :: 0 <= i < |roles| ==> s.threads[i].role == roles[i])
    && LockInv(s) && HistoryInv(s)
  }

  /** How the counts move when thread `i` steps. */
  lemma Counts(s: State, i: nat, x: Thread)
    requires i < |s.threads|
    ensures var t := s.threads[i := x];
            && Sum(WriterIn, t) + WriterIn(s.threads[i]) == Sum(WriterIn, s.threads) + WriterIn(x)
            && Sum(ReaderIn, t) + ReaderIn(s.threads[i]) == Sum(ReaderIn, s.threads) + ReaderIn(x)
            && Sum(WriterStored, t) + WriterStored(s.threads[i]) == Sum(WriterStored, s.threads) + WriterStored(x)
            && Sum(WriterLeft, t) + WriterLeft(s.threads[i]) == Sum(WriterLeft, s.threads) + WriterLeft(x)
            && WriterIn(s.threads[i]) <= Sum(WriterIn, s.threads)
            && ReaderIn(s.threads[i]) <= Sum(ReaderIn, s.threads)
  {
    SumUpdate(WriterIn, s.threads, i, x);
    SumUpdate(ReaderIn, s.threads, i, x);
    SumUpdate(WriterStored, s.threads, i, x);
    SumUpdate(WriterLeft, s.threads, i, x);
    SumPart(WriterIn, s.threads, i);
    SumPart(ReaderIn, s.threads, i);
  }

  /** Two threads inside are two readers. */
  lemma Alone(s: State, i: nat, j: nat)
    requires LockInv(s) && i < |s.threads| && j < |s.threads| && i != j
    requires Inside(s.threads[i]) && Inside(s.threads[j])
    ensures s.threads[i].role.Reader? && s.threads[j].role.Reader?
  {
    SumTwoParts(WriterIn, s.threads, if i < j then i else j, if i < j then j else i);
    SumPart(WriterIn, s.threads, i);
    SumPart(WriterIn, s.threads, j);
    SumPart(ReaderIn, s.threads, i);
    SumPart(ReaderIn, s.threads, j);
  }

  lemma StepKeepsCounts(prefer: bool, s: State, i: nat)
    requires LockInv(s) && Next(prefer, s, i).Some?
    ensures CountInv(Next(prefer, s, i).value)
  {
    var t := Next(prefer, s, i).value;
    var x := t.threads[i];
    assert t.threads == s.threads[i := x];
    Counts(s, i, x);
    assert ReaderIn(x) + WriterIn(x) <= 1;
  }

  lemma StepKeepsLock(prefer: bool, s: State, i: nat)
    requires LockInv(s) && Next(prefer, s, i).Some?
    ensures LockInv(Next(prefer, s, i).value)
  {
    var t := Next(prefer, s, i).value;
    StepKeepsCounts(prefer, s, i);
    forall j | 0 <= j < |t.threads| && j != i && t.threads[j].phase.Loaded? ensures t.threads[j].phase.v == t.data {
      if s.threads[i].phase.Loaded? {
        Alone(s, i, j);
      }
    }
  }

  /** With no writer inside, the shared value is the number of writers that are gone. */
  lemma FreeOfWriters(s: State)
    requires LockInv(s) && Sum(WriterIn, s.threads) == 0
    ensures Sum(WriterLeft, s.threads) == s.data
  {
    SumBelow(WriterStored, WriterIn, s.threads, |s.threads|);
  }

  lemma AdmittedHas(s: State, i: nat)
    requires HistoryInv(s) && i < |s.threads| && WasAdmitted(s.threads[i])
    ensures exists k :: 0 <= k < |s.admitted| && s.admitted[k].who == i
  {
  }

  lemma AcquireKeepsAdmissions(prefer: bool, s: State, i: nat, k: nat)
    requires LockInv(s) && HistoryInv(s) && i < |s.threads| && k < |s.admitted|
    requires s.threads[i].phase.Idle? || s.threads[i].phase.Waiting?
    requires Free(prefer, s, s.threads[i].role)
    ensures AdmissionOk(Acquire(s, i), s.admitted[k]) && s.admitted[k].who != i
  {
    assert AdmissionOk(s, s.admitted[k]);
  }

  lemma AcquireKeepsHistory(prefer: bool, s: State, i: nat)
    requires LockInv(s) && HistoryInv(s) && i < |s.threads|
    requires s.threads[i].phase.Idle? || s.threads[i].phase.Waiting?
    requires Free(prefer, s, s.threads[i].role)
    ensures HistoryInv(Acquire(s, i))
  {
    var t := Acquire(s, i);
    var n := |s.admitted|;
    FreeOfWriters(s);
    forall k | 0 <= k < n ensures AdmissionOk(t, s.admitted[k]) && t.admitted[k] == s.admitted[k] {
      AcquireKeepsAdmissions(prefer, s, i, k);
    }
    forall k, l | 0 <= k < l < |t.admitted|
      ensures t.admitted[k].who != t.admitted[l].who && t.admitted[k].completed <= t.admitted[l].completed
    {
      AcquireKeepsAdmissions(prefer, s, i, k);
    }
    forall j | 0 <= j < |t.threads| && WasAdmitted(t.threads[j])
      ensures exists k :: 0 <= k < |t.admitted| && t.admitted[k].who == j
    {
      if j == i {
        assert t.admitted[n].who == j;
      } else {
        AdmittedHas(s, j);
        var k :| 0 <= k < n && s.admitted[k].who == j;
        assert t.admitted[k].who == j;
      }
    }
  }

  lemma OtherStepKeepsHistory(prefer: bool, s: State, i: nat)
    requires LockInv(s) && HistoryInv(s) && Next(prefer, s, i).Some?
    requires !((s.threads[i].phase.Idle? || s.threads[i].phase.Waiting?) && Free(prefer, s, s.threads[i].role))
    ensures HistoryInv(Next(prefer, s, i).value)
  {
    var t := Next(prefer, s, i).value;
    forall k | 0 <= k < |s.admitted| ensures AdmissionOk(t, t.admitted[k]) {
      assert AdmissionOk(s, s.admitted[k]);
      var j := s.admitted[k].who;
      if s.threads[i].phase.Loaded? && Inside(s.threads[j]) {
        Alone(s, i, j);
      }
    }
    forall j | 0 <= j < |t.threads| && WasAdmitted(t.threads[j])
      ensures exists k :: 0 <= k < |t.admitted| && t.admitted[k].who == j
    {
      AdmittedHas(s, j);
    }
  }

  lemma StepKeepsInv(prefer: bool, roles: seq<Role>, s: State, i: nat)
    requires Inv(roles, s) && Next(prefer, s, i).Some?
    ensures Inv(roles, Next(prefer, s, i).value)
  {
    StepKeepsLock(prefer, s, i);
    if (s.threads[i].phase.Idle? || s.threads[i].phase.Waiting?) && Free(prefer, s, s.threads[i].role) {
      AcquireKeepsHistory(prefer, s, i);
    } else {
      OtherStepKeepsHistory(prefer, s, i);
    }
  }

  lemma InitInv(roles: seq<Role>)
    ensures Inv(roles, Init(roles))
  {
    var ts := Init(roles).threads;
    SumBounds(WriterIn, ts, 0, 0);
    SumBounds(ReaderIn, ts, 0, 0);
    SumBounds(WriterStored, ts, 0, 0);
    SumBounds(WriterLeft, ts, 0, 0);
  }

  lemma Reachable(prefer: bool, roles: seq<Role>)
    ensures Always(Sys(prefer), Init(roles), s => Inv(roles, s))
  {
    InitInv(roles);
    forall t, i: nat | Inv(roles, t) && Sys(prefer)(t, i).Some? ensures Inv(roles, Sys(prefer)(t, i).value) {
      StepKeepsInv(prefer, roles, t, i);
    }
    Invariant(Sys(prefer), t => Inv(roles, t), Init(roles));
  }

  /** A writer in its section is alone there. */
  lemma WriterExcludesAll(prefer: bool, roles: seq<Role>, s: State, i: nat, j: nat)
    requires Reaches(Sys(prefer), Init(roles), s) && i < |roles| && j < |roles| && i != j
    ensures |s.threads| == |roles|
    ensures roles[i].Writer? && Inside(s.threads[i]) ==> !Inside(s.threads[j])
  {
    Reachable(prefer, roles);
    if Inside(s.threads[i]) && Inside(s.threads[j]) {
      Alone(s, i, j);
    }
  }

  /** Each reader sees the number of writers that had finished when it was admitted, and in the order of
      admission the values seen never decrease. */
  lemma ReadersSeeCompletedWriters(prefer: bool, roles: seq<Role>, s: State, k: nat, l: nat)
    requires Reaches(Sys(prefer), Init(roles), s) && k <= l < |s.admitted|
    ensures var a, b := s.admitted[k], s.admitted[l];
            && a.who < |s.threads| == |roles| && b.who < |roles| && roles[a.who].Reader? && a.completed <= b.completed
            && (s.threads[a.who].phase.Left? ==> s.threads[a.who].phase.v == a.completed)
            && (s.threads[a.who].phase.Left? && s.threads[b.who].phase.Left?
                ==> s.threads[a.who].phase.v <= s.threads[b.who].phase.v)
  {
    Reachable(prefer, roles);
    assert AdmissionOk(s, s.admitted[k]) && AdmissionOk(s, s.admitted[l]);
  }

  /** No reader is missing from the order of admission: whoever has left is there once, with the value it saw. */
  lemma EveryReaderWasAdmitted(prefer: bool, roles: seq<Role>, s: State, i: nat)
    requires Reaches(Sys(prefer), Init(roles), s) && i < |roles| == |s.threads|
    requires roles[i].Reader? && s.threads[i].phase.Left?
    ensures exists k :: 0 <= k < |s.admitted| && s.admitted[k] == Admission(i, s.threads[i].phase.v)
    ensures forall k, l :: 0 <= k < l < |s.admitted| ==> s.admitted[k].who != s.admitted[l].who
  {
    Reachable(prefer, roles);
    AdmittedHas(s, i);
    var k :| 0 <= k < |s.admitted| && s.admitted[k].who == i;
    assert AdmissionOk(s, s.admitted[k]);
  }

  // ----- Every run ends, with every writer counted

  function StepsLeft(t: Thread): nat
  {
    match t.phase
    case Idle => if t.role.Reader? then 4 else 5
    case Waiting => if t.role.Reader? then 3 else 4
    case Holding => if t.role.Reader? then 2 else 3
    case Seen(_) | Stored => 1
    case Loaded(_) => 2
    case Left(_) => 0
  }

  lemma StepsDrop(prefer: bool, s: State, i: nat)
    requires Next(prefer, s, i).Some?
    ensures Sum(StepsLeft, Next(prefer, s, i).value.threads) < Sum(StepsLeft, s.threads)
  {
    var t := Next(prefer, s, i).value;
    assert t.threads == s.threads[i := t.threads[i]];
    SumUpdate(StepsLeft, s.threads, i, t.threads[i]);
  }

  lemma RunLength(prefer: bool, s: State, acts: seq<nat>)
    requires Exec(Sys(prefer), s, acts).Some?
    ensures |acts| <= Sum(StepsLeft, s.threads)
  {
    forall t, i: nat | Sys(prefer)(t, i).Some?
      ensures Sum(StepsLeft, Sys(prefer)(t, i).value.threads) < Sum(StepsLeft, t.threads)
    {
      StepsDrop(prefer, t, i);
    }
    Bounded(Sys(prefer), _ => true, (t: State) => Sum(StepsLeft, t.threads), s, acts);
  }

  /** Somebody can go on: a thread inside or not yet started, else a waiting writer, else a waiting reader. */
  lemma SomeoneCanStep(prefer: bool, s: State) returns (i: nat)
    requires LockInv(s) && !Complete(s)
    ensures Next(prefer, s, i).Some?
  {
    if Sum(WriterIn, s.threads) > 0 {
      i := SumWitness(WriterIn, s.threads);
    } else if Sum(ReaderIn, s.threads) > 0 {
      i := SumWitness(ReaderIn, s.threads);
    } else if Sum(WriterWaits, s.threads) > 0 {
      i := SumWitness(WriterWaits, s.threads);
    } else {
      i :| 0 <= i < |s.threads| && !s.threads[i].phase.Left?;
    }
  }

  /** Under either policy a run that cannot go on is complete and every writer's increment is there. */
  lemma RunsEndWithAllWritersCounted(prefer: bool, roles: seq<Role>, acts: seq<nat>, e: State)
    requires Exec(Sys(prefer), Init(roles), acts) == Some(e)
    ensures |acts| <= 5 * |roles|
    ensures Stuck(Sys(prefer), e) <==> Complete(e)
    ensures Complete(e) ==> e.data == Sum(IsWriter, Init(roles).threads)
  {
    assert Reaches(Sys(prefer), Init(roles), e);
    Reachable(prefer, roles);
    InitInv(roles);
    RunLength(prefer, Init(roles), acts);
    SumBounds(StepsLeft, Init(roles).threads, 0, 5);
    StuckIffComplete(prefer, e);
    SumAlike(IsWriter, Init(roles).threads, e.threads);
  }

  lemma StuckIffComplete(prefer: bool, s: State)
    requires LockInv(s)
    ensures Stuck(Sys(prefer), s) <==> Complete(s)
    ensures Complete(s) ==> s.data == Sum(IsWriter, s.threads)
  {
    if Complete(s) {
      SumSame(WriterLeft, IsWriter, s.threads);
      SumBounds(WriterStored, s.threads, 0, 0);
      assert forall i: nat :: Next(prefer, s, i).None?;
    } else {
      var i := SomeoneCanStep(prefer, s);
      assert Sys(prefer)(s, i).Some?;
    }
  }

  // ----- Who may pass a waiting writer

  /** A thread that got the lock does not wait for it again. */
  lemma {:induction false} NoWayBack(prefer: bool, s: State, acts: seq<nat>, w: nat)
    requires Exec(Sys(prefer), s, acts).Some? && w < |s.threads|
    requires !s.threads[w].phase.Idle? && !s.threads[w].phase.Waiting?
    ensures w < |Exec(Sys(prefer), s, acts).value.threads|
    ensures !Exec(Sys(prefer), s, acts).value.threads[w].phase.Waiting?
    decreases |acts|
  {
    if acts == [] {
    } else {
      NoWayBack(prefer, Next(prefer, s, acts[0]).value, acts[1..], w);
    }
  }

  /** Writer preference: while a writer waits no reader is admitted. */
  lemma {:induction false} NoReaderPassesAWaitingWriter(s: State, acts: seq<nat>, w: nat)
    requires Exec(Sys(true), s, acts).Some?
    requires w < |s.threads| && s.threads[w].role.Writer? && s.threads[w].phase.Waiting?
    requires var t := Exec(Sys(true), s, acts).value; w < |t.threads| && t.threads[w].phase.Waiting?
    ensures Exec(Sys(true), s, acts).value.admitted == s.admitted
    decreases |acts|
  {
    if acts == [] {
    } else {
      var u := Next(true, s, acts[0]).value;
      SumPart(WriterWaits, s.threads, w);
      if !u.threads[w].phase.Waiting? {
        NoWayBack(true, u, acts[1..], w);
      }
      NoReaderPassesAWaitingWriter(u, acts[1..], w);
    }
  }

  // ----- The data and the lock's own counters

  /** The lock keeps how many readers and writers are inside and how many writers wait; each method is one step
      of thread `i` and answers whether it could be made. */
  class SharedData {
    const prefer: bool
    const threads: array<Thread>
    var data: nat
    var readersIn: nat
    var writersIn: nat
    var writersWaiting: nat
    ghost var admitted: seq<Admission>

    ghost function View(): State
      reads this, threads
    {
      State(data, threads[..], admitted)
    }

    ghost predicate Valid()
      reads this, threads
    {
      && readersIn == Sum(ReaderIn, threads[..])
      && writersIn == Sum(WriterIn, threads[..])
      && writersWaiting == Sum(WriterWaits, threads[..])
    }

    constructor (prefer: bool, roles: seq<Role>)
      ensures Valid() && View() == Init(roles) && this.prefer == prefer && fresh(threads)
    {
      this.prefer := prefer;
      data, readersIn, writersIn, writersWaiting, admitted := 0, 0, 0, 0, [];
      threads := new Thread[|roles|](i requires 0 <= i < |roles| => Thread(roles[i], Idle));
      new;
      assert threads[..] == Init(roles).threads;
      SumBounds(ReaderIn, threads[..], 0, 0);
      SumBounds(WriterIn, threads[..], 0, 0);
      SumBounds(WriterWaits, threads[..], 0, 0);
    }

    method Step(i: nat) returns (ran: bool)
      requires Valid()
      modifies this, threads
      ensures Valid()
      ensures var next := Next(prefer, old(View()), i);
              ran == next.Some? && View() == if ran then next.value else old(View())
    {
      if i >= threads.Length {
        return false;
      }
      var t := threads[i];
      var free := writersIn == 0 && if t.role.Writer? then readersIn == 0 else !prefer || writersWaiting == 0;
      ran := true;
      match t.phase {
        case Idle =>
          if free { Admit(i); } else { Move(i, Waiting); }
        case Waiting =>
          if free { Admit(i); } else { ran := false; }
        case Holding =>
          Move(i, if t.role.Reader? then Seen(data) else Loaded(data));
        case Seen(v) =>
          Move(i, Left(v));
        case Loaded(v) =>
          Move(i, Stored);
          data := v + 1;
        case Stored =>
          Move(i, Left(data));
        case Left(_) =>
          ran := false;
      }
    }

    method Admit(i: nat)
      requires Valid() && i < threads.Length
      modifies this, threads
      ensures Valid() && View() == Acquire(old(View()), i)
    {
      if threads[i].role.Reader? {
        admitted := admitted + [Admission(i, Sum(WriterLeft, threads[..]))];
      }
      Move(i, Holding);
    }

    /** Thread `i` goes to phase `next` and the lock's counters follow. */
    method Move(i: nat, next: Phase)
      requires Valid() && i < threads.Length
      modifies threads, this`readersIn, this`writersIn, this`writersWaiting
      ensures Valid() && View() == SetPhase(old(View()), i, next)
    {
      ghost var before := threads[..];
      var was, now := threads[i], Thread(threads[i].role, next);
      SumPart(ReaderIn, before, i);
      SumPart(WriterIn, before, i);
      SumPart(WriterWaits, before, i);
      SumUpdate(ReaderIn, before, i, now);
      SumUpdate(WriterIn, before, i, now);
      SumUpdate(WriterWaits, before, i, now);
      if was.role.Reader? {
        readersIn := readersIn + (if Inside(now) then 1 else 0) - (if Inside(was) then 1 else 0);
      } else {
        writersIn := writersIn + (if Inside(now) then 1 else 0) - (if Inside(was) then 1 else 0);
        writersWaiting := writersWaiting + (if next.Waiting? then 1 else 0) - (if was.phase.Waiting? then 1 else 0);
      }
      threads[i] := now;
      assert threads[..] == before[i := now];
    }
  }
}
