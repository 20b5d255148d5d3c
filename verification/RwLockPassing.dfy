/**
 thread_test/rwlock_hungry_solved.c against rwlock_write_hungry.c: which threads can get the lock while a writer
 waits for it.  The answer is exact for both policies and any number of readers and writers.
 */
module RwLockPassing {
  import opened Runs
  import opened Sums
  import opened RwLock

  function Readers(roles: seq<Role>): nat { Sum(IsReader, Init(roles).threads) }

  function Writers(roles: seq<Role>): nat { Sum(IsWriter, Init(roles).threads) }

  ghost predicate Waits(s: State, w: nat)
  {
    w < |s.threads| && s.threads[w].phase.Waiting?
  }

  /** In `s` thread `w` has just found the lock not available. */
  ghost predicate BeginsToWait(prefer: bool, roles: seq<Role>, s: State, w: nat)
  {
    Waits(s, w) && exists s0 :: Reaches(Sys(prefer), Init(roles), s0) && BlockedAt(prefer, s0, s, w)
  }

  ghost predicate BlockedAt(prefer: bool, s0: State, s: State, w: nat)
  {
    w < |s0.threads| && s0.threads[w].phase.Idle? && Next(prefer, s0, w) == Some(s)
  }

  /** Between `s` and `t` exactly `r` readers and `k` writers were admitted. */
  ghost predicate Admitted(s: State, t: State, r: nat, k: nat)
  {
    && |t.admitted| == |s.admitted| + r
    && Sum(WriterEntered, t.threads) == Sum(WriterEntered, s.threads) + k
  }

  /** Some run admits exactly `r` readers and `k` other writers while writer `w` waits. */
  ghost predicate CanPass(prefer: bool, roles: seq<Role>, w: nat, r: nat, k: nat)
  {
    exists s, t :: BeginsToWait(prefer, roles, s, w)
                   && Reaches(Sys(prefer), s, t) && Waits(t, w) && Admitted(s, t, r, k)
  }

  // ----- No more than these

  function ReaderEntered(t: Thread): nat { if WasAdmitted(t) then 1 else 0 }

  /** The order of admission has an entry for each reader that got the lock. */
  ghost predicate EntryInv(roles: seq<Role>, s: State)
  {
    && |s.threads| == |roles| && (forall j :: 0 <= j < |roles| ==> s.threads[j].role == roles[j])
    && |s.admitted| == Sum(ReaderEntered, s.threads)
  }

  lemma StepKeepsEntries(prefer: bool, roles: seq<Role>, s: State, i: nat)
    requires EntryInv(roles, s) && Next(prefer, s, i).Some?
    ensures EntryInv(roles, Next(prefer, s, i).value)
  {
    var t := Next(prefer, s, i).value;
    assert t.threads == s.threads[i := t.threads[i]];
    SumUpdate(ReaderEntered, s.threads, i, t.threads[i]);
  }

  lemma EntriesReachable(prefer: bool, roles: seq<Role>)
    ensures Always(Sys(prefer), Init(roles), s => EntryInv(roles, s))
  {
    SumBounds(ReaderEntered, Init(roles).threads, 0, 0);
    forall t, i: nat | EntryInv(roles, t) && Sys(prefer)(t, i).Some? ensures EntryInv(roles, Sys(prefer)(t, i).value) {
      StepKeepsEntries(prefer, roles, t, i);
    }
    Invariant(Sys(prefer), t => EntryInv(roles, t), Init(roles));
  }

  /** A writer that has to wait was kept out by a thread that had been admitted. */
  lemma SomeoneIsInTheWay(prefer: bool, s0: State, s: State, w: nat)
    requires BlockedAt(prefer, s0, s, w) && Waits(s, w) && s0.threads[w].role.Writer?
    ensures Sum(ReaderEntered, s.threads) + Sum(WriterEntered, s.threads) >= 1
  {
    SumUpdate(ReaderEntered, s0.threads, w, s.threads[w]);
    SumUpdate(WriterEntered, s0.threads, w, s.threads[w]);
    SumBelow(ReaderIn, ReaderEntered, s0.threads, |s0.threads|);
    SumBelow(WriterIn, WriterEntered, s0.threads, |s0.threads|);
  }

  lemma {:induction false} ReadersAndWriters(ts: seq<Thread>)
    ensures Sum(IsReader, ts) + Sum(IsWriter, ts) == |ts|
  {
    if ts == [] {
    } else {
      ReadersAndWriters(ts[1..]);
    }
  }

  /** Of the threads that have got the lock none is `w`, which still waits. */
  lemma EntriesBounded(roles: seq<Role>, t: State, w: nat)
    requires EntryInv(roles, t) && w < |roles| && roles[w].Writer? && Waits(t, w)
    ensures |t.admitted| <= Readers(roles) && Sum(WriterEntered, t.threads) <= Writers(roles) - 1
    ensures Readers(roles) + Writers(roles) == |roles|
  {
    SumBelow(ReaderEntered, IsReader, t.threads, |t.threads|);
    SumBelow(WriterEntered, IsWriter, t.threads, w);
    SumAlike(IsReader, Init(roles).threads, t.threads);
    SumAlike(IsWriter, Init(roles).threads, t.threads);
    ReadersAndWriters(Init(roles).threads);
  }

  /** Whoever begins to wait does so in a reachable state in which someone has been admitted. */
  lemma WaitsBehindSomeone(prefer: bool, roles: seq<Role>, s: State, w: nat)
    requires w < |roles| && roles[w].Writer? && BeginsToWait(prefer, roles, s, w)
    ensures Reaches(Sys(prefer), Init(roles), s)
    ensures |s.admitted| + Sum(WriterEntered, s.threads) >= 1
  {
    var s0 :| Reaches(Sys(prefer), Init(roles), s0) && BlockedAt(prefer, s0, s, w);
    ReachesStep(Sys(prefer), Init(roles), s0, w);
    EntriesReachable(prefer, roles);
    EntriesReachable(prefer, roles);
    SomeoneIsInTheWay(prefer, s0, s, w);
  }

  lemma NoMorePassBetween(prefer: bool, roles: seq<Role>, w: nat, s: State, t: State, r: nat, k: nat)
    requires w < |roles| && roles[w].Writer? && BeginsToWait(prefer, roles, s, w)
    requires Reaches(Sys(prefer), s, t) && Waits(t, w) && Admitted(s, t, r, k)
    ensures r <= Readers(roles) && k <= Writers(roles) - 1 && r + k <= |roles| - 2
  {
    WaitsBehindSomeone(prefer, roles, s, w);
    ReachesTrans(Sys(prefer), Init(roles), s, t);
    EntriesReachable(prefer, roles);
    EntriesBounded(roles, t, w);
  }

  lemma NoReaderPassesBetween(roles: seq<Role>, w: nat, s: State, t: State, r: nat, k: nat)
    requires w < |roles| && roles[w].Writer? && BeginsToWait(true, roles, s, w)
    requires Reaches(Sys(true), s, t) && Waits(t, w) && Admitted(s, t, r, k)
    ensures r == 0
  {
    WaitsBehindSomeone(true, roles, s, w);
    EntriesReachable(true, roles);
    var acts :| Exec(Sys(true), s, acts) == Some(t);
    NoReaderPassesAWaitingWriter(s, acts, w);
  }

  lemma NoMorePass(prefer: bool, roles: seq<Role>, w: nat, r: nat, k: nat)
    requires w < |roles| && roles[w].Writer? && CanPass(prefer, roles, w, r, k)
    ensures (prefer ==> r == 0) && r <= Readers(roles) && k <= Writers(roles) - 1 && r + k <= |roles| - 2
  {
    var s, t :| BeginsToWait(prefer, roles, s, w) && Reaches(Sys(prefer), s, t) && Waits(t, w) && Admitted(s, t, r, k);
    NoMorePassBetween(prefer, roles, w, s, t, r, k);
    if prefer {
      NoReaderPassesBetween(roles, w, s, t, r, k);
    }
  }

  // ----- And all of these

  function IdleReader(t: Thread): nat { if t.role.Reader? && t.phase.Idle? then 1 else 0 }

  function IdleWriter(t: Thread): nat { if t.role.Writer? && t.phase.Idle? then 1 else 0 }

  ghost predicate NobodyInside(s: State)
  {
    Sum(ReaderIn, s.threads) == 0 && Sum(WriterIn, s.threads) == 0
  }

  /** Thread `b` gets the lock before anyone else has come. */
  lemma FirstIsAdmitted(prefer: bool, roles: seq<Role>, b: nat)
    requires b < |roles|
    ensures Next(prefer, Init(roles), b) == Some(Acquire(Init(roles), b))
  {
    SumBounds(WriterIn, Init(roles).threads, 0, 0);
    SumBounds(ReaderIn, Init(roles).threads, 0, 0);
    SumBounds(WriterWaits, Init(roles).threads, 0, 0);
  }

  /** Thread `b` gets the lock and writer `w` begins to wait. */
  lemma WriterIsBlocked(prefer: bool, roles: seq<Role>, b: nat, w: nat) returns (s: State)
    requires b < |roles| && w < |roles| && b != w && roles[w].Writer?
    ensures BeginsToWait(prefer, roles, s, w) && |s.threads| == |roles|
    ensures s.threads == Init(roles).threads[b := Thread(roles[b], Holding)][w := Thread(Writer, Waiting)]
  {
    var start, s0 := Init(roles), Acquire(Init(roles), b);
    FirstIsAdmitted(prefer, roles, b);
    ReachesSelf(Sys(prefer), start);
    ReachesStep(Sys(prefer), start, start, b);
    SumPart(WriterIn, s0.threads, b);
    SumPart(ReaderIn, s0.threads, b);
    s := SetPhase(s0, w, Waiting);
    assert Next(prefer, s0, w) == Some(s);
    assert BlockedAt(prefer, s0, s, w);
  }

  /** A thread inside finishes its section. */
  lemma Finishes(prefer: bool, from: State, s: State, b: nat) returns (t: State)
    requires Reaches(Sys(prefer), from, s) && b < |s.threads| && s.threads[b].phase.Holding?
    ensures Reaches(Sys(prefer), from, t) && t.admitted == s.admitted
    ensures |t.threads| == |s.threads| && t.threads[b].phase.Left?
    ensures t.threads == s.threads[b := Thread(s.threads[b].role, t.threads[b].phase)]
    ensures t.data == t.threads[b].phase.v == s.data + if s.threads[b].role.Writer? then 1 else 0
  {
    if s.threads[b].role.Reader? {
      var s1 := SetPhase(s, b, Seen(s.data));
      assert Next(prefer, s, b) == Some(s1);
      ReachesStep(Sys(prefer), from, s, b);
      t := SetPhase(s1, b, Left(s.data));
      assert Next(prefer, s1, b) == Some(t);
      ReachesStep(Sys(prefer), from, s1, b);
    } else {
      var s1 := SetPhase(s, b, Loaded(s.data));
      assert Next(prefer, s, b) == Some(s1);
      ReachesStep(Sys(prefer), from, s, b);
      var s2 := SetPhase(s1, b, Stored).(data := s.data + 1);
      assert Next(prefer, s1, b) == Some(s2);
      ReachesStep(Sys(prefer), from, s1, b);
      t := SetPhase(s2, b, Left(s.data + 1));
      assert Next(prefer, s2, b) == Some(t);
      ReachesStep(Sys(prefer), from, s2, b);
    }
  }

  /** An idle writer comes to the free lock, gets it and finishes. */
  lemma WriterPasses(prefer: bool, from: State, s: State, i: nat) returns (t: State)
    requires Reaches(Sys(prefer), from, s) && NobodyInside(s) && i < |s.threads| && IdleWriter(s.threads[i]) == 1
    ensures Reaches(Sys(prefer), from, t) && NobodyInside(t) && t.admitted == s.admitted
    ensures |t.threads| == |s.threads| && t.threads[i].role.Writer? && t.threads[i].phase.Left?
    ensures t.threads == s.threads[i := t.threads[i]] && t.data == s.data + 1
    ensures Sum(WriterEntered, t.threads) == Sum(WriterEntered, s.threads) + 1
  {
    var s1 := Acquire(s, i);
    assert Next(prefer, s, i) == Some(s1);
    ReachesStep(Sys(prefer), from, s, i);
    t := Finishes(prefer, from, s1, i);
    assert t.threads == s.threads[i := t.threads[i]];
    SumUpdate(ReaderIn, s.threads, i, t.threads[i]);
    SumUpdate(WriterIn, s.threads, i, t.threads[i]);
    SumUpdate(WriterEntered, s.threads, i, t.threads[i]);
  }

  /** `k` of the idle writers from index `i` on pass one after another. */
  lemma {:induction false} WritersPass(prefer: bool, from: State, s: State, i: nat, k: nat) returns (t: State)
    requires Reaches(Sys(prefer), from, s) && NobodyInside(s)
    requires i <= |s.threads| && k <= Sum(IdleWriter, s.threads[i..])
    ensures Reaches(Sys(prefer), from, t) && NobodyInside(t) && Admitted(s, t, 0, k) && |t.threads| == |s.threads|
    ensures forall j :: 0 <= j < |s.threads| ==>
              t.threads[j].role == s.threads[j].role && (IdleWriter(s.threads[j]) == 0 ==> t.threads[j] == s.threads[j])
    decreases |s.threads| - i
  {
    if k == 0 {
      t := s;
    } else {
      assert s.threads[i..][1..] == s.threads[i + 1..];
      if IdleWriter(s.threads[i]) == 1 {
        var u := WriterPasses(prefer, from, s, i);
        assert u.threads[i + 1..] == s.threads[i + 1..];
        t := WritersPass(prefer, from, u, i + 1, k - 1);
      } else {
        t := WritersPass(prefer, from, s, i + 1, k);
      }
    }
  }

  /** `r` of the idle readers from index `i` on are admitted by the reader-admitting policy. */
  lemma {:induction false} ReadersPass(from: State, s: State, i: nat, r: nat) returns (t: State)
    requires Reaches(Sys(false), from, s) && Sum(WriterIn, s.threads) == 0
    requires i <= |s.threads| && r <= Sum(IdleReader, s.threads[i..])
    ensures Reaches(Sys(false), from, t) && Admitted(s, t, r, 0) && |t.threads| == |s.threads|
    ensures forall j :: 0 <= j < |s.threads| && IdleReader(s.threads[j]) == 0 ==> t.threads[j] == s.threads[j]
    decreases |s.threads| - i
  {
    if r == 0 {
      t := s;
    } else {
      assert s.threads[i..][1..] == s.threads[i + 1..];
      if IdleReader(s.threads[i]) == 1 {
        var u := Acquire(s, i);
        assert Next(false, s, i) == Some(u);
        ReachesStep(Sys(false), from, s, i);
        SumUpdate(WriterIn, s.threads, i, u.threads[i]);
        SumUpdate(WriterEntered, s.threads, i, u.threads[i]);
        assert u.threads[i + 1..] == s.threads[i + 1..];
        t := ReadersPass(from, u, i + 1, r - 1);
      } else {
        t := ReadersPass(from, s, i + 1, r);
      }
    }
  }

  /** Someone to be in the way of `w`: a reader if one can be spared, else another writer. */
  lemma ChooseBlocker(roles: seq<Role>, w: nat, r: nat, k: nat) returns (b: nat)
    requires w < |roles| && roles[w].Writer?
    requires r <= Readers(roles) && k <= Writers(roles) - 1 && r + k <= |roles| - 2
    ensures b < |roles| && b != w
    ensures if roles[b].Reader? then r < Readers(roles) else k <= Writers(roles) - 2
  {
    var ts := Init(roles).threads;
    ReadersAndWriters(ts);
    if r < Readers(roles) {
      b := SumWitness(IsReader, ts);
    } else {
      SumUpdate(IsWriter, ts, w, Thread(Reader, Idle));
      b := SumWitness(IsWriter, ts[w := Thread(Reader, Idle)]);
    }
  }

  /** After `b` has been in the way and gone, everyone but `b` and `w` is idle. */
  lemma IdleOnes(roles: seq<Role>, b: nat, w: nat, p: Phase) returns (ts: seq<Thread>)
    requires b < |roles| && w < |roles| && b != w && roles[w].Writer? && p.Left?
    ensures ts == Init(roles).threads[b := Thread(roles[b], p)][w := Thread(Writer, Waiting)]
    ensures Sum(IdleReader, ts) == Readers(roles) - (if roles[b].Reader? then 1 else 0)
    ensures Sum(IdleWriter, ts) == Writers(roles) - 1 - (if roles[b].Writer? then 1 else 0)
  {
    var init, gone, waits := Init(roles).threads, Thread(roles[b], p), Thread(Writer, Waiting);
    ts := init[b := gone][w := waits];
    SumSame(IdleReader, IsReader, init);
    SumSame(IdleWriter, IsWriter, init);
    SumUpdateTwo(IdleReader, init, b, gone, w, waits);
    SumUpdateTwo(IdleWriter, init, b, gone, w, waits);
  }

  lemma NobodyStays(s: State)
    requires forall i :: 0 <= i < |s.threads| ==> !Inside(s.threads[i])
    ensures NobodyInside(s)
  {
    SumBounds(ReaderIn, s.threads, 0, 0);
    SumBounds(WriterIn, s.threads, 0, 0);
  }

  /** Thread `b` gets the lock, `w` begins to wait, `b` goes. */
  lemma WayIsFreeAgain(prefer: bool, roles: seq<Role>, b: nat, w: nat) returns (s: State, t: State)
    requires b < |roles| && w < |roles| && b != w && roles[w].Writer?
    ensures BeginsToWait(prefer, roles, s, w) && Reaches(Sys(prefer), s, t) && Admitted(s, t, 0, 0)
    ensures |t.threads| == |roles| && t.threads[b].phase.Left?
    ensures t.threads == Init(roles).threads[b := Thread(roles[b], t.threads[b].phase)][w := Thread(Writer, Waiting)]
    ensures NobodyInside(t)
  {
    s := WriterIsBlocked(prefer, roles, b, w);
    ReachesSelf(Sys(prefer), s);
    t := Finishes(prefer, s, s, b);
    assert Admitted(s, t, 0, 0) by { SumUpdate(WriterEntered, s.threads, b, t.threads[b]); }
    assert NobodyInside(t) by {
      assert forall i :: 0 <= i < |roles| && i != b && i != w ==> t.threads[i] == Thread(roles[i], Idle);
      NobodyStays(t);
    }
    var init := Init(roles).threads;
    assert t.threads == init[b := t.threads[b]][w := Thread(Writer, Waiting)];
  }

  /** First the writers of the crowd pass, then the readers. */
  lemma CrowdPasses(prefer: bool, from: State, s: State, r: nat, k: nat) returns (t: State)
    requires Reaches(Sys(prefer), from, s) && NobodyInside(s) && (prefer ==> r == 0)
    requires r <= Sum(IdleReader, s.threads) && k <= Sum(IdleWriter, s.threads)
    ensures Reaches(Sys(prefer), from, t) && Admitted(s, t, r, k) && |t.threads| == |s.threads|
    ensures forall j: nat :: j < |s.threads| && s.threads[j].phase.Waiting? ==> t.threads[j] == s.threads[j]
  {
    assert s.threads[0..] == s.threads;
    t := WritersPass(prefer, from, s, 0, k);
    if r > 0 {
      SumAlike(IdleReader, s.threads, t.threads);
      assert t.threads[0..] == t.threads;
      t := ReadersPass(from, t, 0, r);
    }
  }

  lemma AllThesePass(prefer: bool, roles: seq<Role>, w: nat, r: nat, k: nat)
    requires w < |roles| && roles[w].Writer? && (prefer ==> r == 0)
    requires r <= Readers(roles) && k <= Writers(roles) - 1 && r + k <= |roles| - 2
    ensures CanPass(prefer, roles, w, r, k)
  {
    var b := ChooseBlocker(roles, w, r, k);
    var s, gone := WayIsFreeAgain(prefer, roles, b, w);
    var ts := IdleOnes(roles, b, w, gone.threads[b].phase);
    assert gone.threads == ts;
    var t := CrowdPasses(prefer, s, gone, r, k);
  }

  /** Which crowds can pass a waiting writer, exactly.  Under writer preference: no reader, and any number of the
      other writers.  Under the reader-admitting policy: any numbers of readers and of other writers.  Either
      way one thread cannot be among them: the one that was in the way when the writer began to wait. */
  lemma WhoCanPass(prefer: bool, roles: seq<Role>, w: nat, r: nat, k: nat)
    requires w < |roles| && roles[w].Writer?
    ensures CanPass(prefer, roles, w, r, k)
            <==> (prefer ==> r == 0) && r <= Readers(roles) && k <= Writers(roles) - 1 && r + k <= |roles| - 2
  {
    if CanPass(prefer, roles, w, r, k) {
      NoMorePass(prefer, roles, w, r, k);
    }
    if (prefer ==> r == 0) && r <= Readers(roles) && k <= Writers(roles) - 1 && r + k <= |roles| - 2 {
      AllThesePass(prefer, roles, w, r, k);
    }
  }

  /** Under the reader-admitting policy every number of readers can pass when there is a second writer, and one
      fewer than all of them when there is none. */
  lemma ReadersCanPassAWaitingWriter(roles: seq<Role>, w: nat, k: nat)
    requires w < |roles| && roles[w].Writer?
    ensures CanPass(false, roles, w, k, 0) <==> k <= Readers(roles) - (if Writers(roles) >= 2 then 0 else 1)
  {
    WhoCanPass(false, roles, w, k, 0);
    ReadersAndWriters(Init(roles).threads);
    SumPart(IsWriter, Init(roles).threads, w);
  }

  /** Under writer preference up to W - 1 writers can pass when there is a reader, up to W - 2 when there is none,
      and nobody else. */
  lemma WritersCanPassAWaitingWriter(roles: seq<Role>, w: nat, k: nat)
    requires w < |roles| && roles[w].Writer?
    ensures CanPass(true, roles, w, 0, k) <==> k <= Writers(roles) - (if Readers(roles) >= 1 then 1 else 2)
    ensures forall r :: r > 0 ==> !CanPass(true, roles, w, r, k)
  {
    WhoCanPass(true, roles, w, 0, k);
    ReadersAndWriters(Init(roles).threads);
    forall r | r > 0 ensures !CanPass(true, roles, w, r, k) {
      WhoCanPass(true, roles, w, r, k);
    }
  }
}
