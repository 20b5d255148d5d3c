/**
 process_test/father_son_mq_test.c: the father sends `rounds` numbered messages through a queue of `maxmsg`
 places, the child makes `rounds` receives; each closes its descriptor and the father removes the name.
 */
module FatherSonQueue {
  import opened Runs

  datatype FatherPc = FSend | FUnlink | FDone

  datatype ChildPc = CReceive | CDone

  /** GiveUp is the timeout of a receive. */
  datatype Action = Father | Child | GiveUp

  /** `sent` and `tried` are the loop counters; `full` counts the sends that timed out on a full queue, `missed` the
      receives that timed out; `received` is what the child printed. */
  datatype State = State(fpc: FatherPc, cpc: ChildPc, queue: seq<nat>, sent: nat, tried: nat,
                         linked: bool, fatherOpen: bool, childOpen: bool,
                         received: seq<nat>, full: nat, missed: nat)

  /** After mq_open on a fresh name and fork both processes hold the descriptor. */
  const INIT := State(FSend, CReceive, [], 0, 0, true, true, true, [], 0, 0)

  /** POSIX keeps the queue and its messages until the name is gone and no descriptor is open. */
  predicate Alive(s: State)
  {
    s.linked || s.fatherOpen || s.childOpen
  }

  /** After a close or an unlink: the messages of a queue that is no longer alive are gone. */
  function Settle(s: State): State
  {
    if Alive(s) then s else s.(queue := [])
  }

  function Next(rounds: nat, maxmsg: nat, patient: bool, s: State, a: Action): Option<State>
  {
    match a
    case Father => (
      match s.fpc
      case FSend =>
        if s.sent >= rounds then Some(Settle(s.(fpc := FUnlink, fatherOpen := false)))
        else if |s.queue| < maxmsg then Some(s.(queue := s.queue + [s.sent + 1], sent := s.sent + 1))
        else Some(s.(sent := s.sent + 1, full := s.full + 1))
      case FUnlink => Some(Settle(s.(fpc := FDone, linked := false)))
      case FDone => None)
    case Child =>
      if s.cpc.CDone? then None
      else if s.tried >= rounds then Some(Settle(s.(cpc := CDone, childOpen := false)))
      else if s.queue == [] then None
      else Some(s.(received := s.received + [s.queue[0]], queue := s.queue[1..], tried := s.tried + 1))
    case GiveUp =>
      if patient || s.cpc.CDone? || s.tried >= rounds || s.queue != [] then None
      else Some(s.(tried := s.tried + 1, missed := s.missed + 1))
  }

  function Sys(rounds: nat, maxmsg: nat, patient: bool): (State, Action) -> Option<State>
  {
    (s, a) => Next(rounds, maxmsg, patient, s, a)
  }

  /** The messages 1, 2, ..., n. */
  function Numbered(n: nat): seq<nat>
  {
    seq(n, i => i + 1)
  }

  lemma NumberedPrefix(received: seq<nat>, queue: seq<nat>, n: nat)
    requires received + queue == Numbered(n)
    ensures n == |received| + |queue| && received == Numbered(|received|)
    ensures queue != [] ==> queue[0] == |received| + 1
  {
    assert |Numbered(n)| == n;
    assert received == (received + queue)[..|received|];
    assert Numbered(n)[..|received|] == Numbered(|received|);
    assert queue != [] ==> (received + queue)[|received|] == queue[0];
  }

  ghost predicate Inv(rounds: nat, maxmsg: nat, s: State)
  {
    && (if Alive(s) then s.received + s.queue == Numbered(s.sent)
        else s.queue == [] && |s.received| <= s.sent && s.received == Numbered(|s.received|))
    && s.full == 0
    && s.sent <= rounds && s.tried <= rounds && s.tried == |s.received| + s.missed
    && (s.fatherOpen <==> s.fpc.FSend?) && (s.linked <==> !s.fpc.FDone?) && (s.childOpen <==> s.cpc.CReceive?)
    && (!s.fpc.FSend? ==> s.sent == rounds) && (s.cpc.CDone? ==> s.tried == rounds)
  }

  lemma StepKeepsInv(rounds: nat, maxmsg: nat, patient: bool, s: State, a: Action)
    requires rounds <= maxmsg && Inv(rounds, maxmsg, s) && Next(rounds, maxmsg, patient, s, a).Some?
    ensures Inv(rounds, maxmsg, Next(rounds, maxmsg, patient, s, a).value)
  {
    assert |Numbered(s.sent)| == s.sent;
    if Alive(s) { NumberedPrefix(s.received, s.queue, s.sent); }
    if a.Father? && s.fpc.FSend? && s.sent < rounds {
      assert Numbered(s.sent + 1) == Numbered(s.sent) + [s.sent + 1];
    } else if a.Child? && s.queue != [] {
      assert s.queue == [s.queue[0]] + s.queue[1..];
      assert s.received + [s.queue[0]] + s.queue[1..] == s.received + s.queue;
    }
  }

  lemma Reachable(rounds: nat, maxmsg: nat, patient: bool)
    requires rounds <= maxmsg
    ensures Always(Sys(rounds, maxmsg, patient), INIT, s => Inv(rounds, maxmsg, s))
  {
    forall t, a | Inv(rounds, maxmsg, t) && Sys(rounds, maxmsg, patient)(t, a).Some?
      ensures Inv(rounds, maxmsg, Sys(rounds, maxmsg, patient)(t, a).value)
    {
      StepKeepsInv(rounds, maxmsg, patient, t, a);
    }
    Invariant(Sys(rounds, maxmsg, patient), t => Inv(rounds, maxmsg, t), INIT);
  }

  /** When the rounds fit the queue no send finds it full; the child receives 1, 2, 3, ... whatever times out;
      and the queue is there for every receive, even after the father has closed, unlinked and gone. */
  lemma InOrderAndAlive(rounds: nat, maxmsg: nat, patient: bool, s: State)
    requires rounds <= maxmsg && Reaches(Sys(rounds, maxmsg, patient), INIT, s)
    ensures s.full == 0 && (s.fpc.FSend? && s.sent < rounds ==> |s.queue| < maxmsg)
    ensures |s.received| <= s.sent && s.received == Numbered(|s.received|)
    ensures s.cpc.CReceive? ==> Alive(s)
    ensures s.fpc.FDone? && s.cpc.CReceive? && s.tried < rounds && s.missed == 0 ==>
              s.queue != [] && s.queue[0] == |s.received| + 1
    ensures s.fpc.FDone? ==> (!Alive(s) <==> s.cpc.CDone?)
  {
    Reachable(rounds, maxmsg, patient);
    if Alive(s) { NumberedPrefix(s.received, s.queue, s.sent); }
  }

  /** The father sends `count` messages before the child receives any. */
  lemma {:induction false} FatherAlone(rounds: nat, maxmsg: nat, patient: bool, count: nat) returns (s: State)
    requires count <= rounds
    ensures Reaches(Sys(rounds, maxmsg, patient), INIT, s) && s.fpc.FSend? && s.sent == count
    ensures |s.queue| == (if count <= maxmsg then count else maxmsg) && s.full == count - |s.queue|
  {
    var sys := Sys(rounds, maxmsg, patient);
    if count == 0 {
      s := INIT;
      ReachesSelf(sys, INIT);
    } else {
      var before := FatherAlone(rounds, maxmsg, patient, count - 1);
      ReachesStep(sys, INIT, before, Father);
      s := Next(rounds, maxmsg, patient, before, Father).value;
    }
  }

  /** No run has a send that times out on a full queue if and only if the rounds fit the queue. */
  lemma NeverFullIffRoundsFit(rounds: nat, maxmsg: nat, patient: bool)
    ensures (forall s :: Reaches(Sys(rounds, maxmsg, patient), INIT, s) ==> s.full == 0) <==> rounds <= maxmsg
  {
    if rounds <= maxmsg {
      forall s | Reaches(Sys(rounds, maxmsg, patient), INIT, s) ensures s.full == 0 {
        Reachable(rounds, maxmsg, patient);
      }
    } else {
      var s := FatherAlone(rounds, maxmsg, patient, rounds);
    }
  }

  function Rank(rounds: nat, s: State): nat
  {
    (if s.sent <= rounds then rounds - s.sent else 0) + (if s.tried <= rounds then rounds - s.tried else 0)
    + (match s.fpc case FSend => 2 case FUnlink => 1 case FDone => 0)
    + (if s.cpc.CReceive? then 1 else 0)
  }

  lemma RankDrops(rounds: nat, maxmsg: nat, patient: bool, s: State, a: Action)
    requires Inv(rounds, maxmsg, s) && Next(rounds, maxmsg, patient, s, a).Some?
    ensures Rank(rounds, Next(rounds, maxmsg, patient, s, a).value) < Rank(rounds, s)
    ensures patient ==> Next(rounds, maxmsg, patient, s, a).value.missed == s.missed
  {
  }

  /** Nobody waits for ever: a child that finds the queue empty has a father with messages still to send, or
      has missed some. */
  lemma StuckIffDone(rounds: nat, maxmsg: nat, patient: bool, s: State)
    requires Inv(rounds, maxmsg, s) && (patient ==> s.missed == 0)
    ensures Stuck(Sys(rounds, maxmsg, patient), s) <==> s.fpc.FDone? && s.cpc.CDone?
  {
    if Alive(s) { NumberedPrefix(s.received, s.queue, s.sent); }
    if Stuck(Sys(rounds, maxmsg, patient), s) {
      var sys := Sys(rounds, maxmsg, patient);
      assert sys(s, Father).None? && sys(s, Child).None? && sys(s, GiveUp).None?;
    }
  }

  /** Every run ends; without timeouts it can only end with both processes gone, the queue destroyed, and all
      the messages received. */
  lemma EveryRunDrains(rounds: nat, maxmsg: nat, patient: bool, acts: seq<Action>, e: State)
    requires rounds <= maxmsg && Exec(Sys(rounds, maxmsg, patient), INIT, acts) == Some(e)
    ensures |acts| <= 2 * rounds + 3
    ensures Stuck(Sys(rounds, maxmsg, patient), e) <==> e.fpc.FDone? && e.cpc.CDone?
    ensures e.missed <= rounds && (patient ==> e.missed == 0)
    ensures Stuck(Sys(rounds, maxmsg, patient), e) ==> !Alive(e) && e.received == Numbered(rounds - e.missed)
  {
    RunsAreShort(rounds, maxmsg, patient, acts);
    assert Reaches(Sys(rounds, maxmsg, patient), INIT, e);
    InOrderAndAlive(rounds, maxmsg, patient, e);
    StuckIffDone(rounds, maxmsg, patient, e);
  }

  lemma RunsAreShort(rounds: nat, maxmsg: nat, patient: bool, acts: seq<Action>)
    requires rounds <= maxmsg && Exec(Sys(rounds, maxmsg, patient), INIT, acts).Some?
    ensures |acts| <= 2 * rounds + 3
    ensures var e := Exec(Sys(rounds, maxmsg, patient), INIT, acts).value;
            Inv(rounds, maxmsg, e) && (patient ==> e.missed == 0)
  {
    var sys := Sys(rounds, maxmsg, patient);
    var inv := t => Inv(rounds, maxmsg, t) && (patient ==> t.missed == 0);
    forall t, a | inv(t) && sys(t, a).Some?
      ensures inv(sys(t, a).value) && Rank(rounds, sys(t, a).value) < Rank(rounds, t)
    {
      StepKeepsInv(rounds, maxmsg, patient, t, a);
      RankDrops(rounds, maxmsg, patient, t, a);
    }
    Bounded(sys, inv, t => Rank(rounds, t), INIT, acts);
  }

  // ----- What a schedule determines, whether or not the rounds fit the queue

  function Picks(acts: seq<Action>, kind: Action): nat { CountIf((a: Action) => a == kind, acts) }

  lemma PicksSnoc(acts: seq<Action>, a: Action, kind: Action)
    ensures Picks(acts + [a], kind) == Picks(acts, kind) + if a == kind then 1 else 0
  {
    CountSnoc((b: Action) => b == kind, acts, a);
  }

  /** How many messages the child has received: its turns but the last one, the close. */
  function Receives(rounds: nat, acts: seq<Action>): nat
  {
    var c := Picks(acts, Child);
    if c > 0 && c + Picks(acts, GiveUp) > rounds then c - 1 else c
  }

  /** The numbers of the sends that went through: those that found fewer than `maxmsg` messages waiting. */
  function Kept(rounds: nat, maxmsg: nat, acts: seq<Action>): seq<nat>
  {
    if acts == [] then []
    else
      var past := acts[..|acts| - 1];
      var kept, sends := Kept(rounds, maxmsg, past), Picks(past, Father);
      if acts[|acts| - 1].Father? && sends < rounds && |kept| < Receives(rounds, past) + maxmsg
      then kept + [sends + 1] else kept
  }

  ghost predicate Follows(rounds: nat, maxmsg: nat, acts: seq<Action>, s: State)
  {
    var f, c, g := Picks(acts, Father), Picks(acts, Child), Picks(acts, GiveUp);
    && f <= rounds + 2 && c + g <= rounds + 1 && g <= rounds
    && s.sent == (if f <= rounds then f else rounds)
    && s.fpc == (if f <= rounds then FSend else if f == rounds + 1 then FUnlink else FDone)
    && s.tried == (if c + g <= rounds then c + g else rounds) && (s.cpc.CReceive? <==> c + g <= rounds)
    && (s.fatherOpen <==> s.fpc.FSend?) && (s.linked <==> !s.fpc.FDone?) && (s.childOpen <==> s.cpc.CReceive?)
    && s.missed == g && |s.received| == Receives(rounds, acts)
  }

  ghost predicate Ascending(q: seq<nat>, max: nat)
  {
    && (forall i :: 0 <= i < |q| ==> 1 <= q[i] <= max)
    && (forall i, j :: 0 <= i < j < |q| ==> q[i] < q[j])
  }

  ghost predicate DataFollows(rounds: nat, maxmsg: nat, acts: seq<Action>, s: State)
  {
    var kept := Kept(rounds, maxmsg, acts);
    && |kept| + s.full == s.sent
    && Ascending(kept, s.sent)
    && |s.received| <= |kept| && s.received == kept[..|s.received|]
    && s.queue == if Alive(s) then kept[|s.received|..] else []
  }

  lemma StepFollows(rounds: nat, maxmsg: nat, patient: bool, acts: seq<Action>, s: State, a: Action)
    requires Follows(rounds, maxmsg, acts, s) && Next(rounds, maxmsg, patient, s, a).Some?
    ensures Follows(rounds, maxmsg, acts + [a], Next(rounds, maxmsg, patient, s, a).value)
  {
    PicksSnoc(acts, a, Father);
    PicksSnoc(acts, a, Child);
    PicksSnoc(acts, a, GiveUp);
  }

  lemma KeptSnoc(rounds: nat, maxmsg: nat, acts: seq<Action>, a: Action)
    ensures var kept, sends := Kept(rounds, maxmsg, acts), Picks(acts, Father);
            Kept(rounds, maxmsg, acts + [a])
            == if a.Father? && sends < rounds && |kept| < Receives(rounds, acts) + maxmsg
               then kept + [sends + 1] else kept
  {
    assert (acts + [a])[..|acts|] == acts;
  }

  lemma Appended(kept: seq<nat>, n: nat, max: nat)
    requires n <= |kept| && Ascending(kept, max)
    ensures var now := kept + [max + 1];
            now[..n] == kept[..n] && now[n..] == kept[n..] + [max + 1] && Ascending(now, max + 1)
    ensures Ascending(kept, max + 1)
  {
  }

  /** A send that finds room adds its number to those kept. */
  lemma RoomySendFollows(rounds: nat, maxmsg: nat, acts: seq<Action>, s: State)
    requires Follows(rounds, maxmsg, acts, s) && DataFollows(rounds, maxmsg, acts, s)
    requires s.fpc.FSend? && s.sent < rounds && |s.queue| < maxmsg
    ensures DataFollows(rounds, maxmsg, acts + [Father], s.(queue := s.queue + [s.sent + 1], sent := s.sent + 1))
  {
    var kept, n := Kept(rounds, maxmsg, acts), |s.received|;
    assert Alive(s) && s.queue == kept[n..];
    KeptSnoc(rounds, maxmsg, acts, Father);
    assert Kept(rounds, maxmsg, acts + [Father]) == kept + [s.sent + 1];
    Appended(kept, n, s.sent);
  }

  /** A send that times out on the full queue leaves them as they were. */
  lemma FullSendFollows(rounds: nat, maxmsg: nat, acts: seq<Action>, s: State)
    requires Follows(rounds, maxmsg, acts, s) && DataFollows(rounds, maxmsg, acts, s)
    requires s.fpc.FSend? && s.sent < rounds && |s.queue| >= maxmsg
    ensures DataFollows(rounds, maxmsg, acts + [Father], s.(sent := s.sent + 1, full := s.full + 1))
  {
    var kept, n := Kept(rounds, maxmsg, acts), |s.received|;
    assert Alive(s) && s.queue == kept[n..];
    KeptSnoc(rounds, maxmsg, acts, Father);
    assert Kept(rounds, maxmsg, acts + [Father]) == kept;
    Appended(kept, n, s.sent);
  }

  lemma ReceiveFollows(rounds: nat, maxmsg: nat, patient: bool, acts: seq<Action>, s: State)
    requires Follows(rounds, maxmsg, acts, s) && DataFollows(rounds, maxmsg, acts, s)
    requires s.cpc.CReceive? && s.tried < rounds && s.queue != []
    ensures DataFollows(rounds, maxmsg, acts + [Child], Next(rounds, maxmsg, patient, s, Child).value)
  {
    KeptSnoc(rounds, maxmsg, acts, Child);
    var kept, n := Kept(rounds, maxmsg, acts), |s.received|;
    assert Kept(rounds, maxmsg, acts + [Child]) == kept && Alive(s) && s.queue == kept[n..];
    assert kept[..n + 1] == kept[..n] + [kept[n]] && kept[n..][1..] == kept[n + 1..];
  }

  lemma StepFollowsData(rounds: nat, maxmsg: nat, patient: bool, acts: seq<Action>, s: State, a: Action)
    requires Follows(rounds, maxmsg, acts, s) && DataFollows(rounds, maxmsg, acts, s)
    requires Next(rounds, maxmsg, patient, s, a).Some?
    ensures DataFollows(rounds, maxmsg, acts + [a], Next(rounds, maxmsg, patient, s, a).value)
  {
    if a.Father? && s.fpc.FSend? && s.sent < rounds {
      if |s.queue| < maxmsg {
        RoomySendFollows(rounds, maxmsg, acts, s);
      } else {
        FullSendFollows(rounds, maxmsg, acts, s);
      }
    } else if a.Child? && s.tried < rounds {
      ReceiveFollows(rounds, maxmsg, patient, acts, s);
    } else {
      KeptSnoc(rounds, maxmsg, acts, a);
      var t := Next(rounds, maxmsg, patient, s, a).value;
      assert t.received == s.received && t.sent == s.sent && t.full == s.full;
      assert t.queue == if Alive(t) then s.queue else [];
    }
  }

  lemma RunFollows(rounds: nat, maxmsg: nat, patient: bool)
    ensures Ties(Sys(rounds, maxmsg, patient), INIT,
                 (past, t) => Follows(rounds, maxmsg, past, t) && DataFollows(rounds, maxmsg, past, t))
  {
    var sys := Sys(rounds, maxmsg, patient);
    var tie := (past, t) => Follows(rounds, maxmsg, past, t) && DataFollows(rounds, maxmsg, past, t);
    forall past, t, a | tie(past, t) && sys(t, a).Some? ensures tie(past + [a], sys(t, a).value) {
      StepFollows(rounds, maxmsg, patient, past, t, a);
      StepFollowsData(rounds, maxmsg, patient, past, t, a);
    }
    KeepsAlong(sys, tie, INIT);
  }

  /** For every schedule and every size of the queue: the child receives the messages that found room, in the order
      of their numbers; a message whose send timed out on the full queue is not sent again. */
  lemma ReceivedAreTheKept(rounds: nat, maxmsg: nat, patient: bool, acts: seq<Action>, e: State)
    requires Exec(Sys(rounds, maxmsg, patient), INIT, acts) == Some(e)
    ensures var kept := Kept(rounds, maxmsg, acts);
            && Receives(rounds, acts) <= |kept| && e.received == kept[..Receives(rounds, acts)]
            && Ascending(kept, e.sent) && |kept| + e.full == e.sent
  {
    RunFollows(rounds, maxmsg, patient);
  }

  /** What can come next: the father is never blocked for good and makes rounds + 2 steps; the child, while it has
      receives to make, gets a message exactly when one that found room is not yet received, and times out
      exactly when there is none; then it closes. */
  lemma WhatCanFollow(rounds: nat, maxmsg: nat, patient: bool, acts: seq<Action>)
    requires Exec(Sys(rounds, maxmsg, patient), INIT, acts).Some?
    ensures var sys, tries := Sys(rounds, maxmsg, patient), Picks(acts, Child) + Picks(acts, GiveUp);
            var waiting := |Kept(rounds, maxmsg, acts)| - Receives(rounds, acts);
            && (Exec(sys, INIT, acts + [Father]).Some? <==> Picks(acts, Father) < rounds + 2)
            && (Exec(sys, INIT, acts + [Child]).Some? <==> tries == rounds || (tries < rounds && waiting > 0))
            && (Exec(sys, INIT, acts + [GiveUp]).Some? <==> !patient && tries < rounds && waiting == 0)
  {
    RunFollows(rounds, maxmsg, patient);
    var e := Exec(Sys(rounds, maxmsg, patient), INIT, acts).value;
    assert Follows(rounds, maxmsg, acts, e) && DataFollows(rounds, maxmsg, acts, e);
    ExecSnoc(Sys(rounds, maxmsg, patient), INIT, acts, Father);
    ExecSnoc(Sys(rounds, maxmsg, patient), INIT, acts, Child);
    ExecSnoc(Sys(rounds, maxmsg, patient), INIT, acts, GiveUp);
  }

  // ----- The two processes and the queue

  class FamilyQueue {
    const rounds: nat
    const maxmsg: nat
    var fpc: FatherPc
    var cpc: ChildPc
    var queue: seq<nat>
    var sent: nat
    var tried: nat
    var linked: bool
    var fatherOpen: bool
    var childOpen: bool
    var received: seq<nat>
    ghost var full: nat
    ghost var missed: nat

    ghost function View(): State
      reads this
    {
      State(fpc, cpc, queue, sent, tried, linked, fatherOpen, childOpen, received, full, missed)
    }

    constructor (rounds: nat, maxmsg: nat)
      ensures View() == INIT && this.rounds == rounds && this.maxmsg == maxmsg
    {
      this.rounds, this.maxmsg := rounds, maxmsg;
      fpc, cpc, queue, sent, tried := FSend, CReceive, [], 0, 0;
      linked, fatherOpen, childOpen, received, full, missed := true, true, true, [], 0, 0;
    }

    method FatherStep() returns (ran: bool)
      modifies this
      ensures var next := Next(rounds, maxmsg, true, old(View()), Father);
              ran == next.Some? && View() == if ran then next.value else old(View())
    {
      ran := true;
      match fpc {
        case FSend =>
          if sent < rounds {
            if |queue| < maxmsg {
              queue := queue + [sent + 1];
            } else {
              full := full + 1;
            }
            sent := sent + 1;
          } else {
            fatherOpen, fpc := false, FUnlink;
            DropIfDead();
          }
        case FUnlink =>
          linked, fpc := false, FDone;
          DropIfDead();
        case FDone =>
          ran := false;
      }
    }

    /** The kernel's part of a close or an unlink. */
    method DropIfDead()
      modifies this`queue
      ensures View() == Settle(old(View()))
    {
      if !linked && !fatherOpen && !childOpen {
        queue := [];
      }
    }

    /** One turn of the child; `patient` false lets a receive on an empty queue time out. */
    method ChildStep(patient: bool) returns (ran: bool)
      modifies this
      ensures var before := old(View());
              var empty := before.cpc.CReceive? && before.tried < rounds && before.queue == [];
              var a := if !patient && empty then GiveUp else Child;
              var next := Next(rounds, maxmsg, patient, before, a);
              ran == next.Some? && View() == if ran then next.value else before
    {
      ran := cpc.CReceive?;
      if ran {
        if tried >= rounds {
          childOpen, cpc := false, CDone;
          DropIfDead();
        } else if |queue| > 0 {
          received := received + [queue[0]];
          queue := queue[1..];
          tried := tried + 1;
        } else if !patient {
          missed := missed + 1;
          tried := tried + 1;
        } else {
          ran := false;
        }
      }
    }
  }
}
