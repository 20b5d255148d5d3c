/**
 thread_test/condition_var.c: one producer and one consumer share a store of `cap` cells under one
 mutex and one condition variable.  The store is last-in first-out: the producer writes
 buffer[count++], the consumer takes buffer[--count].
 */
module CondVar {
  import opened Runs
  import opened Seqs

  datatype Role = Producer | Consumer {
    function Other(): Role { if Producer? then Consumer else Producer }
  }

  /** Where a thread stands.  AtWait is the call of pthread_cond_wait, Asleep is inside the wait set,
      Woken is after the wake-up while the mutex is still to be taken again. */
  datatype Pc = AtLock | AtTest | AtWait | Asleep | Woken | AtMove | AtSignal | AtUnlock {
    predicate Holds() { AtTest? || AtWait? || AtMove? || AtSignal? || AtUnlock? }
  }

  /** The schedule lets a thread make its next step, or wakes a sleeping thread for no reason. */
  datatype Action = Go(who: Role) | Spurious(who: Role)

  /** `stock` is buffer[0..count]; `taken` is everything the consumer has taken, in order. */
  datatype State = State(stock: seq<nat>, item: nat, taken: seq<nat>, owner: Option<Role>, pp: Pc, cp: Pc) {
    function At(t: Role): Pc { if t.Producer? then pp else cp }
    function Put(t: Role, pc: Pc): State { if t.Producer? then this.(pp := pc) else this.(cp := pc) }
  }

  const INIT := State([], 1, [], None, AtLock, AtLock)

  /** The condition of the thread's inner while loop. */
  predicate MustWait(cap: nat, s: State, t: Role)
  {
    if t.Producer? then |s.stock| == cap else |s.stock| == 0
  }

  /** pthread_cond_signal: the signaller is awake, so only the other thread can be in the wait set. */
  function Signalled(s: State, t: Role): State
  {
    if s.At(t.Other()).Asleep? then s.Put(t.Other(), Woken) else s
  }

  /** The push of line 49 and the pop of line 82. */
  function Moved(s: State, t: Role): Option<State>
  {
    if t.Producer? then Some(s.(stock := s.stock + [s.item], item := s.item + 1))
    else if s.stock == [] then None
    else Some(s.(stock := s.stock[..|s.stock| - 1], taken := s.taken + [s.stock[|s.stock| - 1]]))
  }

  function Next(cap: nat, s: State, a: Action): Option<State>
  {
    var t := a.who;
    if a.Spurious? then
      if s.At(t).Asleep? then Some(s.Put(t, Woken)) else None
    else match s.At(t)
         case AtLock | Woken => if s.owner.None? then Some(s.(owner := Some(t)).Put(t, AtTest)) else None
         case AtTest => Some(s.Put(t, if MustWait(cap, s, t) then AtWait else AtMove))
         case AtWait => Some(s.(owner := None).Put(t, Asleep))
         case Asleep => None
         case AtMove => (match Moved(s, t) case None => None case Some(m) => Some(m.Put(t, AtSignal)))
         case AtSignal => Some(Signalled(s, t).Put(t, AtUnlock))
         case AtUnlock => Some(s.(owner := None).Put(t, AtLock))
  }

  function Sys(cap: nat): (State, Action) -> Option<State>
  {
    (s, a) => Next(cap, s, a)
  }

  // ----- Locks, waits and signals

  /** A sleeper's condition still holds, or the other thread is between its update and its signal. */
  ghost predicate WaitInv(cap: nat, s: State, t: Role)
  {
    && (s.owner == Some(t) <==> s.At(t).Holds())
    && (s.At(t).AtMove? ==> !MustWait(cap, s, t))
    && (s.At(t).AtWait? ==> MustWait(cap, s, t))
    && (s.At(t).Asleep? ==> MustWait(cap, s, t) || s.At(t.Other()).AtSignal?)
  }

  // ----- The orders the store can deliver

  /** The items below `x` that are not yet taken. */
  ghost function Left(before: seq<nat>, x: nat): set<nat>
  {
    set y: nat | 1 <= y < x && y !in before
  }

  /** After `before`, `x` can be next: it is new, nothing between `x` and an item taken earlier is still in
      the store above it, and it shares the store with at most cap - 1 smaller items. */
  ghost predicate Takeable(cap: nat, before: seq<nat>, x: nat)
  {
    && x >= 1 && x !in before
    && (forall a, c: nat :: a in before && x < c < a ==> c in before)
    && |Left(before, x)| < cap
  }

  ghost predicate Admissible(cap: nat, out: seq<nat>)
  {
    forall i :: 0 <= i < |out| ==> Takeable(cap, out[..i], out[i])
  }

  ghost predicate StockInv(cap: nat, s: State)
  {
    && 1 <= s.item && |s.stock| <= cap
    && (forall i, j :: 0 <= i < j < |s.stock| ==> s.stock[i] < s.stock[j])
    && (forall x :: x in s.stock ==> 1 <= x < s.item && x !in s.taken)
    && (forall x :: x in s.taken ==> 1 <= x < s.item)
    && (forall x: nat :: 1 <= x < s.item ==> x in s.stock || x in s.taken)
    && Admissible(cap, s.taken)
  }

  ghost predicate Inv(cap: nat, s: State)
  {
    && WaitInv(cap, s, Producer) && WaitInv(cap, s, Consumer)
    && StockInv(cap, s)
  }

  lemma AdmissibleSnoc(cap: nat, out: seq<nat>, x: nat)
    ensures Admissible(cap, out + [x]) <==> Admissible(cap, out) && Takeable(cap, out, x)
  {
    var all := out + [x];
    assert forall i :: 0 <= i < |out| ==> all[..i] == out[..i] && all[i] == out[i];
    assert all[..|out|] == out;
    if Admissible(cap, all) {
      assert Takeable(cap, all[..|out|], all[|out|]);
      forall i | 0 <= i < |out| ensures Takeable(cap, out[..i], out[i]) {
        assert Takeable(cap, all[..i], all[i]);
      }
    }
  }

  /** What the pop of line 82 takes is always a legal next item. */
  lemma TopIsTakeable(cap: nat, s: State)
    requires StockInv(cap, s) && s.stock != []
    ensures Takeable(cap, s.taken, s.stock[|s.stock| - 1])
  {
    var n := |s.stock|;
    var below, x := s.stock[..n - 1], s.stock[n - 1];
    DistinctSize(below);
    assert s.stock == below + [x] && x in s.stock;
    SubsetSize(Left(s.taken, x), Elements(below));
    forall a, c: nat | a in s.taken && x < c < a ensures c in s.taken {
      assert c !in s.stock;
    }
  }

  lemma PushKeepsStock(cap: nat, s: State)
    requires StockInv(cap, s) && !MustWait(cap, s, Producer)
    ensures StockInv(cap, Moved(s, Producer).value)
  {
    var m := Moved(s, Producer).value;
    assert forall k :: 0 <= k < |s.stock| ==> m.stock[k] == s.stock[k] && s.stock[k] in s.stock;
    assert forall x: nat :: x in m.stock <==> x in s.stock || x == s.item;
  }

  lemma PopKeepsStock(cap: nat, s: State)
    requires StockInv(cap, s) && !MustWait(cap, s, Consumer)
    ensures StockInv(cap, Moved(s, Consumer).value)
  {
    var m := Moved(s, Consumer).value;
    var x := s.stock[|s.stock| - 1];
    TopIsTakeable(cap, s);
    AdmissibleSnoc(cap, s.taken, x);
    assert s.stock == m.stock + [x];
    assert forall k :: 0 <= k < |m.stock| ==> m.stock[k] == s.stock[k] < x;
    assert forall y: nat :: y in s.stock <==> y in m.stock || y == x;
  }

  lemma StepKeepsStock(cap: nat, s: State, a: Action)
    requires Inv(cap, s) && Next(cap, s, a).Some?
    ensures StockInv(cap, Next(cap, s, a).value)
  {
    var t := Next(cap, s, a).value;
    if a == Go(Producer) && s.pp.AtMove? {
      PushKeepsStock(cap, s);
      assert StockInv(cap, Moved(s, Producer).value.Put(Producer, AtSignal));
    } else if a == Go(Consumer) && s.cp.AtMove? {
      PopKeepsStock(cap, s);
      assert StockInv(cap, Moved(s, Consumer).value.Put(Consumer, AtSignal));
    } else {
      assert t.stock == s.stock && t.item == s.item && t.taken == s.taken;
    }
  }

  lemma StepKeepsWaits(cap: nat, s: State, a: Action)
    requires WaitInv(cap, s, Producer) && WaitInv(cap, s, Consumer) && Next(cap, s, a).Some?
    ensures WaitInv(cap, Next(cap, s, a).value, a.who)
    ensures WaitInv(cap, Next(cap, s, a).value, a.who.Other())
  {
  }

  lemma StepKeepsInv(cap: nat, s: State, a: Action)
    requires Inv(cap, s) && Next(cap, s, a).Some?
    ensures Inv(cap, Next(cap, s, a).value)
  {
    StepKeepsStock(cap, s, a);
    StepKeepsWaits(cap, s, a);
  }

  lemma Reachable(cap: nat)
    ensures Always(Sys(cap), INIT, s => Inv(cap, s))
  {
    forall t, a | Inv(cap, t) && Sys(cap)(t, a).Some? ensures Inv(cap, Sys(cap)(t, a).value) {
      StepKeepsInv(cap, t, a);
    }
    Invariant(Sys(cap), t => Inv(cap, t), INIT);
  }

  // ----- No run gets stuck, and a transfer is never far away

  /** One condition variable is enough for the two of them: some thread can always go on, without the help
      of a spurious wake-up, and a thread is only asleep while its condition holds or its signal is due. */
  lemma NeverStuck(cap: nat, s: State)
    requires cap >= 1 && Reaches(Sys(cap), INIT, s)
    ensures exists t :: Next(cap, s, Go(t)).Some?
    ensures forall t :: s.At(t).Asleep? ==>
              MustWait(cap, s, t) || (s.owner == Some(t.Other()) && s.At(t.Other()).AtSignal?)
    ensures s.pp.Asleep? ==> !s.cp.Asleep?
  {
    Reachable(cap);
    var t := if s.owner.Some? then s.owner.value else if s.pp.Asleep? then Consumer else Producer;
    assert WaitInv(cap, s, t) && WaitInv(cap, s, t.Other());
    assert s.At(t).AtMove? ==> Moved(s, t).Some?;
    assert Next(cap, s, Go(t)).Some?;
  }

  /** The items produced and not yet taken. */
  ghost function Untaken(s: State): set<nat>
  {
    set x: nat | 1 <= x < s.item && x !in s.taken
  }

  lemma StockIsUntaken(cap: nat, s: State)
    requires StockInv(cap, s)
    ensures Elements(s.stock) == Untaken(s) && |s.stock| == |Untaken(s)|
  {
    DistinctSize(s.stock);
  }

  /** A thread can go on unless it is asleep or comes for the lock while the other one has it; a sleeper, and
      nobody else, may wake by itself; the two are never inside together. */
  lemma WhoCanGoOn(cap: nat, s: State, t: Role)
    requires Reaches(Sys(cap), INIT, s)
    ensures Next(cap, s, Go(t)).Some?
            <==> !s.At(t).Asleep? && (s.At(t).AtLock? || s.At(t).Woken? ==> !s.At(t.Other()).Holds())
    ensures Next(cap, s, Spurious(t)).Some? <==> s.At(t).Asleep?
    ensures s.At(t).Holds() ==> !s.At(t.Other()).Holds()
  {
    Reachable(cap);
    assert WaitInv(cap, s, t) && WaitInv(cap, s, t.Other());
    assert s.owner.Some? ==> s.owner.value == t || s.owner.value == t.Other();
    assert s.At(t).AtMove? ==> Moved(s, t).Some?;
  }

  /** What a step means for the store: the producer's move adds the next item, the consumer's takes the newest one
      there; no other step touches the store; a thread goes to wait exactly when it finds the store full or
      empty; and its signal leaves nobody asleep. */
  lemma StepsAreStoreSteps(cap: nat, s: State, t: Role)
    requires Reaches(Sys(cap), INIT, s) && Next(cap, s, Go(t)).Some?
    ensures var u := Next(cap, s, Go(t)).value;
            if s.At(t) != AtMove then u.taken == s.taken && u.item == s.item
            else if t.Producer? then u.taken == s.taken && u.item == s.item + 1
            else |u.taken| > 0 && u.item == s.item && var x := u.taken[|u.taken| - 1];
                 u.taken == s.taken + [x] && x in Untaken(s) && forall y :: y in Untaken(s) ==> y <= x
    ensures s.At(t).AtTest? ==>
              (Next(cap, s, Go(t)).value.At(t).AtWait? <==> |Untaken(s)| == if t.Producer? then cap else 0)
    ensures s.At(t).AtSignal? ==> !Next(cap, s, Go(t)).value.At(t.Other()).Asleep?
  {
    Reachable(cap);
    StockIsUntaken(cap, s);
    assert WaitInv(cap, s, t);
    if t.Consumer? && s.At(t).AtMove? {
      var x := s.stock[|s.stock| - 1];
      assert x in s.stock;
      forall y | y in Untaken(s) ensures y <= x {
        assert y in s.stock;
      }
    }
  }

  /** Pushes and pops so far. */
  function Transfers(s: State): nat
  {
    (if s.item == 0 then 0 else s.item - 1) + |s.taken|
  }

  /** How many steps thread `t` can make before it moves an item or sleeps. */
  ghost function Distance(cap: nat, s: State, t: Role, pc: Pc): nat
  {
    match pc
    case Asleep | AtMove => 0
    case AtWait => 1
    case AtTest => if MustWait(cap, s, t) then 2 else 1
    case AtLock | Woken => if MustWait(cap, s, t) then 3 else 2
    case AtUnlock => if MustWait(cap, s, t) then 4 else 3
    case AtSignal => if MustWait(cap, s, t) then 5 else 4
  }

  /** The other thread's distance after a pending signal has reached it. */
  ghost function Rank(cap: nat, s: State): nat
  {
    var p := if s.pp.Asleep? && s.cp.AtSignal? then Woken else s.pp;
    var c := if s.cp.Asleep? && s.pp.AtSignal? then Woken else s.cp;
    Distance(cap, s, Producer, p) + Distance(cap, s, Consumer, c)
  }

  /** A step moves an item or comes closer to moving one. */
  lemma QuietStep(cap: nat, s: State, t: Role)
    requires Inv(cap, s) && Next(cap, s, Go(t)).Some?
    ensures var s' := Next(cap, s, Go(t)).value;
            if s.At(t).AtMove? then Transfers(s') == Transfers(s) + 1
            else Transfers(s') == Transfers(s) && Rank(cap, s') < Rank(cap, s)
  {
  }

  lemma {:induction false} QuietRun(cap: nat, s: State, acts: seq<Action>)
    requires Inv(cap, s) && Exec(Sys(cap), s, acts).Some?
    requires forall a :: a in acts ==> a.Go?
    ensures Transfers(Exec(Sys(cap), s, acts).value) >= Transfers(s)
    ensures Transfers(Exec(Sys(cap), s, acts).value) == Transfers(s) ==> |acts| <= Rank(cap, s)
    decreases |acts|
  {
    if acts == [] {
    } else {
      var t := Next(cap, s, acts[0]).value;
      StepKeepsInv(cap, s, acts[0]);
      assert acts[0] in acts && acts[0] == Go(acts[0].who);
      QuietStep(cap, s, acts[0].who);
      assert forall a :: a in acts[1..] ==> a in acts;
      QuietRun(cap, t, acts[1..]);
    }
  }

  /** Any eight consecutive steps without a spurious wake-up move an item. */
  lemma TransferWithinEight(cap: nat, s: State, acts: seq<Action>)
    requires cap >= 1 && Reaches(Sys(cap), INIT, s)
    requires Exec(Sys(cap), s, acts).Some? && |acts| >= 8
    requires forall a :: a in acts ==> a.Go?
    ensures Transfers(Exec(Sys(cap), s, acts).value) > Transfers(s)
  {
    Reachable(cap);
    QuietRun(cap, s, acts);
  }

  // ----- Every admissible order has a schedule

  ghost predicate Settled(s: State)
  {
    s.owner.None? && s.pp.AtLock? && s.cp.AtLock?
  }

  /** An undisturbed thread takes the lock and passes its test. */
  lemma Entrance(cap: nat, s: State, t: Role) returns (m: State)
    requires Reaches(Sys(cap), INIT, s) && Settled(s) && !MustWait(cap, s, t)
    ensures Reaches(Sys(cap), INIT, m) && m == s.(owner := Some(t)).Put(t, AtMove)
  {
    ReachesStep(Sys(cap), INIT, s, Go(t));
    m := s.(owner := Some(t)).Put(t, AtTest);
    assert Next(cap, s, Go(t)) == Some(m);
    ReachesStep(Sys(cap), INIT, m, Go(t));
    assert !MustWait(cap, m, t);
    m := m.Put(t, AtMove);
  }

  /** One undisturbed turn of thread `t`: lock, test, move, signal, unlock. */
  lemma Turn(cap: nat, s: State, t: Role) returns (m: State)
    requires Reaches(Sys(cap), INIT, s) && Settled(s) && !MustWait(cap, s, t)
    ensures Reaches(Sys(cap), INIT, m) && Settled(m) && Moved(s, t) == Some(m)
  {
    var inside := Entrance(cap, s, t);
    ReachesStep(Sys(cap), INIT, inside, Go(t));
    var moved := Moved(inside, t).value.Put(t, AtSignal);
    assert Next(cap, inside, Go(t)) == Some(moved);
    ReachesStep(Sys(cap), INIT, moved, Go(t));
    var signalled := moved.Put(t, AtUnlock);
    assert Next(cap, moved, Go(t)) == Some(signalled);
    ReachesStep(Sys(cap), INIT, signalled, Go(t));
    m := signalled.(owner := None).Put(t, AtLock);
  }

  /** The producer fills the store up to item `x`, when no more than cap - 1 smaller items stay in it. */
  lemma {:induction false} PushUpTo(cap: nat, s: State, x: nat) returns (m: State)
    requires Reaches(Sys(cap), INIT, s) && Settled(s)
    requires |Left(s.taken, x)| < cap && x !in s.taken
    ensures Reaches(Sys(cap), INIT, m) && Settled(m) && m.taken == s.taken
    ensures m.item == if x < s.item then s.item else x + 1
    decreases x + 1 - s.item
  {
    m := s;
    if s.item <= x {
      Reachable(cap);
      DistinctSize(s.stock);
      SubsetSize(Elements(s.stock), Left(s.taken, x));
      assert forall y :: y in s.stock ==> y in Left(s.taken, x);
      assert |s.stock| < cap;
      m := Turn(cap, s, Producer);
      m := PushUpTo(cap, m, x);
    }
  }

  /** A schedule for every admissible order; it pushes nothing it does not need. */
  lemma {:induction false} Deliver(cap: nat, out: seq<nat>) returns (s: State)
    requires Admissible(cap, out)
    ensures Reaches(Sys(cap), INIT, s) && Settled(s) && s.taken == out
    ensures s.item == 1 || s.item - 1 in out
    decreases |out|
  {
    if out == [] {
      s := INIT;
      ReachesSelf(Sys(cap), INIT);
    } else {
      var before, x := out[..|out| - 1], out[|out| - 1];
      assert out == before + [x];
      AdmissibleSnoc(cap, before, x);
      var r := Deliver(cap, before);
      s := PushUpTo(cap, r, x);
      Reachable(cap);
      assert x in s.stock;
      var k :| 0 <= k < |s.stock| && s.stock[k] == x;
      var top := s.stock[|s.stock| - 1];
      assert top in s.stock && top !in before && top < s.item;
      if x < top {
        assert false;
      }
      s := Turn(cap, s, Consumer);
    }
  }

  /** The orders the consumer can take items in are exactly the admissible ones. */
  lemma DeliverableOrders(cap: nat, out: seq<nat>)
    ensures (exists s :: Reaches(Sys(cap), INIT, s) && s.taken == out) <==> Admissible(cap, out)
  {
    if s :| Reaches(Sys(cap), INIT, s) && s.taken == out {
      Reachable(cap);
    }
    if Admissible(cap, out) {
      var s := Deliver(cap, out);
    }
  }

  // ----- The same for a complete permutation, as a forbidden pattern

  ghost predicate Permutation(out: seq<nat>, n: nat)
  {
    && Distinct(out)
    && (forall x: nat :: x in out <==> 1 <= x <= n)
  }

  /** No item, then a smaller one, then one in between. */
  ghost predicate NoStraddle(out: seq<nat>)
  {
    forall i, j, k :: 0 <= i < j < k < |out| ==> !(out[j] < out[k] < out[i])
  }

  ghost predicate FewBelow(cap: nat, out: seq<nat>)
  {
    forall i :: 0 <= i < |out| ==> |Left(out[..i], out[i])| <= cap - 1
  }

  /** The complete deliveries of items 1..n are the permutations without a straddle in which every item taken
      leaves at most cap - 1 smaller ones behind. */
  lemma DeliverablePermutations(cap: nat, n: nat, out: seq<nat>)
    requires Permutation(out, n)
    ensures (exists s :: Reaches(Sys(cap), INIT, s) && s.taken == out) <==> NoStraddle(out) && FewBelow(cap, out)
  {
    DeliverableOrders(cap, out);
    if Admissible(cap, out) {
      forall i, j, k | 0 <= i < j < k < |out| ensures !(out[j] < out[k] < out[i]) {
        assert Takeable(cap, out[..j], out[j]);
        assert out[..j][i] == out[i] && out[i] in out[..j];
        assert out[k] !in out[..j] by {
          assert forall h :: 0 <= h < j ==> out[..j][h] == out[h] != out[k];
        }
      }
      forall i | 0 <= i < |out| ensures |Left(out[..i], out[i])| <= cap - 1 {
        assert Takeable(cap, out[..i], out[i]);
      }
    }
    if NoStraddle(out) && FewBelow(cap, out) {
      forall j | 0 <= j < |out| ensures Takeable(cap, out[..j], out[j]) {
        var x := out[j];
        assert x in out;
        forall a, c: nat | a in out[..j] && x < c < a ensures c in out[..j] {
          var i :| 0 <= i < j && out[i] == a;
          assert a in out && c in out;
          var k :| 0 <= k < |out| && out[k] == c;
        }
      }
    }
  }

  /** One cell makes the store a queue: the consumer takes 1, 2, 3, ... */
  lemma OneCellIsFifo(s: State, i: nat)
    requires Reaches(Sys(1), INIT, s) && i < |s.taken|
    ensures s.taken[i] == i + 1
    decreases i
  {
    Reachable(1);
    var before, x := s.taken[..i], s.taken[i];
    assert Takeable(1, before, x);
    forall j: nat | j < i ensures before[j] == j + 1 {
      OneCellIsFifo(s, j);
    }
    forall y: nat | 1 <= y <= i ensures y in before {
      assert before[y - 1] == y;
    }
    assert i + 1 !in before && Left(before, x) == {};
    var missed: nat := i + 1;
    assert missed in Left(before, x) <==> missed < x;
  }

  /** The producer has just filled the store, the consumer has not come for the lock yet. */
  ghost predicate JustFilled(cap: nat, s: State)
  {
    && Reaches(Sys(cap), INIT, s)
    && |s.stock| == cap && s.owner == Some(Producer) && s.pp.AtSignal? && s.cp.AtLock?
  }

  lemma {:induction false} LeftOfNone(x: nat)
    ensures |Left([], x)| == if x == 0 then 0 else x - 1
  {
    if x >= 2 {
      LeftOfNone(x - 1);
      assert Left([], x) == Left([], x - 1) + {x - 1};
    }
  }

  lemma StockOfUntaken(cap: nat, s: State)
    requires StockInv(cap, s) && s.taken == []
    ensures |s.stock| == s.item - 1
  {
    DistinctSize(s.stock);
    LeftOfNone(s.item);
    assert Left([], s.item) == Elements(s.stock);
  }

  lemma FillTheStore(cap: nat) returns (s: State)
    requires cap >= 1
    ensures JustFilled(cap, s)
  {
    ReachesSelf(Sys(cap), INIT);
    LeftOfNone(cap - 1);
    s := PushUpTo(cap, INIT, cap - 1);
    Reachable(cap);
    StockOfUntaken(cap, s);
    s := Entrance(cap, s, Producer);
    ReachesStep(Sys(cap), INIT, s, Go(Producer));
    s := Next(cap, s, Go(Producer)).value;
  }

  /** One more step of thread `t` at the end of a run. */
  lemma OneMore(cap: nat, s: State, acts: seq<Action>, m: State, t: Role, next: State) returns (more: seq<Action>)
    requires Exec(Sys(cap), s, acts) == Some(m) && (forall a :: a in acts ==> a.Go?)
    requires Next(cap, m, Go(t)) == Some(next)
    ensures Exec(Sys(cap), s, more) == Some(next) && (forall a :: a in more ==> a.Go?) && |more| == |acts| + 1
  {
    more := acts + [Go(t)];
    ExecAppend(Sys(cap), s, acts, [Go(t)]);
    var none: seq<Action> := [];
    assert Exec(Sys(cap), next, none) == Some(next);
    ExecCons(Sys(cap), m, Go(t), none);
    assert [Go(t)] + none == [Go(t)];
  }

  /** The bound of eight is exact: for every size of the store there is a reachable state - the producer has
      just filled the store - from which seven steps move nothing: the producer goes round to its wait and
      the consumer comes to its pop. */
  lemma SevenStepsCanBeQuiet(cap: nat) returns (s: State, acts: seq<Action>)
    requires cap >= 1
    ensures Reaches(Sys(cap), INIT, s) && |acts| == 7 && (forall a :: a in acts ==> a.Go?)
    ensures Exec(Sys(cap), s, acts).Some? && Transfers(Exec(Sys(cap), s, acts).value) == Transfers(s)
  {
    s := FillTheStore(cap);
    acts := [];
    var s1 := s.(pp := AtUnlock);
    var s2 := s.(pp := AtLock, owner := None);
    var s3 := s.(pp := AtTest, owner := Some(Producer));
    var s4 := s.(pp := AtWait, owner := Some(Producer));
    var s5 := s.(pp := Asleep, owner := None);
    var s6 := s.(pp := Asleep, cp := AtTest, owner := Some(Consumer));
    var s7 := s.(pp := Asleep, cp := AtMove, owner := Some(Consumer));
    acts := OneMore(cap, s, acts, s, Producer, s1);
    acts := OneMore(cap, s, acts, s1, Producer, s2);
    acts := OneMore(cap, s, acts, s2, Producer, s3);
    acts := OneMore(cap, s, acts, s3, Producer, s4);
    acts := OneMore(cap, s, acts, s4, Producer, s5);
    acts := OneMore(cap, s, acts, s5, Consumer, s6);
    acts := OneMore(cap, s, acts, s6, Consumer, s7);
  }

  // ----- The two threads over the global buffer

  /** The globals of the program and the two threads' positions.  Each method is one step of one thread, and
      does to the array and the counter what `Next` says; it answers whether the thread could step. */
  class Warehouse {
    const buffer: array<nat>
    var count: nat
    var item: nat
    var taken: seq<nat>
    var owner: Option<Role>
    var pp: Pc
    var cp: Pc

    ghost function View(): State
      reads this, buffer
      requires count <= buffer.Length
    {
      State(buffer[..count], item, taken, owner, pp, cp)
    }

    ghost predicate Valid()
      reads this, buffer
    {
      count <= buffer.Length && Inv(buffer.Length, View())
    }

    constructor (size: nat)
      ensures Valid() && View() == INIT && buffer.Length == size && fresh(buffer)
    {
      buffer := new nat[size];
      count, item, taken := 0, 1, [];
      owner, pp, cp := None, AtLock, AtLock;
    }

    method ProducerStep() returns (ran: bool)
      requires Valid()
      modifies this, buffer
      ensures Valid()
      ensures var next := Next(buffer.Length, old(View()), Go(Producer));
              ran == next.Some? && View() == if ran then next.value else old(View())
    {
      ghost var before := View();
      ran := true;
      match pp {
        case AtLock | Woken =>
          if owner.None? { owner, pp := Some(Producer), AtTest; } else { ran := false; }
        case AtTest =>
          pp := if count == buffer.Length then AtWait else AtMove;
        case AtWait =>
          owner, pp := None, Asleep;
        case Asleep =>
          ran := false;
        case AtMove =>
          buffer[count] := item;
          count, item := count + 1, item + 1;
          pp := AtSignal;
          assert buffer[..count] == before.stock + [before.item];
        case AtSignal =>
          if cp.Asleep? { cp := Woken; }
          pp := AtUnlock;
        case AtUnlock =>
          owner, pp := None, AtLock;
      }
      if ran { StepKeepsInv(buffer.Length, before, Go(Producer)); }
    }

    method ConsumerStep() returns (ran: bool)
      requires Valid()
      modifies this
      ensures Valid()
      ensures var next := Next(buffer.Length, old(View()), Go(Consumer));
              ran == next.Some? && View() == if ran then next.value else old(View())
    {
      ghost var before := View();
      ran := true;
      match cp {
        case AtLock | Woken =>
          if owner.None? { owner, cp := Some(Consumer), AtTest; } else { ran := false; }
        case AtTest =>
          cp := if count == 0 then AtWait else AtMove;
        case AtWait =>
          owner, cp := None, Asleep;
        case Asleep =>
          ran := false;
        case AtMove =>
          count := count - 1;
          taken := taken + [buffer[count]];
          cp := AtSignal;
          assert buffer[..count] == before.stock[..count];
        case AtSignal =>
          if pp.Asleep? { pp := Woken; }
          cp := AtUnlock;
        case AtUnlock =>
          owner, cp := None, AtLock;
      }
      if ran { StepKeepsInv(buffer.Length, before, Go(Consumer)); }
    }

    /** pthread_cond_wait may return without a signal. */
    method SpuriousWakeup(t: Role) returns (ran: bool)
      requires Valid()
      modifies this
      ensures Valid()
      ensures var next := Next(buffer.Length, old(View()), Spurious(t));
              ran == next.Some? && View() == if ran then next.value else old(View())
    {
      ghost var before := View();
      ran := if t.Producer? then pp.Asleep? else cp.Asleep?;
      if ran {
        if t.Producer? { pp := Woken; } else { cp := Woken; }
        StepKeepsInv(buffer.Length, before, Spurious(t));
      }
    }
  }
}
