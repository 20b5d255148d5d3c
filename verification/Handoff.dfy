/**
 thread_test/unnamed_sem_count_thread.c: a producer and a consumer hand values over through one variable,
 `rounds` times, with the semaphores `empty` (from 1) and `full` (from 0).
 */
module Handoff {
  import opened Runs

  datatype Pc = AtWait | AtData | AtPost

  /** The value of a Produce step is what rand_num returns; only the write step uses it. */
  datatype Action = Produce(v: nat) | Consume

  /** `made` and `used` are the two loop counters; `written` and `read` are history. */
  datatype State = State(empty: nat, full: nat, shared: nat, pp: Pc, cp: Pc, made: nat, used: nat,
                         written: seq<nat>, read: seq<nat>)

  const INIT := State(1, 0, 0, AtWait, AtWait, 0, 0, [], [])

  function Next(rounds: nat, s: State, a: Action): Option<State>
  {
    match a
    case Produce(v) => (
      match s.pp
      case AtWait => if s.made < rounds && s.empty > 0 then Some(s.(empty := s.empty - 1, pp := AtData)) else None
      case AtData => Some(s.(shared := v, written := s.written + [v], pp := AtPost))
      case AtPost => Some(s.(full := s.full + 1, made := s.made + 1, pp := AtWait)))
    case Consume => (
      match s.cp
      case AtWait => if s.used < rounds && s.full > 0 then Some(s.(full := s.full - 1, cp := AtData)) else None
      case AtData => Some(s.(read := s.read + [s.shared], cp := AtPost))
      case AtPost => Some(s.(empty := s.empty + 1, used := s.used + 1, cp := AtWait)))
  }

  function Sys(rounds: nat): (State, Action) -> Option<State>
  {
    (s, a) => Next(rounds, s, a)
  }

  function InSection(p: Pc): nat { if p.AtWait? then 0 else 1 }

  function Progress(p: Pc): nat { match p case AtWait => 0 case AtData => 1 case AtPost => 2 }

  ghost predicate Inv(rounds: nat, s: State)
  {
    && s.empty + s.full + InSection(s.pp) + InSection(s.cp) == 1
    && s.made == s.used + s.full + InSection(s.cp)
    && s.made + InSection(s.pp) <= rounds && s.used + InSection(s.cp) <= rounds
    && |s.written| == s.made + (if s.pp.AtPost? then 1 else 0)
    && |s.read| == s.used + (if s.cp.AtPost? then 1 else 0)
    && s.read <= s.written
    && (s.written != [] ==> s.written[|s.written| - 1] == s.shared)
  }

  lemma StepKeepsInv(rounds: nat, s: State, a: Action)
    requires Inv(rounds, s) && Next(rounds, s, a).Some?
    ensures Inv(rounds, Next(rounds, s, a).value)
  {
  }

  lemma Reachable(rounds: nat)
    ensures Always(Sys(rounds), INIT, s => Inv(rounds, s))
  {
    forall t, a | Inv(rounds, t) && Sys(rounds)(t, a).Some? ensures Inv(rounds, Sys(rounds)(t, a).value) {
      StepKeepsInv(rounds, t, a);
    }
    Invariant(Sys(rounds), t => Inv(rounds, t), INIT);
  }

  /** One token circulates; what was read is what was written, at most the last value missing. */
  lemma OneToken(rounds: nat, s: State)
    requires Reaches(Sys(rounds), INIT, s)
    ensures s.empty + s.full + InSection(s.pp) + InSection(s.cp) == 1
    ensures s.read <= s.written && |s.written| - |s.read| <= 1
  {
    Reachable(rounds);
  }

  /** The channel the two semaphores implement: one slot. */
  function Slot(s: State): Option<nat>
  {
    if |s.written| > |s.read| then Some(s.shared) else None
  }

  /** The write fills the empty slot, the read empties the full one and gets its value, no other step touches it. */
  lemma StepsAreChannelSteps(rounds: nat, s: State, a: Action)
    requires Reaches(Sys(rounds), INIT, s) && Next(rounds, s, a).Some?
    ensures var t := Next(rounds, s, a).value;
            if a.Produce? && s.pp.AtData? then
              Slot(s) == None && Slot(t) == Some(a.v) && t.read == s.read
            else if a.Consume? && s.cp.AtData? then
              Slot(s).Some? && Slot(t) == None && t.read == s.read + [Slot(s).value]
            else
              Slot(t) == Slot(s) && t.read == s.read
  {
    Reachable(rounds);
  }

  function Steps(s: State): nat
  {
    3 * s.made + Progress(s.pp) + 3 * s.used + Progress(s.cp)
  }

  lemma StuckIffDone(rounds: nat, s: State)
    requires Inv(rounds, s)
    ensures Stuck(Sys(rounds), s) <==> s.made == s.used == rounds && s.pp.AtWait? && s.cp.AtWait?
    ensures Stuck(Sys(rounds), s) ==> s.empty == 1 && s.full == 0 && s.read == s.written && |s.read| == rounds
    ensures Stuck(Sys(rounds), s) <==> Steps(s) == 6 * rounds
    ensures Steps(s) <= 6 * rounds
  {
    if Stuck(Sys(rounds), s) {
      assert Sys(rounds)(s, Produce(0)).None? && Sys(rounds)(s, Consume).None?;
    }
  }

  // ----- What a schedule determines

  /** What rand_num gave at each pick of the producer; only every third, the write, uses it. */
  function Random(acts: seq<Action>): seq<nat>
  {
    if acts == [] then []
    else Random(acts[..|acts| - 1]) + if acts[|acts| - 1].Produce? then [acts[|acts| - 1].v] else []
  }

  function Consumes(acts: seq<Action>): nat { CountIf((a: Action) => a.Consume?, acts) }

  /** Of each three numbers the middle one: the values of the writes. */
  function Middle(random: seq<nat>): seq<nat>
  {
    seq((|random| + 1) / 3, k requires 0 <= k < (|random| + 1) / 3 => random[3 * k + 1])
  }

  ghost predicate Follows(rounds: nat, acts: seq<Action>, s: State)
  {
    && Inv(rounds, s)
    && |Random(acts)| == 3 * s.made + Progress(s.pp) && Consumes(acts) == 3 * s.used + Progress(s.cp)
    && s.written == Middle(Random(acts))
  }

  lemma MiddleSnoc(random: seq<nat>, v: nat)
    ensures Middle(random + [v]) == if |random| % 3 == 1 then Middle(random) + [v] else Middle(random)
  {
  }

  lemma ProduceFollows(rounds: nat, acts: seq<Action>, s: State, v: nat)
    requires Follows(rounds, acts, s) && Next(rounds, s, Produce(v)).Some?
    ensures Follows(rounds, acts + [Produce(v)], Next(rounds, s, Produce(v)).value)
  {
    StepKeepsInv(rounds, s, Produce(v));
    assert (acts + [Produce(v)])[..|acts|] == acts;
    assert Random(acts + [Produce(v)]) == Random(acts) + [v];
    assert Consumes(acts + [Produce(v)]) == Consumes(acts);
    MiddleSnoc(Random(acts), v);
  }

  lemma ConsumeFollows(rounds: nat, acts: seq<Action>, s: State)
    requires Follows(rounds, acts, s) && Next(rounds, s, Consume).Some?
    ensures Follows(rounds, acts + [Consume], Next(rounds, s, Consume).value)
  {
    StepKeepsInv(rounds, s, Consume);
    assert (acts + [Consume])[..|acts|] == acts;
    assert Random(acts + [Consume]) == Random(acts);
    assert Consumes(acts + [Consume]) == Consumes(acts) + 1;
  }

  lemma RunFollows(rounds: nat)
    ensures Ties(Sys(rounds), INIT, (past, t) => Follows(rounds, past, t))
  {
    forall past, t, a: Action | Follows(rounds, past, t) && Sys(rounds)(t, a).Some?
      ensures Follows(rounds, past + [a], Sys(rounds)(t, a).value)
    {
      if a.Produce? { ProduceFollows(rounds, past, t, a.v); } else { ConsumeFollows(rounds, past, t); }
    }
    KeepsAlong(Sys(rounds), (past, t) => Follows(rounds, past, t), INIT);
  }

  /** For every schedule: the values written are those the middle picks of the producer's rounds got, and the values
      read are the first of them, one for each read the consumer made. */
  lemma ReadsAreTheWrites(rounds: nat, acts: seq<Action>, e: State)
    requires Exec(Sys(rounds), INIT, acts) == Some(e)
    ensures e.written == Middle(Random(acts))
    ensures (Consumes(acts) + 1) / 3 <= |e.written| && e.read == Middle(Random(acts))[..(Consumes(acts) + 1) / 3]
  {
    RunFollows(rounds);
  }

  lemma ProducerCan(rounds: nat, p: nat, c: nat, s: State, v: nat)
    requires Inv(rounds, s) && p == 3 * s.made + Progress(s.pp) && c == 3 * s.used + Progress(s.cp)
    ensures Next(rounds, s, Produce(v)).Some? <==> p < 3 * rounds && (p % 3 == 0 ==> c == p)
  {
    assert p % 3 == Progress(s.pp);
  }

  lemma ConsumerCan(rounds: nat, p: nat, c: nat, s: State)
    requires Inv(rounds, s) && p == 3 * s.made + Progress(s.pp) && c == 3 * s.used + Progress(s.cp)
    ensures Next(rounds, s, Consume).Some? <==> c < 3 * rounds && (c % 3 == 0 ==> p >= c + 3)
  {
    assert c % 3 == Progress(s.cp);
  }

  /** What can come next, from the two counts of picks: a thread inside its round can always go on; the producer
      starts a round exactly when the consumer has finished as many rounds as the producer, the consumer exactly
      when it has finished fewer. */
  lemma WhatCanFollow(rounds: nat, acts: seq<Action>, v: nat)
    requires Exec(Sys(rounds), INIT, acts).Some?
    ensures var p, c := |Random(acts)|, Consumes(acts);
            && (Exec(Sys(rounds), INIT, acts + [Produce(v)]).Some? <==> p < 3 * rounds && (p % 3 == 0 ==> c == p))
            && (Exec(Sys(rounds), INIT, acts + [Consume]).Some? <==> c < 3 * rounds && (c % 3 == 0 ==> p >= c + 3))
  {
    RunFollows(rounds);
    var e := Exec(Sys(rounds), INIT, acts).value;
    ProducerCan(rounds, |Random(acts)|, Consumes(acts), e, v);
    ConsumerCan(rounds, |Random(acts)|, Consumes(acts), e);
    ExecSnoc(Sys(rounds), INIT, acts, Produce(v));
    ExecSnoc(Sys(rounds), INIT, acts, Consume);
  }

  lemma {:induction false} PicksAdd(acts: seq<Action>)
    ensures |acts| == |Random(acts)| + Consumes(acts)
    decreases |acts|
  {
    if acts == [] {
    } else {
      PicksAdd(acts[..|acts| - 1]);
    }
  }

  /** Every run that cannot go on has 6 * rounds steps, everything written was read, and the semaphores are
      back at 1 and 0. */
  lemma EveryRunHandsOverAll(rounds: nat, acts: seq<Action>, e: State)
    requires Exec(Sys(rounds), INIT, acts) == Some(e)
    ensures |acts| <= 6 * rounds
    ensures Stuck(Sys(rounds), e) <==> e.made == e.used == rounds && e.pp.AtWait? && e.cp.AtWait?
    ensures Stuck(Sys(rounds), e) <==> |acts| == 6 * rounds
    ensures Stuck(Sys(rounds), e) ==> e.empty == 1 && e.full == 0 && e.read == e.written && |e.read| == rounds
  {
    RunFollows(rounds);
    PicksAdd(acts);
    StuckIffDone(rounds, e);
  }

  // ----- The variable and its semaphores

  class Handover {
    const rounds: nat
    var empty: nat
    var full: nat
    var shared: nat
    var pp: Pc
    var cp: Pc
    var made: nat
    var used: nat
    ghost var written: seq<nat>
    var read: seq<nat>

    ghost function View(): State
      reads this
    {
      State(empty, full, shared, pp, cp, made, used, written, read)
    }

    constructor (rounds: nat)
      ensures View() == INIT && this.rounds == rounds
    {
      this.rounds := rounds;
      empty, full, shared, pp, cp, made, used, written, read := 1, 0, 0, AtWait, AtWait, 0, 0, [], [];
    }

    method ProducerStep(random: nat) returns (ran: bool)
      modifies this
      ensures var next := Next(rounds, old(View()), Produce(random));
              ran == next.Some? && View() == if ran then next.value else old(View())
    {
      ran := true;
      match pp {
        case AtWait =>
          if made < rounds && empty > 0 { empty, pp := empty - 1, AtData; } else { ran := false; }
        case AtData =>
          shared := random;
          written := written + [random];
          pp := AtPost;
        case AtPost =>
          full, made, pp := full + 1, made + 1, AtWait;
      }
    }

    method ConsumerStep() returns (ran: bool)
      modifies this
      ensures var next := Next(rounds, old(View()), Consume);
              ran == next.Some? && View() == if ran then next.value else old(View())
    {
      ran := true;
      match cp {
        case AtWait =>
          if used < rounds && full > 0 { full, cp := full - 1, AtData; } else { ran := false; }
        case AtData =>
          read := read + [shared];
          cp := AtPost;
        case AtPost =>
          empty, used, cp := empty + 1, used + 1, AtWait;
      }
    }
  }
}
