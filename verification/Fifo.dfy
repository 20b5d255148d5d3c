/**
 process_test/fifo_write.c and process_test/fifo_read.c: one process copies its standard input into a named
 pipe in chunks, the other copies the pipe to its standard output in chunks of its own.
 */
module Fifo {
  import opened Runs

  const BUFSIZE := 100

  type Bytes = seq<nat>

  /** Take is a read of the standard input of 1 to BUFSIZE bytes and Finish its end; Push moves one byte of the
      write call into the pipe; Pull is a read of `count` bytes from it; Emit writes what was read; AtEnd is
      the read that returns 0. */
  datatype Action = Take(chunk: Bytes) | Finish | Push | Pull(count: nat) | Emit | AtEnd

  /** `input` is what the writer has read so far, `writeBuf` what its current write has still to move,
      `readBuf` what the reader has read and not yet written out. */
  datatype State = State(input: Bytes, writeBuf: Bytes, pipe: Bytes, readBuf: Bytes, out: Bytes,
                         writerOpen: bool, readerDone: bool)

  const INIT := State([], [], [], [], [], true, false)

  function Next(cap: nat, s: State, a: Action): Option<State>
  {
    match a
    case Take(chunk) =>
      if s.writerOpen && s.writeBuf == [] && 1 <= |chunk| <= BUFSIZE
      then Some(s.(input := s.input + chunk, writeBuf := chunk)) else None
    case Finish =>
      if s.writerOpen && s.writeBuf == [] then Some(s.(writerOpen := false)) else None
    case Push =>
      if s.writeBuf != [] && |s.pipe| < cap && !s.readerDone
      then Some(s.(pipe := s.pipe + [s.writeBuf[0]], writeBuf := s.writeBuf[1..])) else None
    case Pull(count) =>
      if !s.readerDone && s.readBuf == [] && 1 <= count <= |s.pipe| && count <= BUFSIZE
      then Some(s.(readBuf := s.pipe[..count], pipe := s.pipe[count..])) else None
    case Emit =>
      if s.readBuf != [] then Some(s.(out := s.out + s.readBuf, readBuf := [])) else None
    case AtEnd =>
      if !s.readerDone && s.readBuf == [] && s.pipe == [] && !s.writerOpen
      then Some(s.(readerDone := true)) else None
  }

  function Sys(cap: nat): (State, Action) -> Option<State>
  {
    (s, a) => Next(cap, s, a)
  }

  ghost predicate Inv(cap: nat, s: State)
  {
    && s.input == s.out + s.readBuf + s.pipe + s.writeBuf
    && |s.pipe| <= cap
    && (!s.writerOpen ==> s.writeBuf == [])
    && (s.readerDone ==> !s.writerOpen && s.pipe == [] && s.readBuf == [])
  }

  lemma PushKeepsInv(cap: nat, s: State)
    requires Inv(cap, s) && Next(cap, s, Push).Some?
    ensures Inv(cap, Next(cap, s, Push).value)
  {
    var done, p, b := s.out + s.readBuf, s.pipe, s.writeBuf;
    assert b == [b[0]] + b[1..];
    assert done + p + ([b[0]] + b[1..]) == done + (p + [b[0]]) + b[1..];
  }

  lemma PullKeepsInv(cap: nat, s: State, count: nat)
    requires Inv(cap, s) && Next(cap, s, Pull(count)).Some?
    ensures Inv(cap, Next(cap, s, Pull(count)).value)
  {
    var p := s.pipe;
    assert p == p[..count] + p[count..];
    assert s.out + [] == s.out;
    assert s.out + (p[..count] + p[count..]) + s.writeBuf == s.out + p[..count] + p[count..] + s.writeBuf;
  }

  lemma StepKeepsInv(cap: nat, s: State, a: Action)
    requires Inv(cap, s) && Next(cap, s, a).Some?
    ensures Inv(cap, Next(cap, s, a).value)
  {
    match a {
      case Push => PushKeepsInv(cap, s);
      case Pull(count) => PullKeepsInv(cap, s, count);
      case Take(chunk) => assert s.input + chunk == s.out + s.readBuf + s.pipe + [] + chunk;
      case Emit => assert s.out + s.readBuf + [] == s.out + s.readBuf;
      case _ =>
    }
  }

  lemma Reachable(cap: nat)
    ensures Always(Sys(cap), INIT, s => Inv(cap, s))
  {
    forall t, a | Inv(cap, t) && Sys(cap)(t, a).Some? ensures Inv(cap, Sys(cap)(t, a).value) {
      StepKeepsInv(cap, t, a);
    }
    Invariant(Sys(cap), t => Inv(cap, t), INIT);
  }

  /** Whatever the sizes of the reads on both sides, the capacity of the pipe and the schedule: the output is
      always a prefix of the input, and all of it once the reader has seen the end of file. */
  lemma OutputIsPrefixOfInput(cap: nat, s: State)
    requires Reaches(Sys(cap), INIT, s)
    ensures s.out <= s.input && |s.pipe| <= cap
    ensures s.readerDone ==> s.out == s.input && !s.writerOpen
  {
    Reachable(cap);
    assert s.input == s.out + (s.readBuf + s.pipe + s.writeBuf);
  }

  /** A step that needs no further input. */
  predicate Inner(a: Action)
  {
    !a.Take? && !a.Finish?
  }

  /** Nothing rests on the way: while some of the input is not yet written out, or the end of file not yet
      seen, one of the two processes can move on without further input. */
  lemma NothingRestsOnTheWay(cap: nat, s: State)
    requires cap >= 1 && Reaches(Sys(cap), INIT, s)
    requires s.out != s.input || (!s.writerOpen && !s.readerDone)
    ensures exists a: Action :: Inner(a) && Next(cap, s, a).Some?
  {
    Reachable(cap);
    assert s.input == s.out + (s.readBuf + s.pipe + s.writeBuf);
    if s.readBuf != [] {
      assert Next(cap, s, Emit).Some?;
    } else if s.pipe != [] {
      assert Next(cap, s, Pull(1)).Some?;
    } else if s.writeBuf != [] {
      assert Next(cap, s, Push).Some?;
    } else {
      assert s.out + [] == s.out;
      assert Next(cap, s, AtEnd).Some?;
    }
  }

  /** The steps the bytes on the way can still take: into the pipe, out of it, to the output; and the end of file. */
  function OnTheWay(s: State): nat
  {
    3 * |s.writeBuf| + 2 * |s.pipe| + |s.readBuf| + (if s.readerDone then 0 else 1)
  }

  /** Between two reads of the standard input only so many steps can be made. */
  lemma {:induction false} InnerStepsAreBounded(cap: nat, s: State, acts: seq<Action>, e: State)
    requires Exec(Sys(cap), s, acts) == Some(e) && forall a :: a in acts ==> Inner(a)
    ensures |acts| + OnTheWay(e) <= OnTheWay(s) && e.input == s.input && e.writerOpen == s.writerOpen
    decreases |acts|
  {
    if acts == [] {
    } else {
      assert acts[0] in acts && forall a :: a in acts[1..] ==> a in acts;
      InnerStepsAreBounded(cap, Next(cap, s, acts[0]).value, acts[1..], e);
    }
  }

  /** After the writer's close only inner steps are left. */
  lemma {:induction false} OnlyInnerAfterTheEnd(cap: nat, s: State, acts: seq<Action>)
    requires !s.writerOpen && Exec(Sys(cap), s, acts).Some?
    ensures forall a :: a in acts ==> Inner(a)
    decreases |acts|
  {
    if acts == [] {
    } else {
      OnlyInnerAfterTheEnd(cap, Next(cap, s, acts[0]).value, acts[1..]);
      assert forall a :: a in acts ==> a == acts[0] || a in acts[1..];
    }
  }

  /** Once the input has ended every run is bounded by the bytes still on the way, and a run that cannot go on has
      written out all the input and seen the end of file. */
  lemma EveryRunAfterTheEndDelivers(cap: nat, s: State, acts: seq<Action>, e: State)
    requires Reaches(Sys(cap), INIT, s) && !s.writerOpen && Exec(Sys(cap), s, acts) == Some(e)
    ensures |acts| <= OnTheWay(s)
    ensures Stuck(Sys(cap), e) <==> e.readerDone
    ensures e.readerDone ==> e.out == s.input
  {
    OnlyInnerAfterTheEnd(cap, s, acts);
    InnerStepsAreBounded(cap, s, acts, e);
    Reachable(cap);
    ReachesTrans(Sys(cap), INIT, s, e);
    if Stuck(Sys(cap), e) {
      assert Sys(cap)(e, Emit).None? && Sys(cap)(e, Pull(1)).None? && Sys(cap)(e, AtEnd).None?;
    }
  }

  // ----- What a schedule determines

  /** What the picks of a schedule amount to: the bytes the standard input gave, how many were moved into the pipe
      and out of it, how many written out, and whether the input has ended and the end of file was seen. */
  datatype Totals = Totals(input: Bytes, pushed: nat, pulled: nat, emitted: nat, finished: bool, atEnd: bool)

  function After(t: Totals, a: Action): Totals
  {
    match a
    case Take(chunk) => t.(input := t.input + chunk)
    case Finish => t.(finished := true)
    case Push => t.(pushed := t.pushed + 1)
    case Pull(count) => t.(pulled := t.pulled + count)
    case Emit => t.(emitted := t.pulled)
    case AtEnd => t.(atEnd := true)
  }

  function Total(acts: seq<Action>): Totals
  {
    if acts == [] then Totals([], 0, 0, 0, false, false) else After(Total(acts[..|acts| - 1]), acts[|acts| - 1])
  }

  /** Everything the standard input gave. */
  function Given(acts: seq<Action>): Bytes
  {
    if acts == [] then []
    else Given(acts[..|acts| - 1]) + if acts[|acts| - 1].Take? then acts[|acts| - 1].chunk else []
  }

  ghost predicate Follows(cap: nat, acts: seq<Action>, s: State)
  {
    var t := Total(acts);
    && Inv(cap, s) && s.input == t.input == Given(acts)
    && |s.out| == t.emitted && |s.out + s.readBuf| == t.pulled && |s.out + s.readBuf + s.pipe| == t.pushed
    && (s.writerOpen <==> !t.finished) && (s.readerDone <==> t.atEnd)
  }

  lemma RunFollows(cap: nat)
    ensures Ties(Sys(cap), INIT, (past, t) => Follows(cap, past, t))
  {
    forall past, t, a | Follows(cap, past, t) && Sys(cap)(t, a).Some?
      ensures Follows(cap, past + [a], Sys(cap)(t, a).value)
    {
      StepKeepsInv(cap, t, a);
      assert (past + [a])[..|past|] == past;
    }
    KeepsAlong(Sys(cap), (past, t) => Follows(cap, past, t), INIT);
  }

  /** For every schedule: what was written out are the first bytes the standard input gave, as many as were pulled by
      the last emit, and all of them once the reader has seen the end of file. */
  lemma OutputIsWhatWasGiven(cap: nat, acts: seq<Action>, e: State)
    requires Exec(Sys(cap), INIT, acts) == Some(e)
    ensures e.input == Given(acts)
    ensures Total(acts).emitted <= |Given(acts)| && e.out == Given(acts)[..Total(acts).emitted]
    ensures e.readerDone ==> e.out == Given(acts)
  {
    RunFollows(cap);
    assert e.input == e.out + (e.readBuf + e.pipe + e.writeBuf);
    assert Reaches(Sys(cap), INIT, e);
    OutputIsPrefixOfInput(cap, e);
  }

  /** What can come next, from the totals alone: a read of the input, or its end, when all of it is in the pipe; a
      push when there is more to write and room for it; a pull of any number of bytes in the pipe when all
      pulled before are written out; a write of what was pulled; the end of file when the input has ended
      and everything is written out. */
  lemma WhatCanFollow(cap: nat, acts: seq<Action>, a: Action)
    requires Exec(Sys(cap), INIT, acts).Some?
    ensures var t := Total(acts);
            Exec(Sys(cap), INIT, acts + [a]).Some?
            <==> match a
                 case Take(chunk) => !t.finished && t.pushed == |t.input| && 1 <= |chunk| <= BUFSIZE
                 case Finish => !t.finished && t.pushed == |t.input|
                 case Push => t.pushed < |t.input| && t.pushed - t.pulled < cap
                 case Pull(count) => t.emitted == t.pulled && 1 <= count <= t.pushed - t.pulled && count <= BUFSIZE
                 case Emit => t.emitted < t.pulled
                 case AtEnd => !t.atEnd && t.finished && t.emitted == |t.input|
  {
    RunFollows(cap);
    ExecSnoc(Sys(cap), INIT, acts, a);
  }

  // ----- The two processes over the pipe

  class Relay {
    const cap: nat
    var writeBuf: Bytes
    var pipe: Bytes
    var readBuf: Bytes
    var out: Bytes
    var writerOpen: bool
    var readerDone: bool
    ghost var input: Bytes

    ghost function View(): State
      reads this
    {
      State(input, writeBuf, pipe, readBuf, out, writerOpen, readerDone)
    }

    constructor (cap: nat)
      ensures View() == INIT && this.cap == cap
    {
      this.cap := cap;
      writeBuf, pipe, readBuf, out, input := [], [], [], [], [];
      writerOpen, readerDone := true, false;
    }

    /** The writer's read of its standard input; no bytes is the end, and the write end is closed. */
    method WriterRead(chunk: Bytes) returns (ran: bool)
      requires |chunk| <= BUFSIZE
      modifies this
      ensures var next := Next(cap, old(View()), if chunk == [] then Finish else Take(chunk));
              ran == next.Some? && View() == if ran then next.value else old(View())
    {
      ran := writerOpen && |writeBuf| == 0;
      if ran {
        if |chunk| > 0 {
          writeBuf := chunk;
          input := input + chunk;
        } else {
          writerOpen := false;
        }
      }
    }

    /** One byte of the writer's write. */
    method WriterWrite() returns (ran: bool)
      modifies this
      ensures var next := Next(cap, old(View()), Push);
              ran == next.Some? && View() == if ran then next.value else old(View())
    {
      ran := |writeBuf| > 0 && |pipe| < cap && !readerDone;
      if ran {
        pipe := pipe + [writeBuf[0]];
        writeBuf := writeBuf[1..];
      }
    }

    /** The reader's read of up to `count` bytes; 0 bytes from a closed and drained pipe end its loop. */
    method ReaderRead(count: nat) returns (ran: bool)
      modifies this
      ensures var next := Next(cap, old(View()), if count == 0 then AtEnd else Pull(count));
              ran == next.Some? && View() == if ran then next.value else old(View())
    {
      ran := !readerDone && |readBuf| == 0
             && if count == 0 then |pipe| == 0 && !writerOpen else count <= |pipe| && count <= BUFSIZE;
      if ran {
        if count > 0 {
          readBuf := pipe[..count];
          pipe := pipe[count..];
        } else {
          readerDone := true;
        }
      }
    }

    method ReaderWrite() returns (ran: bool)
      modifies this
      ensures var next := Next(cap, old(View()), Emit);
              ran == next.Some? && View() == if ran then next.value else old(View())
    {
      ran := |readBuf| > 0;
      if ran {
        out := out + readBuf;
        readBuf := [];
      }
    }
  }
}
