/**
 process_test/unnamed_pipe_test.c: the parent writes its argument into a pipe, the child copies it byte by
 byte to the standard output.  The child sees the end of file when the pipe is drained and no write end
 is open - and fork gave the child a write end of its own.
 */
module PipeRelay {
  import opened Runs

  /** `closes` says whether the child closes its copy of the write end (line 27). */
  datatype Config = Config(arg: seq<nat>, greeting: seq<nat>, cap: nat, closes: bool)

  datatype ParentPc = PCloseRead | PWrite | PCloseWrite | PWaitpid | PExited | PKilled

  datatype ChildPc = CCloseWrite | CGreet | CRead | CEcho(b: nat) | CNewline | CCloseRead | CExited

  datatype Who = Parent | Child

  datatype State = State(ppc: ParentPc, cpc: ChildPc, pipe: seq<nat>, sent: nat, out: seq<nat>,
                         parentReads: bool, parentWrites: bool, childReads: bool, childWrites: bool)

  /** After fork both processes have both ends open. */
  const INIT := State(PCloseRead, CCloseWrite, [], 0, [], true, true, true, true)

  const NEWLINE := 10

  /** The write call moves a byte whenever there is room; without a reader it would raise SIGPIPE. */
  function ParentNext(cfg: Config, s: State): Option<State>
  {
    match s.ppc
    case PCloseRead => Some(s.(ppc := PWrite, parentReads := false))
    case PWrite =>
      if s.sent >= |cfg.arg| then Some(s.(ppc := PCloseWrite))
      else if !s.parentReads && !s.childReads then Some(s.(ppc := PKilled, parentWrites := false))
      else if |s.pipe| < cfg.cap then Some(s.(pipe := s.pipe + [cfg.arg[s.sent]], sent := s.sent + 1))
      else None
    case PCloseWrite => Some(s.(ppc := PWaitpid, parentWrites := false))
    case PWaitpid => if s.cpc.CExited? then Some(s.(ppc := PExited)) else None
    case PExited | PKilled => None
  }

  function ChildNext(cfg: Config, s: State): Option<State>
  {
    match s.cpc
    case CCloseWrite => Some(s.(cpc := CGreet, childWrites := !cfg.closes))
    case CGreet => Some(s.(cpc := CRead, out := s.out + cfg.greeting))
    case CRead =>
      if s.pipe != [] then Some(s.(cpc := CEcho(s.pipe[0]), pipe := s.pipe[1..]))
      else if !s.parentWrites && !s.childWrites then Some(s.(cpc := CNewline))
      else None
    case CEcho(b) => Some(s.(cpc := CRead, out := s.out + [b]))
    case CNewline => Some(s.(cpc := CCloseRead, out := s.out + [NEWLINE]))
    case CCloseRead => Some(s.(cpc := CExited, childReads := false, childWrites := false))
    case CExited => None
  }

  function Next(cfg: Config, s: State, who: Who): Option<State>
  {
    if who.Parent? then ParentNext(cfg, s) else ChildNext(cfg, s)
  }

  function Sys(cfg: Config): (State, Who) -> Option<State>
  {
    (s, who) => Next(cfg, s, who)
  }

  /** How many bytes the child has read from the pipe. */
  function Got(s: State): int { s.sent - |s.pipe| }

  /** The bytes of the argument the child has written. */
  function Relayed(s: State): int { Got(s) - if s.cpc.CEcho? then 1 else 0 }

  ghost predicate OpenEndsInv(cfg: Config, s: State)
  {
    && (s.parentReads <==> s.ppc.PCloseRead?)
    && (s.parentWrites <==> s.ppc.PCloseRead? || s.ppc.PWrite? || s.ppc.PCloseWrite?)
    && (s.childReads <==> !s.cpc.CExited?)
    && (s.childWrites <==> s.cpc.CCloseWrite? || (!cfg.closes && !s.cpc.CExited?))
    && !s.ppc.PKilled? && (s.ppc.PExited? ==> s.cpc.CExited?)
  }

  ghost predicate DataInv(cfg: Config, s: State)
  {
    && s.sent <= |cfg.arg| && |s.pipe| <= cfg.cap && 0 <= Relayed(s) <= Got(s)
    && s.pipe == cfg.arg[Got(s)..s.sent]
    && (s.cpc.CEcho? ==> s.cpc.b == cfg.arg[Got(s) - 1])
    && (!s.ppc.PCloseRead? && !s.ppc.PWrite? ==> s.sent == |cfg.arg|)
    && (s.cpc.CNewline? || s.cpc.CCloseRead? || s.cpc.CExited? ==> s.pipe == [] && !s.parentWrites && cfg.closes)
    && (s.cpc.CCloseWrite? || s.cpc.CGreet? ==> s.out == [] && Relayed(s) == 0)
    && (s.cpc.CRead? || s.cpc.CEcho? || s.cpc.CNewline? ==> s.out == cfg.greeting + cfg.arg[..Relayed(s)])
    && (s.cpc.CCloseRead? || s.cpc.CExited? ==> s.out == cfg.greeting + cfg.arg + [NEWLINE])
  }

  ghost predicate Inv(cfg: Config, s: State)
  {
    OpenEndsInv(cfg, s) && DataInv(cfg, s)
  }

  lemma WriteKeepsInv(cfg: Config, s: State)
    requires Inv(cfg, s) && s.ppc.PWrite? && ParentNext(cfg, s).Some?
    ensures Inv(cfg, ParentNext(cfg, s).value)
  {
    if s.sent < |cfg.arg| {
      assert cfg.arg[Got(s)..s.sent] + [cfg.arg[s.sent]] == cfg.arg[Got(s)..s.sent + 1];
    }
  }

  lemma ParentKeepsInv(cfg: Config, s: State)
    requires Inv(cfg, s) && ParentNext(cfg, s).Some?
    ensures Inv(cfg, ParentNext(cfg, s).value)
  {
    if s.ppc.PWrite? {
      WriteKeepsInv(cfg, s);
    }
  }

  lemma ReadKeepsInv(cfg: Config, s: State)
    requires Inv(cfg, s) && s.cpc.CRead? && ChildNext(cfg, s).Some?
    ensures Inv(cfg, ChildNext(cfg, s).value)
  {
    if s.pipe != [] {
      assert cfg.arg[Got(s)..s.sent][1..] == cfg.arg[Got(s) + 1..s.sent];
    }
  }

  lemma EchoKeepsInv(cfg: Config, s: State)
    requires Inv(cfg, s) && s.cpc.CEcho?
    ensures Inv(cfg, ChildNext(cfg, s).value)
  {
    var d := Relayed(s);
    assert cfg.arg[..d] + [s.cpc.b] == cfg.arg[..d + 1];
    assert s.out + [s.cpc.b] == cfg.greeting + (cfg.arg[..d] + [s.cpc.b]);
  }

  lemma ChildKeepsInv(cfg: Config, s: State)
    requires Inv(cfg, s) && ChildNext(cfg, s).Some?
    ensures Inv(cfg, ChildNext(cfg, s).value)
  {
    if s.cpc.CRead? {
      ReadKeepsInv(cfg, s);
    } else if s.cpc.CEcho? {
      EchoKeepsInv(cfg, s);
    } else if s.cpc.CGreet? {
      assert s.out + cfg.greeting == cfg.greeting + cfg.arg[..0];
    } else if s.cpc.CNewline? {
      assert cfg.arg[..Relayed(s)] == cfg.arg;
    }
  }

  lemma StepKeepsInv(cfg: Config, s: State, who: Who)
    requires Inv(cfg, s) && Next(cfg, s, who).Some?
    ensures Inv(cfg, Next(cfg, s, who).value)
  {
    if who.Parent? { ParentKeepsInv(cfg, s); } else { ChildKeepsInv(cfg, s); }
  }

  lemma Reachable(cfg: Config)
    ensures Always(Sys(cfg), INIT, s => Inv(cfg, s))
  {
    forall t, who | Inv(cfg, t) && Sys(cfg)(t, who).Some? ensures Inv(cfg, Sys(cfg)(t, who).value) {
      StepKeepsInv(cfg, t, who);
    }
    Invariant(Sys(cfg), t => Inv(cfg, t), INIT);
  }

  /** The steps still to come: three for each byte, and one for each of the calls. */
  function Rank(cfg: Config, s: State): nat
  {
    3 * (if s.sent <= |cfg.arg| then |cfg.arg| - s.sent else 0) + 2 * |s.pipe|
    + (match s.ppc case PCloseRead => 4 case PWrite => 3 case PCloseWrite => 2 case PWaitpid => 1 case _ => 0)
    + (match s.cpc case CCloseWrite => 5 case CGreet => 4 case CEcho(_) => 4 case CRead => 3 case CNewline => 2
       case CCloseRead => 1 case CExited => 0)
  }

  lemma RankDrops(cfg: Config, s: State, who: Who)
    requires Inv(cfg, s) && Next(cfg, s, who).Some?
    ensures Rank(cfg, Next(cfg, s, who).value) + 1 == Rank(cfg, s)
  {
  }

  lemma RunLength(cfg: Config, acts: seq<Who>)
    requires Exec(Sys(cfg), INIT, acts).Some?
    ensures |acts| + Rank(cfg, Exec(Sys(cfg), INIT, acts).value) == Rank(cfg, INIT)
  {
    forall t, who | Inv(cfg, t) && Sys(cfg)(t, who).Some?
      ensures Inv(cfg, Sys(cfg)(t, who).value) && Rank(cfg, Sys(cfg)(t, who).value) + 1 == Rank(cfg, t)
    {
      StepKeepsInv(cfg, t, who);
      RankDrops(cfg, t, who);
    }
    Counted(Sys(cfg), t => Inv(cfg, t), t => Rank(cfg, t), INIT, acts);
  }

  /** A reading child takes the end of file exactly when it has closed its own write end, the parent is past the
      close of its, and the child has already written out the whole argument. */
  lemma EndOfFile(cfg: Config, s: State)
    requires Reaches(Sys(cfg), INIT, s) && s.cpc.CRead?
    ensures Next(cfg, s, Child).Some? && Next(cfg, s, Child).value.cpc.CNewline?
            <==> cfg.closes && s.ppc.PWaitpid? && s.out == cfg.greeting + cfg.arg
    ensures Next(cfg, s, Child).Some? && Next(cfg, s, Child).value.cpc.CNewline?
            ==> s.sent == |cfg.arg| && s.pipe == []
  {
    Reachable(cfg);
    assert cfg.arg[..|cfg.arg|] == cfg.arg;
    assert |s.out| == |cfg.greeting| + Relayed(s);
  }

  /** As written, every schedule relays the argument and ends with both processes gone: a run that cannot go on
      has printed the greeting, the argument and the newline, and waitpid has returned. */
  lemma EveryRunRelaysAndEnds(cfg: Config, acts: seq<Who>, e: State)
    requires cfg.closes && cfg.cap >= 1 && Exec(Sys(cfg), INIT, acts) == Some(e)
    ensures |acts| <= 3 * |cfg.arg| + 9
    ensures e.out <= cfg.greeting + cfg.arg + [NEWLINE] && !e.ppc.PKilled?
    ensures Stuck(Sys(cfg), e) <==> e.ppc.PExited? && e.cpc.CExited?
    ensures Stuck(Sys(cfg), e) <==> |acts| == 3 * |cfg.arg| + 9
    ensures Stuck(Sys(cfg), e) ==> e.out == cfg.greeting + cfg.arg + [NEWLINE]
  {
    assert Reaches(Sys(cfg), INIT, e);
    Reachable(cfg);
    RunLength(cfg, acts);
    assert cfg.greeting + cfg.arg + [NEWLINE] == cfg.greeting + (cfg.arg + [NEWLINE]);
    if Stuck(Sys(cfg), e) {
      assert Sys(cfg)(e, Parent).None? && Sys(cfg)(e, Child).None?;
    }
  }

  /** Without line 27 the child's own write end keeps the pipe open: every run that cannot go on is a deadlock
      with the child in read and the parent in waitpid, after the whole argument was relayed. */
  lemma WithoutTheCloseEveryRunHangs(cfg: Config, acts: seq<Who>, e: State)
    requires !cfg.closes && cfg.cap >= 1 && Exec(Sys(cfg), INIT, acts) == Some(e)
    ensures |acts| <= 3 * |cfg.arg| + 5
    ensures !e.ppc.PExited? && !e.cpc.CExited? && !e.ppc.PKilled?
    ensures Stuck(Sys(cfg), e) <==> e.ppc.PWaitpid? && e.cpc.CRead? && e.pipe == []
    ensures Stuck(Sys(cfg), e) <==> |acts| == 3 * |cfg.arg| + 5
    ensures Stuck(Sys(cfg), e) ==> e.out == cfg.greeting + cfg.arg
  {
    assert Reaches(Sys(cfg), INIT, e);
    Reachable(cfg);
    RunLength(cfg, acts);
    assert cfg.arg[..|cfg.arg|] == cfg.arg;
    if Stuck(Sys(cfg), e) {
      assert Sys(cfg)(e, Parent).None? && Sys(cfg)(e, Child).None?;
    }
  }

  // ----- What a schedule determines

  function Picks(acts: seq<Who>, who: Who): nat { CountIf((w: Who) => w == who, acts) }

  lemma PicksSnoc(acts: seq<Who>, w: Who, who: Who)
    ensures Picks(acts + [w], who) == Picks(acts, who) + if w == who then 1 else 0
  {
    CountSnoc((x: Who) => x == who, acts, w);
  }

  /** Bytes written after `p` steps of the parent, and read after `c` steps of the child, of `n` in all. */
  function SentAfter(n: nat, p: nat): nat { if p == 0 then 0 else if p <= n + 1 then p - 1 else n }

  function GotAfter(n: nat, c: nat): nat { if c < 2 then 0 else if c <= 2 * n + 2 then (c - 1) / 2 else n }

  function ParentAt(n: nat, p: nat): ParentPc
  {
    if p == 0 then PCloseRead else if p <= n + 1 then PWrite else if p == n + 2 then PCloseWrite
    else if p == n + 3 then PWaitpid else PExited
  }

  /** The output after `c` steps of the child. */
  function OutAfter(cfg: Config, c: nat): seq<nat>
  {
    var n := |cfg.arg|;
    if c < 2 then []
    else if c < 2 * n + 4 then cfg.greeting + cfg.arg[..if c <= 2 * n + 1 then (c - 2) / 2 else n]
    else cfg.greeting + cfg.arg + [NEWLINE]
  }

  /** Where the child is after `c` steps, having read `got` bytes of `n`: a read and a write for each. */
  ghost predicate ChildAt(n: nat, c: nat, got: int, pc: ChildPc)
  {
    match pc
    case CCloseWrite => c == 0 && got == 0
    case CGreet => c == 1 && got == 0
    case CRead => c == 2 * got + 2
    case CEcho(_) => c == 2 * got + 1
    case CNewline => c == 2 * n + 3 && got == n
    case CCloseRead => c == 2 * n + 4 && got == n
    case CExited => c == 2 * n + 5 && got == n
  }

  ghost predicate Follows(cfg: Config, p: nat, c: nat, s: State)
  {
    var n := |cfg.arg|;
    && Inv(cfg, s) && p <= n + 4
    && s.ppc == ParentAt(n, p) && s.sent == SentAfter(n, p)
    && ChildAt(n, c, Got(s), s.cpc)
  }

  lemma ParentFollows(cfg: Config, p: nat, c: nat, s: State)
    requires Follows(cfg, p, c, s) && ParentNext(cfg, s).Some?
    ensures Follows(cfg, p + 1, c, ParentNext(cfg, s).value)
  {
    var t := ParentNext(cfg, s).value;
    ParentKeepsInv(cfg, s);
    assert t.cpc == s.cpc && Got(t) == Got(s);
    assert t.ppc == ParentAt(|cfg.arg|, p + 1) && t.sent == SentAfter(|cfg.arg|, p + 1);
  }

  lemma ChildFollows(cfg: Config, p: nat, c: nat, s: State)
    requires Follows(cfg, p, c, s) && ChildNext(cfg, s).Some?
    ensures Follows(cfg, p, c + 1, ChildNext(cfg, s).value)
  {
    ChildKeepsInv(cfg, s);
  }

  lemma StepFollows(cfg: Config, acts: seq<Who>, s: State, who: Who)
    requires Follows(cfg, Picks(acts, Parent), Picks(acts, Child), s) && Next(cfg, s, who).Some?
    ensures Follows(cfg, Picks(acts + [who], Parent), Picks(acts + [who], Child), Next(cfg, s, who).value)
  {
    PicksSnoc(acts, who, Parent);
    PicksSnoc(acts, who, Child);
    if who.Parent? {
      ParentFollows(cfg, Picks(acts, Parent), Picks(acts, Child), s);
    } else {
      ChildFollows(cfg, Picks(acts, Parent), Picks(acts, Child), s);
    }
  }

  lemma RunFollows(cfg: Config)
    ensures Ties(Sys(cfg), INIT, (past: seq<Who>, t) => Follows(cfg, Picks(past, Parent), Picks(past, Child), t))
  {
    var tie := (past: seq<Who>, t) => Follows(cfg, Picks(past, Parent), Picks(past, Child), t);
    forall past, t, who: Who | tie(past, t) && Sys(cfg)(t, who).Some?
      ensures tie(past + [who], Sys(cfg)(t, who).value)
    {
      StepFollows(cfg, past, t, who);
    }
    var none: seq<Who> := [];
    assert Picks(none, Parent) == 0 && Picks(none, Child) == 0;
    KeepsAlong(Sys(cfg), tie, INIT);
  }

  /** For every schedule the output depends only on how many steps the child has made. */
  lemma OutputFollowsTheChild(cfg: Config, acts: seq<Who>, e: State)
    requires Exec(Sys(cfg), INIT, acts) == Some(e)
    ensures e.out == OutAfter(cfg, Picks(acts, Child))
  {
    RunFollows(cfg);
    assert cfg.arg[..|cfg.arg|] == cfg.arg;
    assert cfg.greeting + cfg.arg[..0] == cfg.greeting;
  }

  lemma ReadsAreCounted(cfg: Config, p: nat, c: nat, s: State)
    requires Follows(cfg, p, c, s)
    ensures Got(s) == GotAfter(|cfg.arg|, c) && c <= 2 * |cfg.arg| + 5
    ensures s.cpc.CRead? <==> 2 <= c <= 2 * |cfg.arg| + 2 && c % 2 == 0
  {
  }

  lemma ParentCan(cfg: Config, p: nat, c: nat, s: State)
    requires Follows(cfg, p, c, s)
    ensures var n := |cfg.arg|;
            ParentNext(cfg, s).Some? <==> p <= n + 3 && (1 <= p <= n ==> p - 1 - GotAfter(n, c) < cfg.cap)
                                          && (p == n + 3 ==> c == 2 * n + 5)
  {
    ReadsAreCounted(cfg, p, c, s);
    assert s.cpc.CExited? <==> c == 2 * |cfg.arg| + 5;
  }

  lemma ChildCan(cfg: Config, p: nat, c: nat, s: State)
    requires Follows(cfg, p, c, s)
    ensures var n := |cfg.arg|;
            ChildNext(cfg, s).Some?
            <==> c <= 2 * n + 4 && (2 <= c <= 2 * n && c % 2 == 0 ==> SentAfter(n, p) > (c - 2) / 2)
                 && (c == 2 * n + 2 ==> cfg.closes && p >= n + 3)
  {
    ReadsAreCounted(cfg, p, c, s);
    assert s.cpc.CExited? <==> c == 2 * |cfg.arg| + 5;
    if s.cpc.CRead? {
      assert Got(s) == (c - 2) / 2;
      assert s.pipe != [] <==> SentAfter(|cfg.arg|, p) > (c - 2) / 2;
    }
  }

  /** What can come next, from the two counts of steps: the parent writes a byte exactly when the pipe has room,
      returns from waitpid exactly when the child is gone, and is never blocked elsewhere; the child reads a
      byte exactly when one was written and not read, and the end of file exactly when both write ends are
      closed, and is never blocked elsewhere. */
  lemma WhatCanFollow(cfg: Config, acts: seq<Who>)
    requires Exec(Sys(cfg), INIT, acts).Some?
    ensures var n, p, c := |cfg.arg|, Picks(acts, Parent), Picks(acts, Child);
            && (Exec(Sys(cfg), INIT, acts + [Parent]).Some?
                <==> p <= n + 3 && (1 <= p <= n ==> p - 1 - GotAfter(n, c) < cfg.cap)
                     && (p == n + 3 ==> c == 2 * n + 5))
            && (Exec(Sys(cfg), INIT, acts + [Child]).Some?
                <==> c <= 2 * n + 4 && (2 <= c <= 2 * n && c % 2 == 0 ==> SentAfter(n, p) > (c - 2) / 2)
                     && (c == 2 * n + 2 ==> cfg.closes && p >= n + 3))
  {
    RunFollows(cfg);
    var e := Exec(Sys(cfg), INIT, acts).value;
    ParentCan(cfg, Picks(acts, Parent), Picks(acts, Child), e);
    ChildCan(cfg, Picks(acts, Parent), Picks(acts, Child), e);
    ExecSnoc(Sys(cfg), INIT, acts, Parent);
    ExecSnoc(Sys(cfg), INIT, acts, Child);
  }

  // ----- The two processes over one pipe

  class Pipeline {
    const cfg: Config
    var ppc: ParentPc
    var cpc: ChildPc
    var pipe: seq<nat>
    var sent: nat
    var out: seq<nat>
    var parentReads: bool
    var parentWrites: bool
    var childReads: bool
    var childWrites: bool

    ghost function View(): State
      reads this
    {
      State(ppc, cpc, pipe, sent, out, parentReads, parentWrites, childReads, childWrites)
    }

    constructor (cfg: Config)
      ensures View() == INIT && this.cfg == cfg
    {
      this.cfg := cfg;
      ppc, cpc, pipe, sent, out := PCloseRead, CCloseWrite, [], 0, [];
      parentReads, parentWrites, childReads, childWrites := true, true, true, true;
    }

    method ParentStep() returns (ran: bool)
      modifies this
      ensures var next := ParentNext(cfg, old(View()));
              ran == next.Some? && View() == if ran then next.value else old(View())
    {
      ran := true;
      match ppc {
        case PCloseRead =>
          parentReads, ppc := false, PWrite;
        case PWrite =>
          if sent >= |cfg.arg| {
            ppc := PCloseWrite;
          } else if !parentReads && !childReads {
            parentWrites, ppc := false, PKilled;
          } else if |pipe| < cfg.cap {
            pipe := pipe + [cfg.arg[sent]];
            sent := sent + 1;
          } else {
            ran := false;
          }
        case PCloseWrite =>
          parentWrites, ppc := false, PWaitpid;
        case PWaitpid =>
          if cpc.CExited? { ppc := PExited; } else { ran := false; }
        case PExited | PKilled =>
          ran := false;
      }
    }

    method ChildStep() returns (ran: bool)
      modifies this
      ensures var next := ChildNext(cfg, old(View()));
              ran == next.Some? && View() == if ran then next.value else old(View())
    {
      ran := true;
      match cpc {
        case CCloseWrite =>
          childWrites, cpc := !cfg.closes, CGreet;
        case CGreet =>
          out, cpc := out + cfg.greeting, CRead;
        case CRead =>
          if pipe != [] {
            cpc, pipe := CEcho(pipe[0]), pipe[1..];
          } else if !parentWrites && !childWrites {
            cpc := CNewline;
          } else {
            ran := false;
          }
        case CEcho(buf) =>
          out, cpc := out + [buf], CRead;
        case CNewline =>
          out, cpc := out + [NEWLINE], CCloseRead;
        case CCloseRead =>
          childReads, childWrites, cpc := false, false, CExited;
        case CExited =>
          ran := false;
      }
    }
  }
}
