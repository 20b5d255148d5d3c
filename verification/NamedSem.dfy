/**
 thread_test/named_sem_no_unlink.c, named_sem_count.c and named_sem_bin.c: three programs that open the same
 name "/named_sem", fork, and let father and son meet at the semaphore.  What one run leaves under the name
 is what the next run finds: O_CREAT only uses the initial value when the name is absent.
 */
module NamedSem {
  import opened Runs
  import Race = RaceCounter

  datatype Program = NoUnlink | Count | Bin

  /** The value of the semaphore bound to the name, or None when the name is absent. */
  type Table = Option<nat>

  datatype Who = Father | Son

  /** Say is the father's or the son's printf; Load and Store are the two halves of the increment in Bin. */
  datatype Pc = Wait | Say | Load | Store(tmp: nat) | Post | Reap | Clean | Gone

  datatype Line = SonLine | FatherLine | ValueLine(value: nat)

  datatype State = State(program: Program, father: Pc, son: Pc, sem: nat, bound: bool, value: nat, lines: seq<Line>)

  /** sem_open and fork. */
  function Start(p: Program, t: Table): State
  {
    State(p, Wait, if p.Bin? then Wait else Say,
          if t.Some? then t.value else if p.Bin? then 1 else 0, true, 0, [])
  }

  /** The steps both processes of Bin share: wait, load, store, post. */
  function Critical(s: State, pc: Pc, after: Pc): Option<(State, Pc)>
  {
    match pc
    case Wait => if s.sem > 0 then Some((s.(sem := s.sem - 1), Load)) else None
    case Load => Some((s, Store(s.value + 1)))
    case Store(tmp) => Some((s.(value := tmp), Post))
    case Post => Some((s.(sem := s.sem + 1), after))
    case _ => None
  }

  function FatherNext(s: State): Option<State>
  {
    if s.father.Reap? then
      if !s.son.Gone? then None
      else Some(s.(father := Clean, lines := s.lines + if s.program.Bin? then [ValueLine(s.value)] else []))
    else if s.father.Clean? then Some(s.(father := Gone, bound := s.program.NoUnlink?))
    else if s.program.Bin? then
      match Critical(s, s.father, Reap)
      case None => None
      case Some((t, next)) => Some(t.(father := next))
    else match s.father
         case Wait => if s.sem > 0 then Some(s.(sem := s.sem - 1, father := Say)) else None
         case Say => Some(s.(father := Reap, lines := s.lines + [FatherLine]))
         case _ => None
  }

  function SonNext(s: State): Option<State>
  {
    if s.program.Bin? then
      match Critical(s, s.son, Gone)
      case None => None
      case Some((t, next)) => Some(t.(son := next))
    else match s.son
         case Say => Some(s.(son := Post, lines := s.lines + [SonLine]))
         case Post => Some(s.(sem := s.sem + 1, son := Gone))
         case _ => None
  }

  function Next(s: State, who: Who): Option<State>
  {
    if who.Father? then FatherNext(s) else SonNext(s)
  }

  ghost predicate Complete(s: State)
  {
    s.father.Gone? && s.son.Gone?
  }

  /** What the run leaves under the name. */
  function Leaves(s: State): Table
  {
    if s.bound then Some(s.sem) else None
  }

  // ----- The two ordering programs

  function Posted(pc: Pc): nat { if pc.Gone? then 1 else 0 }

  /** From a semaphore at `v`: it counts the son's post and the father's wait. */
  ghost predicate OrderInv(p: Program, v: nat, s: State)
  {
    && s.program == p && !p.Bin?
    && (s.son.Say? || s.son.Post? || s.son.Gone?)
    && (s.father.Wait? || s.father.Say? || s.father.Reap? || s.father.Clean? || s.father.Gone?)
    && s.sem + (if s.father.Wait? then 0 else 1) == v + Posted(s.son)
    && (s.father.Clean? || s.father.Gone? ==> s.son.Gone?)
    && (s.bound <==> !s.father.Gone? || p.NoUnlink?)
    && (v == 0 ==> s.lines == (if s.son.Say? then [] else [SonLine])
                              + (if s.father.Wait? || s.father.Say? then [] else [FatherLine]))
  }

  lemma OrderKept(p: Program, v: nat, s: State, who: Who)
    requires OrderInv(p, v, s) && Next(s, who).Some?
    ensures OrderInv(p, v, Next(s, who).value)
  {
  }

  lemma OrderReachable(p: Program, t: Table)
    requires !p.Bin?
    ensures Always(Next, Start(p, t), s => OrderInv(p, if t.Some? then t.value else 0, s))
  {
    var v := if t.Some? then t.value else 0;
    forall u, who | OrderInv(p, v, u) && Next(u, who).Some? ensures OrderInv(p, v, Next(u, who).value) {
      OrderKept(p, v, u, who);
    }
    Invariant(Next, u => OrderInv(p, v, u), Start(p, t));
  }

  /** The son's line precedes the father's in every run if and only if the semaphore found is at 0. */
  lemma SonFirstIffZero(p: Program, t: Table)
    requires !p.Bin?
    ensures (forall s :: Reaches(Next, Start(p, t), s) && FatherLine in s.lines ==>
                           s.lines != [] && s.lines[0] == SonLine)
            <==> (t.Some? ==> t.value == 0)
  {
    var start := Start(p, t);
    if t.Some? && t.value > 0 {
      ReachesSelf(Next, start);
      ReachesStep(Next, start, start, Father);
      var s1 := start.(sem := start.sem - 1, father := Say);
      assert Next(start, Father) == Some(s1);
      ReachesStep(Next, start, s1, Father);
      var s2 := s1.(father := Reap, lines := [FatherLine]);
      assert s1.lines + [FatherLine] == s2.lines;
      assert Next(s1, Father) == Some(s2);
      assert FatherLine in s2.lines && s2.lines[0] != SonLine;
    } else {
      forall s | Reaches(Next, start, s) && FatherLine in s.lines ensures s.lines != [] && s.lines[0] == SonLine {
        OrderReachable(p, t);
      }
    }
  }

  // ----- The locked program

  predicate InCritical(pc: Pc) { pc.Load? || pc.Store? || pc.Post? }

  function Added(pc: Pc): nat { if pc.Wait? || pc.Load? || pc.Store? then 0 else 1 }

  ghost predicate BinInv(s: State)
  {
    && s.program.Bin?
    && (s.son.Wait? || InCritical(s.son) || s.son.Gone?) && !s.father.Say?
    && s.sem + (if InCritical(s.father) then 1 else 0) + (if InCritical(s.son) then 1 else 0) == 1
    && s.value == Added(s.father) + Added(s.son)
    && (s.father.Store? ==> s.father.tmp == s.value + 1) && (s.son.Store? ==> s.son.tmp == s.value + 1)
    && (s.father.Clean? || s.father.Gone? ==> s.son.Gone?)
    && (s.bound <==> !s.father.Gone?)
    && s.lines == if s.father.Clean? || s.father.Gone? then [ValueLine(2)] else []
  }

  lemma BinFatherKept(s: State)
    requires BinInv(s) && FatherNext(s).Some?
    ensures BinInv(FatherNext(s).value)
  {
  }

  lemma BinSonKept(s: State)
    requires BinInv(s) && SonNext(s).Some?
    ensures BinInv(SonNext(s).value)
  {
  }

  lemma BinReachable()
    ensures Always(Next, Start(Bin, None), s => BinInv(s))
  {
    forall u, who | BinInv(u) && Next(u, who).Some? ensures BinInv(Next(u, who).value) {
      if who.Father? { BinFatherKept(u); } else { BinSonKept(u); }
    }
    Invariant(Next, u => BinInv(u), Start(Bin, None));
  }

  // ----- One run, from what the last one left

  /** How many steps a process has before it. */
  function Ahead(pc: Pc): nat
  {
    match pc
    case Wait => 6
    case Load => 5
    case Say => 4
    case Store(_) => 4
    case Post => 3
    case Reap => 2
    case Clean => 1
    case Gone => 0
  }

  lemma StepGoesAhead(s: State, who: Who)
    requires Next(s, who).Some?
    ensures var t := Next(s, who).value; Ahead(t.father) + Ahead(t.son) < Ahead(s.father) + Ahead(s.son)
  {
  }

  lemma RunsAreShort(s: State, acts: seq<Who>)
    requires Exec(Next, s, acts).Some?
    ensures |acts| <= Ahead(s.father) + Ahead(s.son)
  {
    forall t, who | Next(t, who).Some?
      ensures var u := Next(t, who).value; Ahead(u.father) + Ahead(u.son) < Ahead(t.father) + Ahead(t.son)
    {
      StepGoesAhead(t, who);
    }
    Bounded(Next, _ => true, (t: State) => Ahead(t.father) + Ahead(t.son), s, acts);
  }

  /** The tables that runs leave: the name is absent or bound to 0. */
  predicate Settled(t: Table)
  {
    t.Some? ==> t.value == 0
  }

  /** Bin finds the semaphore that NoUnlink left at 0. */
  predicate Hangs(p: Program, t: Table)
  {
    p.Bin? && t.Some?
  }

  /** Whoever is in the section can go on; with nobody there the semaphore is at 1. */
  lemma BinCanStep(s: State)
    requires BinInv(s) && !Complete(s)
    ensures Next(s, Father).Some? || Next(s, Son).Some?
  {
    if s.son.Wait? || InCritical(s.son) {
      if !InCritical(s.father) || InCritical(s.son) {
        assert SonNext(s).Some?;
      } else {
        assert FatherNext(s).Some?;
      }
    } else {
      assert FatherNext(s).Some?;
    }
  }

  lemma BinStuckIffComplete(s: State)
    requires BinInv(s)
    ensures Stuck(Next, s) <==> Complete(s)
  {
    if Complete(s) {
      assert FatherNext(s).None? && SonNext(s).None?;
    } else {
      BinCanStep(s);
    }
  }

  /** On a settled table the ordering programs end in order. */
  lemma OrderRun(p: Program, t: Table, e: State)
    requires !p.Bin? && Settled(t) && Reaches(Next, Start(p, t), e)
    ensures Stuck(Next, e) <==> Complete(e)
    ensures Complete(e) ==> Leaves(e) == (if p.NoUnlink? then Some(0) else None) && e.lines == [SonLine, FatherLine]
  {
    OrderReachable(p, t);
    assert Complete(e) || Next(e, Father).Some? || Next(e, Son).Some?;
  }

  /** On an absent name the locked program counts both. */
  lemma BinRun(e: State)
    requires Reaches(Next, Start(Bin, None), e)
    ensures Stuck(Next, e) <==> Complete(e)
    ensures Complete(e) ==> Leaves(e) == None && e.lines == [ValueLine(2)]
  {
    BinReachable();
    BinStuckIffComplete(e);
  }

  lemma HangingRun(t: Table, acts: seq<Who>)
    requires Settled(t) && Hangs(Bin, t) && Exec(Next, Start(Bin, t), acts).Some?
    ensures acts == [] && Stuck(Next, Start(Bin, t))
  {
    assert Next(Start(Bin, t), Father).None? && Next(Start(Bin, t), Son).None?;
  }

  /** Every run has at most 12 steps and cannot go on only when it is complete, with its lines in order and
      its table settled again - except that Bin, on a name left behind, cannot make a single step. */
  lemma OneRun(p: Program, t: Table, acts: seq<Who>)
    requires Settled(t) && Exec(Next, Start(p, t), acts).Some?
    ensures |acts| <= 12
    ensures var e := Exec(Next, Start(p, t), acts).value;
            if Hangs(p, t) then
              acts == [] && Stuck(Next, e) && !Complete(e)
            else
              && (Stuck(Next, e) <==> Complete(e))
              && (Complete(e) ==> Leaves(e) == if p.NoUnlink? then Some(0) else None)
              && (Complete(e) ==> e.lines == if p.Bin? then [ValueLine(2)] else [SonLine, FatherLine])
  {
    var e := Exec(Next, Start(p, t), acts).value;
    assert Reaches(Next, Start(p, t), e);
    RunsAreShort(Start(p, t), acts);
    if Hangs(p, t) {
      HangingRun(t, acts);
    } else if p.Bin? {
      BinRun(e);
    } else {
      OrderRun(p, t, e);
    }
  }

  // ----- Any sequence of runs

  /** The schedule completes program `p`, started on table `t`, and leaves `u`. */
  ghost predicate CompletesBy(p: Program, t: Table, acts: seq<Who>, u: Table)
  {
    var e := Exec(Next, Start(p, t), acts);
    e.Some? && Complete(e.value) && Leaves(e.value) == u
  }

  ghost predicate Completes(p: Program, t: Table, u: Table)
  {
    exists acts :: CompletesBy(p, t, acts, u)
  }

  /** The programs run one after the other, each to completion; `tables` are what lies under the name before,
      between and after the runs. */
  ghost predicate Session(programs: seq<Program>, tables: seq<Table>)
  {
    && |tables| == |programs| + 1 && tables[0] == None
    && forall k :: 0 <= k < |programs| ==> Completes(programs[k], tables[k], tables[k + 1])
  }

  /** However far a run on a settled table has come, if it does not hang it can be completed. */
  lemma {:induction false} CanComplete(p: Program, t: Table, acts: seq<Who>)
    requires Settled(t) && !Hangs(p, t) && Exec(Next, Start(p, t), acts).Some?
    ensures exists more :: CompletesBy(p, t, acts + more, if p.NoUnlink? then Some(0) else None)
    decreases 12 - |acts|
  {
    OneRun(p, t, acts);
    var u: Table := if p.NoUnlink? then Some(0) else None;
    var e := Exec(Next, Start(p, t), acts).value;
    var none: seq<Who> := [];
    if Complete(e) {
      assert acts + none == acts;
      assert CompletesBy(p, t, acts + none, u);
    } else {
      var who :| Next(e, who).Some?;
      ExecAppend(Next, Start(p, t), acts, [who]);
      ExecCons(Next, e, who, none);
      assert [who] + none == [who];
      OneRun(p, t, acts + [who]);
      CanComplete(p, t, acts + [who]);
      var more :| CompletesBy(p, t, acts + [who] + more, u);
      assert acts + [who] + more == acts + ([who] + more);
    }
  }

  lemma CompletedRun(p: Program, t: Table, u: Table)
    requires Settled(t)
    ensures Completes(p, t, u) ==> !Hangs(p, t) && u == if p.NoUnlink? then Some(0) else None
  {
    if acts :| CompletesBy(p, t, acts, u) {
      OneRun(p, t, acts);
    }
  }

  /** From an absent name, after any completed runs the name is absent, or bound to 0 just when the last run was
      NoUnlink; and the next run hangs - it cannot complete, and cannot even start - exactly when it is Bin
      right after NoUnlink. */
  lemma {:induction false} Sessions(programs: seq<Program>, tables: seq<Table>, k: nat, p: Program)
    requires Session(programs, tables) && k <= |programs|
    ensures tables[k] == if k > 0 && programs[k - 1].NoUnlink? then Some(0) else None
    ensures (forall v :: !Completes(p, tables[k], v)) <==> p.Bin? && k > 0 && programs[k - 1].NoUnlink?
    ensures Stuck(Next, Start(p, tables[k])) <==> p.Bin? && k > 0 && programs[k - 1].NoUnlink?
    decreases k
  {
    if k > 0 {
      Sessions(programs, tables, k - 1, p);
      CompletedRun(programs[k - 1], tables[k - 1], tables[k]);
    }
    var none: seq<Who> := [];
    assert Exec(Next, Start(p, tables[k]), none) == Some(Start(p, tables[k]));
    OneRun(p, tables[k], none);
    forall v { CompletedRun(p, tables[k], v); }
    if !Hangs(p, tables[k]) {
      CanComplete(p, tables[k], none);
      var u: Table := if p.NoUnlink? then Some(0) else None;
      var more :| CompletesBy(p, tables[k], none + more, u);
      assert Completes(p, tables[k], u);
    }
  }

  // ----- What a schedule determines, whatever is found under the name

  function Picks(acts: seq<Who>, who: Who): nat { CountIf((w: Who) => w == who, acts) }

  lemma PicksSnoc(acts: seq<Who>, w: Who, who: Who)
    ensures Picks(acts + [w], who) == Picks(acts, who) + if w == who then 1 else 0
  {
    CountSnoc((x: Who) => x == who, acts, w);
  }

  /** How many steps a process has made when it stands here. */
  function FatherStage(p: Program, pc: Pc): int
  {
    match pc
    case Wait => 0
    case Say => if p.Bin? then -1 else 1
    case Load => if p.Bin? then 1 else -1
    case Store(_) => if p.Bin? then 2 else -1
    case Post => if p.Bin? then 3 else -1
    case Reap => if p.Bin? then 4 else 2
    case Clean => if p.Bin? then 5 else 3
    case Gone => if p.Bin? then 6 else 4
  }

  function SonStage(p: Program, pc: Pc): int
  {
    match pc
    case Wait => if p.Bin? then 0 else -1
    case Say => if p.Bin? then -1 else 0
    case Load => if p.Bin? then 1 else -1
    case Store(_) => if p.Bin? then 2 else -1
    case Post => if p.Bin? then 3 else 1
    case Reap | Clean => -1
    case Gone => if p.Bin? then 4 else 2
  }

  /** What the semaphore is at: its first value, less the permits taken, more those given, after `f` steps of the
      father and `c` of the son. */
  function Permits(p: Program, t: Table, f: nat, c: nat): int
  {
    var first := if t.Some? then t.value else if p.Bin? then 1 else 0;
    if p.Bin? then first - (if 1 <= f <= 3 then 1 else 0) - (if 1 <= c <= 3 then 1 else 0)
    else first - (if f >= 1 then 1 else 0) + (if c == 2 then 1 else 0)
  }

  /** The lines the steps of a schedule print; `value` is what the locked program's counter is then. */
  function Printed(p: Program, acts: seq<Who>): seq<Line>
  {
    if acts == [] then []
    else
      var past, who := acts[..|acts| - 1], acts[|acts| - 1];
      Printed(p, past)
      + if p.Bin? && who.Father? && Picks(past, Father) == 4 then [ValueLine(Race.Chain(Accesses(past)))]
        else if !p.Bin? && who.Father? && Picks(past, Father) == 1 then [FatherLine]
        else if !p.Bin? && who.Son? && Picks(past, Son) == 0 then [SonLine] else []
  }

  function Id(who: Who): nat { if who.Father? then 0 else 1 }

  /** The loads and stores of the locked program: each process's second and third step. */
  function Accesses(acts: seq<Who>): seq<nat>
  {
    if acts == [] then []
    else
      var past, who := acts[..|acts| - 1], acts[|acts| - 1];
      Accesses(past) + if Picks(past, who) == 1 || Picks(past, who) == 2 then [Id(who)] else []
  }

  function ProjectPc(pc: Pc): Race.Phase
  {
    match pc case Wait | Load => Race.Ready case Store(tmp) => if tmp > 0 then Race.Loaded(tmp - 1) else Race.Ready
             case _ => Race.Finished
  }

  function Project(s: State): Race.State
  {
    Race.State(s.value, [ProjectPc(s.father), ProjectPc(s.son)])
  }

  /** Where the two processes and the semaphore are after `f` and `c` steps. */
  ghost predicate Stands(p: Program, t: Table, f: nat, c: nat, s: State)
  {
    && s.program == p && FatherStage(p, s.father) == f && SonStage(p, s.son) == c
    && s.sem == Permits(p, t, f, c)
    && (s.father.Clean? || s.father.Gone? ==> s.son.Gone?)
    && (s.bound <==> !s.father.Gone? || p.NoUnlink?)
  }

  ghost predicate Follows(p: Program, t: Table, acts: seq<Who>, s: State)
  {
    Stands(p, t, Picks(acts, Father), Picks(acts, Son), s) && s.lines == Printed(p, acts)
  }

  ghost predicate ValueFollows(acts: seq<Who>, s: State)
  {
    && RegistersOk(s)
    && Exec(Race.Next, Race.Init(2), Accesses(acts)) == Some(Project(s))
    && s.value == Race.Chain(Accesses(acts))
  }

  function PcOf(s: State, who: Who): Pc { if who.Father? then s.father else s.son }

  ghost predicate RegistersOk(s: State)
  {
    && (s.father.Store? ==> s.father.tmp > 0) && (s.son.Store? ==> s.son.tmp > 0)
  }

  /** A load or a store is an access of the unlocked counter, any other step is none. */
  lemma StepProjects(s: State, who: Who)
    requires s.program.Bin? && RegistersOk(s) && Next(s, who).Some?
    ensures var u := Next(s, who).value;
            && RegistersOk(u)
            && if PcOf(s, who).Load? || PcOf(s, who).Store? then Race.Next(Project(s), Id(who)) == Some(Project(u))
               else Project(u) == Project(s)
  {
    var u := Next(s, who).value;
    if who.Father? {
      assert Project(u).threads == Project(s).threads[0 := ProjectPc(u.father)];
    } else {
      assert Project(u).threads == Project(s).threads[1 := ProjectPc(u.son)];
    }
  }

  lemma AccessesSnoc(acts: seq<Who>, who: Who)
    ensures Accesses(acts + [who])
            == Accesses(acts) + if Picks(acts, who) == 1 || Picks(acts, who) == 2 then [Id(who)] else []
  {
    assert (acts + [who])[..|acts|] == acts;
  }

  lemma StepFollowsValue(acts: seq<Who>, s: State, who: Who)
    requires s.program.Bin? && ValueFollows(acts, s) && Next(s, who).Some?
    requires PcOf(s, who).Load? || PcOf(s, who).Store? <==> Picks(acts, who) == 1 || Picks(acts, who) == 2
    ensures ValueFollows(acts + [who], Next(s, who).value)
  {
    var u := Next(s, who).value;
    AccessesSnoc(acts, who);
    StepProjects(s, who);
    if PcOf(s, who).Load? || PcOf(s, who).Store? {
      ExecSnoc(Race.Next, Race.Init(2), Accesses(acts), Id(who));
      Race.CellIsChain(2, Accesses(acts) + [Id(who)], Project(u));
    } else {
      assert Accesses(acts) + [] == Accesses(acts);
    }
  }

  lemma FatherStands(p: Program, t: Table, f: nat, c: nat, s: State)
    requires Stands(p, t, f, c, s) && FatherNext(s).Some?
    ensures Stands(p, t, f + 1, c, FatherNext(s).value)
    ensures FatherNext(s).value.lines == s.lines + if p.Bin? && f == 4 then [ValueLine(s.value)]
                                                   else if !p.Bin? && f == 1 then [FatherLine] else []
  {
    if p.Bin? {
      assert !s.father.Say?;
    } else {
      assert s.father.Wait? || s.father.Say? || s.father.Reap? || s.father.Clean? || s.father.Gone?;
    }
  }

  lemma SonStands(p: Program, t: Table, f: nat, c: nat, s: State)
    requires Stands(p, t, f, c, s) && SonNext(s).Some?
    ensures Stands(p, t, f, c + 1, SonNext(s).value)
    ensures SonNext(s).value.lines == s.lines + if !p.Bin? && c == 0 then [SonLine] else []
  {
    if p.Bin? {
      assert s.son.Wait? || InCritical(s.son) || s.son.Gone?;
    } else {
      assert s.son.Say? || s.son.Post? || s.son.Gone?;
    }
  }

  lemma PrintedSnoc(p: Program, acts: seq<Who>, who: Who)
    ensures Printed(p, acts + [who])
            == Printed(p, acts)
               + if p.Bin? && who.Father? && Picks(acts, Father) == 4 then [ValueLine(Race.Chain(Accesses(acts)))]
                 else if !p.Bin? && who.Father? && Picks(acts, Father) == 1 then [FatherLine]
                 else if !p.Bin? && who.Son? && Picks(acts, Son) == 0 then [SonLine] else []
  {
    assert (acts + [who])[..|acts|] == acts;
  }

  lemma StepFollows(p: Program, t: Table, acts: seq<Who>, s: State, who: Who)
    requires Follows(p, t, acts, s) && (p.Bin? ==> s.value == Race.Chain(Accesses(acts))) && Next(s, who).Some?
    ensures Follows(p, t, acts + [who], Next(s, who).value)
  {
    PicksSnoc(acts, who, Father);
    PicksSnoc(acts, who, Son);
    PrintedSnoc(p, acts, who);
    if who.Father? {
      FatherStands(p, t, Picks(acts, Father), Picks(acts, Son), s);
    } else {
      SonStands(p, t, Picks(acts, Father), Picks(acts, Son), s);
    }
  }

  lemma RunFollows(p: Program, t: Table)
    ensures Ties(Next, Start(p, t), (past, s) => Follows(p, t, past, s) && (p.Bin? ==> ValueFollows(past, s)))
  {
    var tie := (past, s) => Follows(p, t, past, s) && (p.Bin? ==> ValueFollows(past, s));
    forall past, s, who | tie(past, s) && Next(s, who).Some? ensures tie(past + [who], Next(s, who).value) {
      StepFollows(p, t, past, s, who);
      if p.Bin? {
        assert PcOf(s, who).Load? || PcOf(s, who).Store? <==> Picks(past, who) == 1 || Picks(past, who) == 2;
        StepFollowsValue(past, s, who);
      }
    }
    var none: seq<Who> := [];
    assert Picks(none, Father) == 0 && Picks(none, Son) == 0;
    assert Project(Start(Bin, t)) == Race.Init(2);
    KeepsAlong(Next, tie, Start(p, t));
  }

  /** For every table and schedule: the lines printed, what is left under the name, and the locked program's
      counter, which is the chain of windows back from its last store. */
  lemma ScheduleDecides(p: Program, t: Table, acts: seq<Who>, e: State)
    requires Exec(Next, Start(p, t), acts) == Some(e)
    ensures e.lines == Printed(p, acts) && (p.Bin? ==> e.value == Race.Chain(Accesses(acts)))
    ensures var f, c := Picks(acts, Father), Picks(acts, Son);
            && (Leaves(e).Some? <==> f < (if p.Bin? then 6 else 4) || p.NoUnlink?)
            && (Leaves(e).Some? ==> Leaves(e).value == Permits(p, t, f, c))
  {
    RunFollows(p, t);
  }

  lemma FatherCan(p: Program, t: Table, f: nat, c: nat, s: State)
    requires Stands(p, t, f, c, s)
    ensures FatherNext(s).Some? <==> && f < (if p.Bin? then 6 else 4) && (f == 0 ==> s.sem > 0)
                                     && (f == (if p.Bin? then 4 else 2) ==> c == if p.Bin? then 4 else 2)
  {
    assert s.son.Gone? <==> c == if p.Bin? then 4 else 2;
    assert s.father.Reap? <==> f == if p.Bin? then 4 else 2;
  }

  lemma SonCan(p: Program, t: Table, f: nat, c: nat, s: State)
    requires Stands(p, t, f, c, s)
    ensures SonNext(s).Some? <==> c < (if p.Bin? then 4 else 2) && (p.Bin? && c == 0 ==> s.sem > 0)
  {
  }

  /** What can come next, from the two counts of steps: a process is blocked only at a wait, exactly while the
      semaphore is at 0, and the father at its waitpid, exactly while the son is not gone. */
  lemma WhatCanFollow(p: Program, t: Table, acts: seq<Who>)
    requires Exec(Next, Start(p, t), acts).Some?
    ensures var f, c := Picks(acts, Father), Picks(acts, Son);
            && (Exec(Next, Start(p, t), acts + [Father]).Some?
                <==> f < (if p.Bin? then 6 else 4) && (f == 0 ==> Permits(p, t, f, c) > 0)
                     && (f == (if p.Bin? then 4 else 2) ==> c == if p.Bin? then 4 else 2))
            && (Exec(Next, Start(p, t), acts + [Son]).Some?
                <==> c < (if p.Bin? then 4 else 2) && (p.Bin? && c == 0 ==> Permits(p, t, f, c) > 0))
  {
    RunFollows(p, t);
    var e := Exec(Next, Start(p, t), acts).value;
    FatherCan(p, t, Picks(acts, Father), Picks(acts, Son), e);
    SonCan(p, t, Picks(acts, Father), Picks(acts, Son), e);
    ExecSnoc(Next, Start(p, t), acts, Father);
    ExecSnoc(Next, Start(p, t), acts, Son);
  }

  // ----- The semaphore that outlives the programs

  /** The system the programs run on: the semaphore, whether the name is bound to it, and the current run. */
  class System {
    var program: Program
    var father: Pc
    var son: Pc
    var sem: nat
    var bound: bool
    var value: nat
    var lines: seq<Line>

    ghost function View(): State
      reads this
    {
      State(program, father, son, sem, bound, value, lines)
    }

    /** Nothing under the name, nothing running. */
    constructor ()
      ensures Complete(View()) && Leaves(View()) == None
    {
      program, father, son, sem, bound, value, lines := Count, Gone, Gone, 0, false, 0, [];
    }

    /** sem_open with O_CREAT and fork; one run at a time, so it is refused while the last one is going. */
    method Launch(p: Program) returns (ran: bool)
      modifies this
      ensures ran == old(father.Gone? && son.Gone?)
      ensures View() == if ran then Start(p, old(Leaves(View()))) else old(View())
    {
      ran := father.Gone? && son.Gone?;
      if ran {
        if !bound {
          sem := if p.Bin? then 1 else 0;
        }
        program, father, son := p, Wait, if p.Bin? then Wait else Say;
        bound, value, lines := true, 0, [];
      }
    }

    method FatherStep() returns (ran: bool)
      modifies this
      ensures var next := FatherNext(old(View()));
              ran == next.Some? && View() == if ran then next.value else old(View())
    {
      ran := true;
      match father {
        case Wait =>
          if sem > 0 {
            sem, father := sem - 1, if program.Bin? then Load else Say;
          } else {
            ran := false;
          }
        case Say =>
          if program.Bin? {
            ran := false;
          } else {
            lines, father := lines + [FatherLine], Reap;
          }
        case Load =>
          if program.Bin? { father := Store(value + 1); } else { ran := false; }
        case Store(tmp) =>
          if program.Bin? { value, father := tmp, Post; } else { ran := false; }
        case Post =>
          if program.Bin? { sem, father := sem + 1, Reap; } else { ran := false; }
        case Reap =>
          if son.Gone? {
            if program.Bin? { lines := lines + [ValueLine(value)]; }
            father := Clean;
          } else {
            ran := false;
          }
        case Clean =>
          bound, father := program.NoUnlink?, Gone;
        case Gone =>
          ran := false;
      }
    }

    method SonStep() returns (ran: bool)
      modifies this
      ensures var next := SonNext(old(View()));
              ran == next.Some? && View() == if ran then next.value else old(View())
    {
      ran := true;
      match son {
        case Wait =>
          if program.Bin? && sem > 0 { sem, son := sem - 1, Load; } else { ran := false; }
        case Say =>
          if program.Bin? { ran := false; } else { lines, son := lines + [SonLine], Post; }
        case Load =>
          if program.Bin? { son := Store(value + 1); } else { ran := false; }
        case Store(tmp) =>
          if program.Bin? { value, son := tmp, Post; } else { ran := false; }
        case Post =>
          sem, son := sem + 1, Gone;
        case _ =>
          ran := false;
      }
    }
  }
}
