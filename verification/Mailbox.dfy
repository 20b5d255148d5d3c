/**
 process_test/producer.c and process_test/consumer.c: chunks of the standard input travel through a message
 queue of at most MAXMSG messages.  The producer sends each chunk up to its first NUL; at the end of its
 input it sends the one byte (char)EOF.  The consumer prints every message until one begins with that byte.
 */
module Mailbox {
  import opened Runs

  const MAXMSG := 10
  const BUFSIZE := 100
  const EOF_BYTE := 255

  type Bytes = seq<nat>

  /** PSend holds the chunk that was read, CTest the message that was received, as in the two buffers.  PBroken is
      a producer whose strlen has left its buffer; nothing more is said of what it does. */
  datatype ProducerPc = PRead | PSend(chunk: Bytes) | PSendEnd | PDone | PBroken

  datatype ConsumerPc = CReceive | CTest(msg: Bytes) | CDone

  /** `accepted` are the chunks whose send succeeded (the end marker being [EOF_BYTE]), `ended` says that the
      last of them is the end marker, `received` are the messages taken from the queue. */
  datatype State = State(ppc: ProducerPc, cpc: ConsumerPc, queue: seq<Bytes>, linked: bool, printed: Bytes,
                         accepted: seq<Bytes>, ended: bool, received: seq<Bytes>)

  const INIT := State(PRead, CReceive, [], true, [], [], false, [])

  /** Chunk([]) is the end of the input; Send(false) and Receive(false) are timeouts.  A send times out only on a
      full queue and a receive only on an empty one. */
  datatype Action = Chunk(bytes: Bytes) | Send(ok: bool) | Receive(ok: bool) | Examine

  /** A buffer that was cleared and then received `bytes`. */
  function Fill(bytes: Bytes): Bytes
    requires |bytes| <= BUFSIZE
  {
    bytes + seq(BUFSIZE - |bytes|, _ => 0)
  }

  /** The C string at the start of a buffer: everything before its first NUL. */
  function CString(buf: Bytes): Bytes
  {
    if buf == [] || buf[0] == 0 then [] else [buf[0]] + CString(buf[1..])
  }

  /** The chunks the program can send: a full buffer without a NUL makes strlen leave the array. */
  predicate Sendable(bytes: Bytes)
  {
    |bytes| <= BUFSIZE && (|bytes| < BUFSIZE || 0 in bytes)
  }

  function Transmit(s: State, chunk: Bytes): State
    requires |chunk| <= BUFSIZE
  {
    s.(queue := s.queue + [CString(Fill(chunk))], accepted := s.accepted + [chunk])
  }

  predicate IsMarker(msg: Bytes)
  {
    |msg| > 0 && msg[0] == EOF_BYTE
  }

  function Next(s: State, a: Action): Option<State>
  {
    match a
    case Chunk(bytes) =>
      if !s.ppc.PRead? || |bytes| > BUFSIZE then None
      else Some(s.(ppc := if bytes == [] then PSendEnd else PSend(bytes)))
    case Send(ok) =>
      if ok <==> |s.queue| >= MAXMSG then None
      else (match s.ppc
            case PSend(chunk) =>
              if !Sendable(chunk) then Some(s.(ppc := PBroken))
              else Some((if ok then Transmit(s, chunk) else s).(ppc := PRead))
            case PSendEnd => Some((if ok then Transmit(s, [EOF_BYTE]).(ended := true) else s).(ppc := PDone))
            case _ => None)
    case Receive(ok) =>
      if !s.cpc.CReceive? || (ok <==> s.queue == []) then None
      else if !ok then Some(s)
      else Some(s.(cpc := CTest(s.queue[0]), queue := s.queue[1..], received := s.received + [s.queue[0]]))
    case Examine =>
      if !s.cpc.CTest? || |s.cpc.msg| > BUFSIZE then None
      else if Fill(s.cpc.msg)[0] == EOF_BYTE then Some(s.(cpc := CDone, linked := false))
      else Some(s.(cpc := CReceive, printed := s.printed + CString(Fill(s.cpc.msg))))
  }

  // ----- Messages and what they amount to

  /** Each chunk cut at its first NUL. */
  function Cuts(chunks: seq<Bytes>): seq<Bytes>
  {
    seq(|chunks|, i requires 0 <= i < |chunks| => CString(chunks[i]))
  }

  function Concat(msgs: seq<Bytes>): Bytes
  {
    if msgs == [] then [] else Concat(msgs[..|msgs| - 1]) + msgs[|msgs| - 1]
  }

  ghost predicate NoMarker(msgs: seq<Bytes>)
  {
    forall i :: 0 <= i < |msgs| ==> !IsMarker(msgs[i])
  }

  /** Everything before the first message that begins with the end marker's byte. */
  function UpToMarker(msgs: seq<Bytes>): seq<Bytes>
  {
    if msgs == [] || IsMarker(msgs[0]) then [] else [msgs[0]] + UpToMarker(msgs[1..])
  }

  /** Clearing the buffer first makes the string end where the chunk ends, or at its first NUL. */
  lemma {:induction false} FillThenCString(bytes: Bytes, pad: Bytes)
    requires forall i :: 0 <= i < |pad| ==> pad[i] == 0
    ensures CString(bytes + pad) == CString(bytes)
  {
    if bytes == [] {
      assert bytes + pad == pad;
    } else {
      assert (bytes + pad)[1..] == bytes[1..] + pad;
      FillThenCString(bytes[1..], pad);
    }
  }

  /** The marker is the whole string of its buffer. */
  lemma MarkerInBuffer()
    ensures CString(Fill([EOF_BYTE])) == [EOF_BYTE]
  {
    FillThenCString([EOF_BYTE], seq(BUFSIZE - 1, _ => 0));
  }

  /** The C string of a chunk is the chunk cut at its first NUL. */
  lemma {:induction false} CStringIsCut(chunk: Bytes)
    ensures CString(chunk) <= chunk && 0 !in CString(chunk)
    ensures |CString(chunk)| == |chunk| <==> 0 !in chunk
    ensures |CString(chunk)| < |chunk| ==> chunk[|CString(chunk)|] == 0
    ensures CString(CString(chunk)) == CString(chunk)
    ensures IsMarker(CString(chunk)) <==> IsMarker(chunk)
  {
    if chunk == [] || chunk[0] == 0 {
    } else {
      CStringIsCut(chunk[1..]);
      assert chunk == [chunk[0]] + chunk[1..];
      assert CString(chunk)[1..] == CString(chunk[1..]);
    }
  }

  lemma {:induction false} UpToFirstMarker(before: seq<Bytes>, rest: seq<Bytes>)
    requires NoMarker(before)
    ensures UpToMarker(before + rest) == before + UpToMarker(rest)
  {
    if before == [] {
      assert before + rest == rest;
    } else {
      assert (before + rest)[1..] == before[1..] + rest;
      UpToFirstMarker(before[1..], rest);
    }
  }

  lemma {:induction false} UpToMarkerIsPrefix(msgs: seq<Bytes>)
    ensures UpToMarker(msgs) <= msgs && NoMarker(UpToMarker(msgs))
    ensures |UpToMarker(msgs)| < |msgs| ==> IsMarker(msgs[|UpToMarker(msgs)|])
  {
    if msgs == [] || IsMarker(msgs[0]) {
    } else {
      UpToMarkerIsPrefix(msgs[1..]);
    }
  }

  lemma {:induction false} MarkerStops(msgs: seq<Bytes>, i: nat)
    requires i < |msgs| && IsMarker(msgs[i])
    ensures |UpToMarker(msgs)| <= i
  {
    if IsMarker(msgs[0]) {
    } else {
      MarkerStops(msgs[1..], i - 1);
    }
  }

  lemma {:induction false} ConcatAppend(a: seq<Bytes>, b: seq<Bytes>)
    ensures Concat(a + b) == Concat(a) + Concat(b)
  {
    if b == [] {
      assert a + b == a;
    } else {
      var c := b[..|b| - 1];
      ConcatAppend(a, c);
      assert (a + b)[..|a + b| - 1] == a + c;
      assert Concat(a) + (Concat(c) + b[|b| - 1]) == (Concat(a) + Concat(c)) + b[|b| - 1];
    }
  }

  // ----- What every run keeps

  /** The messages the consumer has finished with. */
  function Examined(s: State): seq<Bytes>
  {
    if s.cpc.CReceive? || s.received == [] then s.received else s.received[..|s.received| - 1]
  }

  ghost predicate Inv(s: State)
  {
    && |s.queue| <= MAXMSG
    && Cuts(s.accepted) == s.received + s.queue
    && (forall i :: 0 <= i < |s.accepted| ==> Sendable(s.accepted[i]))
    && (s.ppc.PSend? ==> |s.ppc.chunk| <= BUFSIZE && s.ppc.chunk != [])
    && (s.ended ==> s.ppc.PDone? && s.accepted != [] && s.accepted[|s.accepted| - 1] == [EOF_BYTE])
    && (s.ppc.PDone? ==> s.ended || |s.accepted| >= MAXMSG)
    && NoMarker(Examined(s)) && s.printed == Concat(Examined(s))
    && (s.cpc.CTest? ==> s.received != [] && s.cpc.msg == s.received[|s.received| - 1])
    && (s.cpc.CDone? ==> s.received != [] && IsMarker(s.received[|s.received| - 1]))
    && (s.linked <==> !s.cpc.CDone?)
  }

  lemma TransmitKeepsQueue(s: State, chunk: Bytes)
    requires Sendable(chunk) && Cuts(s.accepted) == s.received + s.queue
    ensures Cuts(Transmit(s, chunk).accepted) == s.received + Transmit(s, chunk).queue
  {
    FillThenCString(chunk, seq(BUFSIZE - |chunk|, _ => 0));
    assert Cuts(s.accepted + [chunk]) == Cuts(s.accepted) + [CString(chunk)];
  }

  /** A received message is shorter than the buffer and comes back out of it unchanged. */
  lemma ReceivedFits(s: State)
    requires Inv(s) && s.cpc.CTest?
    ensures |s.cpc.msg| < BUFSIZE && CString(Fill(s.cpc.msg)) == s.cpc.msg
    ensures Fill(s.cpc.msg)[0] == EOF_BYTE <==> IsMarker(s.cpc.msg)
  {
    var n := |s.received|;
    assert s.cpc.msg == Cuts(s.accepted)[n - 1];
    var chunk := s.accepted[n - 1];
    CStringIsCut(chunk);
    FillThenCString(s.cpc.msg, seq(BUFSIZE - |s.cpc.msg|, _ => 0));
  }

  lemma PrintOneMore(done: seq<Bytes>, msg: Bytes)
    requires NoMarker(done) && !IsMarker(msg)
    ensures NoMarker(done + [msg]) && Concat(done + [msg]) == Concat(done) + msg
  {
    assert (done + [msg])[..|done|] == done;
  }

  lemma ExamineKeepsInv(s: State)
    requires Inv(s) && Next(s, Examine).Some?
    ensures Inv(Next(s, Examine).value)
  {
    var t, msg := Next(s, Examine).value, s.cpc.msg;
    ReceivedFits(s);
    assert s.received == Examined(s) + [msg];
    if IsMarker(msg) {
      assert t == s.(cpc := CDone, linked := false);
      assert Examined(t) == Examined(s);
    } else {
      assert t == s.(cpc := CReceive, printed := s.printed + msg);
      PrintOneMore(Examined(s), msg);
      assert Examined(t) == Examined(s) + [msg];
    }
  }

  lemma SendKeepsInv(s: State)
    requires Inv(s) && Next(s, Send(true)).Some?
    ensures Inv(Next(s, Send(true)).value)
  {
    var t := Next(s, Send(true)).value;
    assert Examined(t) == Examined(s);
    if s.ppc.PSendEnd? || Sendable(s.ppc.chunk) {
      var chunk := if s.ppc.PSend? then s.ppc.chunk else [EOF_BYTE];
      TransmitKeepsQueue(s, chunk);
      assert t.accepted == s.accepted + [chunk];
    }
  }

  lemma ReceiveKeepsInv(s: State)
    requires Inv(s) && Next(s, Receive(true)).Some?
    ensures Inv(Next(s, Receive(true)).value)
  {
    var t := Next(s, Receive(true)).value;
    assert s.queue == [s.queue[0]] + s.queue[1..];
    assert t.received + t.queue == s.received + s.queue;
    assert Examined(t) == s.received;
  }

  lemma StepKeepsInv(s: State, a: Action)
    requires Inv(s) && Next(s, a).Some?
    ensures Inv(Next(s, a).value)
  {
    if a == Send(true) {
      SendKeepsInv(s);
    } else if a == Receive(true) {
      ReceiveKeepsInv(s);
    } else if a == Examine {
      ExamineKeepsInv(s);
    } else {
      assert Examined(Next(s, a).value) == Examined(s);
    }
  }

  lemma Reachable()
    ensures Always(Next, INIT, s => Inv(s))
  {
    forall t, a | Inv(t) && Next(t, a).Some? ensures Inv(Next(t, a).value) {
      StepKeepsInv(t, a);
    }
    Invariant(Next, t => Inv(t), INIT);
  }

  // ----- Delivery

  /** The output the design promises: the accepted chunks, each cut at its first NUL, in order, up to the
      first that begins with the marker byte. */
  function Promised(accepted: seq<Bytes>): Bytes
  {
    Concat(UpToMarker(Cuts(accepted)))
  }

  /** The queue stays within its bound; the output is always a prefix of the promised output, and is all of it
      once the queue is empty or the consumer has left its loop - which only a marker makes it do. */
  lemma Delivery(s: State)
    requires Reaches(Next, INIT, s)
    ensures |s.queue| <= MAXMSG && s.received <= Cuts(s.accepted)
    ensures s.printed <= Promised(s.accepted)
    ensures s.cpc.CDone? || (s.cpc.CReceive? && s.queue == []) ==> s.printed == Promised(s.accepted)
    ensures s.cpc.CDone? <==> !s.linked
    ensures s.cpc.CDone? ==> s.received != [] && IsMarker(s.received[|s.received| - 1])
    ensures s.cpc.CReceive? ==> NoMarker(s.received)
  {
    Reachable();
    var all := Cuts(s.accepted);
    var done := Examined(s);
    var rest := all[|done|..];
    assert all == done + rest;
    UpToFirstMarker(done, rest);
    ConcatAppend(done, UpToMarker(rest));
  }

  /** The chunks of the input among the accepted ones. */
  function Data(s: State): seq<Bytes>
  {
    if s.ended && s.accepted != [] then s.accepted[..|s.accepted| - 1] else s.accepted
  }

  lemma {:induction false} ConcatShorter(a: seq<Bytes>, b: seq<Bytes>)
    requires a <= b && |a| < |b| && b[|a|] != []
    ensures |Concat(a)| < |Concat(b)|
  {
    var tail := b[|a|..];
    assert b == a + tail && tail == [tail[0]] + tail[1..];
    ConcatAppend(a, tail);
    ConcatAppend([tail[0]], tail[1..]);
    var none: seq<Bytes> := [];
    assert [tail[0]][..0] == none;
    assert Concat([tail[0]]) == tail[0];
  }

  /** Cutting at the first marker loses nothing if and only if only the tail has a marker. */
  lemma CutLosesNothing(data: seq<Bytes>, tail: seq<Bytes>)
    requires tail == [] || IsMarker(tail[0])
    ensures Concat(UpToMarker(data + tail)) == Concat(data) <==> NoMarker(data)
  {
    if NoMarker(data) {
      UpToFirstMarker(data, tail);
      assert data + [] == data;
    } else {
      var i :| 0 <= i < |data| && IsMarker(data[i]);
      var all, kept := data + tail, UpToMarker(data + tail);
      MarkerStops(all, i);
      UpToMarkerIsPrefix(all);
      assert forall j :: 0 <= j < |kept| ==> kept[j] == all[j] == data[j];
      assert data[|kept|] == all[|kept|];
      ConcatShorter(kept, data);
    }
  }

  /** The marker is in band.  A consumer that has left printed all the accepted input if and only if no
      accepted chunk of the input begins with byte 0xFF. */
  lemma AllPrintedIffNoInBandMarker(s: State)
    requires Reaches(Next, INIT, s) && s.cpc.CDone?
    ensures s.printed == Concat(Cuts(Data(s))) <==> forall i :: 0 <= i < |Data(s)| ==> !IsMarker(Data(s)[i])
  {
    Delivery(s);
    Reachable();
    var data, tail := Cuts(Data(s)), Cuts(s.accepted[|Data(s)|..]);
    assert Cuts(s.accepted) == data + tail;
    CStringIsCut([EOF_BYTE]);
    CutLosesNothing(data, tail);
    forall i | 0 <= i < |Data(s)| ensures IsMarker(data[i]) <==> IsMarker(Data(s)[i]) {
      CStringIsCut(Data(s)[i]);
    }
    assert NoMarker(data) <==> forall i :: 0 <= i < |Data(s)| ==> !IsMarker(Data(s)[i]);
  }

  /** Every chunk of the input that begins with byte 0xFF and can be sent ends the consumer, unprinted, while the
      producer is still reading. */
  lemma InputCanEndTheConsumer(chunk: Bytes)
    requires Sendable(chunk) && IsMarker(chunk)
    ensures exists s :: Reaches(Next, INIT, s) && s.accepted == [chunk] && s.cpc.CDone? && s.ppc.PRead?
                        && s.printed == [] != Concat(Cuts(Data(s)))
  {
    ReachesSelf(Next, INIT);
    var s1 := INIT.(ppc := PSend(chunk));
    assert Next(INIT, Chunk(chunk)) == Some(s1);
    ReachesStep(Next, INIT, INIT, Chunk(chunk));
    ReachesStep(Next, INIT, s1, Send(true));
    var s2 := Next(s1, Send(true)).value;
    ReachesStep(Next, INIT, s2, Receive(true));
    var s3 := Next(s2, Receive(true)).value;
    FillThenCString(chunk, seq(BUFSIZE - |chunk|, _ => 0));
    CStringIsCut(chunk);
    assert s3.cpc.msg == CString(chunk);
    Reachable();
    ReceivedFits(s3);
    ReachesStep(Next, INIT, s3, Examine);
    var s4 := Next(s3, Examine).value;
    AllPrintedIffNoInBandMarker(s4);
    assert Data(s4) == [chunk] && IsMarker(Data(s4)[0]);
  }

  // ----- When the consumer can leave

  ghost predicate MarkerAccepted(s: State)
  {
    exists i :: 0 <= i < |s.accepted| && IsMarker(s.accepted[i])
  }

  lemma MarkersSurviveTheCut(chunks: seq<Bytes>)
    ensures NoMarker(Cuts(chunks)) <==> NoMarker(chunks)
  {
    forall i | 0 <= i < |chunks| ensures IsMarker(Cuts(chunks)[i]) <==> IsMarker(chunks[i]) {
      CStringIsCut(chunks[i]);
    }
    assert NoMarker(Cuts(chunks)) ==> forall i :: 0 <= i < |chunks| ==> !IsMarker(Cuts(chunks)[i]);
  }

  /** With a marker among the accepted chunks the consumer can go through the queue to it. */
  lemma {:induction false} ConsumerFindsTheMarker(s: State) returns (t: State)
    requires Reaches(Next, INIT, s) && MarkerAccepted(s)
    ensures Reaches(Next, s, t) && t.cpc.CDone?
    decreases |s.queue|, if s.cpc.CTest? then 1 else 0
  {
    Reachable();
    ReachesSelf(Next, s);
    t := s;
    if s.cpc.CTest? {
      ReceivedFits(s);
      var u := Next(s, Examine).value;
      ReachesStep(Next, INIT, s, Examine);
      ReachesStep(Next, s, s, Examine);
      if !u.cpc.CDone? {
        t := ConsumerFindsTheMarker(u);
        ReachesTrans(Next, s, u, t);
      } else {
        t := u;
      }
    } else if s.cpc.CReceive? {
      MarkersSurviveTheCut(s.accepted);
      assert s.queue == [] ==> s.received + s.queue == s.received;
      var u := Next(s, Receive(true)).value;
      ReachesStep(Next, INIT, s, Receive(true));
      ReachesStep(Next, s, s, Receive(true));
      t := ConsumerFindsTheMarker(u);
      ReachesTrans(Next, s, u, t);
    }
  }

  ghost predicate ProducerOver(s: State)
  {
    s.ppc.PDone? || s.ppc.PBroken?
  }

  lemma OverAcceptsNothing(s: State, a: Action)
    requires Inv(s) && ProducerOver(s) && Next(s, a).Some?
    ensures var t := Next(s, a).value; Inv(t) && t.ppc == s.ppc && t.accepted == s.accepted
  {
    StepKeepsInv(s, a);
  }

  /** A producer that is over accepts nothing more. */
  lemma NothingAfterTheEnd(s: State, t: State)
    requires Inv(s) && ProducerOver(s) && Reaches(Next, s, t)
    ensures Inv(t) && t.accepted == s.accepted
  {
    var acts :| Exec(Next, s, acts) == Some(t);
    var inv := u => Inv(u) && u.ppc == s.ppc && u.accepted == s.accepted;
    forall u, a | inv(u) && Next(u, a).Some? ensures inv(Next(u, a).value) {
      OverAcceptsNothing(u, a);
    }
    Keeps(Next, inv, s, acts);
  }

  /** Once the producer is over the consumer can still leave its loop if and only if a marker was accepted. */
  lemma CanLeaveIffMarkerAccepted(s: State)
    requires Reaches(Next, INIT, s) && ProducerOver(s)
    ensures (exists t :: Reaches(Next, s, t) && t.cpc.CDone?) <==> MarkerAccepted(s)
  {
    Reachable();
    if t :| Reaches(Next, s, t) && t.cpc.CDone? {
      NothingAfterTheEnd(s, t);
      MarkersSurviveTheCut(t.accepted);
      var n := |t.received|;
      assert Cuts(t.accepted)[n - 1] == t.received[n - 1];
    }
    if MarkerAccepted(s) {
      var t := ConsumerFindsTheMarker(s);
    }
  }

  function StepsToGo(s: State): nat
  {
    2 * |s.queue| + if s.cpc.CTest? then 1 else 0
  }

  /** While the marker is still to come the queue is not empty, so no receive times out. */
  lemma MarkerStillToCome(s: State)
    requires Inv(s) && MarkerAccepted(s) && s.cpc.CReceive?
    ensures s.queue != []
  {
    MarkersSurviveTheCut(s.accepted);
    assert s.queue == [] ==> s.received + s.queue == s.received;
  }

  ghost predicate OnlyTheMarkerToCome(s: State)
  {
    Inv(s) && ProducerOver(s) && MarkerAccepted(s)
  }

  lemma StepNearsTheMarker(s: State, a: Action)
    requires OnlyTheMarkerToCome(s) && Next(s, a).Some?
    ensures OnlyTheMarkerToCome(Next(s, a).value) && StepsToGo(Next(s, a).value) < StepsToGo(s)
  {
    OverAcceptsNothing(s, a);
    if s.cpc.CReceive? { MarkerStillToCome(s); }
  }

  lemma StuckIffLeft(s: State)
    requires OnlyTheMarkerToCome(s)
    ensures Stuck(Next, s) <==> s.cpc.CDone?
  {
    if s.cpc.CReceive? {
      MarkerStillToCome(s);
      assert Next(s, Receive(true)).Some?;
    } else if s.cpc.CTest? {
      ReceivedFits(s);
      assert Next(s, Examine).Some?;
    }
  }

  /** When the producer is over and a marker was accepted, every run is bounded and cannot go on only when the
      consumer has left. */
  lemma EveryRunLeaves(s: State, acts: seq<Action>, e: State)
    requires Reaches(Next, INIT, s) && ProducerOver(s) && MarkerAccepted(s) && Exec(Next, s, acts) == Some(e)
    ensures |acts| <= 2 * |s.queue| + 1
    ensures Stuck(Next, e) <==> e.cpc.CDone?
  {
    Reachable();
    forall u, a | OnlyTheMarkerToCome(u) && Next(u, a).Some?
      ensures OnlyTheMarkerToCome(Next(u, a).value) && StepsToGo(Next(u, a).value) < StepsToGo(u)
    {
      StepNearsTheMarker(u, a);
    }
    Bounded(Next, u => OnlyTheMarkerToCome(u), u => StepsToGo(u), s, acts);
    StuckIffLeft(e);
  }

  /** The end marker is sent once, and lost if and only if that send finds the queue full.  So when the input ends
      the consumer will be able to leave if and only if there is room then, or a chunk accepted before already
      begins with the marker's byte. */
  lemma LeavesIffRoomAtTheEnd(s: State, ok: bool)
    requires Reaches(Next, INIT, s) && s.ppc.PSendEnd? && Next(s, Send(ok)).Some?
    ensures var t := Next(s, Send(ok)).value;
            && (t.ended <==> |s.queue| < MAXMSG)
            && ((exists u :: Reaches(Next, t, u) && u.cpc.CDone?) <==> |s.queue| < MAXMSG || MarkerAccepted(s))
  {
    var t := Next(s, Send(ok)).value;
    Reachable();
    ReachesStep(Next, INIT, s, Send(ok));
    CanLeaveIffMarkerAccepted(t);
    var n := |s.accepted|;
    if ok {
      assert t.accepted[n] == [EOF_BYTE] && IsMarker(t.accepted[n]);
    } else {
      assert t.accepted == s.accepted;
    }
  }

  /** A producer that is done and whose marker was lost has had a full queue accepted. */
  lemma LostBehindAFullQueue(s: State)
    requires Reaches(Next, INIT, s) && s.ppc.PDone? && !s.ended
    ensures |s.accepted| >= MAXMSG
  {
    Reachable();
  }

  /** The producer alone sends `count` chunks of the one byte `b`. */
  lemma {:induction false} FillTheQueue(b: nat, count: nat) returns (s: State)
    requires b != 0 && count <= MAXMSG
    ensures Reaches(Next, INIT, s) && s.ppc.PRead? && s.cpc.CReceive? && !s.ended
    ensures |s.queue| == count && s.accepted == seq(count, _ => [b])
  {
    if count == 0 {
      s := INIT;
      ReachesSelf(Next, INIT);
    } else {
      var before := FillTheQueue(b, count - 1);
      var held := before.(ppc := PSend([b]));
      assert Next(before, Chunk([b])) == Some(held);
      ReachesStep(Next, INIT, before, Chunk([b]));
      ReachesStep(Next, INIT, held, Send(true));
      s := Next(held, Send(true)).value;
    }
  }

  /** That does happen: with ten chunks sent and none received yet when the input ends, the producer is gone and
      the consumer receives for ever. */
  lemma EndMarkerCanBeLost()
    ensures exists s :: Reaches(Next, INIT, s) && s.ppc.PDone? && !s.ended
                        && forall t :: Reaches(Next, s, t) ==> !t.cpc.CDone?
  {
    var full := FillTheQueue('a' as nat, MAXMSG);
    ReachesStep(Next, INIT, full, Chunk([]));
    var ending := full.(ppc := PSendEnd);
    assert Next(full, Chunk([])) == Some(ending);
    ReachesStep(Next, INIT, ending, Send(false));
    LeavesIffRoomAtTheEnd(ending, false);
  }

  // ----- What a schedule determines

  /** What the producer's reads and sends amount to: the chunk that is read and not yet sent, the chunks accepted,
      whether the end marker is among them, and whether the producer is over. */
  datatype Offer = Offer(pending: Option<Bytes>, accepted: seq<Bytes>, ended: bool, over: bool)

  /** A read makes its chunk the pending one; a send that goes through adds it (the marker for the empty chunk), a
      send that times out forgets it. */
  function AfterOffer(o: Offer, a: Action): Offer
  {
    match a
    case Chunk(bytes) => o.(pending := Some(bytes))
    case Send(ok) => (
      match o.pending
      case None => o
      case Some(bytes) =>
        if !Sendable(bytes) then o.(pending := None, over := true)
        else if bytes == [] then Offer(None, if ok then o.accepted + [[EOF_BYTE]] else o.accepted, ok, true)
        else o.(pending := None, accepted := if ok then o.accepted + [bytes] else o.accepted))
    case _ => o
  }

  function Offers(acts: seq<Action>): Offer
  {
    if acts == [] then Offer(None, [], false, false) else AfterOffer(Offers(acts[..|acts| - 1]), acts[|acts| - 1])
  }

  function Producing(acts: seq<Action>): seq<Action>
  {
    if acts == [] then []
    else Producing(acts[..|acts| - 1])
         + if acts[|acts| - 1].Chunk? || acts[|acts| - 1].Send? then [acts[|acts| - 1]] else []
  }

  function Taken(acts: seq<Action>): nat { CountIf((a: Action) => a == Receive(true), acts) }

  function Tests(acts: seq<Action>): nat { CountIf((a: Action) => a.Examine?, acts) }

  ghost predicate ProducerFollows(acts: seq<Action>, s: State)
  {
    var o, p := Offers(acts), Producing(acts);
    && s.accepted == o.accepted && (s.ended <==> o.ended) && (ProducerOver(s) <==> o.over)
    && o.pending == (match s.ppc case PSend(chunk) => Some(chunk) case PSendEnd => Some([]) case _ => None)
    && (s.ppc.PSend? ==> s.ppc.chunk != []) && (!o.over ==> !o.ended)
    && (|p| % 2 == 1 <==> o.pending.Some?)
    && (forall k :: 0 <= k < |p| ==> (p[k].Chunk? <==> k % 2 == 0))
  }

  ghost predicate ConsumerFollows(acts: seq<Action>, s: State)
  {
    && |s.received| == Taken(acts)
    && Tests(acts) + (if s.cpc.CTest? then 1 else 0) == Taken(acts)
  }

  lemma StepFollows(acts: seq<Action>, s: State, a: Action)
    requires ProducerFollows(acts, s) && ConsumerFollows(acts, s) && Next(s, a).Some?
    ensures ProducerFollows(acts + [a], Next(s, a).value) && ConsumerFollows(acts + [a], Next(s, a).value)
  {
    assert (acts + [a])[..|acts|] == acts;
    CountSnoc((b: Action) => b == Receive(true), acts, a);
    CountSnoc((b: Action) => b.Examine?, acts, a);
  }

  lemma RunFollows()
    ensures Ties(Next, INIT, (past, t) => ProducerFollows(past, t) && ConsumerFollows(past, t))
  {
    forall past, t, a: Action | ProducerFollows(past, t) && ConsumerFollows(past, t) && Next(t, a).Some?
      ensures ProducerFollows(past + [a], Next(t, a).value) && ConsumerFollows(past + [a], Next(t, a).value)
    {
      StepFollows(past, t, a);
    }
    KeepsAlong(Next, (past, t) => ProducerFollows(past, t) && ConsumerFollows(past, t), INIT);
  }

  /** The accepted chunks are those whose send went through; one whose send timed out is gone.  The producer reads
      and sends in turn. */
  lemma AcceptedAreTheChunksSent(acts: seq<Action>, e: State)
    requires Exec(Next, INIT, acts) == Some(e)
    ensures e.accepted == Offers(acts).accepted && (e.ended <==> Offers(acts).ended)
    ensures forall k :: 0 <= k < |Producing(acts)| ==> (Producing(acts)[k].Chunk? <==> k % 2 == 0)
  {
    RunFollows();
  }

  /** The messages the consumer has examined. */
  function Seen(acts: seq<Action>): seq<Bytes>
  {
    var sent := Cuts(Offers(acts).accepted);
    if Tests(acts) <= |sent| then sent[..Tests(acts)] else sent
  }

  lemma SeenIsExamined(acts: seq<Action>, e: State)
    requires Exec(Next, INIT, acts) == Some(e)
    ensures Taken(acts) <= |Offers(acts).accepted|
    ensures if e.cpc.CDone? then !NoMarker(Seen(acts)) && UpToMarker(Seen(acts)) == Examined(e)
            else NoMarker(Seen(acts)) && Seen(acts) == Examined(e)
  {
    RunFollows();
    assert Reaches(Next, INIT, e);
    Reachable();
    var sent, n := Cuts(e.accepted), |e.received|;
    assert |sent| == |e.accepted| && sent[..n] == e.received;
    if e.cpc.CTest? {
      assert sent[..n - 1] == e.received[..n - 1];
    } else if e.cpc.CDone? {
      var last := [e.received[n - 1]];
      assert e.received == Examined(e) + last;
      UpToFirstMarker(Examined(e), last);
      assert Examined(e) + [] == Examined(e);
      assert IsMarker(Seen(acts)[n - 1]);
    }
  }

  /** The consumer takes the accepted chunks in order, each cut at its first NUL, and prints those it examines
      up to the first that begins with the marker's byte. */
  lemma PrintedAreTheChunksExamined(acts: seq<Action>, e: State)
    requires Exec(Next, INIT, acts) == Some(e)
    ensures e.printed == Concat(UpToMarker(Seen(acts)))
    ensures !NoMarker(Seen(acts)) <==> e.cpc.CDone? && !e.linked
    ensures NoMarker(Seen(acts)) <==> !e.cpc.CDone? && e.linked
  {
    SeenIsExamined(acts, e);
    assert Reaches(Next, INIT, e);
    Reachable();
    if !e.cpc.CDone? {
      var none: seq<Bytes> := [];
      UpToFirstMarker(Seen(acts), none);
      assert Seen(acts) + none == Seen(acts) && Seen(acts) + [] == Seen(acts);
    }
  }

  /** What can come next, from the schedule alone: the producer reads unless a chunk is pending or it is over, and
      sends a pending chunk in time exactly when fewer than MAXMSG messages are in the queue; the consumer
      examines a message it holds and otherwise receives in time exactly when the queue has one. */
  lemma WhatCanFollow(acts: seq<Action>, bytes: Bytes, ok: bool)
    requires Exec(Next, INIT, acts).Some?
    ensures var o, queued := Offers(acts), |Offers(acts).accepted| - Taken(acts);
            && (Exec(Next, INIT, acts + [Chunk(bytes)]).Some? <==> o.pending.None? && !o.over && |bytes| <= BUFSIZE)
            && (Exec(Next, INIT, acts + [Send(ok)]).Some? <==> o.pending.Some? && (ok <==> queued < MAXMSG))
            && (Exec(Next, INIT, acts + [Receive(ok)]).Some?
                <==> Taken(acts) == Tests(acts) && NoMarker(Seen(acts)) && (ok <==> queued > 0))
            && (Exec(Next, INIT, acts + [Examine]).Some? <==> Taken(acts) == Tests(acts) + 1)
  {
    var e := Exec(Next, INIT, acts).value;
    RunFollows();
    SeenIsExamined(acts, e);
    assert Reaches(Next, INIT, e);
    Reachable();
    assert |Cuts(e.accepted)| == |e.received| + |e.queue|;
    if e.cpc.CTest? { ReceivedFits(e); }
    ExecSnoc(Next, INIT, acts, Chunk(bytes));
    ExecSnoc(Next, INIT, acts, Send(ok));
    ExecSnoc(Next, INIT, acts, Receive(ok));
    ExecSnoc(Next, INIT, acts, Examine);
  }

  // ----- The two processes, their buffers and the queue

  datatype ProducerAt = Reading | Sending | Ending | Stopped | OffTheBuffer

  datatype ConsumerAt = Waiting | Holding | Closed

  lemma CStringStep(q: Bytes, n: nat)
    requires n < |q| && q[n] != 0
    ensures q[..n] + CString(q[n..]) == q[..n + 1] + CString(q[n + 1..])
  {
    assert q[n..][1..] == q[n + 1..];
    assert q[..n + 1] == q[..n] + [q[n]];
    assert q[..n] + ([q[n]] + CString(q[n + 1..])) == (q[..n] + [q[n]]) + CString(q[n + 1..]);
  }

  lemma FillHasNul(bytes: Bytes)
    requires |bytes| <= BUFSIZE
    ensures 0 in Fill(bytes) <==> Sendable(bytes)
  {
    if |bytes| < BUFSIZE {
      assert Fill(bytes)[|bytes|] == 0;
    } else {
      assert Fill(bytes) == bytes;
    }
  }

  /** strlen; the answer buf.Length stands for a search that leaves the buffer. */
  method StrLen(buf: array<nat>) returns (n: nat)
    ensures n <= buf.Length && buf[..n] == CString(buf[..])
    ensures n < buf.Length <==> 0 in buf[..]
  {
    ghost var q := buf[..];
    n := 0;
    assert q[..0] + CString(q[0..]) == CString(q) by { assert q[0..] == q; }
    while n < buf.Length && buf[n] != 0
      invariant n <= buf.Length && q[..n] + CString(q[n..]) == CString(q)
      invariant forall i :: 0 <= i < n ==> q[i] != 0
    {
      CStringStep(q, n);
      n := n + 1;
    }
    assert q[..n] + [] == q[..n];
  }

  /** memset over the whole buffer, then the bytes of a read or of a message. */
  method Refill(buf: array<nat>, bytes: Bytes)
    requires buf.Length == BUFSIZE && |bytes| <= BUFSIZE
    modifies buf
    ensures buf[..] == Fill(bytes)
  {
    for i := 0 to buf.Length
      invariant forall j :: 0 <= j < i ==> buf[j] == 0
    {
      buf[i] := 0;
    }
    for i := 0 to |bytes|
      invariant forall j :: 0 <= j < i ==> buf[j] == bytes[j]
      invariant forall j :: i <= j < BUFSIZE ==> buf[j] == 0
    {
      buf[i] := bytes[i];
    }
  }

  class Exchange {
    const writeBuf: array<nat>
    const readBuf: array<nat>
    var producerAt: ProducerAt
    var consumerAt: ConsumerAt
    var queue: seq<Bytes>
    var linked: bool
    var printed: Bytes
    ghost var history: State

    ghost function View(): State
      reads this
    {
      history.(queue := queue, linked := linked, printed := printed)
    }

    ghost predicate Valid()
      reads this, writeBuf, readBuf
    {
      && writeBuf != readBuf && writeBuf.Length == readBuf.Length == BUFSIZE
      && Inv(View())
      && match history.ppc {
           case PRead => producerAt.Reading?
           case PSend(chunk) => producerAt.Sending? && |chunk| <= BUFSIZE && writeBuf[..] == Fill(chunk)
           case PSendEnd => producerAt.Ending?
           case PDone => producerAt.Stopped?
           case PBroken => producerAt.OffTheBuffer?
         }
      && match history.cpc {
           case CReceive => consumerAt.Waiting?
           case CTest(msg) => consumerAt.Holding? && |msg| <= BUFSIZE && readBuf[..] == Fill(msg)
           case CDone => consumerAt.Closed?
         }
    }

    constructor ()
      ensures Valid() && View() == INIT && fresh(writeBuf) && fresh(readBuf)
    {
      writeBuf, readBuf := new nat[BUFSIZE], new nat[BUFSIZE];
      producerAt, consumerAt, queue, linked, printed := Reading, Waiting, [], true, [];
      history := INIT;
    }

    /** One read of the standard input; no bytes is its end. */
    method ProducerRead(bytes: Bytes) returns (ran: bool)
      requires Valid() && |bytes| <= BUFSIZE
      modifies this, writeBuf
      ensures Valid()
      ensures var next := Next(old(View()), Chunk(bytes));
              ran == next.Some? && View() == if ran then next.value else old(View())
    {
      ghost var before := View();
      ran := producerAt.Reading?;
      if ran {
        Refill(writeBuf, bytes);
        producerAt := if |bytes| == 0 then Ending else Sending;
        history := Next(before, Chunk(bytes)).value;
        StepKeepsInv(before, Chunk(bytes));
      }
    }

    /** mq_timedsend of the buffer's string or of the end marker; `inTime` false is a timeout. */
    method ProducerSend(inTime: bool) returns (ran: bool)
      requires Valid()
      modifies this
      ensures Valid()
      ensures var next := Next(old(View()), Send(inTime));
              ran == next.Some? && View() == if ran then next.value else old(View())
    {
      ran := (producerAt.Sending? || producerAt.Ending?) && inTime == (|queue| < MAXMSG);
      if ran {
        if producerAt.Sending? { SendString(inTime); } else { SendMarker(inTime); }
      }
    }

    /** mq_timedsend of strlen(writeBuf) bytes; without a NUL strlen leaves the buffer. */
    method SendString(inTime: bool)
      requires Valid() && producerAt.Sending? && inTime == (|queue| < MAXMSG)
      modifies this
      ensures Valid() && Next(old(View()), Send(inTime)) == Some(View())
    {
      ghost var before := View();
      FillHasNul(before.ppc.chunk);
      var n := StrLen(writeBuf);
      assert CString(writeBuf[..]) == writeBuf[..n];
      if n == writeBuf.Length {
        producerAt := OffTheBuffer;
      } else {
        if inTime {
          queue := queue + [writeBuf[..n]];
        }
        producerAt := Reading;
      }
      StepKeepsInv(before, Send(inTime));
      history := Next(before, Send(inTime)).value;
    }

    method SendMarker(inTime: bool)
      requires Valid() && producerAt.Ending? && inTime == (|queue| < MAXMSG)
      modifies this
      ensures Valid() && Next(old(View()), Send(inTime)) == Some(View())
    {
      ghost var before := View();
      if inTime {
        queue := queue + [[EOF_BYTE]];
        MarkerInBuffer();
      }
      producerAt := Stopped;
      StepKeepsInv(before, Send(inTime));
      history := Next(before, Send(inTime)).value;
    }

    method ConsumerReceive(inTime: bool) returns (ran: bool)
      requires Valid()
      modifies this, readBuf
      ensures Valid()
      ensures var next := Next(old(View()), Receive(inTime));
              ran == next.Some? && View() == if ran then next.value else old(View())
    {
      ghost var before := View();
      ran := consumerAt.Waiting? && inTime == (|queue| > 0);
      if ran {
        StepKeepsInv(before, Receive(inTime));
        history := Next(before, Receive(inTime)).value;
        if inTime {
          ReceivedFits(history);
          Refill(readBuf, queue[0]);
          queue, consumerAt := queue[1..], Holding;
        }
        assert View() == history;
      }
    }

    /** The test of the first byte, then the printf or the way out through close and unlink. */
    method ConsumerExamine() returns (ran: bool)
      requires Valid()
      modifies this
      ensures Valid()
      ensures var next := Next(old(View()), Examine);
              ran == next.Some? && View() == if ran then next.value else old(View())
    {
      ghost var before := View();
      ran := consumerAt.Holding?;
      if ran {
        ReceivedFits(before);
        if readBuf[0] == EOF_BYTE {
          consumerAt, linked := Closed, false;
        } else {
          FillHasNul(before.cpc.msg);
          var n := StrLen(readBuf);
          printed := printed + readBuf[..n];
          consumerAt := Waiting;
        }
        history := Next(before, Examine).value;
        StepKeepsInv(before, Examine);
      }
    }
  }
}
