/** What a connection may still say once it has sent a reset. */
module ConnReset {
  import opened Bytes
  import opened SeqArith
  import opened Packets
  import opened ConnSpec
  import opened ConnLog
  import opened ConnRuns
  import opened ConnShape

  /** A reset has been emitted. */
  ghost predicate WasReset(c: Conn) {
    exists k :: 0 <= k < |c.out| && HasRst(c.out[k].seg)
  }

  /** Something other than a bare acknowledgement was emitted after a reset. */
  ghost predicate SpokeAgain(c: Conn) {
    exists j, k :: 0 <= j < k < |c.out| && HasRst(c.out[j].seg) && Speaks(c.out[k])
  }

  predicate Grows(a: seq<Emission>, b: seq<Emission>) {
    |a| <= |b| && forall k :: 0 <= k < |a| ==> b[k] == a[k]
  }

  predicate PumpReads(e: Event) { e.Chunk? || e.HostEof? || e.ReadFailed? }

  /** The pump reads from the host although the connection has left the table. */
  predicate ReadsWhileOut(c: Conn, es: seq<Event>)
    requires CanRun(c, es)
    decreases |es|
  {
    |es| > 0 && ((PumpReads(es[0]) && !c.listed) || ReadsWhileOut(Step(c, es[0]), es[1..]))
  }

  // ---- Emissions are never taken back ----

  lemma {:induction false} ChunkGrows(c: Conn, chunk: bytes)
    requires c.id.mss > 0
    ensures var d := SendChunk(c, chunk);
            && Grows(c.out, d.out)
            && (forall k :: |c.out| <= k < |d.out| ==> !HasRst(d.out[k].seg))
            && (|chunk| > 0 ==> |d.out| > |c.out| && |d.out[|c.out|].seg.payload| > 0)
    decreases |chunk|
  {
    if |chunk| > 0 {
      var piece := Slice(chunk, 0, c.id.mss);
      assert |piece| > 0;
      ChunkGrows(SendPiece(c, piece), Slice(chunk, c.id.mss, |chunk|));
    }
  }

  /** Nothing but bare acknowledgements is new. */
  ghost predicate AddsAcks(a: seq<Emission>, b: seq<Emission>) {
    Grows(a, b) && forall k :: |a| <= k < |b| ==> !Speaks(b[k])
  }

  lemma AckAdds(a: seq<Emission>, c: Conn)
    requires AddsAcks(a, c.out)
    ensures AddsAcks(a, AckOnly(c).out)
  {
  }

  lemma FinAdds(a: seq<Emission>, c: Conn, t: Tcp)
    requires AddsAcks(a, c.out)
    ensures AddsAcks(a, OnFin(c, t).out)
  {
    if HasFin(t) {
      var f := AdvanceChip(c, 1).(state := CloseWait, finsIn := c.finsIn + 1);
      AckAdds(a, if c.open then f.(eofs := c.eofs + 1) else f.(heldEof := true));
    }
  }

  lemma DeliveredAdds(a: seq<Emission>, c: Conn, t: Tcp)
    requires AddsAcks(a, c.out)
    ensures AddsAcks(a, Delivered(c, t).out)
  {
    AckAdds(a, AdvanceChip(c, |t.payload|));
    FinAdds(a, AckOnly(AdvanceChip(c, |t.payload|)), t);
  }

  lemma DataAdds(c: Conn, t: Tcp)
    ensures AddsAcks(c.out, OnData(c, t).out)
  {
    if |t.payload| == 0 {
      FinAdds(c.out, c, t);
    } else if t.seqNo != c.chipSeq {
      AckAdds(c.out, c);
    } else if !c.open {
      DeliveredAdds(c.out, c.(held := c.held + t.payload), t);
    }
  }

  lemma FinWaitAdds(c: Conn, t: Tcp)
    ensures AddsAcks(c.out, OnFinWait2(c, t).out)
  {
    AckAdds(c.out, AdvanceChip(c, 1).(finsIn := c.finsIn + 1));
  }

  lemma SegmentAdds(c: Conn, t: Tcp)
    ensures AddsAcks(c.out, HandleSegment(c, t).out)
  {
    if !HasRst(t) {
      match c.state
      case SynRcvd => DataAdds(c.(state := Established), t);
      case Established => DataAdds(c, t);
      case FinWait1 => FinWaitAdds(if HasAck(t) && t.ackNo == c.ourSeq then c.(state := FinWait2) else c, t);
      case FinWait2 => FinWaitAdds(c, t);
      case _ =>
    }
  }

  lemma CloseGrows(c: Conn, rst: bool)
    ensures Grows(c.out, Close(c, rst).out)
  {
  }

  lemma StepGrows(c: Conn, e: Event)
    requires Enabled(c, e)
    ensures Grows(c.out, Step(c, e).out)
  {
    match e
    case FromChip(t) => SegmentAdds(c, t);
    case Drained(ok) =>
      if ok { DeliveredAdds(c.out, c.(handler := Idle), c.handler.t); } else { CloseGrows(c.(handler := Idle), true); }
    case Chunk(data) => ChunkGrows(c, data);
    case ReadFailed => CloseGrows(c, true);
    case Shutdown => CloseGrows(c, true);
    case Dialled(ok) => CloseGrows(c.(dial := Over), true);
    case Flushed(ok) => CloseGrows(c.(dial := Over), true);
    case _ =>
  }

  lemma {:induction false} RunGrows(c: Conn, es: seq<Event>)
    requires CanRun(c, es)
    ensures Grows(c.out, After(c, es).out)
    decreases |es|
  {
    if |es| > 0 {
      StepGrows(c, es[0]);
      RunGrows(Step(c, es[0]), es[1..]);
    }
  }

  lemma StaysReset(c: Conn, d: Conn)
    requires Grows(c.out, d.out)
    ensures WasReset(c) ==> WasReset(d)
    ensures SpokeAgain(c) ==> SpokeAgain(d)
  {
    if WasReset(c) {
      var k :| 0 <= k < |c.out| && HasRst(c.out[k].seg);
      assert HasRst(d.out[k].seg);
    }
    if SpokeAgain(c) {
      var j, k :| 0 <= j < k < |c.out| && HasRst(c.out[j].seg) && Speaks(c.out[k]);
      assert HasRst(d.out[j].seg) && Speaks(d.out[k]);
    }
  }

  // ---- With the socket open from the start ----

  /** Out of the table, with nothing left that would say more than an acknowledgement. */
  predicate Silent(c: Conn) {
    !c.listed && c.pump != Running && c.dial == NoDial && (c.handler.Draining? ==> c.state == Closed)
  }

  lemma SilentStep(c: Conn, e: Event)
    requires Silent(c) && !SpokeAgain(c) && Enabled(c, e)
    ensures Silent(Step(c, e)) && !SpokeAgain(Step(c, e))
  {
    if e == Drained(true) { DeliveredAdds(c.out, c.(handler := Idle), c.handler.t); }
  }

  lemma NoResetYet(c: Conn, d: Conn)
    requires !WasReset(c) && Grows(c.out, d.out)
    requires forall k :: |c.out| <= k < |d.out| ==> !HasRst(d.out[k].seg)
    ensures !WasReset(d) && !SpokeAgain(d)
  {
    forall k | 0 <= k < |d.out|
      ensures !HasRst(d.out[k].seg)
    {
      if k < |c.out| { assert d.out[k] == c.out[k]; }
    }
  }

  /** Closing says at most the reset, and that last. */
  lemma CloseSilences(c: Conn, rst: bool)
    requires c.dial == NoDial && !WasReset(c)
    ensures var d := Close(c, rst);
            d.dial == NoDial && !SpokeAgain(d) && (WasReset(d) ==> Silent(d))
  {
    var d := Close(c, rst);
    if d.out == c.out {
      NoResetYet(c, d);
    } else {
      assert forall k :: 0 <= k < |c.out| ==> d.out[k] == c.out[k];
    }
  }

  lemma DataStays(c: Conn, t: Tcp)
    ensures OnData(c, t).dial == c.dial && OnData(c, t).listed == c.listed
  {
  }

  lemma FinWaitLeaves(c: Conn, t: Tcp)
    ensures var d := OnFinWait2(c, t);
            && (d.dial == c.dial || c.dial == Dialling) && d.handler == c.handler
            && (c.state != Closed ==> d.listed == c.listed || d.state == Closed)
  {
  }

  /** A segment leaves the dial alone, unless it cancels it, and takes the connection out
      of the table only by closing it. */
  lemma SegmentLeaves(c: Conn, t: Tcp)
    ensures var d := HandleSegment(c, t);
            && (d.dial == c.dial || c.dial == Dialling)
            && (d.listed == c.listed || (d.state == Closed && d.handler == c.handler))
  {
    if !HasRst(t) {
      match c.state
      case SynRcvd => DataStays(c.(state := Established), t);
      case Established => DataStays(c, t);
      case FinWait1 => FinWaitLeaves(if HasAck(t) && t.ackNo == c.ourSeq then c.(state := FinWait2) else c, t);
      case FinWait2 => FinWaitLeaves(c, t);
      case _ =>
    }
  }

  lemma SegmentSilences(c: Conn, t: Tcp)
    requires c.dial == NoDial && !WasReset(c)
    ensures var d := HandleSegment(c, t);
            d.dial == NoDial && !SpokeAgain(d) && !WasReset(d)
  {
    SegmentAdds(c, t);
    SegmentLeaves(c, t);
    NoResetYet(c, HandleSegment(c, t));
  }

  /** A reset is the last thing said before falling silent. */
  lemma ResetSilences(c: Conn, e: Event)
    requires c.dial == NoDial && !WasReset(c) && Enabled(c, e)
    ensures var d := Step(c, e);
            d.dial == NoDial && !SpokeAgain(d) && (WasReset(d) ==> Silent(d))
  {
    match e
    case FromChip(t) => SegmentSilences(c, t);
    case Drained(ok) =>
      var b := c.(handler := Idle);
      if ok {
        DeliveredAdds(c.out, b, c.handler.t);
        NoResetYet(b, Step(c, e));
      } else {
        CloseSilences(b, true);
      }
    case Chunk(data) =>
      ChunkGrows(c, data);
      SendChunkFrame(c, data);
      NoResetYet(c, Step(c, e));
    case ReadFailed => CloseSilences(c, true);
    case Shutdown => CloseSilences(c, true);
    case HostEof => NoResetYet(c, Step(c, e));
    case PumpExit => NoResetYet(c, Step(c, e));
    case _ =>
  }

  lemma {:induction false} NeverSpeaksAgain(c: Conn, es: seq<Event>)
    requires c.dial == NoDial && !SpokeAgain(c) && (WasReset(c) ==> Silent(c)) && CanRun(c, es)
    ensures !SpokeAgain(After(c, es))
    decreases |es|
  {
    if |es| > 0 {
      if WasReset(c) {
        SilentStep(c, es[0]);
      } else {
        ResetSilences(c, es[0]);
      }
      NeverSpeaksAgain(Step(c, es[0]), es[1..]);
    }
  }

  // ---- With a deferred connect ----

  /** In the table, closed for good, or reset. */
  ghost predicate Accounted(c: Conn) {
    c.listed || (c.state == Closed && c.handler == Idle) || WasReset(c)
  }

  lemma CloseAccounted(c: Conn)
    requires c.listed
    ensures Accounted(Close(c, true))
  {
    var d := Close(c, true);
    if !d.listed { assert HasRst(d.out[|c.out|].seg); }
  }

  lemma StepAccounted(c: Conn, e: Event)
    requires Accounted(c) && Enabled(c, e)
    ensures Accounted(Step(c, e))
  {
    StepGrows(c, e);
    StaysReset(c, Step(c, e));
    if !WasReset(c) && c.listed {
      match e
      case FromChip(t) => SegmentLeaves(c, t);
      case Drained(ok) => CloseAccounted(c.(handler := Idle));
      case Dialled(ok) => CloseAccounted(c.(dial := Over));
      case Flushed(ok) => CloseAccounted(c.(dial := Over));
      case Chunk(data) => SendChunkFrame(c, data);
      case ReadFailed => CloseAccounted(c);
      case Shutdown => CloseAccounted(c);
      case _ =>
    }
  }

  /** A read of a connection that is out of the table speaks after the reset. */
  lemma ReadSpeaks(c: Conn, e: Event)
    requires Accounted(c) && !c.listed && Enabled(c, e) && PumpReads(e)
    ensures SpokeAgain(Step(c, e))
  {
    var d := Step(c, e);
    var j :| 0 <= j < |c.out| && HasRst(c.out[j].seg);
    StepGrows(c, e);
    if e.Chunk? { ChunkGrows(c, e.data); }
    assert HasRst(d.out[j].seg) && Speaks(d.out[|c.out|]);
  }

  lemma {:induction false} ReadingOutSpeaks(c: Conn, es: seq<Event>)
    requires Accounted(c) && CanRun(c, es) && ReadsWhileOut(c, es)
    ensures SpokeAgain(After(c, es))
    decreases |es|
  {
    var d := Step(c, es[0]);
    if PumpReads(es[0]) && !c.listed {
      ReadSpeaks(c, es[0]);
      RunGrows(d, es[1..]);
      StaysReset(d, After(c, es));
    } else {
      StepAccounted(c, es[0]);
      ReadingOutSpeaks(d, es[1..]);
    }
  }

  // ---- Where such a read comes from ----

  /** Suspended in the delivery of a payload with the FIN while the flush of what was held
      is still running. */
  predicate FinPendingInFlush(c: Conn) {
    c.handler.Draining? && HasFin(c.handler.t) && c.dial == Flushing
  }

  predicate StoppedInFlush(c: Conn, es: seq<Event>)
    requires CanRun(c, es)
    decreases |es|
  {
    |es| > 0 && ((es[0].Shutdown? && FinPendingInFlush(c)) || StoppedInFlush(Step(c, es[0]), es[1..]))
  }

  /** Out of the table, but the pump may come to read. */
  predicate Loose(c: Conn) {
    && !c.listed && (c.pump == Running || c.dial == Flushing)
    && (c.state != Closed || (c.handler.Draining? && HasFin(c.handler.t)))
  }

  lemma CloseStaysFast(c: Conn)
    requires Tasks(c) && c.listed && !FinPendingInFlush(c)
    ensures !Loose(Close(c, true))
  {
  }

  lemma DialStaysFast(c: Conn, e: Event)
    requires Tasks(c) && !Loose(c) && Enabled(c, e) && (e.Dialled? || e.CancelSeen? || e.Flushed?)
    ensures !Loose(Step(c, e))
  {
  }

  lemma StaysFast(c: Conn, e: Event)
    requires Tasks(c) && !Loose(c) && Enabled(c, e) && !(e.Shutdown? && FinPendingInFlush(c))
    requires !(e.Drained? && !e.ok)
    ensures !Loose(Step(c, e))
  {
    match e
    case FromChip(t) => SegmentLeaves(c, t);
    case Drained(_) =>
    case Chunk(data) => SendChunkFrame(c, data);
    case ReadFailed => CloseStaysFast(c);
    case Shutdown => CloseStaysFast(c);
    case HostEof =>
    case PumpExit =>
    case _ => DialStaysFast(c, e);
  }

  /** Only a shutdown that falls into such a delivery lets the pump read later. */
  lemma {:induction false} ReadingOutNeedsStop(c: Conn, es: seq<Event>)
    requires Tasks(c) && !Loose(c) && CanRun(c, es) && ReadsWhileOut(c, es)
    requires forall k :: 0 <= k < |es| ==> !(es[k].Drained? && !es[k].ok)
    ensures StoppedInFlush(c, es)
    decreases |es|
  {
    if !(es[0].Shutdown? && FinPendingInFlush(c)) && !(PumpReads(es[0]) && !c.listed) {
      StepTasks(c, es[0]);
      StaysFast(c, es[0]);
      ReadingOutNeedsStop(Step(c, es[0]), es[1..]);
    }
  }

  // ---- When a reset goes out ----

  /** The dial, a write or a read of the host failed, or the bridge is stopped, while the
      connection is not closed. */
  predicate Fails(c: Conn, e: Event) {
    c.state != Closed
    && match e
       case Dialled(ok) => !ok
       case Drained(ok) => !ok
       case Flushed(ok) => !ok
       case ReadFailed => true
       case Shutdown => true
       case _ => false
  }

  /** The one new emission is a reset, and the connection is closed and out of the table. */
  predicate Resets(c: Conn, d: Conn) {
    && |d.out| == |c.out| + 1 && HasRst(d.out[|c.out|].seg) && d.out[|c.out|].trueSeq == c.ourNext
    && d.state == Closed && !d.listed && d.pump != Running && d.dial != Dialling
  }

  lemma CloseResets(b: Conn)
    requires b.state != Closed
    ensures Resets(b, Close(b, true))
  {
  }

  lemma FailureResets(c: Conn, e: Event)
    requires Enabled(c, e) && Fails(c, e)
    ensures Resets(c, Step(c, e))
  {
    match e
    case Drained(_) => CloseResets(c.(handler := Idle));
    case Dialled(_) => CloseResets(c.(dial := Over));
    case Flushed(_) => CloseResets(c.(dial := Over));
    case ReadFailed => CloseResets(c);
    case Shutdown => CloseResets(c);
  }

  /** Nothing new is a reset. */
  ghost predicate NoNewReset(c: Conn, d: Conn) {
    Grows(c.out, d.out) && forall k :: |c.out| <= k < |d.out| ==> !HasRst(d.out[k].seg)
  }

  lemma OthersDoNotReset(c: Conn, e: Event)
    requires Enabled(c, e) && !Fails(c, e)
    ensures NoNewReset(c, Step(c, e))
  {
    match e
    case FromChip(t) => SegmentAdds(c, t);
    case Drained(ok) => if ok { DeliveredAdds(c.out, c.(handler := Idle), c.handler.t); }
    case Chunk(data) => ChunkGrows(c, data);
    case _ =>
  }

  /** Something failed along the run. */
  predicate Failed(c: Conn, es: seq<Event>)
    requires CanRun(c, es)
    decreases |es|
  {
    |es| > 0 && (Fails(c, es[0]) || Failed(Step(c, es[0]), es[1..]))
  }

  lemma {:induction false} RunResets(c: Conn, es: seq<Event>)
    requires CanRun(c, es)
    ensures WasReset(After(c, es)) <==> WasReset(c) || Failed(c, es)
    decreases |es|
  {
    if |es| > 0 {
      var d := Step(c, es[0]);
      RunResets(d, es[1..]);
      StepGrows(c, es[0]);
      StaysReset(c, d);
      if Fails(c, es[0]) {
        FailureResets(c, es[0]);
      } else {
        OthersDoNotReset(c, es[0]);
        if !WasReset(c) { NoResetYet(c, d); }
      }
    }
  }

  /** Over every run the chip is sent a reset exactly if the dial, a write or a read failed or
      the bridge was stopped while the connection was not closed. */
  lemma ResetIffFailed(id: Identity, deferred: bool, es: seq<Event>)
    requires CanRun(Opened(id, deferred), es)
    ensures WasReset(After(Opened(id, deferred), es)) <==> Failed(Opened(id, deferred), es)
  {
    RunResets(Opened(id, deferred), es);
  }

  // ---- Acknowledgement numbers ----

  /** No emission acknowledges more than is expected now, none less than one before it. */
  ghost predicate Rising(c: Conn) {
    && (forall k :: 0 <= k < |c.out| ==> c.out[k].trueAck <= c.chipNext)
    && (forall j, k :: 0 <= j < k < |c.out| ==> c.out[j].trueAck <= c.out[k].trueAck)
  }

  /** What is new acknowledges at least `n`. */
  ghost predicate Since(a: seq<Emission>, n: int, c: Conn) {
    Rising(c) && n <= c.chipNext && Grows(a, c.out) && forall k :: |a| <= k < |c.out| ==> n <= c.out[k].trueAck
  }

  lemma SendSince(a: seq<Emission>, n: int, c: Conn, flags: u16, payload: bytes)
    requires Since(a, n, c)
    ensures Since(a, n, Send(c, flags, payload))
  {
    var d := Send(c, flags, payload);
    assert forall k :: 0 <= k < |c.out| ==> d.out[k] == c.out[k];
  }

  lemma FinSince(a: seq<Emission>, n: int, c: Conn, t: Tcp)
    requires Since(a, n, c)
    ensures Since(a, n, OnFin(c, t))
  {
    if HasFin(t) {
      var f := AdvanceChip(c, 1).(state := CloseWait, finsIn := c.finsIn + 1);
      SendSince(a, n, if c.open then f.(eofs := c.eofs + 1) else f.(heldEof := true), TCP_ACK, []);
    }
  }

  lemma DeliveredSince(a: seq<Emission>, n: int, c: Conn, t: Tcp)
    requires Since(a, n, c)
    ensures Since(a, n, Delivered(c, t))
  {
    SendSince(a, n, AdvanceChip(c, |t.payload|), TCP_ACK, []);
    FinSince(a, n, AckOnly(AdvanceChip(c, |t.payload|)), t);
  }

  lemma DataSince(a: seq<Emission>, n: int, c: Conn, t: Tcp)
    requires Since(a, n, c)
    ensures Since(a, n, OnData(c, t))
  {
    if |t.payload| == 0 {
      FinSince(a, n, c, t);
    } else if t.seqNo != c.chipSeq {
      SendSince(a, n, c, TCP_ACK, []);
    } else if !c.open {
      DeliveredSince(a, n, c.(held := c.held + t.payload), t);
    }
  }

  lemma CloseSince(a: seq<Emission>, n: int, c: Conn, rst: bool)
    requires Since(a, n, c)
    ensures Since(a, n, Close(c, rst))
  {
    var d := Close(c, rst);
    assert forall k :: 0 <= k < |c.out| ==> d.out[k] == c.out[k];
  }

  lemma FinWaitSince(a: seq<Emission>, n: int, c: Conn, t: Tcp)
    requires Since(a, n, c)
    ensures Since(a, n, OnFinWait2(c, t))
  {
    if HasFin(t) {
      var d := AdvanceChip(c, 1).(finsIn := c.finsIn + 1);
      SendSince(a, n, d, TCP_ACK, []);
      CloseSince(a, n, AckOnly(d), false);
    }
  }

  lemma SegmentSince(a: seq<Emission>, n: int, c: Conn, t: Tcp)
    requires Since(a, n, c)
    ensures Since(a, n, HandleSegment(c, t))
  {
    if HasRst(t) {
      CloseSince(a, n, c, false);
    } else {
      match c.state
      case SynRcvd => DataSince(a, n, c.(state := Established), t);
      case Established => DataSince(a, n, c, t);
      case FinWait1 => FinWaitSince(a, n, if HasAck(t) && t.ackNo == c.ourSeq then c.(state := FinWait2) else c, t);
      case FinWait2 => FinWaitSince(a, n, c, t);
      case LastAck => CloseSince(a, n, c, false);
      case _ =>
    }
  }

  lemma {:induction false} ChunkSince(a: seq<Emission>, n: int, c: Conn, chunk: bytes)
    requires Since(a, n, c) && c.id.mss > 0
    ensures Since(a, n, SendChunk(c, chunk))
    decreases |chunk|
  {
    if |chunk| > 0 {
      var piece := Slice(chunk, 0, c.id.mss);
      SendSince(a, n, c, TCP_ACK + TCP_PSH, piece);
      ChunkSince(a, n, SendPiece(c, piece), Slice(chunk, c.id.mss, |chunk|));
    }
  }

  lemma HostEndedSince(a: seq<Emission>, n: int, c: Conn)
    requires Since(a, n, c)
    ensures Since(a, n, HostEnded(c))
  {
    if c.state == Established {
      SendSince(a, n, c.(state := FinWait1, pump := Ended), TCP_ACK + TCP_FIN, []);
    } else if c.state == CloseWait {
      SendSince(a, n, c.(state := LastAck, pump := Ended), TCP_ACK + TCP_FIN, []);
    }
  }

  lemma DialSince(a: seq<Emission>, n: int, c: Conn, e: Event)
    requires Since(a, n, c) && Enabled(c, e) && (e.Dialled? || e.CancelSeen? || e.Flushed?)
    ensures Since(a, n, Step(c, e))
  {
    CloseSince(a, n, c.(dial := Over), true);
  }

  /** Whatever a step sends acknowledges what was expected before it or more, and no more than
      what is expected after it; so if the step takes nothing in, exactly that. */
  lemma StepSince(c: Conn, e: Event)
    requires Rising(c) && Enabled(c, e)
    ensures Since(c.out, c.chipNext, Step(c, e))
  {
    var a, n := c.out, c.chipNext;
    match e
    case FromChip(t) => SegmentSince(a, n, c, t);
    case Drained(ok) =>
      var b := c.(handler := Idle);
      if ok { DeliveredSince(a, n, b, c.handler.t); } else { CloseSince(a, n, b, true); }
    case Chunk(data) => ChunkSince(a, n, c, data);
    case HostEof => HostEndedSince(a, n, c);
    case PumpExit => HostEndedSince(a, n, c);
    case ReadFailed => CloseSince(a, n, c, true);
    case Shutdown => CloseSince(a, n, c, true);
    case _ => DialSince(a, n, c, e);
  }

  lemma {:induction false} RunRises(c: Conn, es: seq<Event>)
    requires Rising(c) && CanRun(c, es)
    ensures Rising(After(c, es))
    decreases |es|
  {
    if |es| > 0 {
      StepSince(c, es[0]);
      RunRises(Step(c, es[0]), es[1..]);
    }
  }

  /** Over every run acknowledgements never go back. */
  lemma AcksNeverGoBack(id: Identity, deferred: bool, es: seq<Event>)
    requires CanRun(Opened(id, deferred), es)
    ensures var out := After(Opened(id, deferred), es).out;
            forall j, k :: 0 <= j < k < |out| ==> out[j].trueAck <= out[k].trueAck
  {
    RunRises(Opened(id, deferred), es);
  }
}
