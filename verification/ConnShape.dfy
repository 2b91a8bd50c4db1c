/** The meaning of the connection states, and the two granularities at which it holds. */
module ConnShape {
  import opened Bytes
  import opened SeqArith
  import opened Packets
  import opened ConnSpec
  import opened ConnRuns

  /** In the table exactly until closed; while it is, our FIN has been sent in FIN_WAIT_1,
      FIN_WAIT_2 and LAST_ACK and no other state, and the chip's has been consumed in
      CLOSE_WAIT and LAST_ACK and no other state. */
  predicate Shape(c: Conn) {
    && (c.listed <==> c.state != Closed)
    && c.finsIn <= 1 && c.finsOut <= 1
    && (c.state != Closed ==>
          && (c.finsOut == 1 <==> c.state == FinWait1 || c.state == FinWait2 || c.state == LastAck)
          && (c.finsIn == 1 <==> c.state == CloseWait || c.state == LastAck))
  }

  function Rank(s: State): nat {
    match s
    case SynRcvd => 4
    case Established => 3
    case FinWait1 | CloseWait => 2
    case FinWait2 | LastAck => 1
    case Closed => 0
  }

  // ---- Task discipline of every step, whatever the chip sends ----

  lemma OnDataTasks(c: Conn, t: Tcp)
    requires Tasks(c) && c.listed && c.handler == Idle && c.state == Established
    ensures Tasks(OnData(c, t))
  {
    if |t.payload| == 0 {
      OnFinTasks(c, t);
    } else if t.seqNo == c.chipSeq && !c.open {
      OnFinTasks(AckOnly(AdvanceChip(c.(held := c.held + t.payload), |t.payload|)), t);
    }
  }

  lemma OnFinWait2Tasks(c: Conn, t: Tcp)
    requires Tasks(c) && c.listed && c.handler == Idle && (c.state == FinWait1 || c.state == FinWait2)
    ensures Tasks(OnFinWait2(c, t))
  {
  }

  lemma HandleSegmentTasks(c: Conn, t: Tcp)
    requires Tasks(c) && c.listed && c.handler == Idle
    ensures Tasks(HandleSegment(c, t))
  {
    if HasRst(t) {
      CloseTasks(c, false);
    } else {
      match c.state
      case SynRcvd => OnDataTasks(c.(state := Established), t);
      case Established => OnDataTasks(c, t);
      case FinWait1 => OnFinWait2Tasks(if HasAck(t) && t.ackNo == c.ourSeq then c.(state := FinWait2) else c, t);
      case FinWait2 => OnFinWait2Tasks(c, t);
      case LastAck => CloseTasks(c, false);
      case _ =>
    }
  }

  lemma DrainedTasks(c: Conn, ok: bool)
    requires Tasks(c) && c.handler.Draining?
    ensures Tasks(Step(c, Drained(ok)))
  {
    if ok {
      OnFinTasks(AckOnly(AdvanceChip(c.(handler := Idle), |c.handler.t.payload|)), c.handler.t);
    }
  }

  lemma StepTasks(c: Conn, e: Event)
    requires Tasks(c) && Enabled(c, e)
    ensures Tasks(Step(c, e))
  {
    match e
    case FromChip(t) => HandleSegmentTasks(c, t);
    case Drained(ok) => DrainedTasks(c, ok);
    case Chunk(data) => SendChunkFrame(c, data);
    case HostEof => HostEndedTasks(c);
    case PumpExit => HostEndedTasks(c);
    case ReadFailed => CloseTasks(c, true);
    case Shutdown => CloseTasks(c, true);
    case Dialled(ok) => CloseTasks(c.(dial := Over), true);
    case Flushed(ok) => if !ok { FlushFailedTasks(c); }
    case CancelSeen =>
  }

  // ---- Fine steps ----

  /** At the granularity of suspension points the state meaning is kept by every step but
      one: resuming the delivery of a payload that carried a FIN after the state has left
      ESTABLISHED, because the handler then sets CLOSE_WAIT without looking. */
  lemma FineStepKeepsShapeIff(c: Conn, e: Event)
    requires Tasks(c) && Shape(c) && Enabled(c, e)
    ensures Shape(Step(c, e)) <==>
            !(e == Drained(true) && HasFin(c.handler.t) && c.state != Established)
  {
    match e
    case FromChip(t) => HandleSegmentShape(c, t);
    case Chunk(data) => SendChunkFrame(c, data);
    case _ =>
  }

  /** The state only moves on, and a delivery is suspended only in ESTABLISHED. */
  ghost predicate MovesOn(c: Conn, t: Tcp, d: Conn) {
    && Shape(d) && (d.state == c.state || Rank(d.state) < Rank(c.state))
    && (d.handler.Draining? ==> d.state == Established && d.handler.t == t)
  }

  lemma CloseShape(c: Conn, t: Tcp)
    requires Shape(c) && c.handler == Idle
    ensures MovesOn(c, t, Close(c, false))
  {
  }

  lemma OnDataShape(c: Conn, t: Tcp)
    requires Shape(c) && c.listed && c.handler == Idle && c.state == Established
    ensures MovesOn(c, t, OnData(c, t))
  {
  }

  lemma OnFinWait2Shape(c: Conn, t: Tcp)
    requires Shape(c) && c.listed && c.handler == Idle && (c.state == FinWait1 || c.state == FinWait2)
    ensures MovesOn(c, t, OnFinWait2(c, t))
  {
  }

  lemma HandleSegmentShape(c: Conn, t: Tcp)
    requires Shape(c) && c.listed && c.handler == Idle
    ensures MovesOn(c, t, HandleSegment(c, t))
  {
    if HasRst(t) {
      CloseShape(c, t);
    } else {
      match c.state
      case SynRcvd => OnDataShape(c.(state := Established), t);
      case Established => OnDataShape(c, t);
      case FinWait1 => OnFinWait2Shape(if HasAck(t) && t.ackNo == c.ourSeq then c.(state := FinWait2) else c, t);
      case FinWait2 => OnFinWait2Shape(c, t);
      case LastAck => CloseShape(c, t);
      case _ =>
    }
  }

  /** From `c` the events lead to `z`. */
  predicate Leads(c: Conn, es: seq<Event>, z: Conn) { CanRun(c, es) && After(c, es) == z }

  lemma LeadsOn(c: Conn, e: Event, es: seq<Event>, z: Conn) returns (more: seq<Event>)
    requires Enabled(c, e) && (Leads(Step(c, e), es, z) || (es == [] && Step(c, e) == z))
    ensures more == [e] + es && Leads(c, more, z)
  {
    more := [e] + es;
    assert more[1..] == es;
  }

  /** The pump reads end-of-file while the handler drains a payload with the FIN. */
  lemma EofDuringDrain(c: Conn, t: Tcp) returns (es: seq<Event>, z: Conn)
    requires c.state == Established && c.listed && c.handler == Idle && c.open && c.pump == Running && c.finsOut == 0
    requires !HasRst(t) && HasFin(t) && |t.payload| > 0 && t.seqNo == c.chipSeq
    ensures Leads(c, es, z)
    ensures z.state == CloseWait && z.finsOut == 1 && z.pump == Ended
  {
    var c2 := Step(c, FromChip(t));
    var c3 := Step(c2, HostEof);
    z := Step(c3, Drained(true));
    es := LeadsOn(c3, Drained(true), [], z);
    es := LeadsOn(c2, HostEof, es, z);
    es := LeadsOn(c, FromChip(t), es, z);
  }

  /** Such a run exists for every connection, and the connection stays in CLOSE_WAIT although
      its FIN is out and its pump is gone. */
  lemma ShapeFailsWhenInterleaved(id: Identity) returns (es: seq<Event>)
    ensures CanRun(Opened(id, false), es)
    ensures var c := After(Opened(id, false), es);
            c.state == CloseWait && c.finsOut == 1 && c.pump == Ended && !Shape(c)
  {
    var shake := Tcp(id.key.chipPort, id.key.dstPort, SeqAdd(id.chipIsn, 1), SeqAdd(id.ourIsn, 1),
                     5, TCP_ACK, 0, 0, 0, [], []);
    var last := shake.(flags := TCP_ACK + TCP_FIN, payload := [0]);
    var c := Opened(id, false);
    var rest, z := EofDuringDrain(Step(c, FromChip(shake)), last);
    es := LeadsOn(c, FromChip(shake), rest, z);
  }

  // ---- Coarse steps ----

  /** One handler call, pump read or dial outcome run to completion; `drainOk` says how
      the drain inside a handler call ends. */
  datatype Turn = Turn(e: Event, drainOk: bool)

  predicate CanTurn(c: Conn, u: Turn) { Enabled(c, u.e) && c.handler == Idle }

  function TurnStep(c: Conn, u: Turn): Conn
    requires CanTurn(c, u)
  {
    var d := Step(c, u.e);
    if d.handler.Draining? then Step(d, Drained(u.drainOk)) else d
  }

  lemma DrainedShape(c: Conn, ok: bool)
    requires Tasks(c) && Shape(c) && c.handler.Draining? && c.state == Established
    ensures var d := Step(c, Drained(ok));
            d.handler == Idle && Shape(d) && (d.state == c.state || Rank(d.state) < Rank(c.state))
  {
  }

  lemma TurnKeepsShape(c: Conn, u: Turn)
    requires Tasks(c) && Shape(c) && CanTurn(c, u)
    ensures var d := TurnStep(c, u);
            Tasks(d) && Shape(d) && d.handler == Idle
            && (d.state == c.state || Rank(d.state) < Rank(c.state))
  {
    var d := Step(c, u.e);
    StepTasks(c, u.e);
    FineStepKeepsShapeIff(c, u.e);
    if u.e.FromChip? {
      HandleSegmentShape(c, u.e.t);
      if d.handler.Draining? {
        StepTasks(d, Drained(u.drainOk));
        DrainedShape(d, u.drainOk);
      }
    } else {
      OtherTurnsLower(c, u.e);
    }
  }

  lemma OtherTurnsLower(c: Conn, e: Event)
    requires Tasks(c) && Enabled(c, e) && c.handler == Idle && !e.FromChip?
    ensures var d := Step(c, e);
            d.handler == Idle && (d.state == c.state || Rank(d.state) < Rank(c.state))
  {
    if e.Chunk? { SendChunkFrame(c, e.data); }
  }

  predicate CanTurns(c: Conn, us: seq<Turn>)
    decreases |us|
  {
    |us| == 0 || (CanTurn(c, us[0]) && CanTurns(TurnStep(c, us[0]), us[1..]))
  }

  function AfterTurns(c: Conn, us: seq<Turn>): Conn
    requires CanTurns(c, us)
    decreases |us|
  {
    if |us| == 0 then c else AfterTurns(TurnStep(c, us[0]), us[1..])
  }

  function Changes(c: Conn, us: seq<Turn>): nat
    requires CanTurns(c, us)
    decreases |us|
  {
    if |us| == 0 then 0
    else
      var d := TurnStep(c, us[0]);
      (if d.state == c.state then 0 else 1) + Changes(d, us[1..])
  }

  lemma {:induction false} TurnsKeepShape(c: Conn, us: seq<Turn>)
    requires Tasks(c) && Shape(c) && c.handler == Idle && CanTurns(c, us)
    ensures var d := AfterTurns(c, us);
            Tasks(d) && Shape(d) && d.handler == Idle && Changes(c, us) + Rank(d.state) <= Rank(c.state)
    decreases |us|
  {
    if |us| > 0 {
      TurnKeepsShape(c, us[0]);
      TurnsKeepShape(TurnStep(c, us[0]), us[1..]);
    }
  }

  /** With handler calls run to completion every reachable connection has the state
      meaning, whatever the chip sends, and its state changes at most four times. */
  lemma StateMeaning(id: Identity, deferred: bool, us: seq<Turn>)
    requires id.mss <= TCP_MSS && CanTurns(Opened(id, deferred), us)
    ensures Shape(AfterTurns(Opened(id, deferred), us))
    ensures Changes(Opened(id, deferred), us) <= 4
  {
    TurnsKeepShape(Opened(id, deferred), us);
  }

  // ---- The pump ----

  predicate PumpTurn(e: Event) { e.Chunk? || e.HostEof? || e.ReadFailed? || e.PumpExit? }

  lemma EndedStaysEnded(c: Conn, e: Event)
    requires Tasks(c) && c.pump == Ended && Enabled(c, e)
    ensures Step(c, e).pump == Ended && !PumpTurn(e)
  {
    match e
    case FromChip(t) => SegmentKeepsPump(c, t);
    case Drained(_) =>
      DeliveredKeepsPump(c.(handler := Idle), c.handler.t);
      ClosePump(c.(handler := Idle), true);
    case _ =>
  }

  lemma ClosePump(c: Conn, rst: bool)
    ensures Close(c, rst).pump == if c.state != Closed && c.pump == Running then Ended else c.pump
  {
  }

  lemma DataKeepsPump(c: Conn, t: Tcp)
    ensures OnData(c, t).pump == c.pump
  {
    FinKeepsPump(c, t);
    DeliveredKeepsPump(c.(held := c.held + t.payload), t);
  }

  lemma FinKeepsPump(c: Conn, t: Tcp)
    ensures OnFin(c, t).pump == c.pump
  {
  }

  lemma DeliveredKeepsPump(c: Conn, t: Tcp)
    ensures Delivered(c, t).pump == c.pump
  {
    FinKeepsPump(AckOnly(AdvanceChip(c, |t.payload|)), t);
  }

  lemma FinWaitKeepsPump(c: Conn, t: Tcp)
    requires c.pump == Ended
    ensures OnFinWait2(c, t).pump == Ended
  {
    ClosePump(AckOnly(AdvanceChip(c, 1).(finsIn := c.finsIn + 1)), false);
  }

  lemma SegmentKeepsPump(c: Conn, t: Tcp)
    requires c.pump == Ended
    ensures HandleSegment(c, t).pump == Ended
  {
    ClosePump(c, false);
    match c.state
    case SynRcvd => DataKeepsPump(c.(state := Established), t);
    case Established => DataKeepsPump(c, t);
    case FinWait1 =>
      FinWaitKeepsPump(c, t);
      FinWaitKeepsPump(c.(state := FinWait2), t);
    case FinWait2 => FinWaitKeepsPump(c, t);
    case _ =>
  }

  lemma {:induction false} EndedForGood(c: Conn, es: seq<Event>)
    requires Tasks(c) && c.pump == Ended && CanRun(c, es)
    ensures forall k :: 0 <= k < |es| ==> !PumpTurn(es[k])
    decreases |es|
  {
    if |es| > 0 {
      StepTasks(c, es[0]);
      EndedStaysEnded(c, es[0]);
      EndedForGood(Step(c, es[0]), es[1..]);
      assert forall k :: 1 <= k < |es| ==> es[k] == es[1..][k - 1];
    }
  }

  lemma {:induction false} RunTasks(c: Conn, es: seq<Event>)
    requires Tasks(c) && CanRun(c, es)
    ensures Tasks(After(c, es))
    decreases |es|
  {
    if |es| > 0 {
      StepTasks(c, es[0]);
      RunTasks(Step(c, es[0]), es[1..]);
    }
  }

  /** Over every run: after the host's end-of-file, a failed read or a closed connection ended
      its loop, the pump never reads again, and it is never started a second time. */
  lemma PumpEndsForGood(id: Identity, deferred: bool, es: seq<Event>, e: Event, more: seq<Event>)
    requires id.mss <= TCP_MSS
    requires CanRun(Opened(id, deferred), es) && Enabled(After(Opened(id, deferred), es), e)
    requires e.HostEof? || e.ReadFailed? || e.PumpExit?
    requires CanRun(Step(After(Opened(id, deferred), es), e), more)
    ensures forall k :: 0 <= k < |more| ==> !PumpTurn(more[k])
  {
    var c := After(Opened(id, deferred), es);
    OpenedInv(id, deferred, []);
    RunTasks(Opened(id, deferred), es);
    StepTasks(c, e);
    EndedForGood(Step(c, e), more);
  }

  // ---- Acknowledged FINs ----

  lemma FinSent(c: Conn, s: bytes)
    requires Inv(c, s) && (c.state == LastAck || c.state == FinWait1)
    ensures c.ourSeq == Wrap(c.ourNext) && c.ourNext == c.id.ourIsn + 1 + |c.got| + 1
  {
  }

  lemma LastAckClosesBeyond(c: Conn, t: Tcp, a: int)
    requires c.state == LastAck && !HasRst(t) && c.ourSeq == Wrap(c.ourNext)
    requires t.ackNo == Wrap(a) && -HALF <= a - c.ourNext < HALF
    ensures HandleSegment(c, t).state == Closed <==> HasAck(t) && a >= c.ourNext
  {
    ComparisonsAgree(a, c.ourNext);
  }

  /** In LAST_ACK a segment other than a reset closes the connection exactly when it
      acknowledges our FIN, for acknowledgements within half the number space. */
  lemma LastAckClosesOnFinAck(c: Conn, s: bytes, t: Tcp, a: int)
    requires Inv(c, s) && c.state == LastAck && !HasRst(t)
    requires t.ackNo == Wrap(a) && -HALF <= a - c.ourNext < HALF
    ensures HandleSegment(c, t).state == Closed <==> HasAck(t) && a >= c.id.ourIsn + 1 + |c.got| + 1
  {
    FinSent(c, s);
    LastAckClosesBeyond(c, t, a);
  }

  /** FIN_WAIT_1 is left for FIN_WAIT_2 exactly on an acknowledgement of our FIN. */
  lemma FinWait1LeavesOnFinAck(c: Conn, s: bytes, t: Tcp, a: int)
    requires Inv(c, s) && c.state == FinWait1 && !HasRst(t) && !HasFin(t)
    requires t.ackNo == Wrap(a) && -M < a - c.ourNext < M
    ensures HandleSegment(c, t).state == FinWait2 <==> HasAck(t) && a == c.id.ourIsn + 1 + |c.got| + 1
  {
    if Wrap(a) == Wrap(c.ourNext) { WrapInjective(a, c.ourNext); }
  }
}
