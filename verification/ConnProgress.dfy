/** What a connection does when its turn comes: the counterpart of the safety results. */
module ConnProgress {
  import opened Bytes
  import opened SeqArith
  import opened Packets
  import opened Reassembly
  import opened ConnSpec
  import opened ConnLog
  import opened ConnRuns
  import opened ConnShape

  function Last(c: Conn): Emission
    requires |c.out| > 0
  {
    c.out[|c.out| - 1]
  }

  /** Ready for the chip's data: established, or about to be by this very segment. */
  predicate Receiving(c: Conn, t: Tcp) {
    && c.listed && c.handler == Idle && !HasRst(t)
    && (c.state == Established || (c.state == SynRcvd && HasAck(t) && t.ackNo == c.ourSeq))
  }

  /** The connection as it takes the payload. */
  lemma Ready(c: Conn, t: Tcp, s: bytes) returns (e: Conn)
    requires Inv(c, s) && Receiving(c, t) && |t.payload| > 0
    ensures HandleSegment(c, t) == OnData(e, t) && e == c.(state := Established)
    ensures Counters(e) && Tasks(e) && Accepted(e) == Accepted(c)
  {
    e := c.(state := Established);
  }

  /** The next payload is always taken whole and acknowledged up to its last byte, its FIN
      included; with the FIN the host is told, or will be, that the stream is over. */
  lemma NextPayloadTaken(c: Conn, t: Tcp, s: bytes)
    requires Inv(c, s) && Receiving(c, t) && |t.payload| > 0
    requires t.seqNo == Wrap(c.id.chipIsn + 1 + |Accepted(c)|)
    ensures var d := Completed(HandleSegment(c, t));
            && Accepted(d) == Accepted(c) + t.payload && (d.finsIn == 1 <==> HasFin(t))
            && |d.out| > |c.out| && Last(d).seg.ackNo == d.chipSeq && HasAck(Last(d).seg)
            && d.chipSeq == Wrap(c.id.chipIsn + 1 + |Accepted(c)| + |t.payload| + d.finsIn)
            && d.state == (if HasFin(t) then CloseWait else Established)
            && d.eofs + (if d.heldEof then 1 else 0) == d.finsIn
  {
    var e := Ready(c, t, s);
    TakenInOrder(e, t);
  }

  /** A payload written to the open socket, or held for it. */
  function WithPayload(c: Conn, t: Tcp): Conn {
    if c.open then c.(sent := c.sent + t.payload) else c.(held := c.held + t.payload)
  }

  lemma CompletedData(c: Conn, t: Tcp)
    requires c.handler == Idle && |t.payload| > 0 && t.seqNo == c.chipSeq
    ensures Completed(OnData(c, t)) == Delivered(WithPayload(c, t), t)
  {
    assert WithPayload(c, t).(handler := Idle) == WithPayload(c, t);
  }

  lemma FinOutcome(b: Conn, t: Tcp)
    ensures var d := OnFin(b, t);
            && Accepted(d) == Accepted(b)
            && (HasFin(t) ==> |d.out| == |b.out| + 1 && Last(d).seg.flags == TCP_ACK && Last(d).seg.ackNo == d.chipSeq)
            && (!HasFin(t) ==> d == b)
  {
  }

  /** A delivery ends with an acknowledgement of everything up to its payload and FIN. */
  lemma DeliveryOutcome(b: Conn, t: Tcp)
    ensures var d := Delivered(b, t);
            && Accepted(d) == Accepted(b)
            && |d.out| > |b.out| && Last(d).seg.flags == TCP_ACK && Last(d).seg.ackNo == d.chipSeq
  {
    FinOutcome(AckOnly(AdvanceChip(b, |t.payload|)), t);
  }

  lemma DeliveryState(b: Conn, t: Tcp)
    requires b.state == Established && b.finsIn == 0 && b.eofs == 0 && !b.heldEof && b.chipSeq == Wrap(b.chipNext)
    ensures var d := Delivered(b, t);
            && d.state == (if HasFin(t) then CloseWait else Established) && d.finsIn == (if HasFin(t) then 1 else 0)
            && d.eofs + (if d.heldEof then 1 else 0) == d.finsIn
            && d.chipSeq == Wrap(b.chipNext + |t.payload| + d.finsIn)
  {
    WrapAdd(b.chipNext, |t.payload|);
    WrapAdd(b.chipNext + |t.payload|, 1);
  }

  lemma TakenInOrder(c: Conn, t: Tcp)
    requires Counters(c) && Tasks(c) && c.listed && c.handler == Idle && c.state == Established
    requires |t.payload| > 0 && t.seqNo == Wrap(c.id.chipIsn + 1 + |Accepted(c)|)
    ensures var d := Completed(OnData(c, t));
            && Accepted(d) == Accepted(c) + t.payload && (d.finsIn == 1 <==> HasFin(t))
            && |d.out| > |c.out| && Last(d).seg.ackNo == d.chipSeq && HasAck(Last(d).seg)
            && d.chipSeq == Wrap(c.id.chipIsn + 1 + |Accepted(c)| + |t.payload| + d.finsIn)
            && d.state == (if HasFin(t) then CloseWait else Established)
            && d.eofs + (if d.heldEof then 1 else 0) == d.finsIn
  {
    CompletedData(c, t);
    TakenAccepted(c, t, WithPayload(c, t));
    DeliveryOutcome(WithPayload(c, t), t);
    DeliveryState(WithPayload(c, t), t);
  }

  /** SYN_RCVD is left exactly on a reset or on an acknowledgement of our SYN. */
  lemma SynRcvdLeavesOnOurAck(c: Conn, s: bytes, t: Tcp, a: int)
    requires Inv(c, s) && c.state == SynRcvd && t.ackNo == Wrap(a) && -M < a - c.ourNext < M
    ensures HandleSegment(c, t).state != SynRcvd <==> HasRst(t) || (HasAck(t) && a == c.id.ourIsn + 1)
  {
    if Wrap(a) == Wrap(c.ourNext) { WrapInjective(a, c.ourNext); }
    if HasAck(t) && t.ackNo == c.ourSeq && |t.payload| > 0 { OnDataState(c.(state := Established), t); }
  }

  lemma OnDataState(c: Conn, t: Tcp)
    requires c.state == Established
    ensures OnData(c, t).state == Established || OnData(c, t).state == CloseWait
  {
  }

  lemma CarriesWhatWasRead(c: Conn, s: bytes)
    requires Inv(c, s)
    ensures Data(c.out) == c.got
  {
    LogCarries(c.out, c.got, c.finsOut, c.id.ourIsn + 1);
  }

  lemma CountersMoved(c: Conn, d: Conn, n: nat)
    requires Counters(c) && Counters(d) && d.id == c.id && d.finsOut == c.finsOut && |d.got| == |c.got| + n
    ensures d.ourSeq == SeqAdd(c.ourSeq, n)
  {
    WrapAdd(c.ourNext, n);
  }

  /** From `from` on the emissions carry `size` bytes each, the last one what is left. */
  predicate Pieces(out: seq<Emission>, from: nat, size: nat) {
    && (forall k :: from <= k < |out| - 1 ==> |out[k].seg.payload| == size)
    && (from < |out| ==> 0 < |out[|out| - 1].seg.payload| <= size)
  }

  lemma {:induction false} ChunkInPieces(c: Conn, chunk: bytes)
    requires c.id.mss > 0
    ensures var d := SendChunk(c, chunk);
            |c.out| <= |d.out| && d.out[..|c.out|] == c.out && Pieces(d.out, |c.out|, c.id.mss)
    ensures chunk == [] <==> |SendChunk(c, chunk).out| == |c.out|
    decreases |chunk|
  {
    if |chunk| > 0 {
      var b := SendPiece(c, Slice(chunk, 0, c.id.mss));
      ChunkInPieces(b, Slice(chunk, c.id.mss, |chunk|));
      var d := SendChunk(c, chunk);
      assert d.out[|c.out|] == d.out[..|b.out|][|c.out|] == b.out[|c.out|];
      assert d.out[..|c.out|] == d.out[..|b.out|][..|c.out|];
    }
  }

  /** A chunk read goes out whole before the pump reads again, in pieces of the negotiated size
      and one of what is left. */
  lemma ChunkGoesOut(c: Conn, s: bytes, data: bytes)
    requires Inv(c, s) && Enabled(c, Chunk(data))
    ensures var d := Step(c, Chunk(data));
            && Data(d.out) == Data(c.out) + data && d.ourSeq == SeqAdd(c.ourSeq, |data|) && d.state == c.state
            && |c.out| < |d.out| && Pieces(d.out, |c.out|, c.id.mss)
  {
    ChunkInPieces(c, data);
    var d := SendChunk(c, data);
    SendChunkKeeps(c, data, s);
    SendChunkFrame(c, data);
    CarriesWhatWasRead(c, s);
    CarriesWhatWasRead(d, s);
    CountersMoved(c, d, |data|);
  }

  /** Over every run: once the socket is open and the flush over, nothing is held back; the
      host has been given everything accepted, and in CLOSE_WAIT and LAST_ACK its end. */
  lemma NothingHeldBack(id: Identity, deferred: bool, es: seq<Event>, s: bytes)
    requires History(id, deferred, es, s)
    ensures var c := After(Opened(id, deferred), es);
            c.open && c.dial != Flushing ==>
              && c.sent == Accepted(c)
              && (c.state == CloseWait || c.state == LastAck ==> c.eofs == 1)
  {
    Reached(id, deferred, es, s);
    var c := After(Opened(id, deferred), es);
    assert c.sent + [] == c.sent;
  }

  // ---- What is answered ----

  /** The segment draws an acknowledgement. */
  predicate Acknowledged(c: Conn, t: Tcp) {
    match c.state
    case SynRcvd => HasAck(t) && t.ackNo == c.ourSeq && |t.payload| > 0
    case Established => |t.payload| > 0 || HasFin(t)
    case FinWait1 | FinWait2 => HasFin(t)
    case _ => false
  }

  /** Handled to its end, a segment other than a reset is answered exactly in these cases,
      always with an acknowledgement of what is then expected. In CLOSE_WAIT and LAST_ACK
      none is, not even a retransmission. */
  lemma AcknowledgedIff(c: Conn, t: Tcp, s: bytes)
    requires Inv(c, s) && c.listed && c.handler == Idle && !HasRst(t)
    ensures var d := Completed(HandleSegment(c, t));
            && (|d.out| > |c.out| <==> Acknowledged(c, t))
            && (|d.out| > |c.out| ==> Last(d).seg.flags == TCP_ACK && Last(d).seg.ackNo == d.chipSeq)
            && (!Acknowledged(c, t) ==> d.out == c.out)
  {
    if c.state == SynRcvd && Acknowledged(c, t) {
      DataAcknowledged(c.(state := Established), t);
    } else if c.state == Established {
      DataAcknowledged(c, t);
    }
  }

  lemma DataAcknowledged(c: Conn, t: Tcp)
    requires c.handler == Idle && c.state == Established
    ensures var d := Completed(OnData(c, t));
            && (|d.out| > |c.out| <==> |t.payload| > 0 || HasFin(t))
            && (|d.out| > |c.out| ==> Last(d).seg.flags == TCP_ACK && Last(d).seg.ackNo == d.chipSeq)
            && (|t.payload| == 0 && !HasFin(t) ==> d.out == c.out)
  {
    if |t.payload| == 0 {
      FinOutcome(c, t);
    } else if t.seqNo == c.chipSeq {
      CompletedData(c, t);
      DeliveryOutcome(WithPayload(c, t), t);
    }
  }

  /** From the `n`th on no emission is a bare acknowledgement. */
  ghost predicate SpeaksFrom(c: Conn, n: nat) {
    n <= |c.out| && forall k :: n <= k < |c.out| ==> Speaks(c.out[k])
  }

  /** The chip's FIN has been taken and nothing more of it can be. */
  predicate Finished(c: Conn) {
    c.handler == Idle && c.finsIn == 1 && (c.state == CloseWait || c.state == LastAck || c.state == Closed)
  }

  lemma {:induction false} ChunkSpeaks(c: Conn, chunk: bytes, n: nat)
    requires SpeaksFrom(c, n) && c.id.mss > 0
    ensures SpeaksFrom(SendChunk(c, chunk), n)
    decreases |chunk|
  {
    if |chunk| > 0 { ChunkSpeaks(SendPiece(c, Slice(chunk, 0, c.id.mss)), Slice(chunk, c.id.mss, |chunk|), n); }
  }

  lemma CloseSpeaks(c: Conn, rst: bool, n: nat)
    requires SpeaksFrom(c, n)
    ensures SpeaksFrom(Close(c, rst), n)
  {
  }

  lemma FinishedStep(c: Conn, e: Event, n: nat)
    requires Tasks(c) && Finished(c) && Enabled(c, e) && SpeaksFrom(c, n)
    ensures Finished(Step(c, e)) && SpeaksFrom(Step(c, e), n)
  {
    match e
    case FromChip(t) => CloseSpeaks(c, false, n);
    case Chunk(data) =>
      ChunkSpeaks(c, data, n);
      SendChunkFrame(c, data);
    case Dialled(ok) => CloseSpeaks(c.(dial := Over), true, n);
    case Flushed(ok) => CloseSpeaks(c.(dial := Over), true, n);
    case ReadFailed => CloseSpeaks(c, true, n);
    case Shutdown => CloseSpeaks(c, true, n);
    case _ =>
  }

  lemma {:induction false} FinishedRun(c: Conn, es: seq<Event>, n: nat)
    requires Tasks(c) && Finished(c) && CanRun(c, es) && SpeaksFrom(c, n)
    ensures SpeaksFrom(After(c, es), n)
    decreases |es|
  {
    if |es| > 0 {
      StepTasks(c, es[0]);
      FinishedStep(c, es[0], n);
      FinishedRun(Step(c, es[0]), es[1..], n);
    }
  }

  /** Once the chip's FIN has been taken it is never acknowledged again on its own: along
      every run, whatever the chip retransmits, all further emissions carry payload of the
      host, our FIN or a reset. A chip that lost the one acknowledgement waits for the host. */
  lemma NeverReAcknowledged(c: Conn, es: seq<Event>, s: bytes)
    requires Inv(c, s) && Finished(c) && CanRun(c, es)
    ensures |After(c, es).out| >= |c.out|
    ensures forall k :: |c.out| <= k < |After(c, es).out| ==> Speaks(After(c, es).out[k])
  {
    FinishedRun(c, es, |c.out|);
  }
}
