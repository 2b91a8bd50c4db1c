/** Where the chip's FIN stands. The program takes a FIN that carries no payload wherever it
    stands, and after the host's end-of-file discards payloads but not the FIN behind them;
    this module says exactly when that does harm. */
module ConnFin {
  import opened Bytes
  import opened SeqArith
  import opened Packets
  import opened Reassembly
  import opened ConnSpec
  import opened ConnLog
  import opened ConnRuns

  /** A FIN of the chip stands behind the last byte of its stream `s`, less than 2^32 away
      from what has been accepted when it arrives. */
  ghost predicate EndsStream(t: Tcp, isn: int, s: bytes, accepted: nat) {
    HasFin(t) ==>
      |t.payload| <= |s| && Carries(t.seqNo, t.payload, isn, s, |s| - |t.payload|) && |s| - accepted < M
  }

  /** The step takes a FIN that is not the next thing expected: in ESTABLISHED without
      payload at another number, in FIN_WAIT_1 and FIN_WAIT_2 anything but the byte after
      those taken, the payload the segment brings along counted as missing. */
  predicate Misplaced(c: Conn, e: Event) {
    e.FromChip? && HasFin(e.t) && !HasRst(e.t)
    && match c.state
       case Established => |e.t.payload| == 0 && e.t.seqNo != c.chipSeq
       case FinWait1 | FinWait2 => SeqAdd(e.t.seqNo, |e.t.payload|) != c.chipSeq
       case _ => false
  }

  /** What the chip sent, as the two premises say. */
  ghost predicate Belongs(c: Conn, t: Tcp, s: bytes) {
    && Genuine(t.seqNo, t.payload, c.id.chipIsn, s, |Accepted(c)|)
    && EndsStream(t, c.id.chipIsn, s, |Accepted(c)|)
  }

  predicate FinsInPlace(c: Conn, es: seq<Event>)
    requires CanRun(c, es)
    decreases |es|
  {
    |es| == 0 || (!Misplaced(c, es[0]) && FinsInPlace(Step(c, es[0]), es[1..]))
  }

  /** Every FIN along the run stands behind the last byte of `s`. */
  ghost predicate FinsEnd(c: Conn, es: seq<Event>, s: bytes)
    requires CanRun(c, es)
    decreases |es|
  {
    |es| == 0
    || ((es[0].FromChip? ==> EndsStream(es[0].t, c.id.chipIsn, s, |Accepted(c)|))
        && FinsEnd(Step(c, es[0]), es[1..], s))
  }

  /** The emission acknowledges byte `k` of the chip's stream. */
  predicate Covers(e: Emission, isn: int, k: nat) { isn + 1 + k < e.trueAck }

  /** No acknowledgement covers a byte of `s` neither written nor held, and the host is told
      that the stream is over only when it has been given all of it. */
  ghost predicate Honest(c: Conn, s: bytes) {
    && (forall i, k: nat :: 0 <= i < |c.out| && k < |s| && Covers(c.out[i], c.id.chipIsn, k) ==> k < |Accepted(c)|)
    && (c.eofs > 0 ==> c.sent == s)
  }

  /** `v` tells whether the FINs so far were in place: with one taken, that is so exactly if
      all of `s` has been accepted, and it has been acknowledged. */
  ghost predicate Settled(c: Conn, s: bytes, v: bool) {
    && (if c.finsIn == 0 then v
        else (Accepted(c) == s <==> v) && exists i :: 0 <= i < |c.out| && c.out[i].trueAck == Covered(c))
    && (c.handler.Draining? && HasFin(c.handler.t) ==> Accepted(c) == s)
  }

  // ---- One step ----

  /** Nothing about what the chip sent changes. */
  predicate SameIntake(c: Conn, d: Conn) {
    && Accepted(d) == Accepted(c) && d.finsIn == c.finsIn && d.id == c.id && d.handler == c.handler
    && |c.out| <= |d.out| && d.out[..|c.out|] == c.out
  }

  lemma SameIntakeSettled(c: Conn, d: Conn, s: bytes, v: bool)
    requires Settled(c, s, v) && SameIntake(c, d)
    ensures Settled(d, s, v)
  {
    if c.finsIn != 0 {
      var i :| 0 <= i < |c.out| && c.out[i].trueAck == Covered(c);
      assert d.out[..|c.out|][i] == d.out[i];
    }
  }

  lemma {:induction false} SendChunkIntake(c: Conn, chunk: bytes)
    requires c.id.mss > 0
    ensures SameIntake(c, SendChunk(c, chunk))
    decreases |chunk|
  {
    if |chunk| > 0 {
      var b := SendPiece(c, Slice(chunk, 0, c.id.mss));
      SendChunkIntake(b, Slice(chunk, c.id.mss, |chunk|));
      var d := SendChunk(c, chunk);
      assert d.out[..|b.out|] == b.out;
      assert d.out[..|c.out|] == d.out[..|b.out|][..|c.out|];
    }
  }

  lemma CloseIntake(c: Conn, rst: bool)
    ensures SameIntake(c, Close(c, rst))
  {
  }

  lemma DialIntake(c: Conn, e: Event)
    requires Tasks(c) && Enabled(c, e) && (e.Dialled? || e.CancelSeen? || e.Flushed?)
    ensures SameIntake(c, Step(c, e))
  {
    if e.Dialled? {
      assert [] + c.held + [] == c.held && [] + c.held == c.held;
    }
  }

  lemma OtherIntake(c: Conn, e: Event)
    requires Tasks(c) && Enabled(c, e) && !e.FromChip? && !e.Drained?
    ensures SameIntake(c, Step(c, e))
  {
    match e
    case Chunk(data) => SendChunkIntake(c, data);
    case HostEof =>
    case PumpExit =>
    case ReadFailed => CloseIntake(c, true);
    case Shutdown => CloseIntake(c, true);
    case _ => DialIntake(c, e);
  }

  /** The FIN at the expected number is the end of the stream, and only it. */
  lemma BareFinInPlaceIff(c: Conn, t: Tcp, s: bytes)
    requires Inv(c, s) && c.listed && c.handler == Idle && c.finsIn == 0 && HasFin(t)
    requires EndsStream(t, c.id.chipIsn, s, |Accepted(c)|)
    ensures SeqAdd(t.seqNo, |t.payload|) == c.chipSeq <==> Accepted(c) == s
  {
    WrapAdd(c.id.chipIsn + 1 + |s| - |t.payload|, |t.payload|);
    if Wrap(c.id.chipIsn + 1 + |s|) == Wrap(c.chipNext) {
      WrapInjective(c.id.chipIsn + 1 + |s|, c.chipNext);
    }
  }

  /** A payload with the FIN, taken in order, completes the stream. */
  lemma LastPayloadCompletes(c: Conn, t: Tcp, s: bytes)
    requires Inv(c, s) && c.listed && c.handler == Idle && c.finsIn == 0 && HasFin(t)
    requires |t.payload| > 0 && t.seqNo == c.chipSeq
    requires Belongs(c, t, s)
    ensures Accepted(c) + t.payload == s
  {
    InOrderExtends(Accepted(c), s, c.id.chipIsn, t.seqNo, t.payload);
    WrapInjective(c.id.chipIsn + 1 + |s| - |t.payload|, c.chipNext);
  }

  /** Taking a FIN, acknowledged at once. */
  lemma FinTaken(c: Conn, d: Conn, s: bytes, v: bool)
    requires c.finsIn == 0 && d.finsIn == 1 && d.id == c.id && Accepted(d) == Accepted(c) && d.handler == Idle
    requires |d.out| > 0 && d.out[|d.out| - 1].trueAck == Covered(d)
    requires v <==> Accepted(d) == s
    ensures Settled(d, s, v)
  {
  }

  lemma BareSettled(c: Conn, t: Tcp, s: bytes, v: bool)
    requires Inv(c, s) && c.listed && c.handler == Idle && c.state == Established && Settled(c, s, v)
    requires Belongs(c, t, s) && |t.payload| == 0
    ensures Settled(OnData(c, t), s, v && !(HasFin(t) && t.seqNo != c.chipSeq))
  {
    if HasFin(t) {
      BareFinInPlaceIff(c, t, s);
      WrapAdd(t.seqNo, 0);
      assert Accepted(OnFin(c, t)) == Accepted(c);
      FinTaken(c, OnFin(c, t), s, t.seqNo == c.chipSeq);
    }
  }

  lemma PayloadSettled(c: Conn, t: Tcp, s: bytes, v: bool)
    requires Inv(c, s) && c.listed && c.handler == Idle && c.state == Established && Settled(c, s, v)
    requires Belongs(c, t, s) && |t.payload| > 0 && t.seqNo == c.chipSeq
    ensures Settled(OnData(c, t), s, v)
  {
    var b := if c.open then c.(sent := c.sent + t.payload) else c.(held := c.held + t.payload);
    assert Accepted(b) == Accepted(c) + t.payload;
    if HasFin(t) { LastPayloadCompletes(c, t, s); }
    if !c.open { DeliveredSettled(b, t, s, v); } else { assert Accepted(OnData(c, t)) == Accepted(b); }
  }

  lemma OnDataSettled(c: Conn, t: Tcp, s: bytes, v: bool)
    requires Inv(c, s) && c.listed && c.handler == Idle && c.state == Established && Settled(c, s, v)
    requires Belongs(c, t, s)
    ensures Settled(OnData(c, t), s, v && !(HasFin(t) && |t.payload| == 0 && t.seqNo != c.chipSeq))
  {
    if |t.payload| == 0 {
      BareSettled(c, t, s, v);
    } else if t.seqNo != c.chipSeq {
      assert Accepted(AckOnly(c)) == Accepted(c);
    } else {
      PayloadSettled(c, t, s, v);
    }
  }

  /** The rest of a delivery. */
  lemma DeliveredSettled(b: Conn, t: Tcp, s: bytes, v: bool)
    requires b.finsIn == 0 && b.handler == Idle && v && (HasFin(t) ==> Accepted(b) == s)
    requires b.chipNext + |t.payload| == Covered(b)
    ensures Settled(Delivered(b, t), s, v)
  {
    var d := AckOnly(AdvanceChip(b, |t.payload|));
    assert Accepted(Delivered(b, t)) == Accepted(b);
    if HasFin(t) { FinTaken(b, Delivered(b, t), s, true); }
  }

  lemma FinWaitSettled(c: Conn, t: Tcp, s: bytes, v: bool)
    requires Inv(c, s) && c.listed && c.handler == Idle && (c.state == FinWait1 || c.state == FinWait2)
    requires Settled(c, s, v) && EndsStream(t, c.id.chipIsn, s, |Accepted(c)|)
    ensures Settled(OnFinWait2(c, t), s, v && !(HasFin(t) && SeqAdd(t.seqNo, |t.payload|) != c.chipSeq))
  {
    if HasFin(t) {
      BareFinInPlaceIff(c, t, s);
      var d := OnFinWait2(c, t);
      assert Accepted(d) == Accepted(c);
      FinTaken(c, d, s, SeqAdd(t.seqNo, |t.payload|) == c.chipSeq);
    }
  }

  lemma HandshakeSettled(c: Conn, t: Tcp, s: bytes, v: bool)
    requires Inv(c, s) && c.listed && c.handler == Idle && c.state == SynRcvd && Settled(c, s, v)
    requires Belongs(c, t, s)
    ensures Settled(OnHandshake(c, t), s, v)
  {
    if HasAck(t) && t.ackNo == c.ourSeq {
      var d := c.(state := Established);
      SameIntakeSettled(c, d, s, v);
      assert Inv(d, s);
      if |t.payload| > 0 { OnDataSettled(d, t, s, v); }
    }
  }

  lemma FinWait1Settled(c: Conn, t: Tcp, s: bytes, v: bool)
    requires Inv(c, s) && c.listed && c.handler == Idle && c.state == FinWait1 && Settled(c, s, v)
    requires EndsStream(t, c.id.chipIsn, s, |Accepted(c)|)
    ensures Settled(OnFinWait1(c, t), s, v && !(HasFin(t) && SeqAdd(t.seqNo, |t.payload|) != c.chipSeq))
  {
    var d := if HasAck(t) && t.ackNo == c.ourSeq then c.(state := FinWait2) else c;
    SameIntakeSettled(c, d, s, v);
    assert Inv(d, s);
    FinWaitSettled(d, t, s, v);
  }

  lemma CloseSettled(c: Conn, s: bytes, v: bool)
    requires Settled(c, s, v)
    ensures Settled(Close(c, false), s, v)
  {
    CloseIntake(c, false);
    SameIntakeSettled(c, Close(c, false), s, v);
  }

  lemma SegmentSettled(c: Conn, t: Tcp, s: bytes, v: bool)
    requires Inv(c, s) && c.listed && c.handler == Idle && Settled(c, s, v)
    requires Belongs(c, t, s)
    ensures Settled(HandleSegment(c, t), s, v && !Misplaced(c, FromChip(t)))
  {
    if HasRst(t) {
      CloseSettled(c, s, v);
    } else {
      match c.state
      case SynRcvd => HandshakeSettled(c, t, s, v);
      case Established => OnDataSettled(c, t, s, v);
      case FinWait1 => FinWait1Settled(c, t, s, v);
      case FinWait2 => FinWaitSettled(c, t, s, v);
      case LastAck => CloseSettled(c, s, v);
      case _ =>
    }
  }

  lemma StepSettled(c: Conn, e: Event, s: bytes, v: bool)
    requires Inv(c, s) && Enabled(c, e) && FromStream(c, e, s) && Settled(c, s, v)
    requires e.FromChip? ==> EndsStream(e.t, c.id.chipIsn, s, |Accepted(c)|)
    ensures Settled(Step(c, e), s, v && !Misplaced(c, e))
  {
    if e.FromChip? {
      SegmentSettled(c, e.t, s, v);
    } else if e.Drained? {
      var b := c.(handler := Idle);
      assert Accepted(b) == Accepted(c);
      if e.ok { DeliveredSettled(b, c.handler.t, s, v); } else { assert Accepted(Close(b, true)) == Accepted(c); }
    } else {
      OtherIntake(c, e);
      SameIntakeSettled(c, Step(c, e), s, v);
    }
  }

  // ---- Runs ----

  lemma {:induction false} RunSettled(c: Conn, es: seq<Event>, s: bytes, v: bool)
    requires Inv(c, s) && CanRun(c, es) && FedFrom(c, es, s) && FinsEnd(c, es, s) && Settled(c, s, v)
    ensures Inv(After(c, es), s) && Settled(After(c, es), s, v && FinsInPlace(c, es))
    decreases |es|
  {
    if |es| > 0 {
      StepKeeps(c, es[0], s);
      StepSettled(c, es[0], s, v);
      RunSettled(Step(c, es[0]), es[1..], s, v && !Misplaced(c, es[0]));
    }
  }

  lemma HonestIffSettled(c: Conn, s: bytes, v: bool)
    requires Inv(c, s) && Settled(c, s, v)
    ensures Honest(c, s) <==> v
  {
    if c.finsIn == 0 || Accepted(c) == s {
      assert c.open ==> c.sent + [] == c.sent;
      forall i, k: nat | 0 <= i < |c.out| && k < |s| && Covers(c.out[i], c.id.chipIsn, k)
        ensures k < |Accepted(c)|
      {
        assert WellNumbered(c.out[i], c.id.chipIsn + 1, Covered(c));
      }
    } else {
      var i :| 0 <= i < |c.out| && c.out[i].trueAck == Covered(c);
      assert Covers(c.out[i], c.id.chipIsn, |Accepted(c)|);
    }
  }

  /** For every run whose segments are the chip's, its FIN always behind its last byte: no
      acknowledgement covers a byte neither written nor held, and the host gets its
      end-of-file only with the whole stream, if and only if no FIN was taken out of its
      place. */
  lemma HonestIffFinsInPlace(id: Identity, deferred: bool, es: seq<Event>, s: bytes)
    requires History(id, deferred, es, s) && FinsEnd(Opened(id, deferred), es, s)
    ensures Honest(After(Opened(id, deferred), es), s) <==> FinsInPlace(Opened(id, deferred), es)
  {
    var c := Opened(id, deferred);
    OpenedInv(id, deferred, s);
    RunSettled(c, es, s, true);
    HonestIffSettled(After(c, es), s, FinsInPlace(c, es));
  }

  // ---- Two runs that take a FIN out of place ----

  function FromChipSegment(id: Identity, flags: u16, offset: nat, payload: bytes): Tcp {
    Tcp(id.key.chipPort, id.key.dstPort, Wrap(id.chipIsn + 1 + offset), SeqAdd(id.ourIsn, 1), 5, flags, 0, 0, 0, [],
        payload)
  }

  /** From `c` the events lead to `d`, all of them the chip's. */
  ghost predicate Leads(c: Conn, es: seq<Event>, s: bytes, d: Conn) {
    CanRun(c, es) && FedFrom(c, es, s) && FinsEnd(c, es, s) && After(c, es) == d
  }

  lemma LeadsOn(c: Conn, e: Event, es: seq<Event>, s: bytes, d: Conn)
    requires Enabled(c, e) && (e.FromChip? ==> Belongs(c, e.t, s)) && Leads(Step(c, e), es, s, d)
    ensures Leads(c, [e] + es, s, d)
  {
    assert ([e] + es)[1..] == es;
  }

  lemma LeadsNowhere(c: Conn, s: bytes)
    ensures Leads(c, [], s, c)
  {
  }

  /** Our SYN acknowledged. */
  function Shaken(id: Identity): (c: Conn)
    ensures c.chipNext == id.chipIsn + 1 && c.chipSeq == Wrap(id.chipIsn + 1) && Accepted(c) == []
  {
    Step(Opened(id, false), FromChip(FromChipSegment(id, TCP_ACK, 0, [])))
  }

  /** A FIN without payload, behind the last byte. */
  lemma BareFinBelongs(c: Conn, t: Tcp, flags: u16, s: bytes)
    requires t == FromChipSegment(c.id, flags, |s|, []) && |s| < M
    ensures Belongs(c, t, s)
  {
    assert Carries(t.seqNo, [], c.id.chipIsn, s, |s|);
  }

  /** Taken in FIN_WAIT_1. */
  lemma FinCloses(b: Conn, t: Tcp, c: Conn)
    requires b.state == FinWait1 && b.chipSeq == Wrap(b.chipNext)
    requires HasFin(t) && !HasRst(t) && c == HandleSegment(b, t)
    ensures c.state == Closed && c.sent == b.sent && c.held == b.held && |c.out| == |b.out| + 1
    ensures c.out[|b.out|].trueAck == b.chipNext + 1 && c.out[|b.out|].seg.ackNo == Wrap(b.chipNext + 1)
  {
    WrapAdd(b.chipNext, 1);
  }

  /** Taken in ESTABLISHED. */
  lemma FinEndsHost(b: Conn, t: Tcp, c: Conn)
    requires b.state == Established && b.open && b.chipSeq == Wrap(b.chipNext)
    requires HasFin(t) && !HasRst(t) && t.payload == [] && c == HandleSegment(b, t)
    ensures c.state == CloseWait && c.eofs == b.eofs + 1 && c.sent == b.sent && c.held == b.held
    ensures |c.out| == |b.out| + 1
    ensures c.out[|b.out|].trueAck == b.chipNext + 1 && c.out[|b.out|].seg.ackNo == Wrap(b.chipNext + 1)
  {
    WrapAdd(b.chipNext, 1);
  }

  lemma FinAhead(b: Conn, t: Tcp, c: Conn)
    requires b.state == Established && b.listed && b.handler == Idle && b.open && b.sent == [] && b.held == []
    requires b.eofs == 0 && |b.out| == 1 && b.chipNext == b.id.chipIsn + 1 && b.chipSeq == Wrap(b.chipNext)
    requires t == FromChipSegment(b.id, TCP_ACK + TCP_FIN, 3, []) && c == HandleSegment(b, t)
    ensures Enabled(b, FromChip(t)) && Belongs(b, t, [1, 2, 3])
    ensures c.state == CloseWait && c.eofs == 1 && c.sent == [] && c.held == []
    ensures |c.out| == 2 && Covers(c.out[1], b.id.chipIsn, 0) && c.out[1].seg.ackNo == Wrap(b.id.chipIsn + 2)
  {
    BareFinBelongs(b, t, TCP_ACK + TCP_FIN, [1, 2, 3]);
    FinEndsHost(b, t, c);
  }

  /** The chip's FIN overtakes its three bytes: the host is given a clean end-of-file on an
      empty stream, and the chip an acknowledgement of the first of them. */
  lemma FinOvertakesData(id: Identity) returns (es: seq<Event>)
    requires id.mss <= TCP_MSS
    ensures History(id, false, es, [1, 2, 3]) && FinsEnd(Opened(id, false), es, [1, 2, 3])
    ensures var c := After(Opened(id, false), es);
            && c.state == CloseWait && c.eofs == 1 && c.sent == [] && c.held == []
            && |c.out| == 2 && Covers(c.out[1], id.chipIsn, 0) && c.out[1].seg.ackNo == Wrap(id.chipIsn + 2)
  {
    var shake := FromChip(FromChipSegment(id, TCP_ACK, 0, []));
    var fin := FromChipSegment(id, TCP_ACK + TCP_FIN, 3, []);
    var c := HandleSegment(Shaken(id), fin);
    FinAhead(Shaken(id), fin, c);
    LeadsNowhere(c, [1, 2, 3]);
    LeadsOn(Shaken(id), FromChip(fin), [], [1, 2, 3], c);
    LeadsOn(Opened(id, false), shake, [FromChip(fin)] + [], [1, 2, 3], c);
    es := [shake] + ([FromChip(fin)] + []);
  }

  /** ... and the host at its end. */
  function HostDone(id: Identity): (c: Conn)
    ensures c.state == FinWait1 && c.listed && c.handler == Idle && Accepted(c) == [] && |c.out| == 2
    ensures c.chipNext == id.chipIsn + 1 && c.chipSeq == Wrap(id.chipIsn + 1) && c.id == id && c.finsIn == 0
    ensures c.ourSeq != SeqAdd(id.ourIsn, 1)
  {
    Step(Shaken(id), HostEof)
  }

  /** The two bytes are discarded, ... */
  lemma DataDiscarded(id: Identity, t: Tcp)
    requires t == FromChipSegment(id, TCP_ACK, 0, [1, 2])
    ensures Enabled(HostDone(id), FromChip(t)) && Step(HostDone(id), FromChip(t)) == HostDone(id)
    ensures Belongs(HostDone(id), t, [1, 2])
  {
    assert Carries(t.seqNo, t.payload, id.chipIsn, [1, 2], 0);
  }

  /** ... the FIN is not. */
  lemma FinAccepted(b: Conn, t: Tcp, c: Conn)
    requires b.state == FinWait1 && b.listed && b.handler == Idle && Accepted(b) == [] && |b.out| == 2
    requires b.chipNext == b.id.chipIsn + 1 && b.chipSeq == Wrap(b.chipNext)
    requires t == FromChipSegment(b.id, TCP_ACK + TCP_FIN, 2, []) && c == HandleSegment(b, t)
    ensures Enabled(b, FromChip(t)) && Belongs(b, t, [1, 2])
    ensures c.state == Closed && c.sent == [] && c.held == []
    ensures |c.out| == 3 && Covers(c.out[2], b.id.chipIsn, 0) && c.out[2].seg.ackNo == Wrap(b.id.chipIsn + 2)
  {
    BareFinBelongs(b, t, TCP_ACK + TCP_FIN, [1, 2]);
    FinCloses(b, t, c);
  }

  lemma DiscardThenFin(id: Identity) returns (es: seq<Event>, c: Conn)
    ensures Leads(HostDone(id), es, [1, 2], c)
    ensures c.state == Closed && c.sent == [] && c.held == []
    ensures |c.out| == 3 && Covers(c.out[2], id.chipIsn, 0) && c.out[2].seg.ackNo == Wrap(id.chipIsn + 2)
  {
    var data := FromChipSegment(id, TCP_ACK, 0, [1, 2]);
    var fin := FromChipSegment(id, TCP_ACK + TCP_FIN, 2, []);
    c := HandleSegment(HostDone(id), fin);
    DataDiscarded(id, data);
    FinAccepted(HostDone(id), fin, c);
    LeadsNowhere(c, [1, 2]);
    LeadsOn(HostDone(id), FromChip(fin), [], [1, 2], c);
    LeadsOn(HostDone(id), FromChip(data), [FromChip(fin)] + [], [1, 2], c);
    es := [FromChip(data)] + ([FromChip(fin)] + []);
  }

  /** With nothing lost or reordered: the host ends its stream first, the two bytes that
      follow are discarded, and the FIN behind them acknowledges the first of them. */
  lemma FinBehindDiscardedData(id: Identity) returns (es: seq<Event>)
    requires id.mss <= TCP_MSS
    ensures History(id, false, es, [1, 2]) && FinsEnd(Opened(id, false), es, [1, 2])
    ensures var c := After(Opened(id, false), es);
            && c.state == Closed && c.sent == [] && c.held == []
            && |c.out| == 3 && Covers(c.out[2], id.chipIsn, 0) && c.out[2].seg.ackNo == Wrap(id.chipIsn + 2)
  {
    var rest, c := DiscardThenFin(id);
    LeadsOn(Shaken(id), HostEof, rest, [1, 2], c);
    var shake := FromChip(FromChipSegment(id, TCP_ACK, 0, []));
    LeadsOn(Opened(id, false), shake, [HostEof] + rest, [1, 2], c);
    es := [shake] + ([HostEof] + rest);
  }
}
