/** What every interleaving of a connection's steps keeps. */
module ConnRuns {
  import opened Bytes
  import opened SeqArith
  import opened Packets
  import opened Reassembly
  import opened ConnSpec
  import opened ConnLog

  // ---- The invariant ----

  /** Bytes taken from the chip: written to the host or held for it. */
  function Accepted(c: Conn): bytes { c.sent + c.held }

  /** The chip-side number after everything taken. */
  function Covered(c: Conn): int { c.id.chipIsn + 1 + |Accepted(c)| + c.finsIn }

  ghost predicate Counters(c: Conn) {
    && c.ourSeq == Wrap(c.ourNext) && c.chipSeq == Wrap(c.chipNext)
    && c.ourNext == c.id.ourIsn + 1 + |c.got| + c.finsOut
    && c.id.chipIsn + 1 <= c.chipNext <= Covered(c)
    && (c.listed && c.handler == Idle ==> c.chipNext == Covered(c))
    && (c.handler.Draining? ==> c.chipNext == Covered(c) - |c.handler.t.payload|)
  }

  ghost predicate Log(c: Conn) {
    LogOk(c.out, c.got, c.finsOut, c.id.ourIsn + 1, c.id.chipIsn + 1, Covered(c))
  }

  /** Which tasks can be alive in which state. */
  predicate Tasks(c: Conn) {
    && c.finsIn <= 1 && c.finsOut <= 1
    && c.eofs + (if c.heldEof then 1 else 0) <= c.finsIn
    && (c.state == CloseWait || c.state == LastAck ==> c.eofs + (if c.heldEof then 1 else 0) == 1)
    && (c.open && c.dial != Flushing && c.state != Closed ==> !c.heldEof)
    && (c.listed ==> c.state != Closed)
    && (!c.listed ==> c.state == Closed || c.state == CloseWait || c.state == LastAck)
    && (!c.open ==> c.sent == [] && c.eofs == 0 && c.handler == Idle && c.pump == NotStarted)
    && (c.open ==> c.held == [] && c.dial != Dialling && c.dial != Cancelled)
    && (c.dial == NoDial ==> c.open)
    && (c.dial == Dialling ==> c.listed)
    && (c.dial == Cancelled ==> c.state == Closed)
    && (c.dial == Flushing ==> c.open && c.pump == NotStarted)
    && (c.pump == Running ==> (c.dial == NoDial || c.dial == Over) && c.finsOut == 0)
    && (c.pump == NotStarted ==> c.finsOut == 0 && c.got == [])
    && (c.state == SynRcvd ==> c.got == [] && c.finsOut == 0)
    && (c.state == SynRcvd || c.state == Established || c.state == FinWait1 || c.state == FinWait2 ==> c.finsIn == 0)
    && (c.state == CloseWait || c.state == LastAck ==> c.finsIn == 1)
    && (c.state == FinWait1 || c.state == FinWait2 || c.state == LastAck ==> c.finsOut == 1)
    && (c.handler.Draining? ==>
          && |c.handler.t.payload| > 0 && c.finsIn == 0
          && (c.state == Established || c.state == FinWait1 || c.state == Closed))
    && c.id.mss <= TCP_MSS
  }

  ghost predicate Inv(c: Conn, s: bytes) {
    Counters(c) && Log(c) && Tasks(c) && PrefixOf(Accepted(c), s)
  }

  // ---- Steps keep it ----

  lemma OpenedInv(id: Identity, deferred: bool, s: bytes)
    requires id.mss <= TCP_MSS
    ensures Inv(Opened(id, deferred), s)
  {
    var c := Opened(id, deferred);
    NothingEmitted(id.ourIsn + 1);
    LogAppend([], c.out[0], [], 0, id.ourIsn + 1, id.chipIsn + 1, Covered(c));
    assert [] + [c.out[0]] == c.out;
  }

  /** The log part survives an emission that carries neither payload nor FIN. */
  lemma EmptyEmission(c: Conn, e: Emission)
    requires Log(c) && c.chipSeq == Wrap(c.chipNext) && c.ourSeq == Wrap(c.ourNext)
    requires c.id.chipIsn + 1 <= c.chipNext <= Covered(c)
    requires e.seg.payload == [] && !HasFin(e.seg) && e.trueSeq == c.ourNext && e.trueAck == c.chipNext
    requires e.seg.seqNo == c.ourSeq && e.seg.ackNo == c.chipSeq && e.seg.options == [] && !HasSyn(e.seg)
    requires c.ourNext == c.id.ourIsn + 1 + |c.got| + c.finsOut
    ensures Log(c.(out := c.out + [e]))
  {
    LogAppend(c.out, e, c.got, c.finsOut, c.id.ourIsn + 1, c.id.chipIsn + 1, Covered(c));
    assert c.got + [] == c.got;
  }

  lemma AckOnlyKeepsLog(c: Conn)
    requires Log(c) && c.chipSeq == Wrap(c.chipNext) && c.ourSeq == Wrap(c.ourNext)
    requires c.id.chipIsn + 1 <= c.chipNext <= Covered(c) && c.ourNext == c.id.ourIsn + 1 + |c.got| + c.finsOut
    ensures Log(AckOnly(c))
  {
    EmptyEmission(c, Emission(Segment(c, TCP_ACK, c.ourSeq, [], []), c.ourNext, c.chipNext));
  }

  /** Taking more from the chip only widens what acknowledgements may cover. */
  lemma LogWidens(c: Conn, d: Conn)
    requires Log(c) && d.out == c.out && d.got == c.got && d.finsOut == c.finsOut
    requires d.id.ourIsn == c.id.ourIsn && d.id.chipIsn == c.id.chipIsn && Covered(d) >= Covered(c)
    ensures Log(d)
  {
  }

  lemma CloseTasks(c: Conn, rst: bool)
    requires Tasks(c)
    ensures Tasks(Close(c, rst))
  {
  }

  lemma CloseLog(c: Conn, rst: bool)
    requires Log(c) && Counters(c)
    ensures Log(Close(c, rst))
  {
    if c.state != Closed && rst {
      var reset := Segment(c, TCP_RST, c.ourSeq, [], []).(window := 0);
      EmptyEmission(c, Emission(reset, c.ourNext, c.chipNext));
    }
  }

  lemma CloseKeeps(c: Conn, rst: bool, s: bytes)
    requires Inv(c, s)
    ensures Inv(Close(c, rst), s)
  {
    CloseTasks(c, rst);
    CloseLog(c, rst);
  }

  /** `Inv` at the point where a payload has been taken but not yet counted. */
  ghost predicate Delivering(c: Conn, t: Tcp, s: bytes) {
    && Counters(c.(handler := Draining(t))) && Log(c) && PrefixOf(Accepted(c), s)
    && c.handler == Idle && Tasks(c) && c.finsIn == 0
    && (c.state == Established || c.state == FinWait1 || (c.state == Closed && c.open))
  }

  lemma OnFinTasks(c: Conn, t: Tcp)
    requires Tasks(c) && c.handler == Idle && c.finsIn == 0
    requires c.state == Established || c.state == FinWait1 || (c.state == Closed && c.open)
    ensures Tasks(OnFin(c, t))
  {
  }

  lemma FinConsumed(c: Conn, s: bytes, e: Conn)
    requires Inv(c, s) && c.handler == Idle && c.chipNext == Covered(c) && c.finsIn == 0
    requires e == AdvanceChip(c, 1).(state := CloseWait, finsIn := 1, eofs := e.eofs, heldEof := e.heldEof)
    ensures Counters(e) && Log(e) && Counters(AckOnly(e)) && Log(AckOnly(e))
  {
    WrapAdd(c.chipNext, 1);
    LogWidens(c, e);
    AckOnlyKeepsLog(e);
  }

  lemma OnFinKeeps(c: Conn, t: Tcp, s: bytes)
    requires Inv(c, s) && c.handler == Idle && c.chipNext == Covered(c) && c.finsIn == 0
    requires c.state == Established || c.state == FinWait1 || (c.state == Closed && c.open)
    ensures Inv(OnFin(c, t), s)
  {
    if HasFin(t) {
      OnFinTasks(c, t);
      var d := AdvanceChip(c, 1).(state := CloseWait, finsIn := c.finsIn + 1);
      FinConsumed(c, s, if c.open then d.(eofs := c.eofs + 1) else d.(heldEof := true));
      assert Accepted(OnFin(c, t)) == Accepted(c);
    }
  }

  lemma DeliveredKeeps(c: Conn, t: Tcp, s: bytes)
    requires Delivering(c, t, s)
    ensures Inv(Delivered(c, t), s)
  {
    var d := AdvanceChip(c, |t.payload|);
    WrapAdd(c.chipNext, |t.payload|);
    LogWidens(c, d);
    AckOnlyKeepsLog(d);
    OnFinKeeps(AckOnly(d), t, s);
  }

  lemma DrainFailedKeeps(c: Conn, s: bytes)
    requires Inv(c, s) && c.handler.Draining?
    ensures Inv(Close(c.(handler := Idle), true), s)
  {
    var d := c.(handler := Idle);
    if c.state != Closed {
      var reset := Segment(d, TCP_RST, d.ourSeq, [], []).(window := 0);
      EmptyEmission(d, Emission(reset, d.ourNext, d.chipNext));
    }
  }

  lemma TakenTasks(c: Conn, t: Tcp, d: Conn)
    requires Tasks(c) && c.listed && c.handler == Idle && c.state == Established
    requires d == if c.open then c.(sent := c.sent + t.payload) else c.(held := c.held + t.payload)
    ensures Tasks(d)
  {
  }

  lemma TakenCounters(c: Conn, t: Tcp, d: Conn)
    requires Counters(c) && c.listed && c.handler == Idle
    requires d == c.(sent := d.sent, held := d.held) && Accepted(d) == Accepted(c) + t.payload
    ensures Counters(d.(handler := Draining(t)))
  {
    assert Accepted(d.(handler := Draining(t))) == Accepted(d);
  }

  lemma TakenAccepted(c: Conn, t: Tcp, d: Conn)
    requires c.open ==> c.held == []
    requires d == if c.open then c.(sent := c.sent + t.payload) else c.(held := c.held + t.payload)
    ensures Accepted(d) == Accepted(c) + t.payload
  {
  }

  /** A payload taken in order: written to the open socket, or held for it. */
  lemma TakenKeeps(c: Conn, t: Tcp, d: Conn, s: bytes)
    requires Inv(c, s) && c.listed && c.handler == Idle && c.state == Established
    requires Genuine(t.seqNo, t.payload, c.id.chipIsn, s, |Accepted(c)|)
    requires |t.payload| > 0 && t.seqNo == c.chipSeq
    requires d == if c.open then c.(sent := c.sent + t.payload) else c.(held := c.held + t.payload)
    ensures Delivering(d, t, s)
  {
    InOrderExtends(Accepted(c), s, c.id.chipIsn, t.seqNo, t.payload);
    TakenAccepted(c, t, d);
    TakenCounters(c, t, d);
    LogWidens(c, d);
    TakenTasks(c, t, d);
  }

  lemma OnDataKeeps(c: Conn, t: Tcp, s: bytes)
    requires Inv(c, s) && c.listed && c.handler == Idle && c.state == Established
    requires Genuine(t.seqNo, t.payload, c.id.chipIsn, s, |Accepted(c)|)
    ensures Inv(OnData(c, t), s)
  {
    if |t.payload| == 0 {
      OnFinKeeps(c, t, s);
    } else if t.seqNo != c.chipSeq {
      AckOnlyKeepsLog(c);
    } else if c.open {
      TakenKeeps(c, t, c.(sent := c.sent + t.payload), s);
    } else {
      var d := c.(held := c.held + t.payload);
      TakenKeeps(c, t, d, s);
      DeliveredKeeps(d, t, s);
    }
  }

  lemma OnFinWait2Keeps(c: Conn, t: Tcp, s: bytes)
    requires Inv(c, s) && c.listed && c.handler == Idle && (c.state == FinWait1 || c.state == FinWait2)
    ensures Inv(OnFinWait2(c, t), s)
  {
    if HasFin(t) {
      var d := AdvanceChip(c, 1).(finsIn := c.finsIn + 1);
      WrapAdd(c.chipNext, 1);
      LogWidens(c, d);
      AckOnlyKeepsLog(d);
    }
  }

  lemma OnHandshakeKeeps(c: Conn, t: Tcp, s: bytes)
    requires Inv(c, s) && c.listed && c.handler == Idle && c.state == SynRcvd
    requires Genuine(t.seqNo, t.payload, c.id.chipIsn, s, |Accepted(c)|)
    ensures Inv(OnHandshake(c, t), s)
  {
    var d := c.(state := Established);
    assert Inv(d, s);
    if HasAck(t) && t.ackNo == c.ourSeq && |t.payload| > 0 { OnDataKeeps(d, t, s); }
  }

  lemma OnFinWait1Keeps(c: Conn, t: Tcp, s: bytes)
    requires Inv(c, s) && c.listed && c.handler == Idle && c.state == FinWait1
    ensures Inv(OnFinWait1(c, t), s)
  {
    var d := if HasAck(t) && t.ackNo == c.ourSeq then c.(state := FinWait2) else c;
    assert Inv(d, s);
    OnFinWait2Keeps(d, t, s);
  }

  lemma HandleSegmentKeeps(c: Conn, t: Tcp, s: bytes)
    requires Inv(c, s) && c.listed && c.handler == Idle
    requires Genuine(t.seqNo, t.payload, c.id.chipIsn, s, |Accepted(c)|)
    ensures Inv(HandleSegment(c, t), s)
  {
    if HasRst(t) {
      CloseKeeps(c, false, s);
    } else {
      match c.state
      case SynRcvd => OnHandshakeKeeps(c, t, s);
      case Established => OnDataKeeps(c, t, s);
      case FinWait1 => OnFinWait1Keeps(c, t, s);
      case FinWait2 => OnFinWait2Keeps(c, t, s);
      case LastAck => CloseKeeps(c, false, s);
      case _ =>
    }
  }

  lemma DialDoneKeeps(c: Conn, ok: bool, s: bytes)
    requires Inv(c, s) && c.dial == Dialling
    ensures Inv(DialDone(c, ok), s)
  {
    if !ok {
      CloseKeeps(c.(dial := Over), true, s);
    } else if |c.held| > 0 {
      var d := DialDone(c, ok);
      assert Accepted(d) == Accepted(c);
      LogWidens(c, d);
    } else {
      FlushDoneKeeps(c.(open := true), s);
    }
  }

  lemma FlushDoneKeeps(c: Conn, s: bytes)
    requires Counters(c) && Log(c) && PrefixOf(Accepted(c), s) 
    requires Tasks(c.(dial := Flushing)) && c.open
    ensures Inv(FlushDone(c, true), s)
  {
    assert Accepted(FlushDone(c, true)) == Accepted(c);
    LogWidens(c, FlushDone(c, true));
  }

  lemma FlushFailedTasks(c: Conn)
    requires Tasks(c) && c.dial == Flushing
    ensures Tasks(FlushDone(c, false))
  {
  }

  lemma SendPieceKeeps(c: Conn, piece: bytes, s: bytes)
    requires Inv(c, s) && Reading(c) && |piece| <= c.id.mss
    ensures Inv(SendPiece(c, piece), s)
  {
    var d := SendPiece(c, piece);
    var e := Emission(Segment(c, TCP_ACK + TCP_PSH, c.ourSeq, [], piece), c.ourNext, c.chipNext);
    assert d.out == c.out + [e];
    LogAppend(c.out, e, c.got, c.finsOut, c.id.ourIsn + 1, c.id.chipIsn + 1, Covered(c));
    WrapAdd(c.ourNext, |piece|);
  }

  lemma {:induction false} SendChunkKeeps(c: Conn, chunk: bytes, s: bytes)
    requires Inv(c, s) && Reading(c) && c.id.mss > 0
    ensures Inv(SendChunk(c, chunk), s)
    decreases |chunk|
  {
    if |chunk| > 0 {
      SendPieceKeeps(c, Slice(chunk, 0, c.id.mss), s);
      SendChunkKeeps(SendPiece(c, Slice(chunk, 0, c.id.mss)), Slice(chunk, c.id.mss, |chunk|), s);
    }
  }

  lemma HostEndedTasks(c: Conn)
    requires Tasks(c) && c.pump == Running && c.state != SynRcvd
    ensures Tasks(HostEnded(c))
  {
  }

  lemma SendFinCounters(c: Conn)
    requires Counters(c)
    ensures Counters(SendFin(c))
  {
    WrapAdd(c.ourNext, 1);
  }

  lemma SendFinLog(c: Conn)
    requires Counters(c) && Log(c) && c.finsOut == 0
    ensures Log(SendFin(c))
  {
    var e := Emission(Segment(c, TCP_ACK + TCP_FIN, c.ourSeq, [], []), c.ourNext, c.chipNext);
    LogAppend(c.out, e, c.got, c.finsOut, c.id.ourIsn + 1, c.id.chipIsn + 1, Covered(c));
    assert c.got + [] == c.got;
  }

  lemma SendFinKeeps(c: Conn, s: bytes)
    requires Counters(c) && Log(c) && c.finsOut == 0 && PrefixOf(Accepted(c), s) && Tasks(SendFin(c))
    ensures Inv(SendFin(c), s)
  {
    SendFinCounters(c);
    SendFinLog(c);
    assert Accepted(SendFin(c)) == Accepted(c);
  }

  lemma HostEndedKeeps(c: Conn, s: bytes)
    requires Inv(c, s) && c.pump == Running && c.state != SynRcvd
    ensures Inv(HostEnded(c), s)
  {
    HostEndedTasks(c);
    var d := c.(pump := Ended, state := if c.state == Established then FinWait1 else LastAck);
    assert Accepted(d) == Accepted(c);
    LogWidens(c, d);
    if Reading(c) { SendFinKeeps(d, s); } else { LogWidens(c, c.(pump := Ended)); }
  }

  /** A segment from the chip belongs to its stream `s`; other events are arbitrary. */
  ghost predicate FromStream(c: Conn, e: Event, s: bytes) {
    e.FromChip? ==> Genuine(e.t.seqNo, e.t.payload, c.id.chipIsn, s, |Accepted(c)|)
  }

  lemma FlushedKeeps(c: Conn, ok: bool, s: bytes)
    requires Inv(c, s) && c.dial == Flushing
    ensures Inv(FlushDone(c, ok), s)
  {
    if ok {
      assert c.(dial := Flushing) == c;
      FlushDoneKeeps(c, s);
    } else {
      FlushFailedTasks(c);
      CloseLog(c.(dial := Over), true);
    }
  }

  lemma CancelSeenKeeps(c: Conn, s: bytes)
    requires Inv(c, s) && c.dial == Cancelled
    ensures Inv(c.(dial := Over), s)
  {
    LogWidens(c, c.(dial := Over));
  }

  lemma StepKeeps(c: Conn, e: Event, s: bytes)
    requires Inv(c, s) && Enabled(c, e) && FromStream(c, e, s)
    ensures Inv(Step(c, e), s)
  {
    match e
    case FromChip(t) => HandleSegmentKeeps(c, t, s);
    case Drained(ok) =>
      if ok { DeliveredKeeps(c.(handler := Idle), c.handler.t, s); } else { DrainFailedKeeps(c, s); }
    case Chunk(data) => SendChunkKeeps(c, data, s);
    case HostEof => HostEndedKeeps(c, s);
    case PumpExit => HostEndedKeeps(c, s);
    case ReadFailed => CloseKeeps(c, true, s);
    case Shutdown => CloseKeeps(c, true, s);
    case Dialled(ok) => DialDoneKeeps(c, ok, s);
    case CancelSeen => CancelSeenKeeps(c, s);
    case Flushed(ok) => FlushedKeeps(c, ok, s);
  }

  // ---- Sizes ----

  lemma EmissionFitsMtu(t: Tcp, key: Key)
    requires |PadOptions(t.options)| + |t.payload| <= TCP_MSS && |PadOptions(t.options)| <= 40
    ensures var l4 := TcpToBytes(t, key.dstIp, key.chipIp);
            && l4.Some? && 20 + |l4.value| <= 1500
            && forall mac: Mac, gw: Mac ::
                 var f := MakeFrameIPv4(mac, gw, key.dstIp, key.chipIp, IPPROTO_TCP, l4.value);
                 f.Some? && |f.value| == 14 + 20 + |l4.value|
  {
    TcpSegmentVerifies(t, key.dstIp, key.chipIp);
    var l4 := TcpToBytes(t, key.dstIp, key.chipIp).value;
    forall mac: Mac, gw: Mac
      ensures var f := MakeFrameIPv4(mac, gw, key.dstIp, key.chipIp, IPPROTO_TCP, l4);
              f.Some? && |f.value| == 14 + 20 + |l4|
    {
      IPv4HeaderVerifies(IPv4(4, 5, 0, 0, 0, 0, 2, 0, 64, IPPROTO_TCP, 0, key.dstIp, key.chipIp, l4));
    }
  }

  // ---- Runs ----

  predicate CanRun(c: Conn, es: seq<Event>)
    decreases |es|
  {
    |es| == 0 || (Enabled(c, es[0]) && CanRun(Step(c, es[0]), es[1..]))
  }

  function After(c: Conn, es: seq<Event>): Conn
    requires CanRun(c, es)
    decreases |es|
  {
    if |es| == 0 then c else After(Step(c, es[0]), es[1..])
  }

  /** Every segment along the run is genuine for stream `s` when it arrives. */
  ghost predicate FedFrom(c: Conn, es: seq<Event>, s: bytes)
    requires CanRun(c, es)
    decreases |es|
  {
    |es| == 0 || (FromStream(c, es[0], s) && FedFrom(Step(c, es[0]), es[1..], s))
  }

  function BytesRead(es: seq<Event>): bytes {
    if |es| == 0 then [] else (if es[0].Chunk? then es[0].data else []) + BytesRead(es[1..])
  }

  lemma {:induction false} RunKeeps(c: Conn, es: seq<Event>, s: bytes)
    requires Inv(c, s) && CanRun(c, es) && FedFrom(c, es, s)
    ensures Inv(After(c, es), s)
    decreases |es|
  {
    if |es| > 0 {
      StepKeeps(c, es[0], s);
      RunKeeps(Step(c, es[0]), es[1..], s);
    }
  }

  lemma {:induction false} SendChunkFrame(c: Conn, chunk: bytes)
    requires c.id.mss > 0
    ensures var d := SendChunk(c, chunk);
            d == c.(got := c.got + chunk, out := d.out, ourSeq := d.ourSeq, ourNext := d.ourNext)
    decreases |chunk|
  {
    if |chunk| > 0 {
      var piece, rest := Slice(chunk, 0, c.id.mss), Slice(chunk, c.id.mss, |chunk|);
      assert chunk == piece + rest;
      SendChunkFrame(SendPiece(c, piece), rest);
      assert c.got + piece + rest == c.got + chunk;
    } else {
      assert c.got + chunk == c.got;
    }
  }

  /** What a step never changes, and that only the pump reads from the host. */
  lemma StepFrame(c: Conn, e: Event)
    requires Enabled(c, e)
    ensures Step(c, e).id == c.id
    ensures Step(c, e).got == if e.Chunk? then c.got + e.data else c.got
  {
    if e.Chunk? { SendChunkFrame(c, e.data); }
  }

  lemma {:induction false} RunFrame(c: Conn, es: seq<Event>)
    requires CanRun(c, es)
    ensures var d := After(c, es);
            d.id == c.id && d.got == c.got + BytesRead(es)
    decreases |es|
  {
    if |es| > 0 {
      StepFrame(c, es[0]);
      RunFrame(Step(c, es[0]), es[1..]);
      assert c.got + BytesRead(es) == Step(c, es[0]).got + BytesRead(es[1..]);
    }
  }

  /** A run from the moment the SYN was answered, fed from the chip's stream `s`. */
  ghost predicate History(id: Identity, deferred: bool, es: seq<Event>, s: bytes) {
    && id.mss <= TCP_MSS
    && CanRun(Opened(id, deferred), es) && FedFrom(Opened(id, deferred), es, s)
  }

  lemma Reached(id: Identity, deferred: bool, es: seq<Event>, s: bytes)
    requires History(id, deferred, es, s)
    ensures var c := After(Opened(id, deferred), es);
            Inv(c, s) && c.id == id && c.got == BytesRead(es)
  {
    OpenedInv(id, deferred, s);
    RunKeeps(Opened(id, deferred), es, s);
    RunFrame(Opened(id, deferred), es);
    assert [] + BytesRead(es) == BytesRead(es);
  }

  /** Chip to host, over every run of every interleaving: what was written to the host
      followed by what is held is a prefix of the chip's stream; the expected number is
      exactly the one after it, and after the one FIN taken, once no delivery is in
      progress; and no acknowledgement ever emitted says more than those bytes and that FIN.
      Whether the FIN stood behind those bytes is another matter: see `ConnFin`. */
  lemma ChipToHostStream(id: Identity, deferred: bool, es: seq<Event>, s: bytes)
    requires History(id, deferred, es, s)
    ensures var c := After(Opened(id, deferred), es);
            var taken := c.sent + c.held;
            && PrefixOf(taken, s) && c.finsIn <= 1
            && (c.listed && c.handler == Idle ==> c.chipSeq == Wrap(id.chipIsn + 1 + |taken| + c.finsIn))
            && (forall i :: 0 <= i < |c.out| ==>
                  && c.out[i].seg.ackNo == Wrap(c.out[i].trueAck)
                  && id.chipIsn + 1 <= c.out[i].trueAck <= id.chipIsn + 1 + |taken| + c.finsIn)
  {
    Reached(id, deferred, es, s);
    var c := After(Opened(id, deferred), es);
    assert forall i :: 0 <= i < |c.out| ==> WellNumbered(c.out[i], id.chipIsn + 1, Covered(c));
  }

  lemma WireNumbers(c: Conn, s: bytes)
    requires Inv(c, s)
    ensures OnWire(c.out)
  {
    assert forall i :: 0 <= i < |c.out| ==> WellNumbered(c.out[i], c.id.chipIsn + 1, Covered(c));
  }

  /** The payloads emitted are exactly `read`, at consecutive numbers from the initial one,
      which the wire fields carry; at most one FIN, right behind the last byte, with nothing
      after it. */
  ghost predicate Relays(c: Conn, read: bytes) {
    && Data(c.out) == read && Tiled(c.out, c.id.ourIsn + 1) && OnWire(c.out)
    && Fins(c.out) == c.finsOut <= 1 && FinsBehind(c.out, c.id.ourIsn, read)
    && c.ourSeq == Wrap(c.id.ourIsn + 1 + |read| + c.finsOut)
    && (c.state == SynRcvd ==> read == [] && c.finsOut == 0)
  }

  /** Host to chip, over every run: the payloads emitted are exactly the bytes read; nothing
      goes out before the handshake is done. */
  lemma HostToChipStream(id: Identity, deferred: bool, es: seq<Event>, s: bytes)
    requires History(id, deferred, es, s)
    ensures Relays(After(Opened(id, deferred), es), BytesRead(es))
  {
    Reached(id, deferred, es, s);
    InvRelays(After(Opened(id, deferred), es), s);
  }

  lemma LogRelays(out: seq<Emission>, got: bytes, fins: nat, isn: int)
    requires Emitted(out, got, fins, isn + 1) && OnWire(out)
    ensures Data(out) == got && Tiled(out, isn + 1) && Fins(out) == fins && FinsBehind(out, isn, got)
  {
    LogCarries(out, got, fins, isn + 1);
    WholeLogFins(out, got, fins, isn);
  }

  lemma InvRelays(c: Conn, s: bytes)
    requires Inv(c, s)
    ensures Relays(c, c.got)
  {
    WireNumbers(c, s);
    LogRelays(c.out, c.got, c.finsOut, c.id.ourIsn);
  }

  lemma EmissionsReassemble(c: Conn, s: bytes)
    requires Inv(c, s)
    ensures Rebuilds(c.out, c.id.ourIsn, c.got)
  {
    WireNumbers(c, s);
    WholeLog(c.out, c.got, c.finsOut, c.id.ourIsn);
  }

  lemma HostStreamReassembled(id: Identity, deferred: bool, es: seq<Event>, s: bytes)
    requires History(id, deferred, es, s)
    ensures Rebuilds(After(Opened(id, deferred), es).out, id.ourIsn, BytesRead(es))
  {
    Reached(id, deferred, es, s);
    EmissionsReassemble(After(Opened(id, deferred), es), s);
  }

  predicate Fits(e: Emission) {
    |PadOptions(e.seg.options)| <= 40 && |PadOptions(e.seg.options)| + |e.seg.payload| <= TCP_MSS
  }

  /** The answer to the SYN: our number, theirs acknowledged, the negotiated size. */
  function SynAck(id: Identity): Tcp {
    Tcp(id.key.dstPort, id.key.chipPort, id.ourIsn, (id.chipIsn + 1) % 0x1_0000_0000, 5, 0x12, 65535, 0, 0,
        [2, 4, id.mss / 256, id.mss % 256], [])
  }

  /** What every later segment looks like: from the port the chip dialled to the one it
      dialled from, without options, its control bits those of data (ACK and PSH), a bare
      acknowledgement (ACK), our FIN (ACK and FIN) or a reset (RST, without a window). */
  predicate Dressed(id: Identity, t: Tcp) {
    && t.srcPort == id.key.dstPort && t.dstPort == id.key.chipPort
    && t.dataOffset == 5 && t.options == [] && t.urgPtr == 0 && t.checksum == 0
    && (if |t.payload| > 0 then t.flags == 0x18 else t.flags == 0x10 || t.flags == 0x11 || t.flags == 0x04)
    && t.window == (if t.flags == 0x04 then 0 else 65535)
  }

  /** Every emission fits, the first one is the answer to the SYN and every other is dressed. */
  ghost predicate Sized(c: Conn) {
    && c.id.mss <= TCP_MSS && |c.out| > 0 && c.out[0].seg == SynAck(c.id)
    && forall i :: 0 <= i < |c.out| ==> Fits(c.out[i]) && (i > 0 ==> Dressed(c.id, c.out[i].seg))
  }

  lemma OneMoreSized(c: Conn, d: Conn, e: Emission)
    requires Sized(c) && d.id == c.id && d.out == c.out + [e] && Fits(e) && Dressed(c.id, e.seg)
    ensures Sized(d)
  {
  }

  lemma SendPieceSized(c: Conn, piece: bytes)
    requires Sized(c) && 0 < |piece| <= c.id.mss
    ensures Sized(SendPiece(c, piece))
  {
    var e := Emission(Segment(c, TCP_ACK + TCP_PSH, c.ourSeq, [], piece), c.ourNext, c.chipNext);
    OneMoreSized(c, SendPiece(c, piece), e);
  }

  lemma {:induction false} SendChunkSized(c: Conn, chunk: bytes)
    requires Sized(c) && c.id.mss > 0
    ensures Sized(SendChunk(c, chunk))
    decreases |chunk|
  {
    if |chunk| > 0 {
      SendPieceSized(c, Slice(chunk, 0, c.id.mss));
      SendChunkSized(SendPiece(c, Slice(chunk, 0, c.id.mss)), Slice(chunk, c.id.mss, |chunk|));
    }
  }

  lemma AckOnlySized(c: Conn)
    requires Sized(c)
    ensures Sized(AckOnly(c))
  {
    OneMoreSized(c, AckOnly(c), Emission(Segment(c, TCP_ACK, c.ourSeq, [], []), c.ourNext, c.chipNext));
  }

  lemma CloseSized(c: Conn, rst: bool)
    requires Sized(c)
    ensures Sized(Close(c, rst))
  {
    if c.state != Closed && rst {
      var reset := Segment(c, TCP_RST, c.ourSeq, [], []).(window := 0);
      OneMoreSized(c, Close(c, rst), Emission(reset, c.ourNext, c.chipNext));
    }
  }

  lemma OnFinSized(c: Conn, t: Tcp)
    requires Sized(c)
    ensures Sized(OnFin(c, t))
  {
    var f := AdvanceChip(c, 1).(state := CloseWait, finsIn := c.finsIn + 1);
    AckOnlySized(if c.open then f.(eofs := c.eofs + 1) else f.(heldEof := true));
  }

  lemma DeliveredSized(c: Conn, t: Tcp)
    requires Sized(c)
    ensures Sized(Delivered(c, t))
  {
    AckOnlySized(AdvanceChip(c, |t.payload|));
    OnFinSized(AckOnly(AdvanceChip(c, |t.payload|)), t);
  }

  lemma OnDataSized(c: Conn, t: Tcp)
    requires Sized(c)
    ensures Sized(OnData(c, t))
  {
    if |t.payload| == 0 {
      OnFinSized(c, t);
    } else if t.seqNo != c.chipSeq {
      AckOnlySized(c);
    } else if !c.open {
      DeliveredSized(c.(held := c.held + t.payload), t);
    }
  }

  lemma OnFinWait2Sized(c: Conn, t: Tcp)
    requires Sized(c)
    ensures Sized(OnFinWait2(c, t))
  {
    var d := AdvanceChip(c, 1).(finsIn := c.finsIn + 1);
    AckOnlySized(d);
    CloseSized(AckOnly(d), false);
  }

  lemma HandleSegmentSized(c: Conn, t: Tcp)
    requires Sized(c)
    ensures Sized(HandleSegment(c, t))
  {
    CloseSized(c, false);
    OnDataSized(c, t);
    OnDataSized(c.(state := Established), t);
    OnFinWait2Sized(c, t);
    OnFinWait2Sized(c.(state := FinWait2), t);
  }

  lemma HostEndedSized(c: Conn)
    requires Sized(c)
    ensures Sized(HostEnded(c))
  {
    if c.state == Established || c.state == CloseWait {
      var fin := Segment(c, TCP_ACK + TCP_FIN, c.ourSeq, [], []);
      OneMoreSized(c, HostEnded(c), Emission(fin, c.ourNext, c.chipNext));
    }
  }

  lemma StepSized(c: Conn, e: Event)
    requires Sized(c) && Enabled(c, e)
    ensures Sized(Step(c, e))
  {
    match e
    case FromChip(t) => HandleSegmentSized(c, t);
    case Drained(ok) =>
      if ok { DeliveredSized(c.(handler := Idle), c.handler.t); } else { CloseSized(c.(handler := Idle), true); }
    case Chunk(data) => SendChunkSized(c, data);
    case HostEof => HostEndedSized(c);
    case PumpExit => HostEndedSized(c);
    case Dialled(ok) => CloseSized(c.(dial := Over), true);
    case Flushed(ok) => CloseSized(c.(dial := Over), true);
    case CancelSeen =>
    case _ => CloseSized(c, true);
  }

  lemma {:induction false} RunSized(c: Conn, es: seq<Event>)
    requires Sized(c) && CanRun(c, es)
    ensures Sized(After(c, es))
    decreases |es|
  {
    if |es| > 0 {
      StepSized(c, es[0]);
      RunSized(Step(c, es[0]), es[1..]);
    }
  }

  lemma DressedIsNoSyn(id: Identity, t: Tcp)
    requires Dressed(id, t)
    ensures !HasSyn(t)
  {
  }

  /** Over every run the SYN is answered once and first; every later segment is dressed, so
      none is a SYN. */
  lemma AnsweredOnce(id: Identity, deferred: bool, es: seq<Event>)
    requires id.mss <= TCP_MSS && CanRun(Opened(id, deferred), es)
    ensures var out := After(Opened(id, deferred), es).out;
            && |out| > 0 && out[0].seg == SynAck(id)
            && forall i :: 0 < i < |out| ==> Dressed(id, out[i].seg) && !HasSyn(out[i].seg)
  {
    RunSized(Opened(id, deferred), es);
    RunFrame(Opened(id, deferred), es);
    var out := After(Opened(id, deferred), es).out;
    forall i | 0 < i < |out|
      ensures Dressed(id, out[i].seg) && !HasSyn(out[i].seg)
    {
      DressedIsNoSyn(id, out[i].seg);
    }
  }

  /** Every segment emitted in any run, whatever the chip sends, is printable, and its IP
      packet is within the MTU. */
  lemma PacketsFitMtu(id: Identity, deferred: bool, es: seq<Event>, i: nat)
    requires id.mss <= TCP_MSS && CanRun(Opened(id, deferred), es)
    requires i < |After(Opened(id, deferred), es).out|
    ensures var t := After(Opened(id, deferred), es).out[i].seg;
            var l4 := TcpToBytes(t, id.key.dstIp, id.key.chipIp);
            && l4.Some? && 20 + |l4.value| <= 1500
            && forall mac: Mac, gw: Mac ::
                 var f := MakeFrameIPv4(mac, gw, id.key.dstIp, id.key.chipIp, IPPROTO_TCP, l4.value);
                 f.Some? && |f.value| == 14 + 20 + |l4.value|
  {
    RunSized(Opened(id, deferred), es);
    assert Fits(After(Opened(id, deferred), es).out[i]);
    EmissionFitsMtu(After(Opened(id, deferred), es).out[i].seg, id.key);
  }

  /** However the chip's link loses, repeats or reorders the emissions of a connection,
      the chip holds a prefix of what was read from the host. */
  lemma ChipHoldsPrefix(c: Conn, s: bytes, r: Receiver, order: seq<nat>)
    requires Inv(c, s) && Indices(c.out, order) && Nearby(c.out, r, order)
    requires HoldsPrefix(r, c.id.ourIsn, c.got)
    ensures HoldsPrefix(ReceiveAll(r, Picked(c.out, order)), c.id.ourIsn, c.got)
  {
    WireNumbers(c, s);
    LossyLog(c.out, c.got, c.finsOut, c.id.ourIsn, r, order);
  }

  // ---- End of stream ----

  /** Once the host was told the chip is done, nothing more is written and it is not told
      again. */
  lemma EofIsFinalStep(c: Conn, e: Event)
    requires Tasks(c) && Enabled(c, e) && c.eofs > 0
    ensures Step(c, e).sent == c.sent && Step(c, e).eofs == c.eofs == 1
  {
    if e.Chunk? { SendChunkFrame(c, e.data); }
  }

  lemma {:induction false} EofIsFinal(c: Conn, es: seq<Event>, s: bytes)
    requires Inv(c, s) && CanRun(c, es) && FedFrom(c, es, s) && c.eofs > 0
    ensures After(c, es).sent == c.sent && After(c, es).eofs == 1
    decreases |es|
  {
    if |es| > 0 {
      EofIsFinalStep(c, es[0]);
      StepKeeps(c, es[0], s);
      EofIsFinal(Step(c, es[0]), es[1..], s);
    }
  }
}
