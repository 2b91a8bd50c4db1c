/** One connection opened into the chip's server for a one-shot request. A step is what runs
    between two suspension points; handing a frame to the chip does not suspend. */
module InboundSpec {
  import opened Bytes
  import opened SeqArith
  import opened Packets
  import opened Reassembly
  import opened ConnLog
  import C = ConnSpec

  const SERVER_PORT: u16 := 80
  const TCP_MSS: u16 := 1460
  const TCP_WINDOW: u16 := 65535

  datatype State = SynSent | Established | Closed

  /** `requested` marks the point of the request coroutine behind sending `raw`. The last
      row is history: the chip's initial number once taken from its SYN+ACK, the request
      bytes and FINs sent, the FINs taken, and the unbounded shadow of `ourSeq`. */
  datatype Inbound = Inbound(
    ourPort: u16, ourIsn: u32, raw: bytes, state: State, ourSeq: u32, chipSeq: u32, rx: bytes,
    established: bool, finished: bool, dataReady: bool, reset: bool, requested: bool,
    chipIsn: Option<u32>, asked: bytes, finsIn: nat, finsOut: nat, ourNext: int, out: seq<C.Emission>)

  /** The number the acknowledgement field stands for; 0 while there is nothing to stand for. */
  function ChipNext(c: Inbound): int {
    match c.chipIsn
    case None => 0
    case Some(isn) => isn + 1 + |c.rx| + c.finsIn
  }

  function Segment(c: Inbound, flags: u16, seqNo: u32, options: bytes, payload: bytes): Tcp {
    Tcp(c.ourPort, SERVER_PORT, seqNo, c.chipSeq, 5, flags, TCP_WINDOW, 0, 0, options, payload)
  }

  function Send(c: Inbound, flags: u16, payload: bytes): Inbound {
    c.(out := c.out + [C.Emission(Segment(c, flags, c.ourSeq, [], payload), c.ourNext, ChipNext(c))])
  }

  /** The connection right after its SYN went out. */
  function Begun(port: u16, ourIsn: u32, raw: bytes): Inbound {
    var c := Inbound(port, ourIsn, raw, SynSent, SeqAdd(ourIsn, 1), 0, [], false, false, false, false, false,
                     None, [], 0, 0, ourIsn + 1, []);
    c.(out := [C.Emission(Segment(c, TCP_SYN, ourIsn, [2, 4] + Pack16(TCP_MSS), []), ourIsn, 0)])
  }

  function OnSegment(c: Inbound, t: Tcp): (d: Inbound)
    ensures d.ourPort == c.ourPort
  {
    if HasRst(t) then c.(reset := true, state := Closed, established := true, finished := true)
    else match c.state
      case SynSent =>
        if HasSyn(t) && HasAck(t)
        then Send(c.(chipSeq := SeqAdd(t.seqNo, 1), chipIsn := Some(t.seqNo), state := Established), TCP_ACK, [])
               .(established := true)
        else c
      case Closed => if |t.payload| > 0 || HasFin(t) || HasSyn(t) then Send(c, TCP_ACK, []) else c
      case Established =>
        if |t.payload| == 0 then OnFin(c, t)
        else if t.seqNo == c.chipSeq then OnFin(Taken(c, t), t)
        else Send(c, TCP_ACK, [])
  }

  function Taken(c: Inbound, t: Tcp): Inbound {
    Send(c.(rx := c.rx + t.payload, chipSeq := SeqAdd(c.chipSeq, |t.payload|)), TCP_ACK, []).(dataReady := true)
  }

  function OnFin(c: Inbound, t: Tcp): Inbound {
    if !HasFin(t) then c
    else SendFin(Send(c.(chipSeq := SeqAdd(c.chipSeq, 1), finsIn := c.finsIn + 1), TCP_ACK, []))
  }

  function SendFin(c: Inbound): Inbound {
    Send(c, TCP_FIN + TCP_ACK, []).(ourSeq := SeqAdd(c.ourSeq, 1), ourNext := c.ourNext + 1,
                                    finsOut := c.finsOut + 1, state := Closed, finished := true)
  }

  /** The request coroutine found the connection established. */
  function SendRequest(c: Inbound): Inbound {
    Send(c, TCP_PSH + TCP_ACK, c.raw).(ourSeq := SeqAdd(c.ourSeq, |c.raw|), ourNext := c.ourNext + |c.raw|,
                                       requested := true, asked := c.raw)
  }

  /** Shutdown wakes whoever waits on the connection and leaves its state alone. */
  function CutOff(c: Inbound): Inbound { c.(reset := true, finished := true, established := true) }

  /** What the request returns when it ends here. */
  function Response(c: Inbound): Option<bytes> {
    if c.requested && |c.rx| > 0 then Some(c.rx) else None
  }

  datatype Event = Arrives(t: Tcp) | Proceed | Finish | Cut

  predicate Enabled(c: Inbound, e: Event) {
    e.Proceed? ==> !c.requested && c.established && !c.reset && c.state == Established
  }

  function Step(c: Inbound, e: Event): Inbound
    requires Enabled(c, e)
  {
    match e
    case Arrives(t) => OnSegment(c, t)
    case Proceed => SendRequest(c)
    case Finish => c.(state := Closed)
    case Cut => CutOff(c)
  }

  // ---- The invariant ----

  /** The chip's side of the connection: its initial number and its response stream. */
  datatype Peer = Peer(isn: u32, stream: bytes)

  ghost predicate FromPeer(c: Inbound, t: Tcp, peer: Peer) {
    && (HasSyn(t) ==> t.seqNo == peer.isn)
    && Genuine(t.seqNo, t.payload, peer.isn, peer.stream, |c.rx|)
  }

  /** What an acknowledgement may say: nothing before the handshake; after it, no more than
      the bytes taken and the one FIN taken, wherever that stood (see `InboundFin`). */
  predicate AckTrue(e: C.Emission, isn: int, next: int) {
    && e.seg.seqNo == Wrap(e.trueSeq) && e.seg.ackNo == Wrap(e.trueAck)
    && (e.trueAck == 0 || isn + 1 <= e.trueAck <= next)
  }

  ghost predicate Taking(c: Inbound, peer: Peer) {
    && PrefixOf(c.rx, peer.stream)
    && (if c.chipIsn.None?
        then c.rx == [] && c.finsIn == 0 && c.chipSeq == 0 && c.state != Established && !c.requested
        else c.chipIsn.value == peer.isn && c.state != SynSent && c.chipSeq == Wrap(ChipNext(c)))
  }

  ghost predicate Sending(c: Inbound) {
    && c.ourSeq == Wrap(c.ourNext) && c.ourNext == c.ourIsn + 1 + |c.asked| + c.finsOut
    && c.asked == (if c.requested then c.raw else [])
    && c.finsIn == c.finsOut <= 1 && (c.finsIn == 1 ==> c.state == Closed)
  }

  ghost predicate Logged(c: Inbound, isn: int) {
    && Emitted(c.out, c.asked, c.finsOut, c.ourIsn + 1)
    && forall i :: 0 <= i < |c.out| ==> AckTrue(c.out[i], isn, ChipNext(c))
  }

  ghost predicate Inv(c: Inbound, peer: Peer) {
    Taking(c, peer) && Sending(c) && Logged(c, peer.isn)
  }

  // ---- Steps keep it ----

  lemma LogOne(c: Inbound, e: C.Emission, d: Inbound, isn: int)
    requires Logged(c, isn) && d.out == c.out + [e] && d.ourIsn == c.ourIsn
    requires d.asked == c.asked + e.seg.payload && d.finsOut == c.finsOut + (if HasFin(e.seg) then 1 else 0)
    requires Follows(e, c.asked, c.finsOut, c.ourIsn + 1) && AckTrue(e, isn, ChipNext(d))
    requires c.chipIsn == d.chipIsn || ChipNext(c) == 0
    requires c.chipIsn.Some? ==> ChipNext(d) >= ChipNext(c)
    requires c.chipIsn.None? ==> ChipNext(d) >= 0
    ensures Logged(d, isn)
  {
    EmittedOne(c.out, e, c.asked, c.finsOut, c.ourIsn + 1);
  }

  lemma BegunInv(port: u16, ourIsn: u32, raw: bytes, peer: Peer)
    ensures Inv(Begun(port, ourIsn, raw), peer)
  {
    var c := Begun(port, ourIsn, raw);
    NothingEmitted(ourIsn + 1);
    LogOne(c.(out := []), c.out[0], c, peer.isn);
  }

  /** An empty acknowledgement with the counters of `c`. */
  lemma AckKeeps(b: Inbound, c: Inbound, peer: Peer)
    requires Taking(c, peer) && Sending(c) && Logged(b, peer.isn)
    requires c.out == b.out && c.ourIsn == b.ourIsn && c.asked == b.asked && c.finsOut == b.finsOut
    requires b.chipIsn.Some? ==> c.chipIsn == b.chipIsn && ChipNext(c) >= ChipNext(b)
    ensures Logged(Send(c, TCP_ACK, []), peer.isn)
  {
    var d := Send(c, TCP_ACK, []);
    LogOne(b, d.out[|b.out|], d, peer.isn);
  }

  lemma SendFinKeeps(c: Inbound, peer: Peer)
    requires Taking(c, peer) && Logged(c, peer.isn) && c.chipIsn.Some? && c.finsOut == 0 && c.finsIn == 1
    requires Sending(c.(finsIn := 0)) 
    ensures Inv(SendFin(c), peer)
  {
    var d := SendFin(c);
    WrapAdd(c.ourNext, 1);
    LogOne(c, d.out[|c.out|], d, peer.isn);
  }

  lemma OnFinKeeps(c: Inbound, t: Tcp, peer: Peer)
    requires Inv(c, peer) && c.state == Established
    ensures Inv(OnFin(c, t), peer)
  {
    if HasFin(t) {
      var d := c.(chipSeq := SeqAdd(c.chipSeq, 1), finsIn := c.finsIn + 1);
      var a := Send(d, TCP_ACK, []);
      WrapAdd(ChipNext(c), 1);
      LogOne(c, a.out[|c.out|], a, peer.isn);
      SendFinKeeps(a, peer);
    }
  }

  lemma RxGrows(c: Inbound, t: Tcp, peer: Peer)
    requires Inv(c, peer) && c.state == Established && FromPeer(c, t, peer)
    requires |t.payload| > 0 && t.seqNo == c.chipSeq
    ensures Taking(c.(rx := c.rx + t.payload, chipSeq := SeqAdd(c.chipSeq, |t.payload|)), peer)
  {
    InOrderExtends(c.rx, peer.stream, peer.isn, t.seqNo, t.payload);
    WrapAdd(ChipNext(c), |t.payload|);
  }

  lemma TakenKeeps(c: Inbound, t: Tcp, peer: Peer)
    requires Inv(c, peer) && c.state == Established && FromPeer(c, t, peer)
    requires |t.payload| > 0 && t.seqNo == c.chipSeq
    ensures Inv(Taken(c, t), peer) && Taken(c, t).state == Established
  {
    RxGrows(c, t, peer);
    AckKeeps(c, c.(rx := c.rx + t.payload, chipSeq := SeqAdd(c.chipSeq, |t.payload|)), peer);
  }

  lemma ReAckKeeps(c: Inbound, peer: Peer)
    requires Inv(c, peer)
    ensures Inv(Send(c, TCP_ACK, []), peer)
  {
    AckKeeps(c, c, peer);
  }

  lemma SynAckKeeps(c: Inbound, t: Tcp, peer: Peer)
    requires Inv(c, peer) && FromPeer(c, t, peer)
    requires c.state == SynSent && !HasRst(t) && HasSyn(t) && HasAck(t)
    ensures Inv(OnSegment(c, t), peer)
  {
    var d := c.(chipSeq := SeqAdd(t.seqNo, 1), chipIsn := Some(t.seqNo), state := Established);
    AckKeeps(c, d, peer);
    var e := Send(d, TCP_ACK, []);
    assert OnSegment(c, t) == e.(established := true);
  }

  lemma SegmentKeeps(c: Inbound, t: Tcp, peer: Peer)
    requires Inv(c, peer) && FromPeer(c, t, peer)
    ensures Inv(OnSegment(c, t), peer)
  {
    if HasRst(t) {
    } else if c.state == SynSent {
      if HasSyn(t) && HasAck(t) { SynAckKeeps(c, t, peer); }
    } else if c.state == Closed {
      ReAckKeeps(c, peer);
    } else if |t.payload| == 0 {
      OnFinKeeps(c, t, peer);
    } else if t.seqNo == c.chipSeq {
      TakenKeeps(c, t, peer);
      OnFinKeeps(Taken(c, t), t, peer);
    } else {
      ReAckKeeps(c, peer);
    }
  }

  lemma RequestKeeps(c: Inbound, peer: Peer)
    requires Inv(c, peer) && Enabled(c, Proceed)
    ensures Inv(SendRequest(c), peer)
  {
    var d := SendRequest(c);
    WrapAdd(c.ourNext, |c.raw|);
    assert c.asked + c.raw == c.raw;
    LogOne(c, d.out[|c.out|], d, peer.isn);
  }

  /** After the handshake the expected number counts exactly the bytes taken and the FIN,
      the bytes taken are a prefix of the chip's response, and what went out is the request
      at its place with at most one FIN behind it: every step keeps this, whatever is
      duplicated, reordered or stale among the data segments. */
  lemma StepKeeps(c: Inbound, e: Event, peer: Peer)
    requires Inv(c, peer) && Enabled(c, e) && (e.Arrives? ==> FromPeer(c, e.t, peer))
    ensures Inv(Step(c, e), peer)
  {
    match e
    case Arrives(t) => SegmentKeeps(c, t, peer);
    case Proceed => RequestKeeps(c, peer);
    case Finish =>
    case Cut =>
  }

  // ---- What a step brings about ----

  function Last(c: Inbound): C.Emission
    requires |c.out| > 0
  {
    c.out[|c.out| - 1]
  }

  lemma TakenOutcome(c: Inbound, t: Tcp)
    requires c.chipSeq == Wrap(ChipNext(c)) && c.chipIsn.Some?
    ensures var d := Taken(c, t);
            && d == c.(rx := c.rx + t.payload, dataReady := true, chipSeq := d.chipSeq, out := d.out)
            && d.chipSeq == Wrap(ChipNext(c) + |t.payload|) && |d.out| == |c.out| + 1 && Last(d).seg.ackNo == d.chipSeq
  {
    WrapAdd(ChipNext(c), |t.payload|);
  }

  lemma FinOutcome(c: Inbound, t: Tcp, next: int)
    requires c.chipSeq == Wrap(next) && c.finsIn == 0 && c.state == Established && HasFin(t)
    ensures var d := OnFin(c, t);
            && d.rx == c.rx && d.dataReady == c.dataReady && d.finsIn == 1 && d.state == Closed && d.finished
            && |d.out| == |c.out| + 2 && HasFin(Last(d).seg) && Last(d).seg.ackNo == Wrap(next + 1)
  {
    WrapAdd(next, 1);
  }

  /** While established the next payload is always taken whole; a FIN is acknowledged and
      answered by our own, and the request is over. Another payload draws only a repetition
      of what is expected. */
  lemma NextPayloadTaken(c: Inbound, t: Tcp, peer: Peer)
    requires Inv(c, peer) && c.state == Established && !HasRst(t) && |t.payload| > 0
    ensures var d := OnSegment(c, t);
            |d.out| > |c.out|
            && if t.seqNo == Wrap(peer.isn + 1 + |c.rx|) then
                 && d.rx == c.rx + t.payload && d.dataReady && (d.finsIn == 1 <==> HasFin(t))
                 && (d.state == Closed <==> HasFin(t)) && (HasFin(t) ==> d.finished && HasFin(Last(d).seg))
                 && Last(d).seg.ackNo == Wrap(peer.isn + 1 + |c.rx| + |t.payload| + d.finsIn)
               else d == Send(c, TCP_ACK, []) && Last(d).seg.ackNo == Wrap(peer.isn + 1 + |c.rx|)
  {
    if t.seqNo == c.chipSeq {
      TakenOutcome(c, t);
      if HasFin(t) { FinOutcome(Taken(c, t), t, ChipNext(c) + |t.payload|); }
    }
  }

  /** After its end a connection answers a segment other than a reset exactly if it carries
      data, a FIN or a SYN, with one acknowledgement that repeats the last one, and takes
      nothing in. */
  lemma LateSegmentsReAcked(c: Inbound, t: Tcp, peer: Peer)
    requires Inv(c, peer) && c.state == Closed && !HasRst(t)
    ensures var d := OnSegment(c, t);
            && d == c.(out := d.out) && (d.out != c.out <==> |t.payload| > 0 || HasFin(t) || HasSyn(t))
            && (d.out != c.out ==>
                  && |d.out| == |c.out| + 1 && Last(d).seg.flags == TCP_ACK && Last(d).seg.payload == []
                  && (c.chipIsn.Some? ==> Last(d).seg.ackNo == Wrap(peer.isn + 1 + |c.rx| + c.finsIn)))
  {
  }

  // ---- Two limits of the code ----

  /** A request that gave up before the handshake still acknowledges a late SYN+ACK, with a
      number that stands for nothing and is the chip's only if that begins at the very last
      number: acknowledgements are blind exactly until one SYN+ACK has been taken. */
  lemma LateSynAckDrawsBlindAck(c: Inbound, t: Tcp, peer: Peer)
    requires Inv(c, peer) && c.state == Closed && !HasRst(t) && HasSyn(t) && HasAck(t)
    ensures var d := OnSegment(c, t);
            && |d.out| == |c.out| + 1
            && (d.out[|c.out|].trueAck == 0 <==> c.chipIsn == None)
            && (c.chipIsn == None ==>
                  d.out[|c.out|].seg.ackNo == 0 && (SeqAdd(t.seqNo, 1) == 0 <==> t.seqNo == 0xffff_ffff))
  {
  }

  /** The request goes out as one segment, whatever its length: it is printable as a segment
      within the MTU exactly when it fits the segment size. */
  lemma RequestFitsMtuIff(c: Inbound, src: Ip4, dst: Ip4)
    ensures var l4 := TcpToBytes(Segment(c, TCP_PSH + TCP_ACK, c.ourSeq, [], c.raw), src, dst);
            l4.Some? && 20 + |l4.value| <= 1500 <==> |c.raw| <= 1460
  {
    var t := Segment(c, TCP_PSH + TCP_ACK, c.ourSeq, [], c.raw);
    if TcpToBytes(t, src, dst).Some? { TcpSegmentVerifies(t, src, dst); }
  }
}
