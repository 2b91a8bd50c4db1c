/** Where the gateway's segments for the chip's server go, and which segments come back to
    which connection. */
module InboundWire {
  import opened Bytes
  import opened SeqArith
  import opened Packets
  import opened InboundSpec
  import opened InboundTable
  import C = ConnSpec

  /** The first segment: a SYN from the connection's port to port 80, with the segment size
      1460. */
  function SynOf(c: Inbound): Tcp {
    Tcp(c.ourPort, 80, c.ourIsn, 0, 5, 0x02, 65535, 0, 0, [2, 4, 0x05, 0xb4], [])
  }

  /** Every later one: the same ports, no options; the request (ACK and PSH), an
      acknowledgement (ACK), or our FIN (ACK and FIN). */
  predicate Dressed(c: Inbound, t: Tcp) {
    && t.srcPort == c.ourPort && t.dstPort == 80
    && t.dataOffset == 5 && t.options == [] && t.window == 65535 && t.urgPtr == 0 && t.checksum == 0
    && (if t.flags == 0x18 then t.payload == c.raw else t.payload == [] && (t.flags == 0x10 || t.flags == 0x11))
  }

  ghost predicate Addressed(c: Inbound) {
    |c.out| > 0 && c.out[0].seg == SynOf(c) && forall k :: 0 < k < |c.out| ==> Dressed(c, c.out[k].seg)
  }

  lemma OneMore(c: Inbound, d: Inbound, e: C.Emission)
    requires Addressed(c) && d.out == c.out + [e] && Dressed(c, e.seg)
    requires d.ourPort == c.ourPort && d.ourIsn == c.ourIsn && d.raw == c.raw
    ensures Addressed(d)
  {
  }

  lemma AckAddressed(c: Inbound)
    requires Addressed(c)
    ensures Addressed(InboundSpec.Send(c, TCP_ACK, []))
  {
    OneMore(c, InboundSpec.Send(c, TCP_ACK, []), InboundSpec.Send(c, TCP_ACK, []).out[|c.out|]);
  }

  lemma SendFinAddressed(c: Inbound)
    requires Addressed(c)
    ensures Addressed(SendFin(c))
  {
    OneMore(c, SendFin(c), SendFin(c).out[|c.out|]);
  }

  lemma FinAddressed(c: Inbound, t: Tcp)
    requires Addressed(c)
    ensures Addressed(OnFin(c, t))
  {
    if HasFin(t) {
      var d := c.(chipSeq := SeqAdd(c.chipSeq, 1), finsIn := c.finsIn + 1);
      AckAddressed(d);
      SendFinAddressed(InboundSpec.Send(d, TCP_ACK, []));
    }
  }

  lemma TakenAddressed(c: Inbound, t: Tcp)
    requires Addressed(c)
    ensures Addressed(Taken(c, t))
  {
    AckAddressed(c.(rx := c.rx + t.payload, chipSeq := SeqAdd(c.chipSeq, |t.payload|)));
  }

  lemma SegmentAddressed(c: Inbound, t: Tcp)
    requires Addressed(c)
    ensures Addressed(OnSegment(c, t))
  {
    if HasRst(t) {
    } else {
      match c.state
      case SynSent =>
        AckAddressed(c.(chipSeq := SeqAdd(t.seqNo, 1), chipIsn := Some(t.seqNo), state := Established));
      case Closed => AckAddressed(c);
      case Established =>
        AckAddressed(c);
        TakenAddressed(c, t);
        FinAddressed(c, t);
        FinAddressed(Taken(c, t), t);
    }
  }

  lemma StepAddressed(c: Inbound, e: Event)
    requires Addressed(c) && Enabled(c, e)
    ensures Addressed(Step(c, e))
  {
    match e
    case Arrives(t) => SegmentAddressed(c, t);
    case Proceed => OneMore(c, SendRequest(c), SendRequest(c).out[|c.out|]);
    case Finish =>
    case Cut =>
  }

  lemma BegunAddressed(port: u16, isn: u32, raw: bytes)
    ensures Addressed(Begun(port, isn, raw))
  {
  }

  ghost predicate AllAddressed(d: Desk) { forall i :: 0 <= i < |d.all| ==> Addressed(d.all[i].c) }

  lemma DeskStepAddressed(d: Desk, e: DeskEvent)
    requires AllAddressed(d) && CanStep(d, e)
    ensures AllAddressed(DeskStep(d, e))
  {
    match e
    case Ask(port, isn, raw) => BegunAddressed(port, isn, raw);
    case Segment(_, _, t) => SegmentAddressed(d.all[d.table[t.dstPort]].c, t);
    case Send(i) => StepAddressed(d.all[i].c, Proceed);
    case _ =>
  }

  lemma {:induction false} RunAddressed(d: Desk, es: seq<DeskEvent>)
    requires AllAddressed(d) && CanRun(d, es)
    ensures AllAddressed(After(d, es))
    decreases |es|
  {
    if |es| > 0 {
      DeskStepAddressed(d, es[0]);
      RunAddressed(DeskStep(d, es[0]), es[1..]);
    }
  }

  /** Over every run, shutdowns included: the first segment of every connection is its SYN
      to port 80 with the segment size option, and every later one goes the same way and is
      the request, an acknowledgement or our FIN. */
  lemma EmissionsAddressed(es: seq<DeskEvent>, i: nat)
    requires CanRun(IDLE, es) && i < |After(IDLE, es).all|
    ensures Addressed(After(IDLE, es).all[i].c)
  {
    RunAddressed(IDLE, es);
  }

  lemma DressedFits(c: Inbound, t: Tcp)
    requires (Dressed(c, t) || t == SynOf(c)) && |c.raw| <= 0xffff - 40
    ensures var l4 := TcpToBytes(t, GATEWAY_IP, STA_IP);
            l4.Some? && |l4.value| <= 0xffff - 20
  {
    if TcpToBytes(t, GATEWAY_IP, STA_IP).Some? { TcpSegmentVerifies(t, GATEWAY_IP, STA_IP); }
  }

  /** The chip, unwrapping the frame of an emission that fits one, sees a segment from
      10.13.37.1 and the connection's port to port 80 of 10.13.37.42. */
  lemma EmissionReachesServer(es: seq<DeskEvent>, i: nat, k: nat, mac: Mac, gw: Mac, padding: bytes)
    requires CanRun(IDLE, es) && i < |After(IDLE, es).all| && k < |After(IDLE, es).all[i].c.out|
    requires |After(IDLE, es).all[i].c.raw| <= 0xffff - 40
    ensures var c := After(IDLE, es).all[i].c;
            var l4 := TcpToBytes(c.out[k].seg, GATEWAY_IP, STA_IP);
            && l4.Some?
            && var f := MakeFrameIPv4(mac, gw, GATEWAY_IP, STA_IP, IPPROTO_TCP, l4.value);
            && f.Some? && UnwrapsTo(f.value + padding, [10, 13, 37, 1], [10, 13, 37, 42], c.out[k].seg)
            && c.out[k].seg.srcPort == c.ourPort && c.out[k].seg.dstPort == 80
  {
    EmissionsAddressed(es, i);
    var t := After(IDLE, es).all[i].c.out[k].seg;
    DressedFits(After(IDLE, es).all[i].c, t);
    TcpUnwraps(mac, gw, GATEWAY_IP, STA_IP, t, padding);
  }

  // ---- From the chip's server ----

  /** The segment comes from port 80 of 10.13.37.42 to 10.13.37.1 and the connection's port:
      with the ports of its SYN exchanged. */
  predicate Replies(c: Inbound, src: Ip4, dst: Ip4, t: Tcp) {
    && src == [10, 13, 37, 42] && dst == [10, 13, 37, 1]
    && t.srcPort == 80 && t.dstPort == c.ourPort
  }

  /** Over every run a segment is claimed exactly if it replies to a connection that holds its
      port; and that connection takes it, no other being touched. */
  lemma ClaimedIffReplies(es: seq<DeskEvent>, src: Ip4, dst: Ip4, t: Tcp)
    requires CanRun(IDLE, es)
    ensures var d := After(IDLE, es);
            && (Matches(d, src, dst, t) <==>
                  exists i :: 0 <= i < |d.all| && Holds(d, i) && Replies(d.all[i].c, src, dst, t))
            && (forall i :: 0 <= i < |d.all| && Holds(d, i) && Replies(d.all[i].c, src, dst, t) ==>
                  DeskStep(d, DeskEvent.Segment(src, dst, t))
                  == d.(all := d.all[i := d.all[i].(c := OnSegment(d.all[i].c, t))]))
  {
    RunKeepsKeyed(IDLE, es);
    var d := After(IDLE, es);
    if Matches(d, src, dst, t) {
      assert Holds(d, d.table[t.dstPort]) && Replies(d.all[d.table[t.dstPort]].c, src, dst, t);
    }
  }
}
