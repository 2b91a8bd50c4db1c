/** The bridge: which part of the stack sees a frame from the chip. */
module Bridge {
  import opened Bytes
  import opened Packets
  import N = NatTable
  import I = InboundTable
  import S = InboundSpec
  import U = UdpFlows
  import C = ConnSpec
  import TcpEngine
  import InboundEngine
  import UdpEngine

  const ETHERTYPE_ARP: u16 := 0x0806
  const STA_MAC: Mac := [0x02, 0x42, 0xda, 0x00, 0x00, 0x42]

  datatype Destination =
    | Dropped
    | ToArp(frame: Ethernet)
    | ToIcmp(ip: IPv4)
    | ToDhcp(ip: IPv4, udp: Udp)
    | ToDns(ip: IPv4, udp: Udp)
    | ToUdpNat(ip: IPv4, udp: Udp)
    | ToInbound(ip: IPv4, tcp: Tcp)
    | ToNat(ip: IPv4, tcp: Tcp)

  function Route(d: I.Desk, ether: bytes): Destination {
    match ParseEthernet(ether)
    case Err(_) => Dropped
    case Ok(frame) => RouteFrame(d, frame)
  }

  function RouteFrame(d: I.Desk, frame: Ethernet): Destination {
    if frame.ethertype == ETHERTYPE_ARP then ToArp(frame)
    else if frame.ethertype != ETHERTYPE_IPV4 then Dropped
    else match ParseIPv4(frame.payload)
      case Err(_) => Dropped
      case Ok(ip) => RouteIp(d, ip)
  }

  function RouteIp(d: I.Desk, ip: IPv4): Destination {
    if ip.protocol == IPPROTO_ICMP then ToIcmp(ip)
    else if ip.protocol == IPPROTO_UDP then
      match ParseUdp(ip.payload)
      case Err(_) => Dropped
      case Ok(udp) => RouteUdp(ip, udp)
    else if ip.protocol == IPPROTO_TCP then
      match ParseTcp(ip.payload)
      case Err(_) => Dropped
      case Ok(tcp) => RouteTcp(d, ip, tcp)
    else Dropped
  }

  function RouteUdp(ip: IPv4, udp: Udp): Destination {
    if udp.dstPort == 67 || udp.srcPort == 67 then ToDhcp(ip, udp)
    else if udp.dstPort == 53 && ip.dst == I.GATEWAY_IP then ToDns(ip, udp)
    else ToUdpNat(ip, udp)
  }

  function RouteTcp(d: I.Desk, ip: IPv4, tcp: Tcp): Destination {
    if I.Matches(d, ip.src, ip.dst, tcp) then ToInbound(ip, tcp) else ToNat(ip, tcp)
  }

  /** What the outside decides while a frame is handled: the egress guard's verdict, a drawn
      sequence number, whether a datagram could be sent, and the time. */
  datatype Outside = Outside(allowed: bool, isn: u32, sent: bool, time: real)

  function NatFrame(ip: IPv4, segment: Tcp, o: Outside): N.NatEvent {
    N.Frame(ip.src, ip.dst, segment, o.allowed, o.isn)
  }

  function UdpFrame(ip: IPv4, datagram: Udp, o: Outside): U.Event {
    U.FromChip(C.Key(ip.src, datagram.srcPort, ip.dst, datagram.dstPort), o.allowed, o.sent)
  }

  /** The frame carries this IP packet. */
  predicate Holding(ether: bytes, ip: IPv4) {
    && ParseEthernet(ether).Ok? && ParseEthernet(ether).value.ethertype == 0x0800
    && ParseIPv4(ParseEthernet(ether).value.payload) == Ok(ip)
  }

  /** Which destination a frame is for, by its headers: ARP frames, ICMP packets, datagrams
      from or to port 67, datagrams to port 53 of 10.13.37.1, other datagrams, and segments
      that a connection into the chip claims or does not. */
  predicate MeantFor(d: I.Desk, ether: bytes, dest: Destination) {
    match dest
    case Dropped => false
    case ToArp(frame) => ParseEthernet(ether) == Ok(frame) && frame.ethertype == 0x0806
    case ToIcmp(ip) => Holding(ether, ip) && ip.protocol == 1
    case ToDhcp(ip, u) =>
      && Holding(ether, ip) && ip.protocol == 17 && ParseUdp(ip.payload) == Ok(u)
      && (u.srcPort == 67 || u.dstPort == 67)
    case ToDns(ip, u) =>
      && Holding(ether, ip) && ip.protocol == 17 && ParseUdp(ip.payload) == Ok(u)
      && u.srcPort != 67 && u.dstPort == 53 && ip.dst == [10, 13, 37, 1]
    case ToUdpNat(ip, u) =>
      && Holding(ether, ip) && ip.protocol == 17 && ParseUdp(ip.payload) == Ok(u)
      && u.srcPort != 67 && u.dstPort != 67 && !(u.dstPort == 53 && ip.dst == [10, 13, 37, 1])
    case ToInbound(ip, t) =>
      Holding(ether, ip) && ip.protocol == 6 && ParseTcp(ip.payload) == Ok(t) && I.Matches(d, ip.src, ip.dst, t)
    case ToNat(ip, t) =>
      Holding(ether, ip) && ip.protocol == 6 && ParseTcp(ip.payload) == Ok(t) && !I.Matches(d, ip.src, ip.dst, t)
  }

  lemma PacketRouted(d: I.Desk, ether: bytes, ip: IPv4)
    requires Holding(ether, ip)
    ensures Route(d, ether) == RouteIp(d, ip)
  {
  }

  lemma MeantIsRouted(d: I.Desk, ether: bytes, dest: Destination)
    requires MeantFor(d, ether, dest)
    ensures Route(d, ether) == dest
  {
    if !dest.ToArp? { PacketRouted(d, ether, dest.ip); }
  }

  lemma RoutedIsMeant(d: I.Desk, ether: bytes)
    requires Route(d, ether) != Dropped
    ensures MeantFor(d, ether, Route(d, ether))
  {
  }

  /** A frame goes where its headers say, and is dropped exactly if they say nothing. */
  lemma RoutedIffMeant(d: I.Desk, ether: bytes, dest: Destination)
    ensures dest != Dropped ==> (Route(d, ether) == dest <==> MeantFor(d, ether, dest))
    ensures Route(d, ether) == Dropped <==> forall other :: !MeantFor(d, ether, other)
  {
    if Route(d, ether) != Dropped { RoutedIsMeant(d, ether); }
    if MeantFor(d, ether, dest) { MeantIsRouted(d, ether, dest); }
    if Route(d, ether) == Dropped {
      forall other
        ensures !MeantFor(d, ether, other)
      {
        if MeantFor(d, ether, other) { MeantIsRouted(d, ether, other); }
      }
    }
  }

  /** A segment the chip prints, wraps and pads comes out with its addresses and fields,
      options zero-filled: for the connection into the chip that claims it, or else for the
      NAT, whose table is given exactly these addresses. */
  lemma SegmentRouted(d: I.Desk, mac: Mac, gw: Mac, src: Ip4, dst: Ip4, t: Tcp, padding: bytes, o: Outside)
    requires TcpToBytes(t, src, dst).Some? && |TcpToBytes(t, src, dst).value| <= 0xffff - 20
    ensures var f := MakeFrameIPv4(gw, mac, src, dst, IPPROTO_TCP, TcpToBytes(t, src, dst).value);
            && f.Some?
            && var dest := Route(d, f.value + padding);
            && (dest.ToInbound? || dest.ToNat?) && (dest.ToInbound? <==> I.Matches(d, src, dst, t))
            && dest.tcp == t.(dataOffset := dest.tcp.dataOffset, flags := t.flags % 0x200,
                              checksum := dest.tcp.checksum, options := PadOptions(t.options))
            && var ev := NatFrame(dest.ip, dest.tcp, o);
               ev.src == src && ev.dst == dst && ev.t == dest.tcp && ev.allowed == o.allowed && ev.isn == o.isn
  {
    TcpFrameRoundTrip(gw, mac, src, dst, t, padding);
    var ether := MakeFrameIPv4(gw, mac, src, dst, IPPROTO_TCP, TcpToBytes(t, src, dst).value).value + padding;
    var ip := ParseIPv4(ParseEthernet(ether).value.payload).value;
    SegmentGoes(d, ether, ip, ParseTcp(ip.payload).value);
  }

  lemma SegmentGoes(d: I.Desk, ether: bytes, ip: IPv4, t: Tcp)
    requires Holding(ether, ip) && ip.protocol == 6 && ParseTcp(ip.payload) == Ok(t)
    ensures Route(d, ether) == if I.Matches(d, ip.src, ip.dst, t) then ToInbound(ip, t) else ToNat(ip, t)
  {
  }

  lemma DatagramGoes(d: I.Desk, ether: bytes, ip: IPv4, u: Udp)
    requires Holding(ether, ip) && ip.protocol == 17 && ParseUdp(ip.payload) == Ok(u)
    requires u.srcPort != 67 && u.dstPort != 67 && !(u.dstPort == 53 && ip.dst == [10, 13, 37, 1])
    ensures Route(d, ether) == ToUdpNat(ip, u)
  {
  }

  /** A datagram the chip prints, wraps and pads for the outside comes to the UDP NAT, as one
      of a flow whose replies go back from where it was sent to where it came from. */
  lemma DatagramRouted(d: I.Desk, mac: Mac, gw: Mac, src: Ip4, dst: Ip4, u: Udp, padding: bytes, o: Outside,
                       data: bytes)
    requires 8 + |u.payload| <= 0xffff - 20
    requires u.srcPort != 67 && u.dstPort != 67 && !(u.dstPort == 53 && dst == [10, 13, 37, 1])
    ensures UdpToBytes(u, src, dst).Some?
    ensures var f := MakeFrameIPv4(gw, mac, src, dst, IPPROTO_UDP, UdpToBytes(u, src, dst).value);
            && f.Some?
            && var dest := Route(d, f.value + padding);
            && dest.ToUdpNat? && dest.udp.payload == u.payload
            && var ev := UdpFrame(dest.ip, dest.udp, o);
            && ev.FromChip? && ev.allowed == o.allowed && ev.sent == o.sent
            && ev.key.chipIp == src && ev.key.dstIp == dst
            && U.Reply(ev.key, data).srcPort == u.dstPort && U.Reply(ev.key, data).dstPort == u.srcPort
  {
    UdpFrameRoundTrip(gw, mac, src, dst, u, padding);
    var ether := MakeFrameIPv4(gw, mac, src, dst, IPPROTO_UDP, UdpToBytes(u, src, dst).value).value + padding;
    var ip := ParseIPv4(ParseEthernet(ether).value.payload).value;
    DatagramGoes(d, ether, ip, ParseUdp(ip.payload).value);
  }

  /** What the chip's server prints, wraps and pads for a connection the table claims comes
      out as the same segment, for the inbound engine. */
  lemma ClaimedFrameRouted(d: I.Desk, mac: Mac, gw: Mac, t: Tcp, padding: bytes)
    requires I.Matches(d, I.STA_IP, I.GATEWAY_IP, t)
    requires TcpToBytes(t, I.STA_IP, I.GATEWAY_IP).Some? && |TcpToBytes(t, I.STA_IP, I.GATEWAY_IP).value| <= 0xffff - 20
    ensures var f := MakeFrameIPv4(gw, mac, I.STA_IP, I.GATEWAY_IP, IPPROTO_TCP,
                                   TcpToBytes(t, I.STA_IP, I.GATEWAY_IP).value);
            && f.Some? && Route(d, f.value + padding).ToInbound?
            && var got := Route(d, f.value + padding).tcp;
               got == t.(dataOffset := got.dataOffset, flags := t.flags % 0x200, checksum := got.checksum,
                         options := PadOptions(t.options))
  {
    SegmentRouted(d, mac, gw, I.STA_IP, I.GATEWAY_IP, t, padding, Outside(true, 0, true, 0.0));
  }

  /** Barring shutdown, such a segment for a connection not yet removed always reaches that
      connection; the other engine, which would answer it with a reset, does not see it. */
  lemma ServerFramesReachInbound(es: seq<I.DeskEvent>, i: nat, mac: Mac, gw: Mac, t: Tcp, padding: bytes)
    requires I.CanRun(I.IDLE, es) && I.NoStop(es) && i < |I.After(I.IDLE, es).all|
    requires !I.After(I.IDLE, es).all[i].status.Gone?
    requires t.srcPort == 80 && t.dstPort == I.After(I.IDLE, es).all[i].c.ourPort
    requires var l4 := TcpToBytes(t, [10, 13, 37, 42], [10, 13, 37, 1]); l4.Some? && |l4.value| <= 0xffff - 20
    ensures var d := I.After(I.IDLE, es);
            var l4 := TcpToBytes(t, [10, 13, 37, 42], [10, 13, 37, 1]).value;
            var f := MakeFrameIPv4(gw, mac, [10, 13, 37, 42], [10, 13, 37, 1], 6, l4);
            && f.Some? && Route(d, f.value + padding).ToInbound?
            && Route(d, f.value + padding).tcp.dstPort in d.table
            && d.table[Route(d, f.value + padding).tcp.dstPort] == i
  {
    I.TimeWaitAbsorbs(es, i, t);
    ClaimedFrameRouted(I.After(I.IDLE, es), mac, gw, t, padding);
  }

  /** The chip's address after a frame: its source, unless that is all zero. */
  function Learned(ether: bytes, mac: Mac): Mac {
    if |ether| >= 14 && ether[6..12] != [0, 0, 0, 0, 0, 0] then ether[6..12] else mac
  }

  /** The source the chip's own printer puts into a frame is the address learned; a frame too
      short to be parsed teaches nothing. */
  lemma LearnsPrintedSource(e: Ethernet, short: bytes, mac: Mac)
    requires |short| < 14
    ensures Learned(EthernetToBytes(e), mac) == (if e.src == [0, 0, 0, 0, 0, 0] then mac else e.src)
    ensures Learned(short, mac) == mac && ParseEthernet(short) == Err(ValueError)
  {
    var b := EthernetToBytes(e);
    assert b[6..12] == e.src;
  }

  /** The values of the three engines. */
  datatype Stack = Stack(tcp: N.Nat, tcpIn: I.Desk, udp: U.Table)

  predicate CanTake(s: Stack, dest: Destination, o: Outside) {
    match dest
    case ToNat(ip, segment) => N.CanStep(s.tcp, NatFrame(ip, segment, o))
    case ToInbound(ip, segment) => I.CanStep(s.tcpIn, I.Segment(ip.src, ip.dst, segment))
    case _ => true
  }

  /** The engine the frame is for takes its step, the others stay as they are. */
  function Taken(s: Stack, dest: Destination, o: Outside): Stack
    requires CanTake(s, dest, o)
  {
    match dest
    case ToNat(ip, segment) => s.(tcp := N.NatStep(s.tcp, NatFrame(ip, segment, o)))
    case ToInbound(ip, segment) => s.(tcpIn := I.DeskStep(s.tcpIn, I.Segment(ip.src, ip.dst, segment)))
    case ToUdpNat(ip, datagram) => s.(udp := U.Step(s.udp, UdpFrame(ip, datagram, o)))
    case _ => s
  }

  /** The connection that claims the segment takes it, or else the NAT takes a frame with these
      addresses; the other engines stay as they are. */
  predicate SegmentTakes(s: Stack, dest: Destination, o: Outside, src: Ip4, dst: Ip4, port: u16, z: Stack)
    requires dest.ToInbound? || dest.ToNat?
  {
    && z.udp == s.udp
    && (dest.ToNat? ==>
          && z.tcpIn == s.tcpIn && N.CanStep(s.tcp, N.Frame(src, dst, dest.tcp, o.allowed, o.isn))
          && z.tcp == N.NatStep(s.tcp, N.Frame(src, dst, dest.tcp, o.allowed, o.isn)))
    && (dest.ToInbound? ==>
          && z.tcp == s.tcp && |z.tcpIn.all| == |s.tcpIn.all| && port in s.tcpIn.table
          && s.tcpIn.table[port] < |s.tcpIn.all|
          && var i := s.tcpIn.table[port];
          && z.tcpIn.all[i].c == S.OnSegment(s.tcpIn.all[i].c, dest.tcp)
          && forall j :: 0 <= j < |s.tcpIn.all| && j != i ==> z.tcpIn.all[j] == s.tcpIn.all[j])
  }

  lemma SegmentIsTaken(s: Stack, dest: Destination, o: Outside)
    requires (dest.ToInbound? || dest.ToNat?) && CanTake(s, dest, o)
    ensures SegmentTakes(s, dest, o, dest.ip.src, dest.ip.dst, dest.tcp.dstPort, Taken(s, dest, o))
  {
  }

  /** What a printed segment does to the engines. */
  lemma SegmentTaken(s: Stack, mac: Mac, gw: Mac, src: Ip4, dst: Ip4, t: Tcp, padding: bytes, o: Outside)
    requires TcpToBytes(t, src, dst).Some? && |TcpToBytes(t, src, dst).value| <= 0xffff - 20
    ensures var f := MakeFrameIPv4(gw, mac, src, dst, 6, TcpToBytes(t, src, dst).value);
            && f.Some?
            && var dest := Route(s.tcpIn, f.value + padding);
            && (dest.ToInbound? || dest.ToNat?)
            && (CanTake(s, dest, o) ==> SegmentTakes(s, dest, o, src, dst, t.dstPort, Taken(s, dest, o)))
  {
    SegmentRouted(s.tcpIn, mac, gw, src, dst, t, padding, o);
    var dest := Route(s.tcpIn, MakeFrameIPv4(gw, mac, src, dst, 6, TcpToBytes(t, src, dst).value).value + padding);
    if CanTake(s, dest, o) { SegmentIsTaken(s, dest, o); }
  }

  /** A printed datagram for the outside is a step of its own flow, and of nothing else. */
  lemma DatagramTaken(s: Stack, mac: Mac, gw: Mac, src: Ip4, dst: Ip4, u: Udp, padding: bytes, o: Outside)
    requires 8 + |u.payload| <= 0xffff - 20
    requires u.srcPort != 67 && u.dstPort != 67 && !(u.dstPort == 53 && dst == [10, 13, 37, 1])
    ensures UdpToBytes(u, src, dst).Some?
    ensures var f := MakeFrameIPv4(gw, mac, src, dst, 17, UdpToBytes(u, src, dst).value);
            && f.Some?
            && var dest := Route(s.tcpIn, f.value + padding);
            && CanTake(s, dest, o)
            && Taken(s, dest, o)
            == s.(udp := U.Step(s.udp, U.FromChip(C.Key(src, u.srcPort, dst, u.dstPort), o.allowed, o.sent)))
  {
    DatagramRouted(s.tcpIn, mac, gw, src, dst, u, padding, o, []);
  }

  /** From `s` to `t`, behind a mark: the engine the frame is for has taken its step. */
  ghost predicate Takes(s: Stack, dest: Destination, o: Outside, t: Stack) {
    forall mark: nat {:trigger Inside(mark)} :: CanTake(s, dest, o) && t == Taken(s, dest, o)
  }

  lemma TakesIs(s: Stack, dest: Destination, o: Outside, t: Stack)
    ensures Takes(s, dest, o, t) <==> CanTake(s, dest, o) && t == Taken(s, dest, o)
  {
    if Takes(s, dest, o, t) { assert Inside(0); }
  }

  lemma NothingTaken(s: Stack, dest: Destination, o: Outside)
    requires !dest.ToNat? && !dest.ToInbound? && !dest.ToUdpNat?
    ensures Takes(s, dest, o, s)
  {
  }

  class NetBridge {
    var running: bool
    const wifiEnabled: bool
    var chipMac: Mac
    const tcp: TcpEngine.TcpNat
    const tcpIn: InboundEngine.TcpInbound
    const udp: UdpEngine.UdpNat

    ghost function View(): Stack
      reads tcp, tcp.all, tcpIn, tcpIn.all, udp, udp.flows.Values
    {
      Stack(tcp.View(), tcpIn.View(), udp.View())
    }

    /** The NAT's gate is open while the bridge runs. */
    ghost predicate Valid()
      reads this, tcp, tcpIn, udp, udp.flows.Values
    {
      tcp.Valid() && tcpIn.Valid() && udp.Valid() && (running ==> tcp.gate)
    }

    /** No earlier frame is still being handled. */
    ghost predicate Ready(o: Outside)
      reads this, tcp, tcp.all, tcpIn, udp, udp.flows.Values
    {
      Valid() && N.Sound(tcp.View()) && tcp.busy == N.Free && udp.opening == None && o.time == udp.now
    }

    constructor (wifiEnabled: bool)
      ensures running && chipMac == [0x02, 0x42, 0xda, 0x00, 0x00, 0x42] && this.wifiEnabled == wifiEnabled && Valid()
      ensures fresh(tcp) && fresh(tcpIn) && fresh(udp)
      ensures View() == Stack(N.EMPTY, I.IDLE, U.START)
    {
      running, this.wifiEnabled, chipMac := true, wifiEnabled, STA_MAC;
      tcp := new TcpEngine.TcpNat();
      tcpIn := new InboundEngine.TcpInbound();
      udp := new UdpEngine.UdpNat();
    }

    /** Learns the chip's address from every parsed frame whose source is not all zero, and
        hands the frame to the part it is for: that one takes its step, the others stay as
        they are. */
    method DeliverPacketOut(ether: bytes, o: Outside) returns (dest: Destination)
      requires Ready(o)
      modifies this`chipMac, tcp, tcp.all, tcpIn, tcpIn.all, udp, udp.flows.Values
      ensures Valid() && dest == if running && wifiEnabled then Route(old(View()).tcpIn, ether) else Dropped
      ensures chipMac == if running && wifiEnabled then Learned(ether, old(chipMac)) else old(chipMac)
      ensures Takes(old(View()), dest, o, View())
    {
      dest := Dropped;
      NothingTaken(View(), dest, o);
      if !running || !wifiEnabled { return; }
      var parsed := ParseAndLearn(ether);
      if parsed.Err? { return; }
      dest := DeliverFrame(parsed.value, o);
    }

    method ParseAndLearn(ether: bytes) returns (parsed: Result<Ethernet>)
      modifies this`chipMac
      ensures parsed == ParseEthernet(ether) && chipMac == Learned(ether, old(chipMac))
    {
      parsed := ParseEthernet(ether);
      if parsed.Ok? {
        var src := parsed.value.src;
        if exists k :: 0 <= k < 6 && src[k] != 0 { chipMac := src; }
      }
    }

    method DeliverFrame(frame: Ethernet, o: Outside) returns (dest: Destination)
      requires Ready(o) && tcp.gate
      modifies tcp, tcp.all, tcpIn, tcpIn.all, udp, udp.flows.Values
      ensures Valid() && dest == RouteFrame(old(View()).tcpIn, frame) && Takes(old(View()), dest, o, View())
    {
      dest := Dropped;
      if frame.ethertype == ETHERTYPE_ARP { dest := ToArp(frame); }
      NothingTaken(View(), dest, o);
      if frame.ethertype != ETHERTYPE_IPV4 { return; }
      var ip := ParseIPv4(frame.payload);
      if ip.Err? { return; }
      dest := DeliverIp(ip.value, o);
    }

    method DeliverIp(ip: IPv4, o: Outside) returns (dest: Destination)
      requires Ready(o) && tcp.gate
      modifies tcp, tcp.all, tcpIn, tcpIn.all, udp, udp.flows.Values
      ensures Valid() && dest == RouteIp(old(View()).tcpIn, ip) && Takes(old(View()), dest, o, View())
    {
      dest := Dropped;
      NothingTaken(View(), dest, o);
      if ip.protocol == IPPROTO_ICMP {
        dest := ToIcmp(ip);
        NothingTaken(View(), dest, o);
      } else if ip.protocol == IPPROTO_UDP {
        var datagram := ParseUdp(ip.payload);
        if datagram.Ok? { dest := DeliverUdp(ip, datagram.value, o); }
      } else if ip.protocol == IPPROTO_TCP {
        var segment := ParseTcp(ip.payload);
        if segment.Ok? { dest := DeliverTcp(ip, segment.value, o); }
      }
    }

    method DeliverUdp(ip: IPv4, datagram: Udp, o: Outside) returns (dest: Destination)
      requires udp.Valid() && udp.opening == None && o.time == udp.now
      modifies udp, udp.flows.Values
      ensures udp.Valid() && dest == RouteUdp(ip, datagram) && Takes(old(View()), dest, o, View())
    {
      ghost var s := View();
      dest := Dropped;
      if datagram.dstPort == 67 || datagram.srcPort == 67 {
        dest := ToDhcp(ip, datagram);
      } else if datagram.dstPort == 53 && ip.dst == I.GATEWAY_IP {
        dest := ToDns(ip, datagram);
      } else {
        udp.HandleChipDatagram(C.Key(ip.src, datagram.srcPort, ip.dst, datagram.dstPort), o.allowed, o.sent, o.time);
        dest := ToUdpNat(ip, datagram);
      }
      TakesIs(s, dest, o, View());
    }

    /** A TCP segment: exactly one engine takes its step, the other stays as it is. */
    method DeliverTcp(ip: IPv4, segment: Tcp, o: Outside) returns (dest: Destination)
      requires tcp.Valid() && tcpIn.Valid() && N.Sound(tcp.View()) && tcp.gate && tcp.busy == N.Free
      modifies tcp, tcp.all, tcpIn, tcpIn.all
      ensures tcp.Valid() && tcpIn.Valid() && tcp.gate
      ensures dest == RouteTcp(old(View()).tcpIn, ip, segment) && Takes(old(View()), dest, o, View())
    {
      tcpIn.ClaimsIsMatches(ip.src, ip.dst, segment);
      if tcpIn.Claims(ip.src, ip.dst, segment) {
        dest := HandToInbound(ip, segment, o);
      } else {
        dest := HandToNat(ip, segment, o);
      }
    }

    method HandToInbound(ip: IPv4, segment: Tcp, o: Outside) returns (dest: Destination)
      requires tcpIn.Valid() && I.Matches(tcpIn.View(), ip.src, ip.dst, segment)
      modifies tcpIn, tcpIn.all
      ensures tcpIn.Valid() && dest == ToInbound(ip, segment) && Takes(old(View()), dest, o, View())
    {
      ghost var s := View();
      tcpIn.HandleChipSegment(ip.src, ip.dst, segment);
      dest := ToInbound(ip, segment);
      TakesIs(s, dest, o, View());
    }

    method HandToNat(ip: IPv4, segment: Tcp, o: Outside) returns (dest: Destination)
      requires tcp.Valid() && N.Sound(tcp.View()) && tcp.gate && tcp.busy == N.Free
      modifies tcp, tcp.all
      ensures tcp.Valid() && tcp.gate && dest == ToNat(ip, segment) && Takes(old(View()), dest, o, View())
    {
      ghost var s := View();
      N.AcceptsFrame(tcp.View(), NatFrame(ip, segment, o));
      tcp.HandleChipSegment(ip.src, ip.dst, segment, o.allowed, o.isn);
      dest := ToNat(ip, segment);
      TakesIs(s, dest, o, View());
    }

    /** At any time, a frame being handled or not. After it nothing from the chip is let
        through any more. */
    method Stop()
      requires Valid() && N.Sound(tcp.View()) && I.Keyed(tcpIn.View())
      modifies this`running, tcp, tcp.all, tcpIn, tcpIn.all, udp
      ensures tcp.Valid() && tcpIn.Valid() && udp.Valid() && !running
      ensures tcp.View() == N.NatStep(old(tcp.View()), N.ShutdownAll)
      ensures tcpIn.View() == I.DeskStep(old(tcpIn.View()), I.Stop)
      ensures udp.View() == U.Step(old(udp.View()), U.Stop)
    {
      running := false;
      StopNat();
      StopInbound();
      StopUdp();
    }

    method StopNat()
      requires tcp.Valid() && tcpIn.Valid() && udp.Valid() && N.Sound(tcp.View())
      modifies tcp, tcp.all
      ensures tcp.Valid() && tcp.View() == N.NatStep(old(tcp.View()), N.ShutdownAll)
      ensures tcpIn.Valid() && tcpIn.View() == old(tcpIn.View()) && udp.Valid() && udp.View() == old(udp.View())
    {
      N.SoundIs(tcp.View());
      tcp.Shutdown();
    }

    method StopInbound()
      requires tcp.Valid() && tcpIn.Valid() && udp.Valid() && I.Keyed(tcpIn.View())
      modifies tcpIn, tcpIn.all
      ensures tcpIn.Valid() && tcpIn.View() == I.DeskStep(old(tcpIn.View()), I.Stop)
      ensures tcp.Valid() && tcp.View() == old(tcp.View()) && udp.Valid() && udp.View() == old(udp.View())
    {
      tcpIn.Shutdown();
    }

    method StopUdp()
      requires tcp.Valid() && tcpIn.Valid() && udp.Valid()
      modifies udp
      ensures udp.Valid() && udp.View() == U.Step(old(udp.View()), U.Stop)
      ensures tcp.Valid() && tcp.View() == old(tcp.View()) && tcpIn.Valid() && tcpIn.View() == old(tcpIn.View())
    {
      udp.Shutdown();
    }
  }
}
