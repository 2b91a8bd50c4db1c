/** Ethernet, IPv4, TCP, UDP and ICMP parsers and printers. Printers return `None` where
    `struct.pack` would refuse a value. */
module Packets {
  import opened Bytes
  import opened Checksum

  type u2 = x: int | 0 <= x < 4
  type u3 = x: int | 0 <= x < 8
  type u4 = x: int | 0 <= x < 16
  type u6 = x: int | 0 <= x < 64
  type u13 = x: int | 0 <= x < 0x2000

  const ETHERTYPE_IPV4: u16 := 0x0800
  const IPPROTO_ICMP: byte := 1
  const IPPROTO_TCP: byte := 6
  const IPPROTO_UDP: byte := 17

  const TCP_FIN: u16 := 0x01
  const TCP_SYN: u16 := 0x02
  const TCP_RST: u16 := 0x04
  const TCP_PSH: u16 := 0x08
  const TCP_ACK: u16 := 0x10

  // ---- Ethernet ----

  datatype Ethernet = Ethernet(dst: Mac, src: Mac, ethertype: u16, payload: bytes)

  function ParseEthernet(frame: bytes): Result<Ethernet> {
    if |frame| < 14 then Err(ValueError)
    else Ok(Ethernet(frame[0..6], frame[6..12], Unpack16(frame, 12), frame[14..]))
  }

  function EthernetToBytes(e: Ethernet): bytes {
    e.dst + e.src + Pack16(e.ethertype) + e.payload
  }

  lemma EthernetRoundTrip(e: Ethernet)
    ensures ParseEthernet(EthernetToBytes(e)) == Ok(e)
  {
    var b := EthernetToBytes(e);
    assert b[0..6] == e.dst && b[6..12] == e.src && b[14..] == e.payload;
    UnpackWithin(e.dst + e.src, Pack16(e.ethertype), e.payload);
  }

  // ---- IPv4 ----

  datatype IPv4 = IPv4(version: u4, ihl: u4, dscp: u6, ecn: u2, totalLength: u16, ident: u16,
                       flags: u3, fragOffset: u13, ttl: byte, protocol: byte, checksum: u16,
                       src: Ip4, dst: Ip4, payload: bytes)

  function ParseIPv4(data: bytes): Result<IPv4> {
    if |data| < 20 then Err(ValueError)
    else if data[0] % 16 < 5 then Err(ValueError)
    else
      var ihl := data[0] % 16;
      var totalLength := Unpack16(data, 2);
      var flagsFrag := Unpack16(data, 6);
      Ok(IPv4(data[0] / 16, ihl, data[1] / 4, data[1] % 4, totalLength, Unpack16(data, 4),
              flagsFrag / 0x2000, flagsFrag % 0x2000, data[8], data[9], Unpack16(data, 10),
              data[12..16], data[16..20], Slice(data, ihl * 4, totalLength)))
  }

  /** The ten header bytes before the checksum. */
  function IPv4Front(p: IPv4, totalLength: u16): (b: bytes)
    ensures |b| == 10
  {
    [0x45, p.dscp * 4 + p.ecn] + Pack16(totalLength) + Pack16(p.ident)
    + Pack16(p.flags * 0x2000 + p.fragOffset) + [p.ttl, p.protocol]
  }

  function IPv4ToBytes(p: IPv4): Option<bytes> {
    if 20 + |p.payload| > 0xffff then None
    else
      var front := IPv4Front(p, 20 + |p.payload|);
      var checksum := InternetChecksum(front + [0, 0] + (p.src + p.dst));
      Some(front + Pack16(checksum) + (p.src + p.dst) + p.payload)
  }

  lemma {:induction false} IPv4HeaderVerifies(p: IPv4)
    requires IPv4ToBytes(p).Some?
    ensures |IPv4ToBytes(p).value| == 20 + |p.payload|
    ensures Verifies(IPv4ToBytes(p).value[..20])
  {
    var front := IPv4Front(p, 20 + |p.payload|);
    var checksum := InternetChecksum(front + [0, 0] + (p.src + p.dst));
    FilledChecksumVerifies(front, p.src + p.dst, checksum);
    assert IPv4ToBytes(p).value[..20] == front + Pack16(checksum) + (p.src + p.dst);
  }

  lemma IPv4FrontReads(p: IPv4, totalLength: u16)
    ensures var f := IPv4Front(p, totalLength);
            && f[0] == 0x45 && f[1] == p.dscp * 4 + p.ecn && Unpack16(f, 2) == totalLength
            && Unpack16(f, 4) == p.ident && Unpack16(f, 6) == p.flags * 0x2000 + p.fragOffset
            && f[8] == p.ttl && f[9] == p.protocol
  {
    var f := IPv4Front(p, totalLength);
    assert f == [0x45, p.dscp * 4 + p.ecn, totalLength / 0x100, totalLength % 0x100,
                 p.ident / 0x100, p.ident % 0x100,
                 (p.flags * 0x2000 + p.fragOffset) / 0x100, (p.flags * 0x2000 + p.fragOffset) % 0x100,
                 p.ttl, p.protocol];
  }

  /** `ParseIPv4` on an option-less packet given by its pieces and followed by padding. */
  lemma ParseIPv4Pieces(front: bytes, checksum: u16, src: Ip4, dst: Ip4, payload: bytes, padding: bytes)
    requires |front| == 10 && front[0] == 0x45 && Unpack16(front, 2) == 20 + |payload|
    ensures ParseIPv4(front + Pack16(checksum) + (src + dst) + payload + padding)
         == Ok(IPv4(4, 5, front[1] / 4, front[1] % 4, 20 + |payload|, Unpack16(front, 4),
                    Unpack16(front, 6) / 0x2000, Unpack16(front, 6) % 0x2000, front[8], front[9],
                    checksum, src, dst, payload))
  {
    var d := front + Pack16(checksum) + (src + dst) + payload + padding;
    assert forall i :: 0 <= i < 10 ==> d[i] == front[i];
    assert d[10..12] == Pack16(checksum);
    assert d[10] == d[10..12][0] && d[11] == d[10..12][1];
    assert d[12..16] == src && d[16..20] == dst;
    assert d[20..20 + |payload|] == payload;
  }

  /** Parsing what was printed gives the fields back, with the payload cut to the total
      length, so that padding behind the packet is dropped. */
  lemma IPv4RoundTrip(p: IPv4, padding: bytes)
    requires IPv4ToBytes(p).Some?
    ensures var r := ParseIPv4(IPv4ToBytes(p).value + padding);
            r.Ok? && r.value == p.(version := 4, ihl := 5, totalLength := 20 + |p.payload|,
                                   checksum := r.value.checksum)
  {
    var front := IPv4Front(p, 20 + |p.payload|);
    IPv4FrontReads(p, 20 + |p.payload|);
    ParseIPv4Pieces(front, InternetChecksum(front + [0, 0] + (p.src + p.dst)), p.src, p.dst, p.payload, padding);
  }

  // ---- TCP ----

  datatype Tcp = Tcp(srcPort: u16, dstPort: u16, seqNo: u32, ackNo: u32, dataOffset: u4, flags: u16,
                     window: u16, checksum: u16, urgPtr: u16, options: bytes, payload: bytes)

  /** `flags & bit` for a one-bit mask. */
  predicate Flagged(flags: u16, bit: u16)
    requires bit > 0
  {
    flags / bit % 2 == 1
  }

  predicate HasFin(t: Tcp) { Flagged(t.flags, TCP_FIN) }
  predicate HasSyn(t: Tcp) { Flagged(t.flags, TCP_SYN) }
  predicate HasRst(t: Tcp) { Flagged(t.flags, TCP_RST) }
  predicate HasAck(t: Tcp) { Flagged(t.flags, TCP_ACK) }

  function ParseTcp(s: bytes): Result<Tcp> {
    if |s| < 20 then Err(ValueError)
    else
      var offFlags := Unpack16(s, 12);
      var dataOffset := offFlags / 0x1000;
      if dataOffset * 4 < 20 || dataOffset * 4 > |s| then Err(ValueError)
      else Ok(Tcp(Unpack16(s, 0), Unpack16(s, 2), Unpack32(s, 4), Unpack32(s, 8), dataOffset,
                  offFlags % 0x200, Unpack16(s, 14), Unpack16(s, 16), Unpack16(s, 18),
                  s[20..dataOffset * 4], s[dataOffset * 4..]))
  }

  /** Options are zero-filled to a multiple of four bytes. */
  function PadOptions(o: bytes): (r: bytes)
    ensures |r| % 4 == 0 && |o| <= |r| < |o| + 4
    ensures r[..|o|] == o && forall i :: |o| <= i < |r| ==> r[i] == 0
  {
    if |o| % 4 == 0 then o else o + Zeros(4 - |o| % 4)
  }

  /** The sixteen bytes before the checksum and everything after it. */
  function TcpFront(t: Tcp, dataOffset: u4): (b: bytes)
    ensures |b| == 16
  {
    Pack16(t.srcPort) + Pack16(t.dstPort) + Pack32(t.seqNo) + Pack32(t.ackNo)
    + Pack16(dataOffset * 0x1000 + t.flags % 0x200) + Pack16(t.window)
  }

  function TcpBack(t: Tcp): bytes {
    Pack16(t.urgPtr) + PadOptions(t.options) + t.payload
  }

  function PseudoHeader(src: Ip4, dst: Ip4, protocol: byte, length: u16): (b: bytes)
    ensures |b| == 12
  {
    src + dst + [0, protocol] + Pack16(length)
  }

  lemma PseudoHeaderIs(src: Ip4, dst: Ip4, protocol: byte, length: u16)
    ensures PseudoHeader(src, dst, protocol, length) == src + dst + [0, protocol, length / 256, length % 256]
  {
  }

  function TcpToBytes(t: Tcp, src: Ip4, dst: Ip4): Option<bytes> {
    var dataOffset := (20 + |PadOptions(t.options)|) / 4;
    var length := 20 + |PadOptions(t.options)| + |t.payload|;
    if dataOffset > 15 || length > 0xffff then None
    else
      var front, back := TcpFront(t, dataOffset), TcpBack(t);
      var pseudo := PseudoHeader(src, dst, IPPROTO_TCP, length);
      var checksum := InternetChecksum(pseudo + (front + [0, 0] + back));
      Some(front + Pack16(checksum) + back)
  }

  /** Under the pseudo-header of RFC 793 section 3.1, addresses, zero, protocol 6 and length,
      every printed segment sums up. */
  lemma {:induction false} TcpSegmentVerifies(t: Tcp, src: Ip4, dst: Ip4)
    requires TcpToBytes(t, src, dst).Some?
    ensures var b := TcpToBytes(t, src, dst).value;
            |b| == 20 + |PadOptions(t.options)| + |t.payload| <= 0xffff
            && Verifies(src + dst + [0, 6, |b| / 256, |b| % 256] + b)
  {
    var front := TcpFront(t, (20 + |PadOptions(t.options)|) / 4);
    var back := TcpBack(t);
    var length := 20 + |PadOptions(t.options)| + |t.payload|;
    PseudoHeaderIs(src, dst, IPPROTO_TCP, length);
    ChecksumUnderPseudoHeader(PseudoHeader(src, dst, IPPROTO_TCP, length), front, back,
                              InternetChecksum(PseudoHeader(src, dst, IPPROTO_TCP, length) + (front + [0, 0] + back)));
  }

  lemma {:induction false} ChecksumUnderPseudoHeader(pseudo: bytes, front: bytes, back: bytes, stored: u16)
    requires |pseudo| % 2 == 0 && |front| % 2 == 0
    requires var c := InternetChecksum(pseudo + (front + [0, 0] + back));
             stored == c || (c == 0 && stored == 0xffff)
    ensures Verifies(pseudo + (front + Pack16(stored) + back))
  {
    assert pseudo + (front + [0, 0] + back) == (pseudo + front) + [0, 0] + back;
    FilledChecksumVerifies(pseudo + front, back, stored);
    assert pseudo + (front + Pack16(stored) + back) == (pseudo + front) + Pack16(stored) + back;
  }

  lemma TcpFrontReads(t: Tcp, dataOffset: u4)
    ensures var f := TcpFront(t, dataOffset);
            && Unpack16(f, 0) == t.srcPort && Unpack16(f, 2) == t.dstPort
            && Unpack32(f, 4) == t.seqNo && Unpack32(f, 8) == t.ackNo
            && Unpack16(f, 12) / 0x1000 == dataOffset && Unpack16(f, 12) % 0x200 == t.flags % 0x200
            && Unpack16(f, 14) == t.window
  {
    var f := TcpFront(t, dataOffset);
    assert f[0..2] == Pack16(t.srcPort) && f[2..4] == Pack16(t.dstPort);
    assert f[4..8] == Pack32(t.seqNo) && f[8..12] == Pack32(t.ackNo);
    assert f[12..14] == Pack16(dataOffset * 0x1000 + t.flags % 0x200) && f[14..16] == Pack16(t.window);
    assert forall i :: 4 <= i < 8 ==> f[i] == Pack32(t.seqNo)[i - 4];
    assert forall i :: 8 <= i < 12 ==> f[i] == Pack32(t.ackNo)[i - 8];
    assert f[12] == f[12..14][0] && f[13] == f[12..14][1] && f[14] == f[14..16][0] && f[15] == f[14..16][1];
    assert f[0] == f[0..2][0] && f[1] == f[0..2][1] && f[2] == f[2..4][0] && f[3] == f[2..4][1];
  }

  /** `ParseTcp` on a segment given by its four pieces. */
  lemma ParseTcpPieces(front: bytes, checksum: u16, urgPtr: u16, options: bytes, payload: bytes)
    requires |front| == 16 && Unpack16(front, 12) / 0x1000 * 4 == 20 + |options|
    ensures ParseTcp(front + Pack16(checksum) + (Pack16(urgPtr) + options + payload))
         == Ok(Tcp(Unpack16(front, 0), Unpack16(front, 2), Unpack32(front, 4), Unpack32(front, 8),
                   Unpack16(front, 12) / 0x1000, Unpack16(front, 12) % 0x200, Unpack16(front, 14),
                   checksum, urgPtr, options, payload))
  {
    var s := front + Pack16(checksum) + (Pack16(urgPtr) + options + payload);
    assert forall i :: 0 <= i < 16 ==> s[i] == front[i];
    assert s[16..18] == Pack16(checksum) && s[18..20] == Pack16(urgPtr);
    assert s[16] == s[16..18][0] && s[17] == s[16..18][1] && s[18] == s[18..20][0] && s[19] == s[18..20][1];
    assert s[20..20 + |options|] == options && s[20 + |options|..] == payload;
  }

  lemma TcpBytesAre(t: Tcp, src: Ip4, dst: Ip4) returns (checksum: u16)
    requires TcpToBytes(t, src, dst).Some?
    ensures TcpToBytes(t, src, dst).value
         == TcpFront(t, (20 + |PadOptions(t.options)|) / 4) + Pack16(checksum) + TcpBack(t)
  {
    var h := 20 + |PadOptions(t.options)|;
    checksum := InternetChecksum(PseudoHeader(src, dst, IPPROTO_TCP, h + |t.payload|)
                                 + (TcpFront(t, h / 4) + [0, 0] + TcpBack(t)));
  }

  lemma TcpRoundTrip(t: Tcp, src: Ip4, dst: Ip4)
    requires TcpToBytes(t, src, dst).Some?
    ensures var r := ParseTcp(TcpToBytes(t, src, dst).value);
            r.Ok? && r.value == t.(dataOffset := (20 + |PadOptions(t.options)|) / 4,
                                   flags := t.flags % 0x200, checksum := r.value.checksum,
                                   options := PadOptions(t.options))
  {
    var dataOffset := (20 + |PadOptions(t.options)|) / 4;
    var checksum := TcpBytesAre(t, src, dst);
    TcpFrontReads(t, dataOffset);
    ParseTcpPieces(TcpFront(t, dataOffset), checksum, t.urgPtr, PadOptions(t.options), t.payload);
  }

  // ---- UDP ----

  datatype Udp = Udp(srcPort: u16, dstPort: u16, length: u16, checksum: u16, payload: bytes)

  function ParseUdp(s: bytes): Result<Udp> {
    if |s| < 8 then Err(ValueError)
    else Ok(Udp(Unpack16(s, 0), Unpack16(s, 2), Unpack16(s, 4), Unpack16(s, 6),
                Slice(s, 8, Unpack16(s, 4))))
  }

  function UdpFront(u: Udp, length: u16): (b: bytes)
    ensures |b| == 6
  {
    Pack16(u.srcPort) + Pack16(u.dstPort) + Pack16(length)
  }

  function UdpToBytes(u: Udp, src: Ip4, dst: Ip4): Option<bytes> {
    var length := 8 + |u.payload|;
    if length > 0xffff then None
    else
      var front := UdpFront(u, length);
      var c := InternetChecksum(PseudoHeader(src, dst, IPPROTO_UDP, length) + (front + [0, 0] + u.payload));
      Some(front + Pack16(if c == 0 then 0xffff else c) + u.payload)
  }

  /** The checksum field is never the reserved 0 and always verifies under the pseudo-header
      of RFC 768. */
  lemma {:induction false} UdpDatagramVerifies(u: Udp, src: Ip4, dst: Ip4)
    requires UdpToBytes(u, src, dst).Some?
    ensures var b := UdpToBytes(u, src, dst).value;
            |b| == 8 + |u.payload| <= 0xffff && Unpack16(b, 6) != 0
            && Verifies(src + dst + [0, 17, |b| / 256, |b| % 256] + b)
  {
    var length := 8 + |u.payload|;
    var front := UdpFront(u, length);
    var c := InternetChecksum(PseudoHeader(src, dst, IPPROTO_UDP, length) + (front + [0, 0] + u.payload));
    PseudoHeaderIs(src, dst, IPPROTO_UDP, length);
    ChecksumUnderPseudoHeader(PseudoHeader(src, dst, IPPROTO_UDP, length), front, u.payload,
                              if c == 0 then 0xffff else c);
    UnpackWithin(front, Pack16(if c == 0 then 0xffff else c), u.payload);
  }

  lemma UdpRoundTrip(u: Udp, src: Ip4, dst: Ip4, padding: bytes)
    requires UdpToBytes(u, src, dst).Some?
    ensures var r := ParseUdp(UdpToBytes(u, src, dst).value + padding);
            r.Ok? && r.value == u.(length := 8 + |u.payload|, checksum := r.value.checksum)
  {
    var b := UdpToBytes(u, src, dst).value + padding;
    var front := UdpFront(u, 8 + |u.payload|);
    assert forall i :: 0 <= i < 6 ==> b[i] == front[i];
    assert b[8..8 + |u.payload|] == u.payload;
  }

  // ---- ICMP ----

  datatype Icmp = Icmp(kind: byte, code: byte, checksum: u16, rest: Ip4, payload: bytes)

  function ParseIcmp(s: bytes): Result<Icmp> {
    if |s| < 8 then Err(ValueError)
    else Ok(Icmp(s[0], s[1], Unpack16(s, 2), s[4..8], s[8..]))
  }

  function IcmpToBytes(m: Icmp): bytes {
    var c := InternetChecksum([m.kind, m.code] + [0, 0] + (m.rest + m.payload));
    [m.kind, m.code] + Pack16(c) + (m.rest + m.payload)
  }

  lemma {:induction false} IcmpRoundTripVerifies(m: Icmp)
    ensures var b := IcmpToBytes(m);
            Verifies(b) && ParseIcmp(b).Ok? && ParseIcmp(b).value == m.(checksum := ParseIcmp(b).value.checksum)
  {
    var b := IcmpToBytes(m);
    FilledChecksumVerifies([m.kind, m.code], m.rest + m.payload,
                           InternetChecksum([m.kind, m.code] + [0, 0] + (m.rest + m.payload)));
    assert b[4..8] == m.rest && b[8..] == m.payload;
  }

  // ---- Whole frames ----

  function MakeFrameIPv4(dstMac: Mac, srcMac: Mac, src: Ip4, dst: Ip4, protocol: byte, l4: bytes,
                         ttl: byte := 64, ident: u16 := 0): Option<bytes>
  {
    var ip := IPv4(4, 5, 0, 0, 0, ident, 2, 0, ttl, protocol, 0, src, dst, l4);
    match IPv4ToBytes(ip)
    case None => None
    case Some(b) => Some(EthernetToBytes(Ethernet(dstMac, srcMac, ETHERTYPE_IPV4, b)))
  }

  /** A frame exists exactly when the packet fits IPv4's 16-bit length; parsed back, with
      any padding behind it, it yields the addresses, the protocol and the unpadded
      payload, and its header checksum verifies. */
  lemma FrameRoundTrip(dstMac: Mac, srcMac: Mac, src: Ip4, dst: Ip4, protocol: byte, l4: bytes,
                       ttl: byte, ident: u16, padding: bytes)
    ensures var f := MakeFrameIPv4(dstMac, srcMac, src, dst, protocol, l4, ttl, ident);
            (f.Some? <==> |l4| <= 0xffff - 20)
            && (f.Some? ==>
                  var e := ParseEthernet(f.value + padding);
                  && e.Ok? && e.value.dst == dstMac && e.value.src == srcMac && e.value.ethertype == 0x0800
                  && var p := ParseIPv4(e.value.payload);
                  && p.Ok? && p.value.src == src && p.value.dst == dst && p.value.protocol == protocol
                  && p.value.ttl == ttl && p.value.ident == ident && p.value.payload == l4
                  && p.value.version == 4 && p.value.flags == 2 && p.value.fragOffset == 0
                  && Verifies(e.value.payload[..20]))
  {
    var ip := IPv4(4, 5, 0, 0, 0, ident, 2, 0, ttl, protocol, 0, src, dst, l4);
    if IPv4ToBytes(ip).Some? {
      var b := IPv4ToBytes(ip).value;
      IPv4RoundTrip(ip, padding);
      IPv4HeaderVerifies(ip);
      assert (b + padding)[..20] == b[..20];
      var e := Ethernet(dstMac, srcMac, ETHERTYPE_IPV4, b + padding);
      EthernetRoundTrip(e);
      assert EthernetToBytes(e.(payload := b)) + padding == EthernetToBytes(e);
    }
  }

  /** The full path of an emitted TCP segment: print, wrap, pad, unwrap, parse. */
  lemma TcpFrameRoundTrip(dstMac: Mac, srcMac: Mac, src: Ip4, dst: Ip4, t: Tcp, padding: bytes)
    requires TcpToBytes(t, src, dst).Some?
    requires |TcpToBytes(t, src, dst).value| <= 0xffff - 20
    ensures var f := MakeFrameIPv4(dstMac, srcMac, src, dst, IPPROTO_TCP, TcpToBytes(t, src, dst).value);
            f.Some?
            && var e := ParseEthernet(f.value + padding);
            e.Ok? && e.value.ethertype == 0x0800
            && var p := ParseIPv4(e.value.payload);
            p.Ok? && p.value.protocol == 6 && p.value.src == src && p.value.dst == dst
            && var n := |p.value.payload|;
            n <= 0xffff && Verifies(src + dst + [0, 6, n / 256, n % 256] + p.value.payload)
            && var r := ParseTcp(p.value.payload);
            r.Ok? && r.value == t.(dataOffset := (20 + |PadOptions(t.options)|) / 4,
                                   flags := t.flags % 0x200, checksum := r.value.checksum,
                                   options := PadOptions(t.options))
  {
    FrameRoundTrip(dstMac, srcMac, src, dst, IPPROTO_TCP, TcpToBytes(t, src, dst).value, 64, 0, padding);
    TcpRoundTrip(t, src, dst);
    TcpSegmentVerifies(t, src, dst);
  }

  /** Whoever unwraps the frame finds a segment from `src` to `dst` with the ports, numbers,
      control bits and payload of `t`. */
  predicate UnwrapsTo(frame: bytes, src: Ip4, dst: Ip4, t: Tcp) {
    && ParseEthernet(frame).Ok? && ParseEthernet(frame).value.ethertype == 0x0800
    && var p := ParseIPv4(ParseEthernet(frame).value.payload);
    && p.Ok? && p.value.protocol == 6 && p.value.src == src && p.value.dst == dst
    && var s := ParseTcp(p.value.payload);
    && s.Ok? && s.value.srcPort == t.srcPort && s.value.dstPort == t.dstPort
    && s.value.seqNo == t.seqNo && s.value.ackNo == t.ackNo && s.value.flags == t.flags % 0x200
    && s.value.window == t.window && s.value.payload == t.payload
  }

  lemma TcpUnwraps(dstMac: Mac, srcMac: Mac, src: Ip4, dst: Ip4, t: Tcp, padding: bytes)
    requires TcpToBytes(t, src, dst).Some?
    requires |TcpToBytes(t, src, dst).value| <= 0xffff - 20
    ensures var f := MakeFrameIPv4(dstMac, srcMac, src, dst, IPPROTO_TCP, TcpToBytes(t, src, dst).value);
            f.Some? && UnwrapsTo(f.value + padding, src, dst, t)
  {
    TcpFrameRoundTrip(dstMac, srcMac, src, dst, t, padding);
  }

  /** The full path of an emitted UDP datagram. */
  lemma UdpFrameRoundTrip(dstMac: Mac, srcMac: Mac, src: Ip4, dst: Ip4, u: Udp, padding: bytes)
    requires 8 + |u.payload| <= 0xffff - 20
    ensures UdpToBytes(u, src, dst).Some?
    ensures var f := MakeFrameIPv4(dstMac, srcMac, src, dst, IPPROTO_UDP, UdpToBytes(u, src, dst).value);
            f.Some?
            && var e := ParseEthernet(f.value + padding);
            e.Ok? && e.value.ethertype == 0x0800
            && var p := ParseIPv4(e.value.payload);
            p.Ok? && p.value.protocol == 17 && p.value.src == src && p.value.dst == dst
            && var n := |p.value.payload|;
            n <= 0xffff && Verifies(src + dst + [0, 17, n / 256, n % 256] + p.value.payload)
            && var r := ParseUdp(p.value.payload);
            r.Ok? && r.value == u.(length := 8 + |u.payload|, checksum := r.value.checksum)
  {
    UdpDatagramVerifies(u, src, dst);
    FrameRoundTrip(dstMac, srcMac, src, dst, IPPROTO_UDP, UdpToBytes(u, src, dst).value, 64, 0, padding);
    UdpRoundTrip(u, src, dst, []);
    assert UdpToBytes(u, src, dst).value + [] == UdpToBytes(u, src, dst).value;
  }
}
