/** The headers as their standards draw them, byte by byte, and the proof that the parsers and
    printers follow them. Nothing here uses the codecs' own packing. */
module Wire {
  import opened Bytes
  import opened Packets
  import D = Dhcp
  import N = DnsMessage
  import DnsName

  /** The number two bytes stand for, the high one first. */
  function Num16(b: bytes, i: nat): int
    requires i + 2 <= |b|
  {
    b[i] as int * 256 + b[i + 1] as int
  }

  /** ... and four. */
  function Num32(b: bytes, i: nat): int
    requires i + 4 <= |b|
  {
    Num16(b, i) * 65536 + Num16(b, i + 2)
  }

  lemma NumsAgree(b: bytes)
    ensures forall i :: 0 <= i <= |b| - 2 ==> Unpack16(b, i) == Num16(b, i)
    ensures forall i :: 0 <= i <= |b| - 4 ==> Unpack32(b, i) == Num32(b, i)
  {
  }

  // ---- Ethernet ----

  predicate EthernetLaidOut(b: bytes, e: Ethernet) {
    |b| >= 14 && b[0..6] == e.dst && b[6..12] == e.src && Num16(b, 12) == e.ethertype && b[14..] == e.payload
  }

  lemma EthernetParsedIff(b: bytes, e: Ethernet)
    ensures ParseEthernet(b) == Ok(e) <==> EthernetLaidOut(b, e)
    ensures ParseEthernet(b) == Err(ValueError) <==> |b| < 14
  {
    NumsAgree(b);
  }

  lemma EthernetPrinted(e: Ethernet)
    ensures EthernetLaidOut(EthernetToBytes(e), e)
  {
    EthernetRoundTrip(e);
    EthernetParsedIff(EthernetToBytes(e), e);
  }

  // ---- IPv4 (RFC 791 section 3.1) ----

  predicate IPv4LaidOut(b: bytes, p: IPv4) {
    && |b| >= 20 && p.ihl >= 5
    && b[0] == 16 * p.version + p.ihl && b[1] == 4 * p.dscp + p.ecn && Num16(b, 2) == p.totalLength
    && Num16(b, 4) == p.ident && Num16(b, 6) == 0x2000 * p.flags + p.fragOffset
    && b[8] == p.ttl && b[9] == p.protocol && Num16(b, 10) == p.checksum
    && b[12..16] == p.src && b[16..20] == p.dst
    && var end := if p.totalLength <= |b| then p.totalLength else |b|;
       p.payload == if 4 * p.ihl <= end then b[4 * p.ihl..end] else []
  }

  lemma IPv4Numbers(b: bytes)
    requires |b| >= 20
    ensures Unpack16(b, 2) == Num16(b, 2) && Unpack16(b, 4) == Num16(b, 4) && Unpack16(b, 10) == Num16(b, 10)
    ensures 0x2000 * (Unpack16(b, 6) / 0x2000) + Unpack16(b, 6) % 0x2000 == Num16(b, 6)
    ensures 16 * (b[0] as int / 16) + b[0] as int % 16 == b[0] as int
    ensures 4 * (b[1] as int / 4) + b[1] as int % 4 == b[1] as int
  {
  }

  lemma IPv4ParsedIff(b: bytes, p: IPv4)
    ensures ParseIPv4(b) == Ok(p) <==> IPv4LaidOut(b, p)
    ensures ParseIPv4(b) == Err(ValueError) <==> |b| < 20 || b[0] % 16 < 5
  {
    if |b| >= 20 { IPv4Numbers(b); }
  }

  /** A printed packet: version 4 without options, its own length. */
  lemma IPv4Printed(p: IPv4)
    requires IPv4ToBytes(p).Some?
    ensures var b := IPv4ToBytes(p).value;
            && |b| == 20 + |p.payload| <= 0xffff
            && IPv4LaidOut(b, p.(version := 4, ihl := 5, totalLength := |b|, checksum := Num16(b, 10)))
  {
    var b := IPv4ToBytes(p).value;
    IPv4HeaderVerifies(p);
    IPv4RoundTrip(p, []);
    assert b + [] == b;
    IPv4ParsedIff(b, ParseIPv4(b).value);
  }

  // ---- TCP (RFC 793 section 3.1) ----

  predicate TcpLaidOut(b: bytes, t: Tcp) {
    && |b| >= 20 && 20 <= 4 * t.dataOffset <= |b|
    && Num16(b, 0) == t.srcPort && Num16(b, 2) == t.dstPort && Num32(b, 4) == t.seqNo && Num32(b, 8) == t.ackNo
    && b[12] / 16 == t.dataOffset && b[12] as int % 2 * 256 + b[13] as int == t.flags
    && Num16(b, 14) == t.window && Num16(b, 16) == t.checksum && Num16(b, 18) == t.urgPtr
    && b[20..4 * t.dataOffset] == t.options && b[4 * t.dataOffset..] == t.payload
  }

  lemma OffsetAndFlags(b: bytes)
    requires |b| >= 20
    ensures Unpack16(b, 12) / 0x1000 == b[12] / 16
    ensures Unpack16(b, 12) % 0x200 == b[12] as int % 2 * 256 + b[13] as int
  {
  }

  lemma TcpParsedIff(b: bytes, t: Tcp)
    ensures ParseTcp(b) == Ok(t) <==> TcpLaidOut(b, t)
    ensures ParseTcp(b) == Err(ValueError) <==> |b| < 20 || b[12] / 16 < 5 || 4 * (b[12] / 16) > |b|
  {
    if |b| >= 20 {
      OffsetAndFlags(b);
      TcpNumbers(b);
    }
  }

  lemma TcpNumbers(b: bytes)
    requires |b| >= 20
    ensures Unpack16(b, 0) == Num16(b, 0) && Unpack16(b, 2) == Num16(b, 2)
    ensures Unpack32(b, 4) == Num32(b, 4) && Unpack32(b, 8) == Num32(b, 8)
    ensures Unpack16(b, 14) == Num16(b, 14) && Unpack16(b, 16) == Num16(b, 16) && Unpack16(b, 18) == Num16(b, 18)
  {
  }

  /** The control bits of section 3.1. */
  lemma ControlBits(t: Tcp)
    ensures HasFin(t) <==> t.flags % 2 == 1
    ensures HasSyn(t) <==> t.flags / 2 % 2 == 1
    ensures HasRst(t) <==> t.flags / 4 % 2 == 1
    ensures HasAck(t) <==> t.flags / 16 % 2 == 1
  {
  }

  lemma OffsetByte(off: u4, flags: u16)
    ensures Pack16(off * 0x1000 + flags % 0x200)[0] / 2 % 8 == 0
  {
    var high := flags % 0x200 / 0x100;
    assert (off * 0x1000 + flags % 0x200) / 0x100 == off * 16 + high;
    assert (off * 16 + high) / 2 == off * 8;
  }

  lemma ReservedBitsZero(t: Tcp, off: u4, rest: bytes)
    ensures (TcpFront(t, off) + rest)[12] / 2 % 8 == 0
  {
    OffsetByte(off, t.flags);
    var word := Pack16(off * 0x1000 + t.flags % 0x200);
    assert TcpFront(t, off)[12] == word[0];
  }

  /** A printed segment: the reserved bits are zero, the options zero-filled. */
  lemma TcpPrinted(t: Tcp, src: Ip4, dst: Ip4)
    requires TcpToBytes(t, src, dst).Some?
    ensures var b := TcpToBytes(t, src, dst).value;
            var off := (20 + |PadOptions(t.options)|) / 4;
            && |b| >= 20 && b[12] / 2 % 8 == 0 && off < 16
            && TcpLaidOut(b, t.(dataOffset := off, flags := t.flags % 0x200, checksum := Num16(b, 16),
                                options := PadOptions(t.options)))
  {
    var b := TcpToBytes(t, src, dst).value;
    var off := (20 + |PadOptions(t.options)|) / 4;
    TcpRoundTrip(t, src, dst);
    TcpParsedIff(b, ParseTcp(b).value);
    var c := TcpBytesAre(t, src, dst);
    Assoc(TcpFront(t, off), Pack16(c), TcpBack(t));
    ReservedBitsZero(t, off, Pack16(c) + TcpBack(t));
  }

  // ---- UDP (RFC 768) ----

  predicate UdpLaidOut(b: bytes, u: Udp) {
    && |b| >= 8 && Num16(b, 0) == u.srcPort && Num16(b, 2) == u.dstPort && Num16(b, 4) == u.length
    && Num16(b, 6) == u.checksum
    && var end := if u.length <= |b| then u.length else |b|;
       u.payload == if 8 <= end then b[8..end] else []
  }

  lemma UdpParsedIff(b: bytes, u: Udp)
    ensures ParseUdp(b) == Ok(u) <==> UdpLaidOut(b, u)
    ensures ParseUdp(b) == Err(ValueError) <==> |b| < 8
  {
    NumsAgree(b);
  }

  lemma UdpPrinted(u: Udp, src: Ip4, dst: Ip4)
    requires UdpToBytes(u, src, dst).Some?
    ensures var b := UdpToBytes(u, src, dst).value;
            && |b| == 8 + |u.payload| <= 0xffff
            && UdpLaidOut(b, u.(length := |b|, checksum := Num16(b, 6)))
  {
    var b := UdpToBytes(u, src, dst).value;
    UdpDatagramVerifies(u, src, dst);
    UdpRoundTrip(u, src, dst, []);
    assert b + [] == b;
    UdpParsedIff(b, ParseUdp(b).value);
  }

  // ---- ICMP (RFC 792) ----

  predicate IcmpLaidOut(b: bytes, m: Icmp) {
    && |b| >= 8 && b[0] == m.kind && b[1] == m.code && Num16(b, 2) == m.checksum
    && b[4..8] == m.rest && b[8..] == m.payload
  }

  lemma IcmpParsedIff(b: bytes, m: Icmp)
    ensures ParseIcmp(b) == Ok(m) <==> IcmpLaidOut(b, m)
    ensures ParseIcmp(b) == Err(ValueError) <==> |b| < 8
  {
    NumsAgree(b);
  }

  lemma IcmpPrinted(m: Icmp)
    ensures var b := IcmpToBytes(m);
            |b| >= 8 && IcmpLaidOut(b, m.(checksum := Num16(b, 2)))
  {
    IcmpRoundTripVerifies(m);
    IcmpParsedIff(IcmpToBytes(m), ParseIcmp(IcmpToBytes(m)).value);
  }

  // ---- DHCP (RFC 2131 section 2) ----

  /** The fixed part; `options` are entered from byte 240 on. */
  predicate DhcpLaidOut(b: bytes, m: D.Message) {
    && |b| >= 240 && b[236..240] == [0x63, 0x82, 0x53, 0x63]
    && b[0] == m.op && Num32(b, 4) == m.xid && Num16(b, 10) == m.flags
    && b[12..16] == m.ciaddr && b[16..20] == m.yiaddr && b[20..24] == m.siaddr && b[24..28] == m.giaddr
    && b[28..44] == m.chaddr
    && m.options == D.Enter(D.Walk(b[240..]), [])
  }

  lemma DhcpParsedIff(b: bytes, m: D.Message)
    ensures D.Parse(b) == Ok(m) <==> DhcpLaidOut(b, m)
    ensures D.Parse(b) == Err(ValueError) <==> |b| < 240 || b[236..240] != [0x63, 0x82, 0x53, 0x63]
  {
    NumsAgree(b);
    if |b| >= 240 { assert D.Drop(b, 240) == b[240..]; }
  }

  lemma DhcpFixedBytes(m: D.Message)
    ensures var b := D.Fixed(m);
            b[1] == 1 && b[2] == 6 && b[3] == 0 && Num16(b, 8) == 0 && forall i :: 44 <= i < 236 ==> b[i] == 0
  {
    var b := D.Fixed(m);
    assert b[44..236] == Zeros(192);
    assert forall i :: 44 <= i < 236 ==> b[i] == b[44..236][i - 44];
    assert b[8..10] == [0, 0];
    assert b[8] == b[8..10][0] && b[9] == b[8..10][1];
  }

  /** A printed message: hardware type 1, address length 6, no hops or seconds, and the
      server name and file fields empty. */
  lemma DhcpPrinted(m: D.Message)
    requires D.Distinct(m.options) && forall i :: 0 <= i < |m.options| ==> D.Codable(m.options[i])
    ensures D.ToBytes(m).Some? && DhcpLaidOut(D.ToBytes(m).value, m)
    ensures var b := D.ToBytes(m).value;
            b[1] == 1 && b[2] == 6 && b[3] == 0 && Num16(b, 8) == 0 && forall i :: 44 <= i < 236 ==> b[i] == 0
  {
    D.MessageRoundTrip(m);
    var b := D.ToBytes(m).value;
    DhcpParsedIff(b, m);
    DhcpFixedBytes(m);
    assert forall i :: 0 <= i < 240 ==> b[i] == D.Fixed(m)[i];
  }

  /** Every option area is a row of pads and whole options followed by one of these. */
  datatype Tail =
    | Nothing
    | Ended(beyond: bytes)
    | CodeOnly(code: byte)
    | CutShort(code: byte, length: byte, value: bytes)

  predicate ProperTail(t: Tail) {
    match t
    case Nothing => true
    case Ended(_) => true
    case CodeOnly(code) => 1 <= code <= 254
    case CutShort(code, length, value) => 1 <= code <= 254 && |value| < length
  }

  function TailBytes(t: Tail): bytes {
    match t
    case Nothing => []
    case Ended(beyond) => [255] + beyond
    case CodeOnly(code) => [code]
    case CutShort(code, length, value) => [code, length] + value
  }

  lemma TailWalk(t: Tail)
    requires ProperTail(t)
    ensures D.Walk(TailBytes(t)) == if t.CutShort? then [D.DhcpOption(t.code, t.value)] else []
  {
    if t.CutShort? {
      var o := TailBytes(t);
      assert Slice(o, 2, 2 + o[1] as int) == t.value;
      assert D.Drop(o, 2 + t.length as int) == [];
    }
  }

  /** Whatever the bytes, the options read are the whole ones in order, and one cut short by
      the end of the packet with what is there of its value. */
  lemma {:induction false} OptionsRead(ws: seq<D.Wire>, t: Tail)
    requires ProperTail(t)
    ensures D.Walk(D.WireBytes(ws) + TailBytes(t))
         == D.Unpadded(ws) + (if t.CutShort? then [D.DhcpOption(t.code, t.value)] else [])
  {
    var last := if t.CutShort? then [D.DhcpOption(t.code, t.value)] else [];
    if |ws| == 0 {
      assert D.WireBytes(ws) + TailBytes(t) == TailBytes(t);
      TailWalk(t);
      assert D.Unpadded(ws) + last == last;
    } else {
      Assoc(D.WireOne(ws[0]), D.WireBytes(ws[1..]), TailBytes(t));
      D.WalkOne(ws[0], D.WireBytes(ws[1..]) + TailBytes(t));
      OptionsRead(ws[1..], t);
      Assoc(if ws[0].Coded? then [ws[0].option] else [], D.Unpadded(ws[1..]), last);
    }
  }

  lemma {:induction false} EveryOptionArea(o: bytes) returns (ws: seq<D.Wire>, t: Tail)
    ensures ProperTail(t) && o == D.WireBytes(ws) + TailBytes(t)
    decreases |o|
  {
    ws, t := [], Nothing;
    if |o| == 0 {
    } else if o[0] == 255 {
      t := Ended(o[1..]);
    } else if o[0] != 0 && |o| == 1 {
      t := CodeOnly(o[0]);
    } else if o[0] != 0 && 2 + o[1] as int > |o| {
      t := CutShort(o[0], o[1], o[2..]);
    } else {
      var w: D.Wire := if o[0] == 0 then D.PadByte else D.Coded(D.DhcpOption(o[0], o[2..2 + o[1] as int]));
      var n := |D.WireOne(w)|;
      ws, t := EveryOptionArea(o[n..]);
      assert o == D.WireOne(w) + o[n..];
      Assoc(D.WireOne(w), D.WireBytes(ws), TailBytes(t));
      assert ([w] + ws)[1..] == ws;
      ws := [w] + ws;
    }
  }

  // ---- DNS (RFC 1035 section 4.1) ----

  /** A question: behind its name the type and the class. */
  lemma QuestionReadIff(p: bytes, off: nat, q: N.Question, next: nat)
    ensures N.ReadQuestion(p, off) == N.Got(q, next) <==>
              && next >= 4 && next <= |p|
              && DnsName.Terminates(p, off) && DnsName.ReadName(p, off) == Ok((q.name, next - 4))
              && Num16(p, next - 4) == q.qtype && Num16(p, next - 2) == q.qclass
  {
    NumsAgree(p);
  }

  /** An answer: behind its name type, class, time to live, length and data, of which the
      packet may end first. */
  predicate AnswerLaidOut(p: bytes, o: nat, a: N.Answer, next: nat) {
    && o + 10 <= |p| && Num16(p, o) == a.atype && Num16(p, o + 2) == a.aclass && Num32(p, o + 4) == a.ttl
    && next == o + 10 + Num16(p, o + 8)
    && a.rdata == if next <= |p| then p[o + 10..next] else p[o + 10..]
  }

  lemma AnswerReadIff(p: bytes, off: nat, a: N.Answer, next: nat)
    ensures N.ReadAnswer(p, off) == N.Got(a, next) <==>
              DnsName.Terminates(p, off) && DnsName.ReadName(p, off).Ok?
              && DnsName.ReadName(p, off).value.0 == a.name
              && AnswerLaidOut(p, DnsName.ReadName(p, off).value.1, a, next)
  {
    if DnsName.Terminates(p, off) && DnsName.ReadName(p, off).Ok? {
      AnswerFields(p, DnsName.ReadName(p, off).value.1);
    }
  }

  lemma AnswerFields(p: bytes, o: nat)
    ensures o + 10 <= |p| ==>
              var end := o + 10 + Num16(p, o + 8);
              && Unpack16(p, o) == Num16(p, o) && Unpack16(p, o + 2) == Num16(p, o + 2)
              && Unpack32(p, o + 4) == Num32(p, o + 4) && Unpack16(p, o + 8) == Num16(p, o + 8)
              && Slice(p, o + 10, end) == if end <= |p| then p[o + 10..end] else p[o + 10..]
  {
  }

  /** The header of a printed message: identifier, flags, the two counts, and no authority
      or additional records. */
  lemma DnsHeaderPrinted(m: N.Message)
    requires N.ToBytes(m).Some?
    ensures var b := N.ToBytes(m).value;
            && |b| >= 12 && Num16(b, 0) == m.txid && Num16(b, 2) == m.flags
            && Num16(b, 4) == |m.qd| && Num16(b, 6) == |m.an| && Num32(b, 8) == 0
  {
    N.HeaderReads(m);
    NumsAgree(N.ToBytes(m).value);
  }

  /** ... and of a parsed one. */
  lemma DnsHeaderParsed(p: bytes)
    ensures N.Parse(p).Parsed? ==>
              && |p| >= 12 && Num16(p, 0) == N.Parse(p).message.txid && Num16(p, 2) == N.Parse(p).message.flags
              && Num16(p, 4) == |N.Parse(p).message.qd| && Num16(p, 6) == |N.Parse(p).message.an|
    ensures |p| < 12 ==> N.Parse(p) == N.ParseRaised(ValueError)
  {
    if |p| >= 12 {
      NumsAgree(p);
      AllRead(N.Questions(p), 12, Unpack16(p, 4));
      var qd := N.ReadAll(N.Questions(p), 12, Unpack16(p, 4));
      if qd.Got? { AllRead(N.Answers(p), qd.next, Unpack16(p, 6)); }
    }
  }

  lemma {:induction false} AllRead<T>(one: nat -> N.Reading<T>, off: nat, n: nat)
    ensures N.ReadAll(one, off, n).Got? ==> |N.ReadAll(one, off, n).item| == n
    decreases n
  {
    if n > 0 && one(off).Got? { AllRead(one, one(off).next, n - 1); }
  }

  /** A question is refused where its name is, or where the packet ends before its type and
      class; an answer likewise. */
  lemma ItemRaisesIff(p: bytes, off: nat, e: Error)
    ensures N.ReadQuestion(p, off) == N.Raised(e) <==> Refused(p, off, 4, e)
    ensures N.ReadAnswer(p, off) == N.Raised(e) <==> Refused(p, off, 10, e)
  {
  }

  predicate Refused(p: bytes, off: nat, behind: nat, e: Error) {
    && DnsName.Terminates(p, off)
    && match DnsName.ReadName(p, off)
       case Err(error) => e == error
       case Ok((_, o)) => e == StructError && o + behind > |p|
  }

  /** One of `n` items is refused, those before it having been read. */
  ghost predicate Breaks<T>(one: nat -> N.Reading<T>, off: nat, n: nat, e: Error) {
    exists k :: 0 <= k < n && N.ReadAll(one, off, k).Got? && one(N.ReadAll(one, off, k).next) == N.Raised(e)
  }

  lemma {:induction false} OneItemMore<T>(one: nat -> N.Reading<T>, off: nat, k: nat)
    requires one(off).Got?
    ensures N.ReadAll(one, off, k + 1).Got? <==> N.ReadAll(one, one(off).next, k).Got?
    ensures N.ReadAll(one, off, k + 1).Got? ==> N.ReadAll(one, off, k + 1).next == N.ReadAll(one, one(off).next, k).next
  {
  }

  lemma {:induction false} AllRaisesIff<T>(one: nat -> N.Reading<T>, off: nat, n: nat, e: Error)
    ensures N.ReadAll(one, off, n) == N.Raised(e) <==> Breaks(one, off, n, e)
    decreases n
  {
    if n > 0 {
      assert N.ReadAll(one, off, 0) == N.Got([], off);
      if one(off).Got? {
        var o := one(off).next;
        AllRaisesIff(one, o, n - 1, e);
        if k :| 0 <= k < n - 1 && N.ReadAll(one, o, k).Got? && one(N.ReadAll(one, o, k).next) == N.Raised(e) {
          OneItemMore(one, off, k);
          assert N.ReadAll(one, off, k + 1).Got?;
        }
        if k :| 0 <= k < n && N.ReadAll(one, off, k).Got? && one(N.ReadAll(one, off, k).next) == N.Raised(e) {
          assert k > 0;
          OneItemMore(one, off, k - 1);
        }
      } else {
        if k :| 0 <= k < n && N.ReadAll(one, off, k).Got? && one(N.ReadAll(one, off, k).next) == N.Raised(e) {
          assert k == 0;
        }
      }
    }
  }

  /** Parsing raises exactly on a packet shorter than the header, or at the first item of as
      many as the header counts that is refused; and then what that item raised. */
  lemma ParseRaisesIff(p: bytes, e: Error)
    ensures N.Parse(p) == N.ParseRaised(e) <==>
              || (|p| < 12 && e == ValueError)
              || (|p| >= 12
                  && (Breaks(N.Questions(p), 12, Num16(p, 4), e)
                      || (var qd := N.ReadAll(N.Questions(p), 12, Num16(p, 4));
                          qd.Got? && Breaks(N.Answers(p), qd.next, Num16(p, 6), e))))
  {
    if |p| >= 12 {
      NumsAgree(p);
      AllRaisesIff(N.Questions(p), 12, Num16(p, 4), e);
      var qd := N.ReadAll(N.Questions(p), 12, Num16(p, 4));
      if qd.Got? { AllRaisesIff(N.Answers(p), qd.next, Num16(p, 6), e); }
    }
  }

  // ---- What can be printed at all ----

  /** Packets, segments and datagrams up to 65535 bytes, segments with up to 40 bytes of
      options. */
  lemma PrintableIff(p: IPv4, t: Tcp, u: Udp, src: Ip4, dst: Ip4)
    ensures IPv4ToBytes(p).Some? <==> |p.payload| <= 65515
    ensures TcpToBytes(t, src, dst).Some? <==>
              |t.options| <= 40 && 20 + (|t.options| + 3) / 4 * 4 + |t.payload| <= 65535
    ensures UdpToBytes(u, src, dst).Some? <==> |u.payload| <= 65527
  {
    assert |PadOptions(t.options)| == (|t.options| + 3) / 4 * 4;
  }

  lemma {:induction false} OptionsPrintableIff(d: seq<D.DhcpOption>)
    ensures D.OptionBytes(d).Some? <==> forall i :: 0 <= i < |d| ==> |d[i].value| <= 255
  {
    if |d| > 0 {
      OptionsPrintableIff(d[1..]);
      assert forall i :: 1 <= i < |d| ==> d[i] == d[1..][i - 1];
    }
  }

  /** Messages whose lengths and counts fit the fields for them. */
  lemma MessagesPrintableIff(m: D.Message, n: N.Message)
    ensures D.ToBytes(m).Some? <==> forall i :: 0 <= i < |m.options| ==> |m.options[i].value| <= 255
    ensures N.ToBytes(n).Some? <==>
              |n.qd| <= 65535 && |n.an| <= 65535 && forall i :: 0 <= i < |n.an| ==> |n.an[i].rdata| <= 65535
  {
    OptionsPrintableIff(m.options);
  }
}
