/** DHCP messages (RFC 2131) and their option list (RFC 2132 section 2). */
module Dhcp {
  import opened Bytes

  const DHCP_MAGIC: bytes := [0x63, 0x82, 0x53, 0x63]

  type HwAddr = b: bytes | |b| == 16 witness Zeros(16)

  datatype DhcpOption = DhcpOption(code: byte, value: bytes)

  /** A dictionary in insertion order: no two entries share a code. */
  type Dict = seq<DhcpOption>

  predicate Distinct(d: seq<DhcpOption>) {
    forall i, j :: 0 <= i < j < |d| ==> d[i].code != d[j].code
  }

  datatype Message = Message(op: byte, xid: u32, flags: u16, ciaddr: Ip4, yiaddr: Ip4, siaddr: Ip4,
                             giaddr: Ip4, chaddr: HwAddr, options: Dict)

  /** Python's `d[code] = value`: replaces in place, or adds at the end. */
  function Set(d: seq<DhcpOption>, code: byte, value: bytes): seq<DhcpOption> {
    if |d| == 0 then [DhcpOption(code, value)]
    else if d[0].code == code then [DhcpOption(code, value)] + d[1..]
    else [d[0]] + Set(d[1..], code, value)
  }

  predicate Has(d: seq<DhcpOption>, code: byte) {
    exists i :: 0 <= i < |d| && d[i].code == code
  }

  lemma HasHeadOrRest(d: seq<DhcpOption>, code: byte)
    requires |d| > 0
    ensures Has(d, code) <==> d[0].code == code || Has(d[1..], code)
  {
    if Has(d[1..], code) {
      var i :| 0 <= i < |d[1..]| && d[1..][i].code == code;
      assert d[i + 1].code == code;
    }
  }

  lemma {:induction false} SetPlaces(d: seq<DhcpOption>, code: byte, value: bytes)
    ensures var r := Set(d, code, value);
            && |r| == (if Has(d, code) then |d| else |d| + 1)
            && (forall i :: 0 <= i < |d| ==> r[i].code == d[i].code && (d[i].code != code ==> r[i] == d[i]))
  {
    if |d| > 0 && d[0].code != code {
      SetPlaces(d[1..], code, value);
      HasHeadOrRest(d, code);
      assert Set(d, code, value)[1..] == Set(d[1..], code, value);
    }
  }

  lemma {:induction false} SetEnters(d: seq<DhcpOption>, code: byte, value: bytes)
    ensures DhcpOption(code, value) in Set(d, code, value)
    ensures !Has(d, code) ==> Set(d, code, value) == d + [DhcpOption(code, value)]
  {
    if |d| > 0 && d[0].code != code {
      SetEnters(d[1..], code, value);
      HasHeadOrRest(d, code);
      assert DhcpOption(code, value) in Set(d, code, value)[1..];
    }
  }

  /** Setting touches one code only, keeps the order, and keeps codes distinct. */
  lemma SetMeaning(d: seq<DhcpOption>, code: byte, value: bytes)
    ensures var r := Set(d, code, value);
            && |r| == (if Has(d, code) then |d| else |d| + 1)
            && (forall i :: 0 <= i < |d| ==> r[i].code == d[i].code && (d[i].code != code ==> r[i] == d[i]))
            && (!Has(d, code) ==> r == d + [DhcpOption(code, value)])
            && DhcpOption(code, value) in r
            && (Distinct(d) ==> Distinct(r))
  {
    SetPlaces(d, code, value);
    SetEnters(d, code, value);
  }

  // ---- The option list ----

  datatype Item = End | Pad | Entry(option: DhcpOption, length: nat)

  function FirstItem(o: bytes): Item {
    if |o| == 0 || o[0] == 255 then End
    else if o[0] == 0 then Pad
    else if |o| == 1 then End
    else Entry(DhcpOption(o[0], Slice(o, 2, 2 + o[1] as int)), 2 + o[1] as int)
  }

  /** The options a reader meets, a value cut short by the end of the packet included. */
  function Walk(o: bytes): seq<DhcpOption>
    decreases |o|
  {
    match FirstItem(o)
    case End => []
    case Pad => Walk(Drop(o, 1))
    case Entry(option, length) => [option] + Walk(Drop(o, length))
  }

  /** What is left from position `i` on, nothing when the end has been passed. */
  function Drop(o: bytes, i: nat): bytes { Slice(o, i, |o|) }

  function Enter(met: seq<DhcpOption>, d: Dict): Dict
    decreases |met|
  {
    if |met| == 0 then d else Enter(met[1..], Set(d, met[0].code, met[0].value))
  }

  function OptionBytes(d: seq<DhcpOption>): Option<bytes> {
    if |d| == 0 then Some([255])
    else if |d[0].value| > 255 then None
    else match OptionBytes(d[1..])
      case None => None
      case Some(rest) => Some([d[0].code, |d[0].value|] + d[0].value + rest)
  }

  // ---- Messages ----

  function Parse(p: bytes): Result<Message> {
    if |p| < 240 then Err(ValueError)
    else if p[236..240] != DHCP_MAGIC then Err(ValueError)
    else Ok(Message(p[0], Unpack32(p, 4), Unpack16(p, 10), p[12..16], p[16..20], p[20..24], p[24..28],
                    p[28..44], Enter(Walk(Drop(p, 240)), [])))
  }

  function Fixed(m: Message): (b: bytes)
    ensures |b| == 240
  {
    [m.op, 1, 6, 0] + Pack32(m.xid) + [0, 0] + Pack16(m.flags)
    + m.ciaddr + m.yiaddr + m.siaddr + m.giaddr + m.chaddr + Zeros(64 + 128) + DHCP_MAGIC
  }

  function ToBytes(m: Message): Option<bytes> {
    match OptionBytes(m.options)
    case None => None
    case Some(o) => Some(Fixed(m) + o)
  }

  lemma SliceShift(p: bytes, i: nat, hi: nat)
    requires 2 <= hi && i + 2 <= |p|
    ensures Slice(Drop(p, i), 2, hi) == Slice(p, i + 2, i + hi)
  {
    assert Drop(p, i) == p[i..];
    SliceOfDrop(p, i, 2, if i + hi <= |p| then hi else |p| - i);
  }

  lemma DropAgain(p: bytes, i: nat, k: nat)
    ensures Drop(Drop(p, i), k) == Drop(p, i + k)
  {
  }

  /** The walk from position `i`, one item at a time. */
  lemma WalkFrom(p: bytes, i: nat)
    requires i < |p|
    ensures p[i] == 255 || (p[i] != 0 && i + 1 >= |p|) ==> Walk(Drop(p, i)) == []
    ensures p[i] == 0 ==> Walk(Drop(p, i)) == Walk(Drop(p, i + 1))
    ensures 0 < p[i] < 255 && i + 1 < |p| ==>
              var n := 2 + p[i + 1] as int;
              Walk(Drop(p, i)) == [DhcpOption(p[i], Slice(p, i + 2, i + n))] + Walk(Drop(p, i + n))
  {
    assert Drop(p, i) == p[i..];
    DropAgain(p, i, 1);
    if i + 1 < |p| {
      SliceShift(p, i, 2 + p[i + 1] as int);
      DropAgain(p, i, 2 + p[i + 1] as int);
    }
  }

  /** What the options from position `i` on make of those entered before. */
  function Remaining(p: bytes, i: nat, opts: Dict): Dict { Enter(Walk(Drop(p, i)), opts) }

  lemma OneOptionEntered(p: bytes, i: nat, opts: Dict)
    requires i + 1 < |p| && 0 < p[i] < 255
    ensures var n := 2 + p[i + 1] as int;
            Remaining(p, i, opts) == Remaining(p, i + n, Set(opts, p[i], Slice(p, i + 2, i + n)))
  {
    var n := 2 + p[i + 1] as int;
    var first, rest := DhcpOption(p[i], Slice(p, i + 2, i + n)), Walk(Drop(p, i + n));
    WalkFrom(p, i);
    assert ([first] + rest)[0] == first && ([first] + rest)[1..] == rest;
  }

  lemma OptionsEnd(p: bytes, i: nat, opts: Dict)
    requires i >= |p| || p[i] == 255 || (p[i] != 0 && i + 1 >= |p|)
    ensures Remaining(p, i, opts) == opts
  {
    if i < |p| { WalkFrom(p, i); }
  }

  /** The parser's loop over the options, from byte 240 on; on every input it terminates
      and reads only bytes that exist. */
  method ParseOptions(payload: bytes) returns (opts: Dict)
    ensures opts == Enter(Walk(Drop(payload, 240)), [])
  {
    opts := [];
    var i := 240;
    while i < |payload|
      invariant 240 <= i
      invariant Remaining(payload, i, opts) == Remaining(payload, 240, [])
    {
      var code := payload[i];
      if code == 0 {
        WalkFrom(payload, i);
        i := i + 1;
        continue;
      }
      if code == 255 { break; }
      if i + 1 >= |payload| { break; }
      var length := payload[i + 1] as int;
      var value := Slice(payload, i + 2, i + 2 + length);
      OneOptionEntered(payload, i, opts);
      opts := Set(opts, code, value);
      i := i + 2 + length;
    }
    OptionsEnd(payload, i, opts);
  }

  method ParseMessage(payload: bytes) returns (r: Result<Message>)
    ensures r == Parse(payload)
  {
    if |payload| < 240 { return Err(ValueError); }
    if payload[236..240] != DHCP_MAGIC { return Err(ValueError); }
    var opts := ParseOptions(payload);
    r := Ok(Message(payload[0], Unpack32(payload, 4), Unpack16(payload, 10), payload[12..16],
                    payload[16..20], payload[20..24], payload[24..28], payload[28..44], opts));
  }

  // ---- Round trip ----

  /** What may stand between options on the wire: options and pad bytes. */
  datatype AnyWire = PadByte | Coded(option: DhcpOption)

  predicate Codable(o: DhcpOption) { 1 <= o.code <= 254 && |o.value| <= 255 }

  type Wire = w: AnyWire | w.Coded? ==> Codable(w.option) witness PadByte

  function WireOne(w: Wire): bytes {
    match w
    case PadByte => [0]
    case Coded(option) => [option.code, |option.value|] + option.value
  }

  function WireBytes(ws: seq<Wire>): bytes {
    if |ws| == 0 then [] else WireOne(ws[0]) + WireBytes(ws[1..])
  }

  function Unpadded(ws: seq<Wire>): seq<DhcpOption> {
    if |ws| == 0 then []
    else (if ws[0].Coded? then [ws[0].option] else []) + Unpadded(ws[1..])
  }

  lemma WalkOne(w: Wire, rest: bytes)
    ensures Walk(WireOne(w) + rest) == (if w.Coded? then [w.option] else []) + Walk(rest)
  {
    var o := WireOne(w) + rest;
    assert Drop(o, |WireOne(w)|) == rest;
    if w.Coded? {
      assert o[2..2 + |w.option.value|] == w.option.value;
    }
  }

  /** Pad bytes anywhere between options change nothing, and nothing behind the end marker
      is read. */
  lemma {:induction false} WalkOfWire(ws: seq<Wire>, beyond: bytes)
    ensures Walk(WireBytes(ws) + ([255] + beyond)) == Unpadded(ws)
  {
    if |ws| == 0 {
      assert WireBytes(ws) + ([255] + beyond) == [255] + beyond;
    } else {
      Assoc(WireOne(ws[0]), WireBytes(ws[1..]), [255] + beyond);
      WalkOne(ws[0], WireBytes(ws[1..]) + ([255] + beyond));
      WalkOfWire(ws[1..], beyond);
    }
  }

  function AsWire(d: seq<DhcpOption>): seq<Wire>
    requires forall i :: 0 <= i < |d| ==> Codable(d[i])
  {
    seq(|d|, i requires 0 <= i < |d| => Coded(d[i]))
  }

  lemma {:induction false} OptionBytesAreWire(d: seq<DhcpOption>)
    requires forall i :: 0 <= i < |d| ==> Codable(d[i])
    ensures OptionBytes(d) == Some(WireBytes(AsWire(d)) + [255])
    ensures Unpadded(AsWire(d)) == d
  {
    if |d| > 0 {
      assert AsWire(d)[1..] == AsWire(d[1..]);
      OptionBytesAreWire(d[1..]);
      var w: Wire := Coded(d[0]);
      assert AsWire(d)[0] == w;
      Assoc(WireOne(w), WireBytes(AsWire(d[1..])), [255]);
    } else {
      assert WireBytes(AsWire(d)) + [255] == [255];
    }
  }

  /** Entering distinct options into a dictionary that has none of them appends them. */
  lemma {:induction false} EnterDistinct(d: Dict, met: seq<DhcpOption>)
    requires Distinct(d + met)
    ensures Enter(met, d) == d + met
    decreases |met|
  {
    if |met| > 0 {
      assert met[0] == (d + met)[|d|];
      assert forall i :: 0 <= i < |d| ==> d[i] == (d + met)[i];
      assert d + met == d + [met[0]] + met[1..];
      assert !Has(d, met[0].code);
      SetMeaning(d, met[0].code, met[0].value);
      assert DhcpOption(met[0].code, met[0].value) == met[0];
      EnterDistinct(d + [met[0]], met[1..]);
    } else {
      assert d + met == d;
    }
  }

  lemma FixedReads(m: Message, o: bytes)
    ensures var p := Fixed(m) + o;
            && p[0] == m.op && Unpack32(p, 4) == m.xid && Unpack16(p, 10) == m.flags
            && p[12..16] == m.ciaddr && p[16..20] == m.yiaddr && p[20..24] == m.siaddr && p[24..28] == m.giaddr
            && p[28..44] == m.chaddr && p[236..240] == DHCP_MAGIC && Drop(p, 240) == o
  {
    var p := Fixed(m) + o;
    assert p[4..8] == Pack32(m.xid) && p[10..12] == Pack16(m.flags);
    assert forall i :: 4 <= i < 8 ==> p[i] == p[4..8][i - 4];
    assert p[10] == p[10..12][0] && p[11] == p[10..12][1];
    assert p[236..240] == DHCP_MAGIC;
  }

  /** Whatever was on the wire, a parsed option list has each code once. */
  lemma {:induction false} ParsedDistinct(d: Dict, met: seq<DhcpOption>)
    requires Distinct(d)
    ensures Distinct(Enter(met, d))
    decreases |met|
  {
    if |met| > 0 {
      SetMeaning(d, met[0].code, met[0].value);
      ParsedDistinct(Set(d, met[0].code, met[0].value), met[1..]);
    }
  }

  /** For every message whose options have distinct codes in 1..254 and values of at most 255 bytes,
      parsing inverts printing, the order of the options included. */
  lemma MessageRoundTrip(m: Message)
    requires Distinct(m.options) && forall i :: 0 <= i < |m.options| ==> Codable(m.options[i])
    ensures ToBytes(m).Some? && Parse(ToBytes(m).value) == Ok(m)
  {
    OptionBytesAreWire(m.options);
    FixedReads(m, WireBytes(AsWire(m.options)) + [255]);
    WalkOfWire(AsWire(m.options), []);
    assert [255] + [] == [255];
    EnterDistinct([], m.options);
    assert [] + m.options == m.options;
  }

  /** Parsed options do not depend on pad bytes between them or on bytes behind the end
      marker; a repeated code takes the last value. */
  lemma PadsIgnored(m: Message, ws: seq<Wire>, beyond: bytes)
    ensures Parse(Fixed(m) + (WireBytes(ws) + ([255] + beyond)))
         == Ok(m.(options := Enter(Unpadded(ws), [])))
  {
    FixedReads(m, WireBytes(ws) + ([255] + beyond));
    WalkOfWire(ws, beyond);
  }
}
