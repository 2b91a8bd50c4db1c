/** Domain names on the wire (RFC 1035 sections 3.1 and 4.1.4). */
module DnsName {
  import opened Bytes
  import opened Orbits
  import opened HopReader

  /** ASCII decoding with replacement. */
  function CharOf(b: byte): char { if b < 128 then b as char else '\U{FFFD}' }

  function Text(b: bytes): string {
    if |b| == 0 then "" else [CharOf(b[0])] + Text(b[1..])
  }

  function PointerTarget(p: bytes, off: nat): nat
    requires off + 1 < |p| && p[off] >= 192
  {
    (p[off] as int - 192) * 256 + p[off + 1] as int
  }

  function HopAt(p: bytes, off: nat): Hop {
    if off >= |p| then Stop(off)
    else if p[off] == 0 then Stop(off + 1)
    else if p[off] >= 192 then
      if off + 1 < |p| then Jump(PointerTarget(p, off), off + 2) else Overrun
    else Label(Text(Slice(p, off + 1, off + 1 + p[off] as int)), off + 1 + p[off] as int)
  }

  function Hops(p: bytes): nat -> Hop { (off: nat) => HopAt(p, off) }

  /** The program's loop has no cycle check and no fuel; it terminates on exactly the
      packets and offsets where it does so within as many hops as the packet has bytes. */
  predicate Terminates(p: bytes, off: nat) { Decode(Hops(p), off, |p|) != OutOfFuel }

  lemma FuelIsEnough(p: bytes, off: nat, fuel: nat)
    requires Decode(Hops(p), off, fuel) != OutOfFuel
    ensures Decode(Hops(p), off, |p|) == Decode(Hops(p), off, fuel)
  {
    AnyFuelIsEnough(Hops(p), |p|, off, fuel);
  }

  lemma TerminatesIff(p: bytes, off: nat)
    ensures Terminates(p, off) <==> exists fuel: nat :: Decode(Hops(p), off, fuel) != OutOfFuel
  {
    forall fuel: nat | Decode(Hops(p), off, fuel) != OutOfFuel
      ensures Terminates(p, off)
    {
      FuelIsEnough(p, off, fuel);
    }
    if Terminates(p, off) { assert Decode(Hops(p), off, |p|) != OutOfFuel; }
  }

  /** The offset reached after `n` labels and pointers, if the reader gets that far. */
  function OffsetAfter(p: bytes, off: nat, n: nat): Option<nat> { Orbit(Onward(Hops(p)), off, n) }

  /** It does not terminate if and only if it comes to some offset twice. */
  lemma LoopsIffOffsetMetTwice(p: bytes, off: nat)
    ensures !Terminates(p, off) <==>
            exists i: nat, j: nat ::
              i < j && OffsetAfter(p, off, i).Some? && OffsetAfter(p, off, i) == OffsetAfter(p, off, j)
  {
    var f := Onward(Hops(p));
    FuelRunsOutIff(Hops(p), off, |p|);
    if !Terminates(p, off) {
      var i, j := LongOrbitRepeats(f, |p|, off);
      assert OffsetAfter(p, off, i) == OffsetAfter(p, off, j);
    }
    if i: nat, j: nat :| i < j && OffsetAfter(p, off, i).Some? && OffsetAfter(p, off, i) == OffsetAfter(p, off, j) {
      RepeatNeverStops(f, off, i, j, |p| + 1);
    }
  }

  /** A pointer to itself is followed for ever. */
  lemma SelfPointerLoops(fuel: nat)
    ensures Decode(Hops([0xC0, 0x00]), 0, fuel) == OutOfFuel
  {
    var h := Hops([0xC0, 0x00]);
    assert h(0) == Jump(0, 2);
    assert Orbit(Onward(h), 0, 1) == Orbit(Onward(h), 0, 0);
    CycleNeverStops(Onward(h), 0, 1, fuel + 1);
    FuelRunsOutIff(h, 0, fuel);
  }

  // ---- The reader ----

  function Join(labels: seq<string>): string {
    if |labels| == 0 then ""
    else if |labels| == 1 then labels[0]
    else labels[0] + "." + Join(labels[1..])
  }

  function ReadName(p: bytes, off: nat): Result<(string, nat)>
    requires Terminates(p, off)
  {
    match Decode(Hops(p), off, |p|)
    case Name(labels, next) => Ok((Join(labels), next))
    case ReadBeyondEnd => Err(IndexError)
  }

  /** Marks the offset whose hop a proof looks at. */
  predicate Here(off: nat) { true }

  /** `h` is the packet's way of hopping, to be looked at one marked offset at a time. */
  ghost predicate HopsAre(p: bytes, h: nat -> Hop) {
    forall off: nat {:trigger Here(off)} :: h(off) == HopAt(p, off)
  }

  /** What is left to read, seen through hops that need not be unfolded. */
  lemma Opening(p: bytes, start: nat) returns (h: nat -> Hop, whole: Outcome)
    requires Terminates(p, start)
    ensures HopsAre(p, h) && Ahead(h, start, |p|, whole)
    ensures ReadName(p, start) == match whole
                                  case Name(labels, next) => Ok((Join(labels), next))
                                  case _ => Err(IndexError)
  {
    h := Hops(p);
    whole := Decode(h, start, |p|);
  }

  /** `_read_dns_name`. It is called only where its loop terminates; everywhere else the
      program does not return. */
  method ReadDnsName(payload: bytes, start: nat) returns (r: Result<(string, nat)>)
    requires Terminates(payload, start)
    ensures r == ReadName(payload, start)
  {
    var labels: seq<string> := [];
    var seenPointer := false;
    var returnOffset: nat, offset: nat := start, start;
    ghost var fuel: nat, stopped := |payload|, false;
    ghost var h, whole := Opening(payload, start);
    ghost var rest := whole;
    ResumeAtStart(whole, start);
    while offset < |payload|
      invariant !stopped && Ahead(h, offset, fuel, rest)
      invariant Resumed(labels, seenPointer, returnOffset, rest) == whole
      decreases fuel
    {
      assert Here(offset);
      Stops(h, offset, fuel, rest);
      var length := payload[offset] as int;
      if length == 0 {
        offset := offset + 1;
        stopped := true;
        break;
      }
      if length >= 192 {
        if offset + 1 < |payload| {
          rest := FollowPointer(h, offset, fuel, rest, PointerTarget(payload, offset), offset + 2,
                                labels, seenPointer, returnOffset);
        }
        if !seenPointer {
          returnOffset := offset + 2;
          seenPointer := true;
        }
        if offset + 1 >= |payload| { return Err(IndexError); }
        offset := (length - 192) * 256 + payload[offset + 1] as int;
      } else {
        var text := Text(Slice(payload, offset + 1, offset + 1 + length));
        rest := TakeLabel(h, offset, fuel, rest, text, offset + 1 + length, labels, seenPointer, returnOffset);
        labels := labels + [text];
        offset := offset + 1 + length;
      }
      fuel := fuel - 1;
    }
    assert Here(offset);
    if !stopped { Stops(h, offset, fuel, rest); }
    assert labels + [] == labels;
    assert whole == Name(labels, if seenPointer then returnOffset else offset);
    if !seenPointer { returnOffset := offset; }
    r := Ok((Join(labels), returnOffset));
  }

  // ---- The meaning of section 4.1.4 ----

  /** `text` is the ASCII text of the bytes, the replacement character standing for others. */
  predicate IsText(b: bytes, text: string) {
    |text| == |b| && forall j :: 0 <= j < |b| ==> text[j] == (if b[j] < 128 then b[j] as char else '\U{FFFD}')
  }

  lemma {:induction false} IsTextIff(b: bytes, text: string)
    ensures IsText(b, text) <==> text == Text(b)
  {
    if |b| > 0 && |text| > 0 {
      IsTextIff(b[1..], text[1..]);
      assert text == [text[0]] + text[1..];
      if IsText(b, text) { assert forall j :: 0 <= j < |b[1..]| ==> text[1..][j] == text[j + 1]; }
      if text == Text(b) { assert forall j :: 1 <= j < |b| ==> text[j] == text[1..][j - 1]; }
    }
  }

  /** `labels` is the name at `off` inside the label run that began at `start`, and the
      name ends before `end`: labels of 1 to 63 bytes closed by a zero byte, or a pointer
      to a name strictly before the run. */
  ghost predicate IsName(p: bytes, off: nat, start: nat, labels: seq<string>, end: nat)
    decreases start, |p| - off
  {
    && start <= off < |p|
    && var b := p[off] as int;
       if b == 0 then labels == [] && end == off + 1
       else if b >= 192 then
         && off + 1 < |p| && end == off + 2
         && var target := (b - 192) * 256 + p[off + 1] as int;
            target < start && exists inner :: IsName(p, target, target, labels, inner)
       else
         && b <= 63 && off + 1 + b <= |p| && |labels| > 0
         && IsText(p[off + 1..off + 1 + b], labels[0])
         && IsName(p, off + 1 + b, start, labels[1..], end)
  }

  lemma {:induction false} NameHasFuel(p: bytes, h: nat -> Hop, off: nat, start: nat, labels: seq<string>, end: nat)
    returns (fuel: nat)
    requires HopsAre(p, h) && IsName(p, off, start, labels, end)
    ensures Decode(h, off, fuel) == Name(labels, end)
    decreases start, |p| - off
  {
    assert Here(off);
    var b := p[off] as int;
    if b == 0 {
      fuel := 0;
    } else if b >= 192 {
      var target := PointerTarget(p, off);
      var inner :| IsName(p, target, target, labels, inner);
      var f := NameHasFuel(p, h, target, target, labels, inner);
      PointerBefore(h, off, f, target, off + 2, labels, inner);
      fuel := f + 1;
    } else {
      var f := NameHasFuel(p, h, off + 1 + b, start, labels[1..], end);
      IsTextIff(p[off + 1..off + 1 + b], labels[0]);
      LabelBefore(h, off, f, labels[0], off + 1 + b, labels[1..], end);
      fuel := f + 1;
      assert labels == [labels[0]] + labels[1..];
    }
  }

  /** Where the packet holds a name in the sense of the standard, with every pointer aimed
      before its own label run, the reader's loop terminates and returns its labels joined
      by dots and the offset behind it. In particular the name is unique. */
  lemma StandardNamesAreRead(p: bytes, off: nat, labels: seq<string>, end: nat)
    requires IsName(p, off, off, labels, end)
    ensures Decode(Hops(p), off, |p|) == Name(labels, end)
    ensures Terminates(p, off) && ReadName(p, off) == Ok((Join(labels), end))
  {
    var fuel := NameHasFuel(p, Hops(p), off, off, labels, end);
    FuelIsEnough(p, off, fuel);
  }

  // ---- Every packet ----

  /** The reader's view of any packet, within `n` labels and pointers: a name ends at a zero
      byte or where the packet does, a length below 192 is a label that the end of the packet
      may cut short, and a pointer may lead anywhere. */
  ghost predicate NameAt(p: bytes, off: nat, n: nat, labels: seq<string>, end: nat)
    decreases n, 0
  {
    if off >= |p| then labels == [] && end == off
    else
      var b := p[off] as int;
      if b == 0 then labels == [] && end == off + 1
      else if n == 0 then false
      else if b >= 192 then
        off + 1 < |p| && end == off + 2 && NamedAt(p, (b - 192) * 256 + p[off + 1] as int, n - 1, labels)
      else
        && |labels| > 0
        && IsText(if off + 1 + b <= |p| then p[off + 1..off + 1 + b] else p[off + 1..], labels[0])
        && NameAt(p, off + 1 + b, n - 1, labels[1..], end)
  }

  /** Such a name, wherever it ends. */
  ghost predicate NamedAt(p: bytes, off: nat, n: nat, labels: seq<string>)
    decreases n, 1
  {
    exists end :: NameAt(p, off, n, labels, end)
  }

  /** Within `n` labels and pointers the reader meets a pointer without its second byte. */
  ghost predicate HalfPointerAt(p: bytes, off: nat, n: nat)
    decreases n
  {
    && off < |p|
    && var b := p[off] as int;
       if b == 0 then false
       else if b >= 192 && off + 1 == |p| then true
       else n > 0 && HalfPointerAt(p, if b >= 192 then (b - 192) * 256 + p[off + 1] as int else off + 1 + b, n - 1)
  }

  lemma LabelDecodesIff(p: bytes, h: nat -> Hop, off: nat, n: nat, labels: seq<string>, end: nat)
    requires HopsAre(p, h) && off < |p| && 0 < p[off] < 192 && n > 0
    requires var next := off + 1 + p[off] as int;
             |labels| > 0 ==>
               (Decode(h, next, n - 1) == Name(labels[1..], end) <==> NameAt(p, next, n - 1, labels[1..], end))
    ensures Decode(h, off, n) == Name(labels, end) <==> NameAt(p, off, n, labels, end)
  {
    assert Here(off);
    var next := off + 1 + p[off] as int;
    var text := Slice(p, off + 1, next);
    assert next > |p| ==> text == p[off + 1..];
    if |labels| > 0 {
      IsTextIff(text, labels[0]);
      assert labels == [labels[0]] + labels[1..];
    }
  }

  lemma PointerDecodesIff(p: bytes, h: nat -> Hop, off: nat, target: nat, m: nat, labels: seq<string>, end: nat)
    requires HopsAre(p, h) && off + 1 < |p| && p[off] >= 192
    requires target == (p[off] as int - 192) * 256 + p[off + 1] as int
    requires forall inner :: Decode(h, target, m) == Name(labels, inner) <==> NameAt(p, target, m, labels, inner)
    ensures Decode(h, off, m + 1) == Name(labels, end) <==> NameAt(p, off, m + 1, labels, end)
  {
    assert Here(off);
    var rest := Decode(h, target, m);
    if rest.Name? && rest.labels == labels { assert NameAt(p, target, m, labels, rest.next); }
    assert NamedAt(p, target, m, labels) <==> rest.Name? && rest.labels == labels;
  }

  lemma {:induction false} DecodesIff(p: bytes, h: nat -> Hop, off: nat, n: nat, labels: seq<string>, end: nat)
    requires HopsAre(p, h)
    ensures Decode(h, off, n) == Name(labels, end) <==> NameAt(p, off, n, labels, end)
    decreases n
  {
    assert Here(off);
    if off < |p| && 0 < p[off] < 192 && n > 0 {
      if |labels| > 0 { DecodesIff(p, h, off + 1 + p[off] as int, n - 1, labels[1..], end); }
      LabelDecodesIff(p, h, off, n, labels, end);
    } else if off + 1 < |p| && p[off] >= 192 && n > 0 {
      var target, m := (p[off] as int - 192) * 256 + p[off + 1] as int, n - 1;
      forall inner
        ensures Decode(h, target, m) == Name(labels, inner) <==> NameAt(p, target, m, labels, inner)
      {
        DecodesIff(p, h, target, m, labels, inner);
      }
      PointerDecodesIff(p, h, off, target, m, labels, end);
    }
  }

  lemma {:induction false} OverrunsIff(p: bytes, h: nat -> Hop, off: nat, n: nat)
    requires HopsAre(p, h)
    ensures Decode(h, off, n) == ReadBeyondEnd <==> HalfPointerAt(p, off, n)
    decreases n
  {
    assert Here(off);
    if off < |p| && p[off] != 0 && n > 0 {
      var b := p[off] as int;
      if b < 192 {
        OverrunsIff(p, h, off + 1 + b, n - 1);
      } else if off + 1 < |p| {
        OverrunsIff(p, h, (b - 192) * 256 + p[off + 1] as int, n - 1);
      }
    }
  }

  /** On every packet: what the reader returns is exactly the name that stands there, and it
      raises exactly at a pointer cut in half. */
  lemma ReadNameIff(p: bytes, off: nat, name: string, end: nat)
    ensures Terminates(p, off) && ReadName(p, off) == Ok((name, end)) <==>
              exists n: nat, labels :: NameAt(p, off, n, labels, end) && name == Join(labels)
    ensures Terminates(p, off) && ReadName(p, off) == Err(IndexError) <==> exists n: nat :: HalfPointerAt(p, off, n)
  {
    var h := Hops(p);
    if n: nat, labels :| NameAt(p, off, n, labels, end) && name == Join(labels) {
      DecodesIff(p, h, off, n, labels, end);
      FuelIsEnough(p, off, n);
    }
    if n: nat :| HalfPointerAt(p, off, n) {
      OverrunsIff(p, h, off, n);
      FuelIsEnough(p, off, n);
    }
    match Decode(h, off, |p|)
    case Name(labels, next) => DecodesIff(p, h, off, |p|, labels, next);
    case ReadBeyondEnd => OverrunsIff(p, h, off, |p|);
    case OutOfFuel =>
  }
}
