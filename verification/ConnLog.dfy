/** Facts about the list of segments emitted to the chip. */
module ConnLog {
  import opened Bytes
  import opened SeqArith
  import opened Packets
  import opened Reassembly
  import opened ConnSpec

  /** The payloads emitted, in order. */
  function Data(out: seq<Emission>): bytes {
    if |out| == 0 then [] else Data(out[..|out| - 1]) + out[|out| - 1].seg.payload
  }

  function Fins(out: seq<Emission>): nat {
    if |out| == 0 then 0 else Fins(out[..|out| - 1]) + (if HasFin(out[|out| - 1].seg) then 1 else 0)
  }

  /** Payload, FIN or reset: not a bare acknowledgement. */
  predicate Speaks(e: Emission) { |e.seg.payload| > 0 || HasFin(e.seg) || HasRst(e.seg) }

  /** What an emission must look like behind the ones in `before`: its number is that of the
      next byte, every FIN before it counted, a SYN standing one before; payload and FIN are
      carried by different segments and nothing but bare segments follows a FIN. */
  predicate FitsBehind(before: seq<Emission>, e: Emission, base: int) {
    && e.trueSeq == base + |Data(before)| + Fins(before) - (if HasSyn(e.seg) then 1 else 0)
    && ((|e.seg.payload| > 0 || HasFin(e.seg)) ==>
          !HasSyn(e.seg) && Fins(before) == 0 && (HasFin(e.seg) ==> e.seg.payload == []))
  }

  predicate Tiled(out: seq<Emission>, base: int) {
    |out| == 0
    || (Tiled(out[..|out| - 1], base) && FitsBehind(out[..|out| - 1], out[|out| - 1], base))
  }

  /** The wrapped fields stand for the true numbers, the acknowledged number lies between
      `lo` and `hi`, and options and payload fit the segment size. */
  predicate WellNumbered(e: Emission, lo: int, hi: int) {
    && e.seg.seqNo == Wrap(e.trueSeq) && e.seg.ackNo == Wrap(e.trueAck)
    && lo <= e.trueAck <= hi
    && |PadOptions(e.seg.options)| <= 40 && |PadOptions(e.seg.options)| + |e.seg.payload| <= TCP_MSS
  }

  ghost predicate Numbered(out: seq<Emission>, lo: int, hi: int) {
    forall i :: 0 <= i < |out| ==> WellNumbered(out[i], lo, hi)
  }

  /** The wire fields stand for the true sequence numbers. */
  ghost predicate OnWire(out: seq<Emission>) {
    forall i :: 0 <= i < |out| ==> out[i].seg.seqNo == Wrap(out[i].trueSeq)
  }

  /** The log carries `got` and `fins` FINs. Behind a mark, so that proofs about anything
      else are not drawn into the recursion. */
  ghost predicate Emitted(out: seq<Emission>, got: bytes, fins: nat, base: int) {
    forall mark: nat {:trigger Inside(mark)} :: Data(out) == got && Fins(out) == fins && Tiled(out, base)
  }

  ghost predicate LogOk(out: seq<Emission>, got: bytes, fins: nat, base: int, lo: int, hi: int) {
    Emitted(out, got, fins, base) && Numbered(out, lo, hi)
  }

  /** `FitsBehind` in terms of what the log carries. */
  predicate Follows(e: Emission, got: bytes, fins: nat, base: int) {
    && e.trueSeq == base + |got| + fins - (if HasSyn(e.seg) then 1 else 0)
    && ((|e.seg.payload| > 0 || HasFin(e.seg)) ==>
          !HasSyn(e.seg) && fins == 0 && (HasFin(e.seg) ==> e.seg.payload == []))
  }

  /** One more emission. */
  lemma EmittedOne(out: seq<Emission>, e: Emission, got: bytes, fins: nat, base: int)
    requires Emitted(out, got, fins, base) && Follows(e, got, fins, base)
    ensures Emitted(out + [e], got + e.seg.payload, fins + (if HasFin(e.seg) then 1 else 0), base)
  {
    assert Inside(0);
    assert (out + [e])[..|out|] == out;
  }

  lemma LogAppend(out: seq<Emission>, e: Emission, got: bytes, fins: nat, base: int, lo: int, hi: int)
    requires LogOk(out, got, fins, base, lo, hi) && Follows(e, got, fins, base) && WellNumbered(e, lo, hi)
    ensures LogOk(out + [e], got + e.seg.payload, fins + (if HasFin(e.seg) then 1 else 0), base, lo, hi)
  {
    EmittedOne(out, e, got, fins, base);
  }

  lemma NothingEmitted(base: int)
    ensures Emitted([], [], 0, base)
  {
  }

  lemma {:induction false} DataPrefix(out: seq<Emission>, i: nat)
    requires i <= |out|
    ensures PrefixOf(Data(out[..i]), Data(out)) && Fins(out[..i]) <= Fins(out)
  {
    if i == |out| {
      assert out[..i] == out;
    } else {
      var init := out[..|out| - 1];
      assert init[..i] == out[..i];
      DataPrefix(init, i);
      assert Data(out)[..|Data(out[..i])|] == Data(init)[..|Data(out[..i])|];
    }
  }

  lemma {:induction false} TiledAt(out: seq<Emission>, base: int, i: nat)
    requires Tiled(out, base) && i < |out|
    ensures FitsBehind(out[..i], out[i], base)
  {
    if i < |out| - 1 {
      assert out[..|out| - 1][..i] == out[..i];
      TiledAt(out[..|out| - 1], base, i);
    }
  }

  lemma PayloadStands(out: seq<Emission>, i: nat)
    requires i < |out|
    ensures var o := |Data(out[..i])|;
            o + |out[i].seg.payload| <= |Data(out)| && Data(out)[o..o + |out[i].seg.payload|] == out[i].seg.payload
  {
    var upTo := out[..i + 1];
    assert upTo[..i] == out[..i];
    assert Data(upTo) == Data(out[..i]) + out[i].seg.payload;
    DataPrefix(out, i + 1);
    var o := |Data(out[..i])|;
    assert Data(upTo)[o..] == out[i].seg.payload;
  }

  /** Every payload sits in the emitted stream at the offset its sequence number says. */
  lemma EmissionsCarry(out: seq<Emission>, isn: int, i: nat)
    requires Tiled(out, isn + 1) && OnWire(out) && i < |out| && |out[i].seg.payload| > 0
    ensures Carries(out[i].seg.seqNo, out[i].seg.payload, isn, Data(out), |Data(out[..i])|)
  {
    TiledAt(out, isn + 1, i);
    PayloadStands(out, i);
  }

  /** A FIN stands behind everything emitted, whatever comes after it. */
  lemma {:induction false} FinStandsLast(out: seq<Emission>, base: int, k: nat)
    requires Tiled(out, base) && k < |out| && HasFin(out[k].seg)
    ensures out[k].trueSeq == base + |Data(out)| && out[k].seg.payload == []
  {
    var init := out[..|out| - 1];
    if k < |init| {
      FinStandsLast(init, base, k);
      DataPrefix(init, k + 1);
      assert init[..k + 1][..k] == init[..k];
    }
  }

  function Arrivals(out: seq<Emission>): seq<Arrival> {
    seq(|out|, i requires 0 <= i < |out| => Arrival(out[i].seg.seqNo, out[i].seg.payload))
  }

  /** Fed the emissions in order, a receiver that starts behind the initial number ends with
      exactly `data`. */
  predicate Rebuilds(out: seq<Emission>, isn: int, data: bytes) {
    ReceiveAll(Receiver(Wrap(isn + 1), []), Arrivals(out)) == Receiver(Wrap(isn + 1 + |data|), data)
  }

  /** A receiver fed the emissions in order reassembles exactly the emitted stream. */
  lemma {:induction false} InOrderDelivery(out: seq<Emission>, isn: int)
    requires Tiled(out, isn + 1) && OnWire(out)
    ensures Rebuilds(out, isn, Data(out))
  {
    var r := Receiver(Wrap(isn + 1), []);
    if |out| > 0 {
      var init, e := out[..|out| - 1], out[|out| - 1];
      InOrderDelivery(init, isn);
      assert Arrivals(out) == Arrivals(init) + [Arrival(e.seg.seqNo, e.seg.payload)];
      ReceiveAppend(r, Arrivals(init), [Arrival(e.seg.seqNo, e.seg.payload)]);
      WrapAdd(isn + 1 + |Data(init)|, |e.seg.payload|);
      var mid := ReceiveAll(r, Arrivals(init));
      assert ReceiveAll(mid, [Arrival(e.seg.seqNo, e.seg.payload)])
          == Receive(mid, Arrival(e.seg.seqNo, e.seg.payload));
    }
  }

  /** What the marked predicate says. */
  lemma LogCarries(out: seq<Emission>, got: bytes, fins: nat, base: int)
    requires Emitted(out, got, fins, base)
    ensures Data(out) == got && Fins(out) == fins && Tiled(out, base)
  {
    assert Inside(0);
  }

  /** A log that carries `got`: fed in order it reassembles to `got`, ... */
  lemma WholeLog(out: seq<Emission>, got: bytes, fins: nat, isn: int)
    requires Emitted(out, got, fins, isn + 1) && OnWire(out)
    ensures Rebuilds(out, isn, got)
  {
    LogCarries(out, got, fins, isn + 1);
    InOrderDelivery(out, isn);
  }

  /** ... and its FINs stand right behind it. */
  ghost predicate FinsBehind(out: seq<Emission>, isn: int, got: bytes) {
    forall k :: 0 <= k < |out| && HasFin(out[k].seg) ==> out[k].seg.seqNo == Wrap(isn + 1 + |got|)
  }

  lemma WholeLogFins(out: seq<Emission>, got: bytes, fins: nat, isn: int)
    requires Emitted(out, got, fins, isn + 1) && OnWire(out)
    ensures FinsBehind(out, isn, got)
  {
    LogCarries(out, got, fins, isn + 1);
    forall k | 0 <= k < |out| && HasFin(out[k].seg)
      ensures out[k].trueSeq == isn + 1 + |got|
    {
      FinStandsLast(out, isn + 1, k);
    }
  }

  predicate Indices(out: seq<Emission>, order: seq<nat>) {
    forall i :: 0 <= i < |order| ==> order[i] < |out|
  }

  /** Emissions delivered to a receiver in some order, with repetitions and losses, each
      less than 2^32 away from what it has so far. */
  ghost predicate Nearby(out: seq<Emission>, r: Receiver, order: seq<nat>)
    requires Indices(out, order)
    decreases |order|
  {
    |order| == 0
    || (-M < |Data(out[..order[0]])| - |r.data| < M
        && Nearby(out, Receive(r, Arrivals(out)[order[0]]), order[1..]))
  }

  function Picked(out: seq<Emission>, order: seq<nat>): seq<Arrival>
    requires Indices(out, order)
    decreases |order|
  {
    if |order| == 0 then [] else [Arrivals(out)[order[0]]] + Picked(out, order[1..])
  }

  /** Lossy, repeating, reordering delivery of the emissions still yields a prefix of the
      emitted stream. */
  lemma {:induction false} LossyDelivery(out: seq<Emission>, isn: u32, r: Receiver, order: seq<nat>)
    requires Tiled(out, isn + 1) && OnWire(out)
    requires Indices(out, order) && Nearby(out, r, order)
    requires HoldsPrefix(r, isn, Data(out))
    ensures HoldsPrefix(ReceiveAll(r, Picked(out, order)), isn, Data(out))
  {
    PickedGenuine(out, isn, r, order);
    ReceiverHoldsPrefix(r, Picked(out, order), isn, Data(out));
  }

  /** The same for a log known to carry `got`. */
  lemma LossyLog(out: seq<Emission>, got: bytes, fins: nat, isn: u32, r: Receiver, order: seq<nat>)
    requires Emitted(out, got, fins, isn + 1) && OnWire(out) && Indices(out, order) && Nearby(out, r, order)
    requires HoldsPrefix(r, isn, got)
    ensures HoldsPrefix(ReceiveAll(r, Picked(out, order)), isn, got)
  {
    LogCarries(out, got, fins, isn + 1);
    LossyDelivery(out, isn, r, order);
  }

  lemma {:induction false} PickedGenuine(out: seq<Emission>, isn: u32, r: Receiver, order: seq<nat>)
    requires Tiled(out, isn + 1) && OnWire(out)
    requires Indices(out, order) && Nearby(out, r, order)
    ensures AllGenuine(r, Picked(out, order), isn, Data(out))
    decreases |order|
  {
    if |order| > 0 {
      var k := order[0];
      assert Picked(out, order)[1..] == Picked(out, order[1..]);
      if |out[k].seg.payload| > 0 {
        EmissionsCarry(out, isn, k);
      }
      PickedGenuine(out, isn, Receive(r, Arrivals(out)[k]), order[1..]);
    }
  }
}
