/** Where the chip's FIN stands on an inbound connection: taken without payload, it ends the
    request wherever it stands. */
module InboundFin {
  import opened Bytes
  import opened SeqArith
  import opened Packets
  import opened Reassembly
  import opened InboundSpec
  import T = InboundTable
  import C = ConnSpec

  /** A FIN of the chip stands behind the last byte of its response. */
  ghost predicate EndsResponse(t: Tcp, peer: Peer, accepted: nat) {
    HasFin(t) ==>
      && |t.payload| <= |peer.stream| && |peer.stream| - accepted < M
      && Carries(t.seqNo, t.payload, peer.isn, peer.stream, |peer.stream| - |t.payload|)
  }

  /** The segment's FIN is taken although it is not the next thing expected. */
  predicate Misplaced(c: Inbound, t: Tcp) {
    c.state == Established && !HasRst(t) && HasFin(t) && |t.payload| == 0 && t.seqNo != c.chipSeq
  }

  predicate Covers(e: C.Emission, isn: int, k: nat) { isn + 1 + k < e.trueAck }

  /** No acknowledgement covers a byte of the response not received, and a connection the
      chip has ended holds all of it. */
  ghost predicate Honest(c: Inbound, peer: Peer) {
    && (forall i, k: nat :: 0 <= i < |c.out| && k < |peer.stream| && Covers(c.out[i], peer.isn, k) ==> k < |c.rx|)
    && (c.finsIn == 1 ==> c.rx == peer.stream)
  }

  ghost predicate Settled(c: Inbound, peer: Peer, v: bool) {
    if c.finsIn == 0 then v
    else (c.rx == peer.stream <==> v) && exists i :: 0 <= i < |c.out| && c.out[i].trueAck == ChipNext(c)
  }

  // ---- One step ----

  predicate SameIntake(c: Inbound, d: Inbound) {
    && d.rx == c.rx && d.finsIn == c.finsIn && d.chipIsn == c.chipIsn
    && |c.out| <= |d.out| && d.out[..|c.out|] == c.out
  }

  lemma SameIntakeSettled(c: Inbound, d: Inbound, peer: Peer, v: bool)
    requires Settled(c, peer, v) && SameIntake(c, d)
    ensures Settled(d, peer, v)
  {
    if c.finsIn != 0 {
      var i :| 0 <= i < |c.out| && c.out[i].trueAck == ChipNext(c);
      assert d.out[..|c.out|][i] == d.out[i];
    }
  }

  lemma FinInPlaceIff(c: Inbound, t: Tcp, peer: Peer)
    requires Inv(c, peer) && c.state == Established && HasFin(t) && EndsResponse(t, peer, |c.rx|)
    ensures SeqAdd(t.seqNo, |t.payload|) == c.chipSeq <==> c.rx == peer.stream
  {
    WrapAdd(peer.isn + 1 + |peer.stream| - |t.payload|, |t.payload|);
    if Wrap(peer.isn + 1 + |peer.stream|) == Wrap(ChipNext(c)) {
      WrapInjective(peer.isn + 1 + |peer.stream|, ChipNext(c));
    }
  }

  lemma LastPayloadCompletes(c: Inbound, t: Tcp, peer: Peer)
    requires Inv(c, peer) && c.state == Established && HasFin(t) && |t.payload| > 0 && t.seqNo == c.chipSeq
    requires FromPeer(c, t, peer) && EndsResponse(t, peer, |c.rx|)
    ensures c.rx + t.payload == peer.stream
  {
    InOrderExtends(c.rx, peer.stream, peer.isn, t.seqNo, t.payload);
    WrapInjective(peer.isn + 1 + |peer.stream| - |t.payload|, ChipNext(c));
  }

  /** Taking the FIN acknowledges it, in the last emission but one. */
  lemma OnFinSettled(c: Inbound, t: Tcp, peer: Peer, v: bool)
    requires c.chipIsn.Some? && c.finsIn == 0 && HasFin(t) && (v <==> c.rx == peer.stream)
    ensures Settled(OnFin(c, t), peer, v)
  {
    assert OnFin(c, t).out[|c.out|].trueAck == ChipNext(OnFin(c, t));
  }

  lemma BareFinSettled(c: Inbound, t: Tcp, peer: Peer, v: bool)
    requires Inv(c, peer) && FromPeer(c, t, peer) && EndsResponse(t, peer, |c.rx|) && Settled(c, peer, v)
    requires c.state == Established && HasFin(t) && |t.payload| == 0
    ensures Settled(OnFin(c, t), peer, v && t.seqNo == c.chipSeq)
  {
    FinInPlaceIff(c, t, peer);
    WrapAdd(t.seqNo, 0);
    OnFinSettled(c, t, peer, t.seqNo == c.chipSeq);
  }

  lemma EstablishedSettled(c: Inbound, t: Tcp, peer: Peer, v: bool)
    requires Inv(c, peer) && FromPeer(c, t, peer) && EndsResponse(t, peer, |c.rx|) && Settled(c, peer, v)
    requires c.state == Established && !HasRst(t) && HasFin(t)
    ensures Settled(OnSegment(c, t), peer, v && !Misplaced(c, t))
  {
    if |t.payload| == 0 {
      BareFinSettled(c, t, peer, v);
    } else if t.seqNo == c.chipSeq {
      LastPayloadCompletes(c, t, peer);
      OnFinSettled(Taken(c, t), t, peer, true);
    }
  }

  lemma SegmentSettled(c: Inbound, t: Tcp, peer: Peer, v: bool)
    requires Inv(c, peer) && FromPeer(c, t, peer) && EndsResponse(t, peer, |c.rx|) && Settled(c, peer, v)
    ensures Settled(OnSegment(c, t), peer, v && !Misplaced(c, t))
  {
    if HasRst(t) || c.state == Closed {
      SameIntakeSettled(c, OnSegment(c, t), peer, v);
    } else if c.state == Established && HasFin(t) {
      EstablishedSettled(c, t, peer, v);
    }
  }

  lemma StepSettled(c: Inbound, e: Event, peer: Peer, v: bool)
    requires Inv(c, peer) && Enabled(c, e) && Settled(c, peer, v)
    requires e.Arrives? ==> FromPeer(c, e.t, peer) && EndsResponse(e.t, peer, |c.rx|)
    ensures Settled(Step(c, e), peer, v && (e.Arrives? ==> !Misplaced(c, e.t)))
  {
    if e.Arrives? {
      SegmentSettled(c, e.t, peer, v);
    } else {
      SameIntakeSettled(c, Step(c, e), peer, v);
    }
  }

  lemma HonestIffSettled(c: Inbound, peer: Peer, v: bool)
    requires Inv(c, peer) && Settled(c, peer, v)
    ensures Honest(c, peer) <==> v
  {
    if c.finsIn == 0 || c.rx == peer.stream {
      forall i, k: nat | 0 <= i < |c.out| && k < |peer.stream| && Covers(c.out[i], peer.isn, k)
        ensures k < |c.rx|
      {
        assert AckTrue(c.out[i], peer.isn, ChipNext(c));
      }
    }
  }

  // ---- Runs ----

  /** The segment of `e`, if it is one for connection `i`. */
  function For(d: T.Desk, e: T.DeskEvent, i: nat): Option<Tcp>
    requires T.CanStep(d, e)
  {
    if e.Segment? && d.table[e.t.dstPort] == i then Some(e.t) else None
  }

  predicate FinsInPlace(d: T.Desk, es: seq<T.DeskEvent>, i: nat)
    requires T.CanRun(d, es)
    decreases |es|
  {
    |es| == 0
    || ((For(d, es[0], i).Some? ==> !Misplaced(d.all[i].c, For(d, es[0], i).value))
        && FinsInPlace(T.DeskStep(d, es[0]), es[1..], i))
  }

  ghost predicate FinsEnd(d: T.Desk, es: seq<T.DeskEvent>, i: nat, peer: Peer)
    requires T.CanRun(d, es)
    decreases |es|
  {
    |es| == 0
    || ((For(d, es[0], i).Some? ==> EndsResponse(For(d, es[0], i).value, peer, |d.all[i].c.rx|))
        && FinsEnd(T.DeskStep(d, es[0]), es[1..], i, peer))
  }

  /** What a step of the table does to connection `i`. */
  function Took(d: T.Desk, e: T.DeskEvent, i: nat): Option<Event>
    requires T.CanStep(d, e)
  {
    match e
    case Segment(_, _, t) => if d.table[t.dstPort] == i then Some(Arrives(t)) else None
    case Send(j) => if j == i then Some(Proceed) else None
    case Over(j) => if j == i then Some(Finish) else None
    case Stop =>
      if i < |d.all| && d.all[i].c.ourPort in d.table && d.table[d.all[i].c.ourPort] == i then Some(Cut) else None
    case _ => None
  }

  lemma StepProjects(d: T.Desk, e: T.DeskEvent, i: nat)
    requires T.CanStep(d, e) && i < |d.all|
    ensures i < |T.DeskStep(d, e).all|
    ensures match Took(d, e, i)
            case None => T.DeskStep(d, e).all[i].c == d.all[i].c
            case Some(own) => Enabled(d.all[i].c, own) && T.DeskStep(d, e).all[i].c == Step(d.all[i].c, own)
  {
  }

  ghost predicate SettledAt(d: T.Desk, i: nat, peer: Peer, v: bool) {
    if i < |d.all| then Settled(d.all[i].c, peer, v) else v
  }

  lemma DeskStepSettled(d: T.Desk, e: T.DeskEvent, peers: nat -> Peer, i: nat, v: bool)
    requires T.AllInv(d, peers) && T.CanStep(d, e) && T.FromPeers(d, e, peers) && SettledAt(d, i, peers(i), v)
    requires For(d, e, i).Some? ==> EndsResponse(For(d, e, i).value, peers(i), |d.all[i].c.rx|)
    ensures SettledAt(T.DeskStep(d, e), i, peers(i),
                      v && (For(d, e, i).Some? ==> !Misplaced(d.all[i].c, For(d, e, i).value)))
  {
    if i < |d.all| {
      StepProjects(d, e, i);
      if Took(d, e, i).Some? { StepSettled(d.all[i].c, Took(d, e, i).value, peers(i), v); }
    }
  }

  lemma {:induction false} DeskRunSettled(d: T.Desk, es: seq<T.DeskEvent>, peers: nat -> Peer, i: nat, v: bool)
    requires T.AllInv(d, peers) && T.CanRun(d, es) && T.Fed(d, es, peers) && FinsEnd(d, es, i, peers(i))
    requires SettledAt(d, i, peers(i), v)
    ensures SettledAt(T.After(d, es), i, peers(i), v && FinsInPlace(d, es, i))
    decreases |es|
  {
    if |es| > 0 {
      T.StepKeepsAll(d, es[0], peers);
      DeskStepSettled(d, es[0], peers, i, v);
      DeskRunSettled(T.DeskStep(d, es[0]), es[1..], peers, i,
                     v && (For(d, es[0], i).Some? ==> !Misplaced(d.all[i].c, For(d, es[0], i).value)));
    }
  }

  /** For every run, shutdowns included, whose segments are the chip's, the FIN always behind
      the last byte of the response: no acknowledgement covers a byte not received, and a
      connection the chip has ended holds the whole response, if and only if no FIN was
      taken out of its place. */
  lemma HonestIffFinsInPlace(es: seq<T.DeskEvent>, peers: nat -> Peer, i: nat)
    requires T.CanRun(T.IDLE, es) && T.Fed(T.IDLE, es, peers) && i < |T.After(T.IDLE, es).all|
    requires FinsEnd(T.IDLE, es, i, peers(i))
    ensures Honest(T.After(T.IDLE, es).all[i].c, peers(i)) <==> FinsInPlace(T.IDLE, es, i)
  {
    DeskRunSettled(T.IDLE, es, peers, i, true);
    T.RunKeepsAll(T.IDLE, es, peers);
    HonestIffSettled(T.After(T.IDLE, es).all[i].c, peers(i), FinsInPlace(T.IDLE, es, i));
  }

  /** Over such a run: once the chip has ended the connection, with its FINs in place, a
      request that was sent returns the chip's whole response, and a request that was not, or
      whose response is empty, returns nothing. */
  lemma WholeResponse(es: seq<T.DeskEvent>, peers: nat -> Peer, i: nat)
    requires T.CanRun(T.IDLE, es) && T.Fed(T.IDLE, es, peers) && i < |T.After(T.IDLE, es).all|
    requires FinsEnd(T.IDLE, es, i, peers(i)) && FinsInPlace(T.IDLE, es, i)
    requires T.After(T.IDLE, es).all[i].c.finsIn == 1
    ensures var c := T.After(T.IDLE, es).all[i].c;
            Response(c) == if c.requested && peers(i).stream != [] then Some(peers(i).stream) else None
  {
    HonestIffFinsInPlace(es, peers, i);
  }

  // ---- A run that takes a FIN out of place ----

  function FromServer(port: u16, seqNo: u32, flags: u16): Tcp {
    Tcp(SERVER_PORT, port, seqNo, 0, 5, flags, 0, 0, 0, [], [])
  }

  /** The connection's side of it. */
  lemma FinEndsAtOnce(c: Inbound, hello: Tcp, fin: Tcp, chipIsn: u32) returns (b: Inbound, d: Inbound)
    requires c.state == SynSent && c.rx == [] && c.finsIn == 0 && |c.out| == 1 && !c.requested
    requires hello == FromServer(c.ourPort, chipIsn, TCP_SYN + TCP_ACK)
    requires fin == FromServer(c.ourPort, Wrap(chipIsn + 4), TCP_FIN + TCP_ACK)
    ensures b == OnSegment(c, hello) && b.rx == [] && d == OnSegment(b, fin)
    ensures d.finished && d.rx == [] && Response(d) == None && d.chipSeq == Wrap(chipIsn + 2)
    ensures !Honest(d, Peer(chipIsn, [1, 2, 3]))
  {
    b := OnSegment(c, hello);
    d := OnSegment(b, fin);
    WrapAdd(chipIsn, 1);
    WrapAdd(chipIsn + 1, 1);
    assert Covers(d.out[2], chipIsn, 0);
  }

  /** From `d` the events lead to `z`, fed by the chip, a FIN of it for connection `i` last. */
  ghost predicate Overtaken(d: T.Desk, es: seq<T.DeskEvent>, z: T.Desk, i: nat, peers: nat -> Peer) {
    T.Leads(d, es, z) && T.Fed(d, es, peers) && FinsEnd(d, es, i, peers(i))
  }

  lemma OvertakenOn(d: T.Desk, e: T.DeskEvent, es: seq<T.DeskEvent>, z: T.Desk, i: nat, peers: nat -> Peer)
    returns (more: seq<T.DeskEvent>)
    requires T.CanStep(d, e) && T.FromPeers(d, e, peers)
    requires For(d, e, i).Some? ==> EndsResponse(For(d, e, i).value, peers(i), |d.all[i].c.rx|)
    requires Overtaken(T.DeskStep(d, e), es, z, i, peers)
    ensures Overtaken(d, more, z, i, peers) && more == [e] + es
  {
    more := T.LeadsOn(d, e, es, z);
    assert more[1..] == es;
  }

  /** The chip's FIN overtakes its three bytes: the request ends with nothing received, and
      the chip is told that the first of them has been. */
  lemma FinOvertakesResponse(port: u16, isn: u32, raw: bytes, chipIsn: u32) returns (es: seq<T.DeskEvent>)
    requires port >= 49152
    ensures T.CanRun(T.IDLE, es) && T.Fed(T.IDLE, es, (i: nat) => Peer(chipIsn, [1, 2, 3]))
    ensures FinsEnd(T.IDLE, es, 0, Peer(chipIsn, [1, 2, 3])) && |T.After(T.IDLE, es).all| == 1
    ensures var c := T.After(T.IDLE, es).all[0].c;
            && c.finished && c.rx == [] && Response(c) == None && c.chipSeq == Wrap(chipIsn + 2)
            && !Honest(c, Peer(chipIsn, [1, 2, 3]))
  {
    var peer := Peer(chipIsn, [1, 2, 3]);
    var peers := (i: nat) => peer;
    var hello := FromServer(port, chipIsn, TCP_SYN + TCP_ACK);
    var fin := FromServer(port, Wrap(chipIsn + 4), TCP_FIN + TCP_ACK);
    var e0, e1 := T.Ask(port, isn, raw), T.Segment(T.STA_IP, T.GATEWAY_IP, hello);
    var e2 := T.Segment(T.STA_IP, T.GATEWAY_IP, fin);
    var b, c := FinEndsAtOnce(Begun(port, isn, raw), hello, fin, chipIsn);
    var d1 := T.DeskStep(T.IDLE, e0);
    var d2 := T.WithConn(d1, 0, b);
    var d3 := T.WithConn(d2, 0, c);
    assert T.DeskStep(d1, e1) == d2 && T.DeskStep(d2, e2) == d3;
    assert Carries(fin.seqNo, [], chipIsn, peer.stream, 3);
    assert Overtaken(d3, [], d3, 0, peers);
    var es2 := OvertakenOn(d2, e2, [], d3, 0, peers);
    var es1 := OvertakenOn(d1, e1, es2, d3, 0, peers);
    es := OvertakenOn(T.IDLE, e0, es1, d3, 0, peers);
  }
}
