/** The gateway's table of inbound connections, keyed by its own port, over time: requests
    begin and end, and five seconds after its end a connection is dropped. */
module InboundTable {
  import opened Bytes
  import opened SeqArith
  import opened Packets
  import opened Reassembly
  import opened ConnLog
  import opened InboundSpec

  const GATEWAY_IP: Ip4 := [10, 13, 37, 1]
  const STA_IP: Ip4 := [10, 13, 37, 42]
  const FIRST_PORT: u16 := 49152
  const LINGER: real := 5.0

  /** A request is running, or it ended at some time and its removal is scheduled, or it was
      removed. */
  datatype Status = Active | Lingering(ended: real) | Gone(ended: real, removed: real)

  datatype Entry = Entry(c: Inbound, status: Status)

  /** `all` lists every connection ever opened; the table refers to them by position. */
  datatype Desk = Desk(all: seq<Entry>, table: map<u16, nat>, now: real)

  const IDLE := Desk([], map[], 0.0)

  /** `Ask` begins a request on a free port, `Segment` is a segment from the chip that the
      table claims, `OnConn` resumes a request coroutine, `Over` is its end, `Tick` passes
      time, `Expire` runs a scheduled removal, `Stop` shuts down. */
  datatype DeskEvent =
    | Ask(port: u16, isn: u32, raw: bytes)
    | Segment(src: Ip4, dst: Ip4, t: Tcp)
    | Send(i: nat)
    | Over(i: nat)
    | Tick(d: real)
    | Expire(i: nat)
    | Stop

  /** Whether a segment belongs to an inbound connection. */
  predicate Matches(d: Desk, src: Ip4, dst: Ip4, t: Tcp) {
    && t.dstPort in d.table && d.table[t.dstPort] < |d.all|
    && t.srcPort == SERVER_PORT && src == STA_IP && dst == GATEWAY_IP
  }

  predicate CanStep(d: Desk, e: DeskEvent) {
    match e
    case Ask(port, _, _) => port >= FIRST_PORT && port !in d.table
    case Segment(src, dst, t) => Matches(d, src, dst, t)
    case Send(i) => i < |d.all| && d.all[i].status == Active && Enabled(d.all[i].c, Proceed)
    case Over(i) => i < |d.all| && d.all[i].status == Active
    case Tick(t) => t > 0.0
    case Expire(i) => i < |d.all| && d.all[i].status.Lingering? && d.all[i].status.ended + LINGER <= d.now
    case Stop => true
  }

  function WithConn(d: Desk, i: nat, c: Inbound): Desk
    requires i < |d.all|
  {
    d.(all := d.all[i := d.all[i].(c := c)])
  }

  function WithStatus(d: Desk, i: nat, s: Status): Desk
    requires i < |d.all|
  {
    d.(all := d.all[i := d.all[i].(status := s)])
  }

  /** Shutdown marks the connections that are in the table, and empties it. */
  function Stopped(d: Desk): Desk {
    d.(all := seq(|d.all|, i requires 0 <= i < |d.all| =>
                    var port := d.all[i].c.ourPort;
                    if port in d.table && d.table[port] == i then d.all[i].(c := CutOff(d.all[i].c)) else d.all[i]),
       table := map[])
  }

  function DeskStep(d: Desk, e: DeskEvent): Desk
    requires CanStep(d, e)
  {
    match e
    case Ask(port, isn, raw) =>
      d.(all := d.all + [Entry(Begun(port, isn, raw), Active)], table := d.table[port := |d.all|])
    case Segment(_, _, t) => WithConn(d, d.table[t.dstPort], OnSegment(d.all[d.table[t.dstPort]].c, t))
    case Send(i) => WithConn(d, i, SendRequest(d.all[i].c))
    case Over(i) => WithStatus(WithConn(d, i, d.all[i].c.(state := Closed)), i, Lingering(d.now))
    case Tick(t) => d.(now := d.now + t)
    case Expire(i) =>
      WithStatus(d, i, Gone(d.all[i].status.ended, d.now)).(table := d.table - {d.all[i].c.ourPort})
    case Stop => Stopped(d)
  }

  predicate CanRun(d: Desk, es: seq<DeskEvent>)
    decreases |es|
  {
    |es| == 0 || (CanStep(d, es[0]) && CanRun(DeskStep(d, es[0]), es[1..]))
  }

  function After(d: Desk, es: seq<DeskEvent>): Desk
    requires CanRun(d, es)
    decreases |es|
  {
    if |es| == 0 then d else After(DeskStep(d, es[0]), es[1..])
  }

  /** From `d` the events lead to `z`. */
  predicate Leads(d: Desk, es: seq<DeskEvent>, z: Desk) { CanRun(d, es) && After(d, es) == z }

  lemma LeadsOn(d: Desk, e: DeskEvent, es: seq<DeskEvent>, z: Desk) returns (more: seq<DeskEvent>)
    requires CanStep(d, e) && (Leads(DeskStep(d, e), es, z) || (es == [] && DeskStep(d, e) == z))
    ensures more == [e] + es && Leads(d, more, z)
  {
    more := [e] + es;
    assert more[1..] == es;
  }

  /** Entries stand under their own port. */
  ghost predicate Keyed(d: Desk) {
    forall p :: p in d.table ==> d.table[p] < |d.all| && d.all[d.table[p]].c.ourPort == p
  }

  lemma {:induction false} RunKeepsKeyed(d: Desk, es: seq<DeskEvent>)
    requires Keyed(d) && CanRun(d, es)
    ensures Keyed(After(d, es))
    decreases |es|
  {
    if |es| > 0 { RunKeepsKeyed(DeskStep(d, es[0]), es[1..]); }
  }

  // ---- TIME_WAIT ----

  /** A connection not yet removed owns its port, and the table holds nothing else; none was
      removed sooner than five seconds after its request ended. */
  ghost predicate Owned(d: Desk) {
    && (forall i :: 0 <= i < |d.all| && !d.all[i].status.Gone? ==>
          d.all[i].c.ourPort in d.table && d.table[d.all[i].c.ourPort] == i)
    && (forall p :: p in d.table ==>
          d.table[p] < |d.all| && d.all[d.table[p]].c.ourPort == p && !d.all[d.table[p]].status.Gone?)
    && (forall i :: 0 <= i < |d.all| && d.all[i].status.Gone? ==>
          d.all[i].status.ended + 5.0 <= d.all[i].status.removed <= d.now)
  }

  lemma ConnKeepsOwned(d: Desk, i: nat, c: Inbound)
    requires Owned(d) && i < |d.all| && c.ourPort == d.all[i].c.ourPort
    ensures Owned(WithConn(d, i, c))
  {
  }

  lemma OverKeepsOwned(d: Desk, i: nat)
    requires Owned(d) && i < |d.all| && d.all[i].status == Active
    ensures Owned(WithStatus(d, i, Lingering(d.now)))
  {
  }

  lemma ExpireKeepsOwned(d: Desk, i: nat)
    requires Owned(d) && CanStep(d, Expire(i))
    ensures Owned(DeskStep(d, Expire(i)))
  {
  }

  lemma StepKeepsOwned(d: Desk, e: DeskEvent)
    requires Owned(d) && CanStep(d, e) && e != Stop
    ensures Owned(DeskStep(d, e))
  {
    match e
    case Segment(_, _, t) =>
      ConnKeepsOwned(d, d.table[t.dstPort], OnSegment(d.all[d.table[t.dstPort]].c, t));
    case Send(i) => ConnKeepsOwned(d, i, SendRequest(d.all[i].c));
    case Over(i) =>
      ConnKeepsOwned(d, i, d.all[i].c.(state := Closed));
      OverKeepsOwned(WithConn(d, i, d.all[i].c.(state := Closed)), i);
    case Expire(i) => ExpireKeepsOwned(d, i);
    case Ask(_, _, _) =>
    case Tick(_) =>
    case Stop => assert false;
  }

  predicate NoStop(es: seq<DeskEvent>) { forall k :: 0 <= k < |es| ==> es[k] != Stop }

  lemma {:induction false} RunKeepsOwned(d: Desk, es: seq<DeskEvent>)
    requires Owned(d) && CanRun(d, es) && NoStop(es)
    ensures Owned(After(d, es))
    decreases |es|
  {
    if |es| > 0 {
      StepKeepsOwned(d, es[0]);
      RunKeepsOwned(DeskStep(d, es[0]), es[1..]);
    }
  }

  /** Barring shutdown: from its SYN until its removal, which comes no sooner than five
      seconds after the request ended, every segment of a connection is claimed by the
      inbound table and handed to that very connection; and a removal takes out its own
      connection and no other, because the port could not be given out again before. */
  lemma TimeWaitAbsorbs(es: seq<DeskEvent>, i: nat, t: Tcp)
    requires CanRun(IDLE, es) && NoStop(es) && i < |After(IDLE, es).all|
    ensures var d := After(IDLE, es);
            var port := d.all[i].c.ourPort;
            && (d.all[i].status.Gone? ==> d.all[i].status.ended + 5.0 <= d.all[i].status.removed <= d.now)
            && (!d.all[i].status.Gone? && t.srcPort == 80 && t.dstPort == port ==>
                  Matches(d, [10, 13, 37, 42], [10, 13, 37, 1], t) && d.table[t.dstPort] == i)
            && (forall isn, raw :: CanStep(d, Ask(port, isn, raw)) ==> d.all[i].status.Gone?)
            && (CanStep(d, Expire(i)) ==>
                  && port in d.table && d.table[port] == i
                  && forall j :: 0 <= j < |d.all| && j != i && !d.all[j].status.Gone? ==>
                       var p := d.all[j].c.ourPort;
                       p in DeskStep(d, Expire(i)).table && DeskStep(d, Expire(i)).table[p] == j)
  {
    RunKeepsOwned(IDLE, es);
    var d := After(IDLE, es);
    if CanStep(d, Expire(i)) { StepKeepsOwned(d, Expire(i)); }
  }

  // ---- Removals across shutdowns ----

  /** Connection `i` owns its port. */
  predicate Holds(d: Desk, i: nat)
    requires i < |d.all|
  {
    d.all[i].c.ourPort in d.table && d.table[d.all[i].c.ourPort] == i
  }

  /** The step takes connection `i` out of the table although its own removal is not due: a
      shutdown, or the removal scheduled for another connection on the same port. */
  predicate Strikes(d: Desk, e: DeskEvent, i: nat)
    requires i < |d.all|
  {
    e == Stop || (e.Expire? && e.i != i && e.i < |d.all| && d.all[e.i].c.ourPort == d.all[i].c.ourPort)
  }

  /** Since connection `i` was opened, something struck it out. */
  predicate Struck(d: Desk, es: seq<DeskEvent>, i: nat)
    requires CanRun(d, es)
    decreases |es|
  {
    |es| > 0 && ((i < |d.all| && Strikes(d, es[0], i)) || Struck(DeskStep(d, es[0]), es[1..], i))
  }

  lemma StepHolds(d: Desk, e: DeskEvent, i: nat)
    requires Keyed(d) && CanStep(d, e) && i < |d.all| && e != Expire(i)
    ensures var m := DeskStep(d, e);
            && i < |m.all| && m.all[i].c.ourPort == d.all[i].c.ourPort
            && (m.all[i].status.Gone? <==> d.all[i].status.Gone?)
            && (Holds(m, i) <==> Holds(d, i) && !Strikes(d, e, i))
  {
  }

  lemma BornHolding(d: Desk, e: DeskEvent)
    requires Keyed(d) && CanStep(d, e)
    ensures var m := DeskStep(d, e);
            Keyed(m) && |d.all| <= |m.all| <= |d.all| + 1
            && (|m.all| > |d.all| ==> Holds(m, |d.all|) && m.all[|d.all|].status == Active)
  {
  }

  lemma {:induction false} GoneStays(d: Desk, es: seq<DeskEvent>, i: nat)
    requires CanRun(d, es) && i < |d.all| && d.all[i].status.Gone?
    ensures i < |After(d, es).all| && After(d, es).all[i].status.Gone?
    decreases |es|
  {
    if |es| > 0 { GoneStays(DeskStep(d, es[0]), es[1..], i); }
  }

  lemma {:induction false} HoldsUnlessStruck(d: Desk, es: seq<DeskEvent>, i: nat)
    requires Keyed(d) && CanRun(d, es) && i < |After(d, es).all| && !After(d, es).all[i].status.Gone?
    ensures Holds(After(d, es), i) <==> (i < |d.all| ==> Holds(d, i)) && !Struck(d, es, i)
    decreases |es|
  {
    if |es| > 0 {
      var m := DeskStep(d, es[0]);
      BornHolding(d, es[0]);
      if es[0] == Expire(i) {
        GoneStays(m, es[1..], i);
      } else {
        if i < |d.all| { StepHolds(d, es[0], i); }
        HoldsUnlessStruck(m, es[1..], i);
      }
    }
  }

  /** For every run, shutdowns included: a scheduled removal takes another connection out of
      the table if and only if its own was struck out since it was opened, by a shutdown or
      by the removal of another connection on its port, and the port is in use again. */
  lemma RemovesAnotherIff(es: seq<DeskEvent>, i: nat)
    requires CanRun(IDLE, es) && CanStep(After(IDLE, es), Expire(i))
    ensures var d := After(IDLE, es);
            (exists j :: 0 <= j < |d.all| && j != i && Holds(d, j) && !Holds(DeskStep(d, Expire(i)), j))
            <==> Struck(IDLE, es, i) && d.all[i].c.ourPort in d.table
  {
    var d := After(IDLE, es);
    RunKeepsKeyed(IDLE, es);
    HoldsUnlessStruck(IDLE, es, i);
    var m := DeskStep(d, Expire(i));
    var port := d.all[i].c.ourPort;
    forall j | 0 <= j < |d.all| && j != i && Holds(d, j)
      ensures !Holds(m, j) <==> d.all[j].c.ourPort == port
    {
      StepHolds(d, Expire(i), j);
    }
    if port in d.table && d.table[port] != i {
      assert Holds(d, d.table[port]);
    }
  }

  /** Such a run: a shutdown in between, then a request on the same port. At the bridge that
      second request must be one that had passed the test whether the bridge is running
      before the shutdown, and was still priming the chip's address tables when it came. */
  lemma ShutdownLeavesRemovals(port: u16, isn: u32, raw: bytes) returns (es: seq<DeskEvent>)
    requires port >= 49152
    ensures CanRun(IDLE, es)
    ensures var d := After(IDLE, es);
            |d.all| == 2 && d.all[1].status == Active && d.all[1].c.ourPort == port && port !in d.table
  {
    var d1 := DeskStep(IDLE, Ask(port, isn, raw));
    var d2 := DeskStep(d1, Over(0));
    var d3 := DeskStep(d2, Stop);
    var d4 := DeskStep(d3, Ask(port, isn, raw));
    var d5 := DeskStep(d4, Tick(LINGER));
    var d6 := DeskStep(d5, Expire(0));
    es := LeadsOn(d5, Expire(0), [], d6);
    es := LeadsOn(d4, Tick(LINGER), es, d6);
    es := LeadsOn(d3, Ask(port, isn, raw), es, d6);
    es := LeadsOn(d2, Stop, es, d6);
    es := LeadsOn(d1, Over(0), es, d6);
    es := LeadsOn(IDLE, Ask(port, isn, raw), es, d6);
  }

  // ---- A blind acknowledgement ----

  /** A request that ended before the chip answered, then the answer: the acknowledgement it
      draws carries number 0, whatever the chip's number is. */
  lemma BlindAckRun(port: u16, isn: u32, raw: bytes, t: Tcp) returns (es: seq<DeskEvent>)
    requires port >= 49152 && t.srcPort == 80 && t.dstPort == port
    requires HasSyn(t) && HasAck(t) && !HasRst(t)
    ensures CanRun(IDLE, es) && |es| == 3 && es[1] == Over(0) && es[2] == Segment([10, 13, 37, 42], [10, 13, 37, 1], t)
    ensures |After(IDLE, es).all| == 1
    ensures var c := After(IDLE, es).all[0].c;
            && |c.out| == 2 && c.out[1].seg.flags == TCP_ACK && c.out[1].seg.ackNo == 0
            && (c.out[1].seg.ackNo == SeqAdd(t.seqNo, 1) <==> t.seqNo == 0xffff_ffff)
  {
    var d1 := DeskStep(IDLE, Ask(port, isn, raw));
    var d2 := DeskStep(d1, Over(0));
    var d3 := DeskStep(d2, Segment(STA_IP, GATEWAY_IP, t));
    es := LeadsOn(d2, Segment(STA_IP, GATEWAY_IP, t), [], d3);
    es := LeadsOn(d1, Over(0), es, d3);
    es := LeadsOn(IDLE, Ask(port, isn, raw), es, d3);
  }

  /** A request one byte too long: its one packet is beyond the MTU. */
  lemma OversizedRequestRun(port: u16, isn: u32, raw: bytes, t: Tcp) returns (es: seq<DeskEvent>)
    requires port >= 49152 && t.srcPort == 80 && t.dstPort == port
    requires HasSyn(t) && HasAck(t) && !HasRst(t) && |raw| == 1461
    ensures CanRun(IDLE, es) && |After(IDLE, es).all| == 1
    ensures var c := After(IDLE, es).all[0].c;
            && |c.out| == 3 && c.out[2].seg.payload == raw
            && var l4 := TcpToBytes(c.out[2].seg, GATEWAY_IP, STA_IP);
               l4.Some? && 20 + |l4.value| == 1501
  {
    var d1 := DeskStep(IDLE, Ask(port, isn, raw));
    var d2 := DeskStep(d1, Segment(STA_IP, GATEWAY_IP, t));
    var d3 := DeskStep(d2, Send(0));
    es := LeadsOn(d2, Send(0), [], d3);
    es := LeadsOn(d1, Segment(STA_IP, GATEWAY_IP, t), es, d3);
    es := LeadsOn(IDLE, Ask(port, isn, raw), es, d3);
    TcpSegmentVerifies(d3.all[0].c.out[2].seg, GATEWAY_IP, STA_IP);
  }

  // ---- Responses ----

  /** Segments claimed for connection `i` come from the chip's side `peers(i)` of it. */
  ghost predicate FromPeers(d: Desk, e: DeskEvent, peers: nat -> Peer)
    requires CanStep(d, e)
  {
    e.Segment? ==> FromPeer(d.all[d.table[e.t.dstPort]].c, e.t, peers(d.table[e.t.dstPort]))
  }

  ghost predicate Fed(d: Desk, es: seq<DeskEvent>, peers: nat -> Peer)
    requires CanRun(d, es)
    decreases |es|
  {
    |es| == 0 || (FromPeers(d, es[0], peers) && Fed(DeskStep(d, es[0]), es[1..], peers))
  }

  ghost predicate AllInv(d: Desk, peers: nat -> Peer) {
    forall i :: 0 <= i < |d.all| ==> Inv(d.all[i].c, peers(i))
  }

  lemma StepKeepsAll(d: Desk, e: DeskEvent, peers: nat -> Peer)
    requires AllInv(d, peers) && CanStep(d, e) && FromPeers(d, e, peers)
    ensures AllInv(DeskStep(d, e), peers)
  {
    match e
    case Ask(port, isn, raw) => BegunInv(port, isn, raw, peers(|d.all|));
    case Segment(_, _, t) => StepKeeps(d.all[d.table[t.dstPort]].c, Arrives(t), peers(d.table[t.dstPort]));
    case Send(i) => StepKeeps(d.all[i].c, Proceed, peers(i));
    case Over(i) => StepKeeps(d.all[i].c, Finish, peers(i));
    case Stop =>
      forall i | 0 <= i < |d.all|
        ensures Inv(CutOff(d.all[i].c), peers(i))
      {
        StepKeeps(d.all[i].c, Cut, peers(i));
      }
    case Tick(_) =>
    case Expire(_) =>
  }

  lemma {:induction false} RunKeepsAll(d: Desk, es: seq<DeskEvent>, peers: nat -> Peer)
    requires AllInv(d, peers) && CanRun(d, es) && Fed(d, es, peers)
    ensures AllInv(After(d, es), peers)
    decreases |es|
  {
    if |es| > 0 {
      StepKeepsAll(d, es[0], peers);
      RunKeepsAll(DeskStep(d, es[0]), es[1..], peers);
    }
  }

  /** Over every run, shutdowns included: the bytes received on a connection are a prefix of
      the chip's response stream; after the handshake the expected number is exactly the one
      behind them and the FIN; and what the request would return is all of those bytes, if there
      are any and it was sent, and nothing otherwise. */
  lemma ResponseIsPrefix(es: seq<DeskEvent>, peers: nat -> Peer, i: nat)
    requires CanRun(IDLE, es) && Fed(IDLE, es, peers) && i < |After(IDLE, es).all|
    ensures var c := After(IDLE, es).all[i].c;
            && PrefixOf(c.rx, peers(i).stream) && c.finsIn <= 1
            && (c.chipIsn.Some? ==> c.chipSeq == Wrap(peers(i).isn + 1 + |c.rx| + c.finsIn))
            && Response(c) == (if c.requested && |c.rx| > 0 then Some(c.rx) else None)
  {
    RunKeepsAll(IDLE, es, peers);
  }

  // ---- Requests ----

  lemma EmissionsOnWire(c: Inbound, peer: Peer)
    requires Inv(c, peer)
    ensures OnWire(c.out) && Emitted(c.out, c.asked, c.finsOut, c.ourIsn + 1)
  {
    assert forall k :: 0 <= k < |c.out| ==> AckTrue(c.out[k], peer.isn, ChipNext(c));
  }

  lemma ConnReassembled(c: Inbound, peer: Peer)
    requires Inv(c, peer)
    ensures c.asked == (if c.requested then c.raw else [])
    ensures Rebuilds(c.out, c.ourIsn, c.asked) && Fins(c.out) == c.finsOut <= 1 && FinsBehind(c.out, c.ourIsn, c.asked)
  {
    EmissionsOnWire(c, peer);
    LogReassembled(c.out, c.asked, c.finsOut, c.ourIsn);
  }

  lemma LogReassembled(out: seq<C.Emission>, sent: bytes, fins: nat, isn: int)
    requires Emitted(out, sent, fins, isn + 1) && OnWire(out)
    ensures Rebuilds(out, isn, sent) && Fins(out) == fins && FinsBehind(out, isn, sent)
  {
    LogCarries(out, sent, fins, isn + 1);
    WholeLog(out, sent, fins, isn);
    WholeLogFins(out, sent, fins, isn);
  }

  /** Over every run, shutdowns included: a chip that reassembles the emissions of a
      connection holds exactly the request once it was sent, and nothing before; and a FIN,
      one at most, stands right behind it. */
  lemma RequestReassembled(es: seq<DeskEvent>, peers: nat -> Peer, i: nat)
    requires CanRun(IDLE, es) && Fed(IDLE, es, peers) && i < |After(IDLE, es).all|
    ensures var c := After(IDLE, es).all[i].c;
            && c.asked == (if c.requested then c.raw else [])
            && Rebuilds(c.out, c.ourIsn, c.asked)
            && Fins(c.out) == c.finsOut <= 1 && FinsBehind(c.out, c.ourIsn, c.asked)
  {
    RunKeepsAll(IDLE, es, peers);
    ConnReassembled(After(IDLE, es).all[i].c, peers(i));
  }

  /** However the link loses, repeats or reorders the emissions, the chip holds a prefix of
      the request. */
  lemma RequestUnderLoss(c: Inbound, peer: Peer, r: Receiver, order: seq<nat>)
    requires Inv(c, peer) && Indices(c.out, order) && Nearby(c.out, r, order)
    requires HoldsPrefix(r, c.ourIsn, c.asked)
    ensures HoldsPrefix(ReceiveAll(r, Picked(c.out, order)), c.ourIsn, c.asked)
  {
    EmissionsOnWire(c, peer);
    LossyLog(c.out, c.asked, c.finsOut, c.ourIsn, r, order);
  }
}
