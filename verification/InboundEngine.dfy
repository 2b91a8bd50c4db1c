/** The client that opens connections into the chip. A coroutine of the program appears as
    the methods that run between its suspension points; each is tied to the step it takes
    on the value of the whole table. */
module InboundEngine {
  import opened Bytes
  import opened SeqArith
  import opened Packets
  import opened InboundSpec
  import opened InboundTable
  import C = ConnSpec

  class InboundConn {
    const ourPort: u16
    const ourIsn: u32
    const raw: bytes
    var state: State
    var ourSeq: u32
    var chipSeq: u32
    var rx: bytes
    var established: bool
    var finished: bool
    var dataEvent: bool
    var reset: bool

    ghost var requested: bool
    ghost var chipIsn: Option<u32>
    ghost var asked: bytes
    ghost var finsIn: nat
    ghost var finsOut: nat
    ghost var ourNext: int
    ghost var out: seq<C.Emission>
    ghost var status: Status

    ghost function Listed(): Entry
      reads this
    {
      Entry(View(), status)
    }

    ghost function View(): Inbound
      reads this
    {
      Inbound(ourPort, ourIsn, raw, state, ourSeq, chipSeq, rx, established, finished, dataEvent, reset, requested,
              chipIsn, asked, finsIn, finsOut, ourNext, out)
    }

    constructor (port: u16, isn: u32, raw: bytes)
      ensures Listed() == Entry(Begun(port, isn, raw).(out := []), Active)
    {
      ourPort, ourIsn, this.raw := port, isn, raw;
      state, ourSeq, chipSeq, rx := SynSent, SeqAdd(isn, 1), 0, [];
      established, finished, dataEvent, reset := false, false, false, false;
      requested, chipIsn, asked, finsIn, finsOut, ourNext, out := false, None, [], 0, 0, isn + 1, [];
      status := Active;
    }
  }

  class TcpInbound {
    var conns: map<u16, InboundConn>

    /** Every connection ever opened, and the clock. */
    ghost var all: seq<InboundConn>
    ghost var table: map<u16, nat>
    ghost var now: real

    ghost function View(): Desk
      reads this, all
    {
      Desk(seq(|all|, i requires 0 <= i < |all| reads this, all => all[i].Listed()), table, now)
    }

    ghost predicate Valid()
      reads this
    {
      && (forall i, j :: 0 <= i < j < |all| ==> all[i] != all[j])
      && conns.Keys == table.Keys
      && (forall p :: p in conns ==> table[p] < |all| && conns[p] == all[table[p]])
    }

    constructor ()
      ensures Valid() && View() == IDLE
    {
      conns := map[];
      all, table, now := [], map[], 0.0;
    }

    predicate Claims(src: Ip4, dst: Ip4, tcp: Tcp)
      reads this
    {
      tcp.dstPort in conns && tcp.srcPort == SERVER_PORT && src == STA_IP && dst == GATEWAY_IP
    }

    /** The dictionary test is the table's. */
    lemma ClaimsIsMatches(src: Ip4, dst: Ip4, tcp: Tcp)
      requires Valid()
      ensures Claims(src, dst, tcp) <==> Matches(View(), src, dst, tcp)
    {
    }

    // ---- Emission ----

    method Send(conn: InboundConn, flags: u16, seqNo: u32, options: bytes, payload: bytes, ghost trueSeq: int)
      modifies conn`out
      ensures var c := old(conn.View());
              conn.out == c.out + [C.Emission(
                InboundSpec.Segment(c, flags, seqNo, options, payload), trueSeq, ChipNext(c))]
    {
      var tcp := Tcp(conn.ourPort, SERVER_PORT, seqNo, conn.chipSeq, 5, flags, InboundSpec.TCP_WINDOW, 0, 0,
                     options, payload);
      conn.out := conn.out + [C.Emission(tcp, trueSeq, ChipNext(conn.View()))];
    }

    /** The next segment of the connection. */
    method Emit(conn: InboundConn, flags: u16, payload: bytes)
      modifies conn`out
      ensures conn.View() == InboundSpec.Send(old(conn.View()), flags, payload)
    {
      Send(conn, flags, conn.ourSeq, [], payload, conn.ourNext);
    }

    method Ack(conn: InboundConn)
      modifies conn`out
      ensures conn.View() == InboundSpec.Send(old(conn.View()), TCP_ACK, [])
    {
      Emit(conn, TCP_ACK, []);
    }

    // ---- Segments from the chip's server ----

    method OnConnSegment(conn: InboundConn, tcp: Tcp)
      modifies conn
      ensures conn.View() == OnSegment(old(conn.View()), tcp) && conn.status == old(conn.status)
    {
      if HasRst(tcp) {
        conn.reset := true;
        conn.state := Closed;
        conn.established := true;
        conn.finished := true;
        return;
      }
      if conn.state == SynSent {
        if HasSyn(tcp) && HasAck(tcp) { Handshake(conn, tcp); }
        return;
      }
      if conn.state != Established {
        if |tcp.payload| > 0 || HasFin(tcp) || HasSyn(tcp) { Ack(conn); }
        return;
      }
      OnData(conn, tcp);
    }

    method OnData(conn: InboundConn, tcp: Tcp)
      requires conn.state == Established && !HasRst(tcp)
      modifies conn
      ensures conn.View() == OnSegment(old(conn.View()), tcp) && conn.status == old(conn.status)
    {
      if |tcp.payload| > 0 {
        if tcp.seqNo != conn.chipSeq {
          Ack(conn);
          return;
        }
        Take(conn, tcp);
      }
      if HasFin(tcp) { Finish(conn); }
    }

    method Handshake(conn: InboundConn, tcp: Tcp)
      modifies conn
      ensures var c := old(conn.View()).(chipSeq := SeqAdd(tcp.seqNo, 1), chipIsn := Some(tcp.seqNo),
                                         state := Established);
              conn.View() == InboundSpec.Send(c, TCP_ACK, []).(established := true)
      ensures conn.status == old(conn.status)
    {
      conn.chipSeq := SeqAdd(tcp.seqNo, 1);
      conn.chipIsn := Some(tcp.seqNo);
      conn.state := Established;
      Ack(conn);
      conn.established := true;
    }

    method Take(conn: InboundConn, tcp: Tcp)
      modifies conn
      ensures conn.View() == Taken(old(conn.View()), tcp) && conn.status == old(conn.status)
    {
      conn.rx := conn.rx + tcp.payload;
      conn.chipSeq := SeqAdd(conn.chipSeq, |tcp.payload|);
      Ack(conn);
      conn.dataEvent := true;
    }

    method Finish(conn: InboundConn)
      modifies conn
      ensures var c := old(conn.View());
              var d := c.(chipSeq := SeqAdd(c.chipSeq, 1), finsIn := c.finsIn + 1);
              conn.View() == SendFin(InboundSpec.Send(d, TCP_ACK, []))
      ensures conn.status == old(conn.status)
    {
      conn.chipSeq := SeqAdd(conn.chipSeq, 1);
      conn.finsIn := conn.finsIn + 1;
      Ack(conn);
      EmitFin(conn);
    }

    method EmitFin(conn: InboundConn)
      modifies conn
      ensures conn.View() == SendFin(old(conn.View())) && conn.status == old(conn.status)
    {
      Emit(conn, TCP_FIN + TCP_ACK, []);
      CountFin(conn);
      conn.state := Closed;
      conn.finished := true;
    }

    method CountFin(conn: InboundConn)
      modifies conn
      ensures var c := old(conn.View());
              conn.View() == c.(ourSeq := SeqAdd(c.ourSeq, 1), ourNext := c.ourNext + 1, finsOut := c.finsOut + 1)
      ensures conn.status == old(conn.status)
    {
      conn.ourSeq := SeqAdd(conn.ourSeq, 1);
      conn.ourNext := conn.ourNext + 1;
      conn.finsOut := conn.finsOut + 1;
    }

    method HandleChipSegment(src: Ip4, dst: Ip4, tcp: Tcp)
      requires Valid() && CanStep(View(), DeskEvent.Segment(src, dst, tcp))
      modifies this, all
      ensures Valid() && View() == DeskStep(old(View()), DeskEvent.Segment(src, dst, tcp))
    {
      if tcp.dstPort !in conns { return; }
      ghost var d := View();
      OnConnSegment(conns[tcp.dstPort], tcp);
      assert View().all == DeskStep(d, DeskEvent.Segment(src, dst, tcp)).all;
    }

    // ---- A request ----

    /** The port is one of 64 random draws or the first free one; none only when every
        ephemeral port is taken. */
    method AllocPort(draws: seq<u16>) returns (port: Option<u16>)
      requires |draws| == 64 && forall k :: 0 <= k < |draws| ==> draws[k] >= FIRST_PORT
      ensures port.Some? ==> port.value >= FIRST_PORT && port.value !in conns
      ensures port.None? <==> forall p: u16 :: p >= FIRST_PORT ==> p in conns
    {
      for k := 0 to 64 {
        if draws[k] !in conns { return Some(draws[k]); }
      }
      for p := FIRST_PORT as int to 0x1_0000
        invariant forall q: u16 :: FIRST_PORT <= q < p ==> q in conns
      {
        if p !in conns { return Some(p); }
      }
      port := None;
    }

    /** Up to the wait for the handshake. */
    method BeginRequest(port: u16, isn: u32, raw: bytes) returns (conn: InboundConn)
      requires Valid() && CanStep(View(), Ask(port, isn, raw))
      modifies this
      ensures Valid() && View() == DeskStep(old(View()), Ask(port, isn, raw))
      ensures fresh(conn) && all == old(all) + [conn]
    {
      conn := Open(port, isn, raw);
      table := table[port := |all|];
      conns := conns[port := conn];
      all := all + [conn];
      assert View().all == old(View().all) + [conn.Listed()];
    }

    method Open(port: u16, isn: u32, raw: bytes) returns (conn: InboundConn)
      ensures fresh(conn) && conn.Listed() == Entry(Begun(port, isn, raw), Active)
    {
      conn := new InboundConn(port, isn, raw);
      Send(conn, TCP_SYN, isn, [2, 4] + Pack16(InboundSpec.TCP_MSS), [], isn);
    }

    /** Established: the request goes out. */
    method SendRaw(ghost i: nat, conn: InboundConn)
      requires Valid() && i < |all| && all[i] == conn && CanStep(View(), DeskEvent.Send(i))
      modifies this, conn
      ensures Valid() && View() == DeskStep(old(View()), DeskEvent.Send(i))
    {
      ghost var d := View();
      EmitRaw(conn);
      assert View().all == DeskStep(d, DeskEvent.Send(i)).all;
    }

    method EmitRaw(conn: InboundConn)
      modifies conn
      ensures conn.View() == SendRequest(old(conn.View())) && conn.status == old(conn.status)
    {
      Emit(conn, TCP_PSH + TCP_ACK, conn.raw);
      conn.ourSeq := SeqAdd(conn.ourSeq, |conn.raw|);
      conn.ourNext := conn.ourNext + |conn.raw|;
      conn.requested := true;
      conn.asked := conn.raw;
    }

    /** The end of the request, however it comes about: `sent` tells whether it got past the
        handshake, and the removal is left to the timer. */
    method EndRequest(ghost i: nat, conn: InboundConn, sent: bool) returns (response: Option<bytes>)
      requires Valid() && i < |all| && all[i] == conn && CanStep(View(), Over(i)) && sent == conn.requested
      modifies this, conn
      ensures Valid() && View() == DeskStep(old(View()), Over(i))
      ensures response == Response(View().all[i].c)
      ensures response == if conn.requested && conn.rx != [] then Some(conn.rx) else None
    {
      ghost var d := View();
      response := if sent && |conn.rx| > 0 then Some(conn.rx) else None;
      conn.state := Closed;
      conn.status := Lingering(now);
      assert View().all == DeskStep(d, Over(i)).all;
    }

    /** The timer set when the request on `port` ended. */
    method RemovePort(ghost i: nat, ghost conn: InboundConn, port: u16)
      requires Valid() && i < |all| && all[i] == conn && conn.ourPort == port && CanStep(View(), Expire(i))
      modifies this, conn`status
      ensures Valid() && View() == DeskStep(old(View()), Expire(i))
    {
      ghost var d := View();
      conns := conns - {port};
      table := table - {port};
      conn.status := Gone(conn.status.ended, now);
      assert View().all == DeskStep(d, Expire(i)).all;
    }

    // ---- Shutdown ----

    /** Shutting `d` down to `stopped`, with the connections under `left` still to mark. */
    ghost predicate Marking(d: Desk, stopped: seq<Entry>, left: set<u16>)
      reads this, all
    {
      table == d.table && now == d.now && left <= table.Keys && HalfMarked(d, View().all, stopped, left)
    }

    method MarkConn(conn: InboundConn)
      modifies conn
      ensures conn.Listed() == old(conn.Listed()).(c := CutOff(old(conn.View())))
    {
      conn.reset := true;
      conn.finished := true;
      conn.established := true;
    }

    method Mark(port: u16, ghost d: Desk, ghost stopped: seq<Entry>, ghost left: set<u16>)
      requires Valid() && Marking(d, stopped, left) && port in left && Marked(d, stopped, port)
      modifies all
      ensures Marking(d, stopped, left - {port})
    {
      ghost var i, was := d.table[port], View().all;
      assert was[i] == d.all[i];
      MarkConn(conns[port]);
      assert View().all == was[i := stopped[i]];
    }

    method Shutdown()
      requires Valid() && Keyed(View())
      modifies this, all
      ensures Valid() && View() == DeskStep(old(View()), Stop)
    {
      ghost var d := View();
      ghost var stopped := StopMarks(d);
      MarkAll(d, stopped);
      AllMarked(d, View().all, stopped);
      conns, table := map[], map[];
      assert View().all == stopped;
    }

    method MarkAll(ghost d: Desk, ghost stopped: seq<Entry>)
      requires Valid() && Marking(d, stopped, conns.Keys)
      requires forall p :: p in table ==> Marked(d, stopped, p)
      modifies all
      ensures Marking(d, stopped, {})
    {
      var left := conns.Keys;
      while left != {}
        invariant left <= conns.Keys && Marking(d, stopped, left)
        decreases left
      {
        var port :| port in left;
        Mark(port, d, stopped, left);
        left := left - {port};
      }
    }
  }

  /** The entries `now` are those of `d` at the ports `left`, the rest stopped. */
  ghost predicate HalfMarked(d: Desk, now: seq<Entry>, stopped: seq<Entry>, left: set<u16>) {
    && |now| == |d.all| == |stopped|
    && forall i :: 0 <= i < |d.all| ==>
         var p := d.all[i].c.ourPort;
         now[i] == if p in left && p in d.table && d.table[p] == i then d.all[i] else stopped[i]
  }

  lemma AllMarked(d: Desk, now: seq<Entry>, stopped: seq<Entry>)
    requires HalfMarked(d, now, stopped, {})
    ensures now == stopped
  {
  }

  /** The entry under `port` is that port's, and `stopped` marks it. */
  ghost predicate Marked(d: Desk, stopped: seq<Entry>, port: u16) {
    && |stopped| == |d.all| && port in d.table && d.table[port] < |d.all|
    && var e := d.all[d.table[port]]; e.c.ourPort == port && stopped[d.table[port]] == e.(c := CutOff(e.c))
  }

  /** What shutting down makes of the connections. */
  lemma StopMarks(d: Desk) returns (stopped: seq<Entry>)
    requires Keyed(d)
    ensures Desk(stopped, map[], d.now) == DeskStep(d, Stop)
    ensures forall p :: p in d.table ==> Marked(d, stopped, p)
    ensures HalfMarked(d, d.all, stopped, d.table.Keys)
  {
    stopped := DeskStep(d, Stop).all;
  }
}
