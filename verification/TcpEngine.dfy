/** The NAT for chip-initiated TCP connections. A coroutine of the program appears here as
    the methods that run between its suspension points; each is tied to the step it takes
    on the value of the whole table. */
module TcpEngine {
  import opened Bytes
  import opened SeqArith
  import opened Packets
  import opened TcpOptions
  import opened ConnSpec
  import opened ConnRuns
  import opened NatTable

  class TcpConnection {
    const id: Identity
    var state: State
    var ourSeq: u32
    var chipSeq: u32
    var hostOpen: bool
    var pendingPayload: bytes
    var pendingEof: bool
    var pumpTask: Pump
    var pendingConnect: Dial

    // Control points of suspended coroutines, and what went to the outside.
    ghost var handler: Handler
    ghost var listed: bool
    ghost var sent: bytes
    ghost var eofs: nat
    ghost var got: bytes
    ghost var out: seq<Emission>
    ghost var finsIn: nat
    ghost var finsOut: nat
    ghost var ourNext: int
    ghost var chipNext: int

    ghost function View(): Conn
      reads this
    {
      Conn(id, state, ourSeq, chipSeq, hostOpen, pendingPayload, pendingEof, pumpTask, pendingConnect, handler, listed,
           sent, eofs, got, out, finsIn, finsOut, ourNext, chipNext)
    }

    /** In SYN_RCVD, with the SYN not answered yet and no pump. */
    constructor (id: Identity, deferred: bool)
      ensures View() == Opened(id, deferred).(out := [], pump := NotStarted)
    {
      this.id := id;
      state := SynRcvd;
      ourSeq := SeqAdd(id.ourIsn, 1);
      chipSeq := SeqAdd(id.chipIsn, 1);
      hostOpen := !deferred;
      pendingPayload := [];
      pendingEof := false;
      pumpTask := NotStarted;
      pendingConnect := if deferred then Dialling else NoDial;
      handler, listed, sent, eofs, got, out, finsIn, finsOut := Idle, true, [], 0, [], [], 0, 0;
      ourNext, chipNext := id.ourIsn + 1, id.chipIsn + 1;
    }
  }

  class TcpNat {
    var conns: map<Key, TcpConnection>
    var connecting: set<Key>

    /** Every connection ever in the table, in order, and what the frame handler is doing. */
    ghost var all: seq<TcpConnection>
    ghost var table: map<Key, nat>
    ghost var busy: Busy
    ghost var strays: seq<Stray>
    ghost var gate: bool

    ghost function View(): Nat
      reads this, all
    {
      Nat(seq(|all|, i requires 0 <= i < |all| reads this, all => all[i].View()), table, connecting, busy, strays, gate)
    }

    /** The dictionary and its shadow agree on distinct objects. Which table values can be
        reached, and what they satisfy, is a matter of the steps. */
    ghost predicate Valid()
      reads this
    {
      && (forall i, j :: 0 <= i < j < |all| ==> all[i] != all[j])
      && conns.Keys == table.Keys
      && (forall k :: k in conns ==> table[k] < |all| && conns[k] == all[table[k]])
    }

    constructor ()
      ensures Valid() && View() == EMPTY
    {
      conns, connecting := map[], {};
      all, table, busy, strays, gate := [], map[], Free, [], true;
    }

    // ---- Emission ----

    method Send(conn: TcpConnection, flags: u16, seqNo: u32, options: bytes, payload: bytes, ghost trueSeq: int)
      modifies conn`out
      ensures conn.out == old(conn.out)
                + [Emission(Segment(old(conn.View()), flags, seqNo, options, payload), trueSeq, conn.chipNext)]
    {
      var tcp := Tcp(conn.id.key.dstPort, conn.id.key.chipPort, seqNo, conn.chipSeq, 5, flags, TCP_WINDOW, 0, 0,
                     options, payload);
      conn.out := conn.out + [Emission(tcp, trueSeq, conn.chipNext)];
    }

    /** The next segment of the connection. */
    method Emit(conn: TcpConnection, flags: u16, payload: bytes)
      modifies conn`out
      ensures conn.View() == ConnSpec.Send(old(conn.View()), flags, payload)
    {
      Send(conn, flags, conn.ourSeq, [], payload, conn.ourNext);
    }

    method AckOnly(conn: TcpConnection)
      modifies conn`out
      ensures conn.View() == ConnSpec.AckOnly(old(conn.View()))
    {
      Emit(conn, TCP_ACK, []);
    }

    method SendRst(key: Key, tcp: Tcp)
      modifies this`strays
      ensures strays == old(strays) + [Stray(key, ResetFor(tcp))]
    {
      var seqNo := if HasAck(tcp) then tcp.ackNo else 0;
      var ackNo := SeqAdd(tcp.seqNo, if HasSyn(tcp) then 1 else |tcp.payload|);
      var rst := Tcp(tcp.dstPort, tcp.srcPort, seqNo, ackNo, 5, TCP_RST + TCP_ACK, 0, 0, 0, [], []);
      strays := strays + [Stray(key, rst)];
    }

    // ---- Teardown ----

    method SendReset(conn: TcpConnection)
      modifies conn`out
      ensures conn.View() == old(conn.View()).(out := old(conn.out) + [Emission(
                Segment(old(conn.View()), TCP_RST, conn.ourSeq, [], []).(window := 0), conn.ourNext, conn.chipNext)])
    {
      var rst := Tcp(conn.id.key.dstPort, conn.id.key.chipPort, conn.ourSeq, conn.chipSeq, 5, TCP_RST, 0, 0, 0, [], []);
      conn.out := conn.out + [Emission(rst, conn.ourNext, conn.chipNext)];
    }

    method CancelTasks(conn: TcpConnection)
      modifies conn`pumpTask, conn`pendingConnect
      ensures var c := old(conn.View());
              conn.View() == c.(pump := if c.pump == Running then Ended else c.pump,
                                dial := if c.dial == Dialling then Cancelled else c.dial)
    {
      if conn.pumpTask == Running { conn.pumpTask := Ended; }
      if conn.pendingConnect == Dialling { conn.pendingConnect := Cancelled; }
    }

    method Close(conn: TcpConnection, sendRst: bool)
      modifies this`conns, conn
      ensures conn.View() == ConnSpec.Close(old(conn.View()), sendRst)
      ensures conns == if old(conn.state) == Closed then old(conns) else old(conns) - {conn.id.key}
    {
      if conn.state == Closed { return; }
      conn.state := Closed;
      if sendRst { SendReset(conn); }
      CancelTasks(conn);
      conns := conns - {conn.id.key};
      conn.listed := false;
    }

    // ---- State handlers ----

    method OnHandshakeComplete(conn: TcpConnection, tcp: Tcp)
      modifies conn
      ensures conn.View() == OnHandshake(old(conn.View()), tcp)
    {
      if !HasAck(tcp) { return; }
      if tcp.ackNo != conn.ourSeq { return; }
      conn.state := Established;
      if |tcp.payload| > 0 { OnData(conn, tcp); }
    }

    /** Up to the suspension in `drain`, if it gets there. */
    method OnData(conn: TcpConnection, tcp: Tcp)
      modifies conn
      ensures conn.View() == ConnSpec.OnData(old(conn.View()), tcp)
    {
      if |tcp.payload| > 0 {
        if tcp.seqNo != conn.chipSeq {
          AckOnly(conn);
          return;
        }
        if conn.hostOpen {
          conn.sent := conn.sent + tcp.payload;
          conn.handler := Draining(tcp);
          return;
        }
        conn.pendingPayload := conn.pendingPayload + tcp.payload;
        CountPayload(conn, tcp);
      }
      OnFin(conn, tcp);
    }

    method CountPayload(conn: TcpConnection, tcp: Tcp)
      modifies conn
      ensures conn.View() == ConnSpec.AckOnly(AdvanceChip(old(conn.View()), |tcp.payload|))
    {
      conn.chipSeq := SeqAdd(conn.chipSeq, |tcp.payload|);
      conn.chipNext := conn.chipNext + |tcp.payload|;
      AckOnly(conn);
    }

    method CountFin(conn: TcpConnection)
      modifies conn
      ensures conn.View() == AdvanceChip(old(conn.View()), 1).(finsIn := old(conn.finsIn) + 1)
    {
      conn.chipSeq := SeqAdd(conn.chipSeq, 1);
      conn.chipNext := conn.chipNext + 1;
      conn.finsIn := conn.finsIn + 1;
    }

    method OnFin(conn: TcpConnection, tcp: Tcp)
      modifies conn
      ensures conn.View() == ConnSpec.OnFin(old(conn.View()), tcp)
    {
      if HasFin(tcp) {
        CountFin(conn);
        conn.state := CloseWait;
        if conn.hostOpen { conn.eofs := conn.eofs + 1; } else { conn.pendingEof := true; }
        AckOnly(conn);
      }
    }

    method OnFinWait1(conn: TcpConnection, tcp: Tcp)
      requires conn.state == FinWait1
      modifies this`conns, conn
      ensures conn.View() == ConnSpec.OnFinWait1(old(conn.View()), tcp)
      ensures conns == if old(conn.state) != Closed && conn.state == Closed
                       then old(conns) - {conn.id.key} else old(conns)
    {
      if HasAck(tcp) && tcp.ackNo == conn.ourSeq { conn.state := FinWait2; }
      OnFinWait2(conn, tcp);
    }

    method OnFinWait2(conn: TcpConnection, tcp: Tcp)
      modifies this`conns, conn
      ensures conn.View() == ConnSpec.OnFinWait2(old(conn.View()), tcp)
      ensures conns == if old(conn.state) != Closed && conn.state == Closed
                       then old(conns) - {conn.id.key} else old(conns)
    {
      if HasFin(tcp) {
        CountFin(conn);
        AckOnly(conn);
        Close(conn, false);
      }
    }

    /** A segment for a connection in the table. */
    method Dispatch(conn: TcpConnection, tcp: Tcp)
      modifies this`conns, conn
      ensures conn.View() == HandleSegment(old(conn.View()), tcp)
      ensures conns == if old(conn.state) != Closed && conn.state == Closed
                       then old(conns) - {conn.id.key} else old(conns)
    {
      if HasRst(tcp) {
        Close(conn, false);
        return;
      }
      match conn.state
      case SynRcvd => OnHandshakeComplete(conn, tcp);
      case Established => OnData(conn, tcp);
      case FinWait1 => OnFinWait1(conn, tcp);
      case FinWait2 => OnFinWait2(conn, tcp);
      case LastAck =>
        if HasAck(tcp) && SeqGeqOrEq(tcp.ackNo, SeqAdd(conn.ourSeq, 0)) { Close(conn, false); }
      case _ =>
    }

    // ---- The table as a whole ----

    /** Once connection `i` has taken its step and the dictionaries have been brought up to
        date, only the bookkeeping is left for the whole table to have taken it. */
    ghost method Settle(i: nat, e: Event, n: Nat)
      requires i < |all| == |n.conns| && table == n.table && busy == n.busy && strays == n.strays && gate == n.gate
      requires forall j :: 0 <= j < |all| && j != i ==> all[j].View() == n.conns[j]
      requires forall j, k :: 0 <= j < k < |all| ==> all[j] != all[k]
      requires connecting == Update(n, i, e, all[i].View()).connecting
      requires conns.Keys == Update(n, i, e, all[i].View()).table.Keys
      requires forall k :: k in conns ==> k in n.table && n.table[k] < |all| && conns[k] == all[n.table[k]]
      modifies this`table, this`busy
      ensures Valid() && View() == Update(n, i, e, all[i].View())
    {
      table := Update(n, i, e, all[i].View()).table;
      busy := Update(n, i, e, all[i].View()).busy;
      assert View().conns == n.conns[i := all[i].View()];
    }

    // ---- The frame handler ----

    /** Up to the grace wait for a SYN that starts a dial, or the `drain` of a delivery. */
    method HandleChipSegment(src: Ip4, dst: Ip4, tcp: Tcp, allowed: bool, isn: u32)
      requires Valid() && CanStep(View(), Frame(src, dst, tcp, allowed, isn))
      modifies this, all
      ensures Valid() && View() == NatStep(old(View()), Frame(src, dst, tcp, allowed, isn))
    {
      var key := KeyOf(src, dst, tcp);
      if key in conns {
        Deliver(key, tcp);
        return;
      }
      if HasRst(tcp) { return; }
      if HasSyn(tcp) && !HasAck(tcp) {
        if key in connecting { return; }
        OnPassiveSyn(key, tcp, allowed, isn);
      } else {
        SendRst(key, tcp);
      }
      assert View().conns == old(View().conns);
    }

    method Deliver(key: Key, tcp: Tcp)
      requires Valid() && busy == Free && key in conns && conns[key].View().id.key == key
      modifies this, all
      ensures Valid() && old(table[key] < |all|)
      ensures View() == Update(old(View()), old(table[key]), FromChip(tcp), HandleSegment(old(conns[key].View()), tcp))
    {
      ghost var n, i := View(), table[key];
      Dispatch(conns[key], tcp);
      Settle(i, FromChip(tcp), n);
    }

    method OnPassiveSyn(key: Key, tcp: Tcp, allowed: bool, isn: u32)
      modifies this`connecting, this`busy, this`strays
      ensures if allowed
              then connecting == old(connecting) + {key} && strays == old(strays)
                   && busy == Grace(Identity(key, tcp.seqNo, isn, NegotiatedMss(tcp.options)), tcp)
              else connecting == old(connecting) && busy == old(busy)
                   && strays == old(strays) + [Stray(key, ResetFor(tcp))]
    {
      var found := ParseTcpOptions(tcp.options);
      EnterMssInRange(Walk(tcp.options), map[]);
      var mss := if Mss in found then found[Mss].n else TCP_MSS;
      if mss > TCP_MSS { mss := TCP_MSS; }
      if !allowed {
        SendRst(key, tcp);
        return;
      }
      connecting := connecting + {key};
      busy := Grace(Identity(key, tcp.seqNo, isn, mss), tcp);
    }

    /** The rest of the SYN's handling, once the grace is over. */
    method GraceEnded(id: Identity, tcp: Tcp, outcome: Dialled)
      requires Valid() && busy == Grace(id, tcp)
      modifies this
      ensures Valid() && View() == NatStep(old(View()), GraceEnd(outcome))
    {
      busy := Free;
      if outcome != StillDialling { connecting := connecting - {id.key}; }
      if outcome == Refused {
        SendRst(id.key, tcp);
        assert View().conns == old(View().conns);
        return;
      }
      EnterTable(id, outcome == StillDialling);
    }

    method EnterTable(id: Identity, deferred: bool)
      requires Valid()
      modifies this
      ensures Valid() && connecting == old(connecting) && busy == old(busy)
      ensures strays == old(strays) && gate == old(gate)
      ensures table == old(table)[id.key := |old(all)|] && View().conns == old(View().conns) + [Opened(id, deferred)]
    {
      var conn := Answer(id, deferred);
      table := table[id.key := |all|];
      conns := conns[id.key := conn];
      all := all + [conn];
      assert View().conns == old(View().conns) + [conn.View()];
    }

    method Answer(id: Identity, deferred: bool) returns (conn: TcpConnection)
      ensures fresh(conn) && conn.View() == Opened(id, deferred)
    {
      conn := new TcpConnection(id, deferred);
      Send(conn, TCP_SYN + TCP_ACK, id.ourIsn, MssOption(id.mss), [], id.ourIsn);
      if conn.hostOpen { conn.pumpTask := Running; }
    }

    /** The rest of a delivery, once `drain` returned or raised. */
    method DeliveryResumed(ghost i: nat, conn: TcpConnection, tcp: Tcp, ok: bool)
      requires Valid() && i < |all| && all[i] == conn && CanStep(View(), OnConn(i, Drained(ok)))
      requires conn.handler == Draining(tcp)
      modifies this, conn
      ensures Valid() && View() == NatStep(old(View()), OnConn(i, Drained(ok)))
    {
      ghost var n := View();
      EndDelivery(conn, tcp, ok);
      Settle(i, Drained(ok), n);
    }

    method EndDelivery(conn: TcpConnection, tcp: Tcp, ok: bool)
      modifies this`conns, conn
      ensures var c := old(conn.View()).(handler := Idle);
              conn.View() == if ok then Delivered(c, tcp) else ConnSpec.Close(c, true)
      ensures conns == if !ok && old(conn.state) != Closed then old(conns) - {conn.id.key} else old(conns)
    {
      conn.handler := Idle;
      if ok {
        CountPayload(conn, tcp);
        OnFin(conn, tcp);
      } else {
        Close(conn, true);
      }
    }

    // ---- The deferred connect ----

    /** Up to the `drain` of the held bytes, if there are any. */
    method FinishDeferredConnect(ghost i: nat, conn: TcpConnection, reached: bool)
      requires Valid() && i < |all| && all[i] == conn && CanStep(View(), OnConn(i, Dialled(reached)))
      modifies this, conn
      ensures Valid() && View() == NatStep(old(View()), OnConn(i, Dialled(reached)))
    {
      ghost var n := View();
      connecting := connecting - {conn.id.key};
      AttachHost(conn, reached);
      Settle(i, Dialled(reached), n);
    }

    method AttachHost(conn: TcpConnection, reached: bool)
      modifies this`conns, conn
      ensures conn.View() == DialDone(old(conn.View()), reached)
      ensures conns == if old(conn.state) != Closed && conn.state == Closed
                       then old(conns) - {conn.id.key} else old(conns)
    {
      conn.pendingConnect := Over;
      if conn.state == Closed { return; }
      if !reached {
        Close(conn, true);
        return;
      }
      conn.hostOpen := true;
      if |conn.pendingPayload| > 0 {
        conn.sent := conn.sent + conn.pendingPayload;
        conn.pendingPayload := [];
        conn.pendingConnect := Flushing;
      } else {
        StartPump(conn);
      }
    }

    method StartPump(conn: TcpConnection)
      modifies conn
      ensures conn.View() == FlushDone(old(conn.View()), true)
    {
      conn.pendingConnect := Over;
      if conn.pendingEof {
        conn.pendingEof := false;
        conn.eofs := conn.eofs + 1;
      }
      conn.pumpTask := Running;
    }

    method FlushResumed(ghost i: nat, conn: TcpConnection, ok: bool)
      requires Valid() && i < |all| && all[i] == conn && CanStep(View(), OnConn(i, Flushed(ok)))
      modifies this, conn
      ensures Valid() && View() == NatStep(old(View()), OnConn(i, Flushed(ok)))
    {
      ghost var n := View();
      EndFlush(conn, ok);
      Settle(i, Flushed(ok), n);
    }

    method EndFlush(conn: TcpConnection, ok: bool)
      modifies this`conns, conn
      ensures conn.View() == FlushDone(old(conn.View()), ok)
      ensures conns == if !ok && old(conn.state) != Closed then old(conns) - {conn.id.key} else old(conns)
    {
      if ok {
        StartPump(conn);
      } else {
        conn.pendingConnect := Over;
        Close(conn, true);
      }
    }

    method DialCancelled(ghost i: nat, conn: TcpConnection)
      requires Valid() && i < |all| && all[i] == conn && CanStep(View(), OnConn(i, CancelSeen))
      modifies this, conn
      ensures Valid() && View() == NatStep(old(View()), OnConn(i, CancelSeen))
    {
      ghost var n := View();
      connecting := connecting - {conn.id.key};
      conn.pendingConnect := Over;
      Settle(i, CancelSeen, n);
    }

    // ---- Host to chip ----

    /** A chunk read from the host, segmented to the chip. */
    method PumpChunk(ghost i: nat, conn: TcpConnection, data: bytes)
      requires Valid() && i < |all| && all[i] == conn && CanStep(View(), OnConn(i, Chunk(data)))
      modifies this, conn
      ensures Valid() && View() == NatStep(old(View()), OnConn(i, Chunk(data)))
    {
      ghost var n := View();
      SendChunkFrame(conn.View(), data);
      EmitChunk(conn, data);
      Settle(i, Chunk(data), n);
    }

    method EmitChunk(conn: TcpConnection, data: bytes)
      requires conn.id.mss > 0
      modifies conn
      ensures conn.View() == SendChunk(old(conn.View()), data)
    {
      var chunk := data;
      while |chunk| > 0
        invariant SendChunk(conn.View(), chunk) == SendChunk(old(conn.View()), data)
        decreases |chunk|
      {
        EmitPiece(conn, Slice(chunk, 0, conn.id.mss));
        chunk := Slice(chunk, conn.id.mss, |chunk|);
      }
    }

    method EmitPiece(conn: TcpConnection, piece: bytes)
      modifies conn
      ensures conn.View() == SendPiece(old(conn.View()), piece)
    {
      Emit(conn, TCP_ACK + TCP_PSH, piece);
      conn.ourSeq := SeqAdd(conn.ourSeq, |piece|);
      conn.ourNext := conn.ourNext + |piece|;
      conn.got := conn.got + piece;
    }

    /** After the read loop: at the host's end-of-file, or with the connection closed. */
    method PumpEnded(ghost i: nat, conn: TcpConnection, ghost e: Event)
      requires e == HostEof || e == PumpExit
      requires Valid() && i < |all| && all[i] == conn && CanStep(View(), OnConn(i, e))
      modifies this, conn
      ensures Valid() && View() == NatStep(old(View()), OnConn(i, e))
    {
      ghost var n := View();
      EndOfHost(conn);
      Settle(i, e, n);
    }

    method EndOfHost(conn: TcpConnection)
      modifies conn
      ensures conn.View() == HostEnded(old(conn.View()))
    {
      conn.pumpTask := Ended;
      if conn.state == Established {
        conn.state := FinWait1;
        EmitFin(conn);
      } else if conn.state == CloseWait {
        conn.state := LastAck;
        EmitFin(conn);
      }
    }

    method EmitFin(conn: TcpConnection)
      modifies conn
      ensures conn.View() == SendFin(old(conn.View()))
    {
      Emit(conn, TCP_ACK + TCP_FIN, []);
      conn.ourSeq := SeqAdd(conn.ourSeq, 1);
      conn.ourNext := conn.ourNext + 1;
      conn.finsOut := conn.finsOut + 1;
    }

    method PumpCrashed(ghost i: nat, conn: TcpConnection)
      requires Valid() && i < |all| && all[i] == conn && CanStep(View(), OnConn(i, ReadFailed))
      modifies this, conn
      ensures Valid() && View() == NatStep(old(View()), OnConn(i, ReadFailed))
    {
      ghost var n := View();
      Close(conn, true);
      Settle(i, ReadFailed, n);
    }

    // ---- Shutdown ----

    /** Shutting the table `n` down to `shut`, with the connections under `left` still to
        close. */
    ghost predicate Closing(n: Nat, shut: seq<Conn>, left: set<Key>)
      reads this, all
    {
      && (forall i, j :: 0 <= i < j < |all| ==> all[i] != all[j])
      && conns.Keys == table.Keys == left <= n.table.Keys
      && connecting == n.connecting && busy == n.busy && strays == n.strays && gate == n.gate
      && (forall k :: k in conns ==> table[k] == n.table[k] < |all| && conns[k] == all[n.table[k]])
      && HalfShut(n.conns, View().conns, shut, left)
    }

    /** Closes the connection under `key`, which is number `i`, and no other. */
    method CloseEntry(key: Key, ghost i: nat)
      requires key in conns && i < |all| && conns[key] == all[i] && all[i].id.key == key && all[i].state != Closed
      requires forall j, k :: 0 <= j < k < |all| ==> all[j] != all[k]
      modifies this`conns, this`table, conns[key]
      ensures conns == old(conns) - {key} && table == old(table) - {key}
      ensures View().conns == old(View().conns)[i := ConnSpec.Close(old(View().conns[i]), true)]
    {
      Close(conns[key], true);
      table := table - {key};
    }

    method CloseNext(key: Key, ghost n: Nat, ghost shut: seq<Conn>, ghost left: set<Key>)
      requires Closing(n, shut, left) && key in left && OnlyEntry(key, n, shut, n.table[key])
      modifies this, all
      ensures all == old(all) && Closing(n, shut, left - {key})
    {
      ghost var i := n.table[key];
      assert View().conns[i] == n.conns[i];
      CloseEntry(key, i);
      OneMoreShut(n, old(View().conns), shut, left, key, i);
    }

    method Shutdown()
      requires Valid() && TableAgrees(View()) && AllTasks(View())
      modifies this, all
      ensures Valid() && View() == NatStep(old(View()), ShutdownAll)
    {
      ghost var n := View();
      ghost var shut := ShutDown(n);
      CloseAll(n, shut);
      AllShut(n.conns, View().conns, shut);
      gate := false;
      assert View().conns == shut;
    }

    method CloseAll(ghost n: Nat, ghost shut: seq<Conn>)
      requires Closing(n, shut, conns.Keys)
      requires forall k :: k in n.table ==> OnlyEntry(k, n, shut, n.table[k])
      modifies this, all
      ensures all == old(all) && Closing(n, shut, {})
    {
      var left := conns.Keys;
      while left != {}
        invariant all == old(all) && Closing(n, shut, left)
        decreases left
      {
        var key :| key in left;
        CloseNext(key, n, shut, left);
        left := left - {key};
      }
    }
  }

  /** The connections `now` are those of `was` under the keys `left`, the rest shut. */
  ghost predicate HalfShut(was: seq<Conn>, now: seq<Conn>, shut: seq<Conn>, left: set<Key>) {
    && |now| == |was| == |shut|
    && forall i :: 0 <= i < |was| ==> now[i] == if was[i].listed && was[i].id.key in left then was[i] else shut[i]
  }

  lemma AllShut(was: seq<Conn>, now: seq<Conn>, shut: seq<Conn>)
    requires HalfShut(was, now, shut, {})
    ensures now == shut
  {
  }

  lemma OneMoreShut(n: Nat, now: seq<Conn>, shut: seq<Conn>, left: set<Key>, key: Key, i: nat)
    requires HalfShut(n.conns, now, shut, left) && key in left && OnlyEntry(key, n, shut, i)
    ensures HalfShut(n.conns, now[i := shut[i]], shut, left - {key})
  {
  }

  /** The entry under `key` is the only connection of that key still to close. */
  ghost predicate OnlyEntry(key: Key, n: Nat, shut: seq<Conn>, i: nat) {
    && i < |n.conns| == |shut| && n.conns[i].state != Closed && shut[i] == ConnSpec.Close(n.conns[i], true)
    && n.conns[i].listed && n.conns[i].id.key == key
    && forall j :: 0 <= j < |n.conns| && n.conns[j].listed && n.conns[j].id.key == key ==> j == i
  }

  /** What shutting down makes of the connections. */
  lemma ShutDown(n: Nat) returns (shut: seq<Conn>)
    requires TableAgrees(n) && AllTasks(n)
    ensures n.(conns := shut, table := map[], gate := false) == NatStep(n, ShutdownAll)
    ensures HalfShut(n.conns, n.conns, shut, n.table.Keys)
    ensures forall k :: k in n.table ==> OnlyEntry(k, n, shut, n.table[k])
  {
    shut := NatStep(n, ShutdownAll).conns;
    forall k | k in n.table
      ensures OnlyEntry(k, n, shut, n.table[k])
    {
      assert Tasks(n.conns[n.table[k]]);
    }
  }
}
