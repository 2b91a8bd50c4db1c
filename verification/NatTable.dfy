/** The table of chip-initiated connections as a step machine: which segment reaches which
    connection, when a dial starts, and when a connection leaves the table. Frames from the
    chip are handled one at a time; every other task may run between the suspension points
    of the frame being handled. */
module NatTable {
  import opened Bytes
  import opened SeqArith
  import opened Packets
  import opened TcpOptions
  import opened ConnSpec
  import opened ConnRuns
  import opened ConnShape
  import opened ConnReset

  /** What the frame handler is doing: nothing, waiting out the grace after a SYN whose dial
      it started, or suspended in the delivery of a segment to connection `i`. */
  datatype Busy = Free | Grace(id: Identity, syn: Tcp) | Handling(i: nat)

  /** A reset sent for a segment that belongs to no connection. */
  datatype Stray = Stray(key: Key, seg: Tcp)

  /** `conns` lists every connection ever put in the table, in order; the table refers to
      them by position. Shutdown closes the `gate`: the bridge lets no frame through after
      it. */
  datatype Nat = Nat(conns: seq<Conn>, table: map<Key, nat>, connecting: set<Key>, busy: Busy, strays: seq<Stray>,
                     gate: bool)

  const EMPTY := Nat([], map[], {}, Free, [], true)

  /** How the dial stands when the grace is over. */
  datatype Dialled = Connected | Refused | StillDialling

  /** `Frame` is a TCP segment from the chip, with the verdict of the egress guard on its
      destination and the initial sequence number drawn should it open a connection. */
  datatype NatEvent =
    | Frame(src: Ip4, dst: Ip4, t: Tcp, allowed: bool, isn: u32)
    | GraceEnd(outcome: Dialled)
    | OnConn(i: nat, e: Event)
    | ShutdownAll

  function KeyOf(src: Ip4, dst: Ip4, t: Tcp): Key { Key(src, t.srcPort, dst, t.dstPort) }

  predicate Opens(t: Tcp) { HasSyn(t) && !HasAck(t) }

  function ResetFor(t: Tcp): Tcp {
    Tcp(t.dstPort, t.srcPort, if HasAck(t) then t.ackNo else 0,
        SeqAdd(t.seqNo, if HasSyn(t) then 1 else |t.payload|), 5, TCP_RST + TCP_ACK, 0, 0, 0, [], [])
  }

  function WithStray(n: Nat, key: Key, t: Tcp): Nat { n.(strays := n.strays + [Stray(key, ResetFor(t))]) }

  // ---- Steps ----

  /** The answered connection `c` enters the table; its dial is over unless deferred. */
  function Enter(n: Nat, c: Conn, deferred: bool): Nat {
    Nat(n.conns + [c], n.table[c.id.key := |n.conns|],
        if deferred then n.connecting else n.connecting - {c.id.key}, Free, n.strays, n.gate)
  }

  /** Connection `i` took a step with event `e` and is now `d`. */
  function Update(n: Nat, i: nat, e: Event, d: Conn): Nat
    requires i < |n.conns|
  {
    var c := n.conns[i];
    n.(conns := n.conns[i := d],
       table := if c.state != Closed && d.state == Closed then n.table - {c.id.key} else n.table,
       connecting := if e.Dialled? || e.CancelSeen? then n.connecting - {c.id.key} else n.connecting,
       busy := if d.handler.Draining? then Handling(i) else if e.Drained? then Free else n.busy)
  }

  function Shut(c: Conn): Conn { if c.listed then Close(c, true) else c }

  predicate CanStep(n: Nat, ev: NatEvent) {
    match ev
    case Frame(src, dst, t, _, _) =>
      && n.gate && n.busy == Free
      && (KeyOf(src, dst, t) in n.table ==>
            var i := n.table[KeyOf(src, dst, t)];
            i < |n.conns| && n.conns[i].id.key == KeyOf(src, dst, t) && Enabled(n.conns[i], FromChip(t)))
    case GraceEnd(_) => n.busy.Grace?
    case OnConn(i, e) => i < |n.conns| && !e.FromChip? && !e.Shutdown? && Enabled(n.conns[i], e)
    case ShutdownAll => true
  }

  function NatStep(n: Nat, ev: NatEvent): Nat
    requires CanStep(n, ev)
  {
    match ev
    case Frame(src, dst, t, allowed, isn) => FrameStep(n, KeyOf(src, dst, t), t, allowed, isn)
    case GraceEnd(outcome) =>
      var key := n.busy.id.key;
      (match outcome
       case Connected => Enter(n, Opened(n.busy.id, false), false)
       case Refused => WithStray(n.(connecting := n.connecting - {key}, busy := Free), key, n.busy.syn)
       case StillDialling => Enter(n, Opened(n.busy.id, true), true))
    case OnConn(i, e) => Update(n, i, e, Step(n.conns[i], e))
    case ShutdownAll =>
      n.(conns := seq(|n.conns|, i requires 0 <= i < |n.conns| => Shut(n.conns[i])), table := map[], gate := false)
  }

  function FrameStep(n: Nat, key: Key, t: Tcp, allowed: bool, isn: u32): Nat
    requires n.busy == Free
    requires key in n.table ==> n.table[key] < |n.conns| && Enabled(n.conns[n.table[key]], FromChip(t))
  {
    if key in n.table then Update(n, n.table[key], FromChip(t), HandleSegment(n.conns[n.table[key]], t))
    else if HasRst(t) then n
    else if Opens(t) then
      if key in n.connecting then n
      else if !allowed then WithStray(n, key, t)
      else n.(connecting := n.connecting + {key},
              busy := Grace(Identity(key, t.seqNo, isn, NegotiatedMss(t.options)), t))
    else WithStray(n, key, t)
  }

  // ---- The invariant ----

  predicate InFlight(c: Conn) { c.dial == Dialling || c.dial == Cancelled }

  /** In the table, or its dial not yet over. */
  predicate Live(c: Conn) { c.listed || InFlight(c) }

  ghost predicate TableAgrees(n: Nat) {
    && (forall k :: k in n.table ==>
          n.table[k] < |n.conns| && n.conns[n.table[k]].id.key == k && n.conns[n.table[k]].listed)
    && (forall i :: 0 <= i < |n.conns| && n.conns[i].listed ==>
          n.conns[i].id.key in n.table && n.table[n.conns[i].id.key] == i)
  }

  ghost predicate DialsAgree(n: Nat) {
    && (forall i :: 0 <= i < |n.conns| && InFlight(n.conns[i]) ==> n.conns[i].id.key in n.connecting)
    && (forall k :: k in n.connecting ==>
          (n.busy.Grace? && n.busy.id.key == k)
          || exists i :: 0 <= i < |n.conns| && InFlight(n.conns[i]) && n.conns[i].id.key == k)
    && (n.busy.Grace? ==>
          && n.busy.id.key in n.connecting && n.busy.id.key !in n.table && n.busy.id.mss <= TCP_MSS
          && forall i :: 0 <= i < |n.conns| && Live(n.conns[i]) ==> n.conns[i].id.key != n.busy.id.key)
  }

  ghost predicate OneLive(n: Nat) {
    forall i, j :: 0 <= i < j < |n.conns| && Live(n.conns[i]) && Live(n.conns[j]) ==>
      n.conns[i].id.key != n.conns[j].id.key
  }

  ghost predicate Sequential(n: Nat) {
    forall i :: 0 <= i < |n.conns| ==> (n.conns[i].handler.Draining? <==> n.busy == Handling(i))
  }

  /** Only a shutdown in the middle of a delivery makes a connection loose, and then the
      table is empty for good. */
  ghost predicate LooseOnlyAfter(n: Nat) {
    forall i :: 0 <= i < |n.conns| && Loose(n.conns[i]) ==> !n.gate && n.table == map[] && !n.busy.Grace?
  }

  ghost predicate AllTasks(n: Nat) { forall i :: 0 <= i < |n.conns| ==> Tasks(n.conns[i]) }

  ghost predicate NatInv(n: Nat) {
    TableAgrees(n) && DialsAgree(n) && OneLive(n) && Sequential(n) && AllTasks(n) && LooseOnlyAfter(n)
  }

  /** The invariant, behind a mark, so that proofs that only pass it on are not drawn in. */
  ghost predicate Sound(n: Nat) { forall mark: nat {:trigger Inside(mark)} :: NatInv(n) }

  lemma SoundIs(n: Nat)
    ensures Sound(n) <==> NatInv(n)
  {
    if Sound(n) { assert Inside(0); }
  }

  // ---- Steps keep it ----

  /** All that the table sees of a connection's step from `c` to `d`. */
  predicate Effects(c: Conn, e: Event, d: Conn) {
    && d.id == c.id && (d.listed ==> c.listed)
    && (c.listed ==> (!d.listed <==> c.state != Closed && d.state == Closed))
    && (!c.listed && c.state != Closed && d.state == Closed ==> Loose(c)) && (Loose(d) ==> Loose(c))
    && (InFlight(d) <==> InFlight(c) && !e.Dialled? && !e.CancelSeen?)
    && ((e.Dialled? || e.CancelSeen?) ==> InFlight(c))
    && (if e.FromChip? then c.handler == Idle && c.listed
        else if e.Drained? then c.handler.Draining? && d.handler == Idle else d.handler == c.handler)
  }

  lemma CloseEffects(c: Conn, t: Tcp)
    requires Tasks(c) && Enabled(c, FromChip(t))
    ensures Effects(c, FromChip(t), Close(c, false))
  {
  }

  lemma OnDataEffects(c: Conn, t: Tcp)
    requires Tasks(c) && Enabled(c, FromChip(t)) && c.state == Established
    ensures Effects(c, FromChip(t), OnData(c, t))
  {
  }

  lemma OnFinWait2Effects(c: Conn, t: Tcp)
    requires Tasks(c) && Enabled(c, FromChip(t)) && (c.state == FinWait1 || c.state == FinWait2)
    ensures Effects(c, FromChip(t), OnFinWait2(c, t))
  {
  }

  lemma SegmentEffects(c: Conn, t: Tcp)
    requires Tasks(c) && Enabled(c, FromChip(t))
    ensures Effects(c, FromChip(t), HandleSegment(c, t)) && Tasks(HandleSegment(c, t))
  {
    HandleSegmentTasks(c, t);
    if HasRst(t) {
      CloseEffects(c, t);
    } else {
      match c.state
      case SynRcvd => OnDataEffects(c.(state := Established), t);
      case Established => OnDataEffects(c, t);
      case FinWait1 => OnFinWait2Effects(if HasAck(t) && t.ackNo == c.ourSeq then c.(state := FinWait2) else c, t);
      case FinWait2 => OnFinWait2Effects(c, t);
      case LastAck => CloseEffects(c, t);
      case _ =>
    }
  }

  lemma PumpEffects(c: Conn, e: Event)
    requires Tasks(c) && Enabled(c, e) && (e.Chunk? || e.HostEof? || e.PumpExit? || e.ReadFailed?)
    ensures Effects(c, e, Step(c, e))
  {
    if e.Chunk? { SendChunkFrame(c, e.data); }
  }

  lemma DialEffects(c: Conn, e: Event)
    requires Tasks(c) && Enabled(c, e) && (e.Dialled? || e.CancelSeen? || e.Flushed?)
    ensures Effects(c, e, Step(c, e))
  {
  }

  lemma DrainedEffects(c: Conn, ok: bool)
    requires Tasks(c) && Enabled(c, Drained(ok))
    ensures Effects(c, Drained(ok), Step(c, Drained(ok)))
  {
  }

  lemma StepEffects(c: Conn, e: Event)
    requires Tasks(c) && Enabled(c, e) && !e.FromChip? && !e.Shutdown?
    ensures Effects(c, e, Step(c, e)) && Tasks(Step(c, e))
  {
    StepTasks(c, e);
    match e
    case Drained(ok) => DrainedEffects(c, ok);
    case Dialled(_) | Flushed(_) | CancelSeen => DialEffects(c, e);
    case _ => PumpEffects(c, e);
  }

  lemma UpdateKeepsTable(n: Nat, i: nat, e: Event, d: Conn)
    requires TableAgrees(n) && LooseOnlyAfter(n) && i < |n.conns| && Effects(n.conns[i], e, d)
    ensures TableAgrees(Update(n, i, e, d))
  {
  }

  lemma UpdateKeepsOneLive(n: Nat, i: nat, e: Event, d: Conn)
    requires OneLive(n) && i < |n.conns| && Effects(n.conns[i], e, d)
    ensures OneLive(Update(n, i, e, d))
  {
    var m := Update(n, i, e, d);
    assert forall j :: 0 <= j < |n.conns| ==> m.conns[j].id == n.conns[j].id && (Live(m.conns[j]) ==> Live(n.conns[j]));
  }

  lemma UpdateKeepsLoose(n: Nat, i: nat, e: Event, d: Conn)
    requires NatInv(n) && i < |n.conns| && Effects(n.conns[i], e, d)
    requires e.FromChip? ==> n.busy == Free
    ensures LooseOnlyAfter(Update(n, i, e, d))
  {
  }

  lemma UpdateAccountsForDials(n: Nat, i: nat, e: Event, d: Conn, k: Key)
    requires NatInv(n) && i < |n.conns| && Effects(n.conns[i], e, d)
    requires e.FromChip? ==> n.busy == Free
    requires k in Update(n, i, e, d).connecting
    ensures var m := Update(n, i, e, d);
            (m.busy.Grace? && m.busy.id.key == k)
            || exists j :: 0 <= j < |m.conns| && InFlight(m.conns[j]) && m.conns[j].id.key == k
  {
    var m := Update(n, i, e, d);
    if !(n.busy.Grace? && n.busy.id.key == k) {
      var j :| 0 <= j < |n.conns| && InFlight(n.conns[j]) && n.conns[j].id.key == k;
      assert InFlight(m.conns[j]) && m.conns[j].id.key == k;
    }
  }

  lemma UpdateKeepsDials(n: Nat, i: nat, e: Event, d: Conn)
    requires NatInv(n) && i < |n.conns| && Effects(n.conns[i], e, d)
    requires e.FromChip? ==> n.busy == Free
    ensures DialsAgree(Update(n, i, e, d))
  {
    var m := Update(n, i, e, d);
    forall k | k in m.connecting
      ensures (m.busy.Grace? && m.busy.id.key == k)
           || exists j :: 0 <= j < |m.conns| && InFlight(m.conns[j]) && m.conns[j].id.key == k
    {
      UpdateAccountsForDials(n, i, e, d, k);
    }
    forall j | 0 <= j < |m.conns| && InFlight(m.conns[j])
      ensures m.conns[j].id.key in m.connecting
    {
      assert InFlight(n.conns[j]) && Live(n.conns[j]);
      if e.Dialled? || e.CancelSeen? { assert Live(n.conns[i]) && j != i; }
    }
  }

  lemma UpdateKeeps(n: Nat, i: nat, e: Event, d: Conn)
    requires NatInv(n) && i < |n.conns| && Effects(n.conns[i], e, d) && Tasks(d)
    requires e.FromChip? ==> n.busy == Free
    ensures NatInv(Update(n, i, e, d))
  {
    UpdateKeepsTable(n, i, e, d);
    UpdateKeepsOneLive(n, i, e, d);
    UpdateKeepsLoose(n, i, e, d);
    UpdateKeepsDials(n, i, e, d);
  }

  /** A connection just answered. */
  predicate Answered(c: Conn, deferred: bool) {
    c.listed && c.handler == Idle && Tasks(c) && (InFlight(c) <==> deferred)
  }

  lemma EnterKeepsTable(n: Nat, c: Conn, deferred: bool)
    requires TableAgrees(n) && DialsAgree(n) && n.busy.Grace? && c.id == n.busy.id && Answered(c, deferred)
    ensures TableAgrees(Enter(n, c, deferred))
  {
  }

  lemma EnterKeepsOneLive(n: Nat, c: Conn, deferred: bool)
    requires OneLive(n) && DialsAgree(n) && n.busy.Grace? && c.id == n.busy.id && Answered(c, deferred)
    ensures OneLive(Enter(n, c, deferred))
  {
  }

  lemma EnterKeepsRest(n: Nat, c: Conn, deferred: bool)
    requires NatInv(n) && n.busy.Grace? && c.id == n.busy.id && Answered(c, deferred)
    ensures var m := Enter(n, c, deferred);
            Sequential(m) && AllTasks(m) && LooseOnlyAfter(m)
  {
  }

  lemma EnterAccountsForDials(n: Nat, c: Conn, deferred: bool, k: Key)
    requires DialsAgree(n) && n.busy.Grace? && c.id == n.busy.id && Answered(c, deferred)
    requires k in Enter(n, c, deferred).connecting
    ensures var m := Enter(n, c, deferred);
            exists j :: 0 <= j < |m.conns| && InFlight(m.conns[j]) && m.conns[j].id.key == k
  {
    var m := Enter(n, c, deferred);
    if k == c.id.key {
      assert InFlight(m.conns[|n.conns|]) && m.conns[|n.conns|].id.key == k;
    } else {
      var j :| 0 <= j < |n.conns| && InFlight(n.conns[j]) && n.conns[j].id.key == k;
      assert InFlight(m.conns[j]) && m.conns[j].id.key == k;
    }
  }

  lemma EnterKeepsDials(n: Nat, c: Conn, deferred: bool)
    requires DialsAgree(n) && n.busy.Grace? && c.id == n.busy.id && Answered(c, deferred)
    ensures DialsAgree(Enter(n, c, deferred))
  {
    var m := Enter(n, c, deferred);
    forall k | k in m.connecting
      ensures exists j :: 0 <= j < |m.conns| && InFlight(m.conns[j]) && m.conns[j].id.key == k
    {
      EnterAccountsForDials(n, c, deferred, k);
    }
    assert forall j :: 0 <= j < |n.conns| && InFlight(n.conns[j]) ==> Live(n.conns[j]);
  }

  lemma EnterKeeps(n: Nat, c: Conn, deferred: bool)
    requires NatInv(n) && n.busy.Grace? && c.id == n.busy.id && Answered(c, deferred)
    ensures NatInv(Enter(n, c, deferred))
  {
    EnterKeepsTable(n, c, deferred);
    EnterKeepsOneLive(n, c, deferred);
    EnterKeepsDials(n, c, deferred);
    EnterKeepsRest(n, c, deferred);
  }

  lemma RefusalKeepsDials(n: Nat)
    requires NatInv(n) && n.busy.Grace?
    ensures DialsAgree(n.(connecting := n.connecting - {n.busy.id.key}, busy := Free))
  {
    var m := n.(connecting := n.connecting - {n.busy.id.key}, busy := Free);
    assert forall j :: 0 <= j < |n.conns| && InFlight(n.conns[j]) ==> Live(n.conns[j]);
  }

  /** A new dial: its key is neither in the table nor connecting. */
  lemma GraceKeeps(n: Nat, id: Identity, syn: Tcp)
    requires NatInv(n) && n.gate && n.busy == Free
    requires id.key !in n.table && id.key !in n.connecting && id.mss <= TCP_MSS
    ensures NatInv(n.(connecting := n.connecting + {id.key}, busy := Grace(id, syn)))
  {
  }

  lemma FrameKeeps(n: Nat, ev: NatEvent)
    requires NatInv(n) && ev.Frame? && CanStep(n, ev)
    ensures NatInv(NatStep(n, ev))
  {
    var key := KeyOf(ev.src, ev.dst, ev.t);
    if key in n.table {
      var i := n.table[key];
      SegmentEffects(n.conns[i], ev.t);
      UpdateKeeps(n, i, FromChip(ev.t), HandleSegment(n.conns[i], ev.t));
    } else if Opens(ev.t) && key !in n.connecting {
      GraceKeeps(n, Identity(key, ev.t.seqNo, ev.isn, NegotiatedMss(ev.t.options)), ev.t);
    }
  }

  /** What shutdown does to one connection. */
  predicate Ended(c: Conn, d: Conn) {
    && Tasks(d) && d.id == c.id && !d.listed && d.handler == c.handler && (InFlight(d) <==> InFlight(c))
    && (Loose(d) ==> Loose(c) || c.handler.Draining?)
  }

  lemma ShutEnds(c: Conn)
    requires Tasks(c)
    ensures Ended(c, Shut(c))
  {
    if c.listed { CloseTasks(c, true); }
  }

  lemma EndedDials(n: Nat, m: Nat)
    requires NatInv(n) && m == n.(conns := m.conns, table := map[], gate := false) && |m.conns| == |n.conns|
    requires forall i :: 0 <= i < |n.conns| ==> Ended(n.conns[i], m.conns[i])
    ensures DialsAgree(m)
  {
    forall k | k in m.connecting
      ensures (m.busy.Grace? && m.busy.id.key == k)
           || exists j :: 0 <= j < |m.conns| && InFlight(m.conns[j]) && m.conns[j].id.key == k
    {
      if !(n.busy.Grace? && n.busy.id.key == k) {
        var j :| 0 <= j < |n.conns| && InFlight(n.conns[j]) && n.conns[j].id.key == k;
        assert InFlight(m.conns[j]) && m.conns[j].id.key == k;
      }
    }
    assert forall j :: 0 <= j < |n.conns| && Live(m.conns[j]) ==> InFlight(n.conns[j]) && Live(n.conns[j]);
  }

  lemma EndedRest(n: Nat, m: Nat)
    requires NatInv(n) && m == n.(conns := m.conns, table := map[], gate := false) && |m.conns| == |n.conns|
    requires forall i :: 0 <= i < |n.conns| ==> Ended(n.conns[i], m.conns[i])
    ensures TableAgrees(m) && OneLive(m) && Sequential(m) && AllTasks(m) && LooseOnlyAfter(m)
  {
    forall i | 0 <= i < |m.conns|
      ensures Live(m.conns[i]) ==> Live(n.conns[i])
      ensures Loose(m.conns[i]) ==> !n.busy.Grace?
    {
      assert Ended(n.conns[i], m.conns[i]);
    }
  }

  lemma ShutdownKeeps(n: Nat)
    requires NatInv(n)
    ensures NatInv(NatStep(n, ShutdownAll))
  {
    var m := NatStep(n, ShutdownAll);
    forall i | 0 <= i < |n.conns|
      ensures Ended(n.conns[i], m.conns[i])
    {
      ShutEnds(n.conns[i]);
    }
    EndedDials(n, m);
    EndedRest(n, m);
  }

  lemma NatStepKeeps(n: Nat, ev: NatEvent)
    requires NatInv(n) && CanStep(n, ev)
    ensures NatInv(NatStep(n, ev))
  {
    match ev
    case Frame(_, _, _, _, _) => FrameKeeps(n, ev);
    case GraceEnd(outcome) =>
      if outcome != Refused {
        var deferred := outcome == StillDialling;
        EnterKeeps(n, Opened(n.busy.id, deferred), deferred);
      } else {
        assert DialsAgree(NatStep(n, ev)) by { RefusalKeepsDials(n); }
      }
    case OnConn(i, e) =>
      StepEffects(n.conns[i], e);
      UpdateKeeps(n, i, e, Step(n.conns[i], e));
    case ShutdownAll => ShutdownKeeps(n);
  }

  /** A frame is never refused for want of a handler once the previous one is done. */
  lemma FramesAlwaysAccepted(n: Nat, ev: NatEvent)
    requires NatInv(n) && n.gate && n.busy == Free && ev.Frame?
    ensures CanStep(n, ev)
  {
  }

  lemma AcceptsFrame(n: Nat, ev: NatEvent)
    requires Sound(n) && n.gate && n.busy == Free && ev.Frame?
    ensures CanStep(n, ev)
  {
    SoundIs(n);
    FramesAlwaysAccepted(n, ev);
  }
}
