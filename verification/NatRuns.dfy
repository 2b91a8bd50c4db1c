/** Whole runs of the connection table. */
module NatRuns {
  import opened Bytes
  import opened SeqArith
  import opened Packets
  import opened Reassembly
  import opened ConnSpec
  import opened ConnLog
  import opened ConnRuns
  import opened NatTable
  import opened ConnFin
  import opened ConnDelivery

  predicate CanNat(n: Nat, evs: seq<NatEvent>)
    decreases |evs|
  {
    |evs| == 0 || (CanStep(n, evs[0]) && CanNat(NatStep(n, evs[0]), evs[1..]))
  }

  function AfterNat(n: Nat, evs: seq<NatEvent>): Nat
    requires CanNat(n, evs)
    decreases |evs|
  {
    if |evs| == 0 then n else AfterNat(NatStep(n, evs[0]), evs[1..])
  }

  lemma {:induction false} NatRunKeeps(n: Nat, evs: seq<NatEvent>)
    requires NatInv(n) && CanNat(n, evs)
    ensures NatInv(AfterNat(n, evs))
    decreases |evs|
  {
    if |evs| > 0 {
      NatStepKeeps(n, evs[0]);
      NatRunKeeps(NatStep(n, evs[0]), evs[1..]);
    }
  }

  /** In every reachable state of every interleaving: a table entry holds an open connection
      of its own key; a key is marked as connecting exactly while a dial for it is in
      flight; and per key there is at most one connection that is in the table or still
      dialling, and none while a new dial is in its grace. */
  lemma TableAgreement(evs: seq<NatEvent>)
    requires CanNat(EMPTY, evs)
    ensures var n := AfterNat(EMPTY, evs);
            && (forall k :: k in n.table ==>
                  n.table[k] < |n.conns| && var c := n.conns[n.table[k]]; c.id.key == k && c.state != Closed)
            && (forall i :: 0 <= i < |n.conns| && InFlight(n.conns[i]) ==> n.conns[i].id.key in n.connecting)
            && (forall k :: k in n.connecting ==>
                  (n.busy.Grace? && n.busy.id.key == k)
                  || exists i :: 0 <= i < |n.conns| && InFlight(n.conns[i]) && n.conns[i].id.key == k)
            && (forall i, j :: 0 <= i < j < |n.conns| && Live(n.conns[i]) && Live(n.conns[j]) ==>
                  n.conns[i].id.key != n.conns[j].id.key)
            && (n.busy.Grace? ==>
                  forall i :: 0 <= i < |n.conns| && Live(n.conns[i]) ==> n.conns[i].id.key != n.busy.id.key)
  {
    NatRunKeeps(EMPTY, evs);
    var n := AfterNat(EMPTY, evs);
    assert forall k :: k in n.table ==> Tasks(n.conns[n.table[k]]);
  }

  /** Connections are never renumbered or replaced, and one that is over stays over. */
  ghost predicate Lasting(n: Nat, m: Nat) {
    && |n.conns| <= |m.conns|
    && forall i :: 0 <= i < |n.conns| ==> m.conns[i].id == n.conns[i].id && (Live(m.conns[i]) ==> Live(n.conns[i]))
  }

  lemma UpdateLasts(n: Nat, i: nat, e: Event, d: Conn)
    requires i < |n.conns| && Effects(n.conns[i], e, d)
    ensures Lasting(n, Update(n, i, e, d))
  {
  }

  lemma FrameLasts(n: Nat, ev: NatEvent)
    requires NatInv(n) && CanStep(n, ev) && ev.Frame?
    ensures Lasting(n, NatStep(n, ev))
  {
    var key := KeyOf(ev.src, ev.dst, ev.t);
    if key in n.table {
      var i := n.table[key];
      SegmentEffects(n.conns[i], ev.t);
      UpdateLasts(n, i, FromChip(ev.t), HandleSegment(n.conns[i], ev.t));
    }
  }

  lemma ShutdownLasts(n: Nat)
    requires AllTasks(n)
    ensures Lasting(n, NatStep(n, ShutdownAll))
  {
  }

  lemma StepLasts(n: Nat, ev: NatEvent)
    requires NatInv(n) && CanStep(n, ev)
    ensures Lasting(n, NatStep(n, ev))
  {
    match ev
    case Frame(_, _, _, _, _) => FrameLasts(n, ev);
    case OnConn(i, e) =>
      StepEffects(n.conns[i], e);
      UpdateLasts(n, i, e, Step(n.conns[i], e));
    case ShutdownAll => ShutdownLasts(n);
    case GraceEnd(_) =>
  }

  lemma FrameStartsFresh(n: Nat, ev: NatEvent)
    requires CanStep(n, ev) && ev.Frame?
    ensures var key, m := KeyOf(ev.src, ev.dst, ev.t), NatStep(n, ev);
            && (m.busy.Grace? ==> m.busy.id.key == key && key !in n.table && key !in n.connecting)
            && (m.busy.Grace? <==>
                  Opens(ev.t) && !HasRst(ev.t) && ev.allowed && key !in n.table && key !in n.connecting)
  {
  }

  /** A dial starts only for a key with no connection and no other dial. As connections are
      never renumbered or replaced, and one that is over stays over, a key keeps its initial
      sequence number as long as anything lives under it. */
  lemma DialsStartFresh(n: Nat, ev: NatEvent)
    requires NatInv(n) && CanStep(n, ev)
    ensures var m := NatStep(n, ev);
            && (m.busy.Grace? && m.busy != n.busy ==>
                  && m.busy.id.key !in n.table && m.busy.id.key !in n.connecting
                  && forall i :: 0 <= i < |n.conns| && Live(n.conns[i]) ==> n.conns[i].id.key != m.busy.id.key)
            && (ev.Frame? ==>
                  (m.busy.Grace? <==>
                     && Opens(ev.t) && !HasRst(ev.t) && ev.allowed
                     && KeyOf(ev.src, ev.dst, ev.t) !in n.table && KeyOf(ev.src, ev.dst, ev.t) !in n.connecting))
            && Lasting(n, m)
  {
    StepLasts(n, ev);
    if ev.Frame? { FrameStartsFresh(n, ev); }
  }

  /** A step reaches one connection at most: the one its frame is addressed to or the one
      whose coroutine resumes; only shutdown reaches more. A reset from the chip is never
      answered by one (RFC 793 section 3.4). */
  lemma StepsAreIsolated(n: Nat, ev: NatEvent, i: nat)
    requires NatInv(n) && CanStep(n, ev) && i < |n.conns| && ev != ShutdownAll
    ensures ev.Frame? && n.conns[i].id.key != KeyOf(ev.src, ev.dst, ev.t) ==> NatStep(n, ev).conns[i] == n.conns[i]
    ensures ev.OnConn? && ev.i != i ==> NatStep(n, ev).conns[i] == n.conns[i]
    ensures ev.Frame? && HasRst(ev.t) ==>
      NatStep(n, ev).strays == n.strays && NatStep(n, ev).conns[i].out == n.conns[i].out
  {
    if ev.Frame? && HasRst(ev.t) && KeyOf(ev.src, ev.dst, ev.t) in n.table {
      ResetUnanswered(n.conns[n.table[KeyOf(ev.src, ev.dst, ev.t)]], ev.t);
    }
  }

  lemma ResetUnanswered(c: Conn, t: Tcp)
    requires HasRst(t)
    ensures HandleSegment(c, t).out == c.out
  {
  }

  lemma SynIgnored(c: Conn, t: Tcp)
    requires Opens(t) && !HasRst(t) && !HasFin(t) && t.payload == []
    ensures HandleSegment(c, t) == c
  {
  }

  /** A retransmitted SYN changes nothing at all while its key is in the table or marked as
      connecting, in whatever state the connection is. */
  lemma SynRetransmitIgnored(n: Nat, src: Ip4, dst: Ip4, t: Tcp, allowed: bool, isn: u32)
    requires NatInv(n) && n.gate && n.busy == Free
    requires Opens(t) && !HasRst(t) && !HasFin(t) && t.payload == []
    requires KeyOf(src, dst, t) in n.table || KeyOf(src, dst, t) in n.connecting
    ensures CanStep(n, Frame(src, dst, t, allowed, isn)) && NatStep(n, Frame(src, dst, t, allowed, isn)) == n
  {
    if KeyOf(src, dst, t) in n.table {
      var i := n.table[KeyOf(src, dst, t)];
      SynIgnored(n.conns[i], t);
      assert n.conns[i := n.conns[i]] == n.conns;
    }
  }

  // ---- Shutdown ----

  /** The key of the SYN whose grace is running, if one is. */
  function GraceKeys(n: Nat): set<Key> { if n.busy.Grace? then {n.busy.id.key} else {} }

  lemma ClosedGateStep(n: Nat, ev: NatEvent, keys: set<Key>)
    requires CanStep(n, ev) && !n.gate && n.table.Keys <= keys && GraceKeys(n) <= keys
    ensures var m := NatStep(n, ev); !m.gate && m.table.Keys <= keys && GraceKeys(m) <= keys
  {
  }

  lemma {:induction false} ClosedGateStays(n: Nat, evs: seq<NatEvent>, keys: set<Key>)
    requires NatInv(n) && CanNat(n, evs) && !n.gate && n.table.Keys <= keys && GraceKeys(n) <= keys
    ensures AfterNat(n, evs).table.Keys <= keys && !AfterNat(n, evs).gate
    decreases |evs|
  {
    if |evs| > 0 {
      NatStepKeeps(n, evs[0]);
      ClosedGateStep(n, evs[0], keys);
      ClosedGateStays(NatStep(n, evs[0]), evs[1..], keys);
    }
  }

  /** Shutdown may fall anywhere, into the middle of a frame as well. It closes every
      connection of the table; what can enter it afterwards is the connection whose SYN was
      in its grace and no other, and that one does enter unless its dial is refused. */
  lemma ShutdownAnywhere(evs: seq<NatEvent>, more: seq<NatEvent>, outcome: Dialled)
    requires CanNat(EMPTY, evs) && CanNat(NatStep(AfterNat(EMPTY, evs), ShutdownAll), more)
    ensures var n := AfterNat(EMPTY, evs);
            var m := NatStep(n, ShutdownAll);
            && NatInv(m) && m.table == map[]
            && (forall i :: 0 <= i < |n.conns| && n.conns[i].listed ==> m.conns[i].state == Closed)
            && AfterNat(m, more).table.Keys <= GraceKeys(n)
            && (CanStep(m, GraceEnd(outcome)) <==> n.busy.Grace?)
            && (n.busy.Grace? ==>
                  NatStep(m, GraceEnd(outcome)).table.Keys == if outcome == Refused then {} else GraceKeys(n))
  {
    NatRunKeeps(EMPTY, evs);
    var n := AfterNat(EMPTY, evs);
    NatStepKeeps(n, ShutdownAll);
    ClosedGateStays(NatStep(n, ShutdownAll), more, GraceKeys(n));
  }

  // ---- Every connection's own run ----

  /** The events connection `i` takes part in when the table takes `ev`. */
  function Took(n: Nat, ev: NatEvent, i: nat): seq<Event> {
    match ev
    case Frame(src, dst, t, _, _) =>
      if KeyOf(src, dst, t) in n.table && n.table[KeyOf(src, dst, t)] == i then [FromChip(t)] else []
    case GraceEnd(_) => []
    case OnConn(j, e) => if j == i then [e] else []
    case ShutdownAll => if i < |n.conns| && n.conns[i].listed then [Shutdown] else []
  }

  function Past(n: Nat, evs: seq<NatEvent>, i: nat): seq<Event>
    requires CanNat(n, evs)
    decreases |evs|
  {
    if |evs| == 0 then [] else Took(n, evs[0], i) + Past(NatStep(n, evs[0]), evs[1..], i)
  }

  lemma StepProjects(n: Nat, ev: NatEvent, i: nat)
    requires TableAgrees(n) && CanStep(n, ev) && i < |n.conns|
    ensures i < |NatStep(n, ev).conns|
    ensures var took := Took(n, ev, i);
            if |took| == 0 then NatStep(n, ev).conns[i] == n.conns[i]
            else |took| == 1 && Enabled(n.conns[i], took[0]) && NatStep(n, ev).conns[i] == Step(n.conns[i], took[0])
  {
    match ev
    case Frame(src, dst, t, _, _) => FrameProjects(n, ev, i);
    case OnConn(_, _) =>
    case GraceEnd(_) =>
    case ShutdownAll =>
  }

  lemma FrameProjects(n: Nat, ev: NatEvent, i: nat)
    requires TableAgrees(n) && CanStep(n, ev) && ev.Frame? && i < |n.conns|
    ensures i < |NatStep(n, ev).conns|
    ensures var took := Took(n, ev, i);
            if |took| == 0 then NatStep(n, ev).conns[i] == n.conns[i]
            else |took| == 1 && Enabled(n.conns[i], took[0]) && NatStep(n, ev).conns[i] == Step(n.conns[i], took[0])
  {
  }

  lemma {:induction false} RunProjects(n: Nat, evs: seq<NatEvent>, i: nat)
    requires NatInv(n) && CanNat(n, evs) && i < |n.conns|
    ensures i < |AfterNat(n, evs).conns| && CanRun(n.conns[i], Past(n, evs, i))
    ensures AfterNat(n, evs).conns[i] == After(n.conns[i], Past(n, evs, i))
    decreases |evs|
  {
    if |evs| > 0 {
      var m, took := NatStep(n, evs[0]), Took(n, evs[0], i);
      NatStepKeeps(n, evs[0]);
      StepProjects(n, evs[0], i);
      RunProjects(m, evs[1..], i);
      if |took| == 0 {
        assert Past(n, evs, i) == Past(m, evs[1..], i);
      } else {
        assert Past(n, evs, i)[1..] == Past(m, evs[1..], i);
      }
    }
  }

  /** The life of a connection from the answer to its SYN. */
  datatype Life = Life(id: Identity, deferred: bool, past: seq<Event>)

  /** `c` is where a life has led. */
  predicate Lived(l: Life, c: Conn) {
    l.id.mss <= TCP_MSS && CanRun(Opened(l.id, l.deferred), l.past) && c == After(Opened(l.id, l.deferred), l.past)
  }

  /** Its segments all come from the chip's stream `s`. */
  ghost predicate Fed(l: Life, s: bytes) {
    CanRun(Opened(l.id, l.deferred), l.past) && FedFrom(Opened(l.id, l.deferred), l.past, s)
  }

  /** Its FINs all stand behind the last byte of `s`. */
  ghost predicate Complete(l: Life, s: bytes) {
    CanRun(Opened(l.id, l.deferred), l.past) && FinsEnd(Opened(l.id, l.deferred), l.past, s)
  }

  function LifeOf(n: Nat, evs: seq<NatEvent>, i: nat): Option<Life>
    requires CanNat(n, evs)
    decreases |evs|
  {
    if |evs| == 0 then None
    else
      var m := NatStep(n, evs[0]);
      if i < |m.conns| && n.busy.Grace?
      then Some(Life(n.busy.id, evs[0] == GraceEnd(StillDialling), Past(m, evs[1..], i)))
      else LifeOf(m, evs[1..], i)
  }

  /** The table grows by one connection, when a grace ends with the SYN answered. */
  lemma TableGrows(n: Nat, ev: NatEvent)
    requires NatInv(n) && CanStep(n, ev)
    ensures var m := NatStep(n, ev);
            |m.conns| == |n.conns|
            || (n.busy.Grace? && n.busy.id.mss <= TCP_MSS
                && m.conns == n.conns + [Opened(n.busy.id, ev == GraceEnd(StillDialling))])
  {
    match ev
    case Frame(src, dst, t, _, _) => assert |NatStep(n, ev).conns| == |n.conns|;
    case OnConn(i, e) => assert |NatStep(n, ev).conns| == |n.conns|;
    case ShutdownAll =>
    case GraceEnd(_) =>
  }

  /** What the table does to a connection is a run of that connection from its opening. */
  lemma {:induction false} EveryConnectionRuns(n: Nat, evs: seq<NatEvent>, i: nat)
    requires NatInv(n) && CanNat(n, evs) && |n.conns| <= i < |AfterNat(n, evs).conns|
    ensures LifeOf(n, evs, i).Some? && Lived(LifeOf(n, evs, i).value, AfterNat(n, evs).conns[i])
    decreases |evs|
  {
    var m := NatStep(n, evs[0]);
    NatStepKeeps(n, evs[0]);
    TableGrows(n, evs[0]);
    if i < |m.conns| {
      RunProjects(m, evs[1..], i);
    } else {
      EveryConnectionRuns(m, evs[1..], i);
    }
  }

  /** A connection of the table completes like one on its own, whatever the others do: from
      any reachable table in which it is established, once the pieces of its stream have
      arrived in order, all of it is accepted. */
  lemma StreamCompletesUnderTable(n: Nat, evs: seq<NatEvent>, i: nat, s: bytes, cuts: seq<nat>)
    requires NatInv(n) && CanNat(n, evs) && i < |n.conns|
    requires var c := n.conns[i]; Inv(c, s) && c.listed && c.handler == Idle && c.state == Established
    requires CanRun(n.conns[i], Past(n, evs, i)) && OrderlyRun(n.conns[i], Past(n, evs, i), s)
    requires CutsOf(cuts, s) && cuts[0] == |Accepted(n.conns[i])|
    requires AllKnown(Plain(n.conns[i]), ArrivalsOf(Past(n, evs, i)), n.conns[i].id.chipIsn, s, cuts)
    requires PiecesArrive(ArrivalsOf(Past(n, evs, i)), n.conns[i].id.chipIsn, s, cuts, 0)
    ensures i < |AfterNat(n, evs).conns| && HasTaken(AfterNat(n, evs).conns[i], s)
  {
    RunProjects(n, evs, i);
    StreamCompletes(n.conns[i], Past(n, evs, i), s, cuts);
  }

  /** What a connection that has read `read` from its host must have done for both sides. */
  ghost predicate StreamsKept(c: Conn, s: bytes, read: bytes) {
    && PrefixOf(c.sent + c.held, s)
    && (c.listed && c.handler == Idle ==>
          c.chipSeq == Wrap(c.id.chipIsn + 1 + |c.sent| + |c.held| + c.finsIn))
    && Relays(c, read) && Rebuilds(c.out, c.id.ourIsn, read)
  }

  lemma InvKeepsStreams(c: Conn, s: bytes)
    requires Inv(c, s)
    ensures StreamsKept(c, s, c.got)
  {
    InvRelays(c, s);
    EmissionsReassemble(c, s);
  }

  lemma LifeKeepsStreams(l: Life, c: Conn, s: bytes)
    requires Lived(l, c) && Fed(l, s)
    ensures StreamsKept(c, s, BytesRead(l.past))
  {
    Reached(l.id, l.deferred, l.past, s);
    InvKeepsStreams(c, s);
  }

  /** Hence, for every connection of every run of the table, whatever the others do: fed from
      the chip's stream `s`, it has given the host a prefix of `s` and emitted towards the
      chip exactly the bytes read from its own host socket. */
  lemma StreamsUnderTable(evs: seq<NatEvent>, i: nat, s: bytes)
    requires CanNat(EMPTY, evs) && i < |AfterNat(EMPTY, evs).conns|
    requires LifeOf(EMPTY, evs, i).Some? ==> Fed(LifeOf(EMPTY, evs, i).value, s)
    ensures LifeOf(EMPTY, evs, i).Some?
    ensures StreamsKept(AfterNat(EMPTY, evs).conns[i], s, BytesRead(LifeOf(EMPTY, evs, i).value.past))
  {
    EveryConnectionRuns(EMPTY, evs, i);
    LifeKeepsStreams(LifeOf(EMPTY, evs, i).value, AfterNat(EMPTY, evs).conns[i], s);
  }

  /** Nor is it different for the chip's end-of-stream: under the table too, a connection
      acknowledges only bytes taken and passes on only whole streams exactly if its FIN was
      taken in its place. */
  lemma HonestUnderTable(evs: seq<NatEvent>, i: nat, s: bytes)
    requires CanNat(EMPTY, evs) && i < |AfterNat(EMPTY, evs).conns|
    requires LifeOf(EMPTY, evs, i).Some? ==>
      Fed(LifeOf(EMPTY, evs, i).value, s) && Complete(LifeOf(EMPTY, evs, i).value, s)
    ensures LifeOf(EMPTY, evs, i).Some?
    ensures var l := LifeOf(EMPTY, evs, i).value;
            CanRun(Opened(l.id, l.deferred), l.past)
            && (Honest(AfterNat(EMPTY, evs).conns[i], s) <==> FinsInPlace(Opened(l.id, l.deferred), l.past))
  {
    EveryConnectionRuns(EMPTY, evs, i);
    var l := LifeOf(EMPTY, evs, i).value;
    HonestIffFinsInPlace(l.id, l.deferred, l.past, s);
  }

  // ---- Sizes and resets ----

  /** Every segment any run hands to the chip, for a connection or as a stray reset, is
      printable and its IP packet within the MTU. */
  lemma EverythingFitsMtu(evs: seq<NatEvent>, i: nat, j: nat)
    requires CanNat(EMPTY, evs)
    ensures var n := AfterNat(EMPTY, evs);
            && (i < |n.conns| && j < |n.conns[i].out| ==>
                  var key := n.conns[i].id.key;
                  var l4 := TcpToBytes(n.conns[i].out[j].seg, key.dstIp, key.chipIp);
                  l4.Some? && 20 + |l4.value| <= 1500)
            && (i < |n.strays| ==>
                  var l4 := TcpToBytes(n.strays[i].seg, n.strays[i].key.dstIp, n.strays[i].key.chipIp);
                  l4.Some? && 20 + |l4.value| <= 1500)
  {
    var n := AfterNat(EMPTY, evs);
    if i < |n.conns| && j < |n.conns[i].out| {
      EveryConnectionRuns(EMPTY, evs, i);
      var l := LifeOf(EMPTY, evs, i).value;
      PacketsFitMtu(l.id, l.deferred, l.past, j);
      RunFrame(Opened(l.id, l.deferred), l.past);
    }
    if i < |n.strays| {
      StraysAreResets(EMPTY, evs, i);
      EmissionFitsMtu(n.strays[i].seg, n.strays[i].key);
    }
  }

  lemma {:induction false} StraysAreResets(n: Nat, evs: seq<NatEvent>, i: nat)
    requires CanNat(n, evs) && i < |AfterNat(n, evs).strays|
    requires forall k :: 0 <= k < |n.strays| ==> n.strays[k].seg.options == n.strays[k].seg.payload == []
    ensures AfterNat(n, evs).strays[i].seg.options == AfterNat(n, evs).strays[i].seg.payload == []
    decreases |evs|
  {
    if |evs| > 0 { StraysAreResets(NatStep(n, evs[0]), evs[1..], i); }
  }

  /** The length of a segment in sequence numbers (RFC 793 section 3.3). */
  function SegLen(t: Tcp): nat {
    |t.payload| + (if HasSyn(t) then 1 else 0) + (if HasFin(t) then 1 else 0)
  }

  /** The reset for a stray segment acknowledges all of it, as RFC 793 section 3.4 asks,
      exactly when it carries no FIN and, if it is a SYN, no data either: the program does
      not count those. */
  lemma StrayResetCoversIff(t: Tcp)
    requires |t.payload| <= 0xffff
    ensures ResetFor(t).ackNo == Wrap(t.seqNo + SegLen(t)) <==> !HasFin(t) && (HasSyn(t) ==> t.payload == [])
    ensures ResetFor(t).seqNo == (if HasAck(t) then t.ackNo else 0)
  {
    var counted := if HasSyn(t) then 1 else |t.payload|;
    if Wrap(t.seqNo + counted) == Wrap(t.seqNo + SegLen(t)) {
      WrapInjective(t.seqNo + counted, t.seqNo + SegLen(t));
    }
  }

  /** A run for every such segment: it comes to an empty table, and the reset it draws
      acknowledges less than all of it. */
  lemma StrayResetFallsShort(src: Ip4, dst: Ip4, t: Tcp)
    requires |t.payload| <= 0xffff && !HasRst(t) && (HasFin(t) || (HasSyn(t) && t.payload != []))
    ensures var evs := [Frame(src, dst, t, false, 0)];
            && CanNat(EMPTY, evs)
            && AfterNat(EMPTY, evs).strays == [Stray(KeyOf(src, dst, t), ResetFor(t))]
            && ResetFor(t).ackNo != Wrap(t.seqNo + SegLen(t))
  {
    StrayResetCoversIff(t);
    var ev := Frame(src, dst, t, false, 0);
    assert [ev][1..] == [];
    assert CanNat(NatStep(EMPTY, ev), []) && AfterNat(NatStep(EMPTY, ev), []) == NatStep(EMPTY, ev);
  }
}
