/** Which frame a connection comes from, which frames reach it, and where its segments go. */
module NatAddresses {
  import opened Bytes
  import opened SeqArith
  import opened Packets
  import opened TcpOptions
  import opened ConnSpec
  import opened ConnLog
  import opened ConnRuns
  import opened NatTable
  import opened NatRuns

  /** The connection with this identity answers the SYN in frame `f`. */
  predicate OpenedBy(id: Identity, f: NatEvent) {
    && f.Frame? && HasSyn(f.t) && !HasAck(f.t) && !HasRst(f.t) && f.allowed
    && id.key.chipIp == f.src && id.key.dstIp == f.dst
    && id.key.chipPort == f.t.srcPort && id.key.dstPort == f.t.dstPort
    && id.chipIsn == f.t.seqNo && id.ourIsn == f.isn && id.mss == NegotiatedMss(f.t.options)
  }

  ghost predicate Opener(id: Identity, seen: seq<NatEvent>) { exists f :: f in seen && OpenedBy(id, f) }

  /** Every connection, and the one in its grace, answers a frame among those seen. */
  ghost predicate AllOpened(n: Nat, seen: seq<NatEvent>) {
    && (forall i :: 0 <= i < |n.conns| ==> Opener(n.conns[i].id, seen))
    && (n.busy.Grace? ==>
          Opener(n.busy.id, seen) && exists f :: f in seen && OpenedBy(n.busy.id, f) && f.t == n.busy.syn)
  }

  lemma OpenerSeen(id: Identity, seen: seq<NatEvent>, ev: NatEvent)
    requires Opener(id, seen)
    ensures Opener(id, seen + [ev])
  {
    var f :| f in seen && OpenedBy(id, f);
    assert f in seen + [ev];
  }

  lemma SeenMore(n: Nat, seen: seq<NatEvent>, ev: NatEvent)
    requires AllOpened(n, seen)
    ensures AllOpened(n, seen + [ev])
  {
    forall i | 0 <= i < |n.conns|
      ensures Opener(n.conns[i].id, seen + [ev])
    {
      OpenerSeen(n.conns[i].id, seen, ev);
    }
    if n.busy.Grace? {
      var f :| f in seen && OpenedBy(n.busy.id, f) && f.t == n.busy.syn;
      assert f in seen + [ev];
    }
  }

  lemma SynOpens(n: Nat, ev: NatEvent)
    requires NatInv(n) && CanStep(n, ev) && ev.Frame?
    ensures var m := NatStep(n, ev);
            && |m.conns| == |n.conns| && (forall i :: 0 <= i < |n.conns| ==> m.conns[i].id == n.conns[i].id)
            && (m.busy.Grace? ==> OpenedBy(m.busy.id, ev) && m.busy.syn == ev.t)
  {
    StepLasts(n, ev);
    var key := KeyOf(ev.src, ev.dst, ev.t);
    if key in n.table { SegmentEffects(n.conns[n.table[key]], ev.t); }
  }

  /** A frame adds no connection; a grace that has begun answers it. */
  lemma FrameOpened(n: Nat, ev: NatEvent, seen: seq<NatEvent>)
    requires NatInv(n) && CanStep(n, ev) && AllOpened(n, seen) && ev in seen && ev.Frame?
    ensures AllOpened(NatStep(n, ev), seen)
  {
    SynOpens(n, ev);
    var m := NatStep(n, ev);
    forall i | 0 <= i < |m.conns|
      ensures Opener(m.conns[i].id, seen)
    {
      assert Opener(n.conns[i].id, seen);
    }
  }

  /** Only the end of a grace adds a connection, the one that answers its SYN. */
  lemma OtherAdds(n: Nat, ev: NatEvent)
    requires NatInv(n) && CanStep(n, ev) && !ev.Frame?
    ensures var m := NatStep(n, ev);
            && (forall i :: 0 <= i < |n.conns| ==> i < |m.conns| && m.conns[i].id == n.conns[i].id)
            && (forall i :: |n.conns| <= i < |m.conns| ==> n.busy.Grace? && m.conns[i].id == n.busy.id)
            && (m.busy.Grace? ==> m.busy == n.busy)
  {
    StepLasts(n, ev);
  }

  lemma OtherOpened(n: Nat, ev: NatEvent, seen: seq<NatEvent>)
    requires NatInv(n) && CanStep(n, ev) && AllOpened(n, seen) && !ev.Frame?
    ensures AllOpened(NatStep(n, ev), seen)
  {
    OtherAdds(n, ev);
    OpenedAlong(n, NatStep(n, ev), seen);
  }

  lemma OpenedAlong(n: Nat, m: Nat, seen: seq<NatEvent>)
    requires AllOpened(n, seen)
    requires forall i :: 0 <= i < |n.conns| ==> i < |m.conns| && m.conns[i].id == n.conns[i].id
    requires forall i :: |n.conns| <= i < |m.conns| ==> n.busy.Grace? && m.conns[i].id == n.busy.id
    requires m.busy.Grace? ==> m.busy == n.busy
    ensures AllOpened(m, seen)
  {
    forall i | 0 <= i < |m.conns|
      ensures Opener(m.conns[i].id, seen)
    {
      if i < |n.conns| { assert Opener(n.conns[i].id, seen); }
    }
  }

  lemma StepOpened(n: Nat, ev: NatEvent, seen: seq<NatEvent>)
    requires Sound(n) && CanStep(n, ev) && AllOpened(n, seen)
    ensures Sound(NatStep(n, ev)) && AllOpened(NatStep(n, ev), seen + [ev])
  {
    SoundIs(n);
    NatStepKeeps(n, ev);
    SoundIs(NatStep(n, ev));
    SeenMore(n, seen, ev);
    if ev.Frame? {
      assert ev in seen + [ev];
      FrameOpened(n, ev, seen + [ev]);
    } else {
      OtherOpened(n, ev, seen + [ev]);
    }
  }

  lemma {:induction false} RunOpened(n: Nat, evs: seq<NatEvent>, seen: seq<NatEvent>)
    requires Sound(n) && CanNat(n, evs) && AllOpened(n, seen)
    ensures AllOpened(AfterNat(n, evs), seen + evs)
    decreases |evs|
  {
    if |evs| == 0 {
      assert seen + evs == seen;
    } else {
      StepOpened(n, evs[0], seen);
      RunOpened(NatStep(n, evs[0]), evs[1..], seen + [evs[0]]);
      assert seen + [evs[0]] + evs[1..] == seen + evs;
    }
  }

  // ---- Towards the chip ----

  /** The emissions answer the SYN `t` that came from `src` for `dst`, drawn number `isn`:
      the first is the SYN+ACK, and all of them go from the port the chip dialled to the one
      it dialled from. */
  predicate AnswerTo(out: seq<Emission>, t: Tcp, isn: u32) {
    && |out| > 0
    && out[0].seg.flags == 0x12 && out[0].seg.seqNo == isn && out[0].seg.ackNo == (t.seqNo + 1) % 0x1_0000_0000
    && forall k :: 0 <= k < |out| ==> out[k].seg.srcPort == t.dstPort && out[k].seg.dstPort == t.srcPort
  }

  /** The answer to its SYN first, then only what goes the same way. */
  ghost predicate Answering(c: Conn) {
    |c.out| > 0 && c.out[0].seg == SynAck(c.id) && forall k :: 0 < k < |c.out| ==> Dressed(c.id, c.out[k].seg)
  }

  lemma LifeAnswers(l: Life, c: Conn)
    requires Lived(l, c)
    ensures Answering(c)
  {
    AnsweredOnce(l.id, l.deferred, l.past);
    RunFrame(Opened(l.id, l.deferred), l.past);
  }

  lemma AnswersOpener(c: Conn, f: NatEvent)
    requires OpenedBy(c.id, f) && Answering(c)
    ensures AnswerTo(c.out, f.t, f.isn)
  {
  }

  /** Over every run: every connection answers the SYN of one of the frames, allowed by the
      guard, at its addresses and ports, and so does everything it ever sends. */
  lemma AnswersItsSyn(evs: seq<NatEvent>, i: nat) returns (f: NatEvent)
    requires CanNat(EMPTY, evs) && i < |AfterNat(EMPTY, evs).conns|
    ensures f in evs && f.Frame? && HasSyn(f.t) && !HasAck(f.t) && f.allowed
    ensures var c := AfterNat(EMPTY, evs).conns[i];
            c.id.key.chipIp == f.src && c.id.key.dstIp == f.dst && AnswerTo(c.out, f.t, f.isn)
            && OpenedBy(c.id, f)
  {
    SoundIs(EMPTY);
    RunOpened(EMPTY, evs, []);
    assert [] + evs == evs;
    var c := AfterNat(EMPTY, evs).conns[i];
    f :| f in evs && OpenedBy(c.id, f);
    EveryConnectionRuns(EMPTY, evs, i);
    LifeAnswers(LifeOf(EMPTY, evs, i).value, c);
    AnswersOpener(c, f);
  }

  /** A segment of the gateway as the chip sees it. */
  function FrameFor(mac: Mac, gw: Mac, key: Key, t: Tcp): Option<bytes> {
    match TcpToBytes(t, key.dstIp, key.chipIp)
    case None => None
    case Some(b) => if |b| > 0xffff - 20 then None else MakeFrameIPv4(mac, gw, key.dstIp, key.chipIp, IPPROTO_TCP, b)
  }

  /** The chip, unwrapping the frame of any emission, sees a segment from the address and port
      it had dialled to its own, with the emission's numbers, control bits and payload. */
  lemma EmissionReachesChip(evs: seq<NatEvent>, i: nat, k: nat, mac: Mac, gw: Mac, padding: bytes)
    returns (f: NatEvent)
    requires CanNat(EMPTY, evs) && i < |AfterNat(EMPTY, evs).conns| && k < |AfterNat(EMPTY, evs).conns[i].out|
    ensures f in evs && f.Frame?
    ensures var c := AfterNat(EMPTY, evs).conns[i];
            && FrameFor(mac, gw, c.id.key, c.out[k].seg).Some?
            && UnwrapsTo(FrameFor(mac, gw, c.id.key, c.out[k].seg).value + padding, f.dst, f.src, c.out[k].seg)
            && c.out[k].seg.srcPort == f.t.dstPort && c.out[k].seg.dstPort == f.t.srcPort
  {
    f := AnswersItsSyn(evs, i);
    EverythingFitsMtu(evs, i, k);
    var c := AfterNat(EMPTY, evs).conns[i];
    TcpUnwraps(mac, gw, c.id.key.dstIp, c.id.key.chipIp, c.out[k].seg, padding);
  }

  // ---- From the chip ----

  /** The frame has the addresses and ports of frame `f`. */
  predicate SameFlow(ev: NatEvent, f: NatEvent) {
    && ev.Frame? && f.Frame? && ev.src == f.src && ev.dst == f.dst
    && ev.t.srcPort == f.t.srcPort && ev.t.dstPort == f.t.dstPort
  }

  lemma FrameReaches(n: Nat, i: nat, ev: NatEvent)
    requires NatInv(n) && i < |n.conns| && ev.Frame? && CanStep(n, ev)
    ensures var m := NatStep(n, ev);
            var here := n.conns[i].listed && FlowOf(n.conns[i].id.key, ev);
            && i < |m.conns| && (here ==> n.conns[i].handler == Idle)
            && m.conns[i] == (if here then HandleSegment(n.conns[i], ev.t) else n.conns[i])
  {
    var key := KeyOf(ev.src, ev.dst, ev.t);
    if n.conns[i].listed { assert n.conns[i].id.key in n.table && n.table[n.conns[i].id.key] == i; }
    if key in n.table { assert n.conns[n.table[key]].listed; }
  }

  /** Over every run: a later frame reaches a connection exactly if the connection is still in
      the table and the frame has the addresses and ports of the SYN that opened it; then it
      takes the segment, and otherwise it stays as it is. */
  lemma ReachesIffSameFlow(evs: seq<NatEvent>, i: nat, f: NatEvent, ev: NatEvent)
    requires CanNat(EMPTY, evs) && i < |AfterNat(EMPTY, evs).conns| && OpenedBy(AfterNat(EMPTY, evs).conns[i].id, f)
    requires ev.Frame? && CanStep(AfterNat(EMPTY, evs), ev)
    ensures var n := AfterNat(EMPTY, evs);
            var m := NatStep(n, ev);
            && i < |m.conns|
            && (n.conns[i].listed && SameFlow(ev, f) ==>
                  n.conns[i].handler == Idle && m.conns[i] == HandleSegment(n.conns[i], ev.t))
            && (!(n.conns[i].listed && SameFlow(ev, f)) ==> m.conns[i] == n.conns[i])
  {
    NatRunKeeps(EMPTY, evs);
    FrameReaches(AfterNat(EMPTY, evs), i, ev);
  }

  // ---- Segments of no connection ----

  /** A frame of no connection draws a reset exactly if it is no reset itself and no SYN that
      waits for or is given a dial; a SYN does if its destination is blocked, and later if its
      dial is refused. The reset goes back where the frame came from. */
  lemma StrayAnsweredIff(n: Nat, ev: NatEvent)
    requires NatInv(n) && CanStep(n, ev) && ev.Frame?
    ensures var m := NatStep(n, ev);
            var known := exists i :: 0 <= i < |n.conns| && n.conns[i].listed && FlowOf(n.conns[i].id.key, ev);
            var dialling := exists k :: k in n.connecting && FlowOf(k, ev);
            var answered := !known && !HasRst(ev.t) && (HasSyn(ev.t) && !HasAck(ev.t) ==> !dialling && !ev.allowed);
            && |m.strays| == |n.strays| + (if answered then 1 else 0) && m.strays[..|n.strays|] == n.strays
            && (answered ==> GoesBack(m.strays[|n.strays|], ev.src, ev.dst, ev.t))
  {
    var key := KeyOf(ev.src, ev.dst, ev.t);
    if key in n.table { assert n.conns[n.table[key]].listed && FlowOf(n.conns[n.table[key]].id.key, ev); }
    if key in n.connecting { assert FlowOf(key, ev); }
  }

  predicate FlowOf(k: Key, ev: NatEvent)
    requires ev.Frame?
  {
    k.chipIp == ev.src && k.dstIp == ev.dst && k.chipPort == ev.t.srcPort && k.dstPort == ev.t.dstPort
  }

  predicate GoesBack(s: Stray, src: Ip4, dst: Ip4, t: Tcp) {
    && s.key.chipIp == src && s.key.dstIp == dst
    && s.seg.srcPort == t.dstPort && s.seg.dstPort == t.srcPort && s.seg.flags == 0x14
    && s.seg.payload == [] && s.seg.options == [] && s.seg.window == 0 && s.seg.dataOffset == 5
  }

  /** A refused dial is answered like a blocked one. */
  lemma RefusalAnswered(evs: seq<NatEvent>) returns (f: NatEvent)
    requires CanNat(EMPTY, evs) && AfterNat(EMPTY, evs).busy.Grace?
    ensures f in evs && f.Frame? && OpenedBy(AfterNat(EMPTY, evs).busy.id, f)
    ensures var n := AfterNat(EMPTY, evs);
            var m := NatStep(n, GraceEnd(Refused));
            && |m.strays| == |n.strays| + 1 && GoesBack(m.strays[|n.strays|], f.src, f.dst, f.t) && m.conns == n.conns
  {
    SoundIs(EMPTY);
    RunOpened(EMPTY, evs, []);
    assert [] + evs == evs;
    var n := AfterNat(EMPTY, evs);
    f :| f in evs && OpenedBy(n.busy.id, f) && f.t == n.busy.syn;
  }
}
