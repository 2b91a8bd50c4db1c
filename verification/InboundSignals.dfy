/** What the request coroutine is woken by: the meaning, over every run, of the events a
    connection into the chip has set. */
module InboundSignals {
  import opened Bytes
  import opened Packets
  import opened InboundSpec
  import opened InboundTable

  /** The event resets connection `i`: a reset of the chip for it, or a shutdown while it is in
      the table. */
  predicate Resets(d: Desk, e: DeskEvent, i: nat) {
    match e
    case Segment(_, _, t) => HasRst(t) && t.dstPort in d.table && d.table[t.dstPort] == i
    case Stop => i < |d.all| && d.all[i].c.ourPort in d.table && d.table[d.all[i].c.ourPort] == i
    case _ => false
  }

  predicate Interrupted(d: Desk, es: seq<DeskEvent>, i: nat)
    requires CanRun(d, es)
    decreases |es|
  {
    |es| > 0 && (Resets(d, es[0], i) || Interrupted(DeskStep(d, es[0]), es[1..], i))
  }

  /** `cut` tells whether it has been reset. */
  predicate Signals(c: Inbound, cut: bool) {
    && (c.reset <==> cut)
    && (c.established <==> cut || c.chipIsn.Some?)
    && (c.finished <==> cut || c.finsIn > 0)
    && (c.dataReady <==> c.rx != [])
    && (c.state == SynSent ==> c.chipIsn.None? && c.finsIn == 0)
    && (c.state == Established ==> c.chipIsn.Some? && c.finsIn == 0)
  }

  lemma FinSignals(c: Inbound, t: Tcp, cut: bool)
    requires Signals(c, cut) && c.state == Established
    ensures Signals(OnFin(c, t), cut)
  {
  }

  lemma SegmentSignals(c: Inbound, t: Tcp, cut: bool)
    requires Signals(c, cut)
    ensures Signals(OnSegment(c, t), cut || HasRst(t))
  {
    if !HasRst(t) && c.state == Established {
      FinSignals(c, t, cut);
      if |t.payload| > 0 && t.seqNo == c.chipSeq {
        assert |Taken(c, t).rx| > 0;
        FinSignals(Taken(c, t), t, cut);
      }
    }
  }

  predicate SignalsAt(d: Desk, i: nat, cut: bool) { if i < |d.all| then Signals(d.all[i].c, cut) else !cut }

  lemma DeskStepSignals(d: Desk, e: DeskEvent, i: nat, cut: bool)
    requires Keyed(d) && CanStep(d, e) && SignalsAt(d, i, cut)
    ensures SignalsAt(DeskStep(d, e), i, cut || Resets(d, e, i))
  {
    match e
    case Segment(_, _, t) =>
      if i < |d.all| { SegmentSignals(d.all[i].c, t, cut); }
    case _ =>
  }

  lemma {:induction false} RunSignals(d: Desk, es: seq<DeskEvent>, i: nat, cut: bool)
    requires Keyed(d) && CanRun(d, es) && SignalsAt(d, i, cut)
    ensures SignalsAt(After(d, es), i, cut || Interrupted(d, es, i))
    decreases |es|
  {
    if |es| > 0 {
      DeskStepSignals(d, es[0], i, cut);
      RunKeepsKeyed(d, [es[0]]);
      assert [es[0]][1..] == [] && After(d, [es[0]]) == DeskStep(d, es[0]);
      RunSignals(DeskStep(d, es[0]), es[1..], i, cut || Resets(d, es[0], i));
    }
  }

  /** Over every run a connection counts as reset exactly if the chip reset it or a shutdown
      found it in the table; the wait for the handshake ends exactly with a SYN+ACK or a reset,
      the wait for the end exactly with the chip's FIN or a reset; data is signalled exactly
      if there is some. */
  lemma SignalsMean(es: seq<DeskEvent>, i: nat)
    requires CanRun(IDLE, es) && i < |After(IDLE, es).all|
    ensures var c := After(IDLE, es).all[i].c;
            && (c.reset <==> Interrupted(IDLE, es, i))
            && (c.established <==> Interrupted(IDLE, es, i) || c.chipIsn.Some?)
            && (c.finished <==> Interrupted(IDLE, es, i) || c.finsIn > 0)
            && (c.dataReady <==> c.rx != [])
  {
    RunSignals(IDLE, es, i, false);
  }

  /** What a reset connection has asked is all it will. */
  predicate AskedOut(c: Inbound, d: Inbound) { d.reset && d.requested == c.requested && d.asked == c.asked }

  lemma FinAsksNoMore(c: Inbound, t: Tcp)
    requires c.reset
    ensures AskedOut(c, OnFin(c, t))
  {
  }

  lemma OwnStepAsksNoMore(c: Inbound, e: Event)
    requires Enabled(c, e) && c.reset
    ensures AskedOut(c, Step(c, e))
  {
    if e.Arrives? && !HasRst(e.t) && c.state == Established {
      FinAsksNoMore(c, e.t);
      FinAsksNoMore(Taken(c, e.t), e.t);
    }
  }

  lemma StepAsksNoMore(d: Desk, e: DeskEvent, i: nat)
    requires CanStep(d, e) && i < |d.all| && d.all[i].c.reset
    ensures i < |DeskStep(d, e).all| && AskedOut(d.all[i].c, DeskStep(d, e).all[i].c)
  {
    var c := d.all[i].c;
    match e
    case Segment(_, _, t) => OwnStepAsksNoMore(c, Arrives(t));
    case Send(j) => assert j != i;
    case Over(_) => OwnStepAsksNoMore(c, Finish);
    case Stop => OwnStepAsksNoMore(c, Cut);
    case _ =>
  }

  lemma {:induction false} ResetAsksNoMore(d: Desk, es: seq<DeskEvent>, i: nat)
    requires CanRun(d, es) && i < |d.all| && d.all[i].c.reset
    ensures i < |After(d, es).all| && AskedOut(d.all[i].c, After(d, es).all[i].c)
    decreases |es|
  {
    if |es| > 0 {
      StepAsksNoMore(d, es[0], i);
      ResetAsksNoMore(DeskStep(d, es[0]), es[1..], i);
    }
  }

  /** A request not sent before its connection was reset is never sent, and returns nothing. */
  lemma InterruptedNeverAsks(es: seq<DeskEvent>, more: seq<DeskEvent>, i: nat)
    requires CanRun(IDLE, es) && i < |After(IDLE, es).all| && Interrupted(IDLE, es, i)
    requires !After(IDLE, es).all[i].c.requested && CanRun(After(IDLE, es), more)
    ensures var z := After(After(IDLE, es), more);
            && i < |z.all| && !z.all[i].c.requested && z.all[i].c.asked == After(IDLE, es).all[i].c.asked
            && Response(z.all[i].c) == None
  {
    SignalsMean(es, i);
    ResetAsksNoMore(After(IDLE, es), more, i);
  }
}
