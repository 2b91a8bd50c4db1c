/** When answering the SYN before the host socket exists makes no difference to what either
    side sees, once the dial succeeds. */
module ConnTransparency {
  import opened Bytes
  import opened SeqArith
  import opened Packets
  import opened ConnSpec
  import opened ConnRuns
  import opened ConnShape
  import opened ConnReset

  /** Steps only the deferred connection takes. */
  predicate OwnStep(e: Event) { e.Dialled? || e.Flushed? || e.CancelSeen? || e.PumpExit? }

  /** The dial and every host write succeed. */
  predicate AllSucceed(es: seq<Event>) {
    forall k :: 0 <= k < |es| ==> Succeeds(es[k])
  }

  predicate Succeeds(e: Event) { e.Dialled? || e.Flushed? || e.Drained? ==> e.ok }

  /** The deferred connection `d` beside `i`, whose socket was open from the start: the
      same protocol state, counters, emissions and suspended delivery; the host of `i` has
      been given what the host of `d` has plus what `d` still holds for it. */
  predicate Alike(d: Conn, i: Conn) {
    && d.id == i.id && d.state == i.state && d.ourSeq == i.ourSeq && d.chipSeq == i.chipSeq
    && d.listed == i.listed && d.got == i.got && d.out == i.out && d.handler == i.handler
    && d.finsIn == i.finsIn && d.finsOut == i.finsOut && d.ourNext == i.ourNext && d.chipNext == i.chipNext
    && i.open && i.held == [] && !i.heldEof && i.dial == NoDial
    && i.sent == d.sent + d.held
    && i.eofs == d.eofs + (if d.heldEof then 1 else 0)
    && d.dial != NoDial && (d.dial == Over && d.open ==> !d.heldEof)
    && (d.listed ==> if d.dial == Over then d.open && d.pump == i.pump else i.pump == Running)
  }

  /** What the connection with the open socket does when `d` takes `e`: the same, except
      that it writes what `d` only holds, and has its write drained before anything else. */
  function Mirror(d: Conn, e: Event): seq<Event> {
    if OwnStep(e) then []
    else if e.FromChip? && |HandleSegment(d, e.t).held| > |d.held| then [e, Drained(true)]
    else [e]
  }

  function Mirrored(d: Conn, es: seq<Event>): seq<Event>
    requires CanRun(d, es)
    decreases |es|
  {
    if |es| == 0 then [] else Mirror(d, es[0]) + Mirrored(Step(d, es[0]), es[1..])
  }

  // ---- Segments ----

  lemma OnFinAlike(d: Conn, i: Conn, t: Tcp)
    requires Alike(d, i) && d.handler == Idle && d.eofs == 0 && !d.heldEof && (d.open ==> d.held == [])
    ensures Alike(OnFin(d, t), OnFin(i, t))
  {
  }

  lemma AckedAlike(d: Conn, i: Conn, n: nat)
    requires Alike(d, i) && d.handler == Idle
    ensures Alike(AckOnly(AdvanceChip(d, n)), AckOnly(AdvanceChip(i, n)))
  {
  }

  /** A payload that one side writes and the other holds. */
  lemma HoldingAlike(d: Conn, i: Conn, t: Tcp)
    requires Tasks(d) && Alike(d, i) && d.listed && d.handler == Idle && d.state == Established && !d.open
    requires |t.payload| > 0 && t.seqNo == d.chipSeq
    ensures Alike(OnData(d, t), Completed(OnData(i, t)))
    ensures OnData(i, t).handler.Draining? && |OnData(d, t).held| > |d.held|
  {
    var d1, i1 := d.(held := d.held + t.payload), i.(sent := i.sent + t.payload);
    assert d1.sent + d1.held == i1.sent;
    assert i1.(handler := Idle) == i1;
    AckedAlike(d1, i1, |t.payload|);
    OnFinAlike(AckOnly(AdvanceChip(d1, |t.payload|)), AckOnly(AdvanceChip(i1, |t.payload|)), t);
  }

  lemma WritingAlike(d: Conn, i: Conn, t: Tcp)
    requires Tasks(d) && Alike(d, i) && d.listed && d.handler == Idle && d.state == Established && d.open
    requires |t.payload| > 0 && t.seqNo == d.chipSeq
    ensures Alike(OnData(d, t), OnData(i, t)) && OnData(d, t).held == d.held
  {
    assert d.sent + [] == d.sent && d.sent + t.payload + [] == d.sent + t.payload;
  }

  /** The pair after a segment: where `i` wrote what `d` holds, with its write drained. */
  function Caught(d: Conn, i: Conn): Conn {
    if i.handler.Draining? && d.handler == Idle then Completed(i) else i
  }

  lemma OnDataAlike(d: Conn, i: Conn, t: Tcp)
    requires Tasks(d) && Alike(d, i) && d.listed && d.handler == Idle && d.state == Established
    ensures Alike(OnData(d, t), Caught(OnData(d, t), OnData(i, t)))
    ensures |OnData(d, t).held| > |d.held| <==> OnData(d, t).handler == Idle && OnData(i, t).handler.Draining?
  {
    if |t.payload| == 0 {
      OnFinAlike(d, i, t);
    } else if t.seqNo == d.chipSeq {
      if d.open { WritingAlike(d, i, t); } else { HoldingAlike(d, i, t); }
    }
  }

  lemma CloseAlike(d: Conn, i: Conn, rst: bool)
    requires Alike(d, i)
    ensures Alike(Close(d, rst), Close(i, rst))
  {
  }

  lemma FinWaitAlike(d: Conn, i: Conn, t: Tcp)
    requires Alike(d, i) && d.handler == Idle && (d.state == FinWait1 || d.state == FinWait2)
    ensures Alike(OnFinWait2(d, t), OnFinWait2(i, t)) && OnFinWait2(d, t).held == d.held
  {
    if HasFin(t) {
      var d1, i1 := AdvanceChip(d, 1).(finsIn := d.finsIn + 1), AdvanceChip(i, 1).(finsIn := i.finsIn + 1);
      assert Alike(d1, i1);
      assert Alike(AckOnly(d1), AckOnly(i1));
      CloseAlike(AckOnly(d1), AckOnly(i1), false);
    }
  }

  lemma SegmentAlike(d: Conn, i: Conn, t: Tcp)
    requires Tasks(d) && Alike(d, i) && d.listed && d.handler == Idle
    ensures Alike(HandleSegment(d, t), Caught(HandleSegment(d, t), HandleSegment(i, t)))
    ensures |HandleSegment(d, t).held| > |d.held| <==>
              HandleSegment(d, t).handler == Idle && HandleSegment(i, t).handler.Draining?
  {
    if HasRst(t) {
      CloseAlike(d, i, false);
    } else {
      match d.state
      case SynRcvd =>
        if HasAck(t) && t.ackNo == d.ourSeq && |t.payload| > 0 {
          OnDataAlike(d.(state := Established), i.(state := Established), t);
        }
      case Established => OnDataAlike(d, i, t);
      case FinWait1 =>
        if HasAck(t) && t.ackNo == d.ourSeq {
          FinWaitAlike(d.(state := FinWait2), i.(state := FinWait2), t);
        } else {
          FinWaitAlike(d, i, t);
        }
      case FinWait2 => FinWaitAlike(d, i, t);
      case LastAck => CloseAlike(d, i, false);
      case _ =>
    }
  }

  // ---- Other steps ----

  lemma DrainedAlike(d: Conn, i: Conn)
    requires Tasks(d) && Alike(d, i) && d.handler.Draining?
    ensures Alike(Step(d, Drained(true)), Step(i, Drained(true)))
  {
    var d1, i1, t := d.(handler := Idle), i.(handler := Idle), d.handler.t;
    AckedAlike(d1, i1, |t.payload|);
    var d2, i2 := AckOnly(AdvanceChip(d1, |t.payload|)), AckOnly(AdvanceChip(i1, |t.payload|));
    OnFinAlike(d2, i2, t);
  }

  lemma {:induction false} ChunkAlike(d: Conn, i: Conn, chunk: bytes)
    requires Alike(d, i) && d.id.mss > 0
    ensures Alike(SendChunk(d, chunk), SendChunk(i, chunk))
    decreases |chunk|
  {
    if |chunk| > 0 {
      ChunkAlike(SendPiece(d, Slice(chunk, 0, d.id.mss)), SendPiece(i, Slice(chunk, 0, d.id.mss)),
                 Slice(chunk, d.id.mss, |chunk|));
    }
  }

  lemma OwnStepAlike(d: Conn, i: Conn, e: Event)
    requires Tasks(d) && Alike(d, i) && Enabled(d, e) && Succeeds(e) && OwnStep(e)
    ensures Alike(Step(d, e), i)
  {
    if e.Dialled? { assert d.sent + d.held == d.held && d.held + [] == d.held; }
  }

  lemma HostEndedAlike(d: Conn, i: Conn)
    requires Tasks(d) && Alike(d, i) && Reading(d) && d.listed
    ensures Reading(i) && Alike(HostEnded(d), HostEnded(i))
  {
  }

  // ---- Runs ----

  lemma {:induction false} LeadsThrough(c: Conn, a: seq<Event>, m: Conn, b: seq<Event>, z: Conn)
    requires Leads(c, a, m) && Leads(m, b, z)
    ensures Leads(c, a + b, z)
    decreases |a|
  {
    if |a| == 0 {
      assert a + b == b;
    } else {
      assert (a + b)[0] == a[0] && (a + b)[1..] == a[1..] + b;
      LeadsThrough(Step(c, a[0]), a[1..], m, b, z);
    }
  }

  lemma {:induction false} TasksKept(c: Conn, es: seq<Event>)
    requires Tasks(c) && CanRun(c, es)
    ensures Tasks(After(c, es))
    decreases |es|
  {
    if |es| > 0 {
      StepTasks(c, es[0]);
      TasksKept(Step(c, es[0]), es[1..]);
    }
  }

  lemma OneEvent(c: Conn, e: Event)
    requires Enabled(c, e)
    ensures Leads(c, [e], Step(c, e))
  {
    assert [e][1..] == [];
    assert Leads(Step(c, e), [], Step(c, e));
  }

  lemma SameStepAlike(d: Conn, i: Conn, e: Event)
    requires Tasks(d) && Alike(d, i) && Enabled(d, e) && Succeeds(e) && !OwnStep(e) && !e.FromChip?
    requires PumpReads(e) ==> d.listed
    ensures Enabled(i, e) && Alike(Step(d, e), Step(i, e))
  {
    match e
    case Drained(ok) => DrainedAlike(d, i);
    case Chunk(data) => ChunkAlike(d, i, data);
    case HostEof => HostEndedAlike(d, i);
    case ReadFailed => CloseAlike(d, i, true);
    case Shutdown => CloseAlike(d, i, true);
    case _ =>
  }

  /** A segment, mirrored with the drain that the other connection does not need. */
  lemma SegmentMirrored(d: Conn, i: Conn, e: Event) returns (j: Conn)
    requires Tasks(d) && Tasks(i) && Alike(d, i) && Enabled(d, e) && e.FromChip?
    ensures Leads(i, Mirror(d, e), j) && Alike(Step(d, e), j) && Tasks(j)
  {
    j := Step(i, e);
    SegmentAlike(d, i, e.t);
    StepTasks(i, e);
    OneEvent(i, e);
    if |HandleSegment(d, e.t).held| > |d.held| {
      StepTasks(j, Drained(true));
      OneEvent(j, Drained(true));
      LeadsThrough(i, [e], j, [Drained(true)], Step(j, Drained(true)));
      assert [e] + [Drained(true)] == [e, Drained(true)];
      j := Step(j, Drained(true));
    }
  }

  lemma StepAlike(d: Conn, i: Conn, e: Event) returns (j: Conn)
    requires Tasks(d) && Tasks(i) && Alike(d, i) && Enabled(d, e) && Succeeds(e)
    requires PumpReads(e) ==> d.listed
    ensures Leads(i, Mirror(d, e), j) && Alike(Step(d, e), j) && Tasks(j)
  {
    if OwnStep(e) {
      OwnStepAlike(d, i, e);
      j := i;
    } else if e.FromChip? {
      j := SegmentMirrored(d, i, e);
    } else {
      SameStepAlike(d, i, e);
      StepTasks(i, e);
      OneEvent(i, e);
      j := Step(i, e);
    }
  }

  lemma RestSucceeds(es: seq<Event>)
    requires AllSucceed(es) && |es| > 0
    ensures Succeeds(es[0]) && AllSucceed(es[1..])
  {
  }

  lemma {:induction false} RunAlike(d: Conn, i: Conn, es: seq<Event>) returns (z: Conn)
    requires Tasks(d) && Tasks(i) && Alike(d, i) && CanRun(d, es) && AllSucceed(es) && !ReadsWhileOut(d, es)
    ensures Leads(i, Mirrored(d, es), z) && Alike(After(d, es), z)
    decreases |es|
  {
    if |es| == 0 {
      z := i;
    } else {
      RestSucceeds(es);
      var m := StepAlike(d, i, es[0]);
      StepTasks(d, es[0]);
      z := RunAlike(Step(d, es[0]), m, es[1..]);
      LeadsThrough(i, Mirror(d, es[0]), m, Mirrored(Step(d, es[0]), es[1..]), z);
    }
  }

  /** What the chip sends along a run. */
  function Segments(es: seq<Event>): seq<Tcp> {
    if |es| == 0 then [] else (if es[0].FromChip? then [es[0].t] else []) + Segments(es[1..])
  }

  lemma {:induction false} SegmentsConcat(a: seq<Event>, b: seq<Event>)
    ensures Segments(a + b) == Segments(a) + Segments(b)
    decreases |a|
  {
    if |a| == 0 {
      assert a + b == b;
    } else {
      assert (a + b)[0] == a[0] && (a + b)[1..] == a[1..] + b;
      SegmentsConcat(a[1..], b);
    }
  }

  lemma {:induction false} BytesReadConcat(a: seq<Event>, b: seq<Event>)
    ensures BytesRead(a + b) == BytesRead(a) + BytesRead(b)
    decreases |a|
  {
    if |a| == 0 {
      assert a + b == b;
    } else {
      assert (a + b)[0] == a[0] && (a + b)[1..] == a[1..] + b;
      BytesReadConcat(a[1..], b);
    }
  }

  lemma FeedsConcat(a: seq<Event>, b: seq<Event>)
    ensures Segments(a + b) == Segments(a) + Segments(b) && BytesRead(a + b) == BytesRead(a) + BytesRead(b)
  {
    SegmentsConcat(a, b);
    BytesReadConcat(a, b);
  }

  lemma MirrorFeedsOne(d: Conn, e: Event)
    ensures Segments(Mirror(d, e)) == Segments([e]) && BytesRead(Mirror(d, e)) == BytesRead([e])
  {
    assert [e][1..] == [];
    if e.FromChip? {
      assert [e, Drained(true)][1..] == [Drained(true)] && [Drained(true)][1..] == [];
    }
  }

  lemma {:induction false} MirrorFeeds(d: Conn, es: seq<Event>)
    requires CanRun(d, es)
    ensures var js := Mirrored(d, es);
            Segments(js) == Segments(es) && BytesRead(js) == BytesRead(es)
    decreases |es|
  {
    if |es| > 0 {
      var rest := Mirrored(Step(d, es[0]), es[1..]);
      MirrorFeedsOne(d, es[0]);
      MirrorFeeds(Step(d, es[0]), es[1..]);
      FeedsConcat(Mirror(d, es[0]), rest);
      FeedsConcat([es[0]], es[1..]);
      assert [es[0]] + es[1..] == es;
    }
  }

  /** Seen from the chip and from the host, `d` and `i` are the same: state, counters, place
      in the table, acknowledgements and all other emissions, the suspended delivery; what
      was given to the host differs only by what `d` still holds, and by nothing once the
      dial is over with the socket open. */
  predicate SameSides(d: Conn, i: Conn) {
    && d.state == i.state && d.listed == i.listed && d.chipSeq == i.chipSeq && d.ourSeq == i.ourSeq
    && d.out == i.out && d.handler == i.handler && d.got == i.got && d.sent + d.held == i.sent
    && d.eofs + (if d.heldEof then 1 else 0) == i.eofs
    && (d.open && d.dial == Over ==> d.sent == i.sent && d.eofs == i.eofs)
  }

  /** A run of the connection whose socket was open before the SYN was answered, with the
      same segments from the chip and the same bytes from the host, that does the same. */
  ghost predicate Matches(id: Identity, es: seq<Event>, js: seq<Event>)
    requires CanRun(Opened(id, true), es)
  {
    && CanRun(Opened(id, false), js)
    && Segments(js) == Segments(es) && BytesRead(js) == BytesRead(es)
    && SameSides(After(Opened(id, true), es), After(Opened(id, false), js))
  }

  lemma MirroredMatches(id: Identity, es: seq<Event>)
    requires id.mss <= TCP_MSS && CanRun(Opened(id, true), es) && AllSucceed(es)
    requires !ReadsWhileOut(Opened(id, true), es)
    ensures Matches(id, es, Mirrored(Opened(id, true), es))
  {
    var d := Opened(id, true);
    var i := RunAlike(d, Opened(id, false), es);
    MirrorFeeds(d, es);
    TasksKept(d, es);
  }

  /** After its reset the connection with the open socket only acknowledges. */
  lemma OpenNeverSpeaksAgain(id: Identity, js: seq<Event>)
    requires CanRun(Opened(id, false), js)
    ensures !SpokeAgain(After(Opened(id, false), js))
  {
    NeverSpeaksAgain(Opened(id, false), js);
  }

  /** For every interleaving in which the dial and the host writes succeed, at whatever
      points: answering the SYN before the socket exists makes no difference that the chip
      or the host could see, if and only if the pump never reads from the host after the
      connection has left the table. */
  lemma DeferredConnectTransparentIff(id: Identity, es: seq<Event>)
    requires id.mss <= TCP_MSS && CanRun(Opened(id, true), es) && AllSucceed(es)
    ensures (exists js :: Matches(id, es, js)) <==> !ReadsWhileOut(Opened(id, true), es)
  {
    var d := Opened(id, true);
    if ReadsWhileOut(d, es) {
      ReadingOutSpeaks(d, es);
      forall js | CanRun(Opened(id, false), js)
        ensures !Matches(id, es, js)
      {
        OpenNeverSpeaksAgain(id, js);
      }
    } else {
      MirroredMatches(id, es);
    }
  }

  /** Such a read needs a shutdown in the middle of a frame: while the handler is suspended
      in the delivery of a payload with the FIN and the flush of the held bytes is still
      running. */
  lemma TransparentUnlessStoppedInFlush(id: Identity, es: seq<Event>)
    requires id.mss <= TCP_MSS && CanRun(Opened(id, true), es) && AllSucceed(es)
    requires !StoppedInFlush(Opened(id, true), es)
    ensures exists js :: Matches(id, es, js)
  {
    var d := Opened(id, true);
    assert forall k :: 0 <= k < |es| ==> Succeeds(es[k]);
    if ReadsWhileOut(d, es) { ReadingOutNeedsStop(d, es); }
    DeferredConnectTransparentIff(id, es);
  }

  // ---- Such a shutdown shows ----

  /** From `c` the events run and the dial and host writes succeed, but the pump reads
      while the connection is out of the table. */
  ghost predicate Strays(c: Conn, es: seq<Event>) {
    CanRun(c, es) && AllSucceed(es) && ReadsWhileOut(c, es)
  }

  lemma StraysOn(c: Conn, e: Event, es: seq<Event>)
    requires Enabled(c, e) && Succeeds(e) && Strays(Step(c, e), es)
    ensures Strays(c, [e] + es)
  {
    assert ([e] + es)[1..] == es;
  }

  lemma {:induction false} StraysLater(c: Conn, a: seq<Event>, b: seq<Event>)
    requires CanRun(c, a) && AllSucceed(a) && Strays(After(c, a), b)
    ensures Strays(c, a + b)
    decreases |a|
  {
    if |a| == 0 {
      assert a + b == b;
    } else {
      assert a + b == [a[0]] + (a[1..] + b);
      RestSucceeds(a);
      StraysLater(Step(c, a[0]), a[1..], b);
      StraysOn(c, a[0], a[1..] + b);
    }
  }

  lemma StraysNow(c: Conn)
    requires Reading(c) && !c.listed
    ensures Strays(c, [HostEof])
  {
    assert [HostEof][1..] == [];
  }

  /** What the program goes on to do after a shutdown in such a delivery. */
  function Onward(): seq<Event> { [Shutdown] + ([Drained(true)] + ([Flushed(true)] + [HostEof])) }

  lemma StoppedStrays(c: Conn)
    requires c.listed && c.state != Closed && c.open && FinPendingInFlush(c)
    ensures Strays(c, Onward())
  {
    var c1 := Step(c, Shutdown);
    var c2 := Step(c1, Drained(true));
    assert c2.state == CloseWait && c2.dial == Flushing && !c2.listed;
    StraysNow(Step(c2, Flushed(true)));
    StraysOn(c2, Flushed(true), [HostEof]);
    StraysOn(c1, Drained(true), [Flushed(true)] + [HostEof]);
    StraysOn(c, Shutdown, [Drained(true)] + ([Flushed(true)] + [HostEof]));
  }

  /** Every run that comes to such a delivery has a continuation, starting with the
      shutdown, that no run of the other connection matches. */
  lemma StoppedInFlushShows(id: Identity, es: seq<Event>)
    requires id.mss <= TCP_MSS && CanRun(Opened(id, true), es) && AllSucceed(es)
    requires After(Opened(id, true), es).listed && FinPendingInFlush(After(Opened(id, true), es))
    ensures var fs := es + Onward();
            CanRun(Opened(id, true), fs) && AllSucceed(fs) && !exists js :: Matches(id, fs, js)
  {
    TasksKept(Opened(id, true), es);
    StoppedStrays(After(Opened(id, true), es));
    StraysLater(Opened(id, true), es, Onward());
    DeferredConnectTransparentIff(id, es + Onward());
  }

  lemma FinDuringFlush(c: Conn, t: Tcp) returns (es: seq<Event>, z: Conn)
    requires c.state == Established && c.listed && c.handler == Idle && c.dial == Dialling && |c.held| > 0
    requires !HasRst(t) && HasFin(t) && |t.payload| > 0 && t.seqNo == c.chipSeq
    ensures Leads(c, es, z) && AllSucceed(es) && z.listed && FinPendingInFlush(z)
  {
    var b := Step(c, Dialled(true));
    z := Step(b, FromChip(t));
    es := LeadsOn(b, FromChip(t), [], z);
    es := LeadsOn(c, Dialled(true), es, z);
  }

  /** A payload while the dial is running, one with the FIN while the flush is. */
  lemma ComesToSuchADelivery(id: Identity) returns (es: seq<Event>)
    ensures CanRun(Opened(id, true), es) && AllSucceed(es)
    ensures After(Opened(id, true), es).listed && FinPendingInFlush(After(Opened(id, true), es))
  {
    var c := Opened(id, true);
    var first := Tcp(id.key.chipPort, id.key.dstPort, c.chipSeq, c.ourSeq, 5, TCP_ACK, 0, 0, 0, [], [1]);
    var b := Step(c, FromChip(first));
    var rest, z := FinDuringFlush(b, first.(seqNo := b.chipSeq, flags := TCP_ACK + TCP_FIN));
    es := LeadsOn(c, FromChip(first), rest, z);
  }
}
