/** Undisturbed runs of a connection: it takes in exactly what a receiver by the plain rule
    would, and so all of the chip's stream once its pieces have arrived. */
module ConnDelivery {
  import opened Bytes
  import opened SeqArith
  import opened Packets
  import opened Reassembly
  import opened ConnSpec
  import opened ConnRuns
  import opened ConnFin
  import opened ConnTransparency

  /** Nothing ends the connection early: no reset, shutdown, failed dial or write, failed
      read or end-of-file of the host. */
  predicate Calm(e: Event) {
    match e
    case FromChip(t) => !HasRst(t)
    case HostEof | ReadFailed | Shutdown => false
    case _ => Succeeds(e)
  }

  /** The step is calm, and a segment is the chip's, its FIN in place. */
  ghost predicate Orderly(c: Conn, e: Event, s: bytes) {
    Calm(e) && !Misplaced(c, e) && (e.FromChip? ==> Belongs(c, e.t, s))
  }

  ghost predicate OrderlyRun(c: Conn, es: seq<Event>, s: bytes)
    requires CanRun(c, es)
    decreases |es|
  {
    |es| == 0 || (Orderly(c, es[0], s) && OrderlyRun(Step(c, es[0]), es[1..], s))
  }

  function Arriving(e: Event): seq<Arrival> {
    if e.FromChip? then [Arrival(e.t.seqNo, e.t.payload)] else []
  }

  function ArrivalsOf(es: seq<Event>): seq<Arrival> {
    if |es| == 0 then [] else Arriving(es[0]) + ArrivalsOf(es[1..])
  }

  /** The plain receiver that stands where `c` stands. */
  function Plain(c: Conn): Receiver { Receiver(Wrap(c.id.chipIsn + 1 + |Accepted(c)|), Accepted(c)) }

  predicate AtWork(c: Conn) {
    c.listed && (c.state == Established || (c.state == CloseWait && c.finsIn == 1))
  }

  /** Taking in data, or done with all of `s`. */
  ghost predicate TakingIn(c: Conn, s: bytes) { Inv(c, s) && Settled(c, s, true) && AtWork(c) }

  // ---- One step ----

  /** With all of `s` taken, nothing genuine stands at the expected number. */
  lemma NothingMore(c: Conn, t: Tcp, s: bytes)
    requires Accepted(c) == s && Genuine(t.seqNo, t.payload, c.id.chipIsn, s, |s|)
    ensures Receive(Plain(c), Arrival(t.seqNo, t.payload)) == Plain(c)
  {
    if |t.payload| > 0 {
      var o: nat :| Carries(t.seqNo, t.payload, c.id.chipIsn, s, o) && -M < o - |s| < M;
      if t.seqNo == Plain(c).next { WrapInjective(c.id.chipIsn + 1 + o, c.id.chipIsn + 1 + |s|); }
    }
  }

  /** Neither our acknowledgement nor the FIN changes what has been accepted. */
  lemma FinKeepsAccepted(c: Conn, t: Tcp)
    ensures Accepted(OnFin(c, t)) == Accepted(c) && Accepted(Delivered(c, t)) == Accepted(c)
  {
  }

  lemma DataAccepted(c: Conn, t: Tcp)
    requires c.open ==> c.held == []
    ensures Accepted(OnData(c, t))
         == if |t.payload| > 0 && t.seqNo == c.chipSeq then Accepted(c) + t.payload else Accepted(c)
  {
    if |t.payload| == 0 {
      FinKeepsAccepted(c, t);
    } else if t.seqNo == c.chipSeq {
      if c.open {
        assert c.sent + t.payload + [] == c.sent + [] + t.payload;
      } else {
        FinKeepsAccepted(c.(held := c.held + t.payload), t);
        assert c.sent + (c.held + t.payload) == c.sent + c.held + t.payload;
      }
    }
  }

  lemma DataState(c: Conn, t: Tcp)
    requires c.state == Established && c.finsIn == 0
    ensures var d := OnData(c, t);
            d.id == c.id && (c.listed ==> AtWork(d))
  {
  }

  lemma DataTaken(c: Conn, t: Tcp)
    requires c.listed && c.state == Established && c.finsIn == 0 && (c.open ==> c.held == [])
    requires c.chipSeq == Plain(c).next
    ensures var d := OnData(c, t);
            d.id == c.id && Plain(d) == Receive(Plain(c), Arrival(t.seqNo, t.payload)) && AtWork(d)
  {
    DataAccepted(c, t);
    DataState(c, t);
    ReceiveKeepsCount(Plain(c), Arrival(t.seqNo, t.payload), c.id.chipIsn);
  }

  lemma SegmentTaken(c: Conn, t: Tcp, s: bytes)
    requires TakingIn(c, s) && c.handler == Idle && !HasRst(t) && Belongs(c, t, s)
    ensures var d := HandleSegment(c, t);
            d.id == c.id && AtWork(d) && Plain(d) == Receive(Plain(c), Arrival(t.seqNo, t.payload))
  {
    if c.state == Established { DataTaken(c, t); } else { NothingMore(c, t, s); }
  }

  /** Where a calm step other than a segment leaves the connection. */
  lemma CalmStays(c: Conn, e: Event)
    requires Tasks(c) && AtWork(c) && Enabled(c, e) && Calm(e) && !e.FromChip? && !e.Drained?
    ensures var d := Step(c, e);
            d.id == c.id && AtWork(d) && Accepted(d) == Accepted(c)
  {
    OtherIntake(c, e);
    if e.Chunk? { SendChunkFrame(c, e.data); }
  }

  lemma DrainedStays(c: Conn)
    requires Tasks(c) && AtWork(c) && c.handler.Draining?
    ensures var d := Step(c, Drained(true));
            d.id == c.id && AtWork(d) && Accepted(d) == Accepted(c)
  {
    FinKeepsAccepted(c.(handler := Idle), c.handler.t);
  }

  lemma OtherTaken(c: Conn, e: Event)
    requires Tasks(c) && AtWork(c) && Enabled(c, e) && Calm(e) && !e.FromChip?
    ensures Step(c, e).id == c.id && AtWork(Step(c, e)) && Plain(Step(c, e)) == Plain(c)
  {
    if e.Drained? { DrainedStays(c); } else { CalmStays(c, e); }
  }

  lemma StepTaken(c: Conn, e: Event, s: bytes)
    requires TakingIn(c, s) && Enabled(c, e) && Orderly(c, e, s)
    ensures TakingIn(Step(c, e), s) && Step(c, e).id == c.id
    ensures Plain(Step(c, e)) == ReceiveAll(Plain(c), Arriving(e))
  {
    StepKeeps(c, e, s);
    StepSettled(c, e, s, true);
    if e.FromChip? {
      SegmentTaken(c, e.t, s);
      assert Arriving(e)[1..] == [];
    } else {
      OtherTaken(c, e);
    }
  }

  // ---- Runs ----

  lemma {:induction false} RunTaken(c: Conn, es: seq<Event>, s: bytes)
    requires TakingIn(c, s) && CanRun(c, es) && OrderlyRun(c, es, s)
    ensures TakingIn(After(c, es), s) && After(c, es).id == c.id
    ensures Plain(After(c, es)) == ReceiveAll(Plain(c), ArrivalsOf(es))
    decreases |es|
  {
    if |es| > 0 {
      StepTaken(c, es[0], s);
      RunTaken(Step(c, es[0]), es[1..], s);
      ReceiveAppend(Plain(c), Arriving(es[0]), ArrivalsOf(es[1..]));
    }
  }

  /** What it is for `d` to have taken in what the receiver holds. */
  predicate HasTaken(d: Conn, data: bytes) {
    && Accepted(d) == data && (d.open ==> d.sent == data) && d.listed
    && (d.handler == Idle ==> d.chipSeq == Wrap(d.id.chipIsn + 1 + |data| + d.finsIn))
  }

  lemma TakenSoFar(d: Conn, s: bytes, data: bytes)
    requires TakingIn(d, s) && Plain(d).data == data
    ensures HasTaken(d, data)
  {
    assert d.open ==> d.sent + [] == d.sent;
  }

  /** Every orderly run, however the dial, the drains and the host's bytes interleave: from
      an established connection on, what is accepted is exactly what the plain receiver makes
      of the same segments, written to the host as soon as the socket is open. */
  lemma IntakeIsReassembly(c: Conn, es: seq<Event>, s: bytes)
    requires Inv(c, s) && c.listed && c.handler == Idle && c.state == Established
    requires CanRun(c, es) && OrderlyRun(c, es, s)
    ensures HasTaken(After(c, es), ReceiveAll(Plain(c), ArrivalsOf(es)).data)
  {
    RunTaken(c, es, s);
    TakenSoFar(After(c, es), s, ReceiveAll(Plain(c), ArrivalsOf(es)).data);
  }

  lemma AllTaken(c: Conn, d: Conn, arrivals: seq<Arrival>, s: bytes, cuts: seq<nat>)
    requires HasTaken(d, ReceiveAll(Plain(c), arrivals).data) && PrefixOf(Accepted(c), s)
    requires CutsOf(cuts, s) && cuts[0] == |Accepted(c)|
    requires AllKnown(Plain(c), arrivals, c.id.chipIsn, s, cuts) && PiecesArrive(arrivals, c.id.chipIsn, s, cuts, 0)
    ensures HasTaken(d, s)
  {
    PiecesComplete(Plain(c), arrivals, c.id.chipIsn, s, cuts);
  }

  /** So all of the chip's stream arrives: if the pieces of what is still missing come in
      order, among any repetitions of them and any stale segments, all of it is accepted. */
  lemma StreamCompletes(c: Conn, es: seq<Event>, s: bytes, cuts: seq<nat>)
    requires Inv(c, s) && c.listed && c.handler == Idle && c.state == Established
    requires CanRun(c, es) && OrderlyRun(c, es, s)
    requires CutsOf(cuts, s) && cuts[0] == |Accepted(c)|
    requires AllKnown(Plain(c), ArrivalsOf(es), c.id.chipIsn, s, cuts)
    requires PiecesArrive(ArrivalsOf(es), c.id.chipIsn, s, cuts, 0)
    ensures HasTaken(After(c, es), s)
  {
    IntakeIsReassembly(c, es, s);
    AllTaken(c, After(c, es), ArrivalsOf(es), s, cuts);
  }
}
