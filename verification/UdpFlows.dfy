/** The table of UDP flows and its reaper, over time. */
module UdpFlows {
  import opened Bytes
  import opened Packets
  import C = ConnSpec

  const IDLE_TIMEOUT: real := 60.0
  const PASS_EVERY: real := 30.0

  type Key = C.Key

  /** `flows` gives each flow's last use. `wake` is when the reaper is next due, if it is
      alive; `opening` the flow whose socket the frame handler is waiting for. */
  datatype Table = Table(now: real, flows: map<Key, real>, wake: Option<real>, opening: Option<Key>)

  const START := Table(0.0, map[], None, None)

  /** `FromChip` is a datagram of the chip with the guard's verdict and whether the host
      socket takes it; `Opened` ends the wait for a new flow's socket; `Pass` is the reaper
      waking up. */
  datatype Event =
    | FromChip(key: Key, allowed: bool, sent: bool)
    | Opened(worked: bool, sent: bool)
    | FromHost(key: Key)
    | Pass
    | Tick(d: real)
    | Stop

  /** The chip's datagrams are handled one at a time; the reaper wakes when it is due, at
      most `late` behind time. */
  predicate Enabled(t: Table, late: real, e: Event) {
    match e
    case FromChip(_, _, _) => t.opening == None
    case Opened(_, _) => t.opening.Some?
    case FromHost(_) => true
    case Pass => t.wake.Some? && t.now >= t.wake.value
    case Tick(d) => d > 0.0 && (t.wake.Some? ==> t.now + d <= t.wake.value + late)
    case Stop => true
  }

  function Used(t: Table, key: Key, sent: bool): Table {
    t.(flows := if sent then t.flows[key := t.now] else t.flows - {key})
  }

  function Survivors(t: Table): map<Key, real> {
    map k | k in t.flows && t.flows[k] >= t.now - IDLE_TIMEOUT :: t.flows[k]
  }

  function Step(t: Table, e: Event): Table
    requires e.Opened? ==> t.opening.Some?
  {
    match e
    case FromChip(key, allowed, sent) =>
      if key in t.flows then Used(t, key, sent) else if allowed then t.(opening := Some(key)) else t
    case Opened(worked, sent) =>
      var u := t.(opening := None);
      if !worked then u
      else Used(u.(wake := if t.wake.None? then Some(t.now + PASS_EVERY) else t.wake), t.opening.value, sent)
    case FromHost(key) => if key in t.flows then t.(flows := t.flows[key := t.now]) else t
    case Pass =>
      var left := Survivors(t);
      t.(flows := left, wake := if left == map[] then None else Some(t.now + PASS_EVERY))
    case Tick(d) => t.(now := t.now + d)
    case Stop => t.(flows := map[], wake := None)
  }

  predicate CanRun(t: Table, late: real, es: seq<Event>)
    decreases |es|
  {
    |es| == 0 || (Enabled(t, late, es[0]) && CanRun(Step(t, es[0]), late, es[1..]))
  }

  function After(t: Table, late: real, es: seq<Event>): Table
    requires CanRun(t, late, es)
    decreases |es|
  {
    if |es| == 0 then t else After(Step(t, es[0]), late, es[1..])
  }

  /** Flows imply a live reaper; a flow was last used no longer than the timeout before the
      reaper's previous wake-up; and time never runs past the next one. */
  ghost predicate Inv(t: Table, late: real) {
    && (t.flows != map[] ==> t.wake.Some?)
    && (t.wake.Some? ==> t.wake.value - PASS_EVERY <= t.now <= t.wake.value + late)
    && forall k :: k in t.flows ==>
         t.flows[k] <= t.now && t.wake.Some? && t.flows[k] >= t.wake.value - PASS_EVERY - IDLE_TIMEOUT
  }

  lemma StepKeeps(t: Table, late: real, e: Event)
    requires Inv(t, late) && Enabled(t, late, e) && late >= 0.0
    ensures Inv(Step(t, e), late)
  {
  }

  lemma {:induction false} RunKeeps(t: Table, late: real, es: seq<Event>)
    requires Inv(t, late) && CanRun(t, late, es) && late >= 0.0
    ensures Inv(After(t, late, es), late)
    decreases |es|
  {
    if |es| > 0 {
      StepKeeps(t, late, es[0]);
      RunKeeps(Step(t, es[0]), late, es[1..]);
    }
  }

  /** In every reachable state a flow means a live reaper, and no flow is idle for longer
      than 90 seconds plus the reaper's lateness. */
  lemma NoFlowOutlives(late: real, es: seq<Event>)
    requires late >= 0.0 && CanRun(START, late, es)
    ensures var t := After(START, late, es);
            && (t.flows != map[] ==> t.wake.Some?)
            && forall k :: k in t.flows ==> t.now - t.flows[k] <= 90.0 + late
  {
    RunKeeps(START, late, es);
  }

  /** A pass removes exactly the flows idle for longer than 60 seconds and touches no other;
      nothing else removes a flow, save a failed send of its own datagram and shutdown. */
  lemma RemovedOnlyWhenIdle(t: Table, e: Event, k: Key)
    requires k in t.flows && (e.Opened? ==> t.opening.Some? && t.opening.value != k)
    ensures k !in Step(t, e).flows <==>
              (e == Pass && t.now - t.flows[k] > 60.0)
              || (e.FromChip? && e.key == k && !e.sent) || e == Stop
    ensures k in Step(t, e).flows ==> Step(t, e).flows[k] == t.flows[k] || Step(t, e).flows[k] == t.now
    ensures e == Pass && k in Step(t, e).flows ==> Step(t, e).flows[k] == t.flows[k]
  {
  }

  /** The flow being opened is not in the table, so it can only be added. */
  lemma {:induction false} OpeningIsNew(t: Table, late: real, es: seq<Event>)
    requires CanRun(t, late, es) && (t.opening.Some? ==> t.opening.value !in t.flows)
    ensures var u := After(t, late, es); u.opening.Some? ==> u.opening.value !in u.flows
    decreases |es|
  {
    if |es| > 0 { OpeningIsNew(Step(t, es[0]), late, es[1..]); }
  }

  function OpeningKeys(t: Table): set<Key> { if t.opening.Some? then {t.opening.value} else {} }

  predicate NoneFromChip(es: seq<Event>) { forall i :: 0 <= i < |es| ==> !es[i].FromChip? }

  lemma {:induction false} OnlyOpeningEnters(t: Table, late: real, es: seq<Event>, keys: set<Key>)
    requires CanRun(t, late, es) && NoneFromChip(es) && t.flows.Keys <= keys && OpeningKeys(t) <= keys
    ensures After(t, late, es).flows.Keys <= keys
    decreases |es|
  {
    if |es| > 0 { OnlyOpeningEnters(Step(t, es[0]), late, es[1..], keys); }
  }

  /** Shutdown may fall into the opening of a flow. It drops every flow; what can appear
      afterwards, with no datagram of the chip let through, is the flow being opened and no
      other, and it does appear, with a reaper of its own, if its socket opens. */
  lemma ShutdownAnywhere(t: Table, late: real, es: seq<Event>)
    requires CanRun(Step(t, Stop), late, es) && NoneFromChip(es)
    ensures var u := Step(t, Stop);
            && u.flows == map[] && u.wake == None
            && After(u, late, es).flows.Keys <= OpeningKeys(t)
            && (t.opening.Some? ==>
                  var v := Step(u, Opened(true, true)); v.flows.Keys == OpeningKeys(t) && v.wake.Some?)
  {
    OnlyOpeningEnters(Step(t, Stop), late, es, OpeningKeys(t));
  }

  lemma {:induction false} TimeGrows(t: Table, late: real, es: seq<Event>)
    requires CanRun(t, late, es)
    ensures After(t, late, es).now >= t.now
    decreases |es|
  {
    if |es| > 0 { TimeGrows(Step(t, es[0]), late, es[1..]); }
  }

  /** No shutdown, and no failed send for `k`. */
  predicate Spares(es: seq<Event>, k: Key) {
    forall i :: 0 <= i < |es| ==> es[i] != Stop && !(es[i].FromChip? && es[i].key == k && !es[i].sent)
  }

  /** Whatever happens in between, a flow is still there 60 seconds after it was used. */
  lemma {:induction false} KeptWhileRecent(t: Table, late: real, es: seq<Event>, k: Key)
    requires CanRun(t, late, es) && k in t.flows && t.flows[k] <= t.now && t.opening != Some(k) && Spares(es, k)
    requires After(t, late, es).now - t.flows[k] <= 60.0
    ensures k in After(t, late, es).flows
    decreases |es|
  {
    if |es| > 0 {
      TimeGrows(t, late, es);
      TimeGrows(Step(t, es[0]), late, es[1..]);
      RemovedOnlyWhenIdle(t, es[0], k);
      KeptWhileRecent(Step(t, es[0]), late, es[1..], k);
    }
  }

  /** The event uses flow `k`: a datagram of the chip sent on it, a datagram of its host, or
      the one that opened it. */
  predicate Uses(t: Table, e: Event, k: Key) {
    match e
    case FromChip(key, _, sent) => key == k && sent && k in t.flows
    case FromHost(key) => key == k && k in t.flows
    case Opened(worked, sent) => worked && sent && t.opening == Some(k)
    case _ => false
  }

  /** A use is entered with its time, and nothing else is changed by it but the reaper. */
  lemma UseIsEntered(t: Table, e: Event, k: Key)
    requires Uses(t, e, k)
    ensures Step(t, e).flows == t.flows[k := t.now] && Step(t, e).now == t.now
  {
  }

  /** In every run: 60 seconds after any use of it a flow is still there, whatever other flows
      open, are dropped or time out in between. */
  lemma UsedFlowsSurvive(late: real, before: seq<Event>, e: Event, es: seq<Event>, k: Key)
    requires late >= 0.0 && CanRun(START, late, before)
    requires var t := After(START, late, before);
             && Enabled(t, late, e) && Uses(t, e, k)
             && CanRun(Step(t, e), late, es) && Spares(es, k)
             && After(Step(t, e), late, es).now - t.now <= 60.0
    ensures k in After(Step(After(START, late, before), e), late, es).flows
  {
    var t := After(START, late, before);
    OpeningIsNew(START, late, before);
    UseIsEntered(t, e, k);
    KeptWhileRecent(Step(t, e), late, es, k);
  }

  /** A flow enters the table only when its socket has opened, and a socket is opened only for
      an allowed datagram of the chip that has no flow. */
  lemma EntersIffOpened(t: Table, e: Event, k: Key)
    requires k !in t.flows && (e.Opened? ==> t.opening.Some?)
    ensures k in Step(t, e).flows <==> e == Opened(true, true) && t.opening == Some(k)
    ensures t.opening != Some(k) ==>
      (Step(t, e).opening == Some(k) <==> e.FromChip? && e.key == k && e.allowed)
  {
  }

  /** The reaper comes to life exactly when a socket has opened, due 30 seconds later, and ends
      exactly at a shutdown or at a pass that finds every flow idle for longer than 60 seconds;
      a socket that could not be opened leaves everything else as it was. */
  lemma ReaperLives(t: Table, late: real, e: Event)
    requires Enabled(t, late, e)
    ensures var u := Step(t, e);
            && (t.wake.None? ==> u.wake == if e.Opened? && e.worked then Some(t.now + 30.0) else None)
            && (t.wake.Some? ==>
                  (u.wake.None? <==>
                     e == Stop || (e == Pass && forall k :: k in t.flows ==> t.now - t.flows[k] > 60.0)))
            && (t.wake.Some? && u.wake.Some? ==> u.wake == if e == Pass then Some(t.now + 30.0) else t.wake)
            && (e.Opened? && !e.worked ==> u == t.(opening := None))
  {
    if e == Pass {
      if k :| k in t.flows && t.now - t.flows[k] <= 60.0 { assert k in Survivors(t); }
    }
  }

  predicate NoPass(es: seq<Event>) { forall i :: 0 <= i < |es| ==> es[i] != Pass }

  lemma {:induction false} WakesNoSooner(t: Table, late: real, es: seq<Event>, from: real)
    requires CanRun(t, late, es) && NoPass(es) && from <= t.now
    requires t.wake.Some? ==> t.wake.value >= from + 30.0
    ensures var u := After(t, late, es); u.wake.Some? ==> u.wake.value >= from + 30.0
    decreases |es|
  {
    if |es| > 0 {
      assert es[0] != Pass;
      WakesNoSooner(Step(t, es[0]), late, es[1..], from);
    }
  }

  /** In every run the reaper's passes are at least 30 seconds apart, shutdowns and restarts
      of the reaper in between included. */
  lemma PassesApart(late: real, before: seq<Event>, es: seq<Event>)
    requires late >= 0.0 && CanRun(START, late, before) && Enabled(After(START, late, before), late, Pass)
    requires var u := Step(After(START, late, before), Pass);
             CanRun(u, late, es) && NoPass(es) && Enabled(After(u, late, es), late, Pass)
    ensures var t := After(START, late, before);
            After(Step(t, Pass), late, es).now >= t.now + 30.0
  {
    var t := After(START, late, before);
    WakesNoSooner(Step(t, Pass), late, es, t.now);
  }

  // ---- Replies ----

  function Reply(key: Key, data: bytes): Udp { Udp(key.dstPort, key.chipPort, 0, 0, data) }

  /** A host datagram is wrapped so that the chip, whatever padding its link adds, finds it
      whole, from the address and port it had sent to; it is one packet however long, so it
      is within the MTU exactly up to 1472 bytes. */
  lemma ReplyReachesChip(key: Key, data: bytes, mac: Mac, gw: Mac, padding: bytes)
    requires |data| <= 0xffff - 28
    ensures UdpToBytes(Reply(key, data), key.dstIp, key.chipIp).Some?
    ensures var l4 := UdpToBytes(Reply(key, data), key.dstIp, key.chipIp).value;
            var f := MakeFrameIPv4(mac, gw, key.dstIp, key.chipIp, IPPROTO_UDP, l4);
            && f.Some? && (20 + |l4| <= 1500 <==> |data| <= 1472)
            && var e := ParseEthernet(f.value + padding);
               e.Ok? && e.value.dst == mac
               && var p := ParseIPv4(e.value.payload);
               p.Ok? && p.value.protocol == 17 && p.value.src == key.dstIp && p.value.dst == key.chipIp
               && var u := ParseUdp(p.value.payload);
               u.Ok? && u.value.srcPort == key.dstPort && u.value.dstPort == key.chipPort && u.value.payload == data
  {
    UdpFrameRoundTrip(mac, gw, key.dstIp, key.chipIp, Reply(key, data), padding);
    FrameRoundTrip(mac, gw, key.dstIp, key.chipIp, IPPROTO_UDP,
                   UdpToBytes(Reply(key, data), key.dstIp, key.chipIp).value, 64, 0, padding);
    UdpDatagramVerifies(Reply(key, data), key.dstIp, key.chipIp);
  }
}
