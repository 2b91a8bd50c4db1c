/** One chip-initiated TCP connection as a step machine. A step is what runs between two
    suspension points of the program: `read`, `drain`, `sleep` and the dial suspend,
    handing a frame to the chip does not. */
module ConnSpec {
  import opened Bytes
  import opened SeqArith
  import opened Packets

  const MTU: nat := 1500
  const TCP_MSS: u16 := 1460
  const TCP_WINDOW: u16 := 65535

  datatype State = SynRcvd | Established | FinWait1 | FinWait2 | CloseWait | LastAck | Closed

  /** The host-to-chip pump task. */
  datatype Pump = NotStarted | Running | Ended

  /** The deferred-connect task: dialling, cancelled while dialling, draining the bytes it
      flushed, or over. `NoDial` when the socket was open before the SYN was answered. */
  datatype Dial = NoDial | Dialling | Cancelled | Flushing | Over

  /** The segment handler: idle, or suspended in `drain` while delivering a segment. */
  datatype Handler = Idle | Draining(t: Tcp)

  datatype Key = Key(chipIp: Ip4, chipPort: u16, dstIp: Ip4, dstPort: u16)

  /** What a connection is created with. */
  datatype Identity = Identity(key: Key, chipIsn: u32, ourIsn: u32, mss: u16)

  /** A segment handed to the chip, with the unbounded numbers its wrapped sequence and
      acknowledgement fields stand for. */
  datatype Emission = Emission(seg: Tcp, trueSeq: int, trueAck: int)

  /** The first three rows are the program's own state. The last two are history: the
      bytes and end-of-streams passed to the host socket, the bytes read from it, the
      segments emitted, the FINs consumed and sent, and unbounded shadows of the two
      sequence counters. */
  datatype Conn = Conn(
    id: Identity, state: State, ourSeq: u32, chipSeq: u32, open: bool, held: bytes, heldEof: bool,
    pump: Pump, dial: Dial, handler: Handler, listed: bool,
    sent: bytes, eofs: nat, got: bytes, out: seq<Emission>,
    finsIn: nat, finsOut: nat, ourNext: int, chipNext: int)

  /** What only the pump's reads change stays put. */
  predicate Kept(c: Conn, d: Conn) { d.id == c.id && d.got == c.got }

  // ---- Emission ----

  function Segment(c: Conn, flags: u16, seqNo: u32, options: bytes, payload: bytes): Tcp {
    Tcp(c.id.key.dstPort, c.id.key.chipPort, seqNo, c.chipSeq, 5, flags, TCP_WINDOW, 0, 0, options, payload)
  }

  function Send(c: Conn, flags: u16, payload: bytes): Conn {
    c.(out := c.out + [Emission(Segment(c, flags, c.ourSeq, [], payload), c.ourNext, c.chipNext)])
  }

  function AckOnly(c: Conn): Conn { Send(c, TCP_ACK, []) }

  function AdvanceOurs(c: Conn, n: nat): Conn {
    c.(ourSeq := SeqAdd(c.ourSeq, n), ourNext := c.ourNext + n)
  }

  function AdvanceChip(c: Conn, n: nat): Conn {
    c.(chipSeq := SeqAdd(c.chipSeq, n), chipNext := c.chipNext + n)
  }

  function MssOption(mss: u16): bytes { [2, 4] + Pack16(mss) }

  // ---- Opening and closing ----

  /** The connection right after its SYN was answered. */
  function Opened(id: Identity, deferred: bool): Conn {
    var c := Conn(id, SynRcvd, SeqAdd(id.ourIsn, 1), SeqAdd(id.chipIsn, 1), !deferred, [], false,
                  if deferred then NotStarted else Running, if deferred then Dialling else NoDial, Idle, true,
                  [], 0, [], [], 0, 0, id.ourIsn + 1, id.chipIsn + 1);
    c.(out := [Emission(Segment(c, TCP_SYN + TCP_ACK, id.ourIsn, MssOption(id.mss), []), id.ourIsn, id.chipIsn + 1)])
  }

  function Close(c: Conn, rst: bool): (d: Conn)
    ensures Kept(c, d)
  {
    if c.state == Closed then c
    else
      var reset := Segment(c, TCP_RST, c.ourSeq, [], []).(window := 0);
      c.(state := Closed, listed := false,
         out := if rst then c.out + [Emission(reset, c.ourNext, c.chipNext)] else c.out,
         pump := if c.pump == Running then Ended else c.pump,
         dial := if c.dial == Dialling then Cancelled else c.dial)
  }

  // ---- Chip to host ----

  function HandleSegment(c: Conn, t: Tcp): (d: Conn)
    ensures Kept(c, d)
  {
    if HasRst(t) then Close(c, false)
    else match c.state
      case SynRcvd => OnHandshake(c, t)
      case Established => OnData(c, t)
      case FinWait1 => OnFinWait1(c, t)
      case FinWait2 => OnFinWait2(c, t)
      case LastAck => if HasAck(t) && SeqGeqOrEq(t.ackNo, SeqAdd(c.ourSeq, 0)) then Close(c, false) else c
      case _ => c
  }

  function OnHandshake(c: Conn, t: Tcp): (d: Conn)
    ensures Kept(c, d)
  {
    if !HasAck(t) || t.ackNo != c.ourSeq then c
    else if |t.payload| > 0 then OnData(c.(state := Established), t)
    else c.(state := Established)
  }

  function OnData(c: Conn, t: Tcp): (d: Conn)
    ensures Kept(c, d)
  {
    if |t.payload| == 0 then OnFin(c, t)
    else if t.seqNo != c.chipSeq then AckOnly(c)
    else if c.open then c.(sent := c.sent + t.payload, handler := Draining(t))
    else Delivered(c.(held := c.held + t.payload), t)
  }

  /** The rest of a delivery, once the payload is written or held. */
  function Delivered(c: Conn, t: Tcp): (d: Conn)
    ensures Kept(c, d)
  {
    OnFin(AckOnly(AdvanceChip(c, |t.payload|)), t)
  }

  /** A handler call with its drain, if any, run to a successful end. */
  function Completed(c: Conn): Conn {
    if c.handler.Draining? then Delivered(c.(handler := Idle), c.handler.t) else c
  }

  function OnFin(c: Conn, t: Tcp): (d: Conn)
    ensures Kept(c, d)
  {
    if !HasFin(t) then c
    else
      var f := AdvanceChip(c, 1).(state := CloseWait, finsIn := c.finsIn + 1);
      AckOnly(if c.open then f.(eofs := c.eofs + 1) else f.(heldEof := true))
  }

  function OnFinWait1(c: Conn, t: Tcp): (d: Conn)
    ensures Kept(c, d)
  {
    OnFinWait2(if HasAck(t) && t.ackNo == c.ourSeq then c.(state := FinWait2) else c, t)
  }

  function OnFinWait2(c: Conn, t: Tcp): (d: Conn)
    ensures Kept(c, d)
  {
    if HasFin(t) then Close(AckOnly(AdvanceChip(c, 1).(finsIn := c.finsIn + 1)), false) else c
  }

  // ---- The deferred connect ----

  function DialDone(c: Conn, ok: bool): (d: Conn)
    ensures Kept(c, d)
  {
    if c.state == Closed then c.(dial := Over)
    else if !ok then Close(c.(dial := Over), true)
    else if |c.held| > 0 then c.(open := true, sent := c.sent + c.held, held := [], dial := Flushing)
    else FlushDone(c.(open := true), true)
  }

  function FlushDone(c: Conn, ok: bool): (d: Conn)
    ensures Kept(c, d)
  {
    if !ok then Close(c.(dial := Over), true)
    else c.(dial := Over, heldEof := false, eofs := c.eofs + (if c.heldEof then 1 else 0), pump := Running)
  }

  // ---- Host to chip ----

  /** Emits a chunk in pieces of at most the negotiated segment size. */
  function SendChunk(c: Conn, chunk: bytes): Conn
    requires c.id.mss > 0
    decreases |chunk|
  {
    if |chunk| == 0 then c
    else SendChunk(SendPiece(c, Slice(chunk, 0, c.id.mss)), Slice(chunk, c.id.mss, |chunk|))
  }

  function SendPiece(c: Conn, piece: bytes): Conn {
    AdvanceOurs(Send(c, TCP_ACK + TCP_PSH, piece), |piece|).(got := c.got + piece)
  }

  /** End of the host's stream: our FIN. */
  function HostEnded(c: Conn): (d: Conn)
    ensures Kept(c, d)
  {
    if c.state == Established then SendFin(c.(state := FinWait1, pump := Ended))
    else if c.state == CloseWait then SendFin(c.(state := LastAck, pump := Ended))
    else c.(pump := Ended)
  }

  function SendFin(c: Conn): Conn {
    AdvanceOurs(Send(c, TCP_ACK + TCP_FIN, []), 1).(finsOut := c.finsOut + 1)
  }

  // ---- Steps ----

  /** `FromChip` delivers a segment to a listed connection; `Drained` resumes its handler.
      `Dialled`, `CancelSeen` and `Flushed` resume the deferred connect. `Chunk`, `HostEof`
      and `ReadFailed` are the outcomes of the pump's read, `PumpExit` its loop finding the
      connection closed. */
  datatype Event =
    | FromChip(t: Tcp) | Drained(ok: bool)
    | Dialled(ok: bool) | CancelSeen | Flushed(ok: bool)
    | Chunk(data: bytes) | HostEof | ReadFailed | PumpExit
    | Shutdown

  predicate Reading(c: Conn) {
    c.pump == Running && (c.state == Established || c.state == CloseWait)
  }

  predicate Enabled(c: Conn, e: Event) {
    match e
    case FromChip(_) => c.listed && c.handler == Idle
    case Drained(_) => c.handler.Draining?
    case Dialled(_) => c.dial == Dialling
    case CancelSeen => c.dial == Cancelled
    case Flushed(_) => c.dial == Flushing
    case Chunk(data) => Reading(c) && |data| > 0 && c.id.mss > 0
    case HostEof => Reading(c)
    case ReadFailed => Reading(c)
    case PumpExit => c.pump == Running && c.state != SynRcvd && !Reading(c)
    case Shutdown => c.listed
  }

  function Step(c: Conn, e: Event): Conn
    requires Enabled(c, e)
  {
    match e
    case FromChip(t) => HandleSegment(c, t)
    case Drained(ok) =>
      if ok then Delivered(c.(handler := Idle), c.handler.t) else Close(c.(handler := Idle), true)
    case Dialled(ok) => DialDone(c, ok)
    case CancelSeen => c.(dial := Over)
    case Flushed(ok) => FlushDone(c, ok)
    case Chunk(data) => SendChunk(c, data)
    case HostEof => HostEnded(c)
    case ReadFailed => Close(c, true)
    case PumpExit => HostEnded(c)
    case Shutdown => Close(c, true)
  }
}
