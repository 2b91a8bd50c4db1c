# A verified model of the gateway's network stack

The gateway under `velxiogw/net/` is a TCP/IP stack in user space: a simulated board sends it
Ethernet frames, and it plays gateway, DHCP server, DNS proxy and NAT. This project models its
three cores in Dafny and proves what they are for.

* **The TCP engines.** `TcpNat` plays the server for connections the chip opens, `TcpInbound`
  the client for connections opened into the chip, and the bridge decides which of them sees a
  segment. Connections are values stepped by `ConnSpec.Step` and `InboundSpec.Step`; the tables
  are values stepped by `NatTable.NatStep` and `InboundTable.DeskStep`. All main results are
  about every run of these machines: streams, sequence numbers, state meaning, table agreement,
  TIME_WAIT, completion. The classes in `TcpEngine`, `InboundEngine` and `Bridge` update fields and
  dictionaries in place as the program does, and each of their entry points is proved to take
  exactly one step of the value machine. `NatAddresses`, `InboundWire` and `InboundSignals` say,
  over every run, between which addresses and ports everything goes and what wakes a request.
* **The codecs and the checksum.** `Packets`, `Checksum`, `TcpOptions`, `Dhcp`, `DnsName` and
  `DnsMessage` hold parsers and printers as functions, their loops as methods, and the round
  trips between them. `Wire` says, apart from both, which byte stands for which field. The
  standards followed are RFC 791, 768, 793, 1035, 1071, 2131 and 2132.
* **The timed tables.** `DnsCache`, `DnsRuns` and `DnsEngine` model the DNS caches with their
  shared lookups, `UdpFlows` and `UdpEngine` the UDP flows and their reaper.

## How runs are modelled

The program is one asyncio process. A step is what runs between two suspension points.
`read`, `drain`, `sleep`, the dial and the wait for a datagram socket or a lookup suspend;
handing a frame to the chip (`_inject`) is assumed not to. A coroutine therefore appears as the
methods that run before and after its suspension points. Frames from the chip are handled one
at a time, because each delivery is awaited (`velxiogw/server.py:121-148`); the table's `busy`
field says where the handler of the current frame stands.

Two granularities are used. At the *fine* one every suspension is a switch point; the stream,
size, transparency, table and TIME_WAIT results hold there. At the *coarse* one a handler call runs to
completion with its `drain`; the meaning of the connection states needs it, and
`ConnShape.FineStepKeepsShapeIff` says which single step breaks that meaning at the fine one.

A connection value carries history next to the program's own fields: the bytes and
end-of-streams given to the host socket, the bytes read from it, the segments emitted, and
unbounded shadows of the 32-bit counters. A segment from the chip is *genuine* for a stream
when its payload is that stream's bytes at a true offset less than 2^32 away from the bytes
taken so far (`Reassembly.Genuine`); duplicates, reordered and stale segments are all genuine.

Sockets, clocks, the resolver, random draws and the egress guard's verdict, read anew each time,
are parameters and events: dial outcome, bytes read, end-of-file, failed drain, resolver report,
time passing.

A shutdown may fall anywhere, into the middle of a frame as well: a second WebSocket of the same
client can stop a bridge whose frame handler is suspended (`velxiogw/server.py:128-133`). The
bridge lets no frame through after it; `NatTable`'s `gate` records that.

## What turned out false

Each of these comes with a run or an input that shows it and with the exact condition.

* An acknowledgement can cover a byte of the chip that was never taken, and the host can be given
  a clean end-of-file on a truncated stream, because a FIN without payload is taken wherever it
  stands and because FIN_WAIT_1 and FIN_WAIT_2 discard payloads but not the FIN behind them
  (`ConnFin.FinOvertakesData`; `ConnFin.FinBehindDiscardedData` needs neither loss nor
  reordering). `ConnFin.HonestIffFinsInPlace`: neither happens if and only if every FIN taken
  stood at the expected number, its own payload counted. `InboundFin.FinOvertakesResponse` and
  `InboundFin.HonestIffFinsInPlace` say the same of inbound requests.
* A fine-grained interleaving leaves a connection in CLOSE_WAIT with our FIN already sent and
  no pump left (`ConnShape.ShapeFailsWhenInterleaved`), because the handler sets CLOSE_WAIT
  after its `drain` without looking at the state; `ConnShape.FineStepKeepsShapeIff` names the
  one step.
* Answering a SYN before the host socket exists can show: after a shutdown in the middle of a
  delivery with the FIN, the flush that is still running starts the pump, which reads from the
  host and sends data, a FIN or a second reset behind the reset
  (`ConnTransparency.ComesToSuchADelivery`, `ConnTransparency.StoppedInFlushShows`).
  `ConnTransparency.DeferredConnectTransparentIff`: it shows if and only if the pump reads after
  the connection has left the table; `ConnTransparency.TransparentUnlessStoppedInFlush` names the
  one guard.
* Retransmissions in CLOSE_WAIT and LAST_ACK are never acknowledged again
  (`ConnProgress.NeverReAcknowledged`); `ConnProgress.AcknowledgedIff` says what is.
* The DNS name reader does not return on a pointer that leads back to itself
  (`DnsName.SelfPointerLoops`); it fails to return exactly when it comes to some offset twice
  (`DnsName.LoopsIffOffsetMetTwice`).
* The zero fill behind TCP options can complete an option that was cut short
  (`TcpOptions.PaddingCompletesTruncatedOption`), exactly when the list ends inside an option
  short of no more bytes than the fill (`TcpOptions.PaddingChangesIffCutShort`).
* A stray segment's reset does not count a FIN, nor data on a SYN, in what it acknowledges
  (`NatRuns.StrayResetFallsShort`, a run for every such segment; `NatRuns.StrayResetCoversIff`).
* A SYN in its grace when the bridge is stopped still enters the table afterwards
  (`NatRuns.ShutdownAnywhere`), and a UDP flow being opened still opens
  (`UdpFlows.ShutdownAnywhere`); nothing else does.
* Shutdown empties the inbound table but leaves the scheduled removals, one of which can remove
  a later connection (`InboundTable.ShutdownLeavesRemovals`), exactly when its own connection
  was struck out before and the port is in use again (`InboundTable.RemovesAnotherIff`). After
  the bridge's `stop` that later connection can only be one whose `http_into_chip` was already
  past its test of `running` (`velxiogw/net/bridge.py:236-242`).
* An inbound request that gave up before its handshake still acknowledges a late SYN+ACK, with
  number 0 (`InboundTable.BlindAckRun`, `InboundSpec.LateSynAckDrawsBlindAck`), and a request
  longer than 1460 bytes leaves in one packet beyond the MTU (`InboundTable.OversizedRequestRun`,
  `InboundSpec.RequestFitsMtuIff`).
* A resolver instance's own cache never expires, so a query can be given a list of any age
  (`DnsRuns.StaleAnswer`); `DnsRuns.AnswerIsFreshIff` says when it is at most 60 seconds old.

## Model

| member | source | states |
|---|---|---|
| SeqArith.ComparisonsAgree | velxiogw/net/tcp_nat.py:84-98 | On residues of unbounded numbers less than 2^31 apart the wrapped comparisons decide the true order and the wrapped distance is the true one |
| SeqArith.LessThanExactWindow | velxiogw/net/tcp_nat.py:84-86 | The wrapped less-than agrees with the true order on exactly the window from -2^31 up to 2^31 |
| SeqArith.WrapAdd | velxiogw/net/tcp_nat.py:80-81 | Wrapped addition tracks unbounded addition |
| SeqArith.DiffThenAdd | velxiogw/net/tcp_nat.py:93-98 | Adding the signed distance of two 32-bit numbers to the second gives the first, and it lies in -2^31 up to 2^31 |
| SeqArith.BothLessExactlyAtHalf | velxiogw/net/tcp_nat.py:84-90 | Two numbers count as less than each other exactly when they are 2^31 apart |
| Checksum.OnesComplementSum | velxiogw/net/checksums.py:14-23 | Word loop and fold loop terminate; the result is 0 for a zero sum and otherwise the number in 1..65535 congruent to it modulo 65535, odd lengths included |
| Checksum.FoldStep | velxiogw/net/checksums.py:21-22 | One fold makes the sum smaller, keeps it positive and keeps its representative modulo 65535 |
| Checksum.ComputeInternetChecksum | velxiogw/net/checksums.py:26-28 | The checksum is the complement of that representative |
| Checksum.VerifiesIff | velxiogw/net/checksums.py:14-23 | A receiver's sum is 0xffff exactly for non-zero sums divisible by 65535 |
| Checksum.FilledChecksumVerifies | velxiogw/net/checksums.py:26-46 | Whatever bytes are covered, storing the checksum over its zeroed field makes a receiver's sum 0xffff, and so does storing 0xffff for a checksum of 0 |
| Checksum.CorruptionDetected | velxiogw/net/checksums.py:14-28 | Bytes whose word sum differs from that of accepted bytes by anything but a multiple of 65535 are rejected |
| Packets.EthernetRoundTrip | velxiogw/net/protocols.py:35-47 | Parsing inverts printing |
| Packets.IPv4HeaderVerifies | velxiogw/net/protocols.py:140-166 | Every printed header re-sums to 0xffff at a receiver |
| Packets.IPv4RoundTrip | velxiogw/net/protocols.py:101-166 | A printed packet followed by any padding parses back to its fields, the total length trimming the padding |
| Packets.TcpSegmentVerifies | velxiogw/net/protocols.py:215-235 | Every printed segment behind its two addresses, a zero byte, the byte 6 and its length in two bytes, the most significant first, re-sums to 0xffff; its length is header, padded options and payload |
| Packets.TcpRoundTrip | velxiogw/net/protocols.py:185-235 | Ports, numbers, nine flag bits, window, urgent pointer, zero-padded options and payload come back |
| Packets.UdpDatagramVerifies | velxiogw/net/protocols.py:282-291 | Every printed datagram behind its two addresses, a zero byte, the byte 17 and its length re-sums to 0xffff, and never carries checksum 0 |
| Packets.UdpRoundTrip | velxiogw/net/protocols.py:275-291 | A printed datagram followed by padding parses back to its fields, the length field trimming the padding |
| Packets.IcmpRoundTripVerifies | velxiogw/net/protocols.py:304-316 | Every printed message re-sums to 0xffff and parses back to its fields |
| Packets.FrameRoundTrip | velxiogw/net/protocols.py:499-517 | A frame exists exactly when the packet fits 16 bits of length; behind any padding its type 0x0800, its addresses, protocol and payload are recovered, do-not-fragment set |
| Packets.TcpFrameRoundTrip | velxiogw/net/protocols.py:185-235 | A TCP segment wrapped into a padded frame is recovered through all three parsers |
| Packets.UdpFrameRoundTrip | velxiogw/net/protocols.py:275-291 | A UDP datagram wrapped into a padded frame is recovered through all three parsers |
| Packets.TcpUnwraps | velxiogw/net/protocols.py:497-517 | Whoever unwraps a printed, wrapped and padded segment sees the addresses, ports, numbers, control bits, window and payload that went in |
| Wire.EthernetParsedIff | velxiogw/net/protocols.py:35-43 | Parsing gives a frame exactly if the bytes are its two addresses, its type and its payload at their offsets; it fails exactly below 14 bytes |
| Wire.EthernetPrinted | velxiogw/net/protocols.py:45-47 | A printed frame has its fields at those offsets |
| Wire.IPv4ParsedIff | velxiogw/net/protocols.py:101-138 | Parsing gives a packet exactly if every field stands where section 3.1 of RFC 791 puts it, the payload cut to header and total length |
| Wire.IPv4Printed | velxiogw/net/protocols.py:140-166 | A printed packet has version 4, five header words and its own length, every field at its offset |
| Wire.TcpParsedIff | velxiogw/net/protocols.py:185-213 | Parsing gives a segment exactly if every field stands where section 3.1 of RFC 793 puts it and the data offset lies within the bytes |
| Wire.TcpPrinted | velxiogw/net/protocols.py:215-235 | A printed segment has its fields at those offsets, the reserved bits zero and the options zero-filled |
| Wire.ControlBits | velxiogw/net/consts.py:58-63 | FIN, SYN, RST and ACK are the control bits of section 3.1 |
| Wire.UdpParsedIff | velxiogw/net/protocols.py:275-280 | Parsing gives a datagram exactly if its four fields stand in order, the payload cut to the length field |
| Wire.UdpPrinted | velxiogw/net/protocols.py:282-291 | A printed datagram has its ports and its own length at those offsets |
| Wire.IcmpParsedIff | velxiogw/net/protocols.py:303-310 | Parsing gives a message exactly if type, code, checksum and rest stand in order |
| Wire.IcmpPrinted | velxiogw/net/protocols.py:311-316 | A printed message has its fields at those offsets |
| TcpOptions.ParseTcpOptions | velxiogw/net/protocols.py:238-262 | The loop terminates on every input and enters exactly the options met, in order |
| TcpOptions.ParseInvertsEncode | velxiogw/net/protocols.py:238-262 | Every well-formed option list is read back, with or without an end marker and bytes behind it |
| TcpOptions.PaddingTransparent | velxiogw/net/protocols.py:215-262 | The zero padding a printed segment adds does not change what a well-formed list means |
| TcpOptions.PaddingChangesIffCutShort | velxiogw/net/protocols.py:215-262 | For every byte string, the padding changes the options read back exactly if the list is cut short inside an option by no more bytes than are added; then one completed option is read more |
| TcpOptions.PaddingCompletesTruncatedOption | velxiogw/net/protocols.py:215-262 | A list on which it does: a segment size option without its last byte |
| TcpOptions.NegotiatedMss | velxiogw/net/tcp_nat.py:212-215 | For any option bytes the negotiated size is at most 1460 |
| TcpOptions.NegotiatedMssIs | velxiogw/net/tcp_nat.py:212-215 | It is the size last offered, by kind 2 with two bytes of value, if that is at most 1460, and 1460 otherwise |
| TcpOptions.EnteredIsLast | velxiogw/net/protocols.py:238-262 | The dictionary has, under each key, the last option that stands under it: segment size and window scale as numbers when their length is right, any other option raw under its kind |
| TcpOptions.EveryOptionArea | velxiogw/net/protocols.py:238-262 | Every byte string is a well-formed option list and a tail that ends the walk, and what is read is exactly the list |
| TcpOptions.OwnOptionReadBack | velxiogw/net/tcp_nat.py:599-600 | The size the gateway advertises is read back from its option |
| Dhcp.SetMeaning | velxiogw/net/protocols.py:362-374 | Entering an option replaces or appends it, leaves the others and their order alone and keeps codes distinct |
| Dhcp.ParseOptions | velxiogw/net/protocols.py:360-374 | On arbitrary bytes the option loop terminates, reads only bytes that exist and enters the options met |
| Dhcp.ParseMessage | velxiogw/net/protocols.py:346-374 | Refines the parser function, error cases included |
| Dhcp.ParsedDistinct | velxiogw/net/protocols.py:362-374 | A parsed option map has each code once |
| Dhcp.MessageRoundTrip | velxiogw/net/protocols.py:346-400 | For every message whose options have codes 1..254 and values up to 255 bytes, parsing inverts printing |
| Dhcp.PadsIgnored | velxiogw/net/protocols.py:360-374 | Pad bytes between options and bytes behind the end marker change nothing |
| Wire.DhcpParsedIff | velxiogw/net/protocols.py:346-374 | Parsing gives a message exactly if the bytes have 240 bytes with the magic number at 236 and every field at its offset in section 2 of RFC 2131, and the options read are its own |
| Wire.DhcpPrinted | velxiogw/net/protocols.py:376-400 | A printed message has its fields at those offsets, hardware type 1, address length 6, no hops or seconds, and the server name and file fields empty |
| Wire.OptionsRead | velxiogw/net/protocols.py:360-374 | Whole options are read in order, and one the packet cuts short with what is there of its value |
| Wire.EveryOptionArea | velxiogw/net/protocols.py:360-374 | Every byte string is such a list of options and pads with an end, so nothing else is ever read |
| DnsName.TerminatesIff | velxiogw/net/protocols.py:459-481 | The reader's loop ends exactly when it ends within as many hops as the packet has bytes |
| DnsName.LoopsIffOffsetMetTwice | velxiogw/net/protocols.py:459-481 | It does not end exactly when it comes to some offset twice |
| DnsName.SelfPointerLoops | velxiogw/net/protocols.py:471-477 | A pointer to itself is followed for ever |
| DnsName.ReadDnsName | velxiogw/net/protocols.py:459-481 | The loop with its pointer flag and return offset refines the recursive reading: pointed-to names in place of pointers, the end behind the first pointer |
| DnsName.StandardNamesAreRead | velxiogw/net/protocols.py:459-481 | Where RFC 1035 section 4.1.4 sees a name whose pointers all lead before their own label run, the reader terminates and returns its labels and end |
| DnsName.ReadNameIff | velxiogw/net/protocols.py:459-481 | On every packet the reader returns a name and an offset exactly if they stand there, label by label and pointer by pointer, names ended by the packet and labels cut short by it included; it raises exactly at a pointer without its second byte |
| DnsMessage.WriteDnsName | velxiogw/net/protocols.py:484-494 | The loop writes the non-empty labels, each cut to 63 bytes, and the closing zero |
| DnsMessage.WrittenNameReadsBack | velxiogw/net/protocols.py:459-494 | A written name, wherever it stands in a packet, is read back normalized, with the offset behind it |
| DnsMessage.NormalizedIffCanonical | velxiogw/net/protocols.py:484-494 | Normalizing yields canonical names and leaves exactly those alone |
| DnsMessage.NormalizedIs | velxiogw/net/protocols.py:484-494 | Of the labels between the dots the empty ones are dropped; the others come back cut to 63 characters, question marks standing for whatever is not ASCII |
| DnsMessage.ParseMessage | velxiogw/net/protocols.py:412-436 | The question and answer loops refine the parser function, error cases included, wherever parsing returns |
| DnsMessage.MessageToBytes | velxiogw/net/protocols.py:438-456 | The loops refine the printer function; refused exactly where a count or length does not fit its field |
| DnsMessage.MessageRoundTrip | velxiogw/net/protocols.py:412-494 | Every printable message is parsed back with its names normalized |
| DnsMessage.CanonicalRoundTrip | velxiogw/net/protocols.py:412-494 | With canonical names the message itself comes back |
| Wire.QuestionReadIff | velxiogw/net/protocols.py:420-424 | A question is read exactly if behind its name stand type and class |
| Wire.AnswerReadIff | velxiogw/net/protocols.py:425-434 | An answer is read exactly if behind its name stand type, class, time to live, length and the data, as far as there is any |
| Wire.DnsHeaderPrinted | velxiogw/net/protocols.py:438-456 | A printed header has identifier, flags and the two counts in order, and no authority or additional records |
| Wire.DnsHeaderParsed | velxiogw/net/protocols.py:412-436 | A parsed message has its identifier, its flags and as many questions and answers as its header says |
| Wire.ItemRaisesIff | velxiogw/net/protocols.py:420-434 | A question or answer is refused exactly where its name is, or where the packet ends before its fixed fields |
| Wire.ParseRaisesIff | velxiogw/net/protocols.py:412-436 | Parsing raises exactly on fewer than 12 bytes, or at the first refused item of as many as the header counts, and raises what that item raised |
| Wire.PrintableIff | velxiogw/net/protocols.py:140-291 | Exactly which packets, segments and datagrams can be printed: up to 65535 bytes in all, with at most 40 bytes of TCP options |
| Wire.MessagesPrintableIff | velxiogw/net/protocols.py:376-456 | Exactly which DHCP and DNS messages can be: values up to 255 bytes, counts and answer data up to 65535 |
| Reassembly.InOrderExtends | velxiogw/net/tcp_nat.py:399-416 | A genuine payload taken at the expected number extends the prefix of the stream |
| Reassembly.ReceiverHoldsPrefix | velxiogw/net/tcp_nat.py:399-416 | Under loss, duplication, reordering and stale segments a receiver by this rule holds a prefix and expects the next byte |
| Reassembly.ReceiverCompletes | velxiogw/net/tcp_nat.py:399-416 | Once the pieces of the stream have arrived in order, among whatever else, it holds all of it |
| ConnLog.InOrderDelivery | velxiogw/net/tcp_nat.py:466-474 | A receiver fed well-placed emissions in order reassembles exactly what they carry |
| ConnLog.LossyDelivery | velxiogw/net/tcp_nat.py:466-474 | Fed in any order with losses and repetitions it holds a prefix |
| ConnRuns.StepKeeps | velxiogw/net/tcp_nat.py:164-206 | Every fine step of a connection keeps counters, log, task discipline and the prefix |
| ConnRuns.ChipToHostStream | velxiogw/net/tcp_nat.py:385-434 | Over every run, bytes written plus bytes held are a prefix of the chip's stream, the expected number counts exactly them and the one FIN taken outside a delivery, and no acknowledgement says more than them and that FIN, wherever it stood |
| ConnFin.HonestIffFinsInPlace | velxiogw/net/tcp_nat.py:397-449 | Over every run whose segments and FIN are the chip's: no acknowledgement covers a byte neither written nor held and the host gets its end-of-file only with the whole stream, exactly if every FIN taken stood at the expected number with no payload missing before it |
| ConnFin.FinOvertakesData | velxiogw/net/tcp_nat.py:421-432 | For every connection, a run in which the FIN overtakes the data: clean end-of-file on an empty stream, an untaken byte acknowledged |
| ConnFin.FinBehindDiscardedData | velxiogw/net/tcp_nat.py:436-449 | For every connection, a run without loss or reordering in which a byte discarded after the host's end-of-file is acknowledged |
| ConnRuns.HostToChipStream | velxiogw/net/tcp_nat.py:453-487 | Over every run the payloads emitted are exactly the bytes read, every emission, bare acknowledgements and resets included, numbered right behind them on the wire; one FIN at most, its wire number right behind the last byte, nothing after it and nothing before the handshake |
| ConnRuns.HostStreamReassembled | velxiogw/net/tcp_nat.py:453-487 | A receiver fed the emissions gets the host's stream back |
| ConnRuns.ChipHoldsPrefix | velxiogw/net/tcp_nat.py:466-474 | However the link loses, repeats or reorders the emissions, the chip holds a prefix of the bytes read |
| ConnRuns.PacketsFitMtu | velxiogw/net/tcp_nat.py:461-474 | Every emitted segment is printable and its packet at most 1500 bytes, whatever the chip sends |
| ConnRuns.EofIsFinal | velxiogw/net/tcp_nat.py:421-431 | Once the host was told the chip is done, nothing more is written to it and it is not told again |
| ConnRuns.AnsweredOnce | velxiogw/net/tcp_nat.py:285-288 | Over every run the SYN is answered first and once, with our number, theirs acknowledged and the negotiated size; every later segment has the same ports, carries ACK and PSH with data, otherwise ACK, ACK and FIN, or RST alone, and window 65535, or 0 on a reset |
| ConnProgress.NextPayloadTaken | velxiogw/net/tcp_nat.py:385-434 | The payload at the expected number, on the final handshake ACK too, is always taken whole and acknowledged to its last byte, its FIN moving the state and the end-of-stream on |
| ConnProgress.AcknowledgedIff | velxiogw/net/tcp_nat.py:193-206 | Exactly which segments draw an acknowledgement in which state, always of what is then expected |
| ConnProgress.NeverReAcknowledged | velxiogw/net/tcp_nat.py:201-206 | Once the chip's FIN has been taken, along every run no further emission is a bare acknowledgement, whatever is retransmitted |
| ConnProgress.SynRcvdLeavesOnOurAck | velxiogw/net/tcp_nat.py:170-195 | SYN_RCVD is left exactly on a reset or on an acknowledgement of our SYN |
| ConnProgress.ChunkGoesOut | velxiogw/net/tcp_nat.py:466-475 | A chunk read is emitted whole before the pump reads again, in pieces of the negotiated size and a last one of what is left |
| ConnDelivery.IntakeIsReassembly | velxiogw/net/tcp_nat.py:385-434 | Over every run from an established connection without reset, shutdown, failure or host end-of-file, FINs in place: what is accepted is exactly what a receiver by the plain rule makes of the segments, written to the host once its socket is open, however dial, drains and host bytes interleave |
| ConnDelivery.StreamCompletes | velxiogw/net/tcp_nat.py:385-434 | In such a run, if the pieces of what is missing arrive in order among any repetitions and stale segments, the whole stream is accepted and, with the socket open, written, and the number behind it expected |
| ConnProgress.NothingHeldBack | velxiogw/net/tcp_nat.py:324-340 | Over every run, once the socket is open and the flush over, the host has everything accepted, and in CLOSE_WAIT and LAST_ACK its end |
| ConnShape.FineStepKeepsShapeIff | velxiogw/net/tcp_nat.py:408-423 | The state meaning survives every fine step except resuming the delivery of a payload with FIN after the state has left ESTABLISHED |
| ConnShape.ShapeFailsWhenInterleaved | velxiogw/net/tcp_nat.py:408-423 | For every connection there is a run that takes that step |
| ConnShape.StateMeaning | velxiogw/net/tcp_nat.py:193-206 | With calls run to completion, our FIN is out exactly in FIN_WAIT_1, FIN_WAIT_2 and LAST_ACK, the chip's taken exactly in CLOSE_WAIT and LAST_ACK, and no run changes state more than four times |
| ConnShape.LastAckClosesOnFinAck | velxiogw/net/tcp_nat.py:204-206 | LAST_ACK is left exactly on an acknowledgement of our FIN, for acknowledgements within 2^31 |
| ConnShape.FinWait1LeavesOnFinAck | velxiogw/net/tcp_nat.py:436-443 | FIN_WAIT_1 is left for FIN_WAIT_2 exactly on the acknowledgement of our FIN |
| ConnShape.PumpEndsForGood | velxiogw/net/tcp_nat.py:453-493 | Over every run, once its loop has ended by the host's end-of-file, a failed read or a closed connection, the pump never reads again and is not started a second time |
| ConnTransparency.DeferredConnectTransparentIff | velxiogw/net/tcp_nat.py:295-340 | For any interleaving in which dial and host writes succeed, shutdowns at any point included: some run with the socket open from the start, with the same segments and host bytes, leaves the same state, numbers, emissions and, up to what is still held, host stream, exactly if the pump never reads after the connection has left the table |
| ConnTransparency.TransparentUnlessStoppedInFlush | velxiogw/net/tcp_nat.py:320-340 | So it does unless a shutdown falls into the delivery of a payload with the FIN while the flush of the held bytes is running |
| ConnTransparency.StoppedInFlushShows | velxiogw/net/tcp_nat.py:408-423 | Every run that comes to such a delivery has a continuation, beginning with the shutdown, that no run with the socket open from the start matches |
| ConnTransparency.ComesToSuchADelivery | velxiogw/net/tcp_nat.py:397-423 | For every connection, a run that comes to one |
| ConnReset.NeverSpeaksAgain | velxiogw/net/tcp_nat.py:557-590 | With the socket open from the start, along every run nothing but bare acknowledgements follows a reset |
| ConnReset.ReadingOutNeedsStop | velxiogw/net/tcp_nat.py:320-340 | The pump reads after the connection has left the table only behind a shutdown in such a delivery |
| ConnReset.ResetIffFailed | velxiogw/net/tcp_nat.py:408-493 | Over every run the chip is sent a reset exactly if the dial, a write or a read failed or the bridge was stopped while the connection was not closed |
| ConnReset.FailureResets | velxiogw/net/tcp_nat.py:557-590 | Such a failure closes the connection, and the reset with our next number is the last thing sent in that step |
| ConnReset.StepSince | velxiogw/net/tcp_nat.py:385-449 | What a step sends acknowledges at least what was expected before it and at most what is expected after it |
| ConnReset.AcksNeverGoBack | velxiogw/net/tcp_nat.py:497-533 | Over every run no emission acknowledges less than an earlier one |
| NatTable.NatStepKeeps | velxiogw/net/tcp_nat.py:164-303 | Every step of the table, from frame to shutdown, keeps the agreement of dictionary, connecting set, dials and handlers |
| NatTable.FramesAlwaysAccepted | velxiogw/net/tcp_nat.py:164-188 | In a reachable state, with the gate open, the next frame can always be handled once the previous one is done |
| NatRuns.TableAgreement | velxiogw/net/tcp_nat.py:164-188 | In every reachable state an entry holds an open connection of its own key, a key is connecting exactly while a dial for it is in flight, and per key at most one connection lives |
| NatRuns.DialsStartFresh | velxiogw/net/tcp_nat.py:264-303 | A frame starts a dial exactly if it is a SYN to an allowed destination whose key has no connection and no dial; connections are never replaced or revived |
| NatRuns.StepsAreIsolated | velxiogw/net/tcp_nat.py:164-206 | A step reaches no connection but the one addressed or resuming, and a reset draws no reset |
| NatRuns.SynRetransmitIgnored | velxiogw/net/tcp_nat.py:176-184 | A retransmitted SYN changes nothing while its key is in the table or connecting, whatever the connection's state |
| NatRuns.ShutdownAnywhere | velxiogw/net/tcp_nat.py:592-594 | Shutdown, even in the middle of a frame, closes every connection of the table; afterwards only the connection whose SYN was in its grace can enter it, and does unless refused |
| NatRuns.EveryConnectionRuns | velxiogw/net/tcp_nat.py:164-340 | What the table does to a connection is a run of that connection from the answer to its SYN |
| NatRuns.StreamsUnderTable | velxiogw/net/tcp_nat.py:385-487 | Both stream results hold for every connection of every run of the table, whatever the others do |
| NatRuns.HonestUnderTable | velxiogw/net/tcp_nat.py:397-449 | So does the condition for honest acknowledgements and end-of-files |
| NatRuns.StreamCompletesUnderTable | velxiogw/net/tcp_nat.py:385-434 | And so does completion, from any reachable table, whatever the other connections do |
| NatRuns.EverythingFitsMtu | velxiogw/net/tcp_nat.py:497-553 | Every segment of any run, stray resets included, is printable and within the MTU |
| NatRuns.StrayResetCoversIff | velxiogw/net/tcp_nat.py:535-543 | A stray reset acknowledges the whole segment, as RFC 793 section 3.4 asks, exactly when it has no FIN and no data on a SYN |
| NatRuns.StrayResetFallsShort | velxiogw/net/tcp_nat.py:535-543 | For every other segment, a run in which it draws a reset that acknowledges less |
| NatAddresses.AnswersItsSyn | velxiogw/net/tcp_nat.py:210-293 | Over every run every connection answers one of the allowed SYNs: SYN+ACK with the number drawn, the SYN acknowledged, and this and every later emission from the port the SYN was for to the port it came from, between its two addresses |
| NatAddresses.EmissionReachesChip | velxiogw/net/tcp_nat.py:497-533 | The chip, unwrapping the frame of any emission, sees a segment from the address and port it had dialled to its own, with the numbers, control bits and payload of the emission |
| NatAddresses.ReachesIffSameFlow | velxiogw/net/tcp_nat.py:164-206 | Over every run a later frame reaches a connection exactly if that is still in the table and its two addresses and two ports are those of the SYN that opened it |
| NatAddresses.StrayAnsweredIff | velxiogw/net/tcp_nat.py:172-189 | Exactly which frames of no connection draw a reset, and that it goes back to the address and port they came from |
| NatAddresses.RefusalAnswered | velxiogw/net/tcp_nat.py:271-282 | A refused dial answers its SYN with such a reset |
| TcpEngine.TcpNat.HandleChipSegment | velxiogw/net/tcp_nat.py:164-206 | Updates dictionary, set and connection exactly as the table's step for the frame |
| TcpEngine.TcpNat.OnPassiveSyn | velxiogw/net/tcp_nat.py:210-269 | A blocked destination draws one reset and nothing else; otherwise the key is marked and the grace begins with the negotiated size |
| TcpEngine.TcpNat.GraceEnded | velxiogw/net/tcp_nat.py:271-293 | Refusal draws a reset; otherwise the connection is entered, its SYN answered and its pump started if the socket is open |
| TcpEngine.TcpNat.Dispatch | velxiogw/net/tcp_nat.py:170-206 | One connection takes its handler's step and leaves the dictionary exactly when it closes |
| TcpEngine.TcpNat.OnHandshakeComplete | velxiogw/net/tcp_nat.py:385-395 | Takes the handshake step, data on the final ACK included |
| TcpEngine.TcpNat.OnData | velxiogw/net/tcp_nat.py:397-434 | Takes the data step up to the drain: re-acknowledge, hold or write |
| TcpEngine.TcpNat.DeliveryResumed | velxiogw/net/tcp_nat.py:408-432 | Takes the rest of the delivery, or the reset after a failed drain |
| TcpEngine.TcpNat.OnFin | velxiogw/net/tcp_nat.py:421-432 | Counts the FIN, passes or holds the end-of-stream and acknowledges |
| TcpEngine.TcpNat.OnFinWait1 | velxiogw/net/tcp_nat.py:436-443 | Takes the FIN_WAIT_1 step, dropping the entry if the connection closes |
| TcpEngine.TcpNat.OnFinWait2 | velxiogw/net/tcp_nat.py:445-449 | Takes the FIN_WAIT_2 step, dropping the entry if the connection closes |
| TcpEngine.TcpNat.FinishDeferredConnect | velxiogw/net/tcp_nat.py:295-331 | The end of the dial: unmarks the key and closes, resets, flushes or starts the pump |
| TcpEngine.TcpNat.FlushResumed | velxiogw/net/tcp_nat.py:328-340 | After the flush: reset on failure, otherwise the held end-of-stream and the pump |
| TcpEngine.TcpNat.DialCancelled | velxiogw/net/tcp_nat.py:299-302 | A cancelled dial unmarks its key and does nothing else |
| TcpEngine.TcpNat.PumpChunk | velxiogw/net/tcp_nat.py:466-475 | The segmenting loop emits the chunk in pieces at consecutive numbers |
| TcpEngine.TcpNat.PumpEnded | velxiogw/net/tcp_nat.py:477-487 | After the read loop our FIN goes out exactly from ESTABLISHED or CLOSE_WAIT |
| TcpEngine.TcpNat.PumpCrashed | velxiogw/net/tcp_nat.py:491-493 | A failed read resets and drops the connection |
| TcpEngine.TcpNat.Close | velxiogw/net/tcp_nat.py:557-590 | Closes once, with or without reset, cancels pump and dial and drops the entry |
| TcpEngine.TcpNat.SendRst | velxiogw/net/tcp_nat.py:535-553 | The reset for a stray segment mirrors its ports and takes its numbers from it |
| TcpEngine.TcpNat.Shutdown | velxiogw/net/tcp_nat.py:592-594 | Resets every connection in the table, empties it and touches no other connection |
| InboundSpec.StepKeeps | velxiogw/net/tcp_inbound.py:110-156 | Every step keeps: bytes received are a prefix of the response, the expected number counts them and the FIN, the request stands at its place with one FIN behind it |
| InboundSpec.NextPayloadTaken | velxiogw/net/tcp_inbound.py:137-156 | The payload at the expected number is taken whole and acknowledged, its FIN answered by ours; any other draws only a repetition |
| InboundSpec.LateSegmentsReAcked | velxiogw/net/tcp_inbound.py:130-135 | After the end exactly segments with data, FIN or SYN are answered, with one repeated acknowledgement, and nothing is taken in |
| InboundSpec.LateSynAckDrawsBlindAck | velxiogw/net/tcp_inbound.py:130-135 | A SYN+ACK after the end is acknowledged; the number stands for nothing exactly if no handshake ever happened |
| InboundSpec.RequestFitsMtuIff | velxiogw/net/tcp_inbound.py:184-186 | The request's packet is within the MTU exactly up to 1460 bytes |
| InboundTable.OversizedRequestRun | velxiogw/net/tcp_inbound.py:184-186 | For every request of 1461 bytes, a run in which it leaves in one packet of 1501 bytes |
| InboundTable.TimeWaitAbsorbs | velxiogw/net/tcp_inbound.py:100-106 | Barring shutdown, every segment of a connection from its SYN to its removal, at least five seconds after the request's end, is claimed for it; its port is not given out before; a removal takes out no other connection |
| InboundTable.ShutdownLeavesRemovals | velxiogw/net/tcp_inbound.py:257-262 | With a shutdown in between, a scheduled removal can take out a later connection |
| InboundTable.RemovesAnotherIff | velxiogw/net/tcp_inbound.py:206-213 | Over every run, shutdowns included, a scheduled removal takes out another connection exactly if its own was struck out since it was opened, by a shutdown or another removal on its port, and the port is in use again |
| InboundTable.BlindAckRun | velxiogw/net/tcp_inbound.py:130-135 | A request that ends before the chip answers: the late SYN+ACK is acknowledged with number 0, right only for a chip at the last number |
| InboundTable.ResponseIsPrefix | velxiogw/net/tcp_inbound.py:137-158 | Over every run, shutdowns included, what was received is a prefix of the chip's response, and the request returns exactly that if it was sent and something was received, otherwise nothing |
| InboundTable.RequestReassembled | velxiogw/net/tcp_inbound.py:184-186 | Over every run, shutdowns included, a chip fed the emissions in order holds exactly the request once it was sent and nothing before, with one FIN at most, its wire number right behind it |
| InboundTable.RequestUnderLoss | velxiogw/net/tcp_inbound.py:184-186 | However the link loses, repeats or reorders the emissions, the chip holds a prefix of the request |
| InboundWire.EmissionsAddressed | velxiogw/net/tcp_inbound.py:160-243 | Over every run, shutdowns included, the first segment of a connection is its SYN to port 80 with the size 1460 and nothing else; every later one goes the same way and is the request, an acknowledgement or our FIN |
| InboundWire.EmissionReachesServer | velxiogw/net/tcp_inbound.py:217-243 | The chip, unwrapping the frame of an emission that fits one, sees a segment from 10.13.37.1 and the connection's port to port 80 of 10.13.37.42 |
| InboundWire.ClaimedIffReplies | velxiogw/net/tcp_inbound.py:100-106 | Over every run a segment is claimed exactly if it comes from port 80 of 10.13.37.42 to 10.13.37.1 and the port of a connection in the table; that connection takes it and no other is touched |
| InboundSignals.SignalsMean | velxiogw/net/tcp_inbound.py:115-156 | Over every run the events a request waits for are set exactly when they should be: reset by the chip's reset or a shutdown that finds the connection, established by the handshake or a reset, finished by the chip's FIN or a reset, data by data |
| InboundSignals.InterruptedNeverAsks | velxiogw/net/tcp_inbound.py:181-186 | A request not sent before its connection was reset is never sent and returns nothing |
| InboundFin.HonestIffFinsInPlace | velxiogw/net/tcp_inbound.py:137-156 | Over every run whose segments and FINs are the chip's: no acknowledgement covers a byte not received and an ended connection holds the whole response, exactly if no FIN was taken away from the expected number |
| InboundFin.WholeResponse | velxiogw/net/tcp_inbound.py:149-204 | With the FINs in place, an ended connection whose request was sent returns the chip's whole response, unless that is empty |
| InboundFin.FinOvertakesResponse | velxiogw/net/tcp_inbound.py:149-156 | A run in which the FIN overtakes the response: the request ends with nothing received and a byte of it acknowledged |
| InboundEngine.TcpInbound.ClaimsIsMatches | velxiogw/net/tcp_inbound.py:100-106 | The dictionary test decides the table's claim |
| InboundEngine.TcpInbound.HandleChipSegment | velxiogw/net/tcp_inbound.py:110-156 | Takes the table's step for the segment |
| InboundEngine.TcpInbound.OnConnSegment | velxiogw/net/tcp_inbound.py:115-156 | The connection takes its step in place: reset, handshake, TIME_WAIT, data, FIN |
| InboundEngine.TcpInbound.AllocPort | velxiogw/net/tcp_inbound.py:246-255 | A free ephemeral port is found unless every one is taken |
| InboundEngine.TcpInbound.BeginRequest | velxiogw/net/tcp_inbound.py:163-175 | A new connection stands in the table with its SYN sent |
| InboundEngine.TcpInbound.SendRaw | velxiogw/net/tcp_inbound.py:184-186 | The request goes out at its number, and the counter moves past it |
| InboundEngine.TcpInbound.EndRequest | velxiogw/net/tcp_inbound.py:204-213 | Returns exactly the bytes received if the request was sent and there are any, closes the connection and leaves it in the table |
| InboundEngine.TcpInbound.RemovePort | velxiogw/net/tcp_inbound.py:213-213 | The scheduled removal takes out one port |
| InboundEngine.TcpInbound.Shutdown | velxiogw/net/tcp_inbound.py:257-262 | Marks the connections in the table and empties it |
| Bridge.ServerFramesReachInbound | velxiogw/net/bridge.py:176-187 | Barring shutdown, a segment the chip's server prints, wraps and pads for a connection not yet removed reaches that connection, and the NAT does not see it |
| Bridge.RoutedIffMeant | velxiogw/net/bridge.py:135-211 | A frame goes to ARP, ICMP, DHCP, DNS, the UDP NAT, a request into the chip or the NAT exactly if its type, protocol, ports and addresses say so, and is dropped exactly if they say nothing |
| Bridge.SegmentRouted | velxiogw/net/bridge.py:176-188 | A segment the chip prints, wraps and pads comes out with its addresses and fields, for the connection that claims it or else for the NAT, whose table is given these addresses |
| Bridge.DatagramRouted | velxiogw/net/bridge.py:163-174 | A datagram for the outside comes to the UDP NAT, in a flow whose replies go back from where it was sent to where it came from |
| Bridge.SegmentTaken | velxiogw/net/bridge.py:176-188 | What a printed segment does: the connection that claims it takes it and no other changes, or else the NAT takes a frame with its addresses; the other engines stay as they are |
| Bridge.DatagramTaken | velxiogw/net/bridge.py:163-211 | What a printed datagram for the outside does: a step of its own flow, and nothing else |
| Bridge.LearnsPrintedSource | velxiogw/net/bridge.py:135-148 | The source address the chip prints into a frame is the one learned, unless it is all zero |
| Bridge.NetBridge.DeliverPacketOut | velxiogw/net/bridge.py:135-211 | A frame is routed by type, protocol and port, none once stopped, and handed over: the engine it is for takes exactly its step, the others stay as they are; the chip's address is learned from non-zero sources |
| Bridge.NetBridge.DeliverTcp | velxiogw/net/bridge.py:176-188 | Exactly one engine takes its step and the other stays as it is |
| Bridge.NetBridge.Stop | velxiogw/net/bridge.py:124-131 | At any time closes the gate and shuts both TCP engines and the UDP NAT down |
| DnsCache.Oldest | velxiogw/net/dns.py:85-87 | The entry to evict is the first, in insertion order, of those that expire first |
| DnsCache.PutMeaning | velxiogw/net/dns.py:84-92 | A stored name is found with its new expiry, at most 512 names are kept, and only a full cache loses another name, the oldest |
| DnsCache.PutKeepsOrder | velxiogw/net/dns.py:84-92 | Names stay in the order in which they came in, a new one last, so that among entries expiring together the eldest name is evicted |
| DnsCache.GetMeaning | velxiogw/net/dns.py:73-81 | A read answers exactly from an unexpired entry and drops nothing but an expired one |
| DnsCache.FreshMeaning | velxiogw/net/dns.py:241-247 | De-duplication leaves a duplicate-free subsequence with the same elements |
| DnsCache.FreshKeepsOrder | velxiogw/net/dns.py:241-247 | What is left stands in the order of first occurrences |
| DnsCache.ReadableMeaning | velxiogw/net/dns.py:223-240 | Of the resolver's report exactly the readable addresses are kept, in order |
| DnsCache.FilteredMeaning | velxiogw/net/egress_guard.py:64-79 | Filtering keeps exactly the allowed addresses, in order |
| DnsRuns.SingleFlightAndBound | velxiogw/net/dns.py:193-198 | In every reachable state a name is in flight exactly while a lookup of it is pending or its callback has not run, and that is the only one; at most 512 names are shared |
| DnsRuns.UnansweredQueryWaits | velxiogw/net/dns.py:193-198 | Over every run a query no cache answers waits for the lookup of its name that is flying, or else for a new one that it starts |
| DnsRuns.DeliveryIsCurrent | velxiogw/net/dns.py:193-218 | Over every run what a waiting query is given is the result of a lookup of its name whose callback had not run when the query came |
| DnsRuns.EveryQueryAccounted | velxiogw/net/dns.py:172-218 | Over every run, name by name, the queries asked are those answered, those still waiting and those that gave up |
| DnsRuns.AnswersComeFromLookups | velxiogw/net/dns.py:172-218 | Every list handed to a query is the duplicate-free, order-preserving result of a finished lookup of that name, filtered by the policy read when it was handed out, not when it was looked up or cached |
| DnsRuns.SharedAnswersAreFresh | velxiogw/net/dns.py:73-81 | A shared hit comes from a lookup finished at most 60 seconds ago |
| DnsRuns.EvictsLeastRecentlyStored | velxiogw/net/dns.py:84-92 | With a monotone clock a full cache gives up an entry stored no later than any other |
| DnsRuns.AnswerIsFreshIff | velxiogw/net/dns.py:186-191 | Exactly which queries are answered at once, under the current policy, and that the answer comes from a lookup at most 60 seconds old exactly if the name is not in the instance's cache or its list is that recent |
| DnsRuns.QueryDropsOnlyExpired | velxiogw/net/dns.py:73-81 | A query takes nothing out of the shared cache but an expired entry of its own name |
| DnsRuns.InstanceCacheNeverExpires | velxiogw/net/dns.py:186-187 | A name once answered by an instance is always answered there from its own list, filtered by the current policy, with no further lookup, however much time passes |
| DnsRuns.StaleAnswer | velxiogw/net/dns.py:186-187 | For any age and any two policies, a run in which a query is given a list that old, filtered by the second policy though first handed out under the first |
| DnsEngine.Shared.CacheGet | velxiogw/net/dns.py:73-81 | Takes the read step on the shared dictionary |
| DnsEngine.Shared.ExpiresFirst | velxiogw/net/dns.py:87-87 | The scan finds the first entry that expires first |
| DnsEngine.Shared.CachePut | velxiogw/net/dns.py:84-92 | Takes the store step on the shared dictionary |
| DnsEngine.Shared.LookupReported | velxiogw/net/dns.py:223-249 | The report is read, de-duplicated and stored; a failure stores the empty list |
| DnsEngine.Shared.Forget | velxiogw/net/dns.py:198-198 | The callback of a finished lookup takes it, and only it, out of flight |
| DnsEngine.Shared.Dedup | velxiogw/net/dns.py:241-247 | The loop with its seen set refines the specification of de-duplication |
| DnsEngine.DnsResolver.FilterResolvedIps | velxiogw/net/egress_guard.py:64-79 | The loop refines the specification of the filter |
| DnsEngine.DnsResolver.ResolveA | velxiogw/net/dns.py:186-198 | A query is answered from the caches or joins the one lookup of its name, exactly as the step of the whole |
| DnsEngine.DnsResolver.LookupDelivered | velxiogw/net/dns.py:217-218 | The finished lookup enters the instance's cache and answers the query |
| UdpFlows.NoFlowOutlives | velxiogw/net/udp_nat.py:181-198 | In every reachable state a flow means a live reaper, and no flow is idle beyond 90 seconds plus the reaper's lateness |
| UdpFlows.UsedFlowsSurvive | velxiogw/net/udp_nat.py:74-192 | In every run a flow is still there 60 seconds after any use of it, a datagram of the chip sent, one of the host, or its opening, barring shutdown and a failed send of its own, whatever happens to others |
| UdpFlows.UseIsEntered | velxiogw/net/udp_nat.py:74-161 | Every such use is entered with its time, and the flows are otherwise unchanged |
| UdpFlows.EntersIffOpened | velxiogw/net/udp_nat.py:74-145 | A flow enters exactly when its socket has opened and its first datagram was sent; a socket is opened exactly for an allowed datagram of the chip without a flow |
| UdpFlows.ReaperLives | velxiogw/net/udp_nat.py:134-192 | The reaper starts exactly when a socket has opened and ends exactly at a shutdown or at a pass that finds every flow idle for more than 60 seconds; it is due every 30 seconds |
| UdpFlows.PassesApart | velxiogw/net/udp_nat.py:181-192 | In every run its passes are at least 30 seconds apart, restarts included |
| UdpFlows.RemovedOnlyWhenIdle | velxiogw/net/udp_nat.py:173-192 | A pass removes exactly the flows idle longer than 60 seconds and touches no other; nothing else times a flow out |
| UdpFlows.ShutdownAnywhere | velxiogw/net/udp_nat.py:195-200 | Shutdown, even while a flow is being opened, drops every flow; afterwards only that one can appear, with a live reaper |
| UdpFlows.ReplyReachesChip | velxiogw/net/udp_nat.py:147-171 | A host datagram reaches the chip whole, from the address and port it had sent to; within the MTU exactly up to 1472 bytes |
| UdpEngine.UdpNat.HandleChipDatagram | velxiogw/net/udp_nat.py:74-91 | Refreshes the flow and drops it on a failed send, or starts opening one if allowed |
| UdpEngine.UdpNat.FlowOpened | velxiogw/net/udp_nat.py:122-145 | The new flow is entered and the reaper started if none is alive |
| UdpEngine.UdpNat.OnHostDatagram | velxiogw/net/udp_nat.py:147-161 | Refreshes the flow and builds the reply, or ignores a datagram without flow |
| UdpEngine.UdpNat.ReaperPass | velxiogw/net/udp_nat.py:185-192 | The loop drops exactly the stale flows and ends the reaper when none is left |
| UdpEngine.UdpNat.Shutdown | velxiogw/net/udp_nat.py:195-200 | Drops every flow and cancels the reaper |

## Left out

- The chip's receive window and retransmission towards it: the code records the window but never consults it and keeps no resend buffer, so no claim is made about delivery under loss, only about what a receiver then holds.
- Complete delivery of the chip's bytes after the host's end-of-file: FIN_WAIT_1 and FIN_WAIT_2 discard payloads by design of the code, so only prefix results hold.
- Suspension inside `_inject`: assumed not to happen, as the README says above; with it a deferred connect could finish between the answer to a SYN and the start of its pump.
- Task cancellation before a task's first step or as its result arrives, and sockets that such a cancellation may leave open.
- Frames of one client arriving over two WebSockets at once: they are taken one at a time; only a stop may come from the other one.
- `read(0)`: with a negotiated segment size of 0 the code's read returns nothing, which the model sees as the host's end-of-file.
- When a connection object comes to exist: in the table model it appears in the list of connections when the grace ends, while the program creates it before and keeps it out of the table until then.
- ConnTransparency.DeferredConnectTransparentIff: covers a dial and host writes that succeed; a dial that fails after the SYN was answered differs on purpose, as the connection then has to be reset.
- ConnDelivery.StreamCompletes: says what happens when the pieces do arrive, not that they do; the chip's retransmission is not part of this model.
- TcpEngine.TcpNat.HandleChipSegment: and the other methods of the engine classes require the step to be enabled; `NatTable.FramesAlwaysAccepted` shows that a frame always is once the previous one is done.
- DnsMessage.ParseMessage: is not called where the name reader would not return; there the parser function says that it diverges.
- DnsCache.Put: dictionaries are lists of entries in insertion order, so hash collisions and the cost of a lookup are not modelled.
- InboundTable.TimeWaitAbsorbs: covers runs without shutdown only; what a shutdown does to it is shown beside it.
- The framing helpers `_http_headers_complete` and `_http_response_complete`, and the request's timeouts: a request may end at any moment, which covers every way they decide.
- `_connect_with_retries` and its timeouts: a dial is one event with an outcome.
- Which addresses the egress guard allows, its telemetry, and the host alias: the verdict is a parameter.
- Responses of `arp.py`, `icmp.py` and `dhcp.py`, and the assembly of DNS replies in `DnsResolver.handle`: single-branch mirrors of a request.
- WebSocket, pairing, base64 and JSON in `server.py` and `cli.py`: used only for the fact that frames are handled one at a time.
- Logging, counters such as `last_activity`, and `ensure_chip_mac`.
