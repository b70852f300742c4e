# Model of the iPhoneTether360 Core

A Dafny model of the logic of the Core plugin: the two private TCP/IP stacks, the
frame translation between the console and the phone, the tether driver's worker and
transmit queue, the lockdownd link with its pairing gate, the builders and parsers
that undo each other, and the licence and notification state. `dafny verify
dfyconfig.toml` checks everything.

Each module follows one source file or one part of it. A class holds the fields of
the source's object or context and its methods change them step by step. Methods are
tied to functions on values, and the theorems are about runs of those functions. The
main results are `B9cStream.InOrderDelivery`, `EverySegmentServed`,
`B9cTcpStream.Write` with `B9cStream.NewChunkMeans` and `GuardMeans`,
`FrameRoundTrip.RoundTrip`, `FrameCases.DhcpTranslated`, `TetherWorker.HandOver`,
`TetherTx.Conservation`, `TetherRuns.SetUpBegan`, `LockdownStream.ReassemblyIff`,
`ProbeSend.PacketsReassemble`, `PairProtocol.PairingRoundTrip`,
`PairStores.GateHoldsIff`, `PairTalk.Conversation`, `DerX509.CertificateRoundTrip`,
`CertificateKey.CertificateHoldsKey`, `PairStore.RoundTripIff`,
`LicenseRuntime.DecisionStands` and `OpenIff`, `NotifyRing.ShownInOrder`,
`NetExchange.WholeExchange`, `NetRuns.EventCausality`, `NetRuns.LeaseClock` and
`NetChecksums.AllSentVerifies`.

## How the source is read

- A C string is the sequence of its characters before the NUL. A failed builder or
  parser is `None`; where the source returns 0 for failure and for an empty result
  alike, so does the model.
- Fixed buffers that are changed in place (the frame under translation, the
  lockdownd buffer, all rings) are arrays. Local scratch buffers are sequence values.
- The answers of the USB stack, the frame sender, the clock, thread creation, file
  access, randomness, the host's own keys and certificates, SHA-1 and the RSA
  signature are parameters or free choices.
- Both private stacks build and check packets with the same code, so `Checksum` and
  `Ipv4` model it once. The outbound and inbound translators differ only in which
  fields they take, so `TranslateFrame` has a direction. The three compactions of the
  notification queue differ only in what they keep, so `Compact` takes that as a
  function. The fields of `StandaloneNetStack` are grouped into records.
- The fixed text of the plists is written as its tags, which is how the search
  lemmas see it.
- Blocked calls of the licence stream (`Connect`, `Read`, `Write`) take a schedule of
  what the frame handler and the clock do while they wait.
- The model of a class that other threads share takes the step that the source's
  locks or flags make atomic. Where the probe's callbacks and its retry thread share
  state without one, `PairStores` takes single stores as steps; the places that stay
  coarser than the code are named under "Left out".

## What the model found

Each of these comes with the exact condition under which it happens and with a run
from the start on, or an input, that meets it.

- A SYN-ACK repeated after a FIN reopens `B9cTcpStream` and repeats the stream
  (`B9cStream.ReopenRepeats`). Nothing from before the last opening is left in the
  stream exactly when no SYN-ACK was accepted over bytes already received
  (`NothingBeforeIff`), which a peer that waits for the first request never causes
  unless its SYN-ACK comes again while the first chunk is sent but not yet counted
  (`PrefixWhenAskedFirst`).
- Once sequence numbers wrap, the comparison by which `Write` waits for its
  acknowledgement always passes (`B9cStream.GuardMeans`, `WrapPassesUnacked`).
- A frame length with a nonzero top byte is accepted or refused depending on how the
  stream was cut, and even a legal stream fails when a cut falls so that the next
  segment overflows the buffer (`LockdownStream.IllegalDependsOnSegmentation`,
  `OverflowDependsOnSegmentation`, `SegmentationIff`, `ReassemblyIff`).
- The trust-retry thread tests the probe state and stores into it in two steps, and a
  success and a failure are two stores each. A success reply between the thread's test
  and store, or a failure of the thread between the stores of a success, leaves the
  pairing gate open in an unpaired state (`PairGate.RetryRace`,
  `PairStores.FailureBetweenStores`, both reached by `PairRace`;
  `PairStores.GateHoldsIff`). The same thread can revive a failed probe
  (`PairGate.StoreRevives`, `PairGate.FailedStaysIff`). Without that thread, a poll
  between the two stores of a failure starts the tether setup of a failed probe
  (`TetherRuns.PollMeetsFailure`, `TetherRuns.SetUpBegan`).
- `Enqueue` reports success after its inner submit failed, so a probe that failed
  goes on (`PairGate.SubmitFailureForgotten`, `SubmitFailureGoesOn`).
- A refused control transfer between two setup steps is not reported and stalls the
  tether interface (`TetherControl.StalledIff`, `TetherRuns.StallReached`).
- A connection id that comes back after another one, or after a reset, is checked
  again (`LicenseRuntime.AttemptedTwiceIff`, `ReturningIdIsCheckedAgain`).
- A notice longer than its slot can wait twice, since the text asked for is compared
  with the text cut (`NotifyRepeats.RepeatedIff`); and a failure that was shown before
  the working notice came is not announced a second time
  (`NotifyRepeats.FailureAgainIff`, `LaterFailureUntold`).
- A key info with bytes behind it is accepted, and the certificate for it does not read
  back (`CertificateKey.TrailingByteAccepted`, `CertificateHoldsKey`).
- TCP segments are checksummed for the lease address even when they leave with
  source 0 (`NetChecksums.SentFromZero`, `NetZeroSource.SentFromZeroReached`,
  `UnverifiableSegmentSent`); a late offer can zero the gateway of a configured stack
  (`NetConditions.LateOfferOverwrites`, `RouterIff`); a name counts as resolved
  without a query (`NetConditions.UnsolicitedName`, `NamesAskedIff`).

## Model

| member | source | states |
|---|---|---|
| Checksum.Fold | src/net_stack.cpp:20-24 | the end-around-carry loop terminates on every 32-bit sum and yields its one's-complement value |
| Checksum.SumWords | src/net_stack.cpp:16-21 | the word loop and fold compute the one's-complement sum of any buffer, odd lengths included; the 32-bit accumulator never overflows |
| Checksum.ChecksumOf | src/net_stack.cpp:22-26 | the header checksum is the complement of that sum |
| Checksum.TransportChecksum | src/net_stack.cpp:27-34 | the UDP/TCP field over pseudo header and segment, 0 sent as 0xFFFF |
| Checksum.FinishedVerifies | src/net_stack.cpp:22-25 | adding the complement makes any sum verify |
| Checksum.FieldUnique | src/native_net/frame_translate.cpp:29-44 | among the nonzero values exactly one makes a segment verify: the one that is computed |
| Checksum.StoredFieldVerifies | src/tls/b9c_stream.cpp:10-12 | a segment whose field was 0 verifies once the computed field is stored at an even offset |
| Ipv4.BuildFrame | src/net_stack.cpp:176-187 | the header written field by field is the specified frame; `FrameParses` says what that frame is worth |
| Ipv4.FrameParses | src/tls/b9c_stream.cpp:20 | every frame built has a header that verifies and parses back to the packet it was built from |
| Ipv4.BuildUdp | src/tls/b9c_stream.cpp:21 | the datagram with its checksum, as `UdpVerifies` judges it |
| Ipv4.UdpVerifies | src/net_stack.cpp:165-174 | every datagram built verifies with its pseudo header, has a nonzero checksum and carries ports and payload |
| Ipv4.BuildTcp | src/net_stack.cpp:337-345 | the TCP segment with its checksum, as `TcpVerifies` judges it |
| Ipv4.TcpVerifies | src/tls/b9c_stream.cpp:24 | every segment built verifies with its pseudo header and parses back to the same fields and data |
| Ring.PushEntry | src/diag.cpp:216-222 | storing at the tail of a head/tail/count ring appends to the sequence it represents |
| Ring.PopEntry | src/diag.cpp:138-142 | stepping the head drops exactly the first entry |
| FrameTranslate.LocateEtherType | src/native_net/frame_translate.cpp:54-68 | up to two VLAN tags are skipped to find the layer-3 offset and type, or nothing is found |
| FrameTranslate.IsUsableUnicastMac | src/native_net/frame_translate.cpp:156-161 | true exactly for nonzero unicast addresses |
| FrameTranslate.ReplaceMacIfEqual | src/native_net/frame_translate.cpp:50-52 | the six bytes change exactly when they equal the old address, nothing else does |
| FrameTranslate.UdpChecksum | src/native_net/frame_translate.cpp:34-44 | the field the datagram in the frame needs |
| FrameTranslate.TranslateOptions | src/native_net/frame_translate.cpp:112-130 | the in-place option loop equals the rewrite specified by recursion over the items |
| FrameTranslate.TranslateDhcpMac | src/native_net/frame_translate.cpp:103-136 | in-place rewrite of chaddr and client identifiers and repair of the checksum; `FrameCases.DhcpTranslated` says which frames have them |
| FrameRoundTrip.TranslateFrame | src/native_net/frame_translate.cpp:163-197 | both directions: refused frames are untouched, others become the translated frame, which `FrameCases` spells out for the frames a console and its servers send |
| FrameRoundTrip.WalkIsReplacement | src/native_net/frame_translate.cpp:112-130 | rewriting while walking equals collecting all positions first and replacing afterwards |
| FrameRoundTrip.PassIsReplacement | src/native_net/frame_translate.cpp:163-197 | the whole pass, field by field, equals replacement at the positions found in the original frame |
| FrameRoundTrip.ParseStable | src/native_net/frame_translate.cpp:54-101 | nothing a translation may rewrite is ever parsed: the layout found is the same before and after |
| FrameRoundTrip.FixChecksumFixed | src/native_net/frame_translate.cpp:131-135 | recomputing leaves a checksum alone exactly when it was absent or right |
| FrameRoundTrip.TranslatedEffect | src/native_net/frame_translate.cpp:163-197 | one translation maps exactly the MAC fields, keeps all other bytes but the DHCP checksum, and leaves a present checksum correct |
| FrameRoundTrip.RoundTrip | src/native_net/frame_translate.cpp:70-136 | translating there and back restores every frame byte for byte if and only if no MAC field already holds the new address and the DHCP checksum is absent or correct |
| FrameCases.DhcpTranslated | src/native_net/frame_translate.cpp:70-136 | behind 0, 1 or 2 VLAN tags, every frame that carries a DHCP message built from its parts, from or to a client with the old address, becomes byte for byte the frame of a client with the new one: Ethernet address, chaddr, every client identifier among any options, checksum |
| FrameCases.DiscoverTranslated | src/native_net/frame_translate.cpp:163-178 | so the Discover of the standalone stack leaves as the Discover of the tether address |
| FrameCases.RequestTranslated | src/native_net/frame_translate.cpp:163-178 | so does its Request |
| FrameCases.RenewTranslated | src/native_net/frame_translate.cpp:163-178 | and the Request that renews a lease |
| FrameCases.ArpOutbound | src/native_net/frame_translate.cpp:138-145 | an outbound ARP frame becomes the one the new address would have sent: Ethernet source and sender |
| FrameCases.ArpInbound | src/native_net/frame_translate.cpp:147-153 | an inbound one becomes addressed to the new address: Ethernet destination and target |
| FrameCases.Ipv4Translated | src/native_net/frame_translate.cpp:70-101 | an IPv4 frame that is not between the DHCP ports keeps everything but its Ethernet address |
| FrameCases.OtherTranslated | src/native_net/frame_translate.cpp:163-197 | so does a frame that is neither IPv4 nor ARP |
| B9cStream.B9cTcpStream.Configure | src/tls/b9c_stream.cpp:18 | refused without an address or name server, else all protocol state starts afresh |
| B9cStream.B9cTcpStream.PushRx | src/tls/b9c_stream.cpp:26 | a segment goes into the ring whole or not at all, and not while the reader holds the lock |
| B9cStream.B9cTcpStream.PopRx | src/tls/b9c_stream.cpp:27 | takes the oldest bytes, as many as asked for and present |
| B9cStream.B9cTcpStream.SendTcp | src/tls/b9c_stream.cpp:24 | exactly one well-formed segment with the given sequence number, or none |
| B9cStream.B9cTcpStream.OnEthernetFrame | src/tls/b9c_stream.cpp:30 | filtering and handling of any frame, tied to the reaction that `InOrderDelivery`, `EverySegmentServed` and `OnlySynAckAnswered` are about |
| B9cStream.B9cTcpStream.Read | src/tls/b9c_stream.cpp:28 | for every schedule the call is a run of the steps of `InOrderDelivery` in which exactly the segments that the frames of the schedule carry arrive, what is sent is what these steps send, and the bytes returned are what the run delivers; 0 only on a closed stream, -1 only without room, past the deadline or on a failed stream |
| B9cStream.B9cTcpStream.Write | src/tls/b9c_stream.cpp:29 | for every schedule the call is a run of the same steps in which exactly the segments of its frames arrive, and what is sent is what these steps send; the data that goes out is a prefix of the data in chunks of at most 1200 bytes, each behind the first only when the acknowledgement in that very state of the run has passed the comparison with the sequence number, or the stream had failed; a count below the length means the deadline passed, and a positive one that the comparison passed or the stream failed |
| B9cStream.B9cTcpStream.SendChunk | src/tls/b9c_stream.cpp:29 | one chunk: SendTcp, the frames that arrive before the sequence number moves, and its move over the chunk, or the failed stream |
| B9cStream.WriteOnWire | src/tls/b9c_stream.cpp:24-29 | so, beside bare acknowledgements, the segments on the wire carry a prefix of the data, 1 to 1200 bytes each, at consecutive sequence numbers mod 2^32 |
| B9cStream.AcksTracked | src/tls/b9c_stream.cpp:29-30 | since a SYN-ACK opened the connection, over acknowledgements of bytes already sent (and resets without one), the highest acknowledgement number never runs ahead of the bytes acknowledged, is never below the start, and is the start plus these bytes until the numbers wrap |
| B9cStream.GuardMeans | src/tls/b9c_stream.cpp:29-30 | what the comparison means, over every such run: when it passes, all bytes written are acknowledged or the sequence numbers have wrapped, and with no chunk on its way it passes if and only if that is so |
| B9cStream.WrapPassesUnacked | src/tls/b9c_stream.cpp:29-30 | the wrap is reached: after any number of chunks each acknowledged before the next, the comparison passes for the chunk that wraps before any of it is acknowledged |
| B9cStream.NewChunkMeans | src/tls/b9c_stream.cpp:29 | stop-and-wait: behind the first chunk of a call of Write a new one goes out only when all bytes written on the connection are acknowledged, the numbers have wrapped, or the stream has failed |
| B9cStream.WriteMeans | src/tls/b9c_stream.cpp:29 | the same for a positive return of Write |
| B9cStream.SynAckStarts | src/tls/b9c_stream.cpp:25-30 | the SYN-ACK that is accepted leaves such a start |
| B9cStream.B9cTcpStream.Connect | src/tls/b9c_stream.cpp:25 | resets the connection and sends exactly one SYN with its ports and sequence number, then what the segments that arrive are answered with; it either fails or leaves what these made of the dialled state; success means connected, failure after the SYN that the deadline passed or the stream failed |
| B9cStream.OpenedBySynAck | src/tls/b9c_stream.cpp:30 | a connection that opens while the caller waits was opened by a SYN-ACK that acknowledges its SYN |
| B9cStream.SynAnswered | src/tls/b9c_stream.cpp:25-30 | the frame in which a peer answers that SYN is heard, opens the connection, and is acknowledged |
| B9cStream.FrameHeardIff | src/tls/b9c_stream.cpp:30 | of all frames built for any stream this one hears exactly those addressed to it from its peer |
| B9cStream.OnlySynAckAnswered | src/tls/b9c_stream.cpp:30 | a connection that is not open answers the SYN-ACK that acknowledges its SYN and nothing else, and a reset fails it |
| B9cStream.EverySegmentServed | src/tls/b9c_stream.cpp:26-30 | over every run of honest segments the next bytes are stored unless the reader is in the ring or it is full, in which case the stream fails; data and FIN are each answered with one bare acknowledgement whose number is irs + 1 + k mod 2^32 for the k bytes then received, one more for a FIN in order; FIN and RST close the stream |
| B9cStream.AllArrives | src/tls/b9c_stream.cpp:26-30 | a stream that comes in order, in pieces that fit the ring, reaches the reader whole |
| B9cStream.B9cTcpStream.Close | src/tls/b9c_stream.cpp:31 | sends FIN exactly if connected, and the stream is closed |
| B9cStream.TcpFrameWellFormed | src/tls/b9c_stream.cpp:20-24 | every frame handed to the sender has a correct IPv4 header and TCP checksum and parses back to its segment |
| B9cStream.HandlerEvolves | src/tls/b9c_stream.cpp:30 | whatever arrives, the handler only extends the ring and raises the acknowledgement, and sends bare acknowledgements |
| B9cStream.InOrderDelivery | src/tls/b9c_stream.cpp:26-30 | over any loss, repetition and reordering of honest segments of a stream shorter than 2^32 bytes, and any failed pushes, what was read plus the ring is a prefix X[..k] since the opening and recv_seq = irs + 1 + k mod 2^32 |
| B9cStream.NothingBeforeIff | src/tls/b9c_stream.cpp:30 | nothing from before the last opening is in the stream if and only if no SYN-ACK was accepted while the stream already held bytes |
| B9cStream.PrefixUnlessReopened | src/tls/b9c_stream.cpp:28-30 | then the caller sees a prefix of the peer's stream and nothing else |
| B9cStream.PrefixWhenAskedFirst | src/tls/b9c_stream.cpp:25-30 | with a peer whose data come only after Write has sent something, and whose SYN-ACKs acknowledge the SYN and do not come between the first chunk and the move of the sequence number, that is always so |
| B9cStream.ReopenRepeats | src/tls/b9c_stream.cpp:30 | from every configured stream on: after a FIN the same SYN-ACK is accepted again, and an honest run yields [7, 7] for the peer's stream [7] |
| TetherWorker.OneInLoop | src/tether_driver.cpp:527-534 | under every interleaving of attach, detach and worker steps at most one thread is inside the worker loop |
| TetherWorker.NeverLost | src/tether_driver.cpp:657-690 | once StartWorker has finished for an attached device and no thread creation failed, some thread owns the worker flag or has released it and will still test `attached` |
| TetherWorker.HandOver | src/tether_driver.cpp:527-690 | from such a state every schedule of worker steps is bounded, some thread has work as long as any is left, and then one worker of the current generation serves the device |
| TetherWorker.TurnsGeneration | src/tether_driver.cpp:738-752 | every attachment and every removal, and nothing else, begins a new generation, to which no worker in the loop belongs |
| TetherWorker.StaleLeaves | src/tether_driver.cpp:527-534 | a worker of an earlier attachment leaves the loop for good: from any attachment or removal on, under every schedule, after three steps of its own |
| TetherWorker.StartsCurrent | src/tether_driver.cpp:662-690 | the worker a finished attachment starts belongs to the generation it read |
| TetherWorker.RemovalEnds | src/tether_driver.cpp:527-690 | after a removal every schedule of worker steps, with whatever thread creations fail, soon ends with all threads gone |
| TetherTx.TxRing.Put | src/tether_driver.cpp:255-273 | the critical section of SendEthernet appends a frame or finds the queue full |
| TetherTx.TxRing.Take | src/tether_driver.cpp:215-240 | the critical section of PumpTx takes the oldest frame; the invalid-entry branch is never reached |
| TetherTx.Conservation | src/tether_driver.cpp:207-273 | under every interleaving of enqueuing threads, pumps and completions: accepted frames = submitted ++ at most one on its way ++ queued, in order |
| TetherTx.BufferStable | src/tether_driver.cpp:207-251 | while a transfer is in flight no step rewrites its buffer or submits another |
| TetherTx.RoundSubmits | src/tether_driver.cpp:215-251 | a pump of an idle driver from start to end hands the oldest queued frame, and no other, to USB |
| TetherTx.QueueDrains | src/tether_driver.cpp:215-251 | as many pumps as frames are queued hand all of them to USB in order |
| TetherControl.TetherDriver.QueueControl | src/tether_driver.cpp:484-511 | one control transfer at a time; a refused one leaves nothing in flight |
| TetherControl.TetherDriver.PollPairing | src/tether_driver.cpp:536-540 | setup starts only from the waiting state with the pairing gate open |
| TetherControl.TetherDriver.OnMac | src/tether_driver.cpp:435-448 | a zero or group address fails the interface, any other is kept and NCM mode is requested |
| TetherControl.TetherDriver.ControlComplete | src/tether_driver.cpp:414-482 | every completion, error and fallback moves the interface as the step that `StepSound` and `SetUpOnlyWhenPaired` are about |
| TetherControl.StepSound | src/tether_driver.cpp:414-511 | in every step the transfer in flight belongs to the state, and past the first step the MAC address is usable |
| TetherControl.FailedStays | src/tether_driver.cpp:414-482 | a failed interface stays failed until the next attachment |
| TetherControl.StallsIff | src/tether_driver.cpp:420-454 | the result of queuing the next setup transfer is ignored: a step leaves the interface between two setup steps with no transfer in flight if and only if the transfer after the MAC address, or the one after NCM mode was taken or given up, is refused or has no endpoint |
| TetherControl.StalledIff | src/tether_driver.cpp:414-511 | in every run the setup is stuck if and only if such a refusal happened and neither a removal nor a stray failed completion came since |
| TetherControl.StalledStays | src/tether_driver.cpp:414-482 | nothing but a removal or a stray failed completion ends that wait |
| TetherControl.FailsIff | src/tether_driver.cpp:414-745 | a step leads into the failed state, or keeps it, if and only if it is an attachment without endpoints or worker, a refused first transfer, a zero or group address, a data endpoint or receive that does not start, an error other than of the NCM request and the carrier poll, or the interface had failed and is not attached anew |
| TetherControl.FailedIff | src/tether_driver.cpp:414-745 | in every joint run with the probe the interface has failed if and only if one of these happened and it was not attached anew since |
| TetherControl.SetUpOnlyWhenPaired | src/tether_driver.cpp:536-540 | in every joint run with the probe in which no store of the retry thread goes over an open gate, an interface in setup or ready had its setup begun at a moment when the probe was Paired or Validated, and it has gone on since |
| TetherControl.SetUpCompletes | src/tether_driver.cpp:393-454 | an attached interface whose gate is open is set up by a device that answers: ready, with its address, in NCM mode unless it refused that, with the carrier it reports |
| MuxProto.BuildTcpPacket | src/mux_proto.cpp:60-85 | the mux header, TCP header and payload, or nothing when they do not fit |
| MuxProto.PacketParses | src/mux_proto.cpp:60-121 | parsing a built packet gives back every field and the payload, whatever follows it |
| MuxProto.WindowScaled | src/mux_proto.cpp:79-81 | the window field is the window in units of 256, rounded down, or the largest value if that does not fit |
| ProbeSend.ProbeLink.PumpTx | src/usbmux_probe.cpp:271-295 | submits exactly the oldest packet when idle, keeps order, and fails when the submit call refuses |
| ProbeSend.ProbeLink.TxComplete | src/usbmux_probe.cpp:259-269 | a completion frees the transfer and pumps the next packet, or fails the probe |
| ProbeSend.ProbeLink.Enqueue | src/usbmux_probe.cpp:297-309 | appends a legal packet unless the queue is full; true even if the inner pump failed |
| ProbeSend.ProbeLink.SendTcp | src/usbmux_probe.cpp:322-335 | one packet with the running mux and TCP sequence numbers, which advance |
| ProbeSend.ProbeLink.SendTcpPayload | src/usbmux_probe.cpp:337-347 | with room for all packets the whole payload is queued in order and both sequence numbers advance accordingly |
| ProbeSend.PacketsReassemble | src/usbmux_probe.cpp:337-347 | parsing the packets in order and concatenating gives back the payload |
| ProbeSend.PacketsInSequence | src/usbmux_probe.cpp:322-347 | packet i carries bytes from 3584 i on, at that TCP offset mod 2^32 and mux sequence rising by one mod 2^16 |
| ProbeSend.RoomForPayload | src/usbmux_probe.cpp:297-347 | a payload of 1..32768 bytes needs at most 10 packets, so with at most 2 queued it fits |
| LockdownStream.Stream.ConsumeLockdownPayload | src/usbmux_probe.cpp:578-614 | one segment: refused when it does not fit, else the bodies delivered and the remainder are those of the specification, in-place NUL included |
| LockdownStream.NulHarmless | src/usbmux_probe.cpp:597-598 | every legal length has a zero top byte, so the NUL stored behind a body changes no byte of a legal stream |
| LockdownStream.Reassembly | src/usbmux_probe.cpp:578-614 | however a stream of legal frames is cut into segments that never overflow the 32768-byte buffer: after each one exactly the complete bodies were delivered in order and the buffer holds exactly the remainder |
| LockdownStream.ReassemblyIff | src/usbmux_probe.cpp:578-614 | and that holds at every moment if and only if no segment overflows the buffer |
| LockdownStream.ReassemblyComplete | src/usbmux_probe.cpp:578-614 | the whole stream without an overflow delivers every body and empties the buffer |
| LockdownStream.Receive | src/usbmux_probe.cpp:616-655 | the receive path, segment by segment, with the real buffer: unless the handler or a segment that does not fit ends it, nothing overflowed and the stream is reassembled |
| LockdownStream.CutStep | src/usbmux_probe.cpp:578-614 | any stream, legal or not: a cut between two segments makes the delivery differ from that of the uncut stream in a buffer without a limit if and only if the segment overflows the 32768 bytes with a legal length in front, or all buffered bytes had been delivered and the segment begins with a nonzero byte in front of what the NUL would make a legal length |
| LockdownStream.SegmentationIff | src/usbmux_probe.cpp:578-614 | over any segments: at every moment the bodies delivered, the failure and the buffer are those of the uncut stream in a buffer without a limit if and only if no cut between them is of one of these kinds |
| LockdownStream.IllegalDependsOnSegmentation | src/usbmux_probe.cpp:590-597 | a cut of the second kind: the same bytes are accepted in one segment and refused in two |
| LockdownStream.OverflowDependsOnSegmentation | src/usbmux_probe.cpp:581-584 | a cut of the first kind, in a legal stream: a largest frame and any other are delivered when cut between them and refused when cut one byte earlier |
| PairProtocol.XmlEscape | src/pair_protocol.cpp:17-42 | the escaped text, or nothing when it does not fit |
| PairProtocol.XmlUnescape | src/pair_protocol.cpp:56-75 | the unescaped text, or nothing for an unknown entity or a full buffer |
| PairProtocol.UnescapeEscaped | src/pair_protocol.cpp:17-75 | unescaping undoes escaping for every string |
| PairProtocol.XmlExtractStringValue | src/pair_protocol.cpp:77-86 | first-occurrence search for the key, the next string element and its end, then unescaping |
| PairProtocol.XmlExtractDataB64Value | src/pair_protocol.cpp:88-106 | the text of the data element after the key with white space dropped; refused when missing, empty or too long |
| PairProtocol.AddKeyString | src/pair_protocol.cpp:108-113 | key and escaped value appended, or nothing when the 256-character buffer or the document is too small |
| PairProtocol.AddKeyData | src/pair_protocol.cpp:115-119 | appends key and data element exactly when the data is not empty and fits |
| PairProtocol.BuildPairingRequestXml | src/pair_protocol.cpp:121-151 | succeeds exactly for buildable material and room, with the document of the specification |
| PairProtocol.ValueFound | src/pair_protocol.cpp:44-106 | in any document that begins with clean tags and then an entry, extraction finds that entry's value, whatever follows |
| PairProtocol.PairingRoundTrip | src/pair_protocol.cpp:77-151 | extracting HostID, SystemBUID, Request and the three certificates from a built request returns what was put in, given room |
| PairProtocol.EchoAnswersOnlyItself | src/pair_protocol.cpp:165-189 | a reply that only echoes a request counts as success exactly for the request expected, and is invalid for any other |
| PairProtocol.ParsePairingReplyXml | src/pair_protocol.cpp:174-189 | success implies that the Request matches and no Error key is present |
| PairSession.BuildPairingFrame | src/pair_session.cpp:68-82 | the Pair or ValidatePair document behind its length |
| PairSession.ParseDevicePublicKeyXml | src/pair_session.cpp:57-66 | the decoded key of a GetValue reply, or nothing |
| PairSession.PairSession.Begin | src/pair_session.cpp:100-105 | asks for the device key only from the idle state, once per reset; any other state is left as it is |
| PairSession.PairSession.OnDevicePublicKeyReply | src/pair_session.cpp:107-122 | only after the query: a reply without a key, a failed generation, which clears the identity, or a frame that does not fit fails the session, else the identity generated for the key is kept and its Pair frame sent |
| PairSession.PairSession.OnPairReply | src/pair_session.cpp:124-134 | a reply moves the session to paired, waiting, denied or failed; outside the two waiting states it is invalid and changes nothing |
| PairSession.GeneratedMaterial | src/pair_session.cpp:107-122 | every identity that is generated can be put in a request: plain fields within their arrays |
| PairSession.RequestCarriesIdentity | src/pair_session.cpp:107-122 | the frame sent for a device key names Pair, and a reader extracts exactly the identity generated for that key from it |
| PairIdentity.FormatUuidV4 | src/pair_identity.cpp:6-21 | the hexadecimal digits of the random bytes with version and variant stored over six bits |
| PairIdentity.UuidUnique | src/pair_identity.cpp:6-21 | 36 characters, and two draws give the same UUID if and only if they agree outside of those six bits |
| PairIdentity.UuidShape | src/pair_identity.cpp:6-21 | dashes where they belong, version 4, and the variant of RFC 4122 |
| PairIdentity.MakeDeviceCert | src/pair_crypto_provider.cpp:122-140 | the PEM text of the certificate issued for the key, or a refusal |
| PairIdentity.ExportB64 | src/pair_identity.cpp:23-50 | a PEM text as base64, refused when empty or too long for its field |
| PairIdentity.GeneratePairIdentity | src/pair_identity.cpp:52-100 | two UUIDs and five exported fields, or nothing when any part is refused |
| PairIdentity.GeneratedIdentity | src/pair_identity.cpp:52-100 | the device certificate of every identity, decoded, is the PEM text of a certificate that reads back as what was signed for the key the phone sent |
| PairIdentity.FieldsRead | src/pair_identity.cpp:52-100 | host and root, key and certificate, each decode to the text the backend gave for it |
| PairIdentity.GenerationSucceeds | src/pair_identity.cpp:52-100 | for every RSA key of up to 980 bytes and every working backend an identity is generated; all buffers suffice |
| PairGate.LockdownProbe.HandleCompleteLockdownPlist | src/usbmux_probe.cpp:483-576 | one plist in any state, empty ones, the search for the lockdownd type and sends that fail inside included, moves the probe as the step that `GateHoldsIff` is about and hands on the frames that `PairTalk.Conversation` is about |
| PairGate.LockdownProbe.AddDevice | src/usbmux_probe.cpp:766-830 | an attachment starts with the gate shut and a fresh session |
| PairGate.LockdownProbe.RemoveDevice | src/usbmux_probe.cpp:832-866 | a removal shuts the gate |
| PairGate.LockdownProbe.StoreState | src/usbmux_probe.cpp:413-431 | the retry thread's store, a step of its own that happens whatever the state has become since its test |
| PairGate.GateStep | src/usbmux_probe.cpp:197-210 | a step keeps "ready only while Paired or Validated" if and only if it is not a store of the retry thread while the gate is open |
| PairGate.GateHoldsIff | src/usbmux_probe.cpp:197-576 | over any run of whole callbacks and single steps of the retry thread the gate holds throughout if and only if no such store happens |
| PairGate.PairingGate | src/usbmux_probe.cpp:413-576 | if the retry thread's test and store happen together, ready implies Paired or Validated in every run, probe and session agree, and a retry sends the frame of the session's identity |
| PairGate.ReadyMeansAnswered | src/usbmux_probe.cpp:509-575 | in every run, raced or not, an open gate was opened by a success reply to the request waited for and has been open since |
| PairGate.SetupOnlyWhenPaired | src/tether_driver.cpp:536-540 | when no such store happened, at a step that starts tether control setup the probe is Paired or Validated, after such a reply |
| PairGate.RetryRace | src/usbmux_probe.cpp:413-431 | the race in the code: a success reply between test and store leaves the gate open in an unpaired state, and the next plist fails the pairing |
| PairGate.FailedStep | src/usbmux_probe.cpp:197-210 | a step from ProbeFailed leaves it if and only if it is a removal, a store of the retry thread past its test, or a complete new attachment |
| PairGate.FailedStaysIff | src/usbmux_probe.cpp:197-210 | over any run: from a failure on the probe stays failed if and only if none of these happens |
| PairGate.StoreRevives | src/usbmux_probe.cpp:413-431 | a failure between the retry thread's test and its store is undone, and a success reply then opens the gate |
| PairGate.SubmitFailureForgotten | src/usbmux_probe.cpp:297-309 | over any sends one after another, whatever submits fail inside them: the probe ends failed if and only if a send was refused, and else where its last send leads |
| PairGate.SubmitFailureGoesOn | src/usbmux_probe.cpp:757-762 | it happens at the first send after an attachment: the probe waits for a reply to a packet that never left |
| PairGate.SendsTwice | src/usbmux_probe.cpp:624-697 | the version and the SYN-ACK reply are such pairs of sends |
| PairStores.CallbackIsStep | src/usbmux_probe.cpp:197-850 | a callback's stores, in the order of the code and undisturbed, make the step of `PairGate` |
| PairStores.FinelySame | src/usbmux_probe.cpp:197-850 | so every run of whole callbacks is a run of single stores |
| PairStores.SaneStep | src/usbmux_probe.cpp:197-850 | in every interleaving what is left of a callback opens the gate right behind a paired state or not at all |
| PairStores.GuardStep | src/usbmux_probe.cpp:413-575 | one store, test or callback keeps "open, or opening, only on a paired phone or one whose gate is just being shut" if and only if it is not the retry thread getting between a callback's stores |
| PairStores.GateHoldsIff | src/usbmux_probe.cpp:197-575 | over every interleaving of the single stores the gate holds in that sense throughout if and only if the retry thread never gets between |
| PairStores.FailureBetweenStores | src/usbmux_probe.cpp:413-575 | the second race: a failure of the retry thread's send between the two stores of a success leaves the gate open on a failed probe |
| PairStores.MisleadingIff | src/usbmux_probe.cpp:197-850 | in every interleaving the gate is found open on a phone that is not paired if and only if a store of a failure, a removal or the retry thread unpaired or detached it under an open gate, or a success opened the gate over such a store, and neither was made up for since |
| PairStores.PollStartsUnpairedIff | src/tether_driver.cpp:536-540 | so the worker's poll starts the setup on a phone that is not paired exactly then |
| TetherRuns.SetUpBegan | src/tether_driver.cpp:536-540 | store by store, in every interleaving with the tether driver: an interface in setup or ready had its setup begun by a poll that found the gate open, and the phone was paired at that moment if and only if the gate was not misled in that way |
| TetherRuns.PollMeetsFailure | src/tether_driver.cpp:536-540 | from the installed drivers on, for every phone that can be paired and without the retry thread: a poll between the two stores of a failure starts the setup of a failed probe |
| TetherRuns.StallReached | src/tether_driver.cpp:445-454 | from the installed drivers on, for every phone that can be paired and every usable hardware address: the setup is stuck when its second transfer is refused |
| PairRace.QueryFits | src/pair_session.cpp:22-39 | every GetValue query for a key of ordinary length fits the probe's 1024-byte buffer |
| PairRace.PairFrameFits | src/pair_session.cpp:68-82 | every pair request made of what the identity's buffers can hold fits the 32768-byte pair frame |
| PairRace.TrustAnswer | src/pair_protocol.cpp:174-183 | a concrete reply that asks for trust is classified as such |
| PairRace.SuccessAnswer | src/pair_protocol.cpp:165-188 | a concrete reply that names the request and no error is a success |
| PairRace.Pairs | src/usbmux_probe.cpp:483-575 | left alone, every such phone is paired and the gate opens |
| PairRace.RaceReached | src/usbmux_probe.cpp:413-431 | the first race is real: for every phone for whose key an identity is generated, a run from the installed driver on, with the replies of that phone, ends with the gate open in an unpaired state |
| PairRace.FailureRaceReached | src/usbmux_probe.cpp:413-575 | and so is the second, store by store |
| PairRace.OrdinaryPhones | src/usbmux_probe.cpp:483-575 | such phones exist for every RSA key of ordinary size and every working backend |
| PairRace.StoredPhoneValidates | src/usbmux_probe.cpp:483-575 | from the installed driver on a phone with a stored record is asked to validate it; its success opens the gate, any other answer leads on to a new pairing |
| PairTalk.QueryReads | src/pair_session.cpp:22-39 | whoever reads a query frame finds the request GetValue and the key asked for |
| PairTalk.QueryTypeReads | src/lockdown_probe.cpp:7-23 | the first frame reads as a QueryType request and fits its buffer |
| PairTalk.PairReads | src/pair_session.cpp:68-82 | a Pair or ValidatePair frame reads as that request and carries every field of the identity |
| PairTalk.Conversation | src/usbmux_probe.cpp:359-575 | a phone that answers each request by what it reads in the frame is asked for its type, identifier, address and key and then to pair with the identity generated for that key; each retry sends the same frame, and once the phone trusts, the gate opens |
| PairTalk.KnownConversation | src/usbmux_probe.cpp:359-575 | a phone with a stored record is asked for type and identifier and then to validate exactly that record, and its success opens the gate |
| PairFailures.PlistFailsIff | src/usbmux_probe.cpp:483-575 | a reply that is handled fails the probe if and only if it is the wrong one for the state: no lockdownd, no identifier, no key or identity, neither success nor trust pending, nobody to wait for the trust, or the send behind it refused |
| PairFailures.FailsIff | src/usbmux_probe.cpp:197-831 | a step leads the probe into its failed state, or keeps it there, if and only if one of the named errors happens, or it had failed and nothing revives it |
| PairFailures.FailedIff | src/usbmux_probe.cpp:197-831 | in every run of whole callbacks the probe has failed if and only if one of these happened and nothing has revived it since |
| Base64.Encode | src/base64.cpp:7-37 | the encoded text, wrapped or not, exactly when it and a NUL fit |
| Base64.Decode | src/base64.cpp:48-79 | the decoded bytes exactly when the text is well formed and they fit |
| Base64.DigitValue | src/base64.cpp:5-46 | the value table inverts the digit table |
| Base64.RoundTrip | src/base64.cpp:7-79 | decoding undoes encoding for every byte string, wrapped or not; encoded text has neither markup nor white space |
| Base64.TestVectors | src/base64.cpp:7-30 | whole groups as in the test vectors of RFC 4648, with the two last digits of the table |
| Base64.PaddedVectors | src/base64.cpp:7-30 | the padded test vectors |
| DerX509.Writer.Add | src/der_x509.cpp:23 | appends all of its bytes when they fit the buffer and none of them otherwise |
| DerX509.Writer.AddTlv | src/der_x509.cpp:24-25 | succeeds exactly when tag, length and content fit, and then appends exactly that element |
| DerX509.ReadLen | src/der_x509.cpp:30 | reads short and one- or two-byte long lengths, and refuses a length that reaches past the end |
| DerX509.ReadTlv | src/der_x509.cpp:31 | finds the content of the element at a position if its tag is the one asked for and it lies inside the buffer |
| DerX509.TlvReads | src/der_x509.cpp:24-31 | an element written anywhere is read back with its content |
| DerX509.NormalizeSpki | src/der_x509.cpp:32-64 | wraps a bare key or takes an SPKI apart, as `KeyRoundTrip` and `NormalizedReadable` judge it |
| DerX509.KeyRoundTrip | src/der_x509.cpp:35-63 | a wrapped PKCS#1 key is read back through the SPKI branch byte for byte |
| DerX509.NormalizedReadable | src/der_x509.cpp:32-64 | the key a certificate carries is the one whose digest was taken |
| DerX509.FindN | src/der_x509.cpp:28 | the first occurrence of a marker from a position on, or none |
| DerX509.PemDer | src/der_x509.cpp:29 | the decoded body between the first matching pair of markers and whether it is a bare key; a body that is empty, malformed or too long is refused |
| DerX509.BuildTbs | src/der_x509.cpp:74-81 | the signed part; no scratch buffer is too small for any accepted key |
| DerX509.BuildCertificate | src/der_x509.cpp:83-85 | the signed part, the algorithm and the signature in one element; its buffers suffice |
| DerX509.BuildDeviceCertificatePem | src/der_x509.cpp:68-89 | succeeds exactly when key, digest and signature are there and the text fits |
| DerX509.CertificateRoundTrip | src/der_x509.cpp:68-89 | the base64 body of the PEM decodes and re-reads as three elements, the first byte for byte what was signed, the third 0 and the signature |
| CertificateKey.CertificateHoldsKey | src/der_x509.cpp:68-89 | read with nothing but tags and lengths, the signed body is version 3, serial 1, the algorithm, an empty name, the validity, an empty name, a key info that holds the RSA key of the PEM, and extensions with the digest of that key; it reads back as exactly the eight parts put in if and only if the PEM held nothing behind the key info |
| CertificateKey.TrailingByteAccepted | src/der_x509.cpp:34-63 | for every RSA key of up to 970 bytes there is a PEM with one byte behind the key info that is accepted all the same |
| CertificateKey.KeyIdRead | src/der_x509.cpp:64-74 | the digest put into the extensions is read from them |
| PairStore.SerializePairRecord | src/pair_store.cpp:152-170 | the record text exactly when the three identifying fields are filled and it fits |
| PairStore.FindLineValue | src/pair_store.cpp:26-42 | the value of the first line whose text before "=" is the key |
| PairStore.GetLine | src/pair_store.cpp:44-54 | a missing line is empty when optional and an error when required; a value that does not fit, or an empty required one, is an error |
| PairStore.DeserializePairRecord | src/pair_store.cpp:172-187 | the record of all ten fields, or nothing when the magic line or any field is wrong |
| PairStore.AlwaysFits | src/pair_store.cpp:152-170 | every record of fields that fit their arrays fits 65536 bytes |
| PairStore.RoundTripIff | src/pair_store.cpp:26-187 | for every record of one-line fields, reading back the text gives the record if and only if its required fields are filled; values may hold "=", optional fields may be empty |
| LicenseRuntime.LicenceRuntime.BeginPhoneConnection | src/license/license_runtime.cpp:182-194 | the connection becomes current, and the gate follows the verdict or waits for one |
| LicenseRuntime.LicenceRuntime.EndPhoneConnection | src/license/license_runtime.cpp:196-203 | only the current connection ends, and without a verdict the gate goes back to waiting |
| LicenseRuntime.LicenceRuntime.MaybeStartCheck | src/license/license_runtime.cpp:205-248 | reports a start exactly when the connection is current, unattempted, without verdict or running check, configured, and the thread starts; a failed thread opens the gate |
| LicenseRuntime.LicenceRuntime.AwaitInternet | src/license/license_runtime.cpp:53-60 | the wait, with the calls that other threads make meanwhile, goes on exactly as long as the connection is current and neither the deadline nor the internet flag is met |
| LicenseRuntime.LicenceRuntime.FinishUnavailable | src/license/license_runtime.cpp:50-77 | after exactly the rounds of the wait, whatever others call in them, a check that is stale then changes nothing, any other opens the gate without a verdict |
| LicenseRuntime.LicenceRuntime.CheckWorker | src/license/license_runtime.cpp:79-167 | the decision is one step, taken after all that others called in exactly the rounds of the wait, as `AlwaysSound` and `OpenOnlyWithoutVerdict` need |
| LicenseRuntime.AlwaysSound | src/license/license_runtime.cpp:36-248 | in every run Deny holds exactly when the state is Unlicensed, Licensed and Free mean Allow, and a running check has no verdict yet |
| LicenseRuntime.DefinitiveUntilReset | src/license/license_runtime.cpp:132-180 | a definitive verdict stands through any calls up to the next reset and falls with it |
| LicenseRuntime.DecisionStands | src/license/license_runtime.cpp:79-180 | in every run the gate is Deny if and only if the check that decided since the last reset found no match, and Allow when it matched or found the free mode; the state says the same |
| LicenseRuntime.EndedGrantsNothing | src/license/license_runtime.cpp:196-228 | after the end of a connection, until the next begins, no check is started and the gate opens only by a verdict, whatever check still runs |
| LicenseRuntime.OneCheckPerConnection | src/license/license_runtime.cpp:205-228 | with rising connection ids at most one check is attempted per connection |
| LicenseRuntime.ForgottenIff | src/license/license_runtime.cpp:171-217 | what the guard knows of an id is exactly whether its latest attempt was followed by an attempt for another id or a reset |
| LicenseRuntime.AttemptedTwiceIff | src/license/license_runtime.cpp:205-228 | in every run a check is attempted twice for an id if and only if the id is ready for one at a moment when its earlier one was forgotten in that way |
| LicenseRuntime.ReturningIdIsCheckedAgain | src/license/license_runtime.cpp:79-248 | it happens: any two ids that alternate, with a whole check that runs twice for the first of them |
| LicenseRuntime.OpenOnlyWithoutVerdict | src/license/license_runtime.cpp:64-65 | Allow with state Unknown arises only from a check of the still current connection that ended without a verdict, and has held since |
| LicenseRuntime.OpenIff | src/license/license_runtime.cpp:50-248 | in every run the gate is open without a verdict if and only if a check ended without one, or its thread did not start, and no new connection, end, reset or new check came since; and a check is running if and only if one has begun for the then current, configured, not last attempted connection and has not been decided |
| NotifyRing.NotifyRing.Compact | src/diag.cpp:148-188 | a compaction equals an order-preserving filter of the queue |
| NotifyRing.NotifyRing.DuplicateQueued | src/diag.cpp:190-198 | finds a repeated kind of the connection or a repeated text |
| NotifyRing.NotifyRing.QueueNotification | src/diag.cpp:200-224 | a notice without connection is appended unless its text is queued or the lock is taken; a full queue drops its oldest |
| NotifyRing.NotifyRing.BeginPhoneNotifications | src/diag.cpp:385-398 | withdraws the notices of the previous connection and clears the mask; without the lock it only changes the active connection |
| NotifyRing.NotifyRing.EndPhoneNotifications | src/diag.cpp:400-414 | withdraws the notices of the connection; without the lock it only deactivates it |
| NotifyRing.NotifyRing.ResetPhoneProgress | src/diag.cpp:416-429 | forgets and withdraws progress notices only |
| NotifyRing.NotifyRing.NotifyPhone | src/diag.cpp:431-479 | only for the active connection, once per kind, not twice in the queue; a working notice withdraws a queued failure first |
| NotifyRing.NotifyRing.PopNotify | src/diag.cpp:116-146 | skips stale notices and shows the first current one, cut to the buffer |
| NotifyRing.QueueFits | src/diag.cpp:116-479 | in every run the queue holds at most 16 notices, no two with the same nonzero connection and kind |
| NotifyRing.ShownInOrder | src/diag.cpp:116-479 | what was shown followed by what waits is a subsequence of what was queued |
| NotifyRing.ShownIsCurrent | src/diag.cpp:119-130 | a phone notice that is shown belongs to the connection active at that moment |
| NotifyRing.OncePerConnection | src/diag.cpp:431-476 | with rising ids a connection gets each lasting notice (detected, licence found, no licence) at most once in any run |
| NotifyRing.AllShown | src/diag.cpp:116-146 | popped as often as notices wait, the queue shows all that are not stale, in order |
| NotifyRing.NoticeShown | src/diag.cpp:381-383 | a notice that is no repetition is shown in its turn, after what waited before |
| NotifyRing.PhoneNoticeShown | src/diag.cpp:431-476 | so is a phone notice of the active connection that is new to it, and a working notice withdraws the failure |
| NotifyRepeats.ShortTextsApart | src/diag.cpp:190-224 | in every run no text of fewer than 159 characters waits twice, and none is empty |
| NotifyRepeats.RepeatedIff | src/diag.cpp:190-224 | a notice asked for again at once is queued a second time if and only if its text is longer than a slot; longer texts are cut to 159 characters |
| NotifyRepeats.FailureAgainIff | src/diag.cpp:431-476 | behind a working notice a connection is told of a failure again if and only if any notice was waiting when the working notice came |
| NotifyRepeats.LaterFailureUntold | src/diag.cpp:431-476 | the other case is reached from the start on: once its failure and its success have been shown, a connection is not told of the next failure |
| NotifyRing.BeginsAfresh | src/diag.cpp:385-398 | a connection that begins may be told everything, and nothing of the one before is shown |
| NotifyRing.ProgressAgain | src/diag.cpp:416-429 | after a reset of the progress it may be told of it again |
| NetWire.WalkOptions | src/net_stack.cpp:244-257 | the option values found, later ones overriding earlier ones, the walk stopping safely at a malformed tail; `NetLease.OptionsRead` says which code gives what |
| NetWire.SkipDnsName | src/net_stack.cpp:49-60 | the offset behind a name of at most 128 labels or behind a compression pointer, 0 for a malformed one |
| NetWire.FindAddress | src/net_stack.cpp:313-326 | the first IPv4 address among the answers, none, or malformed |
| NetWire.ContainsHttp | src/net_stack.cpp:44-48 | true exactly when the text occurs |
| NetWire.ArpReads | src/net_stack.cpp:207-212 | an ARP frame built here is read back by a stack like it |
| NetLease.OptionsRead | src/net_stack.cpp:244-257 | of every message built from options in any order, with pads, unknown options and repetitions, the walk finds the type (53) and the last subnet mask (1), router (3), name server (6), server (54) and lease time (51) |
| NetLease.LeaseTaken | src/net_stack.cpp:241-289 | from every start on an offer and its acknowledgement, with any such options, leave the stack configured with exactly the lease they describe, and the ARP request sent asks for its router |
| NetAnswers.AnswerFound | src/net_stack.cpp:313-326 | of every reply built from questions and records, aliases and others in front, the walk finds the first IPv4 address, or that there is none |
| NetAnswers.NameSkipped | src/net_stack.cpp:49-60 | every name of up to 127 labels, ended by the root or a pointer, is skipped whole |
| NetExchange.WholeExchange | src/net_stack.cpp:76-369 | from every start on, with any lease, gateway, site and reply: six frames later the HTTP response has been announced, the events have come in their order, and nine frames have been sent, each spelled out |
| NetExchange.OrdinaryWorks | src/net_stack.cpp:76-369 | such an exchange exists, with a router and a name server that differ and an alias before the address |
| NetExchange.GatewayAnswered | src/net_stack.cpp:198-206 | the gateway is pinged and the name server of the lease asked through it |
| NetExchange.NameAnswered | src/net_stack.cpp:313-335 | the site is dialled with a SYN for the lease address |
| NetExchange.SynAckAnswered | src/net_stack.cpp:352-361 | the SYN-ACK is acknowledged and the request sent |
| NetExchange.SegmentAnswered | src/net_stack.cpp:362-369 | an open connection acknowledges data and FIN with the number behind what came in order, and reports the first response |
| NetExchange.ArpAnswered | src/net_stack.cpp:207-214 | a request for the own address is answered to the one who asked |
| NetExchange.RenewalAsked | src/net_stack.cpp:129-156 | at half the lease its server is asked, by the gateway, to renew it |
| NetExchange.RenewalTaken | src/net_stack.cpp:262-281 | an acknowledgement that says nothing new keeps the lease and starts its time afresh |
| NetQueries.QueryReads | src/net_stack.cpp:303-312 | the packet for the name server is a recursive query for the IPv4 address of example.com, from port 53000 plus ten bits of its id to port 53 |
| NetQueries.PingReads | src/net_stack.cpp:291-296 | the packet for the gateway is an echo request with the stack's id, number 1 and seed |
| NetQueries.EchoHeard | src/net_stack.cpp:298-301 | as frames: an ICMP message to a configured stack is announced if and only if it is an echo reply, and changes nothing else |
| NetQueries.RefusalHeard | src/net_stack.cpp:262-290 | as frames: a refusal from the server is announced and changes nothing else, messages of any other kind change nothing |
| NetQueries.ForeignIgnored | src/net_stack.cpp:189-223 | frames for other stations, fragments, packets for other addresses once configured, and other types change nothing and are not answered |
| NetStack.StandaloneNetStack.Start | src/net_stack.cpp:76-87 | everything reset, identifiers derived from seed and MAC, and one Discover sent |
| NetStack.StandaloneNetStack.TickOneSecond | src/net_stack.cpp:144-163 | one second of waiting or aging, with the renewal, expiry or retry that `LeaseClock` places |
| NetStack.StandaloneNetStack.SendDhcpDiscover | src/net_stack.cpp:92-107 | announces and sends the message and restarts the waiting count |
| NetStack.StandaloneNetStack.SendDhcpRequest | src/net_stack.cpp:109-126 | sent only with an offered address and a server |
| NetStack.StandaloneNetStack.SendDhcpRenew | src/net_stack.cpp:129-142 | sent only while configured with gateway address and server, under a new transaction id |
| NetStack.StandaloneNetStack.SendIpv4Udp | src/net_stack.cpp:165-174 | one frame with the source address of the moment and checksum to match, or none |
| NetStack.StandaloneNetStack.SendTcpAck | src/net_stack.cpp:337-345 | one segment with the running numbers, checksummed for the lease address, or none |
| NetStack.StandaloneNetStack.SendTcpSyn | src/net_stack.cpp:329-335 | the sequence number advances only when the frame was taken |
| NetStack.StandaloneNetStack.HandleArp | src/net_stack.cpp:198-214 | a reply from the gateway resolves it and starts ping and query; a request for the own address is answered |
| NetStack.StandaloneNetStack.HandleAck | src/net_stack.cpp:264-277 | an acknowledgement for another address is ignored; else the lease is taken with its fallbacks and the stack is bound or reports failure |
| NetStack.StandaloneNetStack.HandleDhcp | src/net_stack.cpp:241-281 | only replies with the own transaction id are taken, and handled by message type |
| NetStack.StandaloneNetStack.HandleDns | src/net_stack.cpp:313-327 | only replies with the own id are taken: malformed ones ignored, an address resolved and dialled, none reported |
| NetStack.StandaloneNetStack.HandleAccept | src/net_stack.cpp:352-361 | the SYN-ACK opens the connection once, then acknowledgement and request go out while the sender takes them |
| NetStack.StandaloneNetStack.HandleData | src/net_stack.cpp:363-366 | only the expected segment advances the acknowledgement, and the first with a response is announced |
| NetStack.StandaloneNetStack.HandleTcp | src/net_stack.cpp:347-369 | segments of the connection only: opening, data, FIN and the acknowledgement sent for them |
| NetStack.StandaloneNetStack.OnEthernetFrame | src/net_stack.cpp:189-196 | any frame: address filter, type, and the step that `EventCausality` and `AllSentVerifies` are about |
| NetRuns.EventCausality | src/net_stack.cpp:198-369 | in every run since the start TcpConnected occurs at most once and only after DnsResolved and GatewayResolved, HttpResponse at most once and only after TcpConnected, and GatewayResolved only after DhcpBound |
| NetRuns.FrameKeepsClock | src/net_stack.cpp:189-281 | no frame but an accepted DHCP reply moves the lease clock |
| NetRuns.AckStartsClock | src/net_stack.cpp:264-277 | an acknowledgement that configures the stack with a lease starts the clock at age 0 |
| NetRuns.LeaseClock | src/net_stack.cpp:144-163 | with no further DHCP reply, whatever else arrives: age k after k ticks, one renewal at max(1, L/2), at L the lease zeroed and a Discover, then one every four ticks |
| NetConditions.RouterStep | src/net_stack.cpp:258-277 | one second or one frame leaves a configured stack without a gateway if and only if it is an offer without a router that is taken up while configured |
| NetConditions.RouterIff | src/net_stack.cpp:258-277 | in every run since the start "configured implies a gateway" holds at every moment if and only if no such offer arrives |
| NetConditions.LateOfferOverwrites | src/net_stack.cpp:258-262 | from every start on: an offer, its acknowledgement and the same offer again, as frames, leave the stack configured with gateway, name server and lease time 0 |
| NetConditions.NameStep | src/net_stack.cpp:313-322 | an input announces a name if and only if it is a datagram to the query port with the query id, the reply bit and an address |
| NetConditions.NamesAskedIff | src/net_stack.cpp:298-322 | in every run each name is announced after a query was among the frames sent if and only if no such datagram arrives before one was |
| NetConditions.UnsolicitedName | src/net_stack.cpp:313-322 | from every start on: the first frame from the network resolves a name, when only a Discover has been sent |
| NetChecksums.SentFromZero | src/net_stack.cpp:337-345 | a segment checksummed for the lease address but sent from 0 verifies exactly when that address sums to 0 |
| NetChecksums.AllSentVerifies | src/net_stack.cpp:165-187 | in every run every IPv4 header, datagram and echo request sent verifies, and a TCP segment does exactly when the stack was configured or the lease address sums to 0 |
| NetZeroSource.SentFromZeroReached | src/net_stack.cpp:165-187 | from every start on and for every lease address: six frames after which the stack sends a TCP segment from address 0 that verifies only if the words of the lease address sum to 0 |
| NetZeroSource.UnverifiableSegmentSent | src/net_stack.cpp:165-187 | so from every start on the lease address 192.168.1.2 leads to a TCP segment that does not verify |
| LicenseRuntime.LicenceRuntime.ResetCoreSession | src/license/license_runtime.cpp:171-180 | everything starts afresh unless a check is running |
| PairProtocol.Base64IsDataText | src/pair_protocol.cpp:88-106 | what `Base64.Encode` yields passes through a data element unchanged |
| PairGate.LockdownProbe.ControlComplete | src/usbmux_probe.cpp:226-239 | the configured device is asked for its mux version, or the probe fails |
| PairGate.LockdownProbe.OnVersion | src/usbmux_probe.cpp:678-697 | setup and SYN follow the version reply, each of which may be refused |
| PairGate.LockdownProbe.OnSynReply | src/usbmux_probe.cpp:624-636 | acknowledgement and QueryType follow the SYN-ACK, each of which may be refused |
| PairGate.LockdownProbe.OnUniqueDeviceId | src/usbmux_probe.cpp:496-507 | a stored record is validated, without one the pairing goes on; an empty or missing id fails |
| PairGate.LockdownProbe.OnValidateReply | src/usbmux_probe.cpp:509-524 | only a success reply that names ValidatePair opens the gate, anything else falls back to pairing |
| PairGate.LockdownProbe.OnDevicePublicKey | src/usbmux_probe.cpp:537-555 | without the crypto backend the probe stops, else the Pair frame of the new identity is kept and sent |
| PairGate.LockdownProbe.OnPairReply | src/usbmux_probe.cpp:557-575 | only a success reply that names Pair opens the gate; a pending one starts the retries, any other fails |
| PairGate.LockdownProbe.TestState | src/usbmux_probe.cpp:418-423 | the retry thread's test, a step of its own |
| PairGate.LockdownProbe.SendAgain | src/usbmux_probe.cpp:425 | the retry thread's send of the kept frame |
| NetStack.StandaloneNetStack.SendIpv4Raw | src/net_stack.cpp:176-187 | one frame under the next packet id, or none when the payload is too long |
| NetStack.StandaloneNetStack.SendArpRequest | src/net_stack.cpp:283-289 | one broadcast request for the target |
| NetStack.StandaloneNetStack.SendEcho | src/net_stack.cpp:291-296 | one echo request whose checksum verifies, only while configured with a gateway address |
| NetStack.StandaloneNetStack.SendDnsQuery | src/net_stack.cpp:303-311 | one query to the lease's name server, only while configured with a gateway address |
| NetStack.StandaloneNetStack.HandleGateway | src/net_stack.cpp:201-206 | the gateway address is taken, announced, pinged and used for the query |
| NetStack.StandaloneNetStack.HandleOffer | src/net_stack.cpp:258-263 | an offer replaces subnet, gateway, name server and lease whatever the state, and is requested |
| NetStack.StandaloneNetStack.TakeLease | src/net_stack.cpp:267-275 | option by option, then the fallbacks, then whether the stack is configured, at age 0 |
| NetStack.StandaloneNetStack.HandleUdp | src/net_stack.cpp:230-239 | datagrams to the DHCP and DNS ports, cut to their length field |
| NetStack.StandaloneNetStack.HandleIcmp | src/net_stack.cpp:298-301 | an echo reply is announced and changes nothing else |
| NetStack.StandaloneNetStack.HandleEstablished | src/net_stack.cpp:362-369 | data, FIN and one acknowledgement for them |
| NetStack.StandaloneNetStack.HandleIpv4 | src/net_stack.cpp:216-228 | fragments and packets for others are dropped, the rest go by protocol |
| TetherControl.TetherDriver.AddDevice | src/tether_driver.cpp:692-745 | an attachment starts waiting for the pairing, or failed |
| TetherControl.TetherDriver.OnControlError | src/tether_driver.cpp:420-433 | NCM mode is given up, a carrier poll is retried, anything else fails the interface |
| TetherControl.TetherDriver.OpenDataEndpoints | src/tether_driver.cpp:393-412 | ready only with both endpoints and the first receive submitted, then the first carrier poll |
| B9cStream.B9cTcpStream.Reset | src/tls/b9c_stream.cpp:17 | every field of the protocol state is cleared |
| B9cStream.B9cTcpStream.HandleSegment | src/tls/b9c_stream.cpp:30 | one segment of the connection, as the reaction `OnSegment` says |
| B9cStream.B9cTcpStream.AwaitAck | src/tls/b9c_stream.cpp:29 | the waiting loop goes on only when all was acknowledged or the stream failed |
| B9cStream.B9cTcpStream.StartConnect | src/tls/b9c_stream.cpp:25 | the peer is set and exactly the SYN sent; only when the sender took it does the sequence number advance |
| NotifyRing.NotifyRing.Put | src/diag.cpp:211-222 | appends a notice, dropping the oldest of a full queue |
| NotifyRing.NotifyRing.RemovePhoneNotifications | src/diag.cpp:148-163 | takes out exactly the notices of a connection |
| DerX509.BuildExtensions | src/der_x509.cpp:65-67 | the three extensions; their buffers suffice |
| DerX509.WrapKey | src/der_x509.cpp:35-46 | the SPKI element around a bare key, within its buffers |
| PairProtocol.StripSpaces | src/pair_protocol.cpp:96-105 | the text without white space, refused when empty or too long |
| LockdownStream.Stream.Round | src/usbmux_probe.cpp:588-613 | one round of the delivery loop delivers the first body or stops |
| Base64.EmitQuad | src/base64.cpp:22-30 | four characters laid out, the line broken after the 64th |

## Left out

- B9cStream.InOrderDelivery: promises a prefix and not all of the stream, because an out-of-order FIN closes the stream; what comes in order arrives whole (`AllArrives`).
- B9cStream.B9cTcpStream.Connect: when the connection succeeds is the peer's choice; only what success and failure mean is stated. The SYN and the move of the sequence number behind it are one step, so a SYN-ACK that arrives between them, which the code ignores, is outside it.
- B9cStream.B9cTcpStream.Configure: the id of its name query, which belongs to the name lookup.
- B9cStream.B9cTcpStream.OnEthernetFrame: what a name reply stores, for the same reason; it touches nothing of the connection.
- TetherControl.SetUpOnlyWhenPaired: takes each callback of the probe as one step and assumes that no store of the retry thread goes over an open gate; `TetherRuns.SetUpBegan` is over single stores and any interleaving.
- PairGate.SetupOnlyWhenPaired: the same for the probe alone; `PairStores.PollStartsUnpairedIff` is over single stores.
- TetherControl.TetherDriver.AddDevice: one step, though the poll of a worker left from an earlier attachment can run inside it and find no endpoint yet; the worker's poll and each completion are one step as well.
- PairStores.GateHoldsIff: a callback reads the probe once, at its start, and clearing the probe on arrival and removal is one store.
- PairFailures.FailedIff: takes each callback of the probe as one step; `PairStores` is over single stores.
- LicenseRuntime.OneCheckPerConnection: assumes rising connection ids, which the driver's counter gives until it wraps; `AttemptedTwiceIff` says what happens for any ids.
- LockdownStream.Receive: the handler's verdicts on a plist are a free choice here; they are the subject of `PairGate`.
- PairGate.LockdownProbe.HandleCompleteLockdownPlist: what the stored-record files hold is a parameter.
- The races inside single API calls of the licence runtime and the notification calls, which check and set without a lock: each call is one step.
- The TCP acknowledgement counters of the probe's lockdownd connection and its version and setup packets: single-packet builders beside the ones modelled.
- The name lookup of `B9cTcpStream`: the same name and answer walk as in `NetWire`.
- The tether RX queue and the XNet bridge: the same ring shape as the transmit queue.
- The restart policy and the user notices of the tether worker's loop body: timers and one-shot flags.
- File access, path building and the choice of drives for pair records: platform calls.
- TLS, trust anchors, RSA and SHA internals, CPU-key reading: foreign code.
- The NCM decoder, the licence document and the chunked-body decoder: single-loop parsers that would add only easier members.
- Loader, plugin entry, hooks, USB descriptors and setup packets, log texts and log files: plumbing and diagnostics.
