# MasqueCat, modelled and proved in Dafny

MasqueCat carries WireGuard packets over CONNECT-UDP. This project models the protocols that
MasqueCat implements itself, not its libraries, and proves what they promise for every input, every
interleaving and every reachable state.

* **HTTP/2 fallback carrier** (`Bytes`, `Varint`, `Packet`, `Capsule`, `FlowControl`, `SenderRun`,
  `CallLog`, `TwoEnds`, `Delivery`, `Drain`, `Liveness`, `StreamEnd`, `TornRun`): varints, capsules and
  context IDs refine a list of datagrams; the flow-controlled sender against any peer; a client and a
  server end, with writers that sleep and give up, joined by two FIFO channels of frames; what a stream
  yields whose writer gave up.
* **Fragmentation** (`Fragments`, `Reassembly`, `RoundTrip`, `BrowserReassembly`, `FragmentIds`): cutting
  WireGuard packets, the native and the browser reassembler, and the fragment IDs.
* **Authentication and relay** (`Authenticator`, `AuthRun`, `Relay`, `RelayRun`): challenges, the
  registry of node keys, and native and browser sessions on one relay.
* **Path and core** (`Path`, `PathRun`, `Core`, `CoreRun`): the reconnectable path, the peer and path
  tables, direct sessions.
* **Shutdown and leases** (`Lease`, `LeaseRun`, `Shutdown`, `ShutdownRun`): the client's core under loan,
  and the HTTP/2 server.

How the model is built. An object whose methods update its fields is a class; each method is proved
against a function on the value of those fields, or states its new state outright. A concurrent
protocol is a state machine: an event is one mutex section, one frame write or one channel operation,
an event that is not enabled changes nothing, and `Run(events)` is the state after any list of events,
so a lemma about `Run(events)` speaks of every interleaving. Inputs from outside (clock readings,
nonces, answers of the network, of the WireGuard device and of `SealTo`/`OpenFrom`) are parameters of
the events. What must never happen is stated of every run; what must be possible is stated as a
continuation that exists from every reachable state in which nothing has ended it. The clock is
arbitrary unless a row says otherwise. Integers are unbounded; where the source's width matters (64-bit
fragment IDs, 16-bit counts, 31-bit windows) it is written out. The wire layouts follow section 16 of
RFC 9000 (varints), sections 3.2 and 3.5 of RFC 9297 (capsules), section 5 of RFC 9298 (context IDs)
and sections 5.2, 6.9.1 and 6.9.2 of RFC 9113 (flow control).

Where the source does not do what a reader may expect, the model follows the code:

* A server whose write gives up for want of window credit (masquecat_h2.go:950-951) has torn a capsule,
  yet neither masqueH2ResponseWriter.Write (masquecat_h2.go:859-875) nor the relay loop
  (masquecat_h3_server.go:135-137) ends the stream, so the next packet is written behind the torn one. If
  little follows the torn capsule it is swallowed (`TornRun.TornStreamReached`); if enough follows, the
  client is handed a packet that nobody sent, with the torn one's keys and a payload that ends in the
  next capsule's bytes (`TornRun.MixedDatagramReached`). The stream stays understandable exactly as long
  as no call was given up after its first chunk and followed by another write (`CallLog.CleanExactly`),
  and the next packet is understood exactly if none was torn (`CallLog.UnderstoodExactly`). These two
  speak of every packet that may come next: for one given packet the bytes may fall into place by
  accident (`CallLog.TornMayLookWhole`). The client retires its carrier after a failed write, so its
  stream is always clean.
* `nextMasqueWGFragmentID` (masquecat_fragment.go:58-63) says that its atomic counter makes IDs unique
  for concurrent sends. Two overlapping calls can get the same ID (`FragmentIds.OverlapMayCollide`): once
  two calls have read the clock, a schedule that makes them collide exists exactly if the readings differ
  (`FragmentIds.CollisionExactly`).
* The run loop of a path stops for good if a writer retired the carrier first
  (`PathRun.StopsWithoutClose`); `PathRun.RunnerStopsExactly` says exactly when it stops there.
* `SendDatagram` sends datagrams over the capsule limit, which every receiver refuses
  (`Capsule.ReceiveWire`).
* Browser and native reassembler part on wrong-sized fragments; `BrowserReassembly.StepAgreesExactly`
  says exactly when they agree.
* A SETTINGS reduction can make the stream window negative (`SenderRun.StreamWindowMayBeNegative`), and
  because `handleSettings` (masquecat_h2.go:681-686) has no overflow test a raise can take it past 2^31-1
  while the reader goes on (`SenderRun.SettingsMayOverflow`). Both windows stay within 2^31-1 exactly if
  each INITIAL_WINDOW_SIZE had stream window + value - initial window <= 2^31-1 when it was applied
  (`SenderRun.BoundedExactly`).

## Model

| member | source | states |
|---|---|---|
| Varint.ShortestWidth | masquecat_h2.go:85-88 | the chosen width fits the value and no smaller width does |
| Varint.DecodeEncode | masquecat_h2.go:126-141 | every value at every width that fits, followed by anything, decodes to that value and leaves exactly what followed |
| Varint.DecodeExtend | masquecat_h2.go:126-141 | more input never changes a varint that was complete |
| Packet.DecodeEncode | masquecat_transport.go:71-93 | decoding an encoded packet gives source, destination and payload back |
| Packet.DecodedIffEncoded | masquecat_transport.go:80-93 | a datagram decodes to a packet if and only if it is that packet's encoding |
| Packet.DecodeEncodeAll | masquecat_transport.go:71-93 | a list of packets survives encoding and decoding, in order |
| Capsule.CapsuleStream.SendDatagram | masquecat_h2.go:85-91 | appends exactly one DATAGRAM capsule to the bytes written |
| Capsule.CapsuleStream.SendBody | masquecat_h2.go:160-168 | appends exactly one datagram with context ID zero |
| Capsule.CapsuleStream.ReadVarint | masquecat_h2.go:126-141 | reads byte by byte what `Decode` reads from the whole stream, with the same bytes left and the same error, end of file or unexpected end of file |
| Capsule.CapsuleStream.ReceiveDatagram | masquecat_h2.go:93-124 | the loop returns the first DATAGRAM capsule after any number of unknown ones, or the first error (end of file, unexpected end of file, too large), and leaves exactly the unread bytes |
| Capsule.CapsuleStream.ReceiveBody | masquecat_transport.go:549-564 | the loop skips other contexts, strips context ID zero, and reports a malformed context |
| Capsule.BodyFitsBuffer | masquecat_h2.go:148-158 | every datagram body the stream can yield is shorter than the 64 KiB read buffer, so ReadFrom never reports a short buffer |
| Capsule.NextOfItem | masquecat_h2.go:93-124 | in front of any bytes: a fitting body is received next, an oversize one is an error, an unknown capsule or foreign context is skipped |
| Capsule.ReceiveWire | masquecat_h2.go:85-168 | the bytes of every list of items give exactly the bodies before the first oversize one, in order, then end of stream or the size error |
| Capsule.ReceiveAllMonotone | masquecat_h2.go:93-124 | for every byte stream: what a prefix yields is a prefix of what the whole yields |
| Capsule.CutItem | masquecat_h2.go:93-124 | an item cut at any byte yields an error, never a partial datagram |
| Capsule.CapsuleCut | masquecat_h2.go:93-124 | a capsule cut at any byte ends the stream with exactly this error: unexpected end of file inside a varint's rest or a DATAGRAM value, plain end of file elsewhere |
| Capsule.ContextCut | masquecat_transport.go:549-564 | a datagram without a whole context ID, empty or cut, is malformed |
| Capsule.ReceiveCut | masquecat_h2.go:93-124 | a stream cut at any byte yields exactly the bodies of the items that arrived whole |
| Capsule.PacketsReceived | masquecat_h2.go:85-168 | packets that fit, mixed with any unknown capsules and foreign contexts, are received as exactly that list |
| Capsule.PacketsReceivedPrefix | masquecat_h2.go:93-168 | any prefix of those bytes gives a prefix of the packets |
| FlowControl.Usable | masquecat_h2.go:925-937 | the largest amount within both windows, the frame limit and the demand |
| FlowControl.ApplyAllAccount | masquecat_h2.go:673-718 | any sequence of SETTINGS and WINDOW_UPDATE moves the windows by exactly the credit it carries and the change of the initial window |
| FlowControl.NextChunk | masquecat_h2.go:956-973 | the next DATA frame of a call keeps it a faithful start or completes it |
| FlowControl.Sender.HandleSetting | masquecat_h2.go:677-690 | one setting under the mutex: the frame limit and the initial window become the announced values, the stream window moves by the change only if there is a stream |
| FlowControl.Sender.HandleSettings | masquecat_h2.go:673-699 | server and client: the settings in order up to the first refused one, so that frame limit and initial window are the last values announced; a token if all were accepted, on the client only after the acknowledgement; success if and only if all were accepted and acknowledged |
| FlowControl.Sender.HandleWindowUpdate | masquecat_h2.go:701-718 | accepted if and only if both windows stay within 2^31-1; a rejected update has changed the windows and posts no token |
| FlowControl.Sender.ReserveWriteWindow | masquecat_h2.go:921-954 | with any activity of the reader between its turns: takes exactly the usable amount at the first turn that has one, and takes nothing if none has |
| FlowControl.Sender.WriteData | masquecat_h2.go:956-973 | a finished call put exactly its input into frames within the limits at reservation, END_STREAM on the last only; a failed one an unended strict prefix; the windows moved by credit less the bytes sent and reserved |
| SenderRun.AccountedAlways | masquecat_h2.go:673-742 | against every peer, in every run: connection window = 65535 + credit - reserved and never negative; stream window = current initial window + credit - reserved |
| SenderRun.CreditGranted | masquecat_h2.go:701-718 | in every run the credit in that account is the sum of the WINDOW_UPDATE increments taken, for the stream since it started |
| SenderRun.SentWithinCredit | masquecat_h2.go:921-973 | in every run, against every peer: the payload bytes put into frames are at most 65535 plus the connection credit granted |
| SenderRun.StreamWindowIs | masquecat_h2.go:921-973 | in every run: the stream window is at most the initial window announced last plus the stream credit granted since the start less the payload bytes put into frames |
| SenderRun.LimitsAnnounced | masquecat_h2.go:677-690 | in every run: the frame limit is the last MAX_FRAME_SIZE applied, 16384 before the first; the initial window the last INITIAL_WINDOW_SIZE applied, 65535 before the first |
| SenderRun.FramesWithinAnnounced | masquecat_h2.go:925-937 | in every run: every frame with payload is at most the MAX_FRAME_SIZE announced last, or 16384, when its bytes were reserved |
| SenderRun.SettingsTaken | masquecat_h2.go:673-699 | every SETTINGS frame that the framer passes and the client does not refuse can be applied in full by the reader's own steps |
| SenderRun.FramesOkAlways | masquecat_h2.go:921-973 | in every run: every finished call's frames concatenate to its input, respect both windows and the frame limit, and end the stream on the last frame only; every aborted call sent an unended prefix |
| SenderRun.NoLostWakeUpAlways | masquecat_h2.go:694-717 | in every interleaving, server and client: a writer waiting on usable credit has a token, a reader about to post one, or a connection that is ending |
| SenderRun.SleeperServed | masquecat_h2_client.go:452-489 | in every run, a writer asleep although the windows (with the SETTINGS frame at hand applied) have credit comes to hold exactly that credit by the reader's and its own steps alone, or the connection is ending |
| SenderRun.WriteServed | masquecat_h2.go:956-973 | from every reachable state with the stream started, the writer idle and room in the windows, a writeData call runs through by the writer's own steps and is complete |
| SenderRun.StreamWindowMayBeNegative | masquecat_h2.go:681-686 | a reachable state with stream window -1 |
| SenderRun.SettingsMayOverflow | masquecat_h2.go:681-686 | a reachable state with stream window 2^31 and the reader still running |
| SenderRun.BoundedExactly | masquecat_h2.go:673-718 | in every run against every peer: both windows stay within 2^31-1 while the reader runs, if and only if each INITIAL_WINDOW_SIZE had stream + value - initial within 2^31-1 when it was applied to a stream |
| TwoEnds.InvAlways | masquecat_h2.go:551-565 | credit conservation in every reachable state, each direction, connection and stream: window + reserved + DATA in flight + credit held + credit in flight back = 2^20; SETTINGS before HEADERS before DATA |
| Delivery.FaithfulAlways | masquecat_h2.go:640-662 | in every reachable state, both ways, whether or not writers gave up: delivered + in flight = the bytes put into frames, in order; a stopped receiver has delivered a prefix |
| Delivery.LogAlways | masquecat_h2.go:956-973 | every writeData call has put a prefix of its input into frames and the frames hold nothing else; on the client every call before the last is complete |
| Delivery.ClientClean | masquecat_transport.go:430-457 | a client never writes behind a call that it gave up |
| TwoEnds.NeverOverflows | masquecat_h2.go:711-713 | between two honest ends no window passes 2^20, so the overflow error never fires |
| TwoEnds.ExhaustedHasOutstanding | masquecat_h2_client.go:384-404 | a sender with an exhausted window always has bytes or credit outstanding |
| TwoEnds.QuiescentWindowsFull | masquecat_h2_client.go:210-228 | with nothing under way every window is back at 2^20 |
| TwoEnds.DataMeetsStream | masquecat_h2.go:641-643 | between honest ends DATA never arrives before its stream, so none is skipped without credit |
| Delivery.PacketsEndToEnd | masquecat_h2_client.go:570-590 | both ways, under every schedule: while nothing has been written behind a torn call (on the client: always) the receiver has got a prefix of the packets not given up, and all of them once the bytes have arrived |
| Delivery.UnderstoodNext | masquecat_h2.go:859-875 | in every run, both ways: any next packet is understood at every point if and only if no call was torn, and wherever the writer went on if and only if it wrote nothing behind a torn call |
| CallLog.CleanReceived | masquecat_h2.go:93-124 | a stream with at most a torn end is received as exactly the items whose calls were not given up |
| CallLog.CleanPackets | masquecat_transport.go:71-93 | ... packet by packet, and a prefix of the bytes as a prefix of the packets |
| CallLog.TornThenProbe | masquecat_h2.go:93-124 | wherever a packet is torn, in its length or behind it, there is a packet that is not received as itself behind it |
| CallLog.UnderstoodExactly | masquecat_h2.go:956-973 | whatever packet is written next is understood, at every point of the log, if and only if no call was given up after its first chunk |
| CallLog.CleanExactly | masquecat_h2.go:956-973 | every packet would have been understood wherever the writer went on, if and only if no call was given up after its first chunk and followed by another write |
| CallLog.TornMayLookWhole | masquecat_h2.go:93-124 | a torn packet and the packet behind it that together look like the second alone |
| CallLog.TornMixes | masquecat_h2.go:93-124 | a packet torn anywhere in its payload, with enough bytes behind it, is received as a packet with its keys whose payload ends in those bytes |
| TornRun.TornStreamReached | masquecat_h2.go:921-973 | for every packet of the largest size: a run in which the server tears a copy and writes a small packet behind it, all bytes arrive, and the client has not got the packets that were not given up |
| TornRun.MixedDatagramReached | masquecat_h2.go:921-973 | for every such packet and every packet of 11 to 65469 payload bytes behind it: a run in which the client is handed a packet that nobody sent, so that it has received no prefix of the packets not given up |
| Drain.Drains | masquecat_h2.go:921-973 | no deadlock: from every reachable state with both readers up and no END_STREAM asked of the server, the two ends alone can wake the sleeping writers, complete every call in progress, deliver every byte and return all credit |
| Drain.WakeAlways | masquecat_h2.go:694-717 | between the two ends: a sleeping writer with usable credit has a token, a post under way, or an ended connection |
| Drain.NoneEndsAlways | masquecat_h2.go:968-968 | no END_STREAM is under way from a server that has not ended its stream |
| Liveness.Opens | masquecat_h2_client.go:180-195 | from every reachable state of two running ends the handshake can be completed, with all calls in progress complete and all credit back |
| Liveness.GivenIsDelivered | masquecat_h2_client.go:570-590 | both ways, from every reachable state in which both readers run, the server has not ended the stream, the sender may write and no call was torn: every list of packets given to the sender can be written and arrives, in order, behind the packets of the calls so far |
| StreamEnd.EndOkAlways | masquecat_h2.go:956-973 | in every run, a call that asked for END_STREAM has ended the stream once it is complete, and nothing is left to write behind the end |
| StreamEnd.EndIsAsked | masquecat_h2.go:968-968 | in every run, a stream ends only if one of its writer's calls asked for it |
| StreamEnd.EndLastAlways | masquecat_h2.go:968-968 | in every run, a frame with END_STREAM is under way only from a stream that has ended, and no DATA follows it |
| StreamEnd.EndReachesAlways | masquecat_h2_client.go:405-408 | in every run, once the server has ended the stream its END_STREAM is on the way to the client or the client's reader has returned |
| Fragments.Fragment | masquecat_fragment.go:65-94 | whole up to 1000 bytes, refused over 64 KiB, else exactly the headered chunks in order; the count limit never fires |
| Fragments.ParseFragmentBytes | masquecat_fragment.go:128-132 | a fragment's header and chunk are read back as written |
| Fragments.ChunksJoin | masquecat_fragment.go:79-92 | the chunks in order are the packet |
| Fragments.PushKeeps | masquecat_fragment.go:120-210 | every push keeps: received = parts present, 1 <= received < count, exact part lengths, at most 256 assemblies and 32 per source; the missing-part and wrong-size exits are unreachable |
| Fragments.MalformedRefused | masquecat_fragment.go:124-154 | a fragment with a short header, a wrong index, size, count or chunk length is refused and touches nothing |
| Fragments.ContradictionRefused | masquecat_fragment.go:176-193 | a fragment that contradicts its assembly in metadata or in a chunk already there is refused and the assembly is gone |
| Fragments.FirstFragment | masquecat_fragment.go:159-175 | a first fragment is refused exactly if 32 assemblies of its source or 256 in all are left after expiry, and kept otherwise |
| Fragments.StorageBounded | masquecat_fragment.go:161-196 | stored bytes stay under 16 MiB in all and 2 MiB per source |
| Fragments.AcceptElsewhere | masquecat_fragment.go:161-196 | a fragment leaves every other assembly as it was |
| Reassembly.Cleanup | masquecat_fragment.go:102-108 | removes exactly the expired assemblies, in any iteration order |
| Reassembly.SourceAssemblyCount | masquecat_fragment.go:110-118 | counts exactly the source's assemblies |
| Reassembly.Join | masquecat_fragment.go:197-204 | the concatenation of all parts, if and only if none is missing |
| Reassembly.Reassembler.Push | masquecat_fragment.go:120-210 | answers and leaves the table exactly as `Fragments.Push` says, keeps the invariant, never takes the unreachable exits |
| Reassembly.YoungAlways | masquecat_fragment.go:181-196 | over every sequence of calls: an assembly's last new part came less than one TTL per earlier part after its creation |
| Reassembly.LifetimeBounded | masquecat_fragment.go:102-108 | after any push that reaches the cleanup, an assembly of c parts was created less than (c-1) x 30 s before: duplicates cannot extend it |
| RoundTrip.TracksAlways | masquecat_fragment.go:161-196 | at every point the table holds exactly the chunks that have arrived of the packet, and nothing after completion |
| RoundTrip.ReassembledExactly | masquecat_fragment.go:65-210 | for every packet of 1001 to 65536 bytes, fragments in any order, duplicates, other traffic, within quota and TTL: "not yet" until the last missing fragment, which yields exactly the packet |
| RoundTrip.WholePacketPasses | masquecat_fragment.go:121-123 | a packet sent whole passes unchanged if and only if it does not start with the fragment marker |
| RoundTrip.FragmentIsNotDisco | masquecat_transport.go:431-436 | no fragment is taken for a disco frame by a forwarder |
| FragmentIds.SequentialIdsIncrease | masquecat_fragment.go:58-63 | of two calls that do not overlap the later gets the greater ID (nondecreasing clock, no 64-bit overflow) |
| FragmentIds.CollisionExactly | masquecat_fragment.go:58-63 | two calls that have both read the clock can still come to the same ID if and only if their readings differ (no 64-bit overflow) |
| FragmentIds.EqualReadingsDiffer | masquecat_fragment.go:58-63 | equal clock readings never collide, even where the sum wraps |
| FragmentIds.CollidingCallsOverlap | masquecat_fragment.go:58-63 | calls with the same ID overlapped |
| FragmentIds.OverlapMayCollide | masquecat_fragment.go:58-63 | two overlapping calls with the same ID |
| BrowserReassembly.SameHeaderTest | masquecat_browser_js.go:178-184 | the browser's header test, without a lower bound on the total, is the native one |
| BrowserReassembly.SameStep | masquecat_browser_js.go:166-242 | on a right-sized fragment both reassemblers give the same answer and the same table |
| BrowserReassembly.WrongSizedStep | masquecat_browser_js.go:207-214 | on a wrong-sized one both refuse; the browser alone expires and drops |
| BrowserReassembly.StepAgreesExactly | masquecat_browser_js.go:166-242 | the answers always agree; the tables agree if and only if the fragment is right-sized or nothing has expired and its key is absent |
| BrowserReassembly.SameTables | masquecat_browser_js.go:166-242 | bisimilarity: equal tables after every sequence of right-sized pushes |
| BrowserReassembly.SameOutcomes | masquecat_browser_js.go:166-242 | ... and equal answers at every call |
| BrowserReassembly.BrowserReassembler.Push | masquecat_browser_js.go:166-242 | the object answers and changes as the browser's specification says |
| Authenticator.MasqueAuthenticator.Scan | masquecat_auth.go:99-117 | in any map order: stops at a match with only expired entries gone, or has removed all expired ones and counted the rest |
| Authenticator.MasqueAuthenticator.Issue | masquecat_auth.go:93-143 | reuse, refuse, fail or insert as the table allows, keeping the bounds |
| Authenticator.MasqueAuthenticator.Verify | masquecat_auth.go:145-170 | accepts if and only if no identity is zero and the claimed key sealed a token in the table, unexpired, for this source, target and mode; consumes the token either way |
| Authenticator.MasqueAuthenticator.Authorize | masquecat_auth.go:55-80 | authorized if and only if the proof is accepted; a zero identity changes nothing; a challenge sent is live and for this very request |
| Authenticator.IssueKeeps | masquecat_auth.go:93-143 | issue keeps at most 1024 pending, 4 per source, 64 per client, no two for the same request, and removes only expired entries |
| Authenticator.IssueOrderFree | masquecat_auth.go:99-117 | the answer does not depend on map iteration order, and what is left differs in expired entries only |
| Authenticator.VerifyKeeps | masquecat_auth.go:145-170 | verify keeps the same bounds |
| AuthRun.IssueIsAStep | masquecat_auth.go:93-143 | everything issue may do is a step of the runs |
| AuthRun.StepMayIssue | masquecat_auth.go:93-143 | every issuing step is something issue may do |
| AuthRun.BoundedAlways | masquecat_auth.go:93-170 | the bounds hold in every run |
| AuthRun.SingleUseAlways | masquecat_auth.go:135-170 | in every run, per token: acceptances plus presence never exceed insertions |
| AuthRun.JustifiedAlways | masquecat_auth.go:145-170 | in every run, each acceptance follows an insertion for the same source, target and mode made less than 30 s before |
| AuthRun.IssueInsertsExactly | masquecat_auth.go:93-143 | a challenge is added exactly if the request has none outstanding, the nonce is unused, and source, client and table have room (4, 64, 1024) |
| AuthRun.ValidProofAccepted | masquecat_auth.go:145-170 | in every run, for both modes: a token issued for this source, target and mode and not proved with since is accepted from the source at every time less than 30 s later, and logged |
| AuthRun.AnswerIsHeld | masquecat_auth.go:93-143 | whatever token issue answers with, new or reused, was inserted for this very request and has time left |
| AuthRun.AnswerAccepted | masquecat_auth.go:145-170 | ... and is good for a proof in every continuation that spares it |
| Relay.MasqueRelay.Reserve | masquecat_h3_server.go:148-160 | claims a free key with a fresh peer without forwarder; refuses a taken key and changes nothing |
| Relay.MasqueRelay.Activate | masquecat_h3_server.go:164-172 | succeeds if and only if this very peer holds the key and has no forwarder; writes the forwarder then and only then |
| Relay.MasqueRelay.Register | masquecat_h3_server.go:177-191 | never replaces another peer |
| Relay.MasqueRelay.Unregister | masquecat_h3_server.go:193-202 | frees the key only if this very peer holds it |
| Relay.MasqueRelay.Lookup | masquecat_h3_server.go:204-212 | finds exactly the peers that have a forwarder |
| RelayRun.RegistryAlways | masquecat_h3_server.go:94-111 | native and browser sessions in any interleaving: a key's entry is exactly the one session between its reserve and unregister, the forwarder is published by activation only, no activation fails |
| RelayRun.LookupFindsActive | masquecat_h3_server.go:130-137 | lookup finds only the active holder of the key, and no other session holds that key |
| RelayRun.EndStep | masquecat_h3_server.go:193-202 | the end of a session removes exactly its own entry |
| RelayRun.StepStable | masquecat_webtransport.go:149-158 | a published forwarder and a session's key never change, and only a session's own end frees its key |
| RelayRun.ProvenanceAlways | masquecat_h3_server.go:82-141 | in every run each forwarded packet has as source the key of a session whose proof was accepted for (key, key, relay), went to a forwarder activated under its destination, and is unchanged byte for byte |
| RelayRun.ForwardedExactly | masquecat_h3_server.go:118-139 | in every run, for an active session, every packet and every session j: the packet's datagram is handed to j, once and byte for byte, if and only if it bears the session's own key, is no disco frame, and j is active under its destination |
| RelayRun.NothingElseForwarded | masquecat_webtransport.go:163-189 | any other datagram, malformed ones included, is forwarded as it is or not at all |
| RelayRun.NoDiscoForwarded | masquecat_h3_server.go:127-129 | in every run no disco frame has been forwarded |
| RelayRun.ChallengeIssued | masquecat_webtransport.go:129-140 | a session that has begun is issued a challenge for its own key if it has none outstanding and there is room |
| RelayRun.ValidProofProves | masquecat_webtransport.go:141-147 | in every run, a token issued for a session's key and not proved with since gets the session proven at every time less than 30 s later |
| RelayRun.RefusedIsGone | masquecat_webtransport.go:142-147 | a refused proof ends the session |
| RelayRun.ProvenGetsOn | masquecat_h3_server.go:94-111 | from every reachable state a proven session whose key is free gets reserved, accepted, activated and found |
| RelayRun.EndFreesKey | masquecat_h3_server.go:193-202 | in every run the end of a session that holds its key frees it |
| RelayRun.AuthRefines | masquecat_webtransport.go:129-147 | the relay's authenticator is at every point in the state of an authenticator run on its own |
| RelayRun.AuthHistory | masquecat_webtransport.go:129-147 | so inside the relay the bounds hold, every token is good for one acceptance, and every acceptance answers an earlier challenge |
| RelayRun.ForwardAnswersChallenge | masquecat_webtransport.go:129-190 | behind every forwarded packet there is an accepted proof for its source key, and a challenge it answered less than 30 s after issue |
| RelayRun.SessionsPerChallenge | masquecat_h3_server.go:85-99 | in every run, per token: the sessions ever admitted on it plus its presence in the table are at most the number of times it was issued |
| Path.ReconnectBackoff | masquecat_transport.go:333-345 | 250 ms doubled per attempt after the first, capped at 10 s, none before the first |
| Path.Waits | masquecat_transport.go:333-345 | the waits in figures: 0, 250, 500, 1000, 2000, 4000, 8000 ms, then 10 s |
| Path.MasquePath.ReplacePacketConn | masquecat_transport.go:363-377 | installs and closes the old carrier, or closes the late one |
| Path.MasquePath.RetirePacketConn | masquecat_transport.go:379-389 | clears the slot only for the carrier that failed, and closes that one |
| Path.MasquePath.Close | masquecat_transport.go:461-475 | idempotent; closes the current carrier once |
| Path.MasquePath.ForwardPacket | masquecat_transport.go:430-457 | disco frames never leave; a too-large datagram costs itself only; any other failure retires the carrier written to |
| PathRun.OwnershipAlways | masquecat_transport.go:354-505 | writers, run loop and Close in any interleaving: every carrier handed over is current, closed or about to be closed by the step that dropped it; the current one is neither |
| PathRun.OnlyOwnFailureRetires | masquecat_transport.go:379-389 | the current carrier goes only by its own failure, its replacement or Close |
| PathRun.ClosedForGood | masquecat_transport.go:363-377 | once closed, no continuation ever installs a carrier |
| PathRun.EmptyMeansLost | masquecat_transport.go:379-389 | in every run, an open path without a carrier whose run loop is not replacing it lost the carrier to a failed write, and none has been installed since |
| PathRun.RunnerStopsExactly | masquecat_transport.go:480-486 | in every run, the run loop at its top stops if and only if the path was closed, or a failed write took the carrier and none has been installed since |
| PathRun.StopsWithoutClose | masquecat_transport.go:480-486 | a reachable open path whose run loop has stopped |
| PathRun.NoCarrierAfterStop | masquecat_transport.go:477-505 | after the run loop has stopped no carrier is ever installed |
| PathRun.Reconnects | masquecat_transport.go:391-428 | from every reachable state with an open path and a reading run loop, a failed read leads to a new carrier that is installed and read from, and the failed one is closed |
| PathRun.CancelledStops | masquecat_transport.go:492-499 | in every run, a read that fails after the cancel or the Close ends the run loop and leaves slot and carrier as they are |
| PathRun.WriterTakesCurrent | masquecat_transport.go:437-446 | on an open path a resting writer takes the current carrier |
| Core.MasqueCore.AddAllowedClient | masquecat_core.go:480-487 | the first addition turns "everyone" into a list; peers and paths stay |
| Core.MasqueCore.AddPeerLocked | masquecat_core.go:494-515 | an admitted peer stays; a new one needs permission and the device's consent |
| Core.MasqueCore.AddPeer | masquecat_core.go:517-524 | refuses the zero key; keeps every routed peer admitted |
| Core.MasqueCore.SetPath | masquecat_core.go:526-537 | routes a peer only together with its admission; no forwarder means no path |
| Core.MasqueCore.RemovePath | masquecat_core.go:539-551 | removes the path only if it is still this one, and the peer with it if the device agrees |
| Core.DirectReservations.Reserve | masquecat_direct.go:21-32 | refuses a taken key |
| Core.SendOne | masquecat_core.go:158-175 | one packet whole or as all its fragments in order, or the first of them on a failing path |
| Core.Send | masquecat_core.go:145-178 | the packets in order up to the first error, with the exact error and what was forwarded in every case |
| Core.SendThenPush | masquecat_core.go:158-175 | for every sequence of calls in any order, with repetitions, gaps under the TTL and other traffic: each fragment is answered with "not yet" until every datagram that Send forwards for the packet has arrived, and then with exactly the packet |
| Core.SendInOrder | masquecat_core.go:158-175 | in particular in order on a new reassembler: the packet at the last datagram and not before, whole packets included |
| Core.SendAllReceived | masquecat_core.go:145-178 | everything that one Send forwards, arriving in order at a new reassembler: exactly the packets in the buffers are handed on, in order, each once, and nothing is left in the table |
| CoreRun.PolicyIs | masquecat_core.go:471-487 | in every run a key is allowed if and only if the core is a client, or its list is empty and none has been added, or the key is on the list or has been added |
| CoreRun.PeersOkAlways | masquecat_core.go:471-551 | in every run each routed peer is an admitted, non-zero peer, and each admitted peer could enter by the configuration and the additions before the very event that put it into the table, and has been there since |
| CoreRun.AddedExactly | masquecat_core.go:494-524 | in every run AddPeer of a non-zero key succeeds, with the device's consent, exactly if the key is in the table or may enter |
| CoreRun.RoutedAndRemoved | masquecat_core.go:526-551 | in every run a key that may enter is routed by SetPath; removing that path unroutes it, and dismisses it if and only if the device agrees |
| CoreRun.SessionServes | masquecat_direct.go:74-99 | from every reachable state a direct session that has begun, for a key that may enter and is not reserved, comes to serve it over its own stream |
| CoreRun.ServiceEnds | masquecat_direct.go:82-99 | ... and when it ends its path and peer are gone and the key is free |
| CoreRun.StaysOut | masquecat_core.go:494-515 | on a server with a list, a key that is not on it, not added and not in the table stays out, whatever admitted it before |
| CoreRun.DirectOkAlways | masquecat_direct.go:82-99 | a reserved key has one direct session, and a direct path in the table belongs to a session serving that key |
| CoreRun.ReservedAfterPathGone | masquecat_direct.go:82-99 | when a key is reserved again, its old direct path is gone |
| CoreRun.FinishedRemovesOwnOnly | masquecat_core.go:207-215 | the end of a direct session removes no newer and no relay path |
| CoreRun.FinishedIsGone | masquecat_direct.go:99-99 | a session that is not serving has no path in the table |
| Lease.MasqueClient.EnsureStarted | masquecat.go:327-331 | starts at most once; a failed start changes nothing |
| Lease.MasqueClient.Grant | masquecat.go:482-492 | lends the current core and counts the loan, or refuses after a Close in between |
| Lease.MasqueClient.FinishClose | masquecat.go:568-581 | closes path and core once and leaves the client as new |
| LeaseRun.InvAlways | masquecat.go:478-582 | in every interleaving of operations, Status and Close, with restarts: every loan is on the current, unclosed core, and the count is the number of loans |
| LeaseRun.NoLeaseOnClosed | masquecat.go:546-582 | no loan is ever on a closed core or path |
| LeaseRun.ClosedOnlyUnlent | masquecat.go:559-582 | core and path are closed only while no loan on them is out |
| LeaseRun.ClosedStays | masquecat.go:559-582 | a closed generation stays closed over every continuation |
| LeaseRun.Lends | masquecat.go:478-499 | from every reachable state without a Close going on, a start that can dial and a grant lend an open core |
| LeaseRun.StatusLends | masquecat.go:546-557 | ... and so does Status if there is a core |
| LeaseRun.Closes | masquecat.go:559-582 | from every reachable state without a Close going on, one can run through: what there was is closed, and the client is as new |
| Shutdown.MasqueHTTP2Server.RegisterListener | masquecat_h2.go:349-358 | lists and counts a listener unless closed |
| Shutdown.MasqueHTTP2Server.AdmitConn | masquecat_h2.go:387-395 | lists and counts a connection unless closed |
| Shutdown.MasqueHTTP2Server.BeginClose | masquecat_h2.go:410-425 | only the first Close gets the listeners and connections to close |
| ShutdownRun.StepsOnTables | masquecat_h2.go:349-425 | the steps of the runs change the tables as the object's methods do |
| ShutdownRun.InvAlways | masquecat_h2.go:349-440 | in every run: the wait group counts the unfinished goroutines, the tables list those not yet taken off, no accepted connection is lost, and after closing every listed one is closed or about to be |
| ShutdownRun.CountNeverRises | masquecat_h2.go:349-440 | once closed is set the count never rises |
| ShutdownRun.ReturnedMeansOver | masquecat_h2.go:409-440 | when any Close has returned: both tables are empty, every accept loop and connection goroutine has finished, every connection ever accepted has been closed |
| ShutdownRun.Admits | masquecat_h2.go:349-395 | from every reachable open state a new listener is taken, and a connection that it accepts is served, listed and counted |
| ShutdownRun.CloseCanReturn | masquecat_h2.go:409-440 | from every reachable state every Close that has been called can return |

## Left out

- TLS, QUIC, HPACK, the HTTP/2 framer, masque-go, URI templates, wireguard-go and gVisor: libraries; frames are atomic messages, and an INITIAL_WINDOW_SIZE above 2^31-1 is taken to be rejected by the framer.
- Timers, deadlines, PING liveness and contexts: a timeout is a nondeterministic give-up (`GiveUp` in `SenderRun` and `TwoEnds`) or close.
- DATA padding and DATA on other streams in the two-ended model: an honest end sends neither; GOAWAY and RST_STREAM are covered as a reader that stops.
- Concurrent writers of one stream: writes are serialised, as the stream's write mutex does; the END_STREAM frame that closeRequestStream writes outside that mutex is not interleaved with a running write.
- Head-of-line blocking between the two directions of a relay: the application is taken to drain the receive pipe, which is what `Drain.Drains` needs.
- RoundTrip.ReassembledExactly: takes as hypotheses (as does `Core.SendThenPush`) that source and ID are unique to the packet and that the calls end with its completion; a fragment repeated after completion starts a new assembly, as in the code.
- Partly written frames: a frame write that fails is a connection that ends, so nothing follows it.
- Drain.Drains: shows that a draining continuation exists, not that a scheduler takes it; it does not speak of runs in which the server has asked for END_STREAM, because the client's reader then returns for good.
- Relay.MasqueRelay.Register: is modelled as an object method only, since no session uses it.
- Lease.MasqueClient.FinishClose: is Close after its wait has returned; the waiting itself is a step of `LeaseRun`.
- Cryptography of SealTo and OpenFrom, base64 and random nonces: a proof is an abstract value that opens for the sealing key only, nonces are arbitrary.
- fragmentBrowserWireGuardPacket: the same loop with the same constants as the native one, so it would only repeat `Fragments.Fragment`; the browser's ID function likewise.
- masqueBind Open, Close and its receive queue, and what the WireGuard device does with an injected packet.
- Token formats, URL validation, dialling and fallback order, HTTP status codes, log and error texts, the legacy Tailcat engine, DERP, SSH, CLI and the web app.
