# EchoMesh relay: a verified model

A Dafny model of the EchoMesh relay and proofs about it: the routed relay as an interleaved state machine, the wire
stack from typed messages down to encrypted packets, the disguised TLS ClientHello and the classifier that reads it,
the text forms of keys and tokens, and request/response correlation.

`dafny verify dfyconfig.toml` checks the whole project.

## Layers

| file | what it models |
|---|---|
| `Bytes.dfy`, `Utf8.dfy` | machine integers, big-endian fields, UTF-8 well-formedness and lossy decoding |
| `Frames.dfy`, `Envelopes.dfy`, `Messages.dfy`, `MessageLayout.dfy` | 1420-byte frames, 30-byte envelope headers, typed messages of both directions, and where every field of them lies |
| `Noise.dfy` | encrypted packets over an abstract counter-based cipher, and whole connections |
| `Registry.dfy` | the route registry object with its two indexes |
| `RelayLogic.dfy`, `RelaySession.dfy` | what one session does with one frame: as a decision, and as the loop body performs it |
| `RelayMachine.dfy`, `RelayInvariants.dfy`, `RelayTheorems.dfy` | all sessions and writers interleaved over the registry and its lock, what every step keeps, and the guarantees over every run |
| `RelayHistory.dfy` | every delivery traced back to its input frame, every request to its answer |
| `RelayProgress.dfy` | the lock at work: what a held guard protects, who waits for whom, and who can wait for ever |
| `RelayRefinement.dfy`, `RelayEcho.dfy` | the loop body against the machine, and when a session can reach itself |
| `RelayWriter.dfy`, `RelayDelivery.dfy` | the writer task against the machine, and what its peer decrypts |
| `ClientHello.dfy`, `HelloLayout.dfy`, `HelloBuilder.dfy`, `Classifier.dfy` | parser, layout of arbitrary records, builder, token validator, and the top-up loop |
| `Text.dfy`, `TextLaws.dfy`, `Secrets.dfy` | trimming, hexadecimal and Base64 as computed, what they mean, key files and token files |
| `Correlation.dfy`, `Exchange.dfy`, `Pipeline.dfy` | the client's pending table and id counter, a request through the relay and back, the server's answering pipeline |

## Main results

* Routes. While a peer id is routed to a connection, exactly three kinds of step end that: another connection registers
  the id, the connection leaves cleanly under it, or a send to that very connection fails. Late cleanup and failed sends
  aimed at older connections never do (`RouteEndsIff`); a route lives through a run if and only if the run has no such
  step (`RouteLivesIff`). A route outlives its session exactly if the session ends by an error or has registered another id
  since (`ExitKeepsRouteIff`), and then stays until the id is taken over or a send fails (`StaleRouteIff`).
* Indexes. The prefix index only ever repeats entries of the id index; it is its exact image throughout a run if and only
  if no step registers an id whose prefix belongs to another registered id (`CompleteRunIff`); `SharedPrefixLosesRoute`
  shows what happens otherwise.
* Attribution and no echo. Everything a session puts into any queue carries the prefix of the id it had registered, and a
  payload only goes to a connection registered under a different id (`Attribution`). Some frame of
  a sender reaches its own connection if and only if that connection also holds the route of another id (`ReachableIff`),
  which two registrations bring about (`SecondRegistrationEchoes`); `EchoIff` says exactly when a ready session can do it at
  once. Over whole runs it never happens while there is no such route at its lookups (`NoEchoAlone`, `NoEcho`).
* Causes and effects. Which frames register, are answered, cause a receipt or are passed on is characterised exactly
  (`OutcomeIff`, `AccessIff`). Over every run, each delivery is exactly what one numbered input frame of its session calls
  for (`EveryDeliveryIsCaused`); a session between two frames, whose writer is there, has answered each of its requests
  exactly once, under its id, and nothing else (`EveryRequestIsAnswered`); and what was looked up enters the queue found,
  under any interleaving: messages, raw frames and receipts (`SendDelivers`, `RawDelivers`, `ReceiptDelivers`). Failed sends
  and leaving clear routes away (`FailedSendClears`, `LeavingClears`).
* The lock. An acknowledgement keeps the registry's read guard until its receipt is in the queue. Meanwhile the registry
  does not change (`GuardFreezesRoutes`), so its lookup and its send may be seen as one step (`ReceiptIsOneStep`). The
  price: while the writer tasks rest, a registration, eviction or cleanup that is first in line gets the lock if and only
  if every queue has room for the receipts held back for it, and nobody behind it overtakes (`WriteProceedsIff`).
* Progress. Whether a writer task gets rid of a frame depends on its peer reading, so the peers that read are a parameter.
  A session that cannot go on faces a full queue or waits for one that does, at most two waits away (`WaitsIff`,
  `WaitEndsAtAQueue`). Without new input the relay halts after a bounded number of steps, however they are scheduled
  (`InternalRunsEnd`), and then the busy sessions are exactly those stuck at a full queue that nobody reads, directly or
  through the lock (`HaltsIff`, `ComesToRest`). If all peers read, everything begun gets done (`ReadersMeanRest`).
* Order. What was sent plus what is queued on a connection is exactly the deliveries made to it, those of one sender in
  its processing order, at most one payload per input frame (`QueueOrder`, `AtMostOnePayload`).
* End to end. Whatever the client encoder accepts reaches the recipient's queue with the sender's full id and the same
  data, message id, timestamp and nonce, under any interleaving (`Transparency`, `SendDelivers`), and the recipient
  decrypts exactly the frames delivered to it, in order (`RunWriter`, `PeerReadsDeliveries`, `FramesArriveInOrder`).
* Refinement. An uninterrupted turn of the machine is possible exactly when lock and queues are free for it, and then does
  to lock, queues and registry what the imperative loop body is proved to do, in the same order (`HandleFrame`,
  `TurnIsLoopBody`).
* Requests. A waiter is resolved if and only if an answer with its id arrives after it was registered, and by the first
  such answer (`AnswerCountsIff`); an earlier answer is lost (`FastAnswerIsLost`). Through the
  routers, a message sent under any session id gets its own verdict if and only if the routed relay hears its sender: the
  session id is not a reserved one, and the sender has registered (`SendMessageAndWait`, `ReplyIff`).
* The client as it is. `EchoMeshClient` sends everything under the echo service's session id and never registers. The routed
  relay drops all of it (`ClientIsDropped`), never sends it a frame (`EchoRouteHearsNothing`), and `send_message` times out
  with its waiter left behind (`ClientAgainstRelay`); the pipeline accepts every message (`ClientAgainstPipeline`).
* Events. Over every run of the client, the handler calls made are exactly those owed: one of each handler for each event
  that arrives after it was added, in order (`CallsAreOwed`).
* Classification. A byte string is parsed to a hello if and only if it begins with a record of exactly those fields, of any
  session id, suites, compression methods and extensions (`CompleteIff`). The verdict on a TLS-like stream does not depend on
  how its bytes arrive, and lets in exactly those whose hello the validator admits (`ClassifyTls`, `VerdictIff`,
  `ValidateIff`). What the builder sends is let in exactly by a relay with a matching secret (`RecordIsSent`,
  `BuiltIsLetInIff`, `ClientIsLetIn`); exactly which over-long names are refused is `LongerIsRefusedIff`.
* Text. Trimming, hexadecimal and Base64 are characterised on all inputs: what is white space (`TrimIs`), which text decodes
  and to what (`HexDecodedIff`, `DecodeFailsIff`, `DecodedIs`), that blanks in Base64 do not matter (`BlankIsSkipped`), and
  what is written (`HexIs`, `Base64Is`, `LetterIs`).
* Round trips for frames under any fragmentation, envelopes, all message variants, Base64, hexadecimal, key files and token
  files; arrival order of responses is irrelevant (`OrderDoesNotMatter`).

## How the source is read

* Bytes are integers below 256, text is its UTF-8 bytes, `len as u16` is the length modulo 2^16 (`Be(n, 2)`), and shifts
  and masks on disjoint bit ranges are written with division and remainder, as are the exclusive and inclusive or of
  `constant_time_eq`.
* A channel is identified with the connection that owns it; a connection id names both. Sending completes when there is
  room, waits when the queue holds 256 frames, and fails when the receiver is gone.
* Each task switch point is a step boundary: taking a frame, getting the registry lock, and each send. The lock is tokio's
  fair `RwLock`: sessions stand in line, the first one gets it, for writing only when nobody holds it. Its guard is dropped
  at the end of the statement that looks up or changes the registry, except in the `Ack` branch, where it is a temporary of
  the `if let` and lives until the receipt has been sent (src/server/routed_listener.rs:435-449).
* What a frame does without the lock is decided on an empty registry; `LockIsTakenWhenNeeded` shows that it makes no
  difference.
* The cipher is a pair of functions per direction, assumed only to open what it sealed under the same counter and to add
  16 bytes. The clock, the environment flag, the sizes of reads and the moments at which receivers disappear are parameters
  or free choices.
* `docs/architecture/networking.md` describes another envelope header (lines 183-189), other opcode ranges and a zero
  correlation id for all events (lines 297-302). The code writes message id, 64-bit correlation id and timestamp, uses
  0x81-0x8F for responses and 0x90-0x93 for events, and gives DeliveryStatusEvent the acknowledged id as correlation id.
  The model follows the code.

## Model

| member | source | states |
|---|---|---|
| Utf8.LossyOfValid | src/protocol/messages/server_to_client/mod.rs:270 | lossy decoding leaves well-formed text unchanged |
| Utf8.LossyIsValid | src/protocol/messages/server_to_client/mod.rs:270 | lossy decoding of any bytes yields well-formed text |
| Utf8.ValidIff | src/protocol/messages/server_to_client/mod.rs:270 | text is well-formed exactly if it encodes some sequence of Unicode scalar values |
| Utf8.BrokenIsReplaced | src/protocol/messages/server_to_client/mod.rs:270 | bytes that start no scalar value are replaced as one, as far as some scalar value begins with them |
| Frames.NewFrame | src/protocol/frame.rs:56-73 | succeeds exactly up to 1394 payload bytes, and then has the wire content of the given fields; otherwise names the size and the limit |
| Frames.UnwireIff | src/protocol/frame.rs:78-111 | a block reads as a frame exactly when it starts with that frame's header and payload; padding is ignored |
| Frames.UnwireRefuses | src/protocol/frame.rs:78-111 | fewer than 1420 bytes, or a length field above 1394, with the sizes in the error |
| Frames.WireIs | src/protocol/frame.rs:202-223 | where session id, nonce, length and payload lie, and zeros in the padding |
| Frames.WireRoundTrip | src/protocol/frame.rs:78-111 | an encoded frame followed by anything reads back as itself |
| Frames.FromSlice | src/protocol/frame.rs:78-111 | the cursor-advancing parser reads the first 1420 bytes, with the two error cases |
| Frames.Parse | src/protocol/frame.rs:117-150 | agrees with `from_slice` and takes exactly one block off the buffer, also when the length field is refused |
| Frames.Encode | src/protocol/frame.rs:202-223 | appends exactly the 1420 bytes of the frame, or refuses an oversized payload and leaves the buffer alone |
| Frames.Decode | src/protocol/frame.rs:230-263 | one streaming step: waits below 1420 bytes, otherwise consumes one block and reports its frame or error |
| Frames.DecodeExact | src/protocol/frame.rs:184-196 | agrees with `from_slice`; a short buffer is an error and stays untouched |
| Frames.DecodeEof | src/protocol/frame.rs:265-279 | at end of stream a partial block is an error, an empty buffer a clean end |
| Frames.ChunkingIrrelevant | src/protocol/frame.rs:226-263 | for every chunking, repeated decode reports the blocks of the stream in order and keeps only the incomplete block; an error never loses alignment |
| Frames.BlockCount | src/protocol/frame.rs:226-263 | a stream is cut into blocks of 1420 bytes and a tail shorter than that |
| Frames.StreamRoundTrip | src/protocol/frame.rs:202-263 | frames written back to back and delivered in any pieces come out exactly, in order, nothing left over |
| Frames.ConstantTimeEq | src/protocol/frame.rs:156-165 | the or-accumulating comparison answers equality, for all lengths |
| Envelopes.FromU8 | src/protocol/envelope.rs:47-74 | a code is accepted as a type exactly when that type is written with it |
| MessageLayout.CodesAre | src/protocol/envelope.rs:18-44 | the code of every message type |
| MessageLayout.DirectionsAre | src/protocol/envelope.rs:80-97 | which types go to the server, which are responses and which events |
| Envelopes.NewEnvelope | src/protocol/envelope.rs:129-153 | succeeds exactly up to 1364 payload bytes, and then has version 1, no flags and the given fields in its header; otherwise names the size and the limit |
| Envelopes.DecodeIff | src/protocol/envelope.rs:162-239 | a byte string decodes to an envelope exactly when it begins with that envelope's encoding |
| Envelopes.Encode | src/protocol/envelope.rs:162-183 | appends header and payload, or refuses and leaves the buffer alone |
| Envelopes.Decode | src/protocol/envelope.rs:193-239 | the cursor-advancing decoder, with every error case in the source's order |
| MessageLayout.EnvelopeRefusals | src/protocol/envelope.rs:193-239 | every reason for refusing an envelope, in order, with its sizes |
| Messages.ReadClientIff | src/protocol/messages/client_to_server/mod.rs:139-217 | a payload is read as a message exactly when it has its type and is, or for fixed-size types begins with, its payload |
| MessageLayout.ClientLayoutIff | src/protocol/messages/client_to_server/mod.rs:139-217 | a payload is read as a client message exactly if it came under its type and holds its fields where they belong |
| MessageLayout.ClientTypesAre | src/protocol/messages/client_to_server/mod.rs:88-100 | the type code of every client message |
| MessageLayout.ClientIsWritten | src/protocol/messages/client_to_server/mod.rs:102-137 | what is written has that layout, and its exact size |
| MessageLayout.ClientRefusals | src/protocol/messages/client_to_server/mod.rs:139-217 | too short payloads are refused with the size they lack, server types as wrong direction |
| MessageLayout.ServerLayoutIff | src/protocol/messages/server_to_client/mod.rs:239-340 | the same for server messages: any non-zero byte is yes, unknown status codes are Failed or Offline, text is read lossily |
| MessageLayout.ServerTypesAre | src/protocol/messages/server_to_client/mod.rs:162-176 | the type code of every server message |
| MessageLayout.ServerIsWritten | src/protocol/messages/server_to_client/mod.rs:186-237 | what is written has that layout, with 1 and 0 for yes and no, and its exact size |
| MessageLayout.ServerRefusals | src/protocol/messages/server_to_client/mod.rs:239-340 | too short payloads are refused with the size they lack, client types as wrong direction |
| Messages.ClientReads | src/protocol/messages/client_to_server/mod.rs:102-217 | every client variant is read back from its payload |
| Messages.ServerReads | src/protocol/messages/server_to_client/mod.rs:186-340 | every server variant is read back from its payload |
| Messages.ClientRoundTrip | src/protocol/codec/mod.rs:12-36 | encoding succeeds exactly up to 1364 payload bytes and then decodes to the same message and header |
| Messages.ServerRoundTrip | src/protocol/codec/mod.rs:39-63 | the same for server messages |
| Messages.DirectionsAreDisjoint | src/protocol/codec/mod.rs:30-63 | no byte string decodes in both directions |
| Messages.DecodedClientSize | src/protocol/codec/mod.rs:30-36 | an accepted request came in at most 1364 payload bytes under its own type; for SendMessage and RawEcho those bytes are exactly its fields |
| Registry.RouteRegistryInner.Insert | src/server/routed_listener.rs:48-58 | sets both indexes, returns the replaced entry, keeps the indexes in agreement |
| Registry.RouteRegistryInner.RemoveConnection | src/server/routed_listener.rs:60-71 | removes both entries exactly if the connection is current for the id, else changes nothing |
| Registry.RouteRegistryInner.GetByPeerId | src/server/routed_listener.rs:73-75 | lookup by id |
| Registry.RouteRegistryInner.GetByPrefix | src/server/routed_listener.rs:77-79 | lookup by prefix; with agreeing indexes the entry sits under its own prefix and is the id's entry |
| Registry.UpdatesKeepAgreement | src/server/routed_listener.rs:48-71 | inserting and removing keep the prefix index a part of the id index |
| Registry.InsertCompleteIff | src/server/routed_listener.rs:48-58 | registration keeps the prefix index complete exactly when no other registered id has the prefix |
| Registry.RemoveKeepsComplete | src/server/routed_listener.rs:60-71 | removal never makes a complete prefix index incomplete |
| Registry.PrefixRoutingRefines | src/server/routed_listener.rs:37-79 | with a complete index prefix routing equals id routing, and the prefixes are the image of the ids |
| Registry.SharedPrefixLosesRoute | src/server/routed_listener.rs:48-71 | two ids with one prefix: the earlier one loses its prefix route |
| Registry.RegistrationTakesPrefix | src/server/routed_listener.rs:48-58 | the id and its first 16 bytes lead to the connection, whoever had them; all else is kept |
| Registry.RemovalTakesPrefix | src/server/routed_listener.rs:60-71 | the prefix is taken away from every id that shares it, whichever it led to; all else is kept |
| RelayLogic.BuildCarries | src/server/routed_listener.rs:342-354 | a reply within the size limit always builds, and its reader decodes exactly the message and header |
| RelayLogic.SendIsAnswered | src/server/routed_listener.rs:320-431 | each SendMessage is answered once under its own id, accepted exactly if the recipient is someone else with a route, and exactly then an event is addressed there; no construction can fail |
| RelayLogic.Transparency | src/server/routed_listener.rs:320-405 | from the client encoder to the recipient's frame: sender's full id and identical data, message id, timestamp and nonce |
| RelayLogic.DecisionIsSound | src/server/routed_listener.rs:276-527 | all that one frame can cause is built, attributed to the sender, and payloads go to another id's registered route |
| RelayLogic.LockIsTakenWhenNeeded | src/server/routed_listener.rs:276-334 | frames handled without the lock come out the same under every registry and cause only an answer; the write lock is for registrations alone |
| RelayLogic.ReachableIff | src/server/routed_listener.rs:333-404 | some frame of a sender is forwarded to a connection exactly if that connection holds the route of an id other than the sender's |
| RelaySession.RoutedSession.HandleFrame | src/server/routed_listener.rs:257-528 | one uninterrupted turn: locking, unlocking and queue offers in order, the registry afterwards, and the registered id |
| RelaySession.RoutedSession.HandleSend | src/server/routed_listener.rs:322-431 | the SendMessage branch: no lock for oneself, else a lookup released before the response, then the event, then removal if the receiver is gone |
| RelaySession.RoutedSession.HandleRaw | src/server/routed_listener.rs:477-527 | the raw branch: self-addressed and unknown targets dropped, others passed on with the session id rewritten |
| RelaySession.RoutedSession.Receipt | src/server/routed_listener.rs:432-455 | the Ack branch: a receipt to the route under the frame's session id, offered while the read guard is held |
| RelaySession.RoutedSession.Forward | src/server/routed_listener.rs:398-402 | a failed send removes exactly the looked-up route, under the write lock |
| RelaySession.RoutedSession.Leave | src/server/routed_listener.rs:530-538 | clean exit removes the session's own current route and no other |
| RelayInvariants.StepRoutes | src/server/routed_listener.rs:284-300 | every step keeps the indexes in agreement and every route naming a connection that registered that id |
| RelayInvariants.StepSessions | src/server/routed_listener.rs:310-402 | every step keeps what sessions hold between two frames well sent and correctly addressed |
| RelayInvariants.StepLine | src/server/routed_listener.rs:284-334 | every step keeps exactly the waiting sessions in line for the lock, each once |
| RelayInvariants.StepGuards | src/server/routed_listener.rs:435-449 | every step keeps the route that a held guard looked up the registry's own |
| RelayInvariants.StepLog | src/server/routed_listener.rs:333-519 | every delivery a step makes is attributed and addressed correctly |
| RelayInvariants.RankAdvances | src/server/routed_listener.rs:257-528 | a session's deliveries follow its input order, the answer before the forward |
| RelayInvariants.StepOrder | src/server/routed_listener.rs:257-528 | every step keeps all deliveries of each session strictly ordered |
| RelayInvariants.StepFifo | src/server/routed_listener.rs:219-254 | every step keeps each channel's sent and queued frames equal to the deliveries made to it, within capacity |
| RelayInvariants.RunKeepsInv | src/server/routed_listener.rs:209-542 | all of the above in every state of every run |
| RelayTheorems.RouteEndsIff | src/server/routed_listener.rs:48-71 | exactly which steps end a route |
| RelayTheorems.RouteLivesIff | src/server/routed_listener.rs:358-401 | in every run a route is kept throughout exactly if no step of the run is one of those; with its writer alive at the end, only the first two kinds count |
| RelayTheorems.ExitKeepsRouteIff | src/server/routed_listener.rs:257-274 | a route outlives its session exactly if the session ends by an error or has registered as another id since |
| RelayTheorems.StaleRouteIff | src/server/routed_listener.rs:530-538 | over every run, a route to an ended session is there exactly if it was left behind and nobody took the id over or failed to send to it |
| RelayTheorems.RegistrationTakes | src/server/routed_listener.rs:278-301 | a session that gets the lock for a registration is registered, and its id and prefix are routed to it |
| RelayTheorems.FailedSendClears | src/server/routed_listener.rs:398-402 | after a failed send the session asks for the lock, and when it gets it that route is gone |
| RelayTheorems.LeavingClears | src/server/routed_listener.rs:530-538 | after a clean end of the stream the session asks for the lock, and when it gets it the session is over and its route gone |
| RelayTheorems.FailedReceiptKeeps | src/server/routed_listener.rs:444-449 | a receipt for a receiver that is gone is dropped without removing anything |
| RelayTheorems.FailedAnswerGoesOn | src/server/routed_listener.rs:351-402 | a session whose own writer is gone drops its answer and still forwards |
| RelayTheorems.StepCompleteIff | src/server/routed_listener.rs:48-71 | a step keeps the prefix index complete exactly when it is not a colliding registration |
| RelayTheorems.CompleteRunIff | src/server/routed_listener.rs:37-79 | a run keeps the prefix index the image of the id index exactly when it has no colliding registration |
| RelayTheorems.Attribution | src/server/routed_listener.rs:310-317 | over every run: session ids, event senders and recipients of all deliveries |
| RelayTheorems.NoEcho | src/server/routed_listener.rs:484-490 | a session with one identity never has its own payload in its own queue |
| RelayTheorems.NoEchoAlone | src/server/routed_listener.rs:333-404 | over every run, no own payload comes back while at each lookup the connection holds no second id's route |
| RelayEcho.EchoIff | src/server/routed_listener.rs:333-519 | a ready session can bring its own payload back in one uninterrupted turn exactly if nobody is in line for the lock, its writer is there, and its connection holds the route of another id with two places free, or another prefix leads back to it with one |
| RelayEcho.SecondRegistrationEchoes | src/server/routed_listener.rs:284-301 | two registrations on one connection leave both routes in place, and then the session can reach itself |
| RelayEcho.FreshConnection | src/server/routed_listener.rs:219-222 | a connection that has just come up is in such a state |
| RelayTheorems.AtMostOnePayload | src/server/routed_listener.rs:257-528 | one input frame causes at most one answer and at most one other delivery, in this order |
| RelayTheorems.QueueOrder | src/server/routed_listener.rs:219-254 | a connection's sent and queued frames are its deliveries in order; per sender in processing order; at most 256 queued |
| RelayHistory.AnsweredIff | src/server/routed_listener.rs:303-331 | exactly the SendMessage and Heartbeat requests of registered sessions, under no reserved session id, are answered, whatever the registry holds |
| RelayHistory.OutcomeIff | src/server/routed_listener.rs:276-527 | which frames register, are answered, cause a receipt, or are passed on with nonce and payload unchanged to the route under their prefix |
| RelayHistory.AccessIff | src/server/routed_listener.rs:276-506 | which frames take which lock |
| RelayHistory.ReservedIds | src/server/routed_listener.rs:24-25 | the two reserved session ids and the relay's own nonce |
| RelayHistory.RawDelivers | src/server/routed_listener.rs:477-519 | whatever others do in between, a raw frame enters the queue found at lookup, if its writer is still there |
| RelayHistory.ReceiptDelivers | src/server/routed_listener.rs:432-455 | the same for the receipt of an acknowledgement |
| RelayHistory.DecisionIsCaused | src/server/routed_listener.rs:320-519 | all that a decision sends is exactly what the frame calls for |
| RelayHistory.EveryDeliveryIsCaused | src/server/routed_listener.rs:257-528 | over every run, each delivery is what input frame number `index` calls for, and that frame came after the session had registered as the sender |
| RelayHistory.EveryRequestIsAnswered | src/server/routed_listener.rs:333-476 | over every run, a session between two frames whose writer is there has answered each request exactly once, under its message id, and nothing else |
| RelayHistory.EchoRouteHearsNothing | src/server/routed_listener.rs:303-308 | over every run, a connection whose peer only uses the echo route is never routed to and never sent a frame |
| RelayProgress.MayHappen | src/server/routed_listener.rs:219-274 | in every reachable state: which frames, ends and failures may come, and which writers may send or stop |
| RelayProgress.GuardFreezesRoutes | src/server/routed_listener.rs:435-449 | while a session holds the guard for its receipt, no run of the others changes the registry |
| RelayProgress.ReceiptIsOneStep | src/server/routed_listener.rs:435-449 | a receipt goes where a lookup at the moment of sending would send it |
| RelayProgress.WriteProceedsIff | src/server/routed_listener.rs:284-288 | with the writer tasks at rest, a first-in-line registration, eviction or cleanup can get the lock exactly if every queue has room for the receipts held back for it; otherwise nobody gets it |
| RelayProgress.AckTakesGuard | src/server/routed_listener.rs:432-449 | an acknowledgement for a routed prefix takes the read guard and keeps it |
| RelayProgress.FullQueueHoldsUpWriters | src/server/routed_listener.rs:435-449 | one acknowledgement for a full queue keeps the first writer, and all behind it, from the lock until a writer task goes on |
| RelayProgress.WaitsIff | src/server/routed_listener.rs:351-402 | a busy session cannot go on exactly if it faces a full queue, or waits for another busy session |
| RelayProgress.WaitEndsAtAQueue | src/server/routed_listener.rs:351-449 | at most two waits lead from any busy session to one that can go on or faces a full queue |
| RelayProgress.HaltsIff | src/server/routed_listener.rs:219-542 | for any set of peers that read: no internal step is possible exactly if the readers have been sent everything and each busy session is stuck at a full queue nobody reads, directly or through the lock |
| RelayProgress.InternalRunsEnd | src/server/routed_listener.rs:219-542 | without new input every run has a bounded number of steps, whoever reads |
| RelayProgress.ComesToRest | src/server/routed_listener.rs:219-542 | from every reachable state a run finishes all that does not depend on a peer that does not read |
| RelayProgress.ReadersMeanRest | src/server/routed_listener.rs:219-542 | if all peers read, a run finishes everything begun: no deadlock |
| RelayTheorems.SendDelivers | src/server/routed_listener.rs:358-405 | whatever others do in between, the event enters the queue found at lookup, if its writer is still there |
| RelayRefinement.TurnIsLoopBody | src/server/routed_listener.rs:257-528 | one session's uninterrupted steps are possible exactly if lock and queues are free for them, and have exactly the effect of the loop body, in its order |
| RelayRefinement.TraceHolds | src/server/routed_listener.rs:435-449 | a session has the registry locked exactly while it holds the guard of an acknowledgement |
| RelayWriter.WriterTask.Transmit | src/server/routed_listener.rs:223-254 | one turn of the writer: the machine's transmit step, with the packet that the shared session's own send counter gives |
| RelayWriter.WriterTask.Drain | src/server/routed_listener.rs:223-254 | the writer loop sends all that is queued, in order, under consecutive counters |
| RelayWriter.WriterTask.Enqueue | src/server/routed_listener.rs:222 | a frame enters at the end of the queue, as the machine puts it there |
| RelayWriter.WriterTask.Perform | src/server/routed_listener.rs:223-254 | any sequence of arrivals, sends and an end changes the task exactly as it changes a channel |
| RelayDelivery.ChannelFollows | src/server/routed_listener.rs:219-254 | in every run a channel is what its own events make of a new one |
| RelayDelivery.PeerReadsDeliveries | src/server/routed_listener.rs:223-254 | what the peer decrypts of the writer's bytes, followed by what is queued, is exactly the deliveries made to the connection |
| RelayDelivery.RunWriter | src/server/routed_listener.rs:219-254 | the writer task driven by the events of any run has the machine's queue, and its peer decrypts the deliveries |
| Noise.NoiseSession.EncryptFrame | src/transport/noise.rs:63-78 | a valid frame becomes a packet of exactly 1438 bytes and uses one send counter; nothing else changes |
| Noise.NoiseSession.DecryptFrame | src/transport/noise.rs:81-88 | opens under the receive counter, which advances only on success; the send side is untouched |
| Noise.RecvFrame | src/transport/noise.rs:288-306 | reads one length-delimited packet, with the clean end, the size limit and the truncated stream |
| Noise.PacketIsRead | src/transport/noise.rs:63-88 | the peer at the same counter recovers the frame and the exact rest of the stream |
| Noise.PacketIs | src/transport/noise.rs:63-78 | the two length bytes, and the sealed frame after them |
| Noise.RecvIs | src/transport/noise.rs:288-306 | every outcome of receiving, and what is left of the stream |
| Noise.LinkStaysInStep | src/transport/noise.rs:280-306 | under any interleaving both directions stay in step |
| Noise.FramesArriveInOrder | src/server/routed_listener.rs:223-274 | each end receives, without error, exactly as many of the frames sent as it tried to, the first ones in order, and all once nothing is in flight |
| Noise.PacketsAreRead | src/transport/noise.rs:280-306 | a stream of packets is read back as its frames |
| ClientHello.ParseClientHello | src/transport/obfuscation.rs:102-147 | record and handshake headers, all reads within bounds |
| ClientHello.ParseHandshake | src/transport/obfuscation.rs:148-170 | version, random and session id |
| ClientHello.ParseLists | src/transport/obfuscation.rs:172-268 | cipher suites, compression methods and the extension list |
| ClientHello.ReadWords | src/transport/obfuscation.rs:180-184 | the cipher suite loop |
| ClientHello.ReadExtensions | src/transport/obfuscation.rs:208-257 | the extension loop |
| ClientHello.ReadVersions | src/transport/obfuscation.rs:239-254 | the version loop finds TLS 1.3 exactly if it is listed |
| ClientHello.VerdictIsLocal | src/transport/obfuscation.rs:102-128 | every verdict depends only on the record's bytes, or on the header if refused earlier; a demand for more is for the header or exactly the record |
| ClientHello.LowerIs | src/transport/obfuscation.rs:233 | exactly the capital letters are lowered |
| HelloLayout.CompleteIff | src/transport/obfuscation.rs:102-268 | a byte string is parsed to a hello exactly if it begins with a record of at most 4096 bytes with exactly those fields; the last readable host name and any 0x0304 in a version list count |
| HelloLayout.RefusalIs | src/transport/obfuscation.rs:102-130 | when more bytes are asked for, and which error a refusal gives |
| HelloBuilder.Build | src/transport/obfuscation.rs:409-519 | appending field by field yields exactly the nested record |
| HelloBuilder.PutExtensions | src/transport/obfuscation.rs:451-493 | the five extensions |
| HelloBuilder.RecordIsSent | src/transport/obfuscation.rs:409-519 | the built record is, byte for byte, that of the fields a client is to send |
| HelloBuilder.RandomFieldIs | src/transport/obfuscation.rs:409-423 | the token byte for byte in the random field, 0x5a elsewhere |
| HelloBuilder.RecordIsRead | src/transport/obfuscation.rs:102-268 | a built record within 4096 bytes is parsed back, whatever follows |
| HelloBuilder.LongerIsRefusedIff | src/transport/obfuscation.rs:102-145 | exactly which longer names are refused, with both length fields wrapping |
| HelloBuilder.LongerIsRefused | src/transport/obfuscation.rs:115-145 | all longer names below 2^24 - 161 bytes are refused |
| HelloBuilder.WrappedIsTaken | src/transport/obfuscation.rs:495-519 | a name of 2^24 - 84 bytes is not refused |
| HelloBuilder.ValidateHello | src/transport/obfuscation.rs:330-375 | the branches with their constant-time comparisons decide what the characterisation below describes |
| HelloBuilder.ValidateIff | src/transport/obfuscation.rs:330-375 | exactly which hellos are accepted, with and without the bypass |
| HelloBuilder.BuiltHelloIsAccepted | src/transport/obfuscation.rs:409-519 | for every token and host name within the limit: the parsed fields, and acceptance by the matching validator |
| Classifier.ClassifyTls | src/server/routed_listener.rs:166-187 | the verdict is that on the whole stream for every first-read size, after at most two top-ups |
| Classifier.VerdictIff | src/server/routed_listener.rs:166-187 | a session exactly for an admitted hello, the fallback exactly for a refused record or a hello not admitted, neither for an incomplete one |
| Classifier.BuiltIsLetInIff | src/server/routed_listener.rs:166-187 | a client is let in exactly if the secret matches its random field or server name; otherwise the fallback sees every byte |
| Classifier.Admit | src/server/routed_listener.rs:170-187 | what the session or the fallback gets to see |
| Classifier.Classify | src/server/routed_listener.rs:155-198 | the whole decision on a new connection |
| Classifier.ClientIsLetIn | src/server/routed_listener.rs:166-187 | a client's session reads exactly the bytes after its hello |
| Classifier.RawVerdictStableIff | src/server/routed_listener.rs:190-197 | when the verdict on other traffic does not depend on the first read |
| Classifier.RawVerdictIs | src/server/routed_listener.rs:190-197 | which verdict other traffic gets |
| Classifier.PrefixedStream.PollRead | src/server/routed_listener.rs:95-106 | nothing is lost, repeated or reordered, and the prefix is served first |
| Text.HexEncode | src/transport/obfuscation.rs:522-529 | the loop produces two lower-case digits per byte |
| Text.HexDecode | src/transport/obfuscation.rs:531-542 | the loop over pairs, with trimming and the odd-length case |
| Text.HexRoundTrip | src/transport/obfuscation.rs:522-542 | decoding inverts encoding |
| TextLaws.HexIs | src/transport/obfuscation.rs:522-529 | the two small digits of each byte |
| TextLaws.DigitIff | src/transport/obfuscation.rs:537 | which characters are digits, and of what value |
| TextLaws.PairIff | src/transport/obfuscation.rs:537 | which pairs of characters are read as which byte |
| TextLaws.HexDecodedIff | src/transport/obfuscation.rs:531-542 | exactly which text decodes, and to what |
| Text.Base64Encode | src/crypto/keys.rs:32-56 | the loop over chunks of three |
| Text.Base64Decode | src/crypto/keys.rs:59-93 | the accumulator loop |
| Text.Collect | src/crypto/keys.rs:83-89 | 0, 2, 4 or 6 bits are held, below that range, and no byte or bit is lost |
| Text.Base64RoundTrip | src/crypto/keys.rs:32-93 | decoding inverts encoding, which has 4 characters per started group of 3 bytes |
| TextLaws.LetterIs | src/crypto/keys.rs:29 | the letter of each value is the one at its place in the alphabet |
| TextLaws.SextetIff | src/crypto/keys.rs:74-79 | a character has a value exactly if it is that letter |
| TextLaws.Base64Is | src/crypto/keys.rs:32-56 | the four characters of each group of three bytes |
| TextLaws.DecodeFailsIff | src/crypto/keys.rs:59-93 | decoding fails exactly at a character, before the first pad, that is neither blank nor in the alphabet |
| TextLaws.DecodedIs | src/crypto/keys.rs:59-93 | every byte of the result from the values of the letters, and how many there are |
| TextLaws.BlankIsSkipped | src/crypto/keys.rs:80 | a blank between any two characters changes nothing |
| Text.TrimPadded | src/crypto/keys.rs:60 | blanks around printing text are what trimming takes away |
| TextLaws.TrimIs | src/crypto/keys.rs:60 | trimming takes away exactly the Unicode white space at both ends |
| Secrets.KeyFileRoundTrip | src/crypto/keys.rs:224-248 | every key comes back from its raw, hexadecimal and Base64 file, with any blanks around the text |
| Secrets.ParseKeyIff | src/crypto/keys.rs:224-248 | which files hold which key, and the refusal of all others |
| Secrets.MarkerIsFound | src/server/config.rs:184-185 | the first occurrence of the marker is its own place, whatever the public key |
| Secrets.JsonIsScanned | src/server/config.rs:183-193 | the scanner reads back the token from the JSON text |
| Secrets.ScanJsonIff | src/server/config.rs:183-193 | exactly which text holds which token |
| Secrets.TokenFileIs | src/server/config.rs:195-199 | empty, hexadecimal and other token files |
| Secrets.JsonComesFirst | src/server/config.rs:181-199 | a token in the JSON file counts before the token file |
| Secrets.TokenIsWritten | src/server/config.rs:202-211 | the text that is written for a token |
| Secrets.TokenRoundTrip | src/server/config.rs:181-211 | a persisted token is read back from either file; an empty one as none |
| Correlation.ClientInboundRouter.RegisterPending | src/client/routing/inbound_router.rs:36-41 | a new waiter under the id |
| Correlation.ClientInboundRouter.Dispatch | src/client/routing/inbound_router.rs:50-101 | a correlated response wakes exactly its waiter, an event reaches all handlers in order |
| Correlation.ClientOutboundRouter.NextMessageId | src/client/routing/outbound_router.rs:31-33 | ids count up from 1 and wrap at 2^64 |
| Correlation.ClientOutboundRouter.SendMessage | src/client/routing/outbound_router.rs:36-65 | when it succeeds, and that the queued frame decodes to the message under the returned id |
| Correlation.MayHappen | src/client/routing/outbound_router.rs:31-33 | which steps of the client may come at any time |
| Correlation.CorrelationIsSafe | src/client/routing/inbound_router.rs:36-70 | in every run a waiter is resolved at most once, for good, by a response carrying its own id |
| Correlation.PendingIsResolvedIff | src/client/routing/inbound_router.rs:50-70 | in every run a pending request is resolved exactly if a response with its id arrives, by the first one; events never resolve it |
| Correlation.AnswerCountsIff | src/client/api.rs:143-144 | in every run a request is resolved exactly if an answer arrives after its waiter is registered, and by the first such answer |
| Correlation.FastAnswerIsLost | src/client/api.rs:143-144 | at any point of any run, an answer that beats the registration of its waiter is lost |
| Correlation.OrderDoesNotMatter | src/client/routing/inbound_router.rs:50-70 | any order of responses to different requests resolves the same waiters with the same messages |
| Correlation.CallsAreOwed | src/client/routing/inbound_router.rs:44-97 | over every run, the handler calls are exactly one of each handler for each event after it was added, events in order of arrival, handlers in order of registration; nothing else calls |
| Exchange.ReplyIff | src/server/routed_listener.rs:303-431 | a request is answered exactly if its session id is not reserved and its sender has registered; the answer carries its id and says whether the recipient is someone else with a route |
| Exchange.VerdictResolvesItsWaiter | src/client/routing/inbound_router.rs:50-70 | the client's dispatcher gives that verdict to exactly the request's waiter, except under id zero |
| Exchange.SendMessageAndWait | src/client/routing/outbound_router.rs:36-65 | through the two routers under any session id: when it is sent, exactly when the sender gets its verdict, and the pending table afterwards |
| Exchange.ClientIsDropped | src/client/session.rs:26-34 | whatever the client sends under its session id, the routed relay discards |
| Exchange.ClientAgainstRelay | src/client/api.rs:132-150 | against the routed relay `send_message` always times out and leaves its waiter behind |
| Exchange.ClientAgainstPipeline | src/client/api.rs:132-150 | against the pipeline `send_message` gets its message accepted under its own id, unless that is zero |
| Pipeline.TableIsComplete | src/server/routing/inbound_router.rs:33-68 | which requests have a handler, and what it answers |
| Pipeline.ReplyIs | src/server/routing/inbound_router.rs:33-68 | what each request is answered with |
| Pipeline.RepliesFit | src/server/routing/outbound_router.rs:25-48 | no reply exceeds the envelope limit |
| Pipeline.ServerPipeline.BuildFrame | src/server/routing/outbound_router.rs:25-48 | when it succeeds, and that the frame decodes to the message under the correlation id |
| Pipeline.ServerPipeline.ProcessFrame | src/server/networking/pipeline.rs:49-128 | unknown sessions change nothing; a request is answered exactly once under its id; raw echo comes back or is refused |

## Left out

- The `snow` library, the handshake and key derivation: an abstract cipher stands for them, without counter exhaustion at 2^64.
- Sockets, timeouts, task scheduling, files, permissions, environment variables, logging and command line: streams are byte sequences, and their moments and outcomes are free choices.
- Wrap-around of the connection id counter after 2^64 connections, and of the client id counter in runs (issuing stops there).
- The message encoders and decoders of `src/protocol/messages` and the codec are functions over values: filling and advancing a local buffer is not modelled as such.
- The session loop is a state machine over values plus one imperative turn; sessions as separate concurrent objects are not modelled.
- The server side of the length check: a zero length is refused before decryption (src/server/routed_listener.rs:263), where the model's `RecvFrame` leaves it to the cipher.
- HexDecode: does not model the panic of the source at a character boundary inside multi-byte text, where it answers none.
- The wording of the pipeline's error response is a parameter of the model.
- `src/server/listener.rs`, `ConnectionManager`, `SessionManager`, the transports, timestamp validation, debug redaction and timing behaviour: they would add only easy members, or are not functional properties.
