# Lachain communication hub: a verified model

The hub moves messages between validators. Each pair of peers has a connection with a queue, a send
cycle that retries and repeats Consensus messages until they are acknowledged, and a receive cycle
that drops duplicates, acknowledges and delivers. Messages travel in checksummed frames. A peer
service keeps the connections, postpones messages for peers whose key is not known yet, and keeps the
ban list. On the other side, a C# caller drains what was received through a growing buffer.

The model has three parts.

**The delivery protocol.** `Node` is one end of a connection as a step system: the send cycle one
atomic section at a time, the receive cycle one frame at a time, and the calls from outside. `TwoNodes`
joins two ends by a channel that may lose, delay, repeat and reorder frames but not invent them.
`NodeLaws`, `SenderLaws` and `ProtocolLaws` prove what each step keeps; `DeliveryTheorems` states what
follows for every reachable state. `SpamWindow` is the duplicate filter and `Monitor` the blocking
queue, for any number of threads. `Status` runs the status word and the public key instruction by
instruction. `Connection` is the object itself: a class with the fields of the source whose methods are
proved against the step functions of `Node`; `CycleTheorems` connects its send cycle to runs of steps.

**Byte layouts.** `FrameCodec`, `FrameTheorems` and `Crc32` cover the frames (the checksum is the CRC
of section 8 of RFC 1952, with its table); `HubBatch` and `HubGet` the batch that Go writes and C#
parses; `Metadata` the peer list. `Bytes` holds the little-endian integers.

**The registry.** `Registry` is the peer service as a step system up to `Stop`, with the lock, the
lookups one connection at a time, public keys set and replaced outside the lock, and the registrations
that `New` makes without the lock while inbound streams come in under it. `RegistryLaws`, `PostponedMessages`,
`MessageLedger` and `BanAgreement` hold the invariants and `RegistryTheorems` what they mean;
`RegistrationTheorems` and `BanTheorems` say exactly when numbers and ban flags stay right.
`PeerCalls` are whole calls as runs of steps, and `PeerService` is the service object over real
`Connection` objects, proved against them.

A step function says what one atomic section does; a `ghost` field `model` ties an object to a state of
the step system, so the theorems about all runs are theorems about the objects. Fields marked "history"
record what happened and are never read by the program.

## What the code does that one might not expect

- A Consensus message is passed on without the four bytes of the connection number, and also from a
  banned peer (peer_service/connection/connection.go:225-229 against 231-234).
- Two Consensus envelopes with one id share one entry of the confirm map. If their data differ, the
  second can be retired without ever having been sent: `DeliveryTheorems.SharedIdRetiresUnsent`, for any
  two such envelopes. `RetiredGetThroughExactly` says for which sets of envelopes retirement means delivery.
- The duplicate counters are 32 bits wide. After 2^32 copies of a remembered id the next copy is taken
  for new: `SpamWindow.WrapAcceptsDuplicate`. `FilterMeansRecall` says exactly when the filter is right.
- The checksum covers the message id and the data, not the kind: `FrameTheorems.KindByteUncovered`. The
  length field wraps for data of 2^32 - 13 bytes or more: `RoundTripExactly`.
- The key handlers check and assign in separate steps, so two of them at once can replace any key by any
  other: `Status.KeyCanChange`. `KeyStableExactly` says that the key is safe over every interleaving exactly
  if the handlers never prove two different keys. The registry therefore lets keys be replaced at any time.
  No message is stranded by that, lost or doubled, but one can end up with a connection that carries another
  key, and a ban can outlive its key: `BanTheorems.ReplacedKeyMisplaces` and `ReplacedKeyDisagrees`.
- `New` installs the stream handler before it registers the bootstrap peers, and takes no lock for them
  (peer_service/peer_service.go:75-80, 100-116). An inbound stream of the same peer at that time gives it
  two numbers and drops its first connection from the maps, and one of another peer can get the same
  number: `RegistrationTheorems.SamePeerTwice` and `TwoPeersOneNumber`. `NumbersRightExactly` says in which
  runs the numbers are right and no connection lost, and `NumbersStayExactly` that after `New` has returned
  they stay so.
- Messages postponed for a key are handed over even if the key has been banned since:
  `RegistryTheorems.CallbackHandsOver`.
- The empty key matches every connection without a key. Messages sent to it are stranded once stored
  (`RegistryTheorems.NoMessageStranded` is an equivalence, `EmptyKeyStrands` a run), and a ban of it sticks to whichever
  connection was found (`BanTheorems.StrayBanDisagrees`). Of two connections with one key a ban reaches
  one (`SharedKeyDisagrees`). `BansStayRightExactly` makes the two an equivalence.
- The 32-bit check in `GetMessages` is exact for messages of up to 2^31 - 4 bytes, and for almost no
  longer ones: `HubBatch.GuardExactly`. For the buffers the C# side really has it is exact up to
  2^32 - 2^30 - 5 bytes and not one byte further (`HubGet.SafeLengthIsTight`); a message of 2^32 - 4 bytes
  passes it for every buffer (`HubGet.SingleBreaks`). `Hub.Get` says exactly when a call breaks.
- A signature frame that is too short panics: `Connection.HandleSignature` reports it.
- Keys in a peer list come back in lower case, cut at the first pair that is not hexadecimal:
  `Metadata.ArrayRoundTripExactly` says which lists survive unchanged.

## Model

| member | source | states |
|---|---|---|
| DeliveryTheorems.RetiredWasDelivered | peer_service/connection/connection.go:220-230 | In every reachable state of two nodes over a lossy, repeating, reordering channel, an envelope retired as confirmed is a Consensus envelope whose very request, same id and data, the peer accepted and passed on; no other data was sent under its id |
| DeliveryTheorems.RetiredIdWasAccepted | peer_service/connection/connection.go:310-323 | Without any assumption on ids: for a retired envelope the peer accepted some request with its id |
| DeliveryTheorems.AckMeansAccepted | peer_service/connection/connection.go:225-230 | An acknowledgement on the wire means its writer accepted a request with that id that the other end sent |
| DeliveryTheorems.AckIsExpected | peer_service/connection/connection.go:310-325 | Every acknowledgement is for an id registered or already retired; with distinct ids the map holds exactly the ids attempted and not retired, but for one about to be registered |
| DeliveryTheorems.AcceptancesSpaced | peer_service/connection/connection.go:211-219 | However often frames are repeated, two acceptances of one id have at least T - 1 others between them, if and only if no frame arrives while the counter of its remembered id stands at zero |
| DeliveryTheorems.RetiredDeliveredOnce | peer_service/connection/connection.go:211-230 | A retired envelope was delivered exactly once if its first acceptance is among the last T accepted frames |
| DeliveryTheorems.SenderConservation | peer_service/connection/connection.go:284-366 | Every envelope put on a connection is, once, written, retired, dropped, taken as the terminating one, queued or in hand, and the dropped counter counts the dropped ones |
| DeliveryTheorems.AttemptOrder | peer_service/connection/connection.go:284-298 | First attempts come in the order of enqueueing; an earlier envelope never attempted was dropped |
| DeliveryTheorems.TerminationPrompt | peer_service/connection/connection.go:766-768 | Once the terminating envelope is put no send cycle waits on an empty queue, and it takes at most six more actions, then has finished |
| DeliveryTheorems.SharedIdRetiresUnsent | peer_service/connection/connection.go:310-325 | For any two Consensus envelopes with one id and different data and any window of at least two, a reachable run that retires the second, which was neither sent nor accepted |
| DeliveryTheorems.RetiredGetThroughExactly | peer_service/connection/connection.go:310-325 | Over all runs that send only envelopes of a given set, every retired envelope got through, if and only if no two of the set share an id and differ in their data |
| DeliveryTheorems.PassedOnExactly | peer_service/connection/connection.go:220-236 | In every reachable state what was passed on is that of the accepted frames, once each and in order: the data of a request as it is, and of a plain message, if the peer was not banned when it was read, the data behind the four bytes of the connection number, lowest byte first |
| DeliveryTheorems.SentAsPut | peer_service/connection/connection.go:303-347 | In every reachable state each frame on the wire of kind 0, 3 or 4 has the id and data of a plain, Consensus or acknowledging envelope that was put there, and every envelope written, or queued again after having been taken, has its frame on the wire |
| DeliveryTheorems.AcknowledgedExactly | peer_service/connection/connection.go:225-230 | In every reachable state the acknowledging envelopes put are, in order, one for each accepted request, with its id and one zero byte |
| DeliveryTheorems.ConfirmedExactly | peer_service/connection/connection.go:733-745 | In every reachable state with distinct ids a registered id is marked if and only if an acknowledgement of it has been accepted |
| TwoNodes.StepInvariant | peer_service/connection/connection.go:199-369 | Every move of either node keeps all laws of both nodes and that nothing is received that was not sent |
| TwoNodes.ReachableInvariant | peer_service/connection/connection.go:199-369 | So they hold in every reachable state |
| NodeLaws.StepConserves | peer_service/connection/connection.go:284-366 | Each action moves envelopes between places without losing or doubling one, and counts what it drops |
| NodeLaws.EachInOnePlace | utils/message_queue.go:66-71 | A ticket is in exactly one place, once, if and only if it was put |
| NodeLaws.EnvelopesConserved | peer_service/connection/connection.go:338-366 | The same law as an equation of multisets |
| NodeLaws.ReceiverUntouched | peer_service/connection/connection.go:257-369 | Nothing but a received frame changes the window, the accepted frames or the deliveries |
| NodeLaws.ReceiveFrame | peer_service/connection/connection.go:199-255 | A received frame only adds to the queue and to the confirm flags; it never adds an id to the map or moves the send cycle |
| NodeLaws.StepFromOutside | peer_service/connection/connection.go:392-403 | Only `Send` adds envelopes from outside, and it adds exactly those it does not refuse |
| SenderLaws.StepOrdered | peer_service/connection/connection.go:338-347 | Every action, the return of Consensus envelopes to the tail included, keeps never-attempted envelopes in order behind all earlier first attempts |
| SenderLaws.FirstAttemptsInOrder | peer_service/connection/connection.go:284-298 | In a conserving, ordered state a first attempt has a higher number than all attempts before it |
| SenderLaws.LineOnlyGrows | utils/message_queue.go:66-71 | The taken envelopes followed by the queued ones only grow at the end, unless the queue is cleared |
| SenderLaws.TakenAfterExactlyKDequeues | utils/message_queue.go:117-130 | Over any run without a give-up, the envelope at position k is taken after exactly k further dequeues |
| SenderLaws.StepNeverAsleep | peer_service/connection/connection.go:268-293 | Every action keeps that a cycle past its status check finds the terminating envelope in the queue once it is put |
| SenderLaws.CycleEnds | peer_service/connection/connection.go:268-369 | After `Terminate` every action of the send cycle brings its end nearer, and no other action moves it |
| SenderLaws.CycleNotStuck | peer_service/connection/connection.go:284-293 | After `Terminate` an unfinished send cycle always has a next action |
| SenderLaws.AtMostOnePass | peer_service/connection/connection.go:766-768 | Over any run after `Terminate` the send cycle takes at most six actions |
| ProtocolLaws.StepHandSound | peer_service/connection/connection.go:284-325 | What the send cycle holds carries data, and only Consensus envelopes are retired or put back |
| ProtocolLaws.StepBacked | peer_service/connection/connection.go:300-325 | Every step keeps that a frame on the wire carries the id and data of an envelope put, of the kind its kind byte stands for, or is a signature or a peer list |
| ProtocolLaws.StepWentOut | peer_service/connection/connection.go:329-347 | Every step keeps that what counts as written, or waits again after having been taken, has gone out with its id, its data and the byte of its kind |
| ProtocolLaws.StepRepliesExact | peer_service/connection/connection.go:225-230 | Every step keeps that the acknowledging envelopes put are one for each accepted request, in order |
| ProtocolLaws.StepAcksEarned | peer_service/connection/connection.go:225-230 | An acknowledgement is put only for an accepted request |
| ProtocolLaws.StepConfirmsEarned | peer_service/connection/connection.go:733-764 | A true confirm flag, and a retirement, needs an accepted acknowledgement of that id |
| ProtocolLaws.StepAcksMarked | peer_service/connection/connection.go:733-745 | With distinct ids every step keeps that an id whose acknowledgement was accepted is marked as long as it is registered |
| ProtocolLaws.StepRegistered | peer_service/connection/connection.go:310-325 | An id is registered before its request can be on the wire, and stays until it is retired |
| ProtocolLaws.StepMapExact | peer_service/connection/connection.go:747-764 | With distinct ids the map's keys are the ids attempted, less those retired and the one about to be registered |
| ProtocolLaws.InHandNotRetired | peer_service/connection/connection.go:310-319 | With distinct ids a Consensus envelope in hand has not been retired |
| ProtocolLaws.StepWindowTracks | peer_service/connection/connection.go:209-219 | The window and the accepted frames are those of the filter run over all frames received |
| ProtocolLaws.StepDeliveries | peer_service/connection/connection.go:225-235 | Every action keeps that what was passed on is, of each accepted frame once and in order, the data of a request, or the prefixed data of a plain message from a peer not banned when it was read |
| SpamWindow.FilterMeansRecall | peer_service/connection/connection.go:211-219 | Over every sequence of ids the filter accepts exactly those not among the last T - 1 accepted, if and only if no frame arrives while the counter of its remembered id stands at zero |
| SpamWindow.FewCopiesNeverWrap | peer_service/connection/connection.go:712-719 | Fewer than 2^32 copies of each id suffice for that |
| SpamWindow.WrapAcceptsDuplicate | peer_service/connection/connection.go:712-719 | After 2^32 copies in a row the next copy is accepted although its id is remembered |
| SpamWindow.RunSound | peer_service/connection/connection.go:721-731 | Between frames the map's keys are the queue's ids, the queue has no repeats, and it is the last T - 1 accepted ids |
| SpamWindow.ArriveSound | peer_service/connection/connection.go:211-219 | One frame: accepted exactly when its id is not recalled or its counter wrapped; otherwise the window stays sound |
| SpamWindow.AcceptedAreSpaced | peer_service/connection/connection.go:721-731 | Equal accepted ids are at least T accepted frames apart |
| SpamWindow.SpacedExactly | peer_service/connection/connection.go:721-731 | Over every sequence of ids, equal accepted ids are at least T accepted frames apart, if and only if no counter wraps onto a remembered id |
| Connection.MessageQueue.Enqueue | utils/message_queue.go:66-71 | The value joins at the tail |
| Connection.MessageQueue.Clear | utils/message_queue.go:111-115 | Nothing is left |
| Connection.MessageQueue.DequeueOrWait | utils/message_queue.go:117-130 | The head is taken; on an empty queue the caller sleeps and nothing changes |
| Connection.SpamQueue.Enqueue | utils/spam_queue.go:23-27 | The id joins at the tail |
| Connection.SpamQueue.Dequeue | utils/spam_queue.go:29-39 | The oldest id leaves; an empty queue gives an error |
| Connection.Connection.constructor | peer_service/connection/connection.go:113-140 | A new connection stands for the initial node, has no key, no ban and its number |
| Connection.Connection.Send | peer_service/connection/connection.go:392-403 | Nothing is queued if the data is nil or the peer banned, and otherwise the envelope itself at the tail; the node makes its send step |
| Connection.Connection.AddToQueue | peer_service/connection/connection.go:405-408 | The envelope joins the queue at the tail, under a new number |
| Connection.Connection.BanPeer | peer_service/connection/connection.go:384-386 | The ban flag is set, nothing else changes |
| Connection.Connection.RemoveFromBanList | peer_service/connection/connection.go:388-390 | The ban flag is cleared, nothing else changes |
| Connection.Connection.Terminate | peer_service/connection/connection.go:766-769 | The status is Terminated and an envelope with nil data is at the tail of the queue, as two steps of the node, and the inbound stream is reset |
| Connection.Connection.ValidatePublicKey | peer_service/connection/connection.go:522-536 | A key is valid if none is set or it is the one set |
| Connection.SignatureInFront | peer_service/connection/connection.go:489-512 | Of a signature frame the first 65 bytes, from chain 110 on the first 66, go to the recovery of the key, and the rest must be an address; a shorter one proves nothing |
| Connection.Connection.HandleSignature | peer_service/connection/connection.go:483-520 | Exactly if the frame proves a key the connection can have, the key is set, the handshake completed and the callback called, and otherwise key and status stay; a stream is reset exactly if no key is accepted; and data shorter than the 65 or 66 bytes of a signature panics |
| Connection.Connection.TrySetPeerPublicKey | peer_service/connection/connection.go:453-481 | The answer; exactly when it is yes and there was no key, the key is the one given, the handshake complete and the callback called; when the stream is reset |
| Connection.Connection.SetInboundStream | peer_service/connection/connection.go:616-633 | The connection is just connected and has the stream, unless it is terminated |
| Connection.Connection.StartWithStream | peer_service/connection/connection.go:161-178 | A connection made from a stream has it and keeps its first status |
| Connection.Connection.IncreamentMsgSpamCount | peer_service/connection/connection.go:712-719 | The counter goes up by one, modulo 2^32 |
| Connection.Connection.CheckSpamQueueCapacity | peer_service/connection/connection.go:721-731 | At T ids the oldest leaves both the queue and the map |
| Connection.Connection.ConfirmationReceived | peer_service/connection/connection.go:733-745 | A registered id is marked, an unknown one ignored |
| Connection.Connection.CheckConfirmation | peer_service/connection/connection.go:747-752 | Whether the id is registered, and whether it was marked |
| Connection.Connection.AddMsgIdToConfirm | peer_service/connection/connection.go:754-758 | The id is registered, unmarked |
| Connection.Connection.RemoveMsgIdFromConfirm | peer_service/connection/connection.go:760-764 | The id is no longer registered |
| Connection.Connection.Filter | peer_service/connection/connection.go:209-219 | Map and queue together make one step of the abstract window, with the same answer |
| Connection.Connection.MessageReceived | peer_service/connection/connection.go:189-197 | The bytes passed on are the connection's number in four bytes, lowest first, and then the data |
| Connection.Connection.ReceiveFrame | peer_service/connection/connection.go:209-252 | A duplicate changes no field that carries messages. A new request queues its acknowledgement at the tail, whatever is queued already, and passes its data on; a new plain message is passed on behind the number unless the peer is banned; a new acknowledgement marks its id if registered; a new signature changes status, key and stream as its handler does; a new peer list is decoded unless the peer is banned; both panics are reported. The node makes its receive step |
| Connection.Connection.PrepareFrame | peer_service/connection/connection.go:303-328 | For a plain or acknowledging envelope in hand the frame has its kind, its id and its data; a Consensus envelope that is acknowledged is let go and its id removed, and otherwise gets its request frame, its id being registered unless it is |
| Connection.Connection.HandleFailure | peer_service/connection/connection.go:352-366 | Before the threshold queue, envelope in hand and counter stay; after it the queue and the hand are empty and the counter has grown by the length of the queue plus one |
| Connection.Connection.FinishWrite | peer_service/connection/connection.go:329-347 | The frame is the last on the wire, and only a Consensus envelope stays in hand |
| Connection.Connection.QueueAgain | peer_service/connection/connection.go:338-341 | The Consensus envelope in hand is at the tail, with its id and its data, and the hand is empty |
| Connection.Connection.TakeNext | peer_service/connection/connection.go:284-298 | The head goes into the hand; nil data ends the cycle; an empty queue blocks it and nothing changes |
| Connection.Connection.AttemptSend | peer_service/connection/connection.go:300-366 | For every outcome of the stream: what goes on the wire, what is in hand, queued, registered and counted afterwards; the same as the corresponding node steps |
| Connection.Connection.SendPass | peer_service/connection/connection.go:268-367 | A finished cycle, or one without a stream, changes nothing, a terminated one finishes, and every iteration of the loop is one pass of the node |
| Connection.Connection.SendMessageCycle | peer_service/connection/connection.go:257-369 | The cycle is as many passes as the environment gives outcomes |
| CycleTheorems.PassRun | peer_service/connection/connection.go:268-367 | A pass is a run of enabled send-cycle actions of the step system |
| CycleTheorems.PassesRun | peer_service/connection/connection.go:257-369 | So is the whole cycle, for every sequence of outcomes |
| CycleTheorems.CycleKeepsLaws | peer_service/connection/connection.go:257-369 | Hence the object's send cycle keeps every law of one end |
| CycleTheorems.CycleAddsNothing | peer_service/connection/connection.go:338-341 | The send cycle, which puts Consensus envelopes back, adds nothing to what was put from outside |
| CycleTheorems.NothingDropped | peer_service/connection/connection.go:352-359 | Over every sequence of passes in which no failure comes after the threshold nothing is dropped and nothing counted |
| CycleTheorems.FailedPassGivesUp | peer_service/connection/connection.go:360-366 | A pass that fails after the threshold drops the envelope in hand and all queued ones, counts them, and leaves nothing |
| CycleTheorems.GoodPass | peer_service/connection/connection.go:300-350 | A pass in which the write goes well, also one that wakes up for it, retires the first envelope of the line if it is acknowledged, and otherwise writes exactly its frame and puts it back behind the others if it is a Consensus one |
| CycleTheorems.PassWithoutData | peer_service/connection/connection.go:284-293 | With nothing in hand or queued a pass falls asleep, and at nil data it ends the cycle; either way nothing is sent, retired or dropped |
| CycleTheorems.GoodPassesServe | peer_service/connection/connection.go:268-350 | While no acknowledgement has come, k such passes write the first k envelopes of the line, in order, and put the Consensus envelopes among them back behind the rest |
| Monitor.SleeperMeansEmpty | utils/message_queue.go:117-122 | For any number of producers and consumers: a sleeper not yet woken means the queue is empty, or a producer holding the lock is about to broadcast |
| Monitor.TakenOnceInOrder | utils/message_queue.go:66-130 | Each value enqueued is taken at most once, in order; those gone otherwise were cleared |
| Monitor.CallersSee | utils/message_queue.go:66-130 | Calls of `DequeueOrWait` return the values taken, one for one and in order, and calls of `Enqueue` add their values in the order in which they get the lock |
| Monitor.CallsCarryTheirValue | utils/message_queue.go:66-71 | Whatever other threads do, a call of `Enqueue` adds the value it was called with |
| Monitor.ClearLeavesNothing | utils/message_queue.go:111-115 | When a call of `Clear` gives the lock back, the queue is empty |
| Monitor.NeverStuck | utils/message_queue.go:117-130 | While the queue is not empty and some call is under way, some thread can run |
| Monitor.StepExclusion | utils/message_queue.go:66-71 | Every step keeps that only the lock's holder is inside |
| Monitor.StepWakeup | utils/message_queue.go:66-71 | Every step keeps that no wake-up is lost |
| Monitor.StepFifo | utils/message_queue.go:111-130 | Every step keeps that the queue is the part of the values enqueued that has not been removed |
| Status.StatusOverRun | peer_service/connection/connection.go:453-520 | Over every interleaving of single instructions: Terminated is never left, NotConnected never re-entered, a completed handshake means a key, and a key stays non-empty |
| Status.KeyNeverChanges | peer_service/connection/connection.go:522-536 | With each handler's key part as one step, a key once set never changes |
| Status.KeyStableExactly | peer_service/connection/connection.go:453-536 | Over every interleaving of single instructions, the key is stable in all runs whose handlers assign keys of a given set, if and only if the set has no two different keys |
| Status.OneKeyStable | peer_service/connection/connection.go:522-536 | Handlers that all prove the same key never change it, however they interleave |
| Status.KeyCanChange | peer_service/connection/connection.go:465-476 | For any two keys, a run of single instructions in which a signature sets the first and a key from outside replaces it by the second |
| Status.PerformSignature | peer_service/connection/connection.go:483-520 | The signature routine alone: refused if terminated or another key is set, otherwise the key is set and the status completed |
| Status.PerformOutsideKey | peer_service/connection/connection.go:453-481 | The outside-key routine alone: it changes something only if no key is set and the connection is not terminated |
| Status.PerformStreams | peer_service/connection/connection.go:616-667 | A new stream, in either direction, makes the connection just connected unless it is terminated, and `Terminate` makes it terminated; the key stays |
| Status.AloneIsPerform | peer_service/connection/connection.go:453-520 | The instruction machine with one thread does what the routine as a function says |
| Crc32.UpdateByteIsShift8 | communication/communication.go:65-66 | The table form of the CRC is the bit-by-bit form |
| Crc32.UpdateInjective | communication/communication.go:65-66 | Differing registers stay different under the same bytes |
| Crc32.BurstChangesChecksum | communication/communication.go:65-66 | Changing any run of up to four bytes, anywhere, changes the checksum |
| Crc32.CheckValue | communication/communication.go:65-66 | The published check value of the CRC |
| Crc32.WordBytes | communication/communication.go:65-67 | The checksum is written with its lowest byte first |
| FrameCodec.Encode | communication/communication.go:51-69 | The buffer filled in place with a moving offset is the frame's layout |
| FrameCodec.Reader.ReadFull | communication/communication.go:93-112 | All bytes wanted are taken from the front, or everything is consumed and the error tells none from some |
| FrameCodec.ReadFromReader | communication/communication.go:93-126 | Reading a frame gives the result and leaves the input the specification says, in all five outcomes |
| FrameTheorems.ReadAcceptsExactlyEncodings | communication/communication.go:93-126 | A read gives f and leaves rest if and only if the input is the encoding of f, of a length the field can hold, followed by rest |
| FrameTheorems.RoundTripExactly | communication/communication.go:51-126 | Encoding then reading is the identity if and only if the data is shorter than 2^32 - 13 bytes |
| FrameTheorems.FrameLayout | communication/communication.go:51-69 | Where the parts of a frame lie: its length in bytes 0 to 3, the kind in byte 4, the id in bytes 5 to 12, the data, and last the checksum of id and data, lowest byte first |
| FrameTheorems.EndsOfInput | communication/communication.go:93-112 | A read meets the end of the input exactly in front of a frame or right behind a length, and an unexpected end exactly inside a length or a frame |
| FrameTheorems.FrameFaults | communication/communication.go:104-126 | On a frame that is all there, a read panics, rejects or succeeds exactly by its length and its checksum |
| FrameTheorems.BodyAccepted | communication/communication.go:113-126 | A body is accepted exactly when its checksum is that of its id and data |
| FrameTheorems.StreamRoundTrip | communication/communication.go:93-126 | Any list of frames written back to back is read back as that list by one reader |
| FrameTheorems.StreamCanonical | communication/communication.go:93-126 | Whatever frames one reader yields, the bytes consumed are exactly their encodings |
| FrameTheorems.TruncatedFrameRejected | communication/communication.go:96-112 | No proper prefix of a frame is read as a frame |
| FrameTheorems.BurstRejected | communication/communication.go:113-119 | A run of up to four changed bytes in id or data is rejected, the rest of the input untouched |
| FrameTheorems.KindByteUncovered | communication/communication.go:65-67 | A changed kind byte is accepted as a frame of the other kind |
| HubBatch.GuardExactly | embedded_hub.go:94-97 | The 32-bit overflow check is right at every pointer and capacity if and only if the length is at most 2^31 - 4 or congruent to that modulo 2^32 |
| HubBatch.LongestFitIsLongest | embedded_hub.go:87-97 | The packed prefix is the longest whose framed total fits |
| HubBatch.BreaksOnlyOnLarge | embedded_hub.go:94-97 | A queue of messages of at most 2^31 - 4 bytes never breaks the packing |
| HubBatch.BreaksOnlyAbove | embedded_hub.go:94-97 | For a given buffer size, no queue breaks the packing whose messages are too short to make the check's sum wrap |
| HubBatch.PackMessage | embedded_hub.go:103-109 | A message is framed behind the others and nothing behind it in the buffer is touched |
| HubBatch.GetMessages | embedded_hub.go:76-113 | The longest fitting prefix of the messages present is packed in order and removed, messages that arrive meanwhile stay behind the rest, and the buffer is untouched beyond the packed part; it breaks exactly if the check lets the first misfit through |
| HubBatch.Fifo.Enqueue | embedded_hub.go:38-40 | A received message joins at the tail |
| HubGet.Hub.constructor | Lachain.CommunicationHub.Net/Hub.cs:100-102 | The buffer starts at one mebibyte |
| HubGet.Hub.Unpack | Lachain.CommunicationHub.Net/Hub.cs:123-138 | The parse loop returns exactly the messages packed and neither bound check fires |
| HubGet.Hub.Grow | Lachain.CommunicationHub.Net/Hub.cs:144 | The buffer doubles, up to 2^30 bytes |
| HubGet.Hub.Round | Lachain.CommunicationHub.Net/Hub.cs:111-138 | One round returns a prefix of the queue, empty exactly if the head does not fit, and breaks exactly if the packing does |
| HubGet.Hub.Get | Lachain.CommunicationHub.Net/Hub.cs:109-146 | Batch and remaining queue are the old queue and the arrivals, in order; a non-empty queue yields a non-empty batch if and only if its head plus 4 is at most 2^30; a grown buffer is smaller than twice that; it breaks if and only if the queue at the last packing does for the buffer there is, which needs a message over 2^32 - 2^30 - 5 bytes |
| HubGet.Drain | Lachain.CommunicationHub.Net/Hub.cs:109-146 | Any sequence of `ProcessMessage` and `Get` on real objects, with producers at work inside each: unless a call breaks, which needs a message over 2^32 - 2^30 - 5 bytes, all batches and then the queue are everything enqueued, once and in order, also past calls that fail for size |
| HubGet.SingleBreaks | embedded_hub.go:94-97 | A single message breaks the packing if and only if it does not fit and the 32-bit sum of its length and 4 is at most the capacity |
| HubGet.SafeLengthIsTight | Lachain.CommunicationHub.Net/Hub.cs:100-102 | Behind a message that fills the largest buffer, one of 2^32 - 2^30 - 4 bytes breaks it |
| HubGet.MessageAt | Lachain.CommunicationHub.Net/Hub.cs:126-136 | Each packed message lies where the parser looks for it, inside the buffer |
| Metadata.HexRoundTripExactly | utils/crypto.go:98-109 | A key survives the conversion to bytes and back if and only if it is lower-case hexadecimal of even length |
| Metadata.HexByByte | utils/crypto.go:107-109 | Each byte is written as two digits, the high one first |
| Metadata.HexReadsPairs | utils/crypto.go:98-105 | What is read are the bytes that the leading pairs of digits denote, in either case, up to the first pair that is not two digits |
| Metadata.RecordRoundTrip | peer_service/connection/metadata.go:27-89 | A record comes back with its key normalized, the address present or missing as before |
| Metadata.RecordWritten | peer_service/connection/metadata.go:27-49 | A record holds the bytes of the key, the id, the time and the address, or no bytes for a missing one |
| Metadata.RecordRead | peer_service/connection/metadata.go:58-89 | Of any record that gob can decode, which peer is read, and exactly when reading panics |
| Metadata.EncodeArray | peer_service/connection/metadata.go:91-97 | The loop appends one length-prefixed record per peer |
| Metadata.DecodeArray | peer_service/connection/metadata.go:99-109 | The cursor loop ends, with the records the specification reads or with its panic |
| Metadata.RecordAt | peer_service/connection/metadata.go:51-56 | Each record lies where the cursor stops, behind its own length |
| Metadata.ArrayRoundTrip | peer_service/connection/metadata.go:91-109 | Decoding an encoded list gives the peers with normalized keys and ends exactly at the end of the input |
| Metadata.ArrayRoundTripExactly | peer_service/connection/metadata.go:91-109 | The very list comes back if and only if every key is lower-case hexadecimal of even length |
| Metadata.DecodesExactly | peer_service/connection/metadata.go:99-109 | Bytes with nothing behind them are decoded to a list of peers if and only if they are records behind their lengths that are read as those peers |
| RegistryTheorems.NoMessageStranded | peer_service/peer_service.go:142-157 | In every reachable state, every connection for whose key messages wait has a recovery callback of its own for that key to come, if and only if the key is not empty; keys may be set and replaced at any time |
| RegistryTheorems.CallbackHandsOver | peer_service/peer_service.go:149-156 | The callback hands over everything waiting, in order, unless its connection is already banned, and a ban of the key takes effect afterwards; no other connection changes |
| RegistryTheorems.MessageInOnePlace | peer_service/peer_service.go:297-309 | In every reachable state each message is exactly once in flight, in the list for its key, with one connection in the maps or displaced from them, or refused; the connection carries the key unless its key was replaced; lists stay in order and nothing is handed twice |
| RegistryTheorems.NumbersMatchConnections | peer_service/peer_service.go:189-193 | As long as no registration was overtaken, numbers and connections correspond one to one if and only if there are at most 2^32 connections |
| RegistrationTheorems.OvertakenExactly | peer_service/peer_service.go:100-116 | A run has an overtaken registration, completed or under way, if and only if a peer was entered while the other registration was under way for the same peer or had read the counter |
| RegistrationTheorems.NumbersRightExactly | peer_service/peer_service.go:100-140 | Between registrations, with at most 2^32 connections, the numbers are right and no connection was displaced, if and only if in the run so far no peer was entered while the other registration was under way for the same peer or had read the counter |
| RegistrationTheorems.SamePeerTwice | peer_service/peer_service.go:75-80 | From any reachable state in which `New` has found a peer without a connection, an inbound stream of it leads to two numbers for it and an orphaned connection |
| RegistrationTheorems.TwoPeersOneNumber | peer_service/peer_service.go:189-193 | From any state in which `New` has read the counter, an inbound stream of another peer leads to two connections with one number |
| RegistrationTheorems.NumbersStayExactly | peer_service/peer_service.go:75-80 | From a reachable state between registrations the numbers stay right over every continuation if and only if `New` has returned |
| RegistryLaws.StepRegisters | peer_service/peer_service.go:100-140 | Every step keeps that a registration in time knows its peer to be new and the counter to be current, and that connections are displaced only by late ones |
| RegistryLaws.StepEarly | peer_service/peer_service.go:75-80 | Every step keeps that, as long as a connection can be displaced, no message has been submitted, nobody is banned and no call is under way |
| RegistryTheorems.BanFlagsAgree | peer_service/peer_service.go:254-278 | With nothing under way for it, a connection's ban flag is the ban list's entry for its key, through any order of ban, unban and recovery; the key non-empty and carried once, no key replaced, and no ban of the empty key gone astray |
| BanTheorems.BansStayRightExactly | peer_service/peer_service.go:245-278 | From every reachable quiet state of the started service, every continuation by bans, unbans, their lookups and key recoveries leaves all flags right when it is done, if and only if all flags are right and every connection has a key of its own |
| BanTheorems.SharedKeyDisagrees | peer_service/peer_service.go:245-265 | From any quiet state, of two connections with one key a ban or unban leaves one in disagreement |
| BanTheorems.StrayBanDisagrees | peer_service/peer_service.go:245-265 | From any quiet state, a ban of the empty key sticks to a keyless connection when its key becomes known |
| BanTheorems.ReplacedKeyDisagrees | peer_service/connection/connection.go:465-476 | From any quiet state, a ban of a connection's key outlives the replacement of the key |
| BanTheorems.ReplacedKeyMisplaces | peer_service/connection/connection.go:465-476 | From any quiet state, a message handed over under a key is with a connection of another key once the key is replaced |
| RegistryTheorems.EmptyKeyStrands | peer_service/peer_service.go:245-252 | A reachable state with a message for the empty key, a matching connection and no callback |
| PostponedMessages.StepWaits | peer_service/peer_service.go:297-309 | Every step, a key set or replaced between the two lookups included, keeps that each connection whose key has messages waiting has a callback to come |
| MessageLedger.StepLedger | peer_service/peer_service.go:401-411 | Every step, displacing a connection included, keeps that each message is where its fate says and nowhere else |
| MessageLedger.RefusalsAreBans | peer_service/peer_service.go:405-408 | A message is refused only by a banned connection, or as stored for a banned key |
| BanAgreement.StepBans | peer_service/peer_service.go:254-278 | Every step of a run keeps that flags follow the list, up to what is still under way, until a key is replaced or a ban of the empty key finds a connection |
| BanAgreement.StepFlags | peer_service/peer_service.go:254-278 | Flags follow the list over every single step that neither replaces a key of a connection in the maps nor lets a ban of the empty key find one |
| RegistryLaws.StepNumbered | peer_service/peer_service.go:189-193 | Every step of a run without overtaken registrations keeps the numbering, until the 32-bit counter wraps |
| PeerService.PeerService.constructor | peer_service/peer_service.go:46-82 | The service starts with no messages and no bans and with a connection for exactly the bootstrap peers but itself; each is found under one number, that of its connection, and the counter stands at how many they are, modulo 2^32 |
| PeerService.PeerService.ConnectionByPublicKey | peer_service/peer_service.go:245-252 | A connection whose public key is the one asked for, or none if no connection has it |
| PeerService.PeerService.SendMessageToPeer | peer_service/peer_service.go:297-309 | If some connection has the key, one of them queues the message at its tail, unless it is banned or the data nil, and nothing is stored; if none has it, the message joins the end of its key's list unless the key is banned; no other connection changes |
| PeerService.PeerService.StoreMessage | peer_service/peer_service.go:401-411 | The message goes to a connection with the key if the lookup finds one, and else joins its key's list unless the key is banned |
| PeerService.PeerService.OnPublicKeyRecovered | peer_service/peer_service.go:142-157 | Everything that waited for the key and has data is in the connection's queue, in order, unless it was banned; then it is banned if the list says so; the list of the key is empty; all others are left alone |
| PeerService.PeerService.BanPeer | peer_service/peer_service.go:254-265 | The list says banned for the key, whether a connection has it or not, and stays otherwise; if any connection has the key, one of them is banned and nothing else of its messages changes; no other connection changes in any field |
| PeerService.PeerService.RemoveFromBanList | peer_service/peer_service.go:267-278 | The list says not banned for the key, whether a connection has it or not, and stays otherwise; if any connection has the key, one of them is unbanned and nothing else of its messages changes; no other connection changes in any field |
| PeerService.PeerService.GetNextPeerId | peer_service/peer_service.go:189-193 | The counter before, and one more modulo 2^32 after |
| PeerService.PeerService.Connect | peer_service/peer_service.go:100-116 | Exactly if the peer is neither this node nor connected it gets a connection, whose number is what the counter was and under which it is found, and the counter goes on by one modulo 2^32 |
| PeerService.PeerService.OnConnect | peer_service/peer_service.go:118-140 | The stream goes to the connection there is, which is then just connected unless terminated, or a new one is numbered, entered under its number and starts with it; its messages stay, and no other connection changes in any field |
| PeerService.PeerService.UpdatePeerList | peer_service/peer_service.go:159-187 | Afterwards exactly the peers connected before and those of the list but this node have connections; the counter went on by the number of new ones, repeated entries counted once; as long as there are at most 2^32 connections each new peer is found under one number, a new one, that of its connection; connections there stay |
| PeerService.PeerService.SetPeerPublicKey | peer_service/peer_service.go:280-295 | It panics exactly for numbers not given out; it answers true exactly if the connection is not terminated and has no other key; exactly if it had none the key is the one given, the handshake completed, and what waited for the key is queued on that connection; otherwise its stream is reset if the answer is false; no other connection changes in any field |
| PeerService.PeerService.OnFrame | peer_service/connection/connection.go:209-252 | A frame read on one connection takes its node one receive step; exactly if it is new and proves a key the connection can have, the key is set, the handshake completed and the callback delivers what waits for it; exactly if it is a new list from a peer that is not banned, its peers are registered; status, stream and panic are given |
| PeerService.PeerService.RunSendCycle | peer_service/connection/connection.go:257-369 | One connection's send cycle goes on under the service without touching the registry or any other connection |
| PeerCalls.SentToReachable | peer_service/peer_service.go:297-305 | Sending to a connection found is a run of the registry's steps |
| PeerCalls.StoredReachable | peer_service/peer_service.go:297-309 | So is storing, both lookups included |
| PeerCalls.BanFoundReachable | peer_service/peer_service.go:254-263 | A ban that finds a connection is such a run; it records the ban and bans that connection |
| PeerCalls.BanNotFoundReachable | peer_service/peer_service.go:254-265 | So is one that finds none; it records the ban and leaves the connections alone |
| PeerCalls.BanRemembered | peer_service/peer_service.go:254-265 | From every state: after a ban that finds no connection, whichever connection turns out to have the key is banned by its callback, and after an unban it is not |
| PeerCalls.ConnectedReachable | peer_service/peer_service.go:100-116 | So is a bootstrap peer's registration before `New` has returned, and a listed peer's afterwards; a peer that is new and not this node then has a connection without a key, under the number the counter stood at |
| PeerCalls.AllConnectedKeys | peer_service/peer_service.go:159-187 | Registering a list connects every peer in it but this node, and nobody else |
| PeerCalls.AllConnectedCounts | peer_service/peer_service.go:189-193 | It moves the counter on by one for each peer that had no connection, however often it is listed |
| PeerCalls.StreamedReachable | peer_service/peer_service.go:118-140 | So is an inbound stream's registration, with the same outcome for a peer without a connection |
| PeerCalls.SetKeyReachable | peer_service/connection/connection.go:514-519 | So is a key set on a connection, whose callback is then to come |
| PeerCalls.RecoveredReachable | peer_service/peer_service.go:142-157 | So is that callback |
| PeerCalls.RecoveredConns | peer_service/peer_service.go:149-156 | The callback gives one connection everything that waits, in order and if it is not banned, and then the ban |
| Bytes.LeRoundTrip | communication/communication.go:83-86 | Little-endian integers in range come back |
| Bytes.PutGetLe | communication/communication.go:83-86 | And the bytes come back from the integer |
| Bytes.WordWritten | communication/communication.go:83-86 | A 32-bit number is written with its lowest byte first |
| Bytes.LongWritten | communication/communication.go:59-62 | A 64-bit number is written as its low word and then its high word |

## Left out

- `Stop`, and the registry after it: the lemmas about the registry are about runs up to `Stop`. That `Stop` returns is not claimed; it waits for the cycles while holding the lock.
- That an acknowledgement eventually arrives is not claimed: a duplicate request is not acknowledged again, so a lost acknowledgement is not repeated.
- Time: back-off sleeps are left out and the two-minute threshold is a free choice to give up at any failure. `lastSuccess` and `attempts`, which only feed that choice and a histogram, are left out with it.
- The network: dialing, relays, stream resets and errors are free choices of the environment (stream present or not, write succeeded, failed, or failed after the frame got through). Parts of a frame left on a stream by a failed write are not modelled; `TruncatedFrameRejected` says that such a part alone is never read as a frame.
- The goroutines that write signatures and peer lists (`sendSignature`, `sendPeersCycle`): on the wire their frames are control frames with any id and content. Key recovery and the decoding of addresses and of lists (`Metadata.DecodeArray`) are parameters of the receive cycle.
- `BroadcastMessage`, `IsConnected`, `GetPeers`, `AvailableRelays`, `SetSignature`: loops over the connections that would add only easy members. A broadcast would put more on the connections than the registry records as handed over.
- Peer addresses in the registry, logging, metrics other than the dropped count, the profiler and configuration.
- `MessageQueue.Dequeue`, `Front`, `Empty` and `SpamQueue.Front`, `Empty`, `Clear`: not used by the connection.
- gob, base58 and multiaddr: function values assumed to undo themselves (`Metadata.Faithful`).
- Reading with a new buffered reader per frame, as `ReadOnce` does: bytes buffered beyond the frame are lost there, so the claims about several frames are for one reader.
- Envelopes of a kind the program never builds (the default branch at peer_service/connection/connection.go:327-328).
- Deadlock and data races on plain fields: reads and writes of `isBanned`, `PeerPublicKey` and the streams are taken as atomic.
- Class methods are verified for one caller at a time. The interleavings are those of `Node`, `TwoNodes`, `Status`, `Monitor` and `Registry`; there the acceptance of a request with its reply and delivery is one step, and so is reading the queue's length with clearing it, writing the counter with entering both maps, and assigning a key with noting its callback, which may read the key again later.
- Connection.Connection.Terminate: the waiting for the cycles' ends and the reset of the outbound stream are not modelled.
- Connection.MessageQueue.DequeueOrWait: gives `None` where the source sleeps; `Monitor` models the sleeping and waking.
- HubBatch.GetMessages: assumes one reader; where the check lets a message through that does not fit, what the copy does to the buffer is not described.
- HubGet.Hub.Get: the size beyond 2^30, where doubling leaves 32-bit integers, is the outcome `SizeOverflow`; running out of memory before that is not modelled.
- DeliveryTheorems.AckIsExpected: its second half assumes distinct Consensus ids, which are random 64-bit numbers; the registered ids of two envelopes with one id cannot be told apart.
- DeliveryTheorems.ConfirmedExactly: assumes distinct Consensus ids too, for the same reason; that a marked id was acknowledged needs no assumption (`ProtocolLaws.StepConfirmsEarned`).
- ProtocolLaws.StepAcksMarked: likewise.
- DeliveryTheorems.RetiredDeliveredOnce: assumes that no counter of the duplicate filter wraps, for which fewer than 2^32 copies of each id suffice (`SpamWindow.FewCopiesNeverWrap`).
- RegistryTheorems.BanFlagsAgree: for keys carried once, none replaced, and no stray ban; `SharedKeyDisagrees`, `ReplacedKeyDisagrees` and `StrayBanDisagrees` show that each is needed, and `BansStayRightExactly` is the equivalence.
- Status.KeyNeverChanges: takes each handler's check and assignment as one step; `KeyStableExactly` is about the single instructions.
- PeerService.PeerService.Connect: one caller at a time, like all class methods; `New` makes this call without the lock, and what can come between is in `Registry` and `RegistrationTheorems`.
- PeerService.PeerService.constructor: likewise, with no stream between the bootstrap peers.
- PeerService.PeerService.UpdatePeerList: the addresses in the list are left out, with all peer addresses.
- Metadata.ArrayRoundTrip: assumes that each encoded record is shorter than 2^32 bytes; a longer one is decoded from a wrapped length, and what comes of that is up to gob.
- Metadata.ArrayRoundTripExactly: makes the same assumption.
- Metadata.RecordAt: makes the same assumption.
- Lengths are unbounded integers where Go's `int` is 64 bits wide.
