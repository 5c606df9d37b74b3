# zyris-protocol, modelled and proved

A Dafny model of the hard parts of the zyris protocol implementation: the connection engine with its
credit-controlled streams and detached attachments, the pin ledger that many processes share, resumable
file receive, the terminal output path, and the smaller machines that frame, pace and name things.

Each part that is a protocol is a state machine whose acts are the steps other threads or processes can
see, and its theorems are about every run of it. Each part that is an algorithm is a method with the
source's own loops, proved against a function, and the theorems are about that function. Clocks, network,
randomness, digests and the file system's contents are parameters.

| file | part |
|---|---|
| `Attach.dfy`, `Datums.dfy` | moving blobs out of a response tree onto streams, and back; which maps that is about, key by key |
| `Flow.dfy` | one stream: both ends and the link between them |
| `Wire.dfy`, `Session.dfy`, `Steps.dfy` | two endpoints with all their streams; runs; what each stream sees of a run is a run of its own |
| `Claims.dfy`, `Collect.dfy` | from a delivered response to a claim; hydrating from what was claimed |
| `EndToEnd.dfy`, `Delivery.dfy` | transparency from tool to caller, and that it is reached |
| `Endpoint.dfy` | the endpoints' tables as objects changed in place, and two of them taking a run of the model |
| `Dangling.dfy` | responses that hold references of their own, which those runs leave out |
| `Handshake.dfy` | what the two ends agree on before the first stream |
| `Requests.dfy`, `Gates.dfy` | the races between a call, its late entry, its gate, a cancel and a revocation |
| `Capabilities.dfy`, `Changes.dfy` | what is served, its index, and revocation on live connections; changes at once |
| `Ledger.dfy`, `Finishing.dfy` | the trust-on-first-use ledger and its lock file; that no call on it is ever stuck |
| `Receive.dfy`, `Resume.dfy`, `Parts.dfy` | resumable receive by many calls at once; that resuming gets there; when two transfers collide |
| `Names.dfy`, `Washing.dfy` | names of received files and part files; what they keep of the proposed ones |
| `Sanitize.dfy`, `Reading.dfy`, `Terminal.dfy` | control sequences, chunked reading, the ring and the session |
| `Framing.dfy`, `Cadence.dfy` | length-prefixed messages; polling and directory-fetch cadence |

`dafny verify dfyconfig.toml` checks the whole project.

Seven promises of the source turn out to hold only under a condition. Each has a lemma that shows the
failing case and one that states exactly when the promise is kept:

- revoking a capability misses a call the reader has spawned but not yet entered in its table
  (`Requests.ARevokedCallSurvives`, `Requests.RevocationIsComplete`);
- a cancel or a revocation that comes before a stream's head can leave its gate in the table
  (`Gates.AGateIsLeftBehind`, `Gates.LeftBehindExactlyWhen`);
- of two capability changes at once, the later overwrites the earlier
  (`Changes.AnAdditionIsLost`, `Changes.NothingIsOverwrittenExactlyWhen`);
- a reference in a response that its sender did not detach can stand in the way of a later stream of that id
  (`Dangling.AReferenceIsShadowed`, `Dangling.RegisteredExactlyWhen`);
- cleaning terminal text panics when an ESC outside any sequence is directly followed by a non-ASCII
  character (`Sanitize.SomeTextPanics`, `Sanitize.PanicsExactlyWhen`);
- two transfers are received into one part file when they come to the same part name, which for ordinary
  names means the same destination and the same 16-character marker of their ids (`Receive.SharedPart`,
  `Receive.OneWriterPerPart`, `Parts.OrdinaryTransfersCollideExactlyWhen`), and then bytes other than the
  offered ones can be published (`Receive.CollisionPublishesOtherBytes`);
- a washed file name can still be a reserved device name when it had to be cut to 255 bytes
  (`Names.ADeviceGetsThrough`, `Names.ReservedExactlyWhen`).

## Model

| member | source | states |
|---|---|---|
| `Attach.ParseWritten` | crates/zyris-proto/src/attach.rs:193-214 | a reference written into a tree parses back as itself, with its digest and offset |
| `Attach.DetachSends` | crates/zyris-proto/src/attach.rs:57-95 | the streams detached from a tree carry exactly its blobs over the limit, in walk order, one allocator call each |
| `Attach.RefsListWhatLeft` | crates/zyris-proto/src/attach.rs:102-130 | after detach, refs lists exactly the detached blobs in walk order, if and only if no reference sat in the tree outside a datum that was itself detached |
| `Attach.DetachThenSplice` | crates/zyris-proto/src/attach.rs:134-150 | splicing the detached blobs back in any order finds every place and restores the original tree, whatever its nesting, decoys, maps inside blobs and references to other streams |
| `Attach.SpliceMiss` | crates/zyris-proto/src/attach.rs:134-150 | splicing a stream no reference names changes nothing and says so |
| `Attach.NoRefs` | crates/zyris-proto/src/attach.rs:108-130 | a tree in which refs finds nothing holds no reference at any depth |
| `Datums.BigBlobIsDetached` | crates/zyris-proto/src/attach.rs:57-95 | a map whose first "kind" is "image" or "file" and whose first "blob" is a blob over the limit: exactly that blob goes out, on the next stream, and a reference with its stream, size and digest takes its place |
| `Datums.SmallBlobStays` | crates/zyris-proto/src/attach.rs:57-95 | within the limit it stays where it is |
| `Datums.SentExactlyWhen` | crates/zyris-proto/src/attach.rs:57-95 | over any tree, a blob is sent if and only if such a map holds it with no other such map around that one |
| `Datums.CarriedIsListed` | crates/zyris-proto/src/attach.rs:102-130 | such a map whose first "blob" is a written reference is listed, once |
| `Datums.CarriedIsFilled` | crates/zyris-proto/src/attach.rs:134-150 | and splicing its stream puts the bytes in that place and nowhere else |
| `Datums.ListedExactlyWhen` | crates/zyris-proto/src/attach.rs:102-130 | over any tree, a reference is listed if and only if such a map carries it with no other carrier around that one |
| `Datums.OtherMapsAreWalkedThrough` | crates/zyris-proto/src/attach.rs:57-150 | a map whose first "kind" is anything else is never itself rewritten, listed or filled; only its values are |
| `Datums.ParsesExactlyWhen` | crates/zyris-proto/src/attach.rs:161-214 | a value reads as a reference if and only if its first "attachment" is a map with 64-bit "stream" and "size", the stream cut to 32 bits, the digest only if it is text, the offset 0 unless it is a 64-bit number |
| `Flow.StepInv` | crates/zyris-core/src/connection.rs:1038-1133 | every step of a stream, by sender, receiver, consumer or link, keeps its whole invariant: order, credit, delivery |
| `Flow.CreditIsConserved` | crates/zyris-core/src/connection.rs:79-111 | on an open stream the gate, the chunks on the link, the chunks queued and the credit coming back add up to the window |
| `Flow.BlockedMeansMoreToCome` | crates/zyris-core/src/connection.rs:86-101 | a sender blocked on an item that fits the window waits for something still to be delivered, taken or credited |
| `Flow.OversizedNeverSends` | crates/zyris-capkit/src/transfer/peer.rs:23-40 | an item larger than the window is never sent, whatever happens |
| `Flow.AttachmentNeverStuck` | crates/zyris-core/src/connection.rs:245-268 | until an attachment has been heard to its end, or its consumer hangs up, some step forward is possible |
| `Flow.ForwardWorks` | crates/zyris-core/src/connection.rs:245-268 | every step forward leaves strictly less work and keeps what makes the next one possible |
| `Flow.AlwaysAPrefix` | crates/zyris-core/src/connection.rs:1041-1057 | whatever subset, duplication or order of genuine chunks and endings arrives, the consumer is handed a prefix of the items, then at most one terminal event, last |
| `Wire.ChunksWhole` | crates/zyris-core/src/connection.rs:247-250 | the chunks of a blob are its bytes, each within the chunk size |
| `Wire.OpensInFullChunks` | crates/zyris-core/src/connection.rs:245-250 | a blob goes out in chunks of exactly the agreed size, or one byte when that is zero, but for the last, none of them empty, with the whole window to spend |
| `Wire.SenderView` | crates/zyris-core/src/connection.rs:1203-1238 | a sender's act is exactly that sender's step of its own stream |
| `Wire.SenderElsewhere` | crates/zyris-core/src/connection.rs:1203-1238 | and changes nothing about any other stream, at either end or on the link |
| `Wire.ConsumerView` | crates/zyris-core/src/connection.rs:601-642 | polling or dropping a stream is exactly that step of it, with the credit or the cancel it sends |
| `Wire.ForwardView` | crates/zyris-core/src/connection.rs:1041-1057 | what the tables do with a chunk, an ending or a refusal is what its stream alone does |
| `Wire.BackView` | crates/zyris-core/src/connection.rs:1112-1123 | what the tables do with credit, a cancel or a declaration is what its stream alone does |
| `Wire.AnnounceView` | crates/zyris-core/src/connection.rs:1067-1077 | delivering a response opens each stream it announces, as that stream's own step |
| `Wire.ResponseElsewhere` | crates/zyris-core/src/connection.rs:1067-1077 | and changes nothing about a stream it does not announce |
| `Wire.RespondAttach` | crates/zyris-core/src/connection.rs:217-241 | a response opens a gate and a sender for each detached blob, with its chunks as the plan |
| `Wire.RespondBegin` | crates/zyris-core/src/connection.rs:1183-1202 | answering a declared stream, with a head or plainly, is exactly that step of it |
| `Session.StepInv` | crates/zyris-core/src/connection.rs:1038-1133 | every act of the two endpoints keeps every stream sound, the counters apart, and each response on the link the tree of a reply its side gave |
| `Session.RunInv` | crates/zyris-core/src/connection.rs:817-852 | so every state of every run from the handshake on is sound |
| `Session.KeysNeverShared` | crates/zyris-core/src/connection.rs:1262-1278 | no two live streams share a key in either end's incoming or credits table |
| `Session.EveryInsertIsFresh` | crates/zyris-core/src/connection.rs:433-447 | every insertion into either table, by a call, a response or a registration, finds its key free |
| `Session.CreditIsConserved` | crates/zyris-core/src/connection.rs:608-615 | credit conservation for every stream of every run, and unconsumed bytes never exceed the window |
| `Session.BlockedMeansMoreToCome` | crates/zyris-core/src/connection.rs:86-101 | no deadlock, for every stream of every run |
| `Session.ConsumersSeeAPrefix` | crates/zyris-core/src/connection.rs:601-642 | in every run a consumer has a prefix of what was sent; a clean end means all of it; a failure is one the sender reported, never a gap; and nothing follows either |
| `Steps.EveryActIsAStep` | crates/zyris-core/src/connection.rs:1038-1133 | for every act and every stream at once: the act is, for that stream, the one step the act and the frame it delivers determine, or changes nothing of it |
| `Steps.EveryStreamRunsAlone` | crates/zyris-core/src/connection.rs:1038-1257 | in every run, what one stream sees from its birth on is a run of the single-stream model, whatever the other streams do |
| `Steps.PlainAnswerIsNeverHeard` | crates/zyris-core/src/connection.rs:1183-1185 | a caller that declared a stream and got a plain response never hears a chunk or an ending on it, whatever either end does later |
| `Claims.DeliveryRegisters` | crates/zyris-core/src/connection.rs:1262-1278 | delivering a response enters every reference in it, with the size and digest it states, and none was claimed before |
| `Claims.ReferencesAreAccountedFor` | crates/zyris-core/src/connection.rs:477-488 | from then on every reference waits unchanged, or exactly one claim was handed it, or its stream was hung up on or swept |
| `Claims.ThereToBeClaimed` | crates/zyris-core/src/connection.rs:1280-1293 | until it is claimed or swept, a claim finds it |
| `Collect.Inbox.constructor` | crates/zyris-core/src/connection.rs:55-58 | no attachment is pending at first |
| `Collect.Inbox.CollectAttachment` | crates/zyris-core/src/connection.rs:494-540 | the claimed entry leaves the table; the result is the stream's bytes or the exact error; only an oversized one is cancelled |
| `Collect.Inbox.Hydrate` | crates/zyris-core/src/connection.rs:544-550 | references are filled in order up to the first that fails |
| `Collect.HydrateUndoesDetach` | crates/zyris-core/src/connection.rs:544-550 | with every blob arrived whole in any chunking, hydrate restores the sender's tree; it fails exactly when a blob is over the limit, and only for that |
| `EndToEnd.AttachmentsAreTransparent` | crates/zyris-core/src/connection.rs:217-268 | in any run, a caller that claimed and heard out the streams of a delivered response hydrates it to exactly the tree the tool returned, whatever else ran; no reference is gone or changed, and only the caller's limit can refuse one |
| `EndToEnd.NoAttachmentIsStuck` | crates/zyris-core/src/connection.rs:245-268 | with chunks no larger than the initial credit, no reachable state leaves an attachment that can neither move nor has been heard or hung up on |
| `EndToEnd.RepliesStay` | crates/zyris-core/src/connection.rs:217-241 | replies given are never taken back |
| `Delivery.DeliverIsQuiet` | crates/zyris-core/src/connection.rs:1041-1057 | in every sound state the next chunk is the one expected, so no delivery makes an end send anything |
| `Delivery.HeardOutAtLast` | crates/zyris-core/src/connection.rs:245-268 | from any state of a run, finitely many moves that carry one attachment, and no other, bring it to its end |
| `Delivery.AttachmentIsDelivered` | crates/zyris-core/src/connection.rs:245-268 | so every attachment of every reply that nobody hung up on can be delivered, when a chunk is no larger than the initial credit |
| `Delivery.EveryResponseCanBeHydrated` | crates/zyris-core/src/connection.rs:544-550 | so from any state after a response was delivered, the run can go on until hydrating gives the tool's tree or refuses a blob over the limit |
| `Endpoint.Shared.constructor` | crates/zyris-core/src/connection.rs:817-852 | empty tables, and a counter that starts at 1 for the dialer and 2 for the acceptor |
| `Endpoint.Shared.HandleFrame` | crates/zyris-core/src/connection.rs:1061-1133 | the tables and the writer's queue become what the two-ended model says, for every frame |
| `Endpoint.Shared.RegisterAttachments` | crates/zyris-core/src/connection.rs:1262-1278 | the loop gives each reference that has no entry yet a receiving entry and a place to be claimed |
| `Endpoint.Shared.SendNext` | crates/zyris-core/src/connection.rs:86-101 | a chunk goes out exactly when the gate is open and holds enough, numbered by what was sent before |
| `Endpoint.Pair.constructor` | crates/zyris-core/src/connection.rs:817-852 | two new endpoints are the start of a run |
| `Endpoint.Pair.CallStreaming` | crates/zyris-core/src/connection.rs:433-463 | declaring a stream: the two objects take exactly this act of the model, and their whole history stays a run of it |
| `Endpoint.Pair.Respond` | crates/zyris-core/src/connection.rs:217-241 | answering, with a gate and ids for every detached blob: the two objects take exactly this act of the model, and their whole history stays a run of it |
| `Endpoint.Pair.Deliver` | crates/zyris-core/src/connection.rs:1038-1133 | the next frame arrives, whichever it is: the two objects take exactly this act of the model, and their whole history stays a run of it |
| `Endpoint.Pair.Claim` | crates/zyris-core/src/connection.rs:477-488 | the claimant gets the entered reference, and the two objects take exactly this act of the model, and their whole history stays a run of it |
| `Endpoint.Pair.Poll` | crates/zyris-core/src/connection.rs:604-630 | the consumer gets the next chunk or the end, and the two objects take exactly this act of the model, and their whole history stays a run of it |
| `Endpoint.Pair.Drop` | crates/zyris-core/src/connection.rs:633-642 | hanging up: the two objects take exactly this act of the model, and their whole history stays a run of it |
| `Endpoint.Pair.Send` | crates/zyris-core/src/connection.rs:86-101 | a chunk goes out exactly when the gate is open and holds enough; then, and only then, the two objects take exactly this act of the model, and their whole history stays a run of it |
| `Endpoint.Pair.Feed` | crates/zyris-core/src/connection.rs:1204-1237 | an item of a tool's stream, or its close: the two objects take exactly this act of the model, and their whole history stays a run of it |
| `Endpoint.Pair.Over` | crates/zyris-core/src/connection.rs:251-268 | a sender ends, fails or stops: the two objects take exactly this act of the model, and their whole history stays a run of it |
| `Endpoint.Pair.Refuse` | crates/zyris-core/src/connection.rs:270-275 | refusing a declared stream: the two objects take exactly this act of the model, and their whole history stays a run of it |
| `Endpoint.Pair.WhatIsHeard` | crates/zyris-core/src/connection.rs:601-642 | on two objects driven in any way, what a consumer has is a prefix of what the other object sent, an end means all of it, and a failure is one the sender reported |
| `Endpoint.Pair.CreditsAddUp` | crates/zyris-core/src/connection.rs:79-111 | and gate, link, queue and returning credit of every open stream add up to the window |
| `Dangling.RegisteredExactlyWhen` | crates/zyris-core/src/connection.rs:1262-1278 | for any table and any references: registering leaves each of them to be claimed as it stands, if and only if no stream of theirs is being received under another reference and no two differ about one stream |
| `Dangling.AReferenceIsShadowed` | crates/zyris-core/src/connection.rs:1262-1278 | from any state, a relayed reference to the next stream id makes the blob later sent on that id wait under the wrong reference |
| `Dangling.ShadowedIsRefused` | crates/zyris-core/src/connection.rs:494-540 | and whoever hears it out under that reference is refused it |
| `Handshake.BothEndsAgree` | crates/zyris-core/src/connection.rs:667-852 | both ends go on or neither does, with the same serialization, limits, effective heartbeat and features, and stream counters of different parity |
| `Handshake.WhatTheyAgreeOn` | crates/zyris-core/src/connection.rs:667-852 | at either end: the dialer's first serialization, or msgpack; the acceptor's limits and interval; a feature if and only if both offered it; ids from 1 for the dialer and from 2 for the acceptor |
| `Handshake.DialsItsOwnMajor` | crates/zyris-core/src/connection.rs:689-712 | whoever answers, the dialer goes on if and only if it is an acknowledgement of major version 1 |
| `Handshake.TimeoutIsLeast` | crates/zyris-core/src/connection.rs:809-815 | the timeout in use is the shortest that is as long as the one asked for and outlasts the interval |
| `Handshake.HandshakeOpensTheRun` | crates/zyris-core/src/connection.rs:817-852 | two ends that completed a handshake run with one and the same window, chunk size and inline limit, from the start every run theorem is about |
| `Handshake.RunsWithTheAcceptorsLimits` | crates/zyris-core/src/connection.rs:817-852 | after any completed handshake the window is the acceptor's initial stream credit and the chunk size its largest chunk |
| `Handshake.NothingIsDetachedUnlessAgreed` | crates/zyris-core/src/connection.rs:221-226 | when either side did not offer "attachments", every answer goes out as it is, with nothing detached |
| `Handshake.DetachedOnceAgreed` | crates/zyris-core/src/connection.rs:221-226 | when both did, a blob of an answer is detached if and only if it is reached in a datum and longer than 4 MiB |
| `Handshake.NothingToDetach` | crates/zyris-core/src/connection.rs:221-226 | no blob is over the limit that stands for a missing attachments feature, in any tree |
| `Handshake.TimeoutOutlastsInterval` | crates/zyris-core/src/connection.rs:809-815 | the timeout is longer than the interval, if and only if the interval is not the largest number there is |
| `Requests.StepInv` | crates/zyris-core/src/connection.rs:1167-1257 | every step of worker, reader, cancel and revocation keeps the accounting of replies, holders and entries |
| `Requests.AtMostOneReply` | crates/zyris-core/src/connection.rs:217-220 | a dispatched request never gets two replies, in any interleaving |
| `Requests.ExactlyOneReply` | crates/zyris-core/src/connection.rs:1083-1101 | a call that has left the table and that nobody is still answering has had exactly one |
| `Requests.FinishedLeavesNothing` | crates/zyris-core/src/connection.rs:1241-1257 | a finished or aborted worker has no entry and the reader will not give it one |
| `Requests.TakenIsStopped` | crates/zyris-core/src/connection.rs:1083-1101 | in every run, a cancelled call has been told to stop from the moment it is taken, a revoked one once it has been answered for, and no other ever is |
| `Requests.TakenExactlyWhen` | crates/zyris-core/src/connection.rs:277-306 | in every run, a call is taken from its worker if and only if it is in the table and is cancelled or its capability is revoked by another call |
| `Requests.StaysUntilItsStreamEnds` | crates/zyris-core/src/connection.rs:1197-1241 | a call answered with a stream is not done before the stream has ended, whatever happens beside it |
| `Requests.EveryCallCanFinish` | crates/zyris-core/src/connection.rs:1083-1101 | from every reachable state, finitely many steps bring a call to its end, out of the table, with exactly one reply |
| `Requests.RevocationIsComplete` | crates/zyris-core/src/connection.rs:277-306 | after a revocation no call of the capability but the caller's own is ever in the table again, if and only if the reader was not between spawning one and entering it |
| `Requests.ARevokedCallSurvives` | crates/zyris-core/src/connection.rs:1241-1257 | a run in which a call slips past its revocation |
| `Gates.RunInv` | crates/zyris-core/src/connection.rs:1083-1101 | in every run of worker, cancel, revocation and peer, the gate and who answered first stay accounted for |
| `Gates.LeftBehindExactlyWhen` | crates/zyris-core/src/connection.rs:1197-1237 | once a streaming call is settled, its gate is still in the table if and only if its worker was aborted in the stream after somebody else had answered, and the peer never cancelled the stream |
| `Gates.SettledIsAnswered` | crates/zyris-core/src/connection.rs:1083-1101 | a settled call has been answered, and has been told to stop if and only if it was taken over |
| `Gates.StoppedBeforeAnswered` | crates/zyris-core/src/connection.rs:1083-1101 | a cancel tells the worker to stop before it answers for it |
| `Gates.AGateIsLeftBehind` | crates/zyris-core/src/connection.rs:1083-1101 | a cancel between the gate and the head does that |
| `Capabilities.Build` | crates/zyris-core/src/capabilities.rs:18-36 | a list is accepted exactly when no (name, version) repeats; descriptors match it and the index finds the last listed of each name |
| `Capabilities.OneIndex` | crates/zyris-core/src/capabilities.rs:18-36 | a list has only one such index |
| `Capabilities.CapabilitySet.constructor` | crates/zyris-core/src/capabilities.rs:45-50 | nothing served, nobody connected |
| `Capabilities.CapabilitySet.Register` | crates/zyris-core/src/capabilities.rs:76-80 | a new connection joins those that revocations reach; exactly those nobody holds any more leave |
| `Capabilities.CapabilitySet.Push` | crates/zyris-core/src/capabilities.rs:52-58 | the list grows by one, or is refused and nothing changes |
| `Capabilities.CapabilitySet.AddArc` | crates/zyris-core/src/capabilities.rs:118-122 | as above, and no call in flight is disturbed |
| `Capabilities.CapabilitySet.Remove` | crates/zyris-core/src/capabilities.rs:125-140 | true exactly for a served name; the rest keeps its order; no open connection keeps a call on it but the caller's own, and each call it loses is told where it can still hear and its worker stopped |
| `Capabilities.CapabilitySet.Replace` | crates/zyris-core/src/capabilities.rs:143-160 | a refused list changes nothing; an accepted one revokes exactly the names it drops, on every open connection, and each call so lost is told and stopped |
| `Capabilities.CapabilitySet.Propagate` | crates/zyris-core/src/capabilities.rs:162-175 | every open connection loses the calls of every withdrawn name, each told and stopped; closed ones are left alone |
| `Capabilities.Live.RevokeInflight` | crates/zyris-core/src/connection.rs:277-306 | each victim is taken once, told once in the way it can still hear, and aborted; exactly the gates of streams so ended leave the credits table; nobody else is touched |
| `Capabilities.RevokedAre` | crates/zyris-core/src/connection.rs:277-306 | said of the table before: a call on the name, not the caller's own, is told of its failure as its reply if it has none yet, and on its stream if it has one; nobody else is told; exactly their workers are stopped and exactly those streams end |
| `Capabilities.EachFailsOnce` | crates/zyris-core/src/connection.rs:277-306 | and none is told twice that it has no reply to wait for |
| `Changes.NothingIsOverwrittenExactlyWhen` | crates/zyris-core/src/capabilities.rs:118-122 | in every run of changes at once, an accepted one does to the list what it was asked, if and only if it wants the same of the list it read as of the one it replaces; for an addition, if the two are one list |
| `Changes.ServedStays` | crates/zyris-core/src/capabilities.rs:118-160 | when every change does, a served capability stays until a change takes it off |
| `Changes.AnAdditionIsLost` | crates/zyris-core/src/capabilities.rs:118-160 | two additions at once are both accepted, and the first is gone and revoked |
| `Ledger.RunInv` | crates/zyris-p2p/src/tofu.rs:361-475 | in every run of any number of processes, with locks broken, removed and crashed over at any moment, at most one holder's view of the ledger is current, and its nonce is in the lock file |
| `Ledger.NoLockIsLeftBehind` | crates/zyris-p2p/src/tofu.rs:494-507 | unless a process dies, in every run a lock with a nonce in it belongs to a call that is still to take it away, however calls fail |
| `Ledger.LockStaysItsMakers` | crates/zyris-p2p/src/tofu.rs:361-420 | in every run a lock file stays one call's: while there is one, only its maker writes into it, once |
| `Ledger.LetsGoExactlyWhen` | crates/zyris-p2p/src/tofu.rs:638-660 | a call that lets go takes the lock away if and only if it then finds its own nonce in the file it made |
| `Finishing.EveryCallCanEnd` | crates/zyris-p2p/src/tofu.rs:361-440 | from every state, whatever lock is in the way, a call that has not died can end by its own steps, none of them failing |
| `Ledger.ReadsExactlyWhen` | crates/zyris-p2p/src/tofu.rs:477-493 | no file reads as an empty ledger; one that does not parse, or holds something that is no key, does not read; any other reads as its pins with canonical keys |
| `Ledger.UnreadableStays` | crates/zyris-p2p/src/tofu.rs:477-493 | over any run, a ledger that does not read stays exactly as it is |
| `Ledger.LookupAnswers` | crates/zyris-p2p/src/tofu.rs:221-243 | authorize, for every ledger: a known key of the slug is accepted, another refused as changed, an unknown slug put to the confirmer, an unreadable ledger reported |
| `Ledger.NoLostPin` | crates/zyris-p2p/src/tofu.rs:282-330 | a published pin is in every later ledger unchanged, unless forget removed that slug |
| `Ledger.PublishedUnderLock` | crates/zyris-p2p/src/tofu.rs:494-507 | a publish happens only if the lock file has held that writer's nonce continuously since it read the ledger, which nobody changed meanwhile |
| `Ledger.TrustedCallersAgree` | crates/zyris-p2p/src/tofu.rs:221-243 | without forget, any two calls that return Ok for a slug did so for the same canonical key |
| `Ledger.OnlyUnknownSlugsAreAsked` | crates/zyris-p2p/src/tofu.rs:221-243 | a key for a slug already pinned never reaches the confirmer |
| `Ledger.PinnedOnlyIfConfirmed` | crates/zyris-p2p/src/tofu.rs:221-243 | with authorize the only writer, every pin was accepted by a confirmer or was there at the start |
| `Ledger.TofuStore.AcquireLockFile` | crates/zyris-p2p/src/tofu.rs:361-440 | the lock is got if and only if there is none or it comes to be 60 seconds old within the tries, 20 ms apart; then it is a new file with this nonce, and otherwise nothing changes |
| `Ledger.TofuStore.PinPreapproved` | crates/zyris-p2p/src/tofu.rs:282-307 | for every ledger on disk, slug, key and lock, exactly when each outcome is returned: unreadable is malformed, another key is a change, no file is an empty ledger; the pin is added with this key and time, every other pin and an existing one kept |
| `Ledger.TofuStore.ForgetPin` | crates/zyris-p2p/src/tofu.rs:320-331 | for every ledger on disk and lock, exactly when each outcome is returned; removes one pin, says whether it was there, and keeps every other |
| `Ledger.ACallIsARun` | crates/zyris-p2p/src/tofu.rs:282-331 | from any state of a run, pinning or forgetting as one process does it is a continuation of the run by that call's own steps, to exactly the files and the answer |
| `Receive.RunInv` | crates/zyris-capkit/src/transfer/peer.rs:272-468 | in every run of concurrent, interrupted and crashed calls, as long as no two live at once get at each other's part files, what each hasher saw is what is in its part file |
| `Receive.OneWriterPerPart` | crates/zyris-capkit/src/transfer/peer.rs:112-153 | over any set of offers, no run has two live calls writing one part file or publishing onto one, if and only if no two different transfers among them share a part path or have the other's as destination |
| `Receive.ClaimedExactlyWhile` | crates/zyris-capkit/src/transfer/peer.rs:112-153 | in every run an id is claimed if and only if a call for it is running; no crash or failure leaves one claimed |
| `Receive.SharedPart` | crates/zyris-capkit/src/transfer/peer.rs:66-105 | two transfers that do are live at once in some run |
| `Receive.CollisionPublishesOtherBytes` | crates/zyris-capkit/src/transfer/peer.rs:345-468 | two transfers on one part file: every check of the first passes, and what it publishes has not the offered length |
| `Parts.OrdinaryTransfersCollideExactlyWhen` | crates/zyris-capkit/src/transfer/peer.rs:66-105 | with the source's own part names, and destinations of at most 233 bytes that do not end in .part, that is if and only if no two transfers share both destination and marker |
| `Receive.PublishedIsOffered` | crates/zyris-capkit/src/transfer/peer.rs:402-468 | in every such run, the bytes renamed into place have the offered length and digest, and are what the call kept of the part file when it reread it followed by everything it wrote since |
| `Receive.TurnedAwayExactlyWhen` | crates/zyris-capkit/src/transfer/peer.rs:432-455 | in every run, each of the two looks at the destination turns a call away if and only if it is there and may not be replaced; the second takes the part file away with it |
| `Receive.PublishesOnlyWhereFree` | crates/zyris-capkit/src/transfer/peer.rs:432-466 | a call that may not replace a file publishes only where there was none when it last looked |
| `Receive.GivesUpExactlyWhen` | crates/zyris-capkit/src/transfer/peer.rs:395-431 | bytes past the offered size, a wrong digest or a wrong length, and nothing else, take the part file away; a broken stream leaves everything as it is |
| `Receive.ReceivedIsTheSource` | crates/zyris-capkit/src/transfer/peer.rs:402-468 | when no other file has the source's digest, the received file is the offered file |
| `Receive.HonestTransferIsNeverRejected` | crates/zyris-capkit/src/transfer/peer.rs:345-424 | when the sender keeps to its source and no other transfer offered has to do with its part file, no interruption, crash or retry leaves a part file that makes a finished stream fail its digest or length |
| `Receive.RetryCompletes` | crates/zyris-capkit/src/transfer/peer.rs:345-360 | the leftover and the rest of the source from the resume offset are the whole source |
| `Resume.Finishes` | crates/zyris-capkit/src/transfer/peer.rs:345-468 | from any state in which nobody is at the transfer and its place is free, an offer and the right rest of the bytes end with leftover and rest in place, no part file, the claim released and everything else as it was |
| `Resume.BreaksOff` | crates/zyris-capkit/src/transfer/peer.rs:345-403 | broken off anywhere, it ends with what arrived added to the part file, the claim released and everything else as it was |
| `Resume.ResumesWhereItBroke` | crates/zyris-capkit/src/transfer/peer.rs:345-468 | so broken off and offered again it is finished by the bytes that had not arrived |
| `Receive.Pull` | crates/zyris-capkit/src/transfer/peer.rs:506-560 | the source from the offset on, in non-empty chunks of at most 64 KiB; past the end, nothing |
| `Receive.Inbox.constructor` | crates/zyris-capkit/src/transfer/peer.rs:125-141 | no transfer is claimed at first |
| `Receive.Inbox.Claim` | crates/zyris-capkit/src/transfer/peer.rs:132-153 | the claim succeeds exactly when nobody holds the id |
| `Receive.Inbox.TakeIn` | crates/zyris-capkit/src/transfer/peer.rs:352-403 | exactly when the stream is taken whole, is too long or breaks off; then the part file is leftover and stream, gone, or leftover and what arrived, and no other file changes |
| `Receive.Inbox.PushOffer` | crates/zyris-capkit/src/transfer/peer.rs:272-468 | exactly when each of the nine outcomes is returned; received, exactly the offered bytes are in place and no part file; broken off, the part file is leftover and what arrived; too long or mismatched, it is gone; refused, no file changes; and no other file ever does |
| `Names.OneSafeComponent` | crates/zyris-capkit/src/transfer/name.rs:22-49 | every string becomes one non-empty component of at most 255 bytes with no separator, colon or control character and no dot or space at its end |
| `Washing.LastComponentIs` | crates/zyris-capkit/src/transfer/name.rs:23-26 | what follows the last slash or backslash is kept, and all of that |
| `Washing.DirectoriesDoNotMatter` | crates/zyris-capkit/src/transfer/name.rs:23-26 | so a name comes to the same under whatever directories, in either notation |
| `Washing.PrintableOne` | crates/zyris-capkit/src/transfer/name.rs:27-28 | colons and control characters are dropped, and nothing else |
| `Washing.PrintablePlus` | crates/zyris-capkit/src/transfer/name.rs:27-28 | wherever they are, and the rest keeps its order |
| `Washing.WashedIs` | crates/zyris-capkit/src/transfer/name.rs:29-31 | what is left is between the white space at both ends and the dots and spaces before its end |
| `Washing.DeviceIsMarked` | crates/zyris-capkit/src/transfer/name.rs:53-66 | one of the 22 device names, in any case, gets an underscore in front of its extension; any other name is left alone |
| `Washing.LongNameKeepsExtension` | crates/zyris-capkit/src/transfer/name.rs:70-87 | a name over 255 bytes is cut in front of an extension under 16 bytes |
| `Washing.LongExtensionIsCut` | crates/zyris-capkit/src/transfer/name.rs:70-87 | and an extension of 16 bytes or more is cut like the rest |
| `Washing.FallsBackToFile` | crates/zyris-capkit/src/transfer/name.rs:33-48 | when nothing is left, or nothing but dots and spaces fit, the name is "file" |
| `Washing.GoodNameIsKept` | crates/zyris-capkit/src/transfer/name.rs:22-49 | a name with nothing to wash, no device's and within 255 bytes, is kept as it is under whatever directories |
| `Names.ReservedExactlyWhen` | crates/zyris-capkit/src/transfer/name.rs:22-87 | the result is a reserved device name exactly when the washed name is not one, is over 255 bytes, keeps no extension, and its first 255 bytes are a device name and then only dots and spaces |
| `Names.ADeviceGetsThrough` | crates/zyris-capkit/src/transfer/name.rs:39-48 | there is such a name |
| `Names.AvoidedIsNotReserved` | crates/zyris-capkit/src/transfer/name.rs:53-66 | a name whose stem was a device no longer has one |
| `Names.TakeFitting` | crates/zyris-capkit/src/transfer/name.rs:80-86 | the loop yields the longest beginning within the byte limit, at a character boundary |
| `Names.FittingIsLongest` | crates/zyris-capkit/src/transfer/name.rs:80-86 | no longer beginning fits |
| `Names.PartNameIsApart` | crates/zyris-capkit/src/transfer/peer.rs:65-105 | the part file's name is one plain component within 255 bytes and never the destination's own |
| `Names.PartNamesDiffer` | crates/zyris-capkit/src/transfer/peer.rs:65-105 | different id markers give different part names, whatever the two destinations are |
| `Sanitize.TrimIncompleteTail` | crates/zyris-capkit/src/terminal/buffer.rs:65-86 | the loop finds where a chunk cut inside a character must end |
| `Sanitize.TailOfText` | crates/zyris-capkit/src/terminal/buffer.rs:65-86 | nothing is held back from a whole text |
| `Sanitize.TailOfCut` | crates/zyris-capkit/src/terminal/buffer.rs:65-86 | a character cut short is held back whole |
| `Sanitize.CharsAreEncodings` | crates/zyris-capkit/src/terminal/buffer.rs:65-86 | the characters are exactly the encodings of the Unicode scalar values, as section 3 of RFC 3629 lays them out |
| `Sanitize.ScanEscape` | crates/zyris-capkit/src/terminal/sanitize.rs:35-72 | where the sequence at an index ends, or that it is unfinished |
| `Sanitize.ScansExactly` | crates/zyris-capkit/src/terminal/sanitize.rs:35-72 | for any bytes: a control sequence ends with its first byte from 0x40 to 0x7E, a string with BEL, with ESC and a backslash or before another ESC, anything else after two bytes; otherwise it is unfinished |
| `Sanitize.ScanEndsBetween` | crates/zyris-capkit/src/terminal/sanitize.rs:35-72 | a sequence ends between two characters unless its ESC is directly followed by a non-ASCII one |
| `Sanitize.TrimIncompleteEscape` | crates/zyris-capkit/src/terminal/sanitize.rs:20-32 | the loop finds the last ESC in the window and holds back from it if it is unfinished |
| `Sanitize.KeepsMost` | crates/zyris-capkit/src/terminal/sanitize.rs:20-32 | whatever the bytes, at most 256 are carried over |
| `Sanitize.StripControls` | crates/zyris-capkit/src/terminal/sanitize.rs:78-110 | the loop computes the cleaned text, or that it panics |
| `Sanitize.OnlyTextIsLeft` | crates/zyris-capkit/src/terminal/sanitize.rs:78-110 | for every text, no control character but newline and tab comes out, and no DEL |
| `Sanitize.PanicsExactlyWhen` | crates/zyris-capkit/src/terminal/sanitize.rs:78-110 | cleaning panics exactly on texts in which an ESC the walk comes to is directly followed by a non-ASCII character |
| `Sanitize.SomeTextPanics` | crates/zyris-capkit/src/terminal/sanitize.rs:69-103 | there is such a text |
| `Reading.StripIsClean` | crates/zyris-capkit/src/terminal/sanitize.rs:78-110 | cleaning a log of characters and proper sequences leaves exactly its printable characters, newlines and tabs |
| `Reading.ChunkKeeps` | crates/zyris-capkit/src/terminal/mod.rs:552-567 | wherever a chunk is cut, what read uses of it is a whole number of characters and sequences |
| `Reading.ChunkedReadingIsWholeLogCleaning` | crates/zyris-capkit/src/terminal/mod.rs:552-573 | the contents of successive reads cut at any points are the cleaning of the part read, and of the whole log once it is all read; they never panic |
| `Terminal.OutputBuffer.constructor` | crates/zyris-capkit/src/terminal/buffer.rs:16-18 | an empty log |
| `Terminal.OutputBuffer.Push` | crates/zyris-capkit/src/terminal/buffer.rs:29-38 | the ring stays the last bytes of everything ever pushed, however large one push is |
| `Terminal.OutputBuffer.ReadAt` | crates/zyris-capkit/src/terminal/buffer.rs:45-56 | the slice of the unbounded log at the cursor, and how much fell off before it |
| `Terminal.RingReadsTheLog` | crates/zyris-capkit/src/terminal/buffer.rs:45-56 | reading the ring at a cursor gives what reading the unbounded log there would, less what fell off, which is reported |
| `Terminal.RingRefinesTheLog` | crates/zyris-capkit/src/terminal/mod.rs:207-229 | over any interleaving of pushes and reads by any number of readers, the one shared ring gives each of them what its own reads of the whole log would |
| `Terminal.NothingIsLostSilently` | crates/zyris-capkit/src/terminal/buffer.rs:45-56 | over any run, bytes given and losses reported add up to the cursor, which never passes the log; with none reported, the reader has the log exactly up to it |
| `Terminal.ReadIsACut` | crates/zyris-capkit/src/terminal/mod.rs:552-567 | a session's read that lost nothing is one cut of the final log |
| `Terminal.SessionReadsTheCleanLog` | crates/zyris-capkit/src/terminal/mod.rs:543-573 | over any order of output and reads in which the ring loses nothing, what the reads return together is the cleaning of the output as far as they got, and of all of it at its end; none panics |
| `Terminal.Session.constructor` | crates/zyris-capkit/src/terminal/session.rs:91-104 | a session starts at the beginning of its log |
| `Terminal.Session.Read` | crates/zyris-capkit/src/terminal/mod.rs:543-573 | content, loss, cursor and more-to-come for every state; with over 256 bytes pending it always advances |
| `Framing.ReadsBackExactlyWhen` | crates/zyris-p2p/src/frame.rs:53-89 | a message is read back with what follows it untouched, if and only if its payload is within the cap |
| `Framing.ReadsExactlyWhen` | crates/zyris-p2p/src/frame.rs:53-89 | bytes read as a message and a rest if and only if they are its encoding and the rest, its payload is within 16 MiB, and text is UTF-8 |
| `Framing.StreamReadsBack` | crates/zyris-p2p/src/transport.rs:136-163 | any sequence of messages within the cap is read back exactly, with nothing left |
| `Framing.StreamDataRoundTrip` | crates/zyris-proto/src/frame.rs:49-77 | a stream-data frame decodes to its stream, number and payload |
| `Framing.DecodesExactlyWhen` | crates/zyris-proto/src/frame.rs:58-77 | a frame is a control envelope if and only if it starts with 0, stream data with 1; it is empty, unknown or truncated exactly when it is |
| `Framing.StreamDataIsCanonical` | crates/zyris-proto/src/frame.rs:58-77 | every frame that decodes to stream data is the encoding of what it decodes to |
| `Framing.ChunkInAStream` | crates/zyris-p2p/src/transport.rs:136-163 | a chunk among other messages comes back with its stream, number and bytes |
| `Cadence.IntervalAfter` | crates/zyris-core/src/enroll/protocol.rs:146-187 | after any answer: five seconds more, up to sixty, for a slow-down without a number or a transient error; the number given, up to sixty, if that is longer; otherwise as before |
| `Cadence.PollState.constructor` | crates/zyris-core/src/enroll/protocol.rs:133-135 | the advertised interval, clamped to 1 to 60 seconds |
| `Cadence.PollState.OnError` | crates/zyris-core/src/enroll/protocol.rs:146-178 | the new interval, and whether to keep waiting, for every answer |
| `Cadence.PollState.Adopt` | crates/zyris-core/src/enroll/protocol.rs:181-187 | a hint widens the interval or leaves it |
| `Cadence.Wait` | crates/zyris-core/src/enroll/device.rs:168-236 | against any server it ends, asks at most once for each second of the code's life, keeps every interval, and each of its four endings is exactly told by the last answer, lapsing otherwise only when the next request would come at the deadline or after |
| `Cadence.PeerCache.constructor` | crates/zyris-capkit/src/transfer/listen.rs:117-130 | nothing fetched, nothing attempted |
| `Cadence.PeerCache.Find` | crates/zyris-capkit/src/transfer/listen.rs:140-151 | when it fetches, what it remembers and what it answers |
| `Cadence.PeerCache.Refresh` | crates/zyris-capkit/src/transfer/listen.rs:161-175 | the list is replaced whole, or kept when the fetch fails; the attempt counts either way |
| `Cadence.FetchRateIsBounded` | crates/zyris-capkit/src/transfer/listen.rs:153-155 | no window holds more attempts than its length divided by the interval, and one |
| `Cadence.AsksExactlyWhen` | crates/zyris-capkit/src/transfer/listen.rs:140-155 | after any lookups, the next one asks the directory if and only if an interval has gone by since it was last asked and the last list is past its time or has not got the id |
| `Cadence.AnswersAreCurrent` | crates/zyris-capkit/src/transfer/listen.rs:140-175 | after any lookups, exactly the ids of the last list that came back are answered, each with its last entry in that list |

## Left out

- WebSocket, QUIC, TLS, HTTP and PTY code: only the in-order queues and the clocks they imply are modelled.
- MessagePack, JSON and base64: envelopes are values on the wire, and control envelopes stay bytes in `Framing.dfy`.
- Responses that already hold attachment references: `Wire.MayRespond` asks for a tree with none, as the transparency promise does; `Dangling.dfy` says what goes wrong otherwise, and when.
- More than 2^31 stream ids on a side, and more than 2^32 chunks on a stream: the counters do not wrap in the model.
- The order inside one act: entering gates and sending a response, or entering a stream and sending its request, is one step in `Wire.dfy`, so what could come between the two is not modelled there; `Gates.dfy` has the one place where it matters.
- `request` ids and the `pending` table: a response names the stream it answers instead.
- Fairness: `Delivery.dfy` shows that moves which deliver exist from every state; that a scheduler takes them is not modelled.
- Shared ownership of a credit gate: a gate is a value in its sender's record, so the two handles of the source are one.
- The SErr a revocation sends for a stream whose gate is already gone: the receiving end ignores it.
- The order in which one revocation answers its victims: `Requests.dfy` lets them be answered in any order.
- Shutdown, heartbeats, reconnecting and announcing: no invariant of their own beyond the tables.
- A symbolic link at the part path, undo stashes, audit lines and permission bits in `push_offer`: file-system plumbing.
- Receive.RunInv: each write to a part file is atomic, and a crash keeps whole writes; of runs in which two live calls get at each other's part files one is shown, and no more.
- `from_utf8_lossy`: only that it leaves UTF-8 as it is; `Reading.dfy` takes it as a parameter.
- The settling wait, the `screen` call and process control of the terminal: timing and platform calls.
- Ledger.RunInv: confirming the nonce and renaming the ledger is one step; nonces are unique; parsing a key is a partial function with one canonical form.
- Ledger temporary files, directory creation and syncing: they do not change what a reader of the ledger sees.
- Input and screen-capture capabilities, macros, credential types, path checks of the inbox: easy members or platform code.
