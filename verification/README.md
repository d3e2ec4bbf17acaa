# Mino autonomy pipeline: a verified model

A model, in Dafny 4.11, of the six-role benchmark pipeline of Mino (perception, prediction, planning, control,
guardian, canbus) and of the parts it rests on, with proofs for every input, every run and every interleaving.
`dafny verify dfyconfig.toml` checks the whole project.

* **The running pipeline** (`Chain*`, `Topology`, `Deployment`). Processes joined by bounded first-in first-out links.
  One atomic step is one action of one process or of the TCP driver; a run is any sequence of steps. The six-role TCP
  pipeline and every hybrid placement with bridge pairs are instances of one chain. Proved of all runs: in-order
  prefix delivery, no failing check, the completion barrier, nothing left queued by a process that leaves, the clock
  readings in the frames that arrive, slot ownership and capacity, a decreasing measure, absence of deadlock, completion.
* **Receive caches and retried sends** (`Endpoint`). The driver is an oracle, so the contracts hold for all batchings.
* **The shared-memory ring** (`Spsc*`). The single-producer single-consumer channel, one access at a time to the
  cursors and to the fields of a slot, with 64-bit cursors that wrap. Each access is one operation of a bounded first-in first-out queue (`StepRefines`), which is
  what the chain takes a channel for.
* **Frames** (`Frames`, `Payload`, `Completion`). The stage state machine, its validators, the deterministic payload
  and its checksum, the completion records.
* **The segment** (`Bits`, `Arithmetic`, `Layout`, `Slab`, `Manifest`). Overflow-checked layout against what the slab
  allocator needs, the order of stores during setup, and the two manifest validators against each other. `Deployment`
  joins this to the running pipeline.
* **JSON** (`Json*`, `Results`). The recursive-descent recogniser against syntax trees for RFC 8259, which are unique; the
  data a text denotes; the escaper; and the result writer against both the recogniser and the data.
* **Arithmetic** (`Crc`, `Percentiles`, `Subscriber`, `RunOrder`).

## What the proofs found

* A result file can be unreadable for the repository's own parser. `WriteSinkResult` embeds `backend_details` one level
  down after checking them at the top level, so details that nest exactly 64 deep pass the check and push the file
  past the parser's bound. `ResultAcceptedIff` gives the exact condition, `DetailsAtTheBound` the failing family. A
  worker's own endpoints never reach it (`TcpWorkerResultsAreReadable`).
* Full bridge validation reuses the same-host stage check, so it demands timestamp order even with independent host
  clocks, against the comment on that mode in `pipeline_common.h`. `FullOnIndependentHosts` gives the exact condition.
  The run theorems therefore take full validation only on one host; the hybrid runner always asks for structural
  validation.
* The stress subscriber can report a success that was none when a message carries sequence number 2^64 - 1: its 64-bit
  counters wrap, or the correction on a timeout hides the wrap. `SuccessIsExactIff` gives the exact condition.
* The ring's drop-oldest policy claims the cursor with a compare-and-swap, but the consumer advances it with a plain
  store after a separate load. A claim in between can lose a later message for good (`StaysLost`), although the class
  comment says a late acknowledgement can never retire a recycled slot. `DropGoesWrongIff` gives the exact moments, and
  `HarmfulDropHappens` a run that reaches one. The pipelines block when a channel is full and never drop.
* The bridge's manifest validator takes the slot count from the manifest, so it accepts segments with fewer slots than
  the pipeline needs, down to one per class (`BridgeAcceptsOtherSlotCounts`). `BridgeImpliesPipelineIff` gives the exact
  condition for the two validators to agree.

## Model

| member | source | states |
|---|---|---|
| `ChainInvariant.ReceiveKeeps` | benchmarks/pipeline_comparison/mino_tcp_pipeline.cc:671-697 | a node that takes the next frame off its lane keeps every local invariant: the frame it meets is always the one it expects |
| `ChainInvariant.LocalStepKeeps` | benchmarks/pipeline_comparison/mino_tcp_pipeline.cc:1041-1159 | every step of a process or of the driver keeps the invariants of the node and of the two lanes beside it |
| `ChainRuns.StepKeepsAllOk` | benchmarks/pipeline_comparison/mino_tcp_pipeline.cc:1041-1159 | one step anywhere keeps the invariants of all nodes and all lanes |
| `ChainRuns.StepKeepsSlots` | benchmarks/pipeline_comparison/mino_shm_pipeline.cc:993-1114 | one step anywhere keeps the ownership account: the allocated slots of each class are exactly those of the graphs a process holds, a channel queues, or a reader has acknowledged and not yet reclaimed |
| `ChainRuns.RunKeepsInv` | benchmarks/pipeline_comparison/mino_tcp_pipeline.cc:1041-1159 | every state of every interleaving satisfies the whole invariant |
| `ChainTheorems.DeliversPrefix` | benchmarks/pipeline_comparison/mino_tcp_pipeline.cc:671-697 | in every state of every run each process has accepted 0, 1, 2, ... in order; what canbus has is a prefix of what any earlier process has, and no process is ahead of what perception sent |
| `ChainTheorems.NoValidationFailure` | benchmarks/pipeline_comparison/mino_tcp_pipeline.cc:960-1031 | in no run does a sequence, phase, header or stage check fail, nor the bridge's comparison of header timestamp and origin, nor the sink's completion-time check; a process can only end early by an expired deadline |
| `ChainTheorems.CompletionBarrier` | benchmarks/pipeline_comparison/mino_tcp_pipeline.cc:897-934 | a node that has taken a completion has behind it, across all acknowledged links, only nodes that accepted every frame and forwarded every frame, with nothing in flight between |
| `ChainTheorems.LeavesNothingQueued` | benchmarks/pipeline_comparison/mino_tcp_pipeline.cc:909-919 | in every run a process that has left, perception and the bridges included, has nothing in its send queues: its completion is on its way, everything it sent was taken, and its driver has no step to make any more |
| `ChainTheorems.NothingOverflows` | benchmarks/pipeline_comparison/mino_tcp_pipeline.cc:853-895 | no send queue, ready queue, receive cache or channel ever holds more than its configured capacity or batch size |
| `ChainTheorems.AcceptsExactlyGenuine` | benchmarks/pipeline_comparison/mino_tcp_pipeline.cc:671-697 | whatever arrives in whatever state, a role takes the frame if and only if it is addressed to it and is, field by field, the next sample as that role may receive it at a reading that may stamp it; anything else ends the process and leaves its log alone |
| `ChainFrames.RunTraced` | benchmarks/pipeline_comparison/mino_tcp_pipeline.cc:1041-1159 | in every state of every run each process holds, and each lane carries, exactly what the process before it made of the frames it accepted, in order |
| `ChainFrames.Provenance` | benchmarks/pipeline_comparison/mino_tcp_pipeline.cc:960-1031 | the frame a process accepts as sample j is the source frame of sample j with, for every stage before it, the clock reading that stage took when it accepted sample j, and zero for the stages to come |
| `ChainFrames.CanbusSeesReadings` | benchmarks/pipeline_comparison/mino_tcp_pipeline.cc:1107-1125 | what canbus accepts as sample j is the source frame of that sample, complete, with each role's own reading in its stamp; no role is left out |
| `ChainRuns.AcknowledgeKeepsSlots` | mino/runtime/subscriber.h:276-289 | acknowledging a borrowed graph frees its channel position and no slot: the reader still owns the graph |
| `ChainRuns.ReclaimFreesSlots` | mino/runtime/subscriber.h:276-289 | reclaiming an acknowledged graph frees exactly its root and its payload slot |
| `ChainTheorems.SlotsSuffice` | benchmarks/pipeline_comparison/mino_shm_pipeline.cc:237-247 | in every run the live message graphs of a segment stay within one slot per channel position, one per producer and one per reader that borrows, which is within the slots of their class |
| `ChainTheorems.OwnersAreDistinct` | benchmarks/pipeline_comparison/mino_shm_pipeline.cc:993-1065 | no slot ever has two owners among holders, channel positions and readers still reclaiming, and a slot is allocated exactly when it has one |
| `ChainTheorems.AllocationNeverExhausted` | benchmarks/pipeline_comparison/mino_shm_pipeline.cc:962-975 | a publisher that needs a message graph always finds a free root slot and a free payload slot, even while every borrowing reader has freed its channel position and not yet its graph |
| `ChainProgress.StepLowers` | benchmarks/pipeline_comparison/mino_tcp_pipeline.cc:823-895 | every step of a process or of the driver lowers a natural-number measure of the work left; only the clock tick leaves it alone |
| `ChainProgress.RunsAreBounded` | benchmarks/pipeline_comparison/mino_tcp_pipeline.cc:1041-1159 | every run has at most processes * (6 * total + 6) steps, whatever the interleaving, the batches, the capacities and the refused sends |
| `ChainProgress.NoDeadlock` | benchmarks/pipeline_comparison/mino_tcp_pipeline.cc:699-709 | with queue capacities of at least one, every reachable unfinished state without an expired deadline has a possible step |
| `ChainProgress.MaximalRunsComplete` | benchmarks/pipeline_comparison/mino_tcp_pipeline.cc:1041-1159 | a run that cannot go on and in which no deadline expired is complete: all samples accepted in order and sent on exactly once by every process, lanes empty, no slot allocated |
| `ChainProgress.CanComplete` | benchmarks/pipeline_comparison/mino_tcp_pipeline.cc:1041-1159 | every run in which no deadline has expired can be carried on to completion |
| `Topology.TcpPipelineValid` | benchmarks/pipeline_comparison/mino_tcp_pipeline.cc:189-211 | the six roles and five edges of the TCP pipeline form a chain the general theorems apply to |
| `Topology.TcpCompletionIsEndToEnd` | benchmarks/pipeline_comparison/mino_tcp_pipeline.cc:699-709 | when perception's completion wait returns, canbus has accepted exactly samples 0 .. total-1 in order and every role between has accepted and forwarded all of them |
| `Topology.HybridPipelineValid` | benchmarks/pipeline_comparison/mino_hybrid_runner.py:278-342 | for every placement of the roles, the mixed channel/TCP chain is well formed, and its channels, producers and borrowing readers fit into 5 * capacity + 16 slots per class |
| `Topology.BridgePair` | benchmarks/pipeline_comparison/mino_hybrid_runner.py:298-340 | an edge between two hosts becomes source bridge, connection and sink bridge, each bridge on its own host's channel of that edge |
| `Topology.HybridDeliversPrefix` | benchmarks/pipeline_comparison/mino_shm_tcp_bridge.cc:1687-1780 | whatever the placement, canbus has at every moment an in-order, loss-free, duplicate-free prefix of what perception published |
| `Topology.BridgeCompletion` | benchmarks/pipeline_comparison/mino_shm_tcp_bridge.cc:1193-1243 | a source bridge that has its completion knows that its sink bridge accepted and published every frame |
| `Topology.AtMostThreeBorrow` | benchmarks/pipeline_comparison/mino_hybrid_runner.py:278-342 | under any placement at most three readers borrow from one segment, and exactly one when all roles share a host |
| `Topology.HybridSlotsSuffice` | benchmarks/pipeline_comparison/mino_shm_pipeline.cc:237-247 | in every placement and run, the graphs alive in a segment stay within 5 * capacity + 5 slots per class plus one for each reader that borrows from it: at most 5 * capacity + 8, and 5 * capacity + 6 with all roles on one host |
| `Topology.CreateBridges` | benchmarks/pipeline_comparison/mino_hybrid_runner.py:278-338 | one sink and one source bridge for each edge that crosses hosts, none for the others; the edge list says which edges those are |
| `Topology.CreateProcesses` | benchmarks/pipeline_comparison/mino_hybrid_runner.py:260-342 | each worker once, each needed bridge once, every listener before every connector before every worker, perception last |
| `Deployment.NoPublisherStarves` | benchmarks/pipeline_comparison/mino_shm_pipeline.cc:225-247 | with segments laid out as computed, every publisher of every run of every placement finds a free slot for its frame and one for its payload, each large enough for the object behind its slab header, inside the allocator and without a byte in common with any slot in use |
| `Deployment.DeploymentCompletes` | benchmarks/pipeline_comparison/mino_shm_pipeline.cc:993-1114 | every run of every placement over such segments is bounded, and ends complete unless a deadline expires |
| `Endpoint.ReceiveCache.Append` | benchmarks/pipeline_comparison/mino_tcp_pipeline.cc:880-888 | appends the payloads of the messages in front of the first one of another connection, message by message in their order, and reports whether there was none |
| `Endpoint.ServeConserves` | benchmarks/pipeline_comparison/mino_tcp_pipeline.cc:853-895 | for every batching: what was cached and what the polls handed over is, in order, what the call returns and what it leaves cached, whether it returns, expires or throws |
| `Endpoint.BadIff` | benchmarks/pipeline_comparison/mino_tcp_pipeline.cc:866-886 | a poll is bad exactly when it is an error, an empty batch, a batch above the limit, or one with a message of another connection |
| `Endpoint.ServeOutcome` | benchmarks/pipeline_comparison/mino_tcp_pipeline.cc:853-895 | a cached body is returned without a poll; with an empty cache the call expires exactly when all polls are quiet and throws exactly when the first poll that is not quiet is an error or an ill-formed batch |
| `Endpoint.ReceiveCache.Receive` | benchmarks/pipeline_comparison/mino_tcp_pipeline.cc:853-895 | the polling loop has exactly the outcome, the polls and the remaining cache of that specification; whatever wire the replies cut, it returns and keeps the next bodies of that wire in order, and returns none exactly when there is none |
| `Endpoint.MinoTcpPipeline.Receive` | benchmarks/pipeline_comparison/mino_tcp_pipeline.cc:843-895 | serves the named connection by that specification and in wire order and leaves the other connection's cache untouched; an unknown connection throws and changes nothing |
| `Endpoint.ReceiveInterleaved` | benchmarks/pipeline_comparison/mino_tcp_pipeline.cc:843-895 | any interleaving of receives has, call by call, the outcomes and polls of the specified series; what it collects per connection are the returned bodies of the calls on it, in order |
| `Endpoint.SeriesConserves` | benchmarks/pipeline_comparison/mino_tcp_pipeline.cc:843-895 | over every series of calls and on each connection, cached ++ handed over == returned ++ still cached |
| `Endpoint.SidesDoNotMix` | benchmarks/pipeline_comparison/mino_tcp_pipeline.cc:843-851 | a connection returns and keeps what it would if the calls on the other connection were left out |
| `Endpoint.WireOrder` | benchmarks/pipeline_comparison/mino_tcp_pipeline.cc:853-895 | however the driver cuts the bodies w[0], w[1], ... of a connection into non-empty batches within the limit and quiet polls, and however the polls fall on the calls of both connections, the connection returns a prefix of w, and all of w after enough calls |
| `Endpoint.NoneThrows` | benchmarks/pipeline_comparison/mino_tcp_pipeline.cc:866-886 | no call on a connection whose driver does so throws |
| `Endpoint.BatchingIsInvisible` | benchmarks/pipeline_comparison/mino_shm_tcp_bridge.cc:1379-1422 | two series fed the same wire with any batches, limits, timing and interleavings return prefixes of it: equal bodies for equally many, one a prefix of the other otherwise |
| `Endpoint.SameAsOneAtATime` | benchmarks/pipeline_comparison/mino_tcp_pipeline.cc:853-895 | for every batching of what the peer sent, a connection returns what one-at-a-time delivery returns |
| `Endpoint.SendQueue.Send` | benchmarks/pipeline_comparison/mino_tcp_pipeline.cc:823-841 | retries queue the body exactly once or not at all; it is queued if and only if the driver admits it before failing or consuming it (an empty body survives no retry) |
| `Frames.ValidateSemanticFrame` | benchmarks/pipeline_comparison/pipeline_common.cc:670-721 | accepts exactly the frames whose business fields, payload and checksum are those of their sample id |
| `Frames.ValidateTimestamps` | benchmarks/pipeline_comparison/pipeline_common.cc:786-804 | accepts exactly when the completed stages and no others carry a timestamp and, on one host, the timestamps never go back |
| `Frames.ValidateFrameForStage` | benchmarks/pipeline_comparison/pipeline_common.cc:807-837 | accepts exactly the frames the role may receive on one host |
| `Frames.ValidateBridgeTransitFrame` | benchmarks/pipeline_comparison/pipeline_common.cc:739-805 | accepts exactly the structurally valid frames, in both clock modes |
| `Frames.ValidateSampleAndPhase` | benchmarks/pipeline_comparison/mino_shm_tcp_bridge.cc:1475-1503 | accepts exactly the frames that pass phase, profile, semantic and same-host stage validation |
| `Frames.FrameCell.ApplyStageSameHost` | benchmarks/pipeline_comparison/pipeline_common.cc:846-889 | stamps the frame exactly when the stage is allowed: the reading goes into that role's stamp, the role's bit into the mask, nothing else changes; a refusal, and canbus, leave the frame unchanged |
| `Frames.FrameCell.ApplyStageIndependentHosts` | benchmarks/pipeline_comparison/pipeline_common.cc:911-959 | the same without comparing timestamps of different hosts |
| `Frames.MaskAdvances` | benchmarks/pipeline_comparison/pipeline_common.cc:503-542 | applying a role's bit gives the mask its successor expects |
| `Frames.MaskDeterminesRole` | benchmarks/pipeline_comparison/pipeline_common.cc:527-542 | no two roles expect the same mask |
| `Frames.SourceFrameAcceptable` | benchmarks/pipeline_comparison/pipeline_common.cc:658-668 | a source frame is one perception accepts, whatever its sample, profile, origin and clock mode |
| `Frames.StageHandsOver` | benchmarks/pipeline_comparison/pipeline_common.cc:846-881 | a stamped frame is one the next role accepts |
| `Frames.AttemptSucceedsIff` | benchmarks/pipeline_comparison/pipeline_common.cc:846-909 | on a frame waiting for a role, an attempt succeeds if and only if that role makes it with a non-zero reading that, on one host, is not before the previous timestamp |
| `Frames.SuccessesFormTheChain` | benchmarks/pipeline_comparison/pipeline_common.cc:883-909 | whatever stages are attempted on a source frame in whatever order, exactly the calls succeed that are due, so the successful roles are perception, prediction, ... without skip, repeat or swap; stamp i is the reading of the i-th successful call and zero beyond, all other fields are those of the source frame |
| `Frames.FullIsStructuralPlusSemantic` | benchmarks/pipeline_comparison/mino_shm_tcp_bridge.cc:1475-1538 | on one host full bridge validation accepts if and only if structural and semantic validation both do |
| `Frames.FullOnIndependentHosts` | benchmarks/pipeline_comparison/mino_shm_tcp_bridge.cc:1475-1538 | with independent clocks full validation is structural and semantic validation plus the timestamp order that mode promises not to demand |
| `Frames.FullRefusesIndependentClocks` | benchmarks/pipeline_comparison/mino_shm_tcp_bridge.cc:1475-1538 | a frame legal in independent-host mode that full validation refuses |
| `Payload.ProfileFromWire` | benchmarks/pipeline_comparison/pipeline_common.cc:61-68 | recognises exactly the wire values of the profiles and inverts them |
| `Payload.FillDeterministicPayload` | benchmarks/pipeline_comparison/pipeline_common.cc:585-594 | fills in the deterministic payload of the sample |
| `Payload.StablePayloadChecksum` | benchmarks/pipeline_comparison/pipeline_common.cc:603-610 | computes FNV-1a |
| `Payload.FnvOfA` | benchmarks/pipeline_comparison/pipeline_common.cc:603-610 | the checksum of the letter a is the value published with FNV-1a |
| `Payload.InspectDeterministicPayload` | benchmarks/pipeline_comparison/pipeline_common.cc:617-630 | one pass gives the FNV-1a checksum and the least index whose byte is wrong, or none when all are right |
| `Payload.PrimeInvertible` | benchmarks/pipeline_comparison/pipeline_common.cc:603-610 | multiplication by the FNV prime modulo 2^64 loses nothing |
| `Payload.FnvDetectsOneByte` | benchmarks/pipeline_comparison/pipeline_common.cc:603-610 | changing exactly one byte always changes the checksum |
| `Completion.StoreU64` | benchmarks/pipeline_comparison/mino_shm_tcp_bridge.cc:1015-1020 | writes eight big-endian bytes in place and leaves the rest |
| `Completion.LoadU64` | benchmarks/pipeline_comparison/mino_shm_tcp_bridge.cc:1022-1028 | reads the value whose big-endian bytes stand there |
| `Completion.ValueOfBigEndian` | benchmarks/pipeline_comparison/mino_tcp_pipeline.cc:605-623 | decoding inverts encoding |
| `Completion.BigEndianOfValue` | benchmarks/pipeline_comparison/mino_tcp_pipeline.cc:605-623 | encoding inverts decoding |
| `Completion.AcceptCompletion` | benchmarks/pipeline_comparison/mino_shm_tcp_bridge.cc:1218-1243 | accepts exactly a record of the right size with every field as expected |
| `Completion.AcceptsExactlyItsRecord` | benchmarks/pipeline_comparison/mino_tcp_pipeline.cc:922-934 | a completion is accepted if and only if it is, byte for byte, the record the peer of this run sends |
| `Bits.PowerOfTwoTest` | benchmarks/pipeline_comparison/mino_shm_pipeline.cc:178-184 | the test a & (a - 1) == 0 recognises exactly the powers of two (and zero) |
| `Bits.MaskRoundsDown` | benchmarks/pipeline_comparison/mino_shm_pipeline.cc:178-184 | masking with the complement of alignment - 1 is rounding down to a multiple |
| `Arithmetic.CheckedAdd` | benchmarks/pipeline_comparison/mino_shm_pipeline.cc:161-167 | the sum when it fits into 64 bits, a failure exactly when it does not |
| `Arithmetic.CheckedMultiply` | benchmarks/pipeline_comparison/mino_shm_pipeline.cc:169-176 | the product when it fits, a failure exactly when it does not |
| `Arithmetic.CheckedAlignUp` | benchmarks/pipeline_comparison/mino_shm_pipeline.cc:178-184 | the least multiple not below the value; fails exactly when the alignment is no power of two or the padding wraps |
| `Arithmetic.UpIsLeast` | benchmarks/pipeline_comparison/mino_shm_pipeline.cc:178-184 | what is called rounding up is the least aligned value not below |
| `Layout.PlaceChannels` | benchmarks/pipeline_comparison/mino_shm_pipeline.cc:320-327 | five channels of one size back to back, or a failure exactly when their end does not fit into 64 bits |
| `Layout.ComputeSegmentLayout` | benchmarks/pipeline_comparison/mino_shm_pipeline.cc:225-349 | the overflow-checked arithmetic computes exactly the unbounded layout and fails exactly when no layout exists; every slot of the allocator then takes a slab header with a frame or a payload, inside the extent, aligned, and no two slots overlap |
| `Layout.StrideIsLeast` | benchmarks/pipeline_comparison/mino_shm_pipeline.cc:281-287 | the slot stride is the least multiple of 64 that holds the slab header and an object of either class |
| `Layout.SlotsTakeObjects` | benchmarks/pipeline_comparison/mino_shm_pipeline.cc:281-293 | for every environment, profile, capacity and slot: aligned, behind the metadata, inside the allocator extent, large enough for either object, and apart from every other slot |
| `Slab.IndicesDiffer` | mino/shm/allocator/class_table.cc:50-90 | slots of all classes are numbered apart, below the total, and every class begins with a word of the bitmap |
| `Slab.MetadataHolds` | mino/shm/allocator/central_slab.cc:184-208 | superblock, descriptors, bitmap, generations and draining flags follow each other aligned and without overlap, with room for every class and every slot, in front of the slots |
| `Slab.GenerationsFollowTheBitmap` | mino/shm/allocator/central_slab.cc:304-322 | setting up leaves out an alignment that the size computation has, and that changes nothing |
| `Slab.ObjectsFit` | mino/shm/allocator/central_slab.cc:203-206 | for every class table with increasing sizes, an object of any class fits behind the header of any slot |
| `Slab.ExtentIsRequired` | mino/shm/allocator/central_slab.cc:184-216 | the extent the pipeline sets aside is, to the byte, what the allocator computes from its own class table |
| `Slab.ChannelHolds` | mino/shm/channel/spsc_channel.h:194-196 | a channel extent holds the control block and one index slot per position, apart from each other |
| `Slab.JournalHolds` | mino/runtime/allocation_journal.cc:106-141 | a journal extent holds its control and one record per transaction, apart from each other |
| `Manifest.Segment.Setup` | benchmarks/pipeline_comparison/mino_shm_pipeline.cc:684-733 | every state of the segment before the last store is refused by both validators for every profile, capacity and size; the last state has everything initialised, carries the one manifest the pipeline accepts, and is accepted by the bridge; setup fails exactly when no layout or no class table exists |
| `Manifest.ClassesStayApart` | mino/shm/allocator/class_table.cc:36-108 | the two size classes can be created exactly when a frame is smaller than a payload, and then frames and payloads never share a class |
| `Manifest.RangeWithin` | benchmarks/pipeline_comparison/mino_shm_tcp_bridge.cc:557-562 | accepts exactly the non-empty aligned ranges whose unbounded end lies inside |
| `Manifest.ValidateManifestByBridge` | benchmarks/pipeline_comparison/mino_shm_tcp_bridge.cc:576-656 | accepts exactly the manifests whose regions tile the segment and whose sizes are the required ones |
| `Manifest.BridgeAcceptedIsSound` | benchmarks/pipeline_comparison/mino_shm_tcp_bridge.cc:576-656 | bridge acceptance alone gives header, allocator, journal, pin table and five channels that are aligned, non-empty, pairwise disjoint and inside the segment with no wrapped end |
| `Manifest.PipelineRangeWithin` | benchmarks/pipeline_comparison/mino_shm_pipeline.cc:497-502 | accepts exactly the aligned ranges, possibly empty, whose unbounded end lies inside |
| `Manifest.ValidateManifestByPipeline` | benchmarks/pipeline_comparison/mino_shm_pipeline.cc:504-582 | accepts exactly one manifest: the published one of the layout the worker computes itself |
| `Manifest.CanonicalBridgeAccepted` | benchmarks/pipeline_comparison/mino_shm_tcp_bridge.cc:576-656 | every manifest built from a layout passes the bridge's validator, given a pin table of non-zero size |
| `Manifest.PipelineImpliesBridge` | benchmarks/pipeline_comparison/mino_shm_tcp_bridge.cc:576-656 | pipeline acceptance implies bridge acceptance and at least 5 * capacity + 16 slots per class |
| `Manifest.BridgeImpliesPipelineIff` | benchmarks/pipeline_comparison/mino_shm_tcp_bridge.cc:576-656 | the converse holds if and only if the slot count and the allocator extent, which the bridge takes from the manifest, are the computed ones and the size limit holds |
| `Manifest.BridgeAcceptsOtherSlotCounts` | benchmarks/pipeline_comparison/mino_shm_tcp_bridge.cc:576-656 | for every profile, capacity and wrong slot count, down to one slot per class, a manifest the bridge accepts and the pipeline refuses |
| `JsonParsing.JsonParser.SkipWhitespace` | benchmarks/pipeline_comparison/pipeline_common.cc:191-200 | stops at the first byte that is no white space |
| `JsonParsing.JsonParser.ParseString` | benchmarks/pipeline_comparison/pipeline_common.cc:268-297 | consumes exactly one string of the grammar or fails |
| `JsonParsing.JsonParser.ParseNumber` | benchmarks/pipeline_comparison/pipeline_common.cc:305-353 | consumes exactly one number of the grammar or fails |
| `JsonParsing.JsonParser.ParseValue` | benchmarks/pipeline_comparison/pipeline_common.cc:211-224 | agrees with the recogniser on success and on the end position, and terminates |
| `JsonParsing.JsonParser.ParseObject` | benchmarks/pipeline_comparison/pipeline_common.cc:226-246 | the member loop agrees with the recogniser |
| `JsonParsing.JsonParser.ParseArray` | benchmarks/pipeline_comparison/pipeline_common.cc:248-266 | the item loop agrees with the recogniser |
| `JsonParsing.JsonParser.ParseObjectDocument` | benchmarks/pipeline_comparison/pipeline_common.cc:177-358 | terminates on every text and accepts exactly the texts that are one JSON object nesting no deeper than 64 |
| `JsonTheorems.AcceptsExactlyObjects` | benchmarks/pipeline_comparison/pipeline_common.cc:181-186 | the recogniser is sound and complete for the grammar of sections 2 and 4 to 7 of RFC 8259 with nesting at most 64 |
| `JsonTheorems.AcceptsByDepth` | benchmarks/pipeline_comparison/pipeline_common.cc:187-226 | a text of the grammar is accepted if and only if its depth is at most 64, whichever tree it is read by |
| `JsonTheorems.ValueSound` | benchmarks/pipeline_comparison/pipeline_common.cc:211-224 | every accepted value has a syntax tree with exactly the consumed text and a permitted depth |
| `JsonTheorems.ValueComplete` | benchmarks/pipeline_comparison/pipeline_common.cc:211-224 | the text of every permitted tree is consumed exactly |
| `JsonTheorems.ValueTooDeep` | benchmarks/pipeline_comparison/pipeline_common.cc:211-212 | the text of a tree that is too deep is refused |
| `JsonUnique.DocumentUnique` | benchmarks/pipeline_comparison/pipeline_common.cc:181-186 | no text has two syntax trees |
| `JsonMeaning.ReadingDecides` | benchmarks/pipeline_comparison/pipeline_common.cc:181-186 | so a text says one thing only: every reading by the grammar gives the same data |
| `JsonMeaning.DecimalSays` | benchmarks/pipeline_comparison/pipeline_common.cc:1354-1400 | a written count is a number whose value, digit by digit, is the count |
| `JsonMeaning.StringSays` | benchmarks/pipeline_comparison/pipeline_common.cc:1203-1226 | an escaped string denotes the characters of the input |
| `JsonMeaning.ClassesByCode` | benchmarks/pipeline_comparison/pipeline_common.cc:191-353 | white space, digits, escapes and plain characters are the codes that RFC 8259 lists, and each short escape denotes the code it lists |
| `JsonMeaning.HexSaysEveryCode` | benchmarks/pipeline_comparison/pipeline_common.cc:285-293 | every 16-bit code has an escape in upper-case and in lower-case digits, and it denotes that code |
| `JsonMeaning.UnescapeAgrees` | benchmarks/pipeline_comparison/pipeline_common.cc:268-297 | reading a string character by character gives the codes of its pieces |
| `JsonMeaning.ObjectSays` | benchmarks/pipeline_comparison/pipeline_common.cc:1354-1400 | an object written field by field says each field's data under its key, in order, and nothing more |
| `JsonText.JsonEscape` | benchmarks/pipeline_comparison/pipeline_common.cc:1203-1226 | the output between quotes is consumed exactly as one string and unescapes to the input |
| `JsonText.UnescapeInverts` | benchmarks/pipeline_comparison/pipeline_common.cc:1203-1226 | unescaping inverts escaping for every input |
| `JsonText.ObjectTextReads` | benchmarks/pipeline_comparison/pipeline_common.cc:1354-1400 | an object written field by field is an object of the grammar, one level deeper than its deepest value |
| `Results.Trim` | benchmarks/pipeline_comparison/pipeline_common.cc:163-175 | strips exactly the white space at both ends |
| `Results.CountFailure` | benchmarks/pipeline_comparison/pipeline_common.cc:468-477 | reports a failure exactly when some count is wrong |
| `Results.EffectiveOutcome` | benchmarks/pipeline_comparison/pipeline_common.cc:1311-1338 | success if and only if nothing speaks against the result; the given error is kept in front, refused details and a bad throughput are named, and nothing is added when nothing is wrong |
| `Results.WriteSinkResult` | benchmarks/pipeline_comparison/pipeline_common.cc:1305-1402 | for every result the text is one JSON object that says, to whoever reads it by the grammar, the data of the result each under its own name, with the effective outcome; the repository's parser reads it back if and only if the details are refused or nest at most 63 deep |
| `Results.ResultSays` | benchmarks/pipeline_comparison/pipeline_common.cc:1354-1400 | configuration, clock, counts, latencies, sizes, names, outcome, error and details are found with their values under their keys |
| `Results.ResultFound` | benchmarks/pipeline_comparison/pipeline_common.cc:1354-1400 | looking up each top-level key of a result gives that field of it |
| `Results.CountsFound` | benchmarks/pipeline_comparison/pipeline_common.cc:1376-1382 | looking up each key of the counts gives that count |
| `Results.LatencyFound` | benchmarks/pipeline_comparison/pipeline_common.cc:1383-1389 | looking up each key of the latencies gives that percentile |
| `Results.ConfigurationFound` | benchmarks/pipeline_comparison/pipeline_common.cc:1358-1372 | looking up each key of the configuration gives that option |
| `Results.ClockFound` | benchmarks/pipeline_comparison/pipeline_common.cc:1373-1375 | looking up each key of the clock gives that property of the host |
| `Results.ResultAcceptedIff` | benchmarks/pipeline_comparison/pipeline_common.cc:1305-1402 | the exact condition under which the written result is within the parser's own depth bound |
| `Results.DetailsAtTheBound` | benchmarks/pipeline_comparison/pipeline_common.cc:1309-1310 | details 64 deep are accepted on their own and make the written result unreadable, whatever else it holds |
| `Results.BuildMinoTcpBackendDetails` | benchmarks/pipeline_comparison/pipeline_common.cc:1261-1299 | fails exactly on malformed endpoints or a batch size outside 1 .. 64; the details say the data of the connection and the endpoints, and are readable if and only if the endpoints nest at most 63 deep |
| `Results.EndpointsToResult` | benchmarks/pipeline_comparison/pipeline_common.cc:1261-1402 | over both embeddings, endpoints exactly 63 deep are the only ones whose result is unreadable |
| `Results.TcpWorkerResultsAreReadable` | benchmarks/pipeline_comparison/mino_tcp_pipeline.cc:718-740 | the endpoints a TCP worker builds itself are flat, so its results are always readable |
| `SpscInvariant.StepKeeps` | mino/shm/channel/spsc_channel.h:406-649 | every memory access of producer and consumer keeps the ring invariant, a claim of the oldest message where it is harmless; the not-ready, sequence-mismatch and corruption branches are then never taken |
| `SpscInvariant.SlotsDiffer` | mino/shm/channel/spsc_channel.h:483-490 | positions less than a capacity apart use different slots, also across the wrap of the 64-bit cursors |
| `SpscInvariant.FullIsExact` | mino/shm/channel/spsc_channel.h:410-416 | the wrapping subtraction finds the ring full exactly when a capacity of messages is in it |
| `SpscTheorems.Fifo` | mino/shm/channel/spsc_channel.h:406-649 | in every interleaving whose drops are harmless (all of them, without the drop-oldest policy), what was acknowledged followed by what is queued is what was committed and not dropped: each position once, in order, never more than the capacity |
| `SpscTheorems.StepRefines` | mino/shm/channel/spsc_channel.h:406-649 | every access is one operation of a bounded first-in first-out queue: nothing, appending the committed message when there is room, taking off the head, or discarding the head; a message is delivered exactly when it is taken off |
| `SpscTheorems.RefusedWhenFull` | mino/shm/channel/spsc_channel.h:410-421 | a reservation can be refused exactly when the ring was full at its check |
| `SpscTheorems.EmptyWhenEmpty` | mino/shm/channel/spsc_channel.h:600-607 | a poll can report an empty ring exactly when there was nothing in it at its load of the producer cursor |
| `SpscTheorems.PollFinds` | mino/shm/channel/spsc_channel.h:598-649 | whatever the producer is doing, a consumer that polls borrows the oldest queued message, past any tombstones |
| `SpscTheorems.AckDelivers` | mino/shm/channel/spsc_channel.h:815-834 | acknowledging the borrowed head delivers it and takes it off the queue |
| `SpscTheorems.LateAck` | mino/shm/channel/spsc_channel.h:824-834 | acknowledging a borrow whose message was dropped leaves the ring as it is |
| `SpscDrops.DropGoesWrongIff` | mino/shm/channel/spsc_channel.h:437-462 | claiming the oldest message can be followed by a run in which a message is lost, or the acknowledged messages are not in order those published and not dropped, with every later drop harmless, if and only if the claim is not harmless |
| `SpscDrops.HarmfulDropHappens` | mino/shm/channel/spsc_channel.h:437-462 | for every capacity, a run from the new ring without any drop reaches such a claim, between the comparison and the stores of an acknowledgement, and goes wrong from there |
| `SpscDrops.HarmlessIsNotFatal` | mino/shm/channel/spsc_channel.h:437-462 | after a harmless claim no run with harmless drops goes wrong |
| `SpscDrops.StaysLost` | mino/shm/channel/spsc_channel.h:598-649 | whatever producer and consumer do without another drop, the consumer never passes a lost message and never acknowledges it |
| `SpscDrops.LoadedLoses` | mino/shm/channel/spsc_channel.h:598-607 | a claim behind a Poll that has loaded its cursor: a run that loses the next message |
| `SpscDrops.PollingLoses` | mino/shm/channel/spsc_channel.h:598-610 | the same behind a Poll that has found the ring not empty |
| `SpscDrops.LookedLoses` | mino/shm/channel/spsc_channel.h:610-637 | the same behind a Poll that has seen the oldest slot ready or a tombstone |
| `SpscDrops.MatchedLoses` | mino/shm/channel/spsc_channel.h:632-646 | the same behind a Poll between the sequence check and the copy: the copy takes a new stamp with an old checksum |
| `SpscDrops.AckLoses` | mino/shm/channel/spsc_channel.h:815-834 | the same behind an Ack that has compared the cursor |
| `SpscDrops.BehindLeavingLoses` | mino/shm/channel/spsc_channel.h:815-819 | the same behind a consumer whose cursor store a claim has already overtaken: the store puts the cursor back |
| `SpscDrops.LeavingLoses` | mino/shm/channel/spsc_channel.h:815-819 | behind a consumer about to store its cursor, two claims lose a message |
| `SpscDrops.LeavingGoesWrong` | mino/shm/channel/spsc_channel.h:815-819 | behind an Ack about to store its cursor, one claim leaves a message dropped and acknowledged |
| `SpscDrops.TurnBehindGoesWrong` | mino/shm/channel/spsc_channel.h:824-834 | behind a borrow a whole turn of the 64-bit words old, its late Ack passes for the oldest message's |
| `Crc.Crc32c` | benchmarks/storage_partition_benchmark.cc:108-118 | the byte-wise loop computes the bit-by-bit checksum |
| `Crc.StepInjective` | benchmarks/storage_partition_benchmark.cc:112-115 | the bit step loses nothing |
| `Crc.StepLinear` | benchmarks/storage_partition_benchmark.cc:112-115 | the bit step is linear over the 32-bit state |
| `Crc.StepTimesX` | benchmarks/storage_partition_benchmark.cc:112-115 | one step multiplies the state by x modulo the Castagnoli polynomial, given by its exponents |
| `Crc.CheckValue` | benchmarks/storage_partition_benchmark.cc:108-118 | the checksum of the digits 1 to 9 is the published check value 0xE3069283 |
| `Crc.RunLinear` | benchmarks/storage_partition_benchmark.cc:110-116 | the difference of two runs is the run of the difference |
| `Crc.BurstDetected` | benchmarks/storage_partition_benchmark.cc:108-118 | two messages of equal length whose differing bits lie within 32 consecutive bits always have different checksums |
| `Crc.FourByteErrorDetected` | benchmarks/storage_partition_benchmark.cc:108-118 | messages of equal length that differ only within four consecutive bytes always have different checksums |
| `Percentiles.Summarize` | benchmarks/pipeline_comparison/pipeline_common.cc:1185-1201 | each percentile is the least sample with at least that fraction of the samples at or below it, the maximum is the largest sample, and the five are in order |
| `Percentiles.NearestRankOf` | benchmarks/pipeline_comparison/pipeline_common.cc:1190-1194 | the integer rank formula picks the nearest-rank sample |
| `Percentiles.NearestRankMonotone` | benchmarks/pipeline_comparison/pipeline_comparison_runner.py:752-763 | nearest-rank percentiles are monotone in the fraction, as the runner demands |
| `Percentiles.PercentileNs` | examples/simple_mp_pubsub_stress.cc:173-180 | the sample at the example's index in sorted order |
| `Percentiles.IndexNearRank` | examples/simple_mp_pubsub_stress.cc:176-178 | the example's index is the nearest rank's or the one before it, and which of the two is decided by one comparison |
| `Percentiles.PercentileBelowNearestRank` | examples/simple_mp_pubsub_stress.cc:173-180 | the example's percentile is never above the nearest-rank value and at most one rank below it |
| `Subscriber.RunSub` | examples/simple_mp_pubsub_stress.cc:203-296 | success is reported exactly on the streams described by Succeeds; it is reported whenever all payloads arrive as published and, without wrap-around, only then; without wrap-around received + lost accounts for every message |
| `Subscriber.FillPayload` | examples/simple_mp_pubsub_stress.cc:114-121 | fills the buffer in place with origin, sequence number and pattern |
| `Subscriber.PayloadMatches` | examples/simple_mp_pubsub_stress.cc:123-130 | accepts exactly the payloads whose every byte behind the header is the pattern of the number |
| `Subscriber.FilledReads` | examples/simple_mp_pubsub_stress.cc:114-130 | the subscriber reads back the published number and finds the payload matching |
| `Subscriber.MatchingIsFilled` | examples/simple_mp_pubsub_stress.cc:114-130 | a payload that matches its own number is what the publisher fills in for it |
| `Subscriber.PatternTellsApart` | examples/simple_mp_pubsub_stress.cc:114-130 | the pattern of one number matches no number that differs in its lowest byte |
| `Subscriber.DeliveredSucceeds` | examples/simple_mp_pubsub_stress.cc:203-296 | all messages arriving as published is a success |
| `Subscriber.ExactSucceeds` | examples/simple_mp_pubsub_stress.cc:203-296 | exact delivery of usable messages is a success |
| `Subscriber.SuccessIsExactIff` | examples/simple_mp_pubsub_stress.cc:217-258 | a reported success brought every payload byte for byte as published, each once and in order, if and only if no accepted message carried sequence number 2^64 - 1 |
| `Subscriber.WrappedSuccesses` | examples/simple_mp_pubsub_stress.cc:217-224 | two streams that are not exact and are reported as successes |
| `RunOrder.BackendOrder` | benchmarks/pipeline_comparison/pipeline_comparison_runner.py:324-343 | refuses exactly the documented inputs and otherwise returns a permutation of the backends |
| `RunOrder.EachPositionOnce` | benchmarks/pipeline_comparison/pipeline_comparison_runner.py:341-343 | over any k consecutive rounds of k backends, every backend holds every position exactly once |

## Left out

- Endpoint.MinoTcpPipeline.Receive: the deadline is the end of the list of replies; clock arithmetic (`RemainingMs`) and sleeping are not modelled.
- Endpoint.SendQueue.Send: the driver's queue is a sequence; its byte limits appear as busy replies only.
- Chain runs: a send, a receive, an allocation or a poll is one atomic step. An acknowledgement is two: it frees the channel position, and later the graph; the root and the payload slot of a graph are freed together. The code inside the TCP driver, the slab allocator, the journal, the pin table, the canonical codec and the wire-frame codec is not modelled and counts as a bounded first-in first-out queue, a set of slots, or a lossless encoding.
- Chain runs: canbus compares its completion time with the origin in the same step as its receive; over shared memory the code acknowledges the graph in between.
- ChainTheorems.AcceptsExactlyGenuine: of the wire header only edge, run and sequence number are modelled; frame type, message type and schema fields are the same for every frame of a run.
- Chain runs: an expired deadline is a step that may stop a process at any time; what a stopped process leaves behind for recovery is not modelled.
- Completion.AcceptCompletion: only the record inside the acknowledgement frame is modelled, not the frame's own header (type, flags, identity, sequence number).
- Frames.FrameCell.ApplyStageIndependentHosts: models the stage of `pipeline_common.cc`, which refuses a clock reading of zero; the TCP worker's own variant for independent hosts does not refuse it. The clock readings of the chain are never zero.
- Frames.ValidateSemanticFrame: floating-point fields are exact reals determined by the sample id; rounding is not modelled.
- Slab.MetadataHolds: the slab allocator is modelled as far as its layout goes; allocation itself is a set of slots in the chain.
- Layout.ComputeSegmentLayout: the sizes of the generated frame, of the pin table and of a page are parameters of the environment.
- Manifest.Segment.Setup: of the components' initialisation only the class table can fail; the states of the segment are those between stores; hardware reordering of stores is not modelled.
- Spsc: accesses take effect one after the other, and a payload is written, sealed or copied out in a single step, where the code works word by word; the acquire and release orders of the C++ atomics are not modelled. The checksum of a slot stands for the data it covers. `PollAtOffset` and crash inspection are left out.
- JsonParsing.JsonParser.ParseNumber: split into three methods for whole part, fraction and exponent, which the original has inline.
- JsonParsing.JsonParser.ParseObject: one member is read by a method of its own, which the original has inline.
- Results.WriteSinkResult: the printed form of the throughput, the clock data and the boot id are parameters; the throughput text is taken to be a JSON number. Writing the file and the computation of a missing throughput are left out.
- Results.BuildMinoTcpBackendDetails: the compilation mode is a parameter without characters that need escaping.
- Percentiles.Summarize: sorting is on values, not in place; the rank is computed over unbounded integers, which agrees with 64 bits for fewer than 2^54 samples.
- Percentiles.PercentileNs: sorting is on values, not in place; the percentage is not negative.
- Subscriber.RunSub: the count of received messages does not wrap, which would take 2^64 polls in 90 seconds; the latency list and the printed rates are left out.
- RunOrder.BackendOrder: the seeded shuffle is a parameter known to be a permutation of the backends.
- Fast DDS, Cyclone DDS and ZeroMQ backends, PTP sessions, command lines, file and process handling, remote launching and hardware probes are not modelled.
- Storage recording, partition splitting and the runtime publisher and subscriber layers are not modelled.
