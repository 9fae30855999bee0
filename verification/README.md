# A verified model of the camera.ui RPC runtimes

The repository implements one RPC protocol over NATS three times, for Node, Python and Go. This project models
its hardest parts in Dafny and proves what they promise. Each part follows one runtime; where two runtimes do the
same job differently, both are modelled and compared.

- **Wire codec** (`Wire`, `Values`, `Extraction`, `Restoration`, `Tiling`, `FastRestore`, `TableRestore`,
  `NodeRestore`, `Codec`). Large binaries are moved out of a value tree and sent behind it in one frame. `Tiling` says
  without an algorithm what a restored frame must be: segments back to back in index order, every placeholder its
  segment. The one-pass restorer of Python, with its fallback, and Go's table restorer are each proved against that,
  and against each other; Node's is compared with that and with Python's.
- **Chunked transfers** (`Chunks`, `MarkedChunks`, `Headerless`, `Transfers`, `Chunking`, `Delivery`). The splitters,
  the assembler, the manager of concurrent transfers with its pool and its stale sweep, on values and as objects over
  a heap, and the end-to-end statement from a published value to the receiver's handler.
- **Serial dispatcher** (`Dispatcher`). The inline fast path and the promise chain behind it, refining a loop that
  awaits one handler after the other.
- **Pull sessions** (`PullProtocol`, `PullSafety`, `PullGuarantees`, `PullCompleteness`, `PullEndings`,
  `PullObjects`). The pull iterator and the pull-callback iterator with optional prefetch, the server's session and
  the connection between them, as a step system with return, cancel, errors, teardown, failing publishes and loss of
  the connection.
- **Client state** (`Calls`, `Subscriptions`, `SubscriptionTable`). Calls waiting on the muxed reply inbox, and
  subscription entries that outlive suspend and connect.
- **Identifiers** (`Identifiers`). Call ids and reply prefixes.

Code that works by changing things in place is a class or a method with a loop, proved equal to a function on values;
the protocol theorems are lemmas about those functions. MessagePack is a pair of functions with two laws: decoding
inverts encoding, and no encoding of eight or more bytes starts with the frame magic, because 0x43 alone is a positive
fixint (the int format family of the MessagePack specification).

## What the proofs found

Some promises hold only under a condition. Each of these has its exact condition in the model, and a concrete input or
run.

- A framed value that contains a map of the form of a placeholder never decodes to itself (`Codec.RoundTripIff`).
- Go takes a placeholder only if both numbers fit an int32, Python takes any. They have the same outcome if and only if
  every number fits or no layout exists, with and without the placeholders Go does not see
  (`TableRestore.RuntimesAgreeIff`, `TableRestore.RuntimesDiffer`).
- Where a placeholder out of order repeats an index already consumed, or has an index from 2^32 - 1 on, which is none of
  a JavaScript array, Python raises and Node hands out `undefined`. With distinct indices the two accept the same frames
  if and only if every index is an array index or those that are have no layout (`NodeRestore.NodeAcceptsMoreIff`,
  `NodeRestore.NodeAgreesIff`, `NodeRestore.NodeHandsOutUndefined`, `NodeRestore.NodeIgnoresBigIndex`).
- JavaScript enumerates integer-like keys first. Which frames Node accepts does not depend on that while the indices are
  distinct, and does when one is repeated (`NodeRestore.AnyOrderOfKeys`, `NodeRestore.OrderOfKeysMatters`).
- When a header carries no chunk size the assembler works with the size a pooled one kept, or with that of chunk 0. Every
  payload of a size is then reassembled if and only if that puts each chunk in its place
  (`Headerless.EveryPayloadReassemblesIff`, `Headerless.PooledMisplaces`).
- The backpressure bound holds if and only if no request is sent while requests of calls that ended without a value are
  still owed, beyond the one that prefetch allows for. A consumer that stops once it was told the end never does that;
  one that goes on calling next() after a teardown runs the generator ahead without bound, and may be handed a boundary
  while a callback of a later batch is running (`PullGuarantees.BackpressureIff`, `PullGuarantees.PoliteNeverOverdraws`,
  `PullGuarantees.LateCallsRunAhead`, `PullGuarantees.LaterBatchBegins`).
- return() during setup sends its cancel before the server listens. The session ends by itself if and only if the server
  opened it before it consumed the cancel; otherwise it stays, with the client's response subscription
  (`PullEndings.EarlyReturnEndsIff`, `PullEndings.SilentSessionStays`, `PullEndings.ReturnDuringSetupLeaks`).
- A subscribe() that throws leaves its entry behind, and the next connect() subscribes it
  (`Subscriptions.FailedSubscribeIsRestored`).
- A teardown leaves no subscription alive if and only if no connect() completes after it told the connection to close,
  which a call makes by itself once the connection reports closed (`Subscriptions.ConnectStrandsIff`,
  `Subscriptions.ConnectDuringTeardownIsStranded`). A second dial that completes over an open connection leaves every
  subscription on the one it replaces (`Subscriptions.SecondDialStrands`).
- A teardown replaces the chunking manager some awaits after it rejected the waiting calls; a transfer begun in between
  is dropped with its chunks, and does not settle the call it answers (`Calls.NewManagerLosesTransfer`).

Where code and documentation differ the code is followed. The extraction threshold is 16384 bytes, though the comments
in python/camera_ui_rpc/codec.py:287-297 say 1 KiB. The comment at node/src/client.ts:1976-1986 expects the callback
subscription's chain to hold messages back; its handler is synchronous, so a callback joins the callback chain when it
arrives and the flush has nothing to wait for.

## Model

| member | source | states |
|---|---|---|
| `Wire.U32RoundTrip` | node/src/codec.ts:274-277 | A length below 2^32 survives both writers (remainders and quotients, masks and shifts) and both readers (weighted sum, bit operations), in every pairing |
| `Wire.WritersAgree` | node/src/codec.ts:274-277 | Node's mask-and-shift writer and the remainder writer give the same four bytes for every length |
| `Wire.ReadersAgree` | node/src/codec.ts:301 | Node's or-and-shift reader and the weighted sum agree on every four bytes, also when the top bit is set |
| `Extraction.ExtractBinaries` | python/camera_ui_rpc/codec.py:94-137 | The walk returns the tree and the segments of the pure extraction, appends to the caller's list only, reports a change exactly when it extracted, and otherwise returns its input |
| `Extraction.ExtractItems` | python/camera_ui_rpc/codec.py:111-137 | The lazy copy of a container is made at the first change and holds every item's result; the segments follow what the list held |
| `Extraction.ExtractNumbers` | python/camera_ui_rpc/codec.py:94-137 | In a tree without look-alikes the placeholders carry the indices n, n+1, ... in traversal order, each with its segment's length |
| `Extraction.FillExtract` | python/camera_ui_rpc/codec.py:94-137 | Putting each segment back at its index restores the original tree |
| `Extraction.ExtractNothing` | python/camera_ui_rpc/codec.py:94-137 | When nothing is extracted the tree comes back unchanged |
| `Extraction.ExtractIsSmall` | python/camera_ui_rpc/codec.py:72-137 | No binary at or above the threshold remains after extraction |
| `Extraction.ExtractsNothingIffSmall` | python/camera_ui_rpc/codec.py:260-275 | Nothing is extracted exactly from trees without such a binary |
| `Values.PlaceholdersAre` | python/camera_ui_rpc/codec.py:140-151 | The strict check accepts exactly the maps of the two keys, in either order, with natural numbers under them, and reads index and length from their keys |
| `Values.FillLeavesNone` | python/camera_ui_rpc/codec.py:220-232 | A tree whose every placeholder has a view holds none after the swap |
| `Restoration.RestoreSequential` | python/camera_ui_rpc/codec.py:164-203 | The recursive pass over a mutable cursor is the pure pass: same tree, same cursor, same error |
| `Restoration.RestoreItems` | python/camera_ui_rpc/codec.py:188-203 | The loop over a container restores the items left to right and stops at the first error |
| `Restoration.CollectSegmentLengths` | python/camera_ui_rpc/codec.py:206-217 | The collected table maps each index to the length of its last placeholder in traversal order |
| `Restoration.LengthTableKeys` | python/camera_ui_rpc/codec.py:206-217 | Its keys are exactly the indices in the tree, each with the length of one of its placeholders |
| `Restoration.MaxKeyEnd` | python/camera_ui_rpc/codec.py:235-243 | One past the largest key of the table |
| `Restoration.RestoreByIndex` | python/camera_ui_rpc/codec.py:220-232 | The swap loop equals the pure swap, with a key error for an index without a view |
| `Restoration.RestoreRemaining` | python/camera_ui_rpc/codec.py:235-257 | The fallback lays the remaining segments back to back from the cursor, rejects a missing index or an overrun, and swaps all placeholders |
| `Restoration.RestoreEnvelope` | python/camera_ui_rpc/codec.py:311-332 | Sequential pass, fallback when the order flag is set, and the final payload-size check |
| `Restoration.SequentialInBounds` | python/camera_ui_rpc/codec.py:176-186 | The cursor never leaves the payload |
| `Tiling.LayoutUnique` | python/camera_ui_rpc/codec.py:235-257 | With distinct indices at most one sequence of lengths covers the placeholders |
| `Tiling.ConsumeTakesPrefix` | python/camera_ui_rpc/codec.py:164-186 | The sequential pass takes exactly an in-order prefix of the placeholders; the flag is set exactly when it is cut short |
| `Tiling.SequentialConsumes` | python/camera_ui_rpc/codec.py:164-203 | The pass over a tree is the pass over its list of placeholders, and leaves exactly those it did not take |
| `Tiling.SequentialFills` | python/camera_ui_rpc/codec.py:176-186 | Every view the pass makes is the tile that the lengths prescribe |
| `Tiling.ByIndexFills` | python/camera_ui_rpc/codec.py:220-232 | The swap succeeds exactly when every index has a view, and then fills every placeholder with it |
| `Tiling.LayOutSound` | python/camera_ui_rpc/codec.py:244-255 | A successful layout puts segment i at base plus the sum of the lengths below i |
| `Tiling.LayOutComplete` | python/camera_ui_rpc/codec.py:244-255 | When the lengths tile the payload the layout succeeds and ends at its last byte |
| `FastRestore.AcceptedFramesTile` | python/camera_ui_rpc/codec.py:164-257 | For any envelope, duplicates and any order included: success means the segments lie back to back from envelope to payload end without gap or overlap, each has a placeholder, each placeholder became its segment, none is left |
| `FastRestore.LayoutAccepted` | python/camera_ui_rpc/codec.py:164-257 | With distinct indices a covering layout is enough for the restore to succeed, in any traversal order |
| `FastRestore.FastIsReference` | python/camera_ui_rpc/codec.py:164-257 | With distinct indices the pass with its fallback accepts exactly the frames that have a covering layout and returns the tree that layout prescribes |
| `TableRestore.RestoreBinaries` | go/codec_message.go:694-744 | Go's table restorer, for any order in which map iteration lists the placeholders, returns the tree of the covering layout or an error when there is none |
| `TableRestore.RecognizedAre` | go/codec_message.go:751-824 | Go recognizes exactly the placeholders whose two numbers are below 2^31, in their order |
| `TableRestore.TabulateLengths` | go/codec_message.go:705-729 | The length table holds each placeholder's length and -1 elsewhere |
| `TableRestore.PlaceSegments` | go/codec_message.go:730-741 | The offset loop gives each segment base plus the sum of the lengths before it, or proves that no layout exists |
| `TableRestore.SegmentViews` | go/codec_message.go:740-743 | The views handed to the setters are the tiles of the layout |
| `TableRestore.FastRefinesTable` | go/codec_message.go:694-744 | With distinct indices in int32 range the sequential restorer and the table restorer have the same outcome: both reject, or both return the same tree |
| `TableRestore.RuntimesAgreeIff` | go/codec_message.go:751-824 | With distinct indices Python and Go have the same outcome if and only if every index and length fits an int32, or neither all placeholders nor those Go recognizes have a covering layout |
| `TableRestore.RuntimesAgreeIffGoRejects` | go/codec_message.go:751-824 | For payloads and placeholder counts in int32 range: if and only if every number fits or the placeholders Go recognizes have no covering layout |
| `TableRestore.RuntimesDiffer` | go/codec_message.go:774-824 | A frame where they differ: a placeholder of 2^31 bytes is an error in Python and stays in the tree in Go |
| `TableRestore.UnrecognizedStays` | go/codec_message.go:751-772 | A placeholder outside the range remains in what Go returns |
| `NodeRestore.NodeAcceptsMoreIff` | node/src/codec.ts:185-245 | For fewer than 2^32 - 1 placeholders, repeated indices included: Node accepts whatever Python accepts, with the same tree; a frame Node accepts is a Python error if and only if a placeholder after the in-order prefix repeats one of its indices or has an index from 2^32 - 1 on |
| `NodeRestore.NodeIsReference` | node/src/codec.ts:185-245 | With distinct indices Node accepts exactly the frames in which the placeholders of its array have a covering layout, in any traversal order |
| `NodeRestore.NodeAgreesIff` | node/src/codec.ts:185-245 | With distinct indices Node and Python accept the same frames if and only if every index is below 2^32 - 1 or those that are have no covering layout |
| `NodeRestore.AnyOrderOfKeys` | node/src/codec.ts:185-245 | With distinct indices the order in which JavaScript enumerates keys does not change what is accepted |
| `NodeRestore.NodeHandsOutUndefined` | node/src/codec.ts:185-245 | A frame where they differ: two placeholders of index 0 give `undefined` in Node and a key error in Python |
| `NodeRestore.NodeIgnoresBigIndex` | node/src/codec.ts:185-245 | Another: one placeholder of any index from 2^32 - 1 on and an empty payload give `undefined` in Node and a missing-segment error in Python |
| `NodeRestore.OrderOfKeysMatters` | node/src/codec.ts:185-245 | A map with a repeated index that Python restores in wire order and Node, enumerating integer-like keys first, does not |
| `Codec.EncodeMessage` | python/camera_ui_rpc/codec.py:260-284 | The join of magic, length, envelope and segments is the frame; without segments it is the plain encoding; an oversized envelope is an error |
| `Codec.DecodeMessage` | python/camera_ui_rpc/codec.py:287-332 | Without the magic it is plain decoding; with it the envelope length is checked, and the envelope decoded and restored |
| `Codec.OwnFrameRestores` | node/src/codec.ts:253-320 | The frame of a tree without look-alikes restores to that tree |
| `Codec.OwnFrameInOrder` | python/camera_ui_rpc/codec.py:164-203 | Decoding an own frame never sets the out-of-order flag |
| `Codec.LookAlikesAreLost` | python/camera_ui_rpc/codec.py:140-150 | A framed tree that holds a map looking like a placeholder never decodes to itself |
| `Codec.RoundTripIff` | python/camera_ui_rpc/codec.py:260-332 | A value that encodes decodes to itself if and only if nothing was extracted from it or no map in it looks like a placeholder |
| `Codec.SmallIsPlain` | python/camera_ui_rpc/codec.py:268-272 | A value without large binaries is sent as its plain encoding |
| `Codec.EncodesIff` | python/camera_ui_rpc/codec.py:260-284 | A value without large binaries encodes when it does itself; any other if and only if its extracted tree encodes in fewer than 2^32 bytes, and then to the frame of that |
| `Chunks.CreateChunks` | python/camera_ui_rpc/chunking.py:11-41 | The chunks are the consecutive pieces of the payload, ceil(size / max) of them, numbered in order; none is marked as the last |
| `Chunks.CreateMarkedChunks` | node/src/chunking.ts:16-33 | Node's splitter: the same pieces and numbers, and exactly the last one is marked |
| `Chunks.ChunkStart` | python/camera_ui_rpc/chunking.py:23-41 | A chunk index is below the chunk count exactly when its first byte is inside the payload |
| `Chunks.AddProgress` | python/camera_ui_rpc/chunking.py:87-137 | Adding any chunk of the payload, again or for the first time, keeps every byte received so far in its place |
| `Chunks.GatheredComplete` | python/camera_ui_rpc/chunking.py:139-174 | Complete means every index has come, and then buffer or dictionary give the payload's bytes |
| `Chunks.Reassembles` | python/camera_ui_rpc/chunking.py:87-174 | For any arrival order and repetition the assembler is complete exactly when all indices have arrived, and then holds the payload, with the buffer or with the dictionary fallback |
| `MarkedChunks.MarkedReassembles` | python/camera_ui_rpc/chunking.py:129-137 | Without an announcement the mark on the last chunk is enough: the assembler is complete exactly when every piece has come, in any order and with repetition, and then holds them joined |
| `Transfers.StepKeepsInv` | python/camera_ui_rpc/chunking.py:226-332 | The four maps keep the same keys, each assembler's id is its key, and nothing is older than the last sweep allowed |
| `Transfers.SweepDropsOnlyStale` | python/camera_ui_rpc/chunking.py:254-276 | The sweep drops only transfers idle for more than 30 s and tells exactly those |
| `Transfers.StalenessBound` | python/camera_ui_rpc/chunking.py:254-276 | After any start or chunk at time t no surviving transfer has been idle for more than 31 s |
| `Transfers.SweepIsRateLimited` | python/camera_ui_rpc/chunking.py:254-276 | A sweep within a second of the last does nothing; one a second after leaves no transfer idle for more than 30 s |
| `Transfers.OthersUntouched` | python/camera_ui_rpc/chunking.py:278-332 | A call for one transfer changes no other, except that the sweep may drop a stale one and tell it so |
| `Transfers.StepConserves` | python/camera_ui_rpc/chunking.py:226-332 | In one call a transfer that was live or started is told its end, silently replaced by a start of the same id, or still live: exactly one of these |
| `Transfers.RunConserves` | python/camera_ui_rpc/chunking.py:226-332 | Over any run started transfers are the disjoint union of those told their end once, those replaced, and the live one |
| `Transfers.CancelEnds` | python/camera_ui_rpc/chunking.py:318-332 | A cancel leaves the transfer gone from every map and told exactly that it was cancelled; an unknown id changes nothing |
| `Transfers.ChunkEndsIff` | python/camera_ui_rpc/chunking.py:278-316 | A chunk of a live transfer: while pieces are missing it waits; with the last one it is gone and told the decoded value, or the error if its bytes are missing or do not decode |
| `Headerless.EveryPayloadReassemblesIff` | python/camera_ui_rpc/chunking.py:87-137 | Without chunkSize in the header, the chunks each once in a given order: every payload of a size is reassembled if and only if there is no buffer or one chunk, the kept size is the sender's, none is kept and the last chunk is full, or none is kept and chunk 0 comes before the last |
| `Headerless.HeaderlessReassemblesIff` | python/camera_ui_rpc/chunking.py:87-137 | The same for one payload without zero bytes: it completes in any case, with the right bytes if and only if each chunk is put in its place |
| `Headerless.HeaderlessReassembles` | python/camera_ui_rpc/chunking.py:87-174 | Where each chunk is put in its place any payload is reassembled, with any repetition of chunks |
| `Headerless.HeaderSizeWins` | python/camera_ui_rpc/chunking.py:63-85 | With chunkSize in the header a pooled assembler starts like a new one |
| `Headerless.SizelessReassembles` | python/camera_ui_rpc/chunking.py:63-137 | A header without a total size, or with 0, leaves no buffer; the chunks are kept apart and any order of them reassembles the payload |
| `Headerless.BufferHasAnnouncedSize` | python/camera_ui_rpc/chunking.py:63-137 | A buffer is made exactly when a positive size is announced and it can be allocated; it has that size and keeps it under any chunk |
| `Headerless.PooledMisplaces` | python/camera_ui_rpc/chunking.py:204-224 | A payload that a kept size misplaces without chunkSize in the header, and a new assembler does not |
| `Chunking.ChunkAssembler.Reset` | python/camera_ui_rpc/chunking.py:204-216 | Everything but the chunk size is as in a new assembler |
| `Chunking.ChunkAssembler.SetExpectedChunks` | python/camera_ui_rpc/chunking.py:63-85 | Expected count, size and chunk size are set and a zeroed buffer of the announced size is allocated, or none when allocation fails |
| `Chunking.ChunkAssembler.AddChunk` | python/camera_ui_rpc/chunking.py:87-137 | The object after a chunk is the value-level assembler after it, and the result says whether it is complete; a foreign chunk is an error and changes nothing |
| `Chunking.ChunkAssembler.WriteAt` | python/camera_ui_rpc/chunking.py:116-127 | The write into the buffer is clipped at its end and touches nothing else |
| `Chunking.ChunkAssembler.GetData` | python/camera_ui_rpc/chunking.py:145-174 | The decoded payload, from the buffer or from the joined dictionary; a missing piece is an error |
| `Chunking.ChunkingManager.GetAssembler` | python/camera_ui_rpc/chunking.py:204-216 | A pooled assembler or a new one, never a live one, reset to the given id |
| `Chunking.ChunkingManager.ReturnAssembler` | python/camera_ui_rpc/chunking.py:218-224 | The pool takes the assembler while it holds fewer than ten and keeps its members distinct and idle |
| `Chunking.ChunkingManager.SweepStale` | python/camera_ui_rpc/chunking.py:254-276 | The loop over the stale ids is the value-level sweep, outcomes included |
| `Chunking.ChunkingManager.HandleError` | python/camera_ui_rpc/chunking.py:318-328 | The error callback is told and every trace of the transfer dropped |
| `Chunking.ChunkingManager.StartReceiving` | python/camera_ui_rpc/chunking.py:226-252 | Sweep, then a transfer filed under its id with a fresh buffer, its callbacks and its time |
| `Chunking.ChunkingManager.ProcessChunk` | python/camera_ui_rpc/chunking.py:278-316 | The object after a chunk is the value-level manager after it; no buffer delivered before is written, and a buffer once delivered belongs to no transfer again |
| `Chunking.ChunkingManager.SettleTransfer` | python/camera_ui_rpc/chunking.py:298-316 | A complete transfer is delivered once or failed once, also when its completion callback throws |
| `Delivery.PublishMessage` | python/camera_ui_rpc/client.py:475-520 | One plain message if and only if the encoding fits, otherwise a header with count, size and chunk size followed by the chunks in order; no plain message or chunk above the limit |
| `Delivery.PublishFits` | python/camera_ui_rpc/client.py:475-520 | Every plain message and every chunk sent carries at most maxPayload bytes, and a plain message is sent if and only if the encoding fits |
| `Delivery.PublishesIff` | python/camera_ui_rpc/client.py:475-520 | Publishing succeeds if and only if the value encodes and, when it does not fit one message, the header does |
| `Delivery.MalformedIsIgnored` | python/camera_ui_rpc/client.py:598-640 | A header that does not name its own transfer or a chunk count, and a chunk that names no transfer, change nothing |
| `Delivery.PlainIsDecoded` | python/camera_ui_rpc/client.py:641-651 | A plain message is decoded for its handler or dropped, and leaves every transfer alone |
| `Delivery.OtherArrival` | python/camera_ui_rpc/client.py:598-640 | A message of another transfer leaves a live transfer as it was |
| `Delivery.PiecesDeliver` | python/camera_ui_rpc/client.py:598-640 | From a live transfer on, its chunks in any order among any traffic, of this and of other subscriptions, end in exactly one delivery |
| `Delivery.EndToEnd` | python/camera_ui_rpc/client.py:475-640 | For a value without large binaries or without look-alikes whose encoding does not fit one message: header, then the chunks in any order and with repetition, among any other traffic of the client's subscriptions without an idle gap over 30 s: the handler of the subscription gets the original value exactly once and the error callback nothing |
| `Delivery.DirectDelivery` | python/camera_ui_rpc/client.py:641-651 | A value whose encoding fits one message reaches the handler at once and leaves the manager alone |
| `Dispatcher.OnlyFirstMoves` | node/src/utils.ts:394-408 | Only the first unfinished message can start, settle or complete |
| `Dispatcher.StepKeepsInv` | node/src/utils.ts:369-409 | Every turn of the event loop keeps the chain in dispatch order and `busy` equal to the unfinished completions |
| `Dispatcher.RunTakesIn` | node/src/utils.ts:369-408 | Over any run each dispatch, idle or busy, takes in one message: none is lost |
| `Dispatcher.RefinesSerialLoop` | node/src/utils.ts:361-412 | Over any mix of returning, throwing, resolving and rejecting handlers the outside sees a prefix of what a loop shows that awaits each handler over the messages dispatched: dispatch order, no overlap, each failure reported once; at rest it has seen all of them through |
| `Dispatcher.IdleRunsInline` | node/src/utils.ts:369-392 | A message that finds the dispatcher idle has its handler called at once, and a synchronous one is through when dispatch returns |
| `Dispatcher.BusyDefers` | node/src/utils.ts:394-408 | A message that finds it busy is taken in and not called yet |
| `Dispatcher.Drains` | node/src/utils.ts:394-408 | From every reachable state the messages taken in can be handled to the last, without another dispatch |
| `Dispatcher.StepLeavesLess` | node/src/utils.ts:394-408 | Every turn that takes in no message leaves less to do, so it must come to rest |
| `Dispatcher.NeverStuck` | node/src/utils.ts:394-408 | While anything is unfinished its current message can go on: a failure blocks nobody |
| `Dispatcher.FlushWaits` | node/src/utils.ts:411 | The promise of a flush is resolved if and only if as many messages have completed as were dispatched before it, and the outside has then seen all of those through |
| `Dispatcher.SerialDispatcher.DispatchMessage` | node/src/utils.ts:369-409 | One more message is taken in: through at once when idle and synchronous, appended and counted when busy, under the refinement invariant |
| `Dispatcher.SerialDispatcher.CompleteJob` | node/src/utils.ts:383-407 | The completion counts down and reports a failure: the outside has then seen the messages up to this one through |
| `PullSafety.ClientStepKeepsInv` | node/src/client.ts:1737-2018 | The iterator's flags stay consistent in every step: one cancel at most, `prefetched` only between batches, and every request sent belongs to a value handed out, a request out, or one owed |
| `PullSafety.StreamStep` | node/src/client.ts:1896-1990 | A step of the client keeps the responses it holds in order and loses none while its subscription lives |
| `PullSafety.ServerStepKeepsInv` | node/src/handler.ts:343-412 | The session keeps at most one terminal response and one onFinished, and advances only while active |
| `PullSafety.ServerPublishesOnce` | node/src/handler.ts:293-399 | Each step of the session publishes at most one message, numbered and marked as the client expects |
| `PullSafety.OrderedAppend` | node/src/client.ts:1973-1988 | Messages published in order stay in order on the connection |
| `PullGuarantees.DeliversPrefix` | node/src/client.ts:1607-1662 | The consumer is given a prefix of the generator's output, without loss or repetition |
| `PullGuarantees.CallbacksInOrder` | node/src/client.ts:1816-1831 | Callbacks are queued in publish order and run one at a time |
| `PullGuarantees.BatchBoundary` | node/src/client.ts:1896-1990 | When next() hands out a boundary every callback published before that yield has completed; without prefetch and with no request owed, that is with no request sent beyond this batch, nothing later has begun, been queued or even been published |
| `PullGuarantees.OwedRunsPastBoundary` | node/src/client.ts:1896-1990 | The converse: about to hand out a boundary without prefetch while a request is owed, a live session can be in a later batch before it does |
| `PullGuarantees.LaterBatchBegins` | node/src/client.ts:1765-1990 | A run in which a boundary before which nothing was published is ready to be handed out while the first callback of a later batch is running |
| `PullGuarantees.OnlyDrainedHandsOut` | node/src/client.ts:1973-1990 | With callbacks a boundary is handed out only by the step after the callback chain was awaited |
| `PullGuarantees.EndDrainsCallbacks` | node/src/client.ts:1950-1958 | The end is reported only after the callbacks published before it have completed |
| `PullGuarantees.RequestsAccount` | node/src/client.ts:1912-1973 | Over any run, exactly: requests sent are values handed out, plus those out (one at most, two with prefetch), plus those owed by calls that ended without a value; and they are advances, plus requests on their way, plus requests dropped |
| `PullGuarantees.Backpressure` | node/src/client.ts:1912-1973 | Advances are at most boundaries + 1, with prefetch + 2, plus what is owed; while a consumer that has not been told the end holds control they equal the boundaries, with prefetch at most one more |
| `PullGuarantees.BackpressureIff` | node/src/client.ts:1912-1973 | The plain bound on requests holds in every state of a run if and only if no request is sent while any is owed (with prefetch, while more than one is) |
| `PullGuarantees.NewSessionIsExact` | node/src/client.ts:1912-1973 | So for every run of a new session; and for a consumer that stops once told the end it always holds |
| `PullGuarantees.OverdrawnRunsAhead` | node/src/client.ts:1912-1973 | From any live state out of bounds in requests the generator can be brought out of bounds in advances, the client standing still |
| `PullGuarantees.PrefetchedIsOutstanding` | node/src/client.ts:1751-1753 | While the consumer holds control and has not been told the end, `prefetched` is exactly the one request sent and not awaited |
| `PullGuarantees.PoliteNeverOverdraws` | node/src/client.ts:1897-1925 | A consumer that stops calling next() once told the end never sends such a request |
| `PullGuarantees.LateCallsRunAhead` | node/src/client.ts:1765-1779 | For every n a run in which the generator is advanced n + 1 times and no value is handed out: next() called n times more after a teardown failed it |
| `PullGuarantees.AtMostOnce` | node/src/handler.ts:343-399 | Over any run at most one terminal response, one onFinished and one cancel |
| `PullGuarantees.SessionEndIsFinal` | node/src/handler.ts:348-357 | Once the session is inactive and at rest the generator is never advanced and nothing more is published |
| `PullGuarantees.NoFinishAfterCleanup` | node/src/handler.ts:348-412 | After cleanup onFinished never runs |
| `PullGuarantees.CancelBeforeTerminal` | node/src/client.ts:1532-1547 | A cancel is sent at most once and never after a terminal response was received |
| `PullCompleteness.ServerTells` | node/src/handler.ts:359-397 | Each stretch of the session publishes exactly this: a yield its value, the end of the generator or of a cancel one `done`, marked with the callbacks so far; when that fails, or the generator does, one error if it can be published |
| `PullCompleteness.RequestIsTaken` | node/src/handler.ts:356-370 | A `next` advances an active session once; a cancel ends it, told once, and has its generator closed; an inactive session changes nothing, and only a `next` with a reply address can draw a status |
| `PullCompleteness.CancelIsAnswered` | node/src/handler.ts:360-368 | A cancel that reaches an active session at rest can be answered: the session is over, told once, with `done` published |
| `PullCompleteness.GoesOnOffline` | node/src/client.ts:1765-1797 | Without the connection every step that publishes nothing is still taken, the cleanups of both sides among them |
| `PullCompleteness.EndPublishedIff` | node/src/handler.ts:359-397 | Over any run one terminal response is published if and only if a stretch of the session came to publish one |
| `PullCompleteness.EndIsHeard` | node/src/client.ts:1857-1893 | A subscribed client that has received everything on a live connection has heard the end if and only if one was published, and no call of it is parked |
| `PullCompleteness.EndTellsAll` | node/src/client.ts:1927-1990 | When a normal end is told over a live connection the consumer has been given every value the generator yielded, in order, and with callbacks every one published has completed |
| `PullCompleteness.OnlyTheseTellEnd` | node/src/client.ts:1896-2006 | The consumer is told the end only by its own return(), an error, a request that could not be published, or a `done`, and with callbacks by a `done` only after the chain was awaited |
| `PullCompleteness.SetupSubscribes` | node/src/client.ts:1857-1910 | Setup that is not overtaken by return() subscribes to the responses, listens for a status and asks for the first batch |
| `PullCompleteness.SetupFailureEnds` | node/src/client.ts:1899-1905 | A setup that fails ends the call with nothing subscribed, and cancels a session not known to have ended |
| `PullCompleteness.ArrivalIsTaken` | node/src/client.ts:1816-1872 | A response that arrives goes to the waiting call, or to the end of the queue; a callback to the end of the chain |
| `PullCompleteness.StatusFailsWaiting` | node/src/client.ts:1874-1893 | A no-responders status fails a call that waits, which a subscribed client does only with its status handler in place |
| `PullCompleteness.EndIsFinished` | node/src/handler.ts:348-354 | onFinished has run, once, for every session that ended other than by the server's cleanup, and for no other |
| `PullCompleteness.ReadsToEnd` | node/src/client.ts:1896-1990 | From every reachable state of a client that knows of the end, its calls of next() come through without the server until one is told the end |
| `PullCompleteness.PrefetchAsksAhead` | node/src/client.ts:1960-1972 | With prefetch the request for the next batch goes out before the callbacks of this one are awaited, and the next call sends none |
| `PullEndings.NoSessionLeftBehind` | node/src/client.ts:1781-1797 | When no teardown, lost cancel, status or early return during setup intervenes, a client that has cleaned up leaves no active session once its requests have arrived |
| `PullEndings.NewSessionEnds` | node/src/client.ts:1781-1797 | So for every such run of a new session |
| `PullEndings.SilentSessionStays` | node/src/client.ts:1992-2006 | Once a client is done with no request on its way and the server does not clean up, the session stays for ever what it is: an active one leaks, an ended one is over, one that opens late stays open |
| `PullEndings.EarlyReturnEndsIff` | node/src/client.ts:1992-1998 | After return() during setup, from any state and over any run left alone: the session ends by itself if and only if a cancel went out and the server opened the session before it consumed it |
| `PullEndings.ReturnDuringSetupLeaks` | node/src/client.ts:1992-1998 | Such a run: the session stays active and the client's response subscription stays open |
| `PullObjects.StepExtends` | node/src/client.ts:1781-1925 | A step publishes one request at most; a cancel only as the first ever, and none after a terminal response was heard |
| `PullObjects.PullIterator.CleanupOnce` | node/src/client.ts:1781-1797 | After it the iterator is cleaned up and ended; the first time its subscriptions are gone and what was published is tallied: a cancel only if the session had not ended |
| `PullObjects.PullIterator.NextCalled` | node/src/client.ts:1897-1925 | Up to its first await next() hands out nothing and publishes at most one request, none if return() was called or a batch is prefetched, under the invariant that ties all published requests to values, requests out and owed |
| `PullObjects.PullIterator.SetupCompleted` | node/src/client.ts:1857-1910 | No request goes out at the end of setup if return() came first, and nothing has been handed out yet |
| `PullObjects.PullIterator.SetupFailed` | node/src/client.ts:1899-1905 | The call ends with the iterator cleaned up, nothing subscribed and nothing handed out; no `next` is published, one cancel at most |
| `PullObjects.PullIterator.DecideResponse` | node/src/client.ts:1927-1939 | Under the iterator's invariant: a call is parked only in an open session that has not returned, with nothing queued; a queued response is taken from the front and none is lost; a failed call leaves its value owed; nothing is published or handed out |
| `PullObjects.PullIterator.ResponseTaken` | node/src/client.ts:1941-1972 | With callbacks no value is handed out before the chain is awaited; after return() nothing is published and nothing handed out |
| `PullObjects.PullIterator.ChainAwaited` | node/src/client.ts:1973-1990 | In a session whose stream is in order, which every step keeps, the chain awaited holds every callback the server published before the response |
| `PullSafety.BatchIsQueued` | node/src/client.ts:1973-1990 | In an ordered stream the callbacks published before a held response are all in the chain |
| `PullObjects.PullIterator.ChainDrained` | node/src/client.ts:1973-1990 | The boundary is handed out, once, with every callback up to its mark completed; an end hands out nothing |
| `PullObjects.PullIterator.ReturnCalled` | node/src/client.ts:1992-2006 | return() and throw() leave no call parked and a started iterator cleaned up, hand out nothing, and cancel at most once |
| `PullObjects.PullIterator.SettleOnTeardown` | node/src/client.ts:1765-1779 | The teardown hook leaves no call parked, marks the session ended, and publishes and hands out nothing |
| `PullObjects.PullIterator.Receive` | node/src/client.ts:1816-1893 | While subscribed, callbacks join the chain and responses resolve a parked call or join the queue in arrival order; a terminal response is remembered; nothing is published or handed out |
| `PullObjects.PublishNext` | node/src/handler.ts:293-399 | A message that follows keeps the published sequence numbered, marked, and without anything after a terminal |
| `PullObjects.PullSession.FinishOnce` | node/src/handler.ts:348-354 | onFinished is told once, and never to a session that was cleaned up |
| `PullObjects.PullSession.RequestArrives` | node/src/handler.ts:356-370 | A request for a session that is over changes nothing; otherwise a `next` advances the generator once and a cancel ends the session |
| `PullObjects.PullSession.EmitCallback` | node/src/handler.ts:293-309 | A callback is numbered by those published before it, and only an active session publishes one |
| `PullObjects.PullSession.GeneratorYielded` | node/src/handler.ts:378-385 | The value published is numbered by the values before it and marked with all callbacks before it; if it cannot be published the session ends, and one error is published if it can be |
| `PullObjects.PullSession.GeneratorFinished` | node/src/handler.ts:372-377 | The session is over and told once; `done` is published, marked with the callbacks so far, or, when that fails, one error if it can be |
| `PullObjects.PullSession.GeneratorClosed` | node/src/handler.ts:360-368 | After a cancel `done` is published, or one error when that or the generator failed; onFinished is not told again |
| `PullObjects.PullSession.ReportError` | node/src/handler.ts:387-397 | An error ends the session, told once, and publishes exactly one error if it can be, with no terminal before it |
| `PullObjects.PullSession.CleanUp` | node/src/handler.ts:401-412 | The session is inactive, nothing was told or published, and by the invariant nothing will be told |
| `Calls.CallsSettleOnce` | node/src/client.ts:278-290 | Over any run of responses, chunked responses, statuses, timeouts, publish failures, teardowns and traffic of other subscriptions, registered calls are the disjoint union of pending and settled, each settled once and for good, with a timer armed exactly for the pending |
| `Calls.ResponseSettlesOnlyItsCall` | node/src/client.ts:893-911 | A message settles at most the call its response names and leaves every other as it was |
| `Calls.ResponderSettles` | node/src/client.ts:893-911 | A plain message `{id, result}` answers the waiting call with that result; `{id, error}` refuses it with a truthy error and answers it with nothing on a falsy one |
| `Calls.EndingTells` | node/src/client.ts:904-910 | A response tells a refusal exactly when it carries an error that is not nil, false, 0 or the empty string, and otherwise its result field |
| `Calls.OthersSettle` | node/src/client.ts:1104-1138 | A call made waits with its timer armed; its timer, a failed publish, and a status no handler takes each settle it, with their own ending and nothing else |
| `Calls.HandlerComesFirst` | node/src/client.ts:834-856 | A registered status handler takes the first status for its token and leaves the call waiting; the next one settles it, as does any after the handler was dropped |
| `Calls.OthersSettleNothing` | node/src/client.ts:893-899 | A plain message of another subscription, and a response with an empty or unknown id, change nothing |
| `Calls.OtherTransfersSettleNothing` | node/src/client.ts:864-890 | A transfer announced on another subscription, or one that fails, settles no call |
| `Calls.AlwaysTaken` | node/src/client.ts:830-911 | Messages and statuses are taken in every state, a call with a fresh id can always be made, and a teardown can always go through the waiting calls |
| `Calls.TeardownLeavesNone` | node/src/client.ts:278-290 | A teardown tells every waiting call once that the connection closed and leaves none |
| `Calls.NewManagerLosesTransfer` | node/src/client.ts:278-323 | After the manager is replaced, later in the teardown, nothing more of a transfer begun before is delivered, and the calls waiting stay as they are |
| `Calls.FirstResponseSettles` | node/src/client.ts:830-911 | A call nothing else ends is settled by the first response naming it, refused with its error if that is truthy and answered with its result otherwise, and waits while there is none |
| `Calls.ChunkedResponseSettles` | node/src/client.ts:864-890 | A response too large for one message, its chunks in any order among any traffic, settles its call with its own result or error |
| `Calls.CallTable.CallOnce` | node/src/client.ts:1098-1138 | The call is entered in the table with its timer armed |
| `Calls.CallTable.Settle` | node/src/client.ts:1104-1108 | The call leaves the table and is told its end; an id that is not waiting is ignored |
| `Calls.CallTable.RouteMuxResponse` | node/src/client.ts:893-911 | The response settles the waiting call with its id, refused with a truthy error or answered with the result; unknown ids are dropped |
| `Calls.CallTable.HandleStatus` | node/src/client.ts:834-856 | A status handler fires once and comes first; otherwise the status settles the call named by the subject |
| `Calls.CallTable.RejectAll` | node/src/client.ts:278-290 | The teardown loop tells every waiting call once and empties table and status handlers |
| `Subscriptions.StepKeepsInv` | node/src/client.ts:197-328 | Keys count up, the mux entry is unique, and every living subscription is the current one of an entry in the table, in every step |
| `Subscriptions.Lifecycle` | node/src/client.ts:660-685 | Over any run: connected, every entry has exactly one living subscription; not connected and nothing being detached, none lives if and only if no open connection was forgotten or replaced since the entries were last detached |
| `Subscriptions.StaleClosureDoesNothing` | node/src/client.ts:674-682 | A closure whose entry is gone changes nothing |
| `Subscriptions.UnsubscribeRemovesOwn` | node/src/client.ts:674-682 | A closure removes its own entry and subscription and nothing else |
| `Subscriptions.KeysNeverReused` | node/src/client.ts:669-672 | A key once given names the same entry object for ever |
| `Subscriptions.OnlyTheseDrop` | node/src/client.ts:527-536 | An entry leaves the table only by its closure, by a disconnect, or by its own dead subscription outside a suspend |
| `Subscriptions.ConnectRevives` | node/src/client.ts:254-264 | connect() keeps every entry and closure and leaves every entry with a living subscription |
| `Subscriptions.SubscribeLives` | node/src/client.ts:660-685 | A subscribe() on an open connection enters its pattern under a new key, alive on that connection, and hands out its closure |
| `Subscriptions.EnsureMuxLives` | node/src/client.ts:807-819 | The mux entry is there once asked for, one and the same, and alive on an open connection |
| `Subscriptions.DisconnectForgets` | node/src/client.ts:311-321 | disconnect() closes every subscription and forgets every entry and the mux |
| `Subscriptions.SuspendKeeps` | node/src/client.ts:527-536 | suspend() closes every subscription and keeps every entry and the mux |
| `Subscriptions.DetachCloses` | node/src/client.ts:527-536 | One turn of the suspend loop closes its entry and leaves the others alive |
| `Subscriptions.DisconnectThenConnect` | node/src/client.ts:197-328 | After disconnect() and a new connect() the mux is the only entry, under a key above every earlier one |
| `Subscriptions.SuspendThenConnect` | node/src/client.ts:197-267 | After suspend() and a new connect() every entry is there under its key and pattern, and alive |
| `Subscriptions.DroppedStaysOut` | node/src/client.ts:311-321 | An entry that has left the table never comes back, over any run |
| `Subscriptions.TaskEndDrops` | python/camera_ui_rpc/client.py:675-696 | A subscription that ends by itself outside a suspend takes its entry out of the table, and the mux with it if it is that |
| `Subscriptions.ClosingKeepsEntries` | node/src/client.ts:527-560 | An aborted or lost connection takes its subscriptions with it and leaves every entry for the next connect() |
| `Subscriptions.LateTaskEndDropsNothing` | python/camera_ui_rpc/client.py:675-696 | A late end-of-task event never drops an entry with a living subscription and does nothing to a connected client |
| `Subscriptions.ReplacedNeverReturns` | python/camera_ui_rpc/client.py:675-696 | Over any run: a subscription once replaced is never its entry's own again, and its late end-of-task event does nothing |
| `Subscriptions.NewHandleIsNew` | node/src/client.ts:660-673 | A subscription made anew is a new object: no entry has it yet, and it was not alive |
| `Subscriptions.FailedSubscribeIsRestored` | node/src/client.ts:660-673 | A subscribe() that fails on a closed connection leaves an entry nobody can remove, and the next connect() brings it to life |
| `Subscriptions.TeardownLeavesNoneIff` | node/src/client.ts:541-560 | A suspend or disconnect ends with no subscription alive if and only if it does not find an open connection when it forgets it, and none was replaced since it detached the entries |
| `Subscriptions.ConnectStrandsIff` | node/src/client.ts:541-560 | Once a teardown has told the connection to close, over any run in which a new connection is not lost before the teardown ends: nothing is left alive if and only if no connect() completed in between |
| `Subscriptions.ConnectDuringTeardownIsStranded` | node/src/client.ts:541-560 | From every state in which a suspend or a disconnect waits for the closed connection, a connect() is forgotten with subscriptions alive, entries or not |
| `Subscriptions.SecondDialStrands` | node/src/client.ts:197-267 | A dial that completes over an open connection leaves every subscription on the connection it replaces; they go on when the new one is lost |
| `SubscriptionTable.ClientTable.SubscribeEntry` | node/src/client.ts:660-685 | The entry is registered under a new key, then subscribed; a closure is returned only when that succeeded |
| `SubscriptionTable.ClientTable.UnsubscribeClosure` | node/src/client.ts:674-682 | The closure closes its entry's current subscription and drops its key |
| `SubscriptionTable.ClientTable.EnsureMuxSubscription` | node/src/client.ts:807-819 | The mux entry is registered once and subscribed when it has no living subscription |
| `SubscriptionTable.ClientTable.DetachEntries` | node/src/client.ts:527-536 | The loop closes every entry's subscription and forgets its handle, keeping the entries |
| `SubscriptionTable.ClientTable.DropEntries` | node/src/client.ts:311-321 | Disconnect detaches every entry and leaves table and mux empty |
| `SubscriptionTable.ClientTable.OnFinish` | python/camera_ui_rpc/client.py:678-700 | The end-of-task callback drops its entry only when the ended subscription is still the entry's own and no suspend is under way |
| `SubscriptionTable.ClientTable.ConnectClient` | node/src/client.ts:197-267 | A new connection registers the mux and restores every entry without a living subscription, in the order they were made |
| `SubscriptionTable.ClientTable.CompleteSecondDial` | node/src/client.ts:197-267 | A second dial replaces the open connection and restores only entries without a living subscription |
| `Identifiers.PaddedIsExact` | node/src/utils.ts:315-319 | A number below 36^k padded to k base-36 digits takes exactly k and can be read back |
| `Identifiers.ReplyPrefixDetermines` | node/src/utils.ts:327-338 | Every 48-bit value gives ten characters, and they determine it |
| `Identifiers.GenerateReplyPrefix` | python/camera_ui_rpc/utils.py:38-50 | The digit loop yields exactly ten characters, the padded base-36 digits of its value |
| `Identifiers.ConsecutiveIdsDiffer` | node/src/utils.ts:309-319 | Any 36^4 consecutive ids of a process are pairwise distinct whatever the clock shows; after 36^4 the counter repeats |
| `Identifiers.IdUnderPrefix` | node/src/utils.ts:315-319 | An id made for a reply prefix starts with it and a dot, where the mux subscription finds its reply; the rest is a plain id |
| `Identifiers.IdDetermines` | node/src/utils.ts:309-319 | Ids for one reply prefix are equal if and only if stamp, process prefix and counter are |
| `Identifiers.IdGenerator.GenerateId` | node/src/utils.ts:315-319 | The counter moves on by one, modulo 36^4, and the id ends in it, padded to four digits, and lies under its reply prefix |

## Left out

- The NATS library: the connection is a FIFO queue in each direction that delivers or is lost with everything on it; its own reconnecting inside the life of a session is not modelled.
- The MessagePack libraries, and with them value types beyond nil, booleans, integers, strings, binaries, lists and maps; maps have string keys.
- Go's reflection paths (`extractReflect`, `collectTyped`, struct metadata) and byte widths of Go's numbers beyond the placeholder check.
- Integral floats as placeholder numbers, which Node and Go accept; Node's rounding of integers above 2^53, which are beyond any array index and any payload; negative numbers in chunk headers and chunk indices.
- Frames with two placeholders of one index in Go, where the last one listed wins; for Python and Node see `FastRestore.AcceptedFramesTile` and `NodeRestore.NodeAcceptsMoreIff`.
- Object identity of unchanged subtrees: the copy-on-write walk reports with its `changed` flag where the source returns the same object. Lists and maps share one loop method.
- The order of Go's map iteration is any order (`TableRestore.Visits`); its setters write into the tree, here a new tree is returned.
- Zero-copy views as aliases of the receive buffer: a delivered buffer is only known never to be written again.
- The chunking managers of Node and Go, which follow the same design; the manager modelled is Python's. Clock readings are two parameters per call, before and after the sweep.
- Exceptions thrown by error callbacks, and callbacks that call back into the manager, the dispatcher or the iterator.
- Publishing more than 50 chunks yields to other tasks; callback payloads large enough for that may be overtaken by their boundary and are assumed away in the pull sessions, as is a generator that emits callbacks while it is not being advanced.
- Two subscriptions of one client on one chunked message, which share the transfer id in one manager.
- Whether a call of next() that is told the end is resolved as done or rejected with the error: both are the end here.
- Microtask hops that only carry a finished value on: the end of next() is one step with the cleanup before it. Setup is one waiting phase in which return(), teardown and failure may happen.
- The serial dispatcher in front of the session is the rule that a request is taken only between steps of the session.
- Pull sessions in Python and Go, push streams, plain callback subscriptions, channels, services, proxies, decorators, error formatting, retry loops, timeouts as durations (a timer is a step that may happen).
- Service calls, which keep a subscription of their own; the Python settlement loop, which awaits between calls.
- A second dial that completes between a teardown's detaching of the entries and its closing of the connection; the connection such a dial replaces, which nobody closes; two teardowns at once in Subscriptions; awaits between the entries of Python's suspend loop except as single `Detach` steps; isolated child clients.
- PullEndings.NoSessionLeftBehind: a condition a client can keep; a session that is not ended by its generator, a cancel or a failed publish is left to the server's own cleanup (`PullEndings.LeftBehindIff`).
- Headerless.EveryPayloadReassemblesIff: chunks arrive once each, as they are published; for repeated ones only the sufficient half, `Headerless.HeaderlessReassembles`, is stated.
- Identifiers: randomness and collisions across processes; the reply prefix is a function of its 48-bit value.
