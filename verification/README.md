# TileLink over Switchboard: a verified model

This project models the path by which host code reaches the memory of a simulated design over
TileLink, and proves what that path promises.

- **Memory interface** (`sb_sim/include/memifc.hpp`). `ClientTLMemIfc` cuts a byte range into
  self-aligned power-of-two pieces, issues one Get or PutFullData burst per piece, and clears ranges
  chunk by chunk. Its methods are proved against a flat byte array for every behaviour of queues
  and manager. Any number of threads may share it through its mutex.
- **Message builders** (`sb_sim/include/tilelinklib.hpp`). The mask and lane arithmetic is related to
  sets of addresses and to what a manager stores.
- **Wire format** (`sb_sim/include/tilelinklib.h`, `src/main/scala/Bundles.scala`). The packed C structs
  and the Chisel `pack`/`unpack` are modelled separately and proved to describe the same 416-bit word.
- **Adapter** (`src/main/scala/SwitchboardTLAdapter.scala`). Clocked 8-deep buffers refine one bounded
  first-in first-out queue of messages.
- **Build cache and supervisor** (`sim_build/sim_build.py`). The lock and stamp protocol over any
  interleaving of runs, regenerations and crashes, and the two-process supervisor.

Code that changes state in place is a class or a method with loops (`Splitter.ForAlignedChunks`,
`Agent.TLAgent`, `Adapter.TLLoopback`, `HostLink.Link`, `MemIfc.ClientTLMemIfc`,
`BuildCache.BuildDir`, `Supervisor.Proc`); each method is tied to a specification function, and the
lemmas are about that function. The combinational Chisel definitions are functions.

## How it fits together

| module | holds |
|---|---|
| `Bits` | powers of two, single bits, and/or/shift, count-zeros, alignment |
| `Options`, `Messages` | optional values; the two message types, byte ranges of a buffer |
| `Lanes`, `Agent` | lane masks, masked stores, and the message builders |
| `Splitter` | the range splitter: tiling, legality, optimality, shape and count |
| `Wire`, `Narrowing` | struct and bundle layouts, and the trip through a narrower link |
| `Chain`, `Adapter` | bounded queues in a row, and the clocked loopback adapter |
| `Protocol`, `Transport` | the manager, one transaction, and every interleaving of it |
| `FarEnd` | the builders' messages byte by byte, and what a manager makes of them |
| `HostLink`, `MemIfc` | blocking send and receive, and the memory interface |
| `FlatMemory` | reads, writes and clears of a byte array: the reference |
| `Concurrent`, `Interleaving`, `Atomicity` | threads sharing the interface |
| `StampText`, `BuildCache`, `Supervisor` | the stamp file, the build cache, the two processes |

## Assumptions

- Beat: `data_bit_width / 8` is a power of two and at most 32. The largest transfer is between 1 and
  4096 bytes. A clear longer than the largest transfer also needs that to be a multiple of the beat,
  which the second `set_TLBundleParams` overload does not check
  (`sb_sim/include/tilelinklib.hpp:183-192`); `Atomicity.ClearAssertsIff` shows that nothing less will do.
- Addresses: a call's range lies within the memory behind the link, whose size is at most two to the
  power of the link's address width. The size field can hold the log of every legal transfer.
- The manager is serial: it takes the beats of a Put burst, stores the enabled lanes of each one beat
  further on, acknowledges after the last, answers a Get beat by beat, and takes no request while it
  is answering. This is the manager of the SiFive TileLink Specification 1.8, chapters 4, 6 and 7,
  with no reordering. It echoes the source; opcode, param, corrupt and denied have the widths of
  that specification.
- Integers are unbounded; 64-bit wrap-around, 32-bit shifts and bitwise operations are written out.
- `assert` in the C++ is a demand on the caller (a `requires`) where it is about arguments, and is
  proved where it is about what comes back.
- A queue is a first-in first-out buffer of at least one message, and a blocking send or receive waits
  while everything else moves as it likes. The mutex is an atomic lock.
- A Verilator build that returns and leaves a binary leaves the one asked for, and only that one; a
  build interrupted by a crash does not go on writing afterwards. While a build is under way, and
  after it fails, the binary may be anything.
- A crash stops a run between any two steps, including between two characters of the stamp file; the
  kernel then releases its lock. Modification times of `filelist.f` never decrease.
- KILL cannot be ignored.

## Where the code and its comments differ

The model follows the code.

- `clear_chunk` is described as writing one beat at a time (`sb_sim/include/memifc.hpp:109`); it writes
  chunks of the largest transfer (lines 115-124). It is described as mutex-protected (line 15); the
  mutex is taken per `write_chunk` call inside its loop (line 121). `Atomicity.ClearTornIff` says
  exactly when another thread can see it half done.
- `putPartial` is described as shifting the payload to the correct lane
  (`sb_sim/include/tilelinklib.hpp:210-215`); for a sub-beat transfer it copies the payload to the first
  enabled lane (lines 236-237). `Lanes.PutPartialExact` says exactly for which masks that is right, and
  `Lanes.PutPartialInside` exactly when the copy stays inside the 32-byte payload.
- The `reserved` bytes of a response are described as always zero (`sb_sim/include/tilelinklib.h:123`); no
  builder sets them. `Wire.StructReadsD` and everything built on it allow any value.
- Concurrent runs from different directories are described as safe (`sim_build/sim_build.py:150-152`).
  The cache itself stays sound, but the lock is released before `simulate`, so a run, be it with the
  same settings, can replace or remove the binary in between: `BuildCache.SpoiledIff` says exactly when.

## Model

| member | source | states |
|---|---|---|
| Splitter.FloorPow2IsLargest | sb_sim/include/memifc.hpp:144-147 | The shift by 63 minus the leading zeros is the log of the largest power of two up to `n`, for every 64-bit `n > 0`. |
| Splitter.AlignedChunk | sb_sim/include/memifc.hpp:166-168 | The inner loop ends, with the power of two whose log is the next piece's. |
| Splitter.NextChunkIsLargest | sb_sim/include/memifc.hpp:166-168 | No larger power of two both fits what remains and divides the address. |
| Splitter.ForAlignedChunks | sb_sim/include/memifc.hpp:162-173 | The outer loop ends, emits exactly the specified pieces, and these are self-aligned and fill the range end to end in address order, also when the address wraps at the very end of the address space. |
| Splitter.PiecesTile | sb_sim/include/memifc.hpp:149-160 | The pieces of any range are self-aligned powers of two that fill it without gap or overlap. |
| Splitter.PiecesLegal | sb_sim/include/memifc.hpp:162-236 | Every piece of a beat-aligned range within the largest transfer meets every assertion downstream: a power of two between beat and largest transfer, aligned to itself, its log at most 12 and recovered by counting trailing zeros. |
| Splitter.Laminar | sb_sim/include/memifc.hpp:153-154 | Two self-aligned blocks that share a byte are nested. |
| Splitter.GreedyOptimal | sb_sim/include/memifc.hpp:149-173 | No set of self-aligned power-of-two blocks inside the range that reaches every byte of it, overlapping or not, has fewer blocks than the splitter emits. |
| Splitter.GreedyAttains | sb_sim/include/memifc.hpp:162-173 | The emitted pieces are such a cover with as many distinct blocks as pieces, so the bound is attained. |
| Splitter.BitonicShape | sb_sim/include/memifc.hpp:162-173 | Piece sizes rise strictly, then fall strictly. |
| Splitter.SizeAtMostTwice | sb_sim/include/memifc.hpp:162-173 | No size occurs three times. |
| Splitter.CountBound | sb_sim/include/memifc.hpp:162-173 | A beat-aligned range of any length takes at most twice the log of its length in beats, rounded down, plus one transactions. |
| Lanes.AlignMaskMeaning | sb_sim/include/tilelinklib.hpp:360-390 | Mask bit `i` is set exactly when byte `i` of the beat lies in the transfer, for every aligned address, transfer size and beat width. |
| Lanes.FirstLane | sb_sim/include/tilelinklib.hpp:266-268 | For a sub-beat transfer the first set bit is the address modulo the beat. |
| Lanes.SlotsDisjoint | sb_sim/include/tilelinklib.hpp:371-390 | The masks of two different slots of one size have no bit in common. |
| Lanes.SlotsCoverBeat | sb_sim/include/tilelinklib.hpp:371-390 | The masks of all slots of one size together enable the whole beat. |
| Lanes.PutMeaning | sb_sim/include/tilelinklib.hpp:242-275 | A put of any size, applied as a masked store, writes its bytes at the transfer's address and nothing else, and its copy stays inside the payload. |
| Lanes.PutPartialGood | sb_sim/include/tilelinklib.hpp:202-240 | If the mask is zero, covers a full beat, or enables its first byte, a partial put stores byte `k` exactly for each mask bit `k`. |
| Lanes.PutPartialBad | sb_sim/include/tilelinklib.hpp:234-238 | For every other mask there is a payload for which it stores something else. |
| Lanes.PutPartialExact | sb_sim/include/tilelinklib.hpp:202-240 | The note on `putPartial` holds for all payloads, memories and stale struct contents if and only if that condition on size and mask holds. |
| Lanes.PutPartialInside | sb_sim/include/tilelinklib.hpp:234-238 | The copy of a sub-beat partial put stays inside the payload array if and only if the lane of the transfer, plus its first enabled byte, plus its size is at most 32, for every non-zero mask. |
| Lanes.PutPartialEscapes | sb_sim/include/tilelinklib.hpp:234-238 | It does not for two bytes at address 30 of a 256-bit bus with only the second enabled: the copy starts at the last payload byte. |
| Lanes.FirstByteFits | sb_sim/include/tilelinklib.hpp:234-238 | It always does when the first byte is enabled. |
| Agent.TLAgent.SetSingleBeat | sb_sim/include/tilelinklib.hpp:146-171 | The single-beat overload sets every parameter; for a power-of-two bus the agent is configured for that beat, the size width is its log and the largest transfer one beat. |
| Agent.TLAgent.SetParams | sb_sim/include/tilelinklib.hpp:173-192 | The explicit overload takes the parameters as given. |
| Agent.TLAgent.Put | sb_sim/include/tilelinklib.hpp:255-275 | The struct filled in place holds the message `PutMeaning` is about, whatever it held before. |
| Agent.TLAgent.PutPartial | sb_sim/include/tilelinklib.hpp:217-240 | The struct filled in place holds the message `PutPartialExact` is about. |
| Agent.TLAgent.Get | sb_sim/include/tilelinklib.hpp:285-298 | The struct holds a Get with the transfer's mask; the payload is not touched. |
| Agent.TLAgent.AccessAckData | sb_sim/include/tilelinklib.hpp:312-327 | The struct holds the response with one beat of data at its front. |
| Agent.TLAgent.AccessAck | sb_sim/include/tilelinklib.hpp:337-347 | The struct holds the acknowledgement; the payload is not touched. |
| FarEnd.PutBytes | sb_sim/include/tilelinklib.hpp:255-275 | On the wire `put` has opcode 0, the size, source, address and mask of the transfer in their little-endian places, and the data at the transfer's lane, all other payload bytes as they were. |
| FarEnd.PutPartialBytes | sb_sim/include/tilelinklib.hpp:217-240 | On the wire `putPartial` has opcode 1, the given size, source and address, and the mask: none, as given, or moved to its slot; a zero mask leaves the payload bytes alone. |
| FarEnd.GetBytes | sb_sim/include/tilelinklib.hpp:285-298 | On the wire `get` has opcode 4, the given size, source and address and the transfer's mask, and the payload bytes as they were. |
| FarEnd.AckDataBytes | sb_sim/include/tilelinklib.hpp:312-327 | On the wire `accessAckData` has opcode 1, the given size, source and denied flag, sink 0 and one beat of data first. |
| FarEnd.AckBytes | sb_sim/include/tilelinklib.hpp:337-347 | On the wire `accessAck` has opcode 0, the given size, source and denied flag and sink 0. |
| FarEnd.PutAtManager | sb_sim/include/tilelinklib.hpp:242-275 | For every source, size and aligned address that fit the link, a manager that takes the message of `put` stores its bytes at its address and nothing else, and owes its answer to that source with that size. |
| FarEnd.PutPartialAtManager | sb_sim/include/tilelinklib.hpp:202-240 | The same for `putPartial`: for each mask bit `k` it stores at `addr + k` the payload byte `k` less the first enabled one, which is byte `k` if the first is enabled. |
| FarEnd.GetAtManager | sb_sim/include/tilelinklib.hpp:277-298 | A manager that takes the message of `get` sees exactly the lanes of the transfer enabled and owes its bytes to that source with that size. |
| FarEnd.AckAtClient | sb_sim/include/tilelinklib.hpp:329-347 | The acknowledgement reaches the client with opcode 0, the source and size of the request, not denied. |
| FarEnd.DataAtClient | sb_sim/include/tilelinklib.hpp:300-327 | Each data beat reaches the client with opcode 1, the source and size of the request, not denied, and the beat of memory. |
| Wire.StructAgreesA | sb_sim/include/tilelinklib.h:89-98 | The 52 bytes of every request struct, read little-endian, are the number the Chisel `pack` computes from the same fields. |
| Wire.StructAgreesD | sb_sim/include/tilelinklib.h:114-124 | For every response struct this holds if and only if its `reserved` bytes are zero. |
| Wire.StructReadsD | src/main/scala/Bundles.scala:114-126 | Whatever the `reserved` bytes hold, `unpack` recovers every field of a response struct, and the low 360 bits are the packed word. |
| Wire.UnpackPackA | src/main/scala/Bundles.scala:46-65 | Unpacking a packed request bundle gives it back, for every field assignment. |
| Wire.UnpackPackD | src/main/scala/Bundles.scala:107-126 | Unpacking a packed response bundle gives it back; the packed word fits 360 bits. |
| Wire.PackUnpackA | src/main/scala/Bundles.scala:46-65 | Packing what was unpacked from any 416-bit request word gives the word. |
| Wire.PackUnpackD | src/main/scala/Bundles.scala:107-126 | Packing what was unpacked from a response word keeps exactly its low 360 bits. |
| Wire.WordToStructA | src/main/scala/Bundles.scala:183-193 | The bytes of a packed request, as a queue delivers them, are the struct with the bundle's fields. |
| Wire.WordToStructD | src/main/scala/Bundles.scala:206-216 | The same for responses, whose `reserved` bytes come out zero. |
| Narrowing.ParseStructA | sb_sim/include/tilelinklib.hpp:502-506 | Copying a packet into the request struct recovers every field. |
| Narrowing.ParseStructD | sb_sim/include/tilelinklib.hpp:443-447 | Copying a packet into the response struct recovers every field, whatever its `reserved` bytes hold. |
| Narrowing.TripIsLinkA | src/main/scala/Bundles.scala:67-94 | For every request and accepted link, the trip struct, `unpack`, `toTLA`, link, `fromTLA`, `pack`, struct keeps exactly the low bits each field has room for. |
| Narrowing.TripIsLinkD | src/main/scala/Bundles.scala:128-154 | The same for responses, whatever their `reserved` bytes hold. |
| Narrowing.RoundTripA | src/main/scala/SwitchboardTLAdapter.scala:99-107 | A request arrives unchanged, but for mask and data above the link width, if and only if its fields fit the link. |
| Narrowing.RoundTripD | src/main/scala/SwitchboardTLAdapter.scala:99-107 | The same for responses, whatever their `reserved` bytes hold. |
| Narrowing.AcceptedIff | src/main/scala/SwitchboardTLAdapter.scala:99-107 | The adapter's width checks accept a link if and only if every beat that fits the link survives being packed into the word and unpacked onto a link of the same widths, on both channels. |
| Chain.StepRefinesFifo | src/main/scala/SwitchboardTLAdapter.scala:109-141 | Every enqueue, hand-over and dequeue of a chain of bounded queues is a step of one bounded queue, or invisible to it, and keeps sent equal to received followed by in flight. |
| Chain.RunConserves | src/main/scala/SwitchboardTLAdapter.scala:109-141 | Over every run nothing is lost, duplicated or reordered and no more is in flight than the stages hold. |
| Chain.NeverStuck | src/main/scala/SwitchboardTLAdapter.scala:109-141 | With anything in flight, something can leave or advance, whatever the depths. |
| Adapter.CycleIsRun | src/main/scala/SwitchboardTLAdapter.scala:109-141 | A synchronous cycle, all handshakes decided before the edge, equals a run of atomic steps, and is what the ports of 8-deep buffers see. |
| Adapter.TLLoopback.Tick | src/main/scala/SwitchboardTLAdapter.scala:109-141 | One cycle of both channels at the ports: ready exactly when the first buffer holds fewer than 8, the oldest beat presented; a beat enters exactly when valid and ready, leaves exactly when presented and taken, and moves on exactly when the second buffer held fewer than 8; first-in first-out order is kept. |
| Adapter.LoopbackDeliversA | src/main/scala/example/TLLoopback.scala:10 | What has come out at the manager side is the first messages sent, in order, each as the link carries it, with at most 16 on the way. |
| Adapter.LoopbackDeliversD | src/main/scala/example/TLLoopback.scala:10 | The same for responses, whatever the `reserved` bytes of the structs sent hold. |
| Protocol.AcceptStep | sb_sim/include/memifc.hpp:216-240 | The manager takes each request beat, and after beat `j` holds exactly the data of the beats so far. |
| Protocol.ReplyStep | sb_sim/include/memifc.hpp:183-213 | Each response beat is the next one of the answer: the acknowledgement, or the next bytes of memory. |
| Transport.Unhindered | sb_sim/include/tilelinklib.hpp:433-447 | Client, queues and manager wait for nothing but room and messages, so every schedule is covered. |
| Transport.StepInv | sb_sim/include/memifc.hpp:194-247 | Every step of client, queues or manager keeps the transaction's invariant and uses up exactly one of the steps left. |
| Transport.NextResponse | sb_sim/include/tilelinklib.hpp:439-447 | The beat at the head of the response chain is the next one of the answer. |
| Transport.Progress | sb_sim/include/memifc.hpp:194-247 | An unfinished transaction always has a step, and if the client must wait, queues or manager have one. |
| Transport.DoneMeans | sb_sim/include/memifc.hpp:194-247 | A finished transaction leaves queues empty and manager idle; memory and answer are those of one access to a flat byte array. |
| Transport.QuietIsStill | sb_sim/include/memifc.hpp:194-247 | With nothing outstanding nothing moves. |
| Transport.StuckIffOver | sb_sim/include/memifc.hpp:194-247 | A reachable state cannot go on if and only if the transaction is finished. |
| Transport.EveryRun | sb_sim/include/memifc.hpp:194-247 | For any queue depths and interleaving a run is bounded by a fixed number of steps, cannot be continued exactly at that number, and then has the effect of one flat access. |
| HostLink.Link.SendA | sb_sim/include/tilelinklib.hpp:429-437 | The blocking send returns, whatever else moves, having put exactly one request beat into the chain. |
| HostLink.Link.RecvD | sb_sim/include/tilelinklib.hpp:439-447 | The blocking receive returns, whatever else moves, with the next beat of the caller's own answer. |
| MemIfc.PutOnLink | sb_sim/include/memifc.hpp:237-239 | The message `put` builds for beat `i` reaches the manager as beat `i` of the burst, on every accepted link. |
| MemIfc.GetOnLink | sb_sim/include/memifc.hpp:201-203 | The message `get` builds reaches the manager as the request for the whole transfer. |
| MemIfc.ChunkPieces | sb_sim/include/memifc.hpp:62-104 | What the chunk calls assert of their arguments implies what `read` and `write` assert of every piece. |
| MemIfc.ChunkOkIff | sb_sim/include/memifc.hpp:62-125 | What `ReadChunk`, `WriteChunk` and `ClearChunk` require is exactly what makes the call legal for the thread model too. |
| Protocol.ConfigAdmits | sb_sim/include/tilelinklib.hpp:183-192 | Every accepted link, any queue depths and any largest transfer up to 4096 whose log the size field can hold are covered. |
| MemIfc.ClientTLMemIfc.Read | sb_sim/include/memifc.hpp:194-214 | Copies exactly the bytes of the range to the destination, changes no memory and no other destination byte, and leaves nothing outstanding. |
| MemIfc.ClientTLMemIfc.Write | sb_sim/include/memifc.hpp:227-247 | Stores exactly the source bytes at the address and changes no other byte. |
| MemIfc.ClientTLMemIfc.ReadChunk | sb_sim/include/memifc.hpp:62-76 | The whole chunk call is one read of the flat array. |
| MemIfc.ClientTLMemIfc.WriteChunk | sb_sim/include/memifc.hpp:89-104 | The whole chunk call is one write of the flat array. |
| MemIfc.ClientTLMemIfc.ClearChunk | sb_sim/include/memifc.hpp:114-125 | The loop ends, every iteration meets what `write_chunk` asserts, and exactly the range is zeroed, for any length; one longer than the largest transfer needs that to be a multiple of the beat. |
| MemIfc.ClearNext | sb_sim/include/memifc.hpp:119-124 | Each iteration's chunk is a legal `write_chunk` call and leaves the next one legal. |
| MemIfc.CallOne | sb_sim/include/memifc.hpp:51-125 | Any one call has the memory effect and answer of its meaning on a flat array. |
| MemIfc.CallAll | sb_sim/include/memifc.hpp:51-125 | Any sequence of reads, writes and clears returns exactly the bytes, and leaves exactly the memory, of a flat byte array. |
| Concurrent.AnyoneMayMove | sb_sim/include/memifc.hpp:62-138 | Threads wait for the mutex and nothing else: whenever it is free any waiting thread may take it. |
| Concurrent.BurstIsOk | sb_sim/include/memifc.hpp:100-103 | Wherever a chunk call has got to, its next piece is a legal burst that ends inside the call. |
| Concurrent.BurstDone | sb_sim/include/memifc.hpp:100-103 | A finished burst has taken the call's memory effect and collected bytes from its start to its end. |
| Concurrent.StepKeeps | sb_sim/include/memifc.hpp:62-125 | Every step of any thread, queue or manager keeps the invariant: one holder, part-way through its call on the memory of the logged calls, and every logged answer legal. |
| Interleaving.StartsFresh | sb_sim/include/memifc.hpp:62-138 | Fresh queues, an idle manager and threads with any programs of legal operations are a start the results below cover. |
| Interleaving.OneOutstanding | sb_sim/include/memifc.hpp:62-138 | A thread is inside a chunk call if and only if it holds the mutex, and only it can have a transaction outstanding. |
| Interleaving.ReceivesOwn | sb_sim/include/memifc.hpp:202-213 | Every response beat is consumed by the thread whose burst it answers, although all carry source 0. |
| Interleaving.NextCallExpands | sb_sim/include/memifc.hpp:114-125 | Making the next call of a program leaves its remaining calls, a clear counting as its chunk writes. |
| Interleaving.StepHistory | sb_sim/include/memifc.hpp:62-125 | No step changes the calls a thread has made followed by those it still has to make. |
| Interleaving.StuckIffFinished | sb_sim/include/memifc.hpp:62-125 | No deadlock: nothing can move if and only if every thread has finished. |
| Interleaving.StepUses | sb_sim/include/memifc.hpp:62-125 | Whoever moves uses up exactly one of the steps the whole system has left. |
| Interleaving.SplitExtends | sb_sim/include/memifc.hpp:62-125 | At any point of a run the log so far is a prefix of the final log, what follows are calls the threads had not returned from, and a call returned from by then precedes every call invoked later, by any thread. |
| Interleaving.EveryRun | sb_sim/include/memifc.hpp:62-125 | The calls linearize: every run of any number of threads takes the same number of steps to finish; memory and answers are those of the logged calls made one after the other, each thread's calls are its own in program order, and calls of different threads that do not overlap are logged in real-time order. |
| Atomicity.CallRuns | sb_sim/include/memifc.hpp:89-104 | From an idle interface any thread can carry its next call to the end, with the call's flat effect. |
| Atomicity.SmallClear | sb_sim/include/memifc.hpp:114-125 | A clear is a single call of the same meaning if and only if it fits the largest transfer. |
| Atomicity.ClearAssertsIff | sb_sim/include/memifc.hpp:114-125 | Every call a clear of whole beats makes meets what `write_chunk` asserts if and only if the clear fits the largest transfer or that is a multiple of the beat. |
| Atomicity.ClearTears | sb_sim/include/memifc.hpp:114-125 | Above the largest transfer there is a complete run whose final memory no order with the clear as one call gives. |
| Atomicity.ClearWhole | sb_sim/include/memifc.hpp:114-125 | Up to the largest transfer no complete run ends like that. |
| Atomicity.ClearTornIff | sb_sim/include/memifc.hpp:106-125 | Two writes of another thread can see a clear half done if and only if it exceeds the largest transfer. |
| StampText.ExampleText | sim_build/sim_build.py:347 | The text of one stamp, with a quote, a backslash, a newline and a non-ASCII character in its strings, is what `json.dumps` with an indent of 2 writes, and a newline. |
| StampText.ShortEscapes | sim_build/sim_build.py:347 | The five short escapes `json.dumps` uses. |
| StampText.ExtraTextFails | sim_build/sim_build.py:320-323 | Anything but blanks after a stamp makes it unreadable. |
| StampText.FileRoundTrip | sim_build/sim_build.py:347 | Reading back a written stamp file gives the stamp, for every text in its strings. |
| StampText.TornNeverReads | sim_build/sim_build.py:320-323 | A stamp file cut short anywhere reads as no stamp, unless only its last newline is missing, and then as the stamp. |
| StampText.TornStaysOpen | sim_build/sim_build.py:320-347 | Scanned with attention to strings and escapes, a non-empty proper prefix of a stamp's text leaves the outer brace open, whatever its strings contain; the whole text closes it. |
| StampText.NoReaderTakesTorn | sim_build/sim_build.py:320-323 | No reader that accepts only texts whose brackets are closed, as any JSON parser does, takes a stamp file cut short before its closing brace. |
| BuildCache.ReuseIsSound | sim_build/sim_build.py:316-329 | If the stamp on disk is truthful, no stale reason means a binary with the run's four settings from a file list no older than its own. |
| BuildCache.InterruptedIsStale | sim_build/sim_build.py:318-323 | A missing or cut-short stamp always leads to a rebuild. |
| BuildCache.DecisionMeans | sim_build/sim_build.py:316-329 | With a binary and a whole stamp on disk, nothing is stale if and only if the four settings are the stamped ones and the file list is no newer; otherwise the reason is the first changed setting, or that the RTL was regenerated. |
| BuildCache.BuildDir.BuildOrReuse | sim_build/sim_build.py:332-349 | On a disk with a whole stamp it reuses if and only if not forced, with the same four settings and a file list no newer than stamped, and then changes nothing; otherwise it gives the right reason, the old stamp is gone, a new one is written exactly if the build succeeded and left a binary, and a binary handed on is the run's. |
| BuildCache.BuildTwice | sim_build/sim_build.py:327-336 | After a call that did not fail, the next one with the same stamp reuses the build. |
| BuildCache.StepKeeps | sim_build/sim_build.py:167-218 | Every step of any run, any regeneration, and a crash at any point keep the invariant. |
| BuildCache.StartsFresh | sim_build/sim_build.py:203-218 | The results cover any runs started together on an empty cache or on whatever earlier runs, ended or crashed, left. |
| BuildCache.AnythingGoes | sim_build/sim_build.py:203-218 | A run can crash wherever it is, anything may stand where the binary is while a build is under way, and RTL may be regenerated at any time. |
| BuildCache.StampTornAnywhere | sim_build/sim_build.py:347 | A crash can leave any prefix of the stamp file, the empty one and the whole included. |
| BuildCache.RunTraced | sim_build/sim_build.py:167-179 | Over every execution a run's stamp holds exactly the settings it was started with and the time its own `stat` found, `rebuild` is kept until the decision, and a binary about to be stamped is the one its own build tool left. |
| BuildCache.CacheIsSound | sim_build/sim_build.py:167-179 | Over every interleaving of runs, regenerations and crashes: a stamp that reads back is truthful, at most one run holds the lock, and a run about to release it without an error has a binary built with the settings it was started with, from a file list no older than its `stat` found before it took the lock; started with `rebuild`, it has the binary of its own build. |
| BuildCache.SomeoneMoves | sim_build/sim_build.py:203-218 | While a run has not ended, it or the holder of the lock it waits for has a step that is not a crash. |
| BuildCache.OwnStepNearer | sim_build/sim_build.py:167-194 | Every step of a run, but for writes of its build tool, brings its end nearer in a well-founded order. |
| BuildCache.CrashFreesLock | sim_build/sim_build.py:203-218 | A crash leaves the lock held by nobody if the crashed run held it, and as it was otherwise, and keeps the invariant. |
| BuildCache.RunEnds | sim_build/sim_build.py:167-218 | No run is blocked for good: from every state of the invariant, whoever crashed or holds the lock, there is a continuation without crashes in which the run ends, in the simulation or with an error. |
| BuildCache.SpoiledIff | sim_build/sim_build.py:150-192 | A run that has released the lock can come to simulate a binary not built for it if and only if the binary is already another or some run may still rebuild: it has not built its stamp, or waits or decides with `rebuild` set or a stale cache, or is about to build or building. |
| Supervisor.Proc.Stop | sim_build/sim_build.py:352-365 | The process has ended, and the whole record of what was done to it is one of: INT, TERM and KILL each sent to a running process and waited for 10 seconds in vain, as far as it took, and then its exit seen, or found before the next signal, or following on it. |
| Supervisor.Wait | sim_build/sim_build.py:368-390 | Neither process is left running; the outcome is success, client failure with its code, or simulator failure with its code exactly according to whether the client outlived the grace period of one second and to its own exit code; signals escalate properly; whoever ended the run was not signalled. |

## Left out

- Splitter.ForAlignedChunks: the range must end at or below the top of the 64-bit address space; what the wrapping address does beyond it is not described.
- MemIfc.ClientTLMemIfc.ReadChunk: the mutex is not in this single-caller class; sharing is modelled in `Concurrent`.
- Agent.TLAgent.PutPartial: what memory past the struct holds after a copy that leaves the payload is undefined in C++; the contract is for the calls `Lanes.PutPartialInside` shows to be exactly those that do not.
- Agent.TLAgent.SetSingleBeat: a data width of 0 passes the assertions but then counts the trailing zeros of zero, which is undefined in C++; widths are numbers, and storing them in 8-bit fields and the log label are not modelled.
- Concurrent.StepKeeps: a thread's burst is a value and its bytes are collected when it ends; the byte-by-byte fill of the destination is in `MemIfc`.
- StampText.FileRoundTrip: the reader takes the five fields in the order they are written; what other JSON texts, which this program never writes, read as is not described, and a string is its UTF-16 units.
- BuildCache.CacheIsSound: `interfaces`, hand edits of RTL files and what happens after the lock is released are not covered, as in the program.
- BuildCache.RunEnds: a continuation exists; that the scheduler takes it, and that a build tool ever ends, is not promised.
- Supervisor.Wait: one of the two processes must eventually exit by itself, since the program waits forever otherwise; poll interval, grace and timeouts are events without a duration.
- The Switchboard queue library, fesvr, Verilator, siliconcompiler and the kernel are not part of this model beyond the assumptions above.
- Other TileLink operations (atomics, hints, TL-C): enumerated in the headers, with no behaviour in this code.
- Several client or manager ports on one adapter: the ports are independent copies of the one modelled.
- Managers that deny, corrupt, reorder or interleave responses: the client code would stop at its own assertions.
- `ManagerTLAgent`'s transport: the mirror image of the client's send and receive.
- The order of `simulate` and the client's start, filelist writing, Verilator flags, thread counts, waveform handling and printing: plumbing with only easy claims.
