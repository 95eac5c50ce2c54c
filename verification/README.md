# A Dafny model of the cas block backend

cas serves virtio block devices from a log-structured store. Its daemon may be
killed between any two stores to memory or any two writes to disk, and a
replacement must go on as if nothing had happened. This project models the parts
that carry that promise and proves, for every input and every run, that they
answer as a simple sequential disk would.

`dafny verify dfyconfig.toml` checks the whole project.

## What is modelled

**The retained inflight carrier** (`Inflight*.dfy`). A shared mapping holds a slot
per descriptor head, three counters, the published prefix and the ring cursors.
`InflightLayout` gives the mapping and one atomic store to it. `InflightModel` is
what it stands for: who owns each head, the numbers issued, what the guest has
seen. `InflightRefinement` relates the two at every gap between stores, without
mentioning any call in progress. `InflightOperations` gives each call as its list
of stores and shows what a crash after any of them leaves.
`InflightRecovery` is reconciliation; `InflightReconcile`, `InflightRepair`,
`InflightSoundness` and `InflightReconciliation` prove that it accepts every crash
cut, survives its own crashes, ends settled and replays exactly what is owed.
`InflightRuns` and `InflightLedger` lift this to all runs of calls, crashes,
recoveries and resets. `InflightReset` covers the two stores of a queue reset.
`InflightProgress` says that a healthy carrier does admit and complete what it may,
kind by kind, and `InflightAcceptance` exactly which mappings reconciliation
accepts, whoever wrote them. `InflightScan` and `InflightCarrier` are the methods
themselves.

**The staging log** (`Staging*.dfy`, `Serial*.dfy`). A file of slots, the
reverse scan for the last fence, the forward replay, and the class whose reads
refine a flat byte array. `SerialRestart` puts the restartable queue loop on top:
one request at a time, durable before it is published, resumed from the guest's
used index. `SerialProgress` adds the other half of exactly once: whatever
happened, a restart and one round per outstanding request answer them all.

**The packed log** (`IntervalIndex.dfy`, `PackedLog.dfy`). An interval map that
splits and truncates in place, shown to be a per-byte array, and the sequencer
that publishes into it and compacts out of it.

**The census** (`Census.dfy`), **request decoding** (`VirtioRequest.dfy`, and
`VirtioEncoding.dfy` for the driver's side of it), **the IO scheduler** (`Scheduler.dfy`), **the disk account** (`Space.dfy`), **local command
order** (`LocalOrder.dfy`, `LocalWorker.dfy`) and **completions**
(`Completions.dfy`).

`Units` and `Sorting` hold shared values. Lemmas carry `{:induction false}`: each
proof is the one written.

What the environment decides is a parameter: whether a guest write or a mailbox
send is delivered, how many slot writes succeed and whether a failed one tears,
what survives a crash, what the filesystem measures. A crash is a cut of a store
list, or a surviving file in which synced slots are kept and each later one is as
written, unreadable or gone.

## Where a promise does not hold as stated

Each has an exact condition, proved for all inputs, and a lemma or method at a
concrete input that reaches the failing side.

- A crash inside `reset_queue`. The guest's ring is already reset when its two
  stores are made. Before the first, reconciliation accepts exactly when the reset
  left the used index where the mapping has it (`ResetUnseen`). Between them it
  accepts and keeps the available cursor from before the reset, which is the
  reset's own exactly when the two are equal (`ResetHalfway`). `ResetFails` is a
  run from creation that meets both.
- `overlapping` on an empty range can return a mapping that shares no byte with
  it (`EmptyRangeFinds`); on a nonempty range, returned and sharing a byte are the
  same (`OverlapShares`).
- A refused send does not fail the image by itself: `Local::send` gives the
  command back and returns an error. The batches ahead of a read or flush hold
  exactly the mutations up to its boundary if and only if no batch was refused
  before it was sent (`BoundaryExact`), and a flush answered Ok covers its boundary
  under the same condition (`FlushExact`). `RefusedThenFlushed` is a run in which it
  does not. The backend fails the image on every error before it calls the
  frontend again; over all runs in which it does, a flush answered Ok covers its
  boundary (`FlushCovers`) and the log is in order (`LogInOrder`).
- Opening a staging log after a crash is refused exactly when a surviving fence
  follows a damaged slot (`CrashSafe`); `FenceOutlivesWrite` is such a crash.

## Model

| member | source | states |
|---|---|---|
| InflightLayout.CutConcat | crates/cas/daemon/src/inflight.rs:445-486 | a crash inside two store lists in a row is a crash inside the first, or inside the second from where the first ended |
| InflightModel.MutationsContiguous | crates/cas/daemon/src/inflight.rs:136-138 | serials count admissions; a write, zero, discard or unmapping zero has a number iff it is accepted and not empty, contiguously in serial order, and nothing else has one; a boundary is the number issued before |
| InflightModel.CompletionsWithinPrefix | crates/cas/daemon/src/inflight.rs:179-187 | a successful read or flush saw every accepted write and zeroing before it within the published prefix, and a successful write or zeroing has a number within it |
| InflightModel.FindInv | crates/cas/daemon/src/inflight.rs:439-486 | discovery keeps the model invariant, cursor balance modulo 2^16 included |
| InflightModel.AdmitInv | crates/cas/daemon/src/inflight.rs:517-585 | admission keeps the model invariant, numbering included |
| InflightModel.UseInv | crates/cas/daemon/src/inflight.rs:589-618 | a used entry, successful or an error after failure, keeps the model invariant |
| InflightRefinement.SettledExact | crates/cas/daemon/src/inflight.rs:439-660 | between calls the header's counters and both cursors are exactly the model's and EMPTY means free |
| InflightRefinement.PublicationDecided | crates/cas/daemon/src/inflight.rs:620-660 | at any cut, an ACTIVE slot's used entry is out iff its flag is clear, or the guest is one past the saved cursor and the last head names it |
| InflightRefinement.OneHeadInProgress | crates/cas/daemon/src/inflight.rs:503-660 | at any cut at most one head is between phases, and only it exceeds a header counter, by exactly one |
| InflightOperations.DiscoverGuard | crates/cas/daemon/src/inflight.rs:445-466 | the checks of a discovery pass exactly when the model allows it |
| InflightOperations.AdmitGuard | crates/cas/daemon/src/inflight.rs:517-551 | the checks of an admission pass exactly when the model allows it, discovering first or not |
| InflightOperations.CompleteGuard | crates/cas/daemon/src/inflight.rs:620-642 | the checks of a completion pass exactly when the request is active, the cursor agrees and its prefix is published, or the image has failed |
| InflightOperations.ReadFound | crates/cas/daemon/src/inflight/recovery.rs:64-134 | decoding a slot of any recoverable mapping gives exactly what owns its head |
| InflightOperations.DiscoverCut | crates/cas/daemon/src/inflight.rs:439-486 | a crash after any of the twelve stores of a discovery leaves it undone before the tenth, done from it on, and settled after the last |
| InflightOperations.AdmitCut | crates/cas/daemon/src/inflight.rs:503-585 | a crash after any of the ten stores of an admission leaves it undone before PREPARED and done from it on |
| InflightOperations.CompleteCut | crates/cas/daemon/src/inflight.rs:589-660 | a crash after any step of a completion leaves it undone before the used index moves and used from then on |
| InflightOperations.InitializeCut | crates/cas/daemon/src/inflight.rs:395-408 | a crash inside queue set-up leaves the queue uninitialized until its version is stored |
| InflightReconcile.ScanAccepted | crates/cas/daemon/src/inflight/recovery.rs:136-221 | the header and scan checks accept every crash cut of an image that has not failed |
| InflightReconcile.CompletedIs | crates/cas/daemon/src/inflight/recovery.rs:236-272 | what reconciliation finds half completed is exactly the head whose used entry the saved cursor lags |
| InflightReconcile.LateFacts | crates/cas/daemon/src/inflight/recovery.rs:236-272 | at most one completion is half done over all queues, and it is the published head's |
| InflightRepair.RepairCut | crates/cas/daemon/src/inflight/recovery.rs:305-320 | a crash after any repair store leaves a recoverable mapping |
| InflightSoundness.SerialRestored | crates/cas/daemon/src/inflight/recovery.rs:291-293 | the highest serial recovered is the number of admissions |
| InflightSoundness.MutationRestored | crates/cas/daemon/src/inflight/recovery.rs:294-298 | the highest mutation recovered is the last one issued |
| InflightSoundness.LatestRestored | crates/cas/daemon/src/inflight/recovery.rs:274-290 | the newest saved discovery is the last one made and carries its queue's cursor |
| InflightReconciliation.ReconcileSettles | crates/cas/daemon/src/inflight/recovery.rs:223-335 | reconciliation accepts a crash cut iff the image has not failed; every cut of its own stores is recoverable again; finished, the mapping is settled with at most the published head given back |
| InflightReconciliation.ReplayExact | crates/cas/daemon/src/inflight/recovery.rs:300-334 | the replay is exactly the admitted requests in serial order, exactly the discovered ones in discovery order, and the counters to go on from |
| InflightRuns.OpSurvives | crates/cas/daemon/src/inflight.rs:384-660 | every cut of every call a settled carrier accepts is recoverable for the model at that cut, and settled when the call finishes |
| InflightRuns.CreatedSafe | crates/cas/daemon/src/inflight.rs:206-245 | a mapping just created is settled under any guest |
| InflightRuns.ResetSettles | crates/cas/daemon/src/inflight.rs:420-436 | a whole reset of a quiesced queue settles it at the new cursors |
| InflightRuns.RunSafe | crates/cas/daemon/src/inflight.rs:384-660 | under any calls, kills, recoveries and kills of recoveries the mapping stays recoverable, and settled while served |
| InflightLedger.RunBooks | crates/cas/daemon/src/inflight.rs:439-660 | over every run the books balance, and nothing taken, admitted, used or published is ever taken back |
| InflightLedger.UsedOnce | crates/cas/daemon/src/inflight.rs:589-660 | through any crashes an admission has at most one used entry, and holds its head exactly until it has one |
| InflightLedger.TakenOnce | crates/cas/daemon/src/inflight.rs:439-551 | every descriptor taken either still waits or was admitted, once |
| InflightLedger.CursorConservation | crates/cas/daemon/src/inflight.rs:395-486 | on a live queue the slots in use equal available minus used, from the distance at the last set-up, modulo 2^16 |
| InflightLedger.RunNumbers | crates/cas/daemon/src/inflight.rs:517-585 | the numbering, kind by kind, for every run from creation |
| InflightLedger.RunPrefix | crates/cas/daemon/src/inflight.rs:384-391 | for every run from creation, successful writes and zeroings are numbered within the published prefix, successful reads and flushes saw every such request before them, and the prefix is within what was issued |
| InflightLedger.RunCursors | crates/cas/daemon/src/inflight.rs:395-660 | between calls of every run from creation, through rejection, failed completion and error retirement, the slots in use are how far the cursors have drifted apart modulo 2^16 since the last Initialize or Reset of that queue in the run |
| InflightLedger.RunDecided | crates/cas/daemon/src/inflight.rs:439-660 | at every cut of every run, an ACTIVE slot's request has a used entry iff its flag is clear or the guest's index and last head say so; one head at most is in progress, and only it exceeds a header counter, by exactly one |
| InflightLedger.RunReplays | crates/cas/daemon/src/inflight/recovery.rs:223-335 | after any run a replacement is refused iff the image failed, and else is told exactly what is owed |
| InflightProgress.OneRequest | crates/cas/daemon/src/inflight.rs:439-660 | from every safe state a descriptor that may be taken is admitted as the next entry and completed exactly when its boundary is published; its head is then free and both cursors have moved by one |
| InflightProgress.OneError | crates/cas/daemon/src/inflight.rs:609-660 | from every safe state any admitted request is retired with an error once the image has failed, published or not |
| InflightProgress.TakesExactly | crates/cas/daemon/src/inflight.rs:140-163 | the checks of discovery and admission pass exactly for an in-range request of its kind on a free or already taken head of a live queue, with numbers to spare |
| InflightProgress.CompletesExactly | crates/cas/daemon/src/inflight.rs:620-642 | the checks of a completion pass exactly for an open request: a rejected or protocol one at any prefix, a read or flush at its boundary, a write or zeroing at its number |
| InflightProgress.SetsUpExactly | crates/cas/daemon/src/inflight.rs:395-436 | a queue is set up once, and rebased exactly while none of its heads is owned |
| InflightAcceptance.AcceptsExactly | crates/cas/daemon/src/inflight/recovery.rs:64-335 | reconciliation accepts any mapping, whoever wrote it, iff its header, queues, slots, numbers and the guest's indices meet the stated conditions on their fields |
| InflightAcceptance.CellExactly | crates/cas/daemon/src/inflight/recovery.rs:64-192 | a slot passes the scan iff its fields, by their codes, are those of a request of that kind |
| InflightAcceptance.DistinctExactly | crates/cas/daemon/src/inflight/recovery.rs:193-220 | the scan's comparison over sorted records passes iff no two slots share a discovery, serial or mutation number |
| InflightReset.ResetHalfway | crates/cas/daemon/src/inflight.rs:418-436 | between the reset's two stores reconciliation accepts, and restores the new cursor iff it equals the old one |
| InflightReset.ResetUnseen | crates/cas/daemon/src/inflight.rs:418-436 | before the reset's first store reconciliation accepts iff the guest's used index is the saved one |
| InflightReset.ResetLoses | crates/cas/daemon/src/inflight.rs:418-436 | a created carrier with one queue set up, reset to another used index and cursor: refused before the first store, and served from the old cursor between the two |
| InflightReset.ResetFails | crates/cas/daemon/src/inflight.rs:418-436 | the same at one concrete input |
| InflightScan.Scan | crates/cas/daemon/src/inflight/recovery.rs:136-221 | the nested scan accepts exactly the mappings every check passes on, and collects every occupied head by serial |
| InflightScan.Clashes | crates/cas/daemon/src/inflight/recovery.rs:193-220 | comparing neighbours after sorting finds a repeated serial, discovery or mutation exactly when there is one |
| InflightScan.Interruptions | crates/cas/daemon/src/inflight/recovery.rs:236-272 | the loop over queues computes the half-done completions or refuses as its definition does |
| InflightScan.Highest | crates/cas/daemon/src/inflight/recovery.rs:274-298 | the folds compute the newest discovery and the highest serial and mutation |
| InflightCarrier.Carrier.constructor | crates/cas/daemon/src/inflight.rs:206-245 | a carrier is created settled |
| InflightCarrier.Carrier.Discover | crates/cas/daemon/src/inflight.rs:439-486 | succeeds iff the request is in range and its head free at the cursor, and then issues exactly its store list in order; otherwise changes nothing |
| InflightCarrier.Carrier.Admit | crates/cas/daemon/src/inflight.rs:488-585 | succeeds iff the request is admissible, issues exactly its store list and returns the next entry, numbered iff it is a nonempty write or zeroing and not rejected |
| InflightCarrier.Carrier.Publish | crates/cas/daemon/src/inflight.rs:384-391 | moves the prefix iff it neither falls nor passes what was issued |
| InflightCarrier.Carrier.InitializeQueue | crates/cas/daemon/src/inflight.rs:395-408 | sets a queue up once, from the guest's ring |
| InflightCarrier.Carrier.ResetQueue | crates/cas/daemon/src/inflight.rs:420-436 | rebases a queue iff every head of it is free |
| InflightCarrier.Carrier.Complete | crates/cas/daemon/src/inflight.rs:589-660 | a completion is accepted iff it is open and due; delivered, it issues its six steps and frees the head; undelivered, it poisons the image |
| InflightCarrier.Carrier.CompleteError | crates/cas/daemon/src/inflight.rs:609-660 | after failure an error retires any active request, published or not |
| InflightCarrier.Carrier.Reconcile | crates/cas/daemon/src/inflight/recovery.rs:223-335 | whatever the mapping, nothing is stored unless every check passes; from a crash cut it ends settled with the exact replay |
| Sorting.Repeats | crates/cas/daemon/src/inflight/recovery.rs:200-219 | sorting and comparing neighbours decides whether a number repeats |
| Staging.BlocksRead | crates/cas/core/src/staging.rs:178-190 | through the block tree every aligned block reads as the image the appends build |
| StagingCrash.Recover | crates/cas/core/src/staging.rs:98-145 | opening succeeds iff everything up to the last fence is in order and then has appended equal to durable; else it names the first bad slot |
| StagingCrash.CrashSafe | crates/cas/core/src/staging.rs:94-145 | after any crash opening is refused iff a fence survived a damaged slot before it; else it keeps a prefix of the operations holding every acknowledged one |
| StagingCrash.FenceOutlivesWrite | crates/cas/core/src/staging.rs:94-145 | one unsynced write lost with its fence kept is such a refusal |
| StagingCrash.PrefixNeverCorrupt | crates/cas/core/src/staging.rs:94-145 | if what survives is a prefix with a damaged tail, opening is never refused |
| StagingCrash.ReopenSame | crates/cas/core/src/staging.rs:110-144 | opening a recovered file again keeps all of it |
| StagingLog.WriteSlotsImage | crates/cas/core/src/staging.rs:227-243 | block by block, the slots of a write lay its bytes over the image |
| StagingLog.StagingLog.Append | crates/cas/core/src/staging.rs:192-223 | one record in sequence, or an exhausted or poisoned log with nothing counted |
| StagingLog.StagingLog.Write | crates/cas/core/src/staging.rs:227-243 | the image is the old one with the bytes laid over it, or with whole leading blocks of them and the log poisoned |
| StagingLog.StagingLog.Zero | crates/cas/core/src/staging.rs:247-254 | the range reads as zeroes; an empty one takes no number; it succeeds iff in range, unpoisoned and, unless empty, the one record is written |
| StagingLog.StagingLog.Flush | crates/cas/core/src/staging.rs:258-269 | durable reaches appended only after the sync, and the image does not change |
| StagingLog.StagingLog.Read | crates/cas/core/src/staging.rs:271-292 | on an unpoisoned log a read in range is the image's bytes and never reports corruption |
| SerialRestart.AttemptIs | crates/cas/daemon/src/storage.rs:283-302 | a write's blocks and fence, on a log in order, apply exactly that request |
| SerialRestart.Distance | crates/cas/daemon/src/backend.rs:963-980 | the wrapped distance between the indices is the number outstanding, and equality means none is |
| SerialRestart.FetchIs | crates/cas/daemon/src/backend.rs:976-989 | the ring slot at the restored 16-bit cursor holds the first request without a used entry |
| SerialRestart.Survives | crates/cas/core/src/staging.rs:98-145 | what recovery keeps is the settled slots, or those and one whole attempt |
| SerialRestart.ExactlyOnce | crates/cas/daemon/src/backend.rs:881-896 | through any kills, restarts and power losses, while no request got an error, every answer is sequential execution's and the idle image is after every published request, or also the next |
| SerialRestart.ErrorsAreWhole | crates/cas/daemon/src/storage.rs:286-302 | with errors too, everything answered Ok took effect once in order and a failed request took effect whole or not at all |
| SerialRestart.KillRestarts | crates/cas/daemon/src/backend.rs:963-989 | after a process kill at any point the restart is not refused |
| SerialProgress.RoundServes | crates/cas/daemon/src/backend.rs:881-896 | from every idle state one fetch, one append per block and one for the fence, a finish and a used entry answer the next request as sequential execution does and leave the image one request further on |
| SerialProgress.AllAnswered | crates/cas/daemon/src/backend.rs:963-989 | after any run, a restart on any survivor without a fence after damage and one round per outstanding request answer every posted request, the new ones Ok |
| SerialProgress.AtLeastOnce | crates/cas/daemon/src/backend.rs:963-989 | after any run without errors that continuation leaves every answer and the image those of sequential execution |
| SerialProgress.KillSurvives | crates/cas/daemon/src/backend.rs:963-989 | the file a killed process leaves is always such a survivor |
| SerialProgress.FailureAnswers | crates/cas/daemon/src/storage.rs:286-302 | a failed request, torn or not, is answered with an error and stops the daemon |
| SerialProgress.RestartExactly | crates/cas/daemon/src/backend.rs:963-989 | a restart is refused exactly on a damaged log or indices further apart than the ring |
| SerialProgress.ServesAll | crates/cas/daemon/src/backend.rs:881-896 | every list of requests the log has numbers for is posted, served and answered |
| StagingWorker.Worker.Execute | crates/cas/daemon/src/storage.rs:281-322 | a success answers and changes the image as a plain disk, and a flush or durable write leaves nothing unsynced; with durable writes it succeeds iff nothing failed before, the request is in order and the disk takes all of it, appends exactly one attempt, and a failure leaves a prefix of that and one torn slot at most, unsynced |
| IntervalIndex.Index.Replace | crates/cas/core/src/append/index.rs:71-97 | exactly the range maps to the new mapping, every other byte keeps its mapping and payload place, intervals stay disjoint and at most two entries are added |
| IntervalIndex.Index.Trim | crates/cas/core/src/append/index.rs:79-88 | a predecessor across either boundary is cut, keeping its bytes outside the range |
| IntervalIndex.Index.Clean | crates/cas/core/src/append/index.rs:90-95 | the removal loop ends with nothing starting inside and no byte outside changed |
| IntervalIndex.Index.RetainAfter | crates/cas/core/src/append/index.rs:99-101 | each byte keeps its mapping iff it is newer than the given mutation |
| IntervalIndex.Index.Overlapping | crates/cas/core/src/append/index.rs:103-113 | yields exactly the mappings that start before the end and reach past the start, once each, ascending and disjoint |
| IntervalIndex.OverlapShares | crates/cas/core/src/append/index.rs:103-113 | such a mapping shares a byte with the range exactly when the range is not empty |
| IntervalIndex.EmptyRangeFinds | crates/cas/core/src/append/index.rs:103-113 | an index in which an empty range returns a mapping that straddles it |
| PackedLog.OverlayReads | crates/cas/core/src/append.rs:388-414 | the newest staged mutation over the base as of D reads as the image as of P |
| PackedLog.AdvanceUnseen | crates/cas/core/src/append/compaction.rs:120-141 | advancing D changes no read |
| PackedLog.Log.PrepareAppend | crates/cas/core/src/append/submission.rs:94-128 | a batch is issued iff it surely fits the index, even if each mutation splits an interval |
| PackedLog.Log.PublishAppend | crates/cas/core/src/append/submission.rs:157-174 | batches publish in order only; the index then shows each byte's newest published mutation beyond D |
| PackedLog.Log.PrepareFence | crates/cas/core/src/append/submission.rs:178-193 | one fence at a time, at the issued prefix |
| PackedLog.Log.CompleteSync | crates/cas/core/src/append/submission.rs:197-215 | durable reaches the fence only when all of it is published |
| PackedLog.Log.PublishCompaction | crates/cas/core/src/append/compaction.rs:120-141 | D moves up within the durable prefix only, and the overlay stays exact |
| PackedLog.Log.Read | crates/cas/core/src/append/read.rs:143-192 | reading through the index over the compacted base gives the published image |
| PackedLog.Lay | crates/cas/core/src/append/read.rs:161-184 | laying the overlapping mappings left to right gives each byte its mapping's byte, or the base's |
| Census.Scan | crates/cas/core/src/census.rs:59-174 | every counter of the one-pass scan equals its definition by sums, unions and intersections, and neither closing subtraction underflows |
| Census.VisitKeeps | crates/cas/core/src/census.rs:84-141 | after each chunk every counter is that of the sets met so far |
| Census.Partition | crates/cas/core/src/census.rs:48-53 | the five categories share out an image's nonzero bytes |
| Census.CategoryExactly | crates/cas/core/src/census.rs:107-141 | which category a chunk falls in, by where else it occurs: at its place in the base, elsewhere in it, in an earlier descendant, earlier in its own image, or nowhere |
| Census.DistinctIs | crates/cas/core/src/census.rs:90-98 | a chunk counts as content iff it has a nonzero byte |
| Census.Accounts | experiments/verify-fleet.py:81-92 | the sum of the children's own weights is the fleet's and the two kinds of duplicates |
| Census.OrderUnseen | experiments/verify-fleet.py:81-92 | permuting the descendants changes none of their five counters |
| VirtioRequest.SplitUnseen | crates/cas/daemon/src/request.rs:140-251 | splitting a descriptor anywhere changes neither acceptance nor what is decoded |
| VirtioRequest.EmptyUnseen | crates/cas/daemon/src/request.rs:140-146 | nor does an empty descriptor |
| VirtioRequest.Parse | crates/cas/daemon/src/request.rs:140-251 | the parser decodes exactly what the byte stream says; data is the stream without its first sixteen bytes and its last, and its descriptors add up to the length |
| VirtioRequest.FindStatus | crates/cas/daemon/src/request.rs:34-43 | the status byte is the last byte of the stream, if it can be written |
| VirtioRequest.Validate | crates/cas/daemon/src/request.rs:149-169 | the descriptor checks pass exactly when readable bytes precede writable ones and all are in guest memory |
| VirtioRequest.TakeHeader | crates/cas/daemon/src/request.rs:175-201 | the header is the first sixteen bytes, taken iff all are readable, and the rest of the stream is left |
| VirtioRequest.ZeroOf | crates/cas/daemon/src/request.rs:253-301 | the range of a discard or zero request is decoded from its sixteen bytes, however scattered |
| VirtioRequest.CopyRange | crates/cas/daemon/src/request.rs:261-271 | the range copy never overruns and gathers the stream's bytes |
| VirtioRequest.DecodeChain | crates/cas/daemon/src/backend.rs:249-278 | a refused request is answered with an error exactly when it has a writable status byte |
| VirtioEncoding.RoundTrip | crates/cas/daemon/src/request.rs:140-301 | what a driver writes for a read, write, flush, id, discard or zero in range is decoded as just that |
| VirtioEncoding.NothingElse | crates/cas/daemon/src/request.rs:140-301 | a framed chain that is no driver's request is unsupported iff its type or flags are unknown, else refused |
| VirtioEncoding.Unframed | crates/cas/daemon/src/request.rs:149-201 | a chain without sixteen readable bytes, a bounded payload in order and a writable status byte, all in guest memory, is refused |
| VirtioEncoding.ParseExactly | crates/cas/daemon/src/request.rs:140-301 | however the encoding is scattered, the parser gives back its kind, range, status address and payload bytes, and nothing for anything else |
| VirtioEncoding.DecodeExactly | crates/cas/daemon/src/backend.rs:249-278 | the same for the chain the backend takes; what is refused is answered with an error iff its last byte can take a status |
| VirtioEncoding.EveryAskHasAChain | crates/cas/daemon/src/request.rs:140-301 | every request in range has such an encoding |
| Scheduler.BoundedWait | crates/cas/core/src/scheduler.rs:77-106 | while an image waits, at most N-1 demand grants go to others and at most N-1 plus a third of N, rounded up, in all |
| Scheduler.OvertakenThrice | crates/cas/core/src/scheduler.rs:202-234 | a waiting background owner is overtaken by at most three demand grants |
| Scheduler.RunBooked | crates/cas/core/src/scheduler.rs:89-106 | borrowed demand plus background on its own opportunity is a quarter of all grants, rounded up |
| Scheduler.SearchIs | crates/cas/core/src/scheduler.rs:77-82 | the wrapped search finds the nearest ready image at or after the cursor, or none is ready |
| Scheduler.SelectedExactly | crates/cas/core/src/scheduler.rs:77-87 | background is selected iff it waits and it is its opportunity or no image is ready; else the nearest ready image; none iff nobody waits |
| Scheduler.RunCounted | crates/cas/core/src/scheduler.rs:89-106 | over every run the counters are the grants made, in number and in bytes |
| Scheduler.Shared.Choose | crates/cas/core/src/scheduler.rs:77-87 | the loop selects as its definition does |
| Scheduler.GrantRotates | crates/cas/core/src/scheduler.rs:77-106 | a demand grant passes nobody ready over, sends its image to the back of the round and moves every other waiting image up by the same number of places |
| Scheduler.GrantYields | crates/cas/core/src/scheduler.rs:77-106 | a background grant is on its own opportunity or nobody was ready, and leaves the round as it was |
| Scheduler.Shared.TakeTurn | crates/cas/core/src/scheduler.rs:244-254 | a port is granted iff it is the nearest ready one and the opportunity is not a waiting background owner's; the round, opportunity and counters then move by one grant |
| Scheduler.Shared.PollBackground | crates/cas/core/src/scheduler.rs:202-216 | a waiting owner is granted iff it is its opportunity or no image is ready |
| Space.RunKept | crates/cas/core/src/space.rs:99-254 | over every run promised covers the live reservations; unless failed it equals them, stays within capacity with what is allocated, and background is active iff exactly one is live |
| Space.ReserveIntact | crates/cas/core/src/space.rs:99-136 | no foreground grant leaves used above capacity less reserve |
| Space.Hysteresis | crates/cas/core/src/space.rs:173-185 | once pressured no foreground grant occurs until used has been below both 60 percent and capacity less reserve |
| Space.PressuredExactly | crates/cas/core/src/space.rs:99-185 | over every run the account is pressured iff, since it was last brought up to date below both marks, it reached the foreground cap or denied for lack of room a request an empty account could take |
| Space.StepMarks | crates/cas/core/src/space.rs:173-185 | every grant, measurement, finish and drop sets the flag at the cap, clears it below both marks and else leaves it |
| Space.FailsExactly | crates/cas/core/src/space.rs:162-242 | the account fails exactly on a measurement beyond capacity, output beyond its promise, an unmeasured outcome or its owner's word |
| Space.DrainsAndGrants | crates/cas/core/src/space.rs:173-185 | once a measurement is below both marks, a foreground request that fits is granted |
| Space.Shared.Reserve | crates/cas/core/src/space.rs:99-136 | grants exactly by the numbers on disk and promised, the flag and the background owner; a denial for lack of room raises pressure |
| Space.Shared.Observe | crates/cas/core/src/space.rs:155-171 | a measurement fails the account iff it is beyond capacity, and brings the flag up to date |
| Space.Shared.Finish | crates/cas/core/src/space.rs:218-234 | the promise is given back and excess output recorded before it fails the account; it succeeds iff the output is within its promise and the rest within capacity |
| Space.Shared.Unknown | crates/cas/core/src/space.rs:238-242 | an unmeasured outcome keeps the promise in full and fails the account |
| Space.Shared.Drop | crates/cas/core/src/space.rs:245-253 | dropping cancels only the unused promise and brings the flag up to date |
| LocalOrder.BoundaryExact | crates/cas/daemon/src/local.rs:789-813 | over every run, the batches ahead of a read or flush hold exactly the mutations up to its boundary, in order, iff no batch was refused before it was sent |
| LocalOrder.FlushExact | crates/cas/daemon/src/local.rs:544-561 | over every run, a flush answered Ok has its boundary durable iff no batch was refused before it was sent |
| LocalOrder.LogExact | crates/cas/daemon/src/local.rs:544-561 | over every run without repeated ids, the log is the mutations in admission order iff no batch was refused before one that was logged |
| LocalOrder.RefusedThenFlushed | crates/cas/daemon/src/local.rs:544-561 | one refused batch and a delivered flush: answered Ok with boundary 1 and durable 0, unless the image is failed in between |
| LocalOrder.FlushCovers | crates/cas/daemon/src/local.rs:1053-1074 | in every run where the backend fails the image on each error before it calls again, as its event handler does (backend.rs, lines 1326-1331), a flush answered Ok left exactly the mutations up to its boundary durable |
| LocalOrder.LogInOrder | crates/cas/daemon/src/local.rs:1012-1052 | in those runs the log is the admitted mutations in order, failed or not |
| LocalOrder.FailureIsFinal | crates/cas/daemon/src/local.rs:920-950 | no completion succeeds after one has failed |
| LocalOrder.NothingLost | crates/cas/daemon/src/local.rs:952-967 | over every run each request handed over is in the open batch, in the mailbox, answered by the worker or given back, as often as it was handed over; the commands run have answered each of their requests by its own id |
| LocalOrder.OkExactly | crates/cas/daemon/src/local.rs:974-1074 | a completion succeeds iff its command ran before the image failed |
| LocalOrder.RepliesEcho | crates/cas/daemon/src/local.rs:1053-1074 | over every run an answer to a read or flush carries that command's id, kind and boundary |
| LocalOrder.DurableExactly | crates/cas/daemon/src/local.rs:1053-1074 | only a flush whose IO succeeds moves what is durable, to all that is logged |
| LocalOrder.FailsExactly | crates/cas/daemon/src/local.rs:920-938 | only failed IO or the backend fails the image |
| LocalOrder.Local.Pack | crates/cas/daemon/src/local.rs:676-718 | a mutation is numbered by being packed, iff a batch is open and numbers are left |
| LocalOrder.Local.Seal | crates/cas/daemon/src/local.rs:720-727 | a nonempty batch is handed over whole or given back whole with an error |
| LocalOrder.Local.Enqueue | crates/cas/daemon/src/local.rs:789-813 | a read or flush captures its boundary before the batch ahead of it is sealed, and follows it; it succeeds iff not paused and both sends are taken, and else is given back |
| LocalWorker.Worker.Append | crates/cas/core/src/append.rs:353-366 | a batch is issued and published in one go iff the image has not failed, it surely fits and its bytes are written; else the image fails |
| LocalWorker.Worker.Flush | crates/cas/core/src/append.rs:368-386 | a flush succeeds iff the image has not failed and the log is already covered or the sync succeeds, and leaves all of the log durable |
| Completions.AnsweredOnce | crates/cas/daemon/src/backend.rs:558-825 | along any run each request has at most one used entry, and after an image failure all new ones are errors |
| Completions.EntriesGrow | crates/cas/daemon/src/backend.rs:202-247 | used entries are never taken back, and a failure's mark never moves |
| Completions.EveryRequestOnce | crates/cas/daemon/src/backend.rs:558-825 | over every run each request accepted waits, has its one used entry, or was abandoned because its delivery failed or it was reaped unanswered, and only one of these |
| Completions.Backend.Enqueue | crates/cas/daemon/src/backend.rs:558-712 | a request takes the next id and is answered at once with its status, entered as pending, or answered with an error if storage refused it; success iff it was answered or storage took it, else the backend stops |
| Completions.Backend.CompleteOne | crates/cas/daemon/src/backend.rs:713-825 | a delivered report for a pending request adds exactly its used entry, an error if the image or the operation failed, whether or not the backend then stops; any other report adds nothing |
| Completions.Backend.FailPending | crates/cas/daemon/src/backend.rs:1117-1150 | the used entries added are exactly one error for each reachable pending request without one, and those requests are marked |
| Completions.Backend.Drain | crates/cas/daemon/src/backend.rs:1082-1115 | a drain publishes nothing and succeeds iff the next reports are one for each pending request; an error among them fails the image |

## Left out

- The mapping's byte offsets, magic, version and reserved bytes: one identity value stands for all the fields `validate_header` compares.
- Memory ordering: a store is atomic and stores land in program order, as their release order gives.
- Admission observers that fail: their effect is that of a kill at PREPARED or ACTIVE, which the cuts cover.
- Reset in a run is one step with the guest's own reset; the cuts between are in `InflightReset`.
- `oldest_live_mutation`, `attach`, `export` and the mapping file itself: they would only add easy members.
- Staging file header and checksums: a slot decodes or it does not. A partly written trailing slot counts as gone.
- Queue loop batching, concurrent queues and feature negotiation: the restartable loop takes one request at a time.
- Packed log segments, rollover, recovery, payload checksums and read pins: the sequencer is modelled over mutations, not files. `PackedLog.Log` issues never report `Rollover`.
- Building compacted manifests: compaction is what it does to D and the index.
- Reading images in chunks, change detection and whole-image digests in the census: an image is its list of chunks, and equal hashes mean equal chunks.
- Request segments' 256-entry limit and allocation budgets.
- Scheduler wake-ups and deadlines: a waiting owner looks, or leaves.
- Disk limits' arithmetic and filesystem inspection: limits and measurements are given.
- Synchronous local execution with a full or closed completion mailbox: the worker then stops, which a run that never runs it again covers, but a batch answered in part is not modelled.
- Concurrent (reactor) local execution, pause barriers and new attachments beyond their effect on the mailbox.
- Counters, metrics, traces, fault injection and error texts.
- Signalling the guest apart from writing the used entry: the two are one step.
