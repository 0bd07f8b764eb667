# Verified model of the HBM/LPDDR memory simulator

The project models the state machines behind the simulator and proves what they are for:

- **Hazard logic** (`Lines`, `StoreBuffer`, `StoreBufferProofs`, `ControllerQueues`, `ControllerRefinement`,
  `ControllerObject`, `Forwarding`, `ForwardedRuns`, `AddressRanges`). A store buffer with write coalescing, byte-level
  read forwarding, four queues and out-of-order issue. Reads see a simple sequential memory, with the direct PHY under
  any byte masks and with the delaying one for unmasked writes, under every scheduler that picks among the eligible
  requests; with masked writes and the delaying PHY exactly the reads forwarded past an uncovered write can differ.
  `StoreBuffer` is the machine over sets of requests, `ControllerQueues` the machine over the actual queues,
  `ControllerObject.Controller` the object with loops; each is proved to be a case of the one before.
- **Storage** (`RowBuffers`, `MemoryImageObject`, `ControllerStorage`, `MappedGeometry`, `Bitmaps`, `ChunkStore`,
  `ChunkCache`, `ChunkBackend`, `ChunkFileObject`, `Bits`, `HammingCode`, `EccShadow`). Row buffers over a line backend are
  one flat byte memory, in which the lines of the hazard logic are found again; the chunk-file backend with its
  least-recently-used cache is a map of lines; the error-checking shadow is characterized for every possible difference.
- **Protocol engine** (`Dram`, `TimingScopes`, `TimingHistory`, `RefdbSweep`, `ActivationWindow`, `TimingEngineObject`,
  `Banks`, `CommandBus`, `RowOwnership`, `RowTrace`, `BankTimings`, `RunBuilder`, `RowLoss`, `PrechargeAll`,
  `BankExecutorObject`). Ready registers stand for checks over the whole command history; a row stays open from a
  request's activate to its data command exactly if rows are left open; bank timings hold over whole runs.
- **Refresh** (`RefreshRules`, `RefreshLedger`, `RefreshManagerObject`, `RefdbRotation`, `RefdbOrder`,
  `MaintenanceQueues`, `ExitRuns`). Obligations are conserved and bounded exactly where they are, maintenance keeps its
  order, and from the manager to the bus the rotation never repeats a bank pair.
- **System** (`HostProtocol`, `HostRuns`, `HostInterfaceObject`, `EndToEnd`, `AddressMap`, `StackMap`). One whole response
  per host request under any completion order; with the controllers behind it, every read a host is handed consists of
  the bytes of sequential memories; the address maps are bijections.

Scheduling, latencies, completion order, queue room and consumer speed are left open: a step may be any that the
code's own guards admit, so what is proved holds for every scheduler and workload. Runs are sequences of such steps.
In the files, a `Now()` function gives an object's state as a value; methods are specified by functions on such
values, and the theorems are about those functions and about runs of them. `Valid()` ties an object to the runs: the
controller, the bank executor and the host interface carry ghost logs, so that their methods promise what the run
theorems say.

Where the code falls short of what one might expect, the exact condition is proved:

- A read forwarded from the write buffer looks at the image and the buffer but not at writes inside the delaying PHY.
  It is exact if every byte such a write selects is selected by the buffered writes too, and only then
  (`Forwarding.ForwardExact`, and over whole runs `ForwardedRuns.ResponsesExact`);
  `Forwarding.MaskedForwardCanBeStale` is a run in which it is not.
- The shadow check restores one flipped data bit only if its code position has an even number of ones; otherwise it
  flags it. Two flipped bits can pass as a repaired check bit (`EccShadow.TwoFlipsCanPass`).
- The refresh credit never exceeds what was postponed exactly if there is one rank and ticks are no further apart than
  deadlines; with more ranks one of them goes unserved at the first deadline already (`RefreshLedger.OwedExact`).
- The pull-in count is cleared whenever the credit is not negative, so at most one refresh is ever ahead, whatever the
  configured limit (`RefreshLedger.ObligationsConserved`).
- An active request keeps its row in every run exactly if rows are left open (`RowLoss.OwnershipExact`). Otherwise a
  waiting write to another column can close the row with its automatic precharge (`RowLoss.WriteClosesRow`). Under
  ClosedPage nothing else is needed where the buses let a write through before the read's own delay is over, as in every
  HBM profile; where they do not, a gate outside the banks must be holding reads back at that moment, such as the
  turnaround after a write to another bank. With split activation the run then stops on an overdue ACT2; otherwise the
  read asks for an activate that no bus takes from the active queue.
- A precharge of a whole rank is not held to the recovery of the data commands before it: the distance it keeps is one
  tick on a unified command bus and none at all with separate buses (`PrechargeAll.DataGapExact`). From an activate it
  keeps what the first data command keeps, whatever nRAS is (`PrechargeAll.OpeningGapExact`).
- A dual-bank refresh asked for from outside can repeat a pair of its sweep; without such requests none does
  (`RefdbOrder.RepeatsExact`). Requests from outside to leave self-refresh are not tested for duplicates
  (`ExitRuns.OneExitExact`).
- An interleaved stack whose capacity is not a whole number of stripes leaves holes below the capacity of all stacks
  (`StackMap.DecodeDomain`, `StackMap.DomainIsWhole`).
- The end of an address range is capped at the largest address, so the last byte of the address space overlaps
  nothing, itself included (`AddressRanges.OverlapExact`).

## Model

| member | source | states |
|---|---|---|
| StoreBufferProofs.ReadsSeeSequentialMemory | src/controller/controller.cpp:190-307 | In every run every read response carries exactly the bytes and initialized mask of a memory that performed, in order, the writes accepted before it: for all requests with the direct PHY, for unmasked writes with the delaying one |
| StoreBufferProofs.OnlyUnsafeForwardsDiffer | src/controller/controller.cpp:997-1053 | With any masks and either PHY, a read response differs from that memory only if it was forwarded while a write inside the PHY selected a byte the buffered write does not |
| StoreBufferProofs.NothingLostNothingDuplicated | src/controller/controller.cpp:686-761 | Each accepted request waits in exactly one place or was answered, never both |
| StoreBufferProofs.BufferMatchesQueue | src/controller/controller.cpp:233-307 | The write buffer holds exactly the addresses of the writes still queued, each with its own write |
| StoreBufferProofs.ResponseIsSequential | src/controller/controller.cpp:763-827 | The line put in a read's response is that of the sequential memory |
| StoreBufferProofs.IssueWriteHarmless | src/controller/controller.cpp:1225-1231 | A write that may issue past a waiting read of its address selects no byte |
| StoreBufferProofs.IssuedQuietly | src/controller/controller.cpp:1221-1224 | A read issues only once no write of its address is left inside the PHY |
| StoreBufferProofs.IssueWriteSettled | src/controller/controller.cpp:1712-1729 | Moving a merged write on changes what is settled at its address by exactly that write |
| StoreBufferProofs.CoalesceKeeps | src/controller/controller.cpp:234-286 | Coalescing keeps every invariant, the merged write standing for both |
| ForwardedRuns.ResponsesExact | src/controller/controller.cpp:190-232 | For any run and any read it answered: all runs of the same shape, whatever bytes their writes carry, answer it with the sequential memory's line exactly if it was not forwarded past an uncovered write of the PHY |
| ForwardedRuns.MissesMark | src/controller/controller.cpp:997-1053 | At an unsafe forward, if only the last accepted writer of the uncovered byte carries a mark, the memory shows the mark and the forwarded line does not |
| ForwardedRuns.StepMark | src/controller/controller.cpp:233-307 | The byte of one accepted write is in at most one place of buffer, PHY and image, and moves between them |
| Lines.OverlayMerge | src/controller/controller.cpp:247-277 | Two masked writes in a row are one write of the merged data under the united mask |
| Lines.OverlayHidden | src/controller/controller.cpp:997-1053 | A write hidden under a later, wider one leaves no trace |
| ControllerRefinement.EveryReadIsSequential | src/controller/controller.cpp:564-761 | The same of the real queues, in every run of enqueues, issues, ticks and response pops |
| ControllerRefinement.EveryRequestIsAccountedFor | src/controller/controller.cpp:1683-1756 | Every accepted sequence number is in exactly one queue or has exactly one response, and none is listed more than once |
| ControllerRefinement.QueuedWriteIsBuffered | src/controller/controller.cpp:1717-1728 | A queued write always finds its buffered data when it issues |
| ControllerRefinement.PerformRefines | src/controller/controller.cpp:142-307 | Each operation on the queues is a sequence of steps of the abstract machine |
| ControllerRefinement.TickRefines | src/controller/controller.cpp:686-761 | A tick with its sweep of pending requests and its PHY completions is a sequence of abstract steps |
| ControllerObject.Controller.EnqueueReadRequest | src/controller/controller.cpp:190-232 | A read is forwarded or queued exactly as the queue-level specification says |
| ControllerObject.Controller.EnqueueWriteRequest | src/controller/controller.cpp:233-307 | A write is coalesced or queued exactly as the queue-level specification says |
| ControllerObject.Controller.ReadHitsBufferedWrite | src/controller/controller.cpp:936-959 | Whether a buffered write of the address selects any byte |
| ControllerObject.Controller.HasUnresolvedOverlappingRead | src/controller/controller.cpp:961-980 | Finds an older read of the address in any queue, in both directions |
| ControllerObject.Controller.HasUnresolvedOverlappingWrite | src/controller/controller.cpp:982-990 | Finds a write of the address still inside the PHY, in both directions |
| ControllerObject.Controller.DataEligible | src/controller/controller.cpp:1218-1239 | The hazard part of eligibility, exactly |
| ControllerObject.Controller.IssueRead | src/controller/controller.cpp:1731-1756 | The read moves to pending with its completion, and into the PHY's read queue if there is one |
| ControllerObject.Controller.IssueWrite | src/controller/controller.cpp:1709-1756 | The merged data leaves the buffer for the image or for the PHY |
| ControllerObject.Controller.CompletePending | src/controller/controller.cpp:686-761 | One sweep answers what is complete while the response queue has room |
| ControllerObject.Controller.TickPhy | src/dram/mem_phy.cpp:249-301 | The PHY's due reads capture and its due writes drain, each in queue order |
| ControllerObject.Controller.TickOnce | src/controller/controller.cpp:564-761 | One tick of the object is the tick of the queue-level specification, and the object stays where a run leaves it |
| ControllerObject.Controller.TakeResponse | src/controller/controller.cpp:515-522 | The consumer takes the oldest response; a read's line is that of a memory that performed the accepted writes in order |
| Forwarding.ForwardExact | src/controller/controller.cpp:991-1053 | A forward returns what draining the PHY first would give, whatever the PHY's data, exactly if the buffered writes cover the PHY's bytes |
| Forwarding.MaskedForwardCanBeStale | src/controller/controller.cpp:997-1009 | A concrete run with masked writes and the delaying PHY in which a forward is stale |
| AddressRanges.OverlapExact | src/controller/controller.cpp:65-79 | Ranges overlap exactly if they share a byte other than the last one of the address space |
| AddressRanges.AlignedOverlap | src/controller/controller.cpp:65-79 | Aligned transactions of one size overlap only with themselves |
| RowBuffers.CachedNumber | src/core/data.cpp:1617-1675 | The block cached at a column really is the line asked for |
| RowBuffers.CloseKeeps | src/core/data.cpp:1510-1536 | Closing a bank whose lines are stored changes nothing readable |
| RowBuffers.OpenWriteHolds | src/core/data.cpp:1797-1879 | A masked write into an open row changes the flat memory by exactly that write |
| RowBuffers.ClosedWriteHolds | src/core/data.cpp:1797-1879 | The same while the row is closed |
| RowBuffers.CleanBackend | src/core/data.cpp:1585-1613 | Once no open row is dirty the backend alone is the flat memory |
| MemoryImageObject.MemoryImage.ActivateRow | src/core/data.cpp:1538-1560 | Opening a row, closing another if need be, leaves the flat memory as it was |
| MemoryImageObject.MemoryImage.WritebackRowBuffer | src/core/data.cpp:1510-1536 | A bank is closed and its changed lines are stored; the flat memory is unchanged |
| MemoryImageObject.MemoryImage.PrechargeBank | src/core/data.cpp:1562-1565 | Closes the bank, keeping the memory |
| MemoryImageObject.MemoryImage.PrechargeAll | src/core/data.cpp:1567-1583 | Closes every open bank of the rank and no other, keeping the memory |
| MemoryImageObject.MemoryImage.FlushDirtyRowBuffers | src/core/data.cpp:1585-1613 | Afterwards the backend alone holds the whole memory and every row stays as open as it was |
| MemoryImageObject.MemoryImage.Read | src/core/data.cpp:1677-1753 | The bytes of the flat memory over any span, and whether all of them were written |
| MemoryImageObject.MemoryImage.ReadInitializedMask | src/core/data.cpp:1755-1795 | Exactly which bytes of a span were ever written |
| MemoryImageObject.MemoryImage.Write | src/core/data.cpp:1797-1879 | The flat memory changes by exactly the masked write, across line boundaries |
| ControllerStorage.CommitMirrors | src/controller/controller.cpp:870-890 | A masked write of a transaction's bytes to the flat memory is the same write of its line, and of no other |
| ControllerStorage.StepCommits | src/controller/controller.cpp:1709-1729 | The hazard logic changes its lines by writes of whole transactions only |
| ControllerStorage.Storage.CommitWriteData | src/controller/controller.cpp:870-890 | Committing to the row buffers changes exactly the machine's line |
| ControllerStorage.Storage.ReadTransaction | src/controller/controller.cpp:763-790 | Reading through the row buffers returns the machine's line, initialized bytes included |
| ControllerStorage.Storage.OnCommand | src/controller/controller.cpp:1064-1097 | Activates, precharges and refreshes leave every line as it is |
| HammingCode.CodePositionForDataBit | src/core/data.cpp:126-138 | Returns the position that is not a power of two and has exactly that many data positions before it |
| HammingCode.DataBitForCodePosition | src/core/data.cpp:140-153 | Inverts the position function on the bits of the line, and finds nothing elsewhere |
| HammingCode.ParityBitsForDataBits | src/core/data.cpp:117-124 | The least width whose code has room for the data bits |
| HammingCode.PositionFits | src/core/data.cpp:117-138 | Every data bit's position fits in that width |
| HammingCode.NarrowMisses | src/core/data.cpp:117-124 | Any narrower width leaves the last position out |
| Bits.PowerTestExact | src/core/data.cpp:99-101 | The bit trick holds exactly of the powers of two |
| EccShadow.ComputeSecdedShadow | src/core/data.cpp:161-185 | The loops compute the exclusive or of the positions of the ones and the overall parity of data and check bits |
| EccShadow.SyndromeOfDifference | src/core/data.cpp:1205-1207 | Syndrome and overall mismatch depend only on which bits differ |
| EccShadow.EccBlock.CheckShadow | src/core/data.cpp:1199-1239 | The check in place does what the specification says in each of its branches |
| EccShadow.EccBlock.RefreshShadow | src/core/data.cpp:1169-1182 | Takes the shadow of the present bytes, or invalidates it when shadows are off |
| EccShadow.IntactPasses | src/core/data.cpp:1209-1211 | An intact line passes unchanged |
| EccShadow.OneFlip | src/core/data.cpp:1199-1239 | One flipped bit is restored exactly if its position has an even number of ones and correction is on, else flagged |
| EccShadow.RestoredExactly | src/core/data.cpp:1199-1239 | Over all differences, the original bytes come out exactly if nothing changed or one correctable bit did |
| EccShadow.PassedWrongExactly | src/core/data.cpp:1209-1235 | Over all differences, which pass unflagged with wrong data and which are flagged |
| EccShadow.TwoFlips | src/core/data.cpp:1199-1239 | Two flips are never restored; when they are flagged, exactly |
| EccShadow.TwoFlipsCanPass | src/core/data.cpp:1222-1227 | Data bits 0 and 3 flipped together pass as a repaired check bit |
| Bitmaps.SetBitExact | src/core/memory_backend.cpp:78-85 | Setting a bit changes that bit and no other |
| Bitmaps.VisitSetBits | src/core/memory_backend.cpp:87-104 | Visits exactly the set bits below the count, in increasing order |
| ChunkStore.TakenLines | src/core/memory_backend.cpp:826-842 | A chunk read from the files holds their lines, initialized bits included |
| ChunkStore.PutLines | src/core/memory_backend.cpp:844-855 | Writing a chunk back changes that chunk's lines in the files and no others |
| ChunkCache.WriteBackKeeps | src/core/memory_backend.cpp:844-855 | Writing back changes no line and keeps every clean chunk equal to its file slice |
| ChunkCache.EnsureKeeps | src/core/memory_backend.cpp:811-842 | Bringing a chunk in changes no line and keeps the cache within its limit |
| ChunkCache.VictimIsLeastRecent | src/core/memory_backend.cpp:817-823 | The chunk given up was last used before every other cached chunk |
| ChunkCache.EnsureRecent | src/core/memory_backend.cpp:811-842 | The cache always holds the most recently used distinct chunks |
| ChunkCache.LineStoredExact | src/core/memory_backend.cpp:708-734 | Storing a line changes that line and no other |
| ChunkBackend.CreatedHoldsNothing | src/core/memory_backend.cpp:651-673 | New files hold no line, and their maps, counters and header say so |
| ChunkBackend.LoadsLastStored | src/core/memory_backend.cpp:690-734 | From new files on, after any run of stores, loads, flushes and restarts after a flush, a load returns the line last stored, and absence if none was |
| ChunkBackend.CountersAndCache | src/core/memory_backend.cpp:708-734 | In every such run counters equal set bits, written implies present, clean chunks equal the files, the cache keeps its limit |
| ChunkBackend.FlushThenReopen | src/core/memory_backend.cpp:772-785 | After a flush the files alone hold the contents |
| ChunkFileObject.ChunkFile.Create | src/core/memory_backend.cpp:651-673 | A new object stands where the runs from new files start |
| ChunkFileObject.ChunkFile.EnsureChunk | src/core/memory_backend.cpp:811-842 | The cached chunk is used, or read in after the least recently used one was written back |
| ChunkFileObject.ChunkFile.Load | src/core/memory_backend.cpp:690-706 | Returns the visible line if it exists, and reports addresses outside |
| ChunkFileObject.ChunkFile.StoreLine | src/core/memory_backend.cpp:708-734 | Stores the line, its maps and counters, and tells whether it is new |
| ChunkFileObject.ChunkFile.Flush | src/core/memory_backend.cpp:772-785 | Every dirty chunk is written back and the counters go to the header |
| ChunkFileObject.ChunkFile.AllAddresses | src/core/memory_backend.cpp:749-757 | The addresses of exactly the existing lines, in increasing order |
| ChunkFileObject.ChunkFile.CheckedIndex | src/core/memory_backend.cpp:796-803 | The line number of an aligned address inside the capacity, else an error |
| TimingScopes.IndexExact | src/controller/timing.cpp:304-345 | Two coordinates share a bucket exactly if they agree down to its level |
| TimingScopes.SiblingExact | src/controller/timing.cpp:380-418 | The sibling range holds exactly the buckets under the same parent |
| TimingHistory.RegistersAreHistory | src/controller/timing.cpp:83-116 | The registers admit a command exactly if every earlier command that restrains it is old enough, for any constraint table |
| TimingHistory.GateExact | src/controller/timing.cpp:149-222 | A register is at most a cycle exactly if every event that raised it allows that cycle |
| TimingHistory.EarliestExact | src/controller/timing.cpp:118-147 | The earliest cycle computed from the registers is the first that the whole history allows |
| TimingEngineObject.TimingEngine.ApplyConstraints | src/controller/timing.cpp:149-222 | Recording a command keeps registers and sweeps equal to what the history calls for |
| TimingEngineObject.TimingEngine.ConstraintReady | src/controller/timing.cpp:83-116 | Ready exactly if the whole history allows the command, repeats of a bank pair included |
| TimingEngineObject.TimingEngine.ConstraintReadyAt | src/controller/timing.cpp:118-147 | Agrees with readiness at every cycle |
| TimingEngineObject.TimingEngine.PruneRecentActs | src/controller/timing.cpp:224-234 | Keeps exactly the activate events inside the window |
| TimingEngineObject.TimingEngine.FawReady | src/controller/timing.cpp:248-255 | There is room exactly if the fourth-last event has left the window |
| TimingEngineObject.TimingEngine.RecordActivate | src/controller/timing.cpp:236-246 | Records the event, keeping all windows spaced |
| ActivationWindow.FiveSpanWindow | src/controller/timing.cpp:224-255 | In every run any five consecutive activate events of a scope span the window |
| ActivationWindow.WindowExact | src/controller/timing.cpp:224-255 | Right after pruning an event is let through exactly if the whole history allows it |
| RefdbSweep.PartnerIsInvolution | src/dram/semantics.cpp:103-118 | For even bank groups the partner map is an involution without fixed points inside the rank |
| RefdbSweep.PairExact | src/controller/timing.cpp:152-182 | Two banks share a pair number exactly if they are equal or partners |
| RefdbSweep.NoRepeatWithinSweep | src/controller/timing.cpp:86-91 | Between two admitted refreshes of one pair its sweep was completed or synchronised |
| RefdbSweep.RankStep | src/controller/timing.cpp:152-182 | The count, the visited pairs and the ready cycle of a rank follow the history through every command |
| RefdbRotation.RotationNeverRepeats | src/controller/refresh.cpp:168-215 | In rotation order no dual-bank refresh is refused as a repeat, wherever sweeps were reset |
| RefdbRotation.SweepIsArc | src/controller/timing.cpp:152-182 | In every such history each sweep is the arc of pairs just behind the rotation |
| RefdbRotation.BatchIsAtPlace | src/controller/refresh.cpp:186-208 | The commands of a batch aim at the pair of its place in the rotation |
| RefreshRules.CursorsFollow | src/controller/refresh.cpp:210-214 | Stepping the two cursors goes from one batch's place to the next one's |
| RefreshRules.RotationVisitsOnce | src/controller/refresh.cpp:168-216 | Over one rotation every position of every stack level comes up in exactly one batch |
| RefreshLedger.ObligationsConserved | src/controller/refresh.cpp:27-125 | Per rank the credit is deadlines seen awake minus batches started, at least -1; postponements keep their limit; the rotation stands where the batches put it |
| RefreshLedger.AwakeSeesAll | src/controller/refresh.cpp:46-55 | Without self-refresh the deadlines seen are all those up to the last tick |
| RefreshLedger.OwedExact | src/controller/refresh.cpp:27-125 | In all runs with ticks at most so far apart, every rank owes at most what it postponed, exactly if there is one rank and that distance is at most the time between deadlines |
| RefreshLedger.OneRankOwesPostponed | src/controller/refresh.cpp:61-99 | One rank whose ticks are no further apart than its deadlines, skipped ticks included, owes at most what it postponed, at most the limit |
| RefreshLedger.OwesMore | src/controller/refresh.cpp:61-99 | Otherwise, for all parameters, some such run owes more |
| RefdbOrder.RefreshesNeverRepeat | src/controller/controller.cpp:1927-2015 | In every run of manager, maintenance queues and issue in which no dual-bank refresh is asked for from outside, dual-bank refreshes are issued in rotation order and none repeats a pair of its sweep |
| RefdbOrder.NextIsNoRepeat | src/controller/timing.cpp:83-91 | The dual-bank refresh that heads the priority queue is never refused as a repeat |
| RefdbOrder.RepeatsExact | src/controller/controller.cpp:300-307 | All runs keep to that exactly if no request from outside asks for a dual-bank refresh, or there is a single pair |
| RefdbOrder.BatchWaits | src/controller/refresh.cpp:186-208 | A batch holds one command for each site of its rank, at the place that the number of batches names |
| RefdbOrder.StepOnTrack | src/controller/controller.cpp:1959-2047 | Whatever step is taken, the refreshes waiting for a site stay the next stretch of its rotation |
| RefreshLedger.ScanIsFirst | src/controller/refresh.cpp:61-99 | The tick serves the first rank, in cyclic order from the cursor, that has something to do |
| RefreshManagerObject.RefreshManager.Tick | src/controller/refresh.cpp:27-125 | New state and report are exactly those of the specification |
| RefreshManagerObject.RefreshManager.CountDeadlines | src/controller/refresh.cpp:46-55 | The loop counts every deadline at or before the clock |
| RefreshManagerObject.RefreshManager.ServeObligation | src/controller/refresh.cpp:61-99 | Postpones or starts a batch for the first rank that need not wait |
| RefreshManagerObject.RefreshManager.PullIn | src/controller/refresh.cpp:101-120 | Starts ahead for the first rank inside its window |
| RefreshManagerObject.RefreshManager.SeedRefreshBatch | src/controller/refresh.cpp:147-216 | The commands of the batch for every scope, and the rotation one place on |
| RefreshManagerObject.RefreshManager.AggregateCredit | src/controller/refresh.cpp:218-223 | The sum of the ranks' credits |
| Banks.RankRangeExact | src/controller/executor.cpp:302-322 | The bank range of a rank is exactly the banks of the coordinates in it, inside the bank array |
| RowOwnership.OwnershipHolds | src/controller/controller.cpp:1337-1410 | In every open-page run each bank has at most one active request and is open at, or opening for, its row |
| RowOwnership.OwnerUndisturbed | src/controller/controller.cpp:1535-1555 | No command closes, refreshes or reopens the bank of an active request |
| RowOwnership.OpensFreeBank | src/controller/controller.cpp:1398-1410 | Rows are opened only for requests outside the active queue, in banks nobody owns |
| RowOwnership.PromotionFits | src/controller/controller.cpp:1698-1704 | A request that opens a row always finds room in the active queue |
| CommandBus.RisingExact | src/controller/controller.cpp:1557 | Odd cycles are the rising edges |
| CommandBus.FreeIsLater | src/controller/controller.cpp:628-665 | A command that needs a fresh tick comes strictly after every command before it |
| RunBuilder.TickOfColumn | src/controller/controller.cpp:1506-1533 | A column command is the first of its tick, on a rising edge under edge pairing |
| RowLoss.OwnershipExact | src/controller/controller.cpp:1099-1131 | With two or more columns, all runs of buses, choice and cap keep every active request's bank its own exactly if the policy leaves rows open |
| RowLoss.WriteClosesRow | src/controller/controller.cpp:1099-1131 | Otherwise, for any timings, cap and two columns of a row, such a run lets a waiting write close the row under the read that opened it; without any outside refusal if the write's tick comes before the read's delay is over |
| RowLoss.LostIsStuck | src/controller/controller.cpp:1142-1156 | With split activation a request that lost its row asks for an overdue ACT2 |
| RowLoss.LostIsStranded | src/controller/controller.cpp:1107-1112 | With separate buses no step serves it, since active requests are not tried on the row bus |
| RowTrace.RowStaysOpen | src/controller/controller.cpp:1535-1555 | Between a request's opening command and any command it issues when active, nobody touches its bank |
| RowTrace.SecondActivateInWindow | src/controller/controller.cpp:1135-1175 | Each ACT2 completes its own request's ACT1 on the same bank inside the window, with no other ACT1 in the rank between |
| BankTimings.GatesCoverDemands | src/controller/executor.cpp:32-211 | In every run, under any row policy, the bank gates cover everything earlier commands ask |
| BankTimings.TimingsRespected | src/controller/controller.cpp:1412-1500 | No command comes before any standing demand: nRCD, nRAS, nRTP, write recovery, nRP, nRFC and the row cycle, per bank |
| BankTimings.RowTimings | src/controller/executor.cpp:32-149 | By name, inside one opening: nRCD, nRAS, nRTP, write recovery and nCCDL between any two commands on the bank |
| BankTimings.ReopeningTimings | src/controller/executor.cpp:80-211 | By name, up to the next opening: nRP, recovery plus nRP after automatic precharge, nRFC, nRFCpb and the row cycle |
| BankTimings.DataHitsOpenRow | src/dram/state.cpp:36-44 | Every data command hits the row its bank was last opened for, at least nRCD after that opening, with rows left open or opened by one command |
| PrechargeAll.DataGapExact | src/controller/controller.cpp:628-664 | The distance that a rank precharge keeps from earlier data commands of the rank in all runs is one tick on a unified bus, none with separate buses |
| PrechargeAll.AnyLagAfterData | src/controller/controller.cpp:1478-1479 | It may follow a finished request's data command at any distance from that on |
| PrechargeAll.OpeningGapExact | src/controller/controller.cpp:1535-1555 | The distance it keeps from an activate in all runs is that of the soonest data command: the shorter row-to-column delay, past the last activate, on an edge that takes it, and a tick more on a unified bus |
| PrechargeAll.SecondWaits | src/controller/executor.cpp:59-95 | A second activate completes the activate before it, no sooner than the least distance between the two |
| PrechargeAll.SomeData | src/controller/controller.cpp:1535-1555 | Between an activate and a rank precharge the bank served a data command |
| BankExecutorObject.BankExecutor.Execute | src/controller/executor.cpp:20-286 | Every bank is afterwards exactly as the command leaves it |
| BankExecutorObject.BankExecutor.CloseRankBanks | src/controller/executor.cpp:324-336 | Closes exactly the banks of the rank, raising their activate gates |
| BankExecutorObject.BankExecutor.GateRankBanksAfter | src/controller/executor.cpp:338-347 | Raises the activate gates of exactly the banks of the rank |
| BankExecutorObject.BankExecutor.Issue | src/controller/controller.cpp:1591-1680 | Banks, active queue and counts take the machine's step and still stand where a run leaves them; with rows left open every active request owns its bank |
| BankExecutorObject.BankExecutor.RetireOrAdvance | src/controller/controller.cpp:1683-1756 | Opening requests become active, finished ones leave, others stay |
| BankExecutorObject.BankExecutor.AnyBankBusyInRank | src/controller/controller.cpp:1904-1910 | Finds a busy bank of the rank, in both directions |
| BankExecutorObject.BankExecutor.WouldCloseOwned | src/controller/controller.cpp:1535-1555 | Exactly when a command would close a bank with active requests |
| BankExecutorObject.DecodedFromFlatBank | src/controller/controller.cpp:2078-2102 | Inverts the bank numbering |
| MaintenanceQueues.ServicingKeeps | src/controller/controller.cpp:1959-1989 | No request is lost or added, all but exits keep their order, the priority queue never overfills, nothing waits while there is room |
| MaintenanceQueues.ExitComesFirst | src/controller/controller.cpp:1960-1978 | In self-refresh a waiting exit heads the priority queue afterwards, even if that was full |
| MaintenanceQueues.ScheduledExits | src/controller/controller.cpp:1991-2015 | Scheduling adds an exit only where none waits in either queue |
| MaintenanceQueues.ServicedExits | src/controller/controller.cpp:1959-1989 | Servicing neither adds nor loses an exit |
| ExitRuns.RunExits | src/controller/controller.cpp:1991-2015 | In every run of manager, queues, issue and outside requests at most one more exit waits than came from outside |
| ExitRuns.OneExitExact | src/controller/controller.cpp:300-307 | All runs keep to a single waiting exit exactly if none comes from outside |
| MaintenanceQueues.MaintenanceQueue.ServicePendingMaintenance | src/controller/controller.cpp:1959-1989 | Both queues afterwards are those of the specification |
| MaintenanceQueues.MaintenanceQueue.ScheduleMaintenance | src/controller/controller.cpp:1991-2015 | A second exit is dropped, a first goes ahead, anything else waits its turn |
| HostProtocol.BuildHostResponse | src/core/system.cpp:781-840 | The response joins data and masks in index order, merges flags, takes the earliest arrival, latest completion and worst status |
| HostProtocol.MergedExact | src/core/system.cpp:791-834 | Joining parts one at a time gives the response of them all |
| HostRuns.OneResponseEach | src/core/system.cpp:685-854 | In every run each request opened is answered once or still registered; its response waits exactly if all its transactions are in; queues keep their capacity |
| HostRuns.AnswersAreWhole | src/core/system.cpp:781-840 | A response handed out is made of the responses of all its transactions, data joined in index order |
| HostRuns.PublishingFits | src/core/system.cpp:842-851 | Publishing never meets a full queue |
| HostRuns.StepKeeps | src/core/system.cpp:481-561 | Submitting, collecting and popping keep registered, assembled and queued requests consistent |
| EndToEnd.HostReadsAreSequential | src/core/system.cpp:481-854 | With the controllers' own machines behind the host interface: the data of a host's read is made, in index order, of the lines that sequential memories hold, under every split, schedule, completion order and queue size |
| EndToEnd.HostSeesHonestRun | src/core/system.cpp:685-719 | What the host sees of such a system is a run with honest controllers, so all that is proved of those holds |
| EndToEnd.EachRequestAnsweredOnce | src/core/system.cpp:632-646 | Each host request of the whole system is answered once or still registered |
| EndToEnd.NothingLostOnTheWay | src/core/system.cpp:856-907 | An accepted transaction that was not collected is between host and controllers, or with a controller in one place |
| EndToEnd.DeliveryIsHonest | src/controller/controller.cpp:529-562 | A controller's response carries the identity and kind under which the host registered the transaction, and comes once |
| HostInterfaceObject.HostInterface.TrySubmit | src/core/system.cpp:481-519 | Rejects misuse, reports a stall, or registers exactly that transaction |
| HostInterfaceObject.HostInterface.AggregateResponse | src/core/system.cpp:721-779 | A misfit is published by itself, without its times if it clashes with its assembly; anything else fills its request's assembly, as specified |
| HostInterfaceObject.HostInterface.FillAssembly | src/core/system.cpp:773-778 | Fills the place and publishes the whole request once complete |
| HostInterfaceObject.HostInterface.CollectResponses | src/core/system.cpp:685-719 | Takes responses controller by controller while every view has room; genuine ones keep the run invariant |
| HostInterfaceObject.HostInterface.PopResponse | src/core/system.cpp:632-646 | Hands out the oldest response and frees its identifier; after genuine responses it is whole, made of all parts in index order |
| HostInterfaceObject.DrainedIsCollecting | src/core/system.cpp:697-718 | Collecting takes some waiting responses one by one, none lost and none twice, each while there was room |
| AddressMap.MappingIsBijection | src/core/addr_map.cpp:137-179 | Each template is a bijection between transactions below the capacity and in-range coordinates; larger numbers wrap |
| AddressMap.Decode | src/core/addr_map.cpp:137-179 | Taking the digits in the template's order decodes the address |
| AddressMap.TakeMod | src/core/addr_map.cpp:107-115 | Splits a number into its low digit and the rest |
| AddressMap.DefaultAddress | experiments/architecture_sweep/run.py:333-353 | The strides add up to the transaction number in the default order |
| AddressMap.DefaultAddressDecodes | experiments/architecture_sweep/run.py:333-353 | Decoding undoes the encoder on every in-range coordinate |
| MappedGeometry.MappedIsInjective | src/core/addr_map.cpp:137-179 | The map gives every line its own cell exactly if there are no more lines than transactions |
| StackMap.CheckedMultiply | src/core/addr_map.cpp:14-21 | Overflow exactly when the product exceeds 64 bits |
| StackMap.StackMappingInverse | src/core/addr_map.cpp:49-103 | Decoding and encoding are inverse for both kinds, errors and overflow included |
| StackMap.DecodeDomain | src/core/addr_map.cpp:49-75 | With any given capacity decoding succeeds exactly for the addresses in some stack, a cut-off last stripe included |
| StackMap.DomainIsWhole | src/core/addr_map.cpp:49-75 | Those are all addresses below the stacks' total capacity exactly if no stripe is cut off |
| StackMap.SystemMapInjective | src/core/addr_map.cpp:49-179 | Two system addresses that reach the same byte of the same transaction of the same stack are equal |

## Left out

- Requests each cover one aligned transaction of a fixed size; the code does not order overlapping writes with different start addresses, and coalescing of different sizes replaces or extends bytes.
- Cycle counters and sequence numbers are unbounded; their 64-bit wrap-around is not modelled.
- The table, scope, activation-window, write-clock and PHY gates appear in the bank machine only as refusals that may happen at any time; what the tables compute is modelled in the timing engine instead.
- The runs of CommandBus add the buses, edge pairing, and the preference for active requests over waiting ones of their bank; results stated for runs of Banks alone hold without them. That waiting requests stand back while the priority queue holds any, and the scheduler's order, are left open.
- PREab is not held back by a bank's precharge gate or by a table row in the code (PrechargeAll.DataGapExact), so the bank-local precharge timings are stated for PREpb.
- BankTimings.TimingsRespected: states the row cycle as nRAS plus nRP, because PREpb overwrites the activate gate with nRP; a longer nRC rests on the constraint table.
- RowOwnership.OwnershipHolds: open-page policy only; RowLoss.OwnershipExact shows that it fails under the others.
- RowLoss.OwnershipExact: for two or more columns, since a write to the line of an older read waits for it; where reads are ready no later than writes, or a cap must be reached first, the runs in which the row is lost have reads held back by a gate outside the banks.
- HammingCode.ParityBitsForDataBits: parity words are unbounded; the code keeps them in 64 bits, enough for every line shorter than 2^57 bytes.
- RefdbRotation.RotationNeverRepeats: is about histories in rotation order; RefdbOrder.RefreshesNeverRepeat derives that order from the manager and the queues.
- RefdbOrder.RefreshesNeverRepeat: for runs without outside requests for a dual-bank refresh; RefdbOrder.RepeatsExact shows that it fails with them.
- EndToEnd.HostReadsAreSequential: its controllers are the machines of StoreBuffer, which ControllerRefinement proves the queues to carry out; for masked writes with the delaying PHY ForwardedRuns.ResponsesExact takes its place.
- TimingEngineObject.TimingEngine.ConstraintReadyAt: the largest cycle number, which the code returns for a pair already refreshed, is the value Never.
- The image's error injection and shadow check are modelled on single lines, not inside the row-buffer theorem.
- Files are sequences that always succeed; mapping, synchronising, short reads and header validation are not modelled, and a line's metadata beyond its version is one opaque value.
- The sparse and the mapped backend: a map and a flat file with the same bit maps, without the cache.
- Host responses: address, stack, channel, first issue cycle and the forwarded and coalesced flags are merged like the flags that are modelled.
- Which stack and controller a transaction goes to, dispatch width and quality of service: submission only meets room or no room.
- Transaction-only delivery, where an identifier is freed at its last completion.
- PHY lifecycle, training and power states beyond what legality needs, statistics, tracing, thermal, power and bandwidth figures.
- ClosedCap's explicit precharges, row-hit statistics and refresh-management counters: their commands appear as arbitrary maintenance requests.
- Frontends, configuration, profiles, reports and the command-line tools.
- LPDDR efficiency modes, which fold pseudo-channels together, and the xor and round-robin channel choices.
- Liveness and throughput.
