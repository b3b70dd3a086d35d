# MoEStream: verified bookkeeping

MoEStream runs a Mixture-of-Experts model with only some of its experts in memory. Its
correctness burden is bookkeeping: a small array of slots has to be indistinguishable from the
full array of experts. This project models that bookkeeping in Dafny and proves it.

The main results:

- **Remapping preserves meaning** (`RemapCalls.RunExact`). From a fresh layer, after any run of
  calls, a call whose distinct experts fit the slots gathers from the slab, by slot id, exactly
  what the file gives by expert id, in every role and at every position. Running out of slots
  happens exactly when a batch asks for more distinct experts than there are slots
  (`RemapCalls.ExhaustsIffTooMany`), from every reachable state of the S3-FIFO cache. The one proviso
  is the 16-bit refcount: if there are more experts than slots, no expert may occur 65536 times in
  a call. For every number of experts and every number of slots from two up (`slab_slots` gives eight
  or more) that is the exact condition (`RefcountWrap.BoundIsExact`).
  The theorem reaches down to bytes: whatever the interleaving of the reading threads in each batch
  of misses, the bytes found at a written id are the file's (`MissDelivery.CallGathersBytes`).
- **The cache accounts for every slot** in every reachable state (`CacheReachability.RunInv`), its
  eviction is complete (`CacheInvariants.EvictKeepsLayer`) and honours SMALL before MAIN and second
  chances (`CacheInvariants.EvictionOrder`), and with fixed quotas an n-layer cache
  is bisimilar to n one-layer caches (`LayerIsolation.RunBisimilar`).
- **The policy is S3-FIFO as seen from outside**: one-shot experts take the slots in turn and leave
  MAIN alone (`CachePolicy.OneShotsTakeTurns`), a reference earns what `CachePolicy.HitEarns` says,
  and rebalancing favours the layers with more ghost hits (`QuotaModel.RebalanceFavours`).
- **The double-buffered arenas are safe under every interleaving** of the load op, the background
  reader and compute, whatever hint the reader used (`PrefillProtocol.RunSafe`,
  `DenseProtocol.RunSafe`), and parallel reads end like sequential ones
  (`ParallelReads.JoinedIsSequential`).
- **One pass measures LRU for every slot count** (`StackDistance.HistogramIsHits`); the recorder
  (`MissRatioCurve.MrcRecorder`) and the naive simulator (`LruSimulator.SimLru`) are both proved
  against the same recency stack, so they agree on every trace.
- **The hull allocator is an upper bound** on every integer division of the slots
  (`HullAllocator.Allocate`), and, fed with the recorder's histograms, on the LRU hits of every
  division (`MrcReport.Optimum`).

## Layout

| files | what they model |
|---|---|
| `CacheModel`, `CacheInvariants`, `SlotConservation`, `CacheReachability`, `CachePolicy`, `QuotaModel`, `QuotaOvershoot` | the expert cache as a state and its operations; the invariants; runs; the replacement policy; quota arithmetic |
| `ExpertCache` | the cache as an object whose methods update it in place, proved against `CacheModel` |
| `LayerIsolation`, `Exhaustion` | one cache per layer; when a request is refused |
| `RemapModel`, `RemapCalls`, `RefcountWrap` | the id remap: one batch, calls, runs; where the 16-bit refcount matters |
| `ExpertSweep`, `SweepSum` | the split of a batch over passes |
| `ParallelReads`, `ReadAddresses`, `Staging`, `MissDelivery` | the thread pool, the addresses, the batching of misses; all three together in byte memory |
| `LayerRuntime` | the remap as it runs: an object holding the cache, the held lists and the slab |
| `PrefillArena`, `PrefillProtocol`, `PrefillLoader` | the prefill arenas: layout, step system, the load itself |
| `DenseArena`, `DenseProtocol`, `DenseLoader` | the dense arenas likewise |
| `StackDistance`, `MissRatioCurve`, `PolicyTrace`, `LruSimulator`, `LfuSimulator` | reuse distances, the recorder, the policy simulators |
| `ConcaveHull`, `HullSegments`, `HullGreedy`, `HullAllocator`, `MrcReport` | the allocator and the bound it computes |
| `UnionSizing` | slab size and prefill threshold |
| `GgufFormat`, `GgufReader` | the metadata lookup |
| `Arithmetic`, `Seqs`, `Memory` | arithmetic, sequences and byte memory |

Modules carry the name of their file, except that `ExpertCache.dfy` declares `ExpertCaches` and
`LayerRuntime.dfy` declares `LayerRuntimes`. A value-level function says what an operation computes;
the class method or loop beside it is proved to compute that; the properties are proved about the
function.

The arenas' protocols are step systems over what the source keeps in globals: buffers, the
background thread and the position in the graph. Their one assumption about the environment is the
graph's data dependency: a layer's ids exist only after the compute of the layer before it has ended.

## Where the code and its comments disagree

- `src/expert_cache.cpp:253` says the quotas never exceed the slot count. They can, when
  `quota_min` binds at line 257: `QuotaModel.NormalisedTotal` gives the exact excess and proves
  equality when no floor binds, `QuotaModel.RebalanceExceeds` shows it always happens when the floors
  alone exceed the slots, and `QuotaOvershoot.RebalanceCanExceed` is a run that gets there.
- `src/llama-moestream.cpp:1526-1529` says the prefill threshold is the largest token count the
  slab can safely serve. It bounds an expected union: `UnionSizing.ThresholdCanExhaust` is a batch
  it accepts that exhausts the slab, and `UnionSizing.AlwaysFitsIff` is the exact condition.
- `src/expert_cache.cpp:32-59` pins without clearing ghost lists. That is harmless at start-up, where
  it is called; `CacheReachability.PinAllKeepsIff` says exactly when it is harmless in general.

## Model

| member | source | states |
|---|---|---|
| CacheInvariants.EvictKeepsLayer | src/expert_cache.cpp:194-224 | Eviction completeness: a victim is found exactly when some SMALL or MAIN entry of the layer is unreferenced; the victim was unreferenced and not pinned, every other entry keeps everything but its frequency; on failure queues, order and frequencies are untouched |
| CacheInvariants.EvictionOrder | src/expert_cache.cpp:195-208 | MAIN loses an expert only when nobody in SMALL is idle, and one with second chances left only when every idle expert of MAIN has some |
| CacheInvariants.EvictionTrace | src/expert_cache.cpp:199-221 | Exactly what eviction leaves: which expert goes and those passed over before it, queue by queue in order; from MAIN each idle expert passed over has used one second chance, or all idle ones have when none was without; the victim is the newest of the ghosts, of which the oldest beyond quota times ghost_mult are dropped |
| CacheInvariants.EvictSmallKeeps | src/expert_cache.cpp:199-221 | Taking the first idle entry out of SMALL keeps the layer invariant and frees exactly that entry's slot |
| CacheInvariants.EvictMainKeeps | src/expert_cache.cpp:199-221 | The same for MAIN, after the scan used up second chances |
| CacheInvariants.DropKeepsLayer | src/expert_cache.cpp:210-219 | Dropping an entry and remembering it as a ghost keeps queues, ghosts, slot tables and counters in agreement |
| CacheInvariants.AgeKeepsLayer | src/expert_cache.cpp:206-207 | Using up second chances keeps the layer invariant and moves no slot |
| CacheInvariants.HitKeepsLayer | src/expert_cache.cpp:70-98 | A hit keeps the layer invariant and all slots; a SMALL entry is always promoted, because SMALL entries have frequency 1 |
| CacheInvariants.MissKeepsLayer | src/expert_cache.cpp:100-114 | Counting a miss and consuming a ghost keeps the layer invariant; the expert is no ghost afterwards |
| CacheInvariants.AdmitKeepsLayer | src/expert_cache.cpp:129-149 | Admitting an absent expert to a slot nobody occupies keeps the layer invariant and occupies exactly that slot more |
| SlotConservation.EvictOneKeeps | src/expert_cache.cpp:194-224 | Eviction keeps slot conservation over all layers, succeeds iff the layer has an idle entry, changes nothing on failure, and on success adds one free slot |
| SlotConservation.AllocKeeps | src/expert_cache.cpp:169-192 | Allocation, stealing from another layer included, keeps all slots accounted for: the slot it answers is in nobody's hands, or nothing was taken |
| SlotConservation.TakeSlotKeeps | src/expert_cache.cpp:175-191 | The free-stack and steal branches conserve slots |
| SlotConservation.AcquireKeeps | src/expert_cache.cpp:62-153 | Every request, from every invariant state and for every origin, keeps the invariant: free and occupied slots partition 0..n_slot-1, both slot tables agree, each cached expert is in exactly the queue its segment names, once, ghosts are distinct and absent, counters and statistics add up |
| SlotConservation.ReleaseKeeps | src/expert_cache.cpp:163-166 | Release keeps the invariant |
| SlotConservation.MarkResidentKeeps | src/expert_cache.cpp:155-161 | Marking an expert resident keeps the invariant if and only if the expert is cached |
| CachePolicy.OneShotsTakeTurns | src/expert_cache.cpp:100-153 | First in, first out: experts requested once on demand are answered with the free slots in turn and over again, each taking the slot of the one as many requests before it as there were free slots; whoever was in MAIN keeps its slot however many they are |
| CachePolicy.FreshTakesTurns | src/expert_cache.cpp:11-29 | On a fresh cache with n slots, request number i of distinct experts requested once misses and gets slot i modulo n |
| CachePolicy.AdmissionPlace | src/expert_cache.cpp:129-149 | A ghost goes to the back of MAIN, a low-confidence prefetch to the front of SMALL, everybody else to its back, with one reference, frequency 1 and no bytes yet |
| CachePolicy.FrontGoesNext | src/expert_cache.cpp:195-213 | With all slots taken, an idle expert at the front of SMALL gives its slot to the next demand miss, whoever else is idle |
| CachePolicy.PrefetchLowGoesFirst | src/expert_cache.cpp:142-144 | A low-confidence prefetch, once released, gives its slot to the next demand miss on a full cache |
| CachePolicy.HitEarns | src/expert_cache.cpp:70-98 | A hit adds one reference modulo 65536 and one to the frequency up to 3, moves a SMALL expert to the back of MAIN, and leaves all else alone |
| CachePolicy.SweepLeaves | src/expert_cache.cpp:119-123 | The miss of a prefill sweep changes nothing cached, queued or free |
| CachePolicy.GhostHitCounted | src/expert_cache.cpp:104-116 | A miss counts one ghost hit, for the layer and in all, exactly when the expert was on the ghost list |
| CachePolicy.RequestCounted | src/expert_cache.cpp:62-153 | A request counts as one hit or one miss, and as one admission exactly when a miss is given a slot |
| CachePolicy.ArrivesOnce | src/expert_cache.cpp:155-161 | Bytes are counted the first time an expert is marked resident, and marking again changes nothing |
| CachePolicy.ReleaseTakesOne | src/expert_cache.cpp:163-166 | A release takes off one reference if there is one, and nothing else |
| CachePolicy.EvictOneLeavesTrace | src/expert_cache.cpp:210-221 | The freed slot is on top of the free stack, and the ghost list holds at most the layer's quota times ghost_mult |
| CachePolicy.StealsFromFurthest | src/expert_cache.cpp:183-187 | A steal takes from the first of the layers furthest over their quota that hold something unpinned, else tries the requesting layer |
| CachePolicy.StealTakesThere | src/expert_cache.cpp:169-192 | With no slot free and the layer below its quota, exactly that layer loses its victim and the request gets the victim's slot, or nothing changes |
| CacheReachability.InitInv | src/expert_cache.cpp:11-29 | A freshly built cache satisfies the invariant for every layer, expert and slot count |
| CacheReachability.PinSomeEffect | src/expert_cache.cpp:47-57 | Pinning changes only absent experts of the list it was given and leaves none of them absent while free slots last; everything else keeps its entry |
| CacheReachability.PinSomeOrder | src/expert_cache.cpp:47-57 | An initial piece of the order ends up cached, until no slot is free; its absent experts are pinned and ready, in slots from the top of the free stack |
| CacheReachability.PinOneKeepsIff | src/expert_cache.cpp:47-57 | Pinning an absent expert keeps the invariant if and only if the expert is not on the ghost list, which pinning does not clear |
| CacheReachability.PinAllKeeps | src/expert_cache.cpp:32-59 | Pinning at start-up keeps the invariant, whatever order partial_sort made of the experts |
| CacheReachability.PinAllKeepsIff | src/expert_cache.cpp:32-59 | Pinning at any later time keeps the invariant if and only if no ghost ends up pinned |
| CacheReachability.EndStepKeeps | src/expert_cache.cpp:226-230 | The end of a step, quota rebalancing included, keeps the invariant |
| CacheReachability.EndStepEffect | src/expert_cache.cpp:226-264 | Every step advances the clock; only at the end of a period, and with adaptation on, quotas are rebalanced and all ghost hits start from zero |
| CacheReachability.SlotCountNearest | src/expert_cache.cpp:12-14 | The slots asked for, else the whole number nearest to the fraction of all experts |
| CacheReachability.PinCountNearest | src/expert_cache.cpp:38-39 | The number of pinned experts per layer is nearest to the fraction, and at least one |
| CacheReachability.ApplyKeeps | src/expert_cache.cpp:62-230 | Every allowed operation keeps the invariant and the dimensions |
| CacheReachability.RunInv | src/expert_cache.cpp:11-230 | The invariant holds in every state of every run of a built cache, pinned or not |
| QuotaModel.TopUpSum | src/expert_cache.cpp:260 | The top-up loop adds exactly what was missing and lowers no quota |
| QuotaModel.SharesLoss | src/expert_cache.cpp:253-259 | Truncating the scaled shares loses less than one slot per layer and never gains |
| QuotaModel.NormalisedTotal | src/expert_cache.cpp:253-260 | The exact total after normalising: at least n_slot, above it by exactly what the quota_min floor added beyond what the shares fell short, equal to n_slot when no floor binds; every quota ends at quota_min or more; if any quota is wanted the top-up hands out fewer than n_layer slots |
| QuotaModel.RebalancedBounds | src/expert_cache.cpp:233-264 | Rebalancing leaves quotas alone without ghost hits, else no quota below quota_min and no total below n_slot |
| QuotaModel.WantIsFair | src/expert_cache.cpp:239-252 | A layer asks for its quota times 1 + eta (hits - mean) / mean, rounded to the nearest and kept between quota_min and n_expert |
| QuotaModel.WantFollowsHits | src/expert_cache.cpp:239-252 | A layer with at least the mean of the ghost hits asks for at least its quota, up to n_expert; one with at most the mean for at most its quota, down to quota_min |
| QuotaModel.WantsGrow | src/expert_cache.cpp:239-252 | Of two layers with equal quotas the one with more ghost hits asks for no less |
| QuotaModel.ShareIs | src/expert_cache.cpp:254-257 | A share is the layer's part of the slots, rounded down |
| QuotaModel.TopUpCount | src/expert_cache.cpp:260 | The top-up gives d / n slots to every layer and one more to the first d mod n |
| QuotaModel.NormalisedIs | src/expert_cache.cpp:253-261 | Each final quota: the share or the floor, plus d / n of the d slots still missing, and one more for the first d mod n layers |
| QuotaModel.RebalanceFavours | src/expert_cache.cpp:232-264 | Of two layers with equal quotas the one with more ghost hits ends with at least as many slots, up to the one the top-up may give |
| QuotaModel.TwoSlotsMove | src/expert_cache.cpp:232-264 | Quotas 32 and 32 with 30 and 10 ghost hits become 34 and 30 |
| QuotaModel.RebalanceExceeds | src/expert_cache.cpp:233-264 | Where n_layer times quota_min exceeds the slots, every rebalancing that takes effect leaves a total above the slot count, for all quotas and ghost hits |
| QuotaOvershoot.EndStepExceeds | src/expert_cache.cpp:226-264 | So does the end of a period in any such state with a ghost hit |
| QuotaOvershoot.RebalanceCanExceed | src/expert_cache.cpp:253-260 | A run of a freshly built cache at whose end the quotas add up to more than the slots: the comment at line 253 does not hold |
| ExpertCaches.EvenSplit | src/expert_cache.cpp:20-24 | The remainder loop hands the leading layers one slot more each |
| ExpertCaches.Scan | src/expert_cache.cpp:200-222 | One pass over a queue pops, puts back and stops: it ends at the first entry that may go with the queue rotated there, or leaves the queue as it was; the second-chance pass has aged exactly the idle entries it passed |
| ExpertCaches.EvictFrom | src/expert_cache.cpp:194-224 | The three passes together are the eviction function the invariants are proved about |
| ExpertCaches.RebalanceQuota | src/expert_cache.cpp:233-264 | The loops compute the rebalanced quotas the totals are proved about |
| ExpertCaches.Normalise | src/expert_cache.cpp:253-260 | The normalising and top-up loops compute the normalised quotas |
| ExpertCaches.ExpertCache.constructor | src/expert_cache.cpp:11-29 | The object starts in the built state and satisfies the invariant |
| ExpertCaches.ExpertCache.EvictOne | src/expert_cache.cpp:194-224 | The method moves the object as the eviction function does |
| ExpertCaches.ExpertCache.FindVictimLayer | src/expert_cache.cpp:183-187 | The loop finds the first layer furthest over its quota among those holding unpinned experts, else the requesting layer |
| ExpertCaches.ExpertCache.AllocSlot | src/expert_cache.cpp:169-192 | The method moves the object as the allocation function does |
| ExpertCaches.ExpertCache.Acquire | src/expert_cache.cpp:62-153 | From a valid object the method answers and moves as the request function does and leaves the object valid |
| ExpertCaches.ExpertCache.Hit | src/expert_cache.cpp:70-98 | The hit branch, promotion included |
| ExpertCaches.ExpertCache.Miss | src/expert_cache.cpp:100-114 | The miss bookkeeping before admission |
| ExpertCaches.ExpertCache.MarkResident | src/expert_cache.cpp:155-161 | Marks once and counts the bytes once, whatever the expert's state; the object is valid afterwards if and only if the expert is cached |
| ExpertCaches.ExpertCache.Release | src/expert_cache.cpp:163-166 | Drops one reference, never below zero; the object stays valid |
| ExpertCaches.ExpertCache.BuildPinned | src/expert_cache.cpp:32-59 | Nothing without a ratio or with a frequency table of the wrong size; else every layer pins the head of its order; the object is valid afterwards if and only if no ghost is cached |
| ExpertCaches.ExpertCache.PinLayerLoop | src/expert_cache.cpp:47-57 | The pinning loop of one layer |
| ExpertCaches.ExpertCache.EndStep | src/expert_cache.cpp:227-230 | Advances the step and rebalances every quota_period steps; the object stays valid |
| LayerIsolation.NeverSteals | src/expert_cache.cpp:175-191 | With quotas adding up to the slots and no layer over its quota, a layer below quota always finds a free slot: the cross-layer branch is never reached |
| LayerIsolation.AllocLocal | src/expert_cache.cpp:169-192 | Allocation then changes only the requesting layer, as that layer alone determines |
| LayerIsolation.AcquireLocal | src/expert_cache.cpp:62-153 | A request is a function of its own layer |
| LayerIsolation.AcquireFixed | src/expert_cache.cpp:62-192 | Requests keep every layer within its quota |
| LayerIsolation.QuotasEven | src/expert_cache.cpp:20-24 | The even quotas add up to the slots, differ by at most one, and leading layers have the more |
| LayerIsolation.TwinEvicts | src/expert_cache.cpp:194-224 | Eviction picks the same victim in layers that differ in slot numbers only |
| LayerIsolation.BisimilarRequest | src/expert_cache.cpp:62-153 | The whole cache and the one-layer cache answer a request alike, and stay bisimilar (queues, ghosts, entries) |
| LayerIsolation.BisimilarStep | src/expert_cache.cpp:62-230 | Every operation of a run preserves the bisimulation |
| LayerIsolation.InitBisimilar | src/llama-moestream.cpp:1436-1447 | A fresh n-layer cache is bisimilar to n fresh one-layer caches whose slot counts are the even quotas |
| LayerIsolation.RunBisimilar | src/llama-moestream.cpp:1436-1447 | The bisimulation holds along every pair of runs of the same operations |
| LayerIsolation.SameAnswers | src/llama-moestream.cpp:1436-1447 | Every request of every run gets the same hit, miss or exhaustion answer from the split caches |
| Exhaustion.ExhaustsIff | src/expert_cache.cpp:100-192 | A demand request on a one-layer unpinned cache is refused if and only if the expert is absent and every slot belongs to an expert in use |
| Exhaustion.FullIff | src/expert_cache.cpp:169-224 | All slots are in use iff all are occupied and no entry is idle |
| Exhaustion.DemandEffect | src/expert_cache.cpp:62-153 | What a demand request does to the requested entry, and that no referenced entry loses its slot |
| RemapModel.ServeOneEffect | src/llama-moestream.cpp:1903-1950 | One id of a batch: null expert when not owned or refused, else its slot, one reference more, and a pending read exactly on a miss |
| RemapModel.ServeAllRefs | src/llama-moestream.cpp:1900-1952 | After the acquire loop every refcount is the expert's multiplicity among the references kept, modulo 65536, duplicates included |
| RemapModel.ServeAllSound | src/llama-moestream.cpp:1900-1952 | After the loop every written slot still belongs to its id, and pending reads go to pairwise different slots of cached experts: no slot handed out early is stolen later in the batch, provided there is a slot for every expert or no refcount wraps |
| RemapModel.ServeAllServed | src/llama-moestream.cpp:1909-1951 | The exhaustion count of a batch is exactly the number of owned ids it gave the null expert |
| RemapCalls.ReleaseAllEffect | src/llama-moestream.cpp:1846-1851 | The release loop takes each expert's multiplicity off its refcount and changes nothing else |
| RemapCalls.BeginNoRefs | src/llama-moestream.cpp:1837-1852 | No reference leak: when the release loop has run, every refcount is zero |
| RemapCalls.LoadedAt | src/llama-moestream.cpp:1982-2027 | Reading the pending misses puts the file's bytes in their slots, in every role, and leaves other slots alone |
| RemapCalls.RemapKeeps | src/llama-moestream.cpp:1837-2028 | One call keeps the runtime invariant: refcounts count the held lists, every cached expert has its bytes in its slot, the last place is the null expert |
| RemapCalls.RefsKeep | src/llama-moestream.cpp:1837-1951 | Refcounts equal multiplicities across the eight held lists after every call, whatever the batch |
| RemapCalls.RemapGathers | src/llama-moestream.cpp:1837-2028 | Indexing the slab with a written id gives, in every role, the file's bytes of the original id if it was served, and the null expert otherwise |
| RemapCalls.ExhaustsIffTooMany | src/llama-moestream.cpp:1837-1928 | A batch runs out of slots if and only if it asks for more distinct experts than there are slots, whatever earlier calls left in the cache |
| RemapCalls.ExhaustsOnlyIfTooMany | src/llama-moestream.cpp:1837-1928 | One half of it holds for every batch whatever it repeats: no exhaustion while the distinct experts fit |
| RemapCalls.RemapExact | src/llama-moestream.cpp:1837-2028 | If the distinct experts fit the slots, gathering the slab by slot id equals gathering the file by expert id at every position |
| RemapCalls.RunKeeps | src/llama-moestream.cpp:1837-2028 | The runtime invariant holds in every state of every run of calls |
| RemapCalls.RunRefs | src/llama-moestream.cpp:1837-1951 | The reference accounting holds in every state of every run |
| RemapCalls.RunExact | src/llama-moestream.cpp:1837-2028 | Remapping preserves meaning over whole runs: from a fresh layer, after any calls, a call whose distinct experts fit gathers exactly the file's bytes |
| RemapCalls.RunExactUnsplit | src/llama-moestream.cpp:1837-2028 | A call that is not split, whose distinct in-range ids fit, gathers every in-range id's own bytes and zeros for every other id, after any run |
| RefcountWrap.WrapReadsWrongBytes | src/llama-moestream.cpp:1909-1947 | On every layer with at least two slots and fewer slots than experts: after one ordinary call (experts 0 and 1 twice each), a call whose distinct experts exactly fit, with expert 0 occurring 65536 times, makes its first id read another expert's bytes with no exhaustion reported; with one distinct expert more than fits, no exhaustion is reported either |
| RefcountWrap.BoundIsExact | src/llama-moestream.cpp:1909-1947 | For every number of experts and every number of slots from two up: over all runs from a fresh layer in which no expert occurs m times in a call, calls that fit read the file at every position if and only if m <= 65536 or there is a slot for every expert; and exhaustion is reported exactly when a call does not fit under the same condition |
| ExpertSweep.Distinct | src/llama-moestream.cpp:1861-1871 | The distinct in-range experts of the batch, ascending |
| ExpertSweep.SweepPartition | src/llama-moestream.cpp:1887-1890 | Each distinct expert of a batch is owned by exactly one of the np passes |
| ExpertSweep.SweepOnlyBatch | src/llama-moestream.cpp:1887-1890 | No pass owns an expert outside the batch |
| ExpertSweep.SweepBound | src/llama-moestream.cpp:1887-1890 | No pass owns more than the number of distinct experts divided by np, rounded up |
| SweepSum.PassContributes | src/llama-moestream.cpp:1900-1951 | A pass multiplies with the expert's weights at the positions it owns and with the null expert elsewhere |
| SweepSum.SweepIsUnsplit | src/apply.py:163-219 | If the null expert contributes 0, the contributions of the np passes add up at every position to the unsplit contribution |
| ParallelReads.NextKeeps | src/llama-moestream.cpp:1248-1263 | Claiming, copying a piece and finishing keep the pool invariant: each job is claimed by one thread, finished jobs are in place, bytes nobody wrote are unchanged |
| ParallelReads.JoinedIsSequential | src/llama-moestream.cpp:1248-1263 | In every interleaving each job runs exactly once, and after the join memory is that of sequential execution |
| ParallelReads.SequentialDelivers | src/llama-moestream.cpp:1248-1263 | Each job's bytes are at its destination |
| ParallelReads.SequentialLeaves | src/llama-moestream.cpp:1248-1263 | Memory no job writes to is unchanged |
| ReadAddresses.BatchDisjoint | src/llama-moestream.cpp:1984-1996 | The byte ranges of a batch, staged and direct, are in bounds and pairwise disjoint |
| ReadAddresses.ThreadsDeliver | src/llama-moestream.cpp:1984-2027 | Whatever the interleaving, a batch's threads put each read's bytes at its address and touch no other slot |
| MissDelivery.BatchDelivers | src/llama-moestream.cpp:2010-2024 | From byte memory that holds the slabs, any interleaving of a batch's threads followed by the uploads gives memory that holds the slabs with the batch's misses loaded |
| MissDelivery.AllDelivered | src/llama-moestream.cpp:1982-2027 | All batches one after the other, each with any interleaving: memory holds the slabs with every pending miss loaded |
| MissDelivery.CallDelivers | src/llama-moestream.cpp:1837-2028 | A call takes memory that holds the slabs of a state to memory that holds the slabs of the state after it |
| MissDelivery.CallGathersBytes | src/llama-moestream.cpp:1837-2028 | The bytes at a written id are the file's bytes of the original id if this pass owns it, else the null expert's zeros, however the threads interleaved |
| Staging.NeedsStage | src/llama-moestream.cpp:1957-1971 | Staging is allocated exactly when some pending read has no host pointer |
| Staging.AddJobs | src/llama-moestream.cpp:1988-1995 | The three reads of a miss, staging places used in order only where needed |
| Staging.PlanBatch | src/llama-moestream.cpp:1983-1996 | A batch is an initial piece of the pending list, its staging places are distinct and below the cap, it ends only where the next miss no longer fits, and it is not empty when one miss fits |
| Staging.RunReads | src/llama-moestream.cpp:2010 | The reads taken one after the other deliver to slot or staging place and leave all else alone; MissDelivery.BatchDelivers is the same for every interleaving of the threads |
| Staging.Upload | src/llama-moestream.cpp:2017-2024 | Uploads complete the staged reads |
| Staging.ReadMisses | src/llama-moestream.cpp:1955-2028 | The batching loop reads every pending miss exactly once and in order, the slab ends with all of them in place, the discard branch is reached only if the largest expert has no bytes, and the batches planned are the pieces MissDelivery speaks of |
| LayerRuntimes.ChooseOwned | src/llama-moestream.cpp:1859-1892 | The loops compute the pass's share of the batch |
| LayerRuntimes.ListDistinct | src/llama-moestream.cpp:1861-1871 | Marking and listing compute the distinct experts |
| LayerRuntimes.MarkPart | src/llama-moestream.cpp:1887-1890 | The marking loop of one part |
| LayerRuntimes.LayerRuntime.constructor | src/llama-moestream.cpp:1438-1447 | One cache per layer: one layer, all its slots, nothing pinned, quotas fixed; the object is valid, so calls may follow |
| LayerRuntimes.LayerRuntime.ReleaseHeld | src/llama-moestream.cpp:1837-1852 | The loop over the eight lists releases every held reference and empties the lists |
| LayerRuntimes.LayerRuntime.ServeBatch | src/llama-moestream.cpp:1900-1952 | The acquire loop |
| LayerRuntimes.LayerRuntime.ServeId | src/llama-moestream.cpp:1903-1950 | The body of the acquire loop |
| LayerRuntimes.LayerRuntime.EnsureZeroSlot | src/llama-moestream.cpp:1749-1792 | The first call fills the null expert's places, later ones do nothing |
| LayerRuntimes.LayerRuntime.Fetch | src/llama-moestream.cpp:1954-2028 | All pending misses are read into the slab, each once |
| LayerRuntimes.LayerRuntime.Remap | src/llama-moestream.cpp:1799-2028 | The whole call: from a valid layer it ends valid, writes the ids and reaches the state the preservation theorems speak of, and logs each miss's three reads once |
| PrefillArena.CellsDisjoint | src/llama-moestream.cpp:2242-2261 | Different experts or roles of a layer occupy disjoint bytes of its buffer |
| PrefillArena.ReadCellRight | src/llama-moestream.cpp:2251-2261 | A read puts its bytes in place and leaves every other cell as it was |
| PrefillArena.PlanHolds | src/llama-moestream.cpp:2235-2263 | Switching layers and marking keeps "present means right, except what is still to be read", and marks all that is needed |
| PrefillArena.PlanReads | src/llama-moestream.cpp:2235-2263 | A load reads all three roles of exactly the experts needed and not present in this layer's buffer, and marks them |
| PrefillLoader.ListJobs | src/llama-moestream.cpp:2246-2263 | The loop lists the three reads of exactly the experts needed and absent, once each, and marks them present |
| PrefillLoader.PrefillBuffers.constructor | src/llama-moestream.cpp:1594-1595 | Buffers start out holding no layer |
| PrefillLoader.PrefillBuffers.LoadLayerArena | src/llama-moestream.cpp:2167-2283 | After a load every expert marked present in the layer's buffer, the needed ones among them, has the file's bytes; other buffers are untouched |
| PrefillProtocol.StepKeeps | src/llama-moestream.cpp:2285-2317 | Every step of load op, background reader and compute keeps the protocol invariant |
| PrefillProtocol.ComputeSafe | src/llama-moestream.cpp:2475-2548 | While a layer is computed on, its buffer has the file's bytes of every in-range expert its ids reference, whatever hint was used |
| PrefillProtocol.ComputeUndisturbed | src/llama-moestream.cpp:2299-2317 | Nothing that happens meanwhile touches that buffer |
| PrefillProtocol.JoinRight | src/llama-moestream.cpp:2287-2290 | At every join, an expert marked present in any buffer has its layer's bytes there |
| PrefillProtocol.OnlyWaitsForJoin | src/llama-moestream.cpp:2535-2547 | Nobody waits except the load op for the join and the previous compute |
| PrefillProtocol.KickStarts | src/llama-moestream.cpp:2293-2317 | Compute starts with a background load of the next layer exactly if prefetching is on, there are two buffers, the batch is big and the next layer has experts |
| PrefillProtocol.EnterReads | src/llama-moestream.cpp:2475-2548 | The load op joins the background and reads exactly the referenced experts its buffer does not have |
| PrefillProtocol.PrefetchPays | src/llama-moestream.cpp:2285-2317 | If the background planned all that the next layer's ids turn out to need, or everything, its load op finds nothing left to read |
| PrefillProtocol.RunSafe | src/llama-moestream.cpp:2475-2548 | Over every interleaving: whenever compute runs, every referenced expert's bytes are in place |
| DenseArena.ChunkCovers | src/llama-moestream.cpp:2342 | nth chunks of ceil(bytes/nth) cover the read |
| DenseArena.Split | src/llama-moestream.cpp:2345-2348 | The started threads' pieces tile [0, bytes) without gap or overlap, for every thread count |
| DenseArena.ChunkedReadExact | src/llama-moestream.cpp:2345-2360 | In every interleaving of the threads the destination gets exactly the file's bytes and nothing else changes |
| DenseArena.ReadRange | src/llama-moestream.cpp:2330-2361 | The read, with one thread or many, writes exactly the file's bytes |
| DenseLoader.DenseBuffers.LoadLayer | src/llama-moestream.cpp:2367-2409 | A load happens iff the layer is recorded and not resident; then the buffer holds all its weights; other buffers are untouched |
| DenseLoader.ReadWeights | src/llama-moestream.cpp:2378-2402 | The loop puts every weight at its place |
| DenseProtocol.StepKeeps | src/llama-moestream.cpp:2367-2446 | Every step of the protocol, with the stale resident record during a load, keeps the invariant |
| DenseProtocol.ComputeSafe | src/llama-moestream.cpp:2448-2459 | While a layer is computed on, its buffer holds all its weights |
| DenseProtocol.ComputeUndisturbed | src/llama-moestream.cpp:2440-2446 | The prefetched layer is in another buffer: nothing touches the one computed on |
| DenseProtocol.JoinRight | src/llama-moestream.cpp:2432-2435 | After a join a buffer recorded to hold a layer holds exactly that layer's bytes |
| DenseProtocol.LoadsProceed | src/llama-moestream.cpp:2367-2409 | No load waits for anything |
| DenseProtocol.KickStarts | src/llama-moestream.cpp:2440-2446 | Compute starts with a background load of the next layer exactly if there are two buffers and that layer is streamed, recorded and not resident |
| DenseProtocol.PrefetchPays | src/llama-moestream.cpp:2367-2374 | A load op reads its layer exactly if the buffer is not recorded to hold it |
| DenseProtocol.FinishRecords | src/llama-moestream.cpp:2403 | A finished load records its layer, and nothing else changes the record |
| DenseProtocol.RunSafe | src/llama-moestream.cpp:2367-2459 | Over every interleaving: whenever compute runs, the layer's weights are in place |
| StackDistance.HistogramIsHits | src/llama-moestream.cpp:2728-2733 | The stack theorem: for every slot count, the histogram of reuse distances below it counts the LRU hits |
| StackDistance.ColdAndHits | src/llama-moestream.cpp:2699-2708 | Every access is a first use or has a distance below the number of experts |
| StackDistance.HitsMonotone | src/llama-moestream.cpp:2712-2713 | More slots never lose a hit |
| StackDistance.LayerDistance | src/llama-moestream.cpp:2704-2707 | A layer's distances are those of its own accesses taken alone |
| StackDistance.RowTouched | src/llama-moestream.cpp:2709 | Writing the new time keeps the row a spelling of the recency stack |
| StackDistance.NewerIsPosition | src/llama-moestream.cpp:2702-2703 | Counting later times gives the expert's position in the recency stack |
| MissRatioCurve.CountNewer | src/llama-moestream.cpp:2702-2703 | The counting loop |
| MissRatioCurve.MrcRecorder.constructor | src/llama-moestream.cpp:1710-1715 | Empty tables are the record of no access |
| MissRatioCurve.MrcRecorder.Measure | src/llama-moestream.cpp:2698-2703 | A zero time means a first use, else the count is the stack distance |
| MissRatioCurve.MrcRecorder.Count | src/llama-moestream.cpp:2696-2708 | The counters of one access |
| MissRatioCurve.MrcRecorder.Touch | src/llama-moestream.cpp:2692-2710 | Recording keeps every table the exact record of the accesses so far; accesses out of range are ignored |
| MissRatioCurve.MrcRecorder.Curve | src/llama-moestream.cpp:2727-2734 | hit[c] is the LRU hit rate with c slots per layer, for every c at once |
| MissRatioCurve.Conserved | src/llama-moestream.cpp:2696-2708 | First uses and histogram entries add up to the accesses |
| LruSimulator.LeastRecent | research/spikes/s16_policy_compare/main.cpp:72-74 | The scan finds the resident with the earliest last use |
| LruSimulator.EvictLru | research/spikes/s16_policy_compare/main.cpp:71-76 | Making room drops the bottom of the recency stack's top; without slots it drops the one expert kept |
| LruSimulator.AccessRow | research/spikes/s16_policy_compare/main.cpp:66-77 | One access hits iff its stack distance is below the slot count (below 1 without slots), and the row holds the top of the stack again |
| LruSimulator.SimLru | research/spikes/s16_policy_compare/main.cpp:57-80 | The simulator's hits are the LRU hits by stack distance, for every trace and slot count, what the one-pass curve reports; asked for 0 slots it hits like 1 |
| LfuSimulator.Coldest | research/spikes/s16_policy_compare/main.cpp:101-103 | The scan finds the first of the coldest residents |
| LfuSimulator.Replace | research/spikes/s16_policy_compare/main.cpp:104-107 | Replacing the coldest resident by a hotter expert keeps the residents a top set |
| LfuSimulator.AccessRow | research/spikes/s16_policy_compare/main.cpp:94-107 | One access follows the policy: it counts once, and the expert is in afterwards iff it was, there was room, or a resident had been used less than it has now; then the first of the coldest leaves |
| LfuSimulator.LeavesOnlyForHotter | research/spikes/s16_policy_compare/main.cpp:99-108 | Under the policy a resident leaves only for an expert used strictly more often, and at most one leaves |
| LfuSimulator.HistoryUnique | research/spikes/s16_policy_compare/main.cpp:83-110 | A trace has one history under the policy, so its hits are a function of the trace |
| LfuSimulator.SimLfu | research/spikes/s16_policy_compare/main.cpp:83-110 | After any trace the hits are exactly those of the policy along its one history; the residents of every layer are a top set by lifetime count, and counts are the uses |
| LfuSimulator.OutsideNeverHotter | research/spikes/s16_policy_compare/main.cpp:83-110 | No expert outside was used more often than one inside |
| ConcaveHull.PopKnots | src/llama-moestream.cpp:2803-2808 | The popping loop leaves knots whose chords cover the curve and fall to the new point |
| ConcaveHull.BuildHull | src/llama-moestream.cpp:2800-2810 | The monotone chain: knots from 0 to n, chords covering the curve, slopes strictly falling |
| ConcaveHull.Majorant | src/llama-moestream.cpp:2778-2779 | The hull is nowhere below the curve |
| ConcaveHull.HullConcave | src/llama-moestream.cpp:2778-2779 | The hull is concave |
| ConcaveHull.LeastMajorant | src/llama-moestream.cpp:2778-2779 | The hull is below every concave curve nowhere below V: it is the least one |
| HullSegments.LayerBound | src/llama-moestream.cpp:2811-2815 | At any price per slot, what x slots bring is at most their cost plus what the steeper chords bring beyond it |
| HullSegments.LayerTight | src/llama-moestream.cpp:2811-2815 | For every x some price makes that an equality |
| HullSegments.TotalPermuted | src/llama-moestream.cpp:2817-2818 | Totals over segments do not depend on how ties are sorted |
| HullGreedy.SortSegments | src/llama-moestream.cpp:2817-2818 | A descending permutation of the segments |
| HullGreedy.Spend | src/llama-moestream.cpp:2819-2827 | For any order of equal slopes, the greedy loop stays within the budget, no layer gets more than its segments, and the result equals budget times price plus gain at some price |
| HullAllocator.BuildCurve | src/llama-moestream.cpp:2798-2799 | V is the cumulative histogram |
| HullAllocator.CollectChords | src/llama-moestream.cpp:2811-2815 | The chords with positive slope, in order |
| HullAllocator.Allocate | src/llama-moestream.cpp:2788-2827 | hit_opt is at least the hits of every integer allocation within the layers and the budget, equals the sum of the layers' hulls at cur, and cur is within layers and budget |
| HullAllocator.EvenIsAffordable | src/llama-moestream.cpp:2771-2773 | The even split is within the budget |
| HullAllocator.CompareWithEven | src/llama-moestream.cpp:2781-2787 | hit_uniform is the hits of the even split, and never above hit_opt |
| MrcReport.CurveIsLru | src/llama-moestream.cpp:2794-2799 | A layer's cumulative curve is its LRU hit count |
| MrcReport.Compare | src/llama-moestream.cpp:2781-2827 | hit_uniform is the LRU hits with g_slots slots in every layer, and never above hit_opt |
| MrcReport.Optimum | src/llama-moestream.cpp:2770-2827 | Fed with the recorder's histograms, hit_opt bounds the LRU hits, on the recorded accesses, of every division of the same memory among the layers |
| UnionSizing.UnionOfOne | src/llama-moestream.cpp:1066-1078 | u(1) = k |
| UnionSizing.UnionRecurs | src/llama-moestream.cpp:1066-1078 | u(0) = 0 and u(n + 1) = k + (1 - k / N) u(n) |
| UnionSizing.UnionBounds | src/llama-moestream.cpp:1066-1078 | 0 <= u(n) <= min(N, n k) |
| UnionSizing.UnionGrows | src/llama-moestream.cpp:1066-1078 | u never falls with n, and rises strictly unless k = N |
| UnionSizing.Threshold | src/llama-moestream.cpp:1530-1543 | The loop returns n from 1 to 4096 such that for every batch size from 2 to n 1.15 times the union leaves k slots, and below 4096 for n + 1 it does not |
| UnionSizing.ThresholdIsSharp | src/llama-moestream.cpp:1530-1543 | No larger batch size fits either: the threshold separates the sizes |
| UnionSizing.SixPassNotSeven | src/llama-moestream.cpp:1530-1543 | 16 experts, 2 per token, 13 slots: six tokens pass and seven do not |
| UnionSizing.SlabSlots | src/llama-moestream.cpp:1063-1085 | The slab has room for one token's experts, min(N, k), if and only if k <= N, N <= 8, or the size asked for or the micro-batch estimate reaches N; for k <= N it is the largest of 8, the size asked for and 1.15 times the union plus k, up to N |
| UnionSizing.NeedWide | src/llama-moestream.cpp:1063-1081 | With k > N the estimate still arrives at N if k <= 2 N or the micro-batch is odd |
| UnionSizing.NeedCanFallShort | src/llama-moestream.cpp:1063-1081 | Otherwise it need not: N = 10, k = 26 and two tokens give 9 |
| UnionSizing.DecodeNeverExhausts | src/llama-moestream.cpp:1063-1085 | With min(N, k) slots a call of at most k ids never exhausts, from any reachable state and whatever it repeats |
| UnionSizing.AlwaysFitsIff | src/llama-moestream.cpp:1526-1543 | No batch of n tokens can exhaust the slab if and only if min(N, n k) <= slots |
| UnionSizing.ThresholdCanExhaust | src/llama-moestream.cpp:1526-1543 | A concrete size the threshold accepts at which a batch exhausts the slab whatever it held: the threshold bounds an expectation |
| GgufFormat.LittleNumber | src/llama-moestream.cpp:640-651 | Little-endian numbers read back as written |
| GgufFormat.Widths | src/llama-moestream.cpp:626 | The sizes of the thirteen value types |
| GgufReader.SkipExact | src/llama-moestream.cpp:624-654 | A well-formed value is skipped exactly, arrays nested to any depth included |
| GgufReader.SkipLimits | src/llama-moestream.cpp:624-654 | A type there is none of is not skipped, and a number exactly when the file holds all its bytes |
| GgufReader.ReadBack | src/llama-moestream.cpp:638-652 | Integers of every width and sign are read as their int64 value; floats, booleans, strings and arrays as 0 |
| GgufReader.EntryExact | src/llama-moestream.cpp:657-668 | An entry is read exactly, unless its key is longer than 2^20 bytes |
| GgufReader.FirstIsFirst | src/llama-moestream.cpp:661-669 | The first matching entry decides |
| GgufReader.FirstIsNone | src/llama-moestream.cpp:661-669 | Without a match the answer is 0 |
| GgufReader.LookupExact | src/llama-moestream.cpp:610-673 | On every well-formed file the lookup gives the first match before an over-long key |
| GgufReader.LookupFinds | src/llama-moestream.cpp:610-673 | For all prefixes and suffixes: the first integer from 1 to 4095 under a key of at most 2^20 bytes that is a prefix followed by the suffix, with no longer key before it, is the answer |
| GgufReader.LookupMisses | src/llama-moestream.cpp:610-673 | If no such entry comes before a key of more than 2^20 bytes the answer is 0 |
| GgufReader.SampleFile | src/llama-moestream.cpp:610-673 | A file given byte by byte, with one entry, and its answer |
| GgufReader.Reader.Read | src/llama-moestream.cpp:618 | Reads succeed exactly when enough bytes are left |
| GgufReader.Reader.Skip | src/llama-moestream.cpp:625-654 | The recursive skip succeeds exactly when the skip function does and ends where it says |
| GgufReader.Reader.SkipArray | src/llama-moestream.cpp:631-636 | The element loop |
| GgufReader.Reader.ReadEntry | src/llama-moestream.cpp:657-668 | One entry: key, type, value |
| GgufReader.ScanEntries | src/llama-moestream.cpp:656-670 | The loop over entries computes the scan |
| GgufReader.KvInt | src/llama-moestream.cpp:610-673 | The lookup as run gives what the lookup function says, malformed files included |

## Left out

- RemapCalls.RunExact: where there are more experts than slots, an expert must occur fewer than 65536 times in one call, which every batch of fewer than 65536 ids meets. The refcount has 16 bits and wraps; `RefcountWrap.BoundIsExact` proves that the condition is exact, with `RefcountWrap.WrapReadsWrongBytes` as the run beyond it.
- RemapCalls.RemapExact: the same condition.
- RemapCalls.RemapGathers: the same condition.
- RemapCalls.RemapKeeps: the same condition.
- RemapCalls.RunKeeps: the same condition.
- RemapCalls.ExhaustsIffTooMany: the same condition; `RemapCalls.ExhaustsOnlyIfTooMany` is the half that needs none.
- RemapModel.ServeAllSound: the same condition.
- SweepSum.PassContributes: the same condition.
- SweepSum.SweepIsUnsplit: the same condition.
- MissDelivery.CallGathersBytes: the same condition.
- LayerRuntimes.LayerRuntime.Remap: the same condition; the pass number is below 8, as the pass count of `src/llama-moestream.cpp:2137` is at most 8 (a forced larger count would make held-list keys of neighbouring layers collide); the largest expert has at least one byte.
- GgufReader.KvInt: string lengths of 2^63 and above, which the source hands to fseek as negative offsets, count as a failed skip; so what is proved about malformed files is proved for those without such lengths.
- GgufReader.Reader.Skip: the same lengths.
- QuotaModel.Rebalanced: when no layer wants any quota the source scales by n_slot / 0 and casts a value that is not a number, which C++ leaves undefined; the model takes no such cast to exceed the floor.
- PrefillProtocol.ComputeSafe: in-range ids. The source passes an out-of-range id through with a warning.
- DROP, NOOP and SWEEP_TEST modes, forced pass counts, order tracing and the hidden-state probe: diagnostics that bypass the contract. A slot reserved in drop mode and released unread would later be a hit without bytes.
- Failed or short reads: reads succeed. The copy loop of a read is modelled as pieces of any size.
- Rounding: hulls, quotas, pinning counts and union estimates are computed in exact reals, the curve in exact fractions.
- Integer widths: counters, clocks, steps and slot numbers are unbounded, except the refcount (16 bits), the absent-slot marker and the cast of the micro-batch estimate to 32 bits. Slot counts are at most the marker.
- The tables `ent_` and `slot_`, one vector over all layers in the source, are cut per layer, and so is the map of held lists; rows of last-use times likewise.
- std::sort and std::partial_sort: any result they may give, ties in any order. That partial_sort puts the most frequent experts first is not used.
- The slot count derived from the cache fraction is computed by the model; the other configuration (environment, learned settings, launcher) is a parameter.
- Tensors, views and strides: ids are a flat list in row order; the slab is one list of blocks per role; the host-pointer query is a map from slot and role.
- The call of the recorder inside the remap, the bandwidth tuner, timing and all reports beyond the curve and the allocation: measurements without effect on the result.
- The kick of a prefetch happens in the protocols when compute starts; one background read of one weight or expert is one step. A load's marking of experts as present is one step before its reads, as in the source, where nobody looks at the marks before the join.
- Passing ids through when MoEStream is disabled, and finalisation on the first call.
- That u(n) is the expected size of the union of n independent uniform choices: the formula is taken as given, its arithmetic and its consequences are proved.
- The reported sum of `hit_opt` as a percentage, the layers without accesses in it, and the recommendation text.
- Expert Sweep's buffer aliasing, which lies in llama.cpp; the patcher `src/apply.py` apart from the order of passes it creates.
- sim_s3fifo, trace loading, the other spikes and the Python analyses: empirical comparisons.
- The learned settings files, the shard naming, and the Vulkan and ggml calls.
