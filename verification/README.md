# A verified model of the co-scheduler

The system runs a workload of single-threaded programs on six cores. Time is cut into quanta; at the
end of each quantum a policy freezes the running programs, accounts for what they have done, selects
the programs for the next quantum and thaws them. This project models, in Dafny, the parts of it
that carry hard properties, and proves those properties for all inputs, all states and all runs.

- **Rings and sorting.** `Rings` has the operations of `src/list.h` on linked cells; `QSort` has the
  quicksort of `src/scheds/c_qsort.c`, which partitions a ring in place by unlinking and relinking
  cells, notices by adjacency tests that its cursors have crossed, and sorts the parts under
  temporary heads.
- **Policies.** `Scheds` holds the two program rings; `FairBwCache`, `PerfFair`, `Fair` and `Perf`
  are the `schedule` functions on them. Each is proved equal to a function on lists of programs
  (`FairBwCacheSpec`, `PerfFairSpec`, `Filling`, `PerfSpec`, `Bandwidth`), about which the budgets, the exclusion
  of classes, the exactness of mixed signed and unsigned arithmetic, work conservation and
  priorities are proved.
- **Quanta.** `Clocks` has the clocks of a program, `Freezing` the freeze and thaw functions on the
  rings, proved equal to the functions of `Quanta`. `Turns` says what one quantum may do to the
  state and `Expired` proves that `qexpired` of each of the four policies does only that. `Progress`
  says in numbers what a quantum does to the figures of a program: what is measured, what is
  charged, how progress moves and who is killed. `Monitoring` proves what the monitoring phase does.
- **Runs.** `Instances` makes the scheduler a state machine over quanta, new programs and finished
  programs, with respawning; `Rebalancing` has the two loops of `rebalance` on the rings, and
  `Settling` proves that one call of it is a part of such a run. Over all runs hold the conservation
  of instructions, the freshness of ids and slots (`Instances`), the passing of the figures from
  instance to instance and the sum of all progress (`Figures`), the conservation of time
  (`Elapsed`), the meaning of the program count (`Runs`), bounded waiting under `perf` (`Lines`,
  `BoundedWaiting`) and what each policy guarantees for a quantum (`Guarantees`).
- **Events.** `DynArrays`, `Heaps` and `HeapOrder` are the event heap, with removal from any
  position; `Hashes` is the chained hash table, which stands for a map. `Events` and `Selection` are
  the loop that handles all due events.
- **Life cycle.** `Lifecycle` and `Rounds` are the life of a program under the `linux` policy, as
  steps of the executor's state, and `Targets` counts its runs; `Executors` is the executor itself,
  with its heap, hash, lists and counters.

`Machine`, `Programs` and `Seqs` hold fixed-width arithmetic, the program record and facts about
sequences.

## Assumptions

- Every program needs one core (`README.md` of the repository, line 97, and all files in its `conf/`
  directory), and there are at least six cores; the tests `cores_allocated == MAX_CORES` rely on it.
- Clock readings, counter readings, pids, addresses of new memory and the contents of uninitialised
  memory are inputs of the steps. Every program has its own reading of the clock in every loop.
- The divisors in the freeze functions and in the last accounting are not zero (`Quanta.Divides`,
  `Rebalancing.EndDivides`): a zero ends the original program.
- Signed overflow of `target_instr` and of the counters is not modelled; unsigned arithmetic, and
  all conversions between types of different width or sign, are. `FairBwCacheSpec.NeverOverflows`
  bounds the figures for which the `int` sum of the cache budget does not overflow.
- The policies are built as the repository builds them, without `TIME_WINDOW`.
- Times are normalised and a quantum is longer than zero. New pids differ from those of all
  processes not yet waited for; new addresses are not in use.
- Cache monitoring is available, so occupancy is read in every quantum.
- `BoundedWaiting` supposes of a run (`BoundedWaiting.Bounded`): the clock does not go back; the
  loops read it in list order, and the readings at which waiting times are taken differ by at most
  `s`; from these to those of the next quantum no more than `d` passes, and at least `s` before the
  programs stop; at most `n` programs are listed; `(n + 1) * d` is below 2^31 milliseconds. Beyond
  that waiting times are wrong, exactly as `BoundedWaiting.WaitingIs` says.

## Where the code differs from its comments

- `fair` moves its window on at twice the number of programs (`src/scheds/fair.c:275`), but leaves
  the monitoring phase like the others when the window passes the number itself. The first program
  therefore runs alone twice, and is charged for the second time (`Monitoring.FairRunsFirstAgain`,
  `Monitoring.FairChargesFirst`).
- The comment at `src/aff-executor.c:946-950` says that a respawned program's event need not be
  added to the heap; the code adds it, and the model follows the code.
- The sort key narrows the 64-bit progress ratio to `int`. `Fair.KeyFaithfulWhen` says exactly when
  the narrowed key can be trusted.
- No policy sets `reset_qt`; the code that it guards is modelled all the same.

## Model

| member | source | states |
|---|---|---|
| Rings.AddTail | src/list.h:57-65 | appends a cell to any well-formed ring: same cells plus the new one, next and prev stay inverse |
| Rings.Add | src/list.h:46-54 | inserts behind any cell, the head included; the ring stays well-formed |
| Rings.Del | src/list.h:68-81 | unlinks a cell; the ring without it is well-formed, the cell keeps its own stale links |
| Rings.Move | src/list.h:83-89 | unlinks and reinserts behind another cell of the same ring, adjacent cells included |
| QSort.Swap | src/scheds/c_qsort.c:25-29 | unlinking and relinking twice exchanges two cells of a ring, also when they are neighbours |
| QSort.ScanRight | src/scheds/c_qsort.c:14-17 | the first cursor stops at the first key not before the pivot, never at the head, and the flag is set exactly when it meets the other cursor |
| QSort.ScanLeft | src/scheds/c_qsort.c:19-22 | the same for the cursor that walks left |
| QSort.Exchange | src/scheds/c_qsort.c:24-32 | an exchange keeps the ring and its nodes, and both scanned parts on the right side of the pivot |
| QSort.Crossed | src/scheds/c_qsort.c:33-35 | once the cursors have met, everything up to `j` is not after the pivot and everything behind it not before |
| QSort.Partition | src/scheds/c_qsort.c:5-37 | on two or more nodes: terminates, keeps the ring and its nodes, returns a node that is not the last, splits the keys around the pivot, evaluates no key of the head |
| QSort.Cut | src/scheds/c_qsort.c:60-71 | the two parts become rings of the temporary heads |
| QSort.Join | src/scheds/c_qsort.c:77-83 | two rings become one ring of the old head; no temporary head stays linked |
| QSort.SortedJoin | src/scheds/c_qsort.c:73-83 | sorted parts on two sides of a pivot make a sorted whole |
| QSort.SortParts | src/scheds/c_qsort.c:73-84 | sorting both parts and joining them sorts the ring |
| QSort.Quicksort | src/scheds/c_qsort.c:39-84 | for every ring: terminates; the same nodes, under the same head, ordered by key ascending or descending |
| DynArrays.DynArray.Create | src/dynarray.c:15-35 | an empty array |
| DynArrays.DynArray.Expand | src/dynarray.c:87-98 | growing keeps the contents |
| DynArrays.DynArray.Alloc | src/dynarray.c:100-110 | one more slot, the others unchanged |
| DynArrays.DynArray.Dealloc | src/dynarray.c:112-115 | the last slot goes |
| HeapOrder.SinkOrdered | src/heap.c:125-139 | moving the hole to a leaf keeps the order of all edges away from the hole |
| HeapOrder.LiftOrdered | src/heap.c:55-68 | lifting into a hole restores heap order for any total preorder |
| HeapOrder.RootLeast | src/heap.c:95-107 | no element precedes the root |
| HeapOrder.PushKeeps | src/heap.c:70-75 | a push keeps heap order and adds one element |
| HeapOrder.PopOrdered | src/heap.c:113-146 | removal from any position keeps heap order, also when the last element has to rise above that position |
| HeapOrder.PopPerm | src/heap.c:113-146 | removal takes exactly one occurrence of the returned element |
| HeapOrder.PopLastSlot | src/heap.c:113-146 | removal of the last slot shortens the heap and nothing else |
| HeapOrder.PopRemoves | src/heap.c:113-146 | an element that occurs once is gone afterwards if and only if it did not sit in the last slot below a parent that it should precede |
| HeapOrder.ChangedKeyPoppable | src/aff-executor.c:1048-1049 | a changed key disturbs only edges at its own slot |
| HeapOrder.ResetKey | src/aff-executor.c:1048-1050 | pop and push after a key has changed in place: heap order and multiset are kept if and only if the element is not lost in the last slot |
| HeapOrder.RaisedKey | src/aff-executor.c:1048-1050 | a key that is raised is never lost |
| Heaps.Heap.SiftDown | src/heap.c:55-68 | the in-place loop computes `HeapOrder.Lift` |
| Heaps.Heap.Push | src/heap.c:70-75 | computes `HeapOrder.Push` |
| Heaps.Heap.Peek | src/heap.c:95-107 | the root, unless the heap is empty |
| Heaps.Heap.SinkHole | src/heap.c:125-139 | the loop that moves the hole to a leaf computes `HeapOrder.Sink` |
| Heaps.Heap.PopAt | src/heap.c:113-146 | returns the element at any position and computes `HeapOrder.PopAt`; out of range it changes nothing |
| Heaps.Heap.Pop | src/heap.c:148-151 | removal of the root |
| Heaps.Heap.PopElem | src/heap.c:154-166 | removes the first occurrence of an element if there is one |
| Hashes.Hash.Init | src/hash.c:7-22 | an empty table |
| Hashes.Hash.Find | src/hash.c:69-81 | the walk along a chain finds the entry of a key if and only if the key is in the map |
| Hashes.Hash.Lookup | src/hash.c:64-84 | returns what the map returns, or the not-found mark |
| Hashes.Hash.Insert | src/hash.c:37-62 | the table stands for the updated map; keys stay unique and in their buckets |
| Hashes.Hash.Delete | src/hash.c:86-116 | removes the key and returns its value, for the first and for later entries of a chain |
| Hashes.Hash.Swap | src/hash.c:118-160 | exchanges two values if both keys exist, else changes nothing and returns -1 |
| Hashes.HoldsCons | src/hash.c:59-61 | a new key in front of its chain keeps the chain exact |
| Hashes.HoldsDropped | src/hash.c:108-113 | unlinking an entry removes its key from the chain and no other |
| Scheds.Sched.ToSch | src/scheds/fair_bw_cache.c:23-27 | moves a program to the end of the scheduled list |
| Scheds.Sched.Assign | src/scheds/fair_bw_cache.c:406-410 | moves a program and gives it the next core; cores stay 0, 1, 2, ... in list order |
| Scheds.Sched.SortAll | src/scheds/fair_bw_cache.c:381-382 | the list of programs is sorted by the narrowed progress ratio, with the same programs |
| Scheds.Sched.Monitor | src/scheds/fair_bw_cache.c:350-365 | the head of the list is scheduled alone and the window moves by one |
| Scheds.Sched.MoveProgsToAll | src/scheds/fair_bw_cache.c:29-39 | the safe iteration empties one list onto the end of the other, in order |
| Scheds.ViewPerm | src/scheds/fair_bw_cache.c:381-382 | permuting the nodes permutes the programs they stand for |
| Filling.FillRestCores | src/scheds/fair_bw_cache.c:330-348 | takes programs from the front until cores or programs run out |
| Filling.FillPerm | src/scheds/fair_bw_cache.c:330-348 | no program is lost, and afterwards the cores are full or no program waits |
| Bandwidth.SpendStays | src/scheds/perf.c:367-368 | the remaining bandwidth stays non-negative, and is the difference or zero if and only if the overdraft is at most 2^63 |
| Bandwidth.SpendExact | src/scheds/perf_fair.c:363-364 | so it is for all readings below 2^63 |
| FairBwCacheSpec.AdmitBudgeted | src/scheds/fair_bw_cache.c:388-403 | each admission keeps budgets, flags and class exclusion |
| FairBwCacheSpec.FirstPassLimits | src/scheds/fair_bw_cache.c:384-411 | admitted BW reads total at most 562833745; with a CS program admitted, CS and CNS occupancy at most 19605765; never both classes |
| FairBwCacheSpec.NeverWraps | src/scheds/fair_bw_cache.c:384-411 | a program is admitted if and only if its class and the sums allow it: BW without a CS program and with reads up to 562833745, CS without a BW program and with occupancy up to 19605765, CNS with a CS program only up to that occupancy, any other always; no mixed comparison goes wrong |
| FairBwCacheSpec.Least | src/scheds/fair_bw_cache.c:301-317 | the first of the least demanding programs |
| FairBwCacheSpec.GrowExclusive | src/scheds/fair_bw_cache.c:416-422 | neighbours never bring in the other class |
| FairBwCacheSpec.NeverMixed | src/scheds/fair_bw_cache.c:384-428 | until the rest of the cores is filled no BW and CS program are together |
| FairBwCacheSpec.GrowLeast | src/scheds/fair_bw_cache.c:280-328 | each neighbour is the first least demanding program of the class that is admitted, by its reads or by its occupancy, although the list is reordered on the way; they end when the cores are full or none is left |
| FairBwCacheSpec.SelectLeast | src/scheds/fair_bw_cache.c:380-430 | the whole of `schedule` on more programs than cores: what class and sums admit, then these neighbours, then programs from the front only if no such program is left |
| FairBwCacheSpec.SelectShort | src/scheds/fair_bw_cache.c:413-429 | on no more programs than cores: what is admitted, then all others from the front |
| FairBwCacheSpec.FirstPassPerm | src/scheds/fair_bw_cache.c:384-411 | the first pass loses no program |
| FairBwCacheSpec.GrowPerm | src/scheds/fair_bw_cache.c:280-328 | nor do the neighbours |
| FairBwCacheSpec.WorkConserving | src/scheds/fair_bw_cache.c:413-429 | exactly min(6, n) programs are scheduled, all others are kept |
| FairBwCacheSpec.HeadIsScheduled | src/scheds/fair_bw_cache.c:384-411 | the head of the sorted list is admitted by the first pass if and only if it does not by itself demand more than budget and slack, and then comes first |
| FairBwCacheSpec.NoneAdmitted | src/scheds/fair_bw_cache.c:384-411 | the first pass admits nothing if and only if every program by itself demands too much |
| FairBwCacheSpec.FirstFitIsScheduled | src/scheds/fair_bw_cache.c:380-430 | after all passes the first program in sorted order that does not by itself demand too much is scheduled first, whatever the programs before it demand |
| FairBwCacheSpec.NeverOverflows | src/scheds/fair_bw_cache.c:388-403 | cutting every sum of the cache budget to 32 bits changes nothing, from any budgeted state on, if no `llc_alone` exceeds 350000000 in size |
| FairBwCache.ChooseProgs | src/scheds/fair_bw_cache.c:384-411 | the first pass over the ring computes `FairBwCacheSpec.FirstPass` |
| FairBwCache.SetAside | src/scheds/fair_bw_cache.c:290-297 | the suitable programs are moved to the local list, in order |
| FairBwCache.LeastDemand | src/scheds/fair_bw_cache.c:301-317 | the first program with the least demand |
| FairBwCache.PutBack | src/scheds/fair_bw_cache.c:321-325 | the local list is emptied again |
| FairBwCache.GoodNeighbors | src/scheds/fair_bw_cache.c:280-328 | schedules the first least demanding suitable program, or reports that there is none; nothing stays on the local list |
| FairBwCache.Choose | src/scheds/fair_bw_cache.c:380-430 | all passes together compute `FairBwCacheSpec.Select` |
| FairBwCache.Schedule | src/scheds/fair_bw_cache.c:367-431 | monitors, or selects from the sorted list; min(6, n) programs on distinct cores, every program on one list |
| Fair.Schedule | src/scheds/fair.c:294-320 | monitors, or takes the first programs of the sorted list |
| Fair.RunnersAreBehind | src/scheds/fair.c:304-318 | no program that waits is behind one that runs, by the sort key, and by the ratio if it is below 2^31; min(6, n) run |
| Fair.KeyFaithfulWhen | src/scheds/fair.c:39-46 | the narrowed key can be trusted for a program if and only if its ratio is below 2^31 |
| PerfFairSpec.FirstPassReserved | src/scheds/perf_fair.c:358-372 | admitted reads total at most 275958745, which leaves 271250000 |
| PerfFairSpec.AdmitsExactly | src/scheds/perf_fair.c:358-372 | the unsigned comparison is exact: a program is admitted if and only if the admitted reads stay at most 275958745; 547208745 less these reads are left |
| PerfFairSpec.Closest | src/scheds/perf_fair.c:288-300 | the first of the programs with least fitness |
| PerfFairSpec.FitnessIsDistance | src/scheds/perf_fair.c:290-294 | the fitness is the distance to the remaining bandwidth if and only if that is below 2^63 |
| PerfFairSpec.NeighborIsNearest | src/scheds/perf_fair.c:280-305 | for a remaining bandwidth in 0..BW_LIMIT and readings below 2^63, the neighbour is the first program nearest to it |
| PerfFairSpec.GrowNearest | src/scheds/perf_fair.c:374-392 | from any bandwidth in that range, every program that is added is the first one nearest to the bandwidth that is then left |
| PerfFairSpec.SelectNearest | src/scheds/perf_fair.c:347-392 | the whole of `schedule` on more programs than cores: what is admitted while the reads total at most 275958745, then one by one the first program nearest to the bandwidth that is left of 547208745 |
| PerfFairSpec.SelectShort | src/scheds/perf_fair.c:347-392 | on no more programs than cores: what is admitted, then all others from the front |
| PerfFairSpec.WorkConserving | src/scheds/perf_fair.c:374-392 | min(6, n) programs are scheduled and none is lost |
| PerfFair.ChooseProgs | src/scheds/perf_fair.c:358-372 | the first pass over the ring computes `PerfFairSpec.FirstPass` |
| PerfFair.GoodNeighbors | src/scheds/perf_fair.c:280-305 | schedules the first program of least fitness; the list must not be empty |
| PerfFair.Choose | src/scheds/perf_fair.c:347-392 | all passes together compute `PerfFairSpec.Select`; the empty list is never searched |
| PerfFair.Schedule | src/scheds/perf_fair.c:343-394 | monitors, or selects from the sorted list |
| PerfSpec.Longest | src/scheds/perf.c:300-311 | the first longest waiting program |
| PerfSpec.Nearest | src/scheds/perf.c:327-344 | the first nearest program |
| PerfSpec.WorkConserving | src/scheds/perf.c:364-380 | min(6, n) programs are scheduled and none is lost |
| PerfSpec.NeverMovesBack | src/scheds/perf.c:364-380 | a program that is passed over does not move back in the list |
| PerfSpec.HeadRuns | src/scheds/perf.c:364-380 | if the head has waited longest it runs, and each other program runs or moves up |
| PerfSpec.FitnessIsDistance | src/scheds/perf.c:334 | the unsigned fitness is the distance to the remaining bandwidth, whatever the reads |
| PerfSpec.RestNearest | src/scheds/perf.c:363-378 | from any remaining bandwidth on, each program taken is the first one nearest to what is then left |
| PerfSpec.SelectNearest | src/scheds/perf.c:353-382 | the whole of `schedule`: the first of those that have waited longest, then one by one the first program nearest to the bandwidth that is left, 255958745 less the reads of the first, or zero |
| PerfSpec.SpendGrows | src/scheds/perf.c:367-368 | a reading for which the condition fails: of 255958745 the program then leaves 255958746 |
| Perf.MaxWaiting | src/scheds/perf.c:292-317 | takes the first of the programs that have waited longest |
| Perf.MaxFitness | src/scheds/perf.c:321-351 | takes the first program of least fitness although each fitness is stored only when its program is visited |
| Perf.Schedule | src/scheds/perf.c:353-382 | the loop computes `PerfSpec.Select` |
| Clocks.StartClock | src/scheds/common.c:265-274 | waiting time is charged unless the program runs |
| Clocks.StopClock | src/scheds/common.c:276-285 | running time is charged unless the program is stopped |
| Clocks.UpdateClock | src/scheds/common.c:311-315 | both in turn: exactly one applies |
| Clocks.UpdateWaiting | src/scheds/common.c:287-295 | the waiting time, narrowed to an `int` |
| Clocks.InitClock | src/scheds/common.c:297-309 | all clocks start |
| Clocks.ChargedOnce | src/scheds/common.c:265-315 | over any alternation of thaws and freezes each interval is charged once, to the right total, modulo 2^32 |
| Clocks.IntervalsAddUp | src/scheds/common.c:265-315 | the two kinds of intervals cover the whole time |
| Clocks.TimeConserved | src/scheds/common.c:265-315 | running and waiting time together are the last transition minus the initialisation, modulo 2^32 |
| Quanta.IdealMeans | src/scheds/fair_bw_cache.c:53 | the ideal instructions grow by `ipc_alone` times the cycles over 1000 if and only if neither product nor sum leaves 64 bits (or a negative product does so exactly a thousand times); no other field but the ratio changes |
| Quanta.RatioMeans | src/scheds/fair_bw_cache.c:50-56 | on top of that, the ratio is the instructions done in thousandths of the ideal ones, rounded down, if and only if the product of the instructions and 1000 is below 2^64 |
| Quanta.NarrowMeans | src/scheds/fair_bw_cache.c:61 | a quotient stored in an `int` is right if and only if the product fits in 64 bits and the quotient in 31 |
| Freezing.StopAll | src/scheds/fair_bw_cache.c:243-248 | all scheduled programs are stopped, each at its own reading of the clock, and their clocks charged |
| Freezing.Collect | src/scheds/perf_fair.c:57-65 | the stand-alone figures of a program, policy by policy |
| Freezing.KillApp | src/scheds/fair_bw_cache.c:72-100 | the program leaves its list, is marked and counted off |
| Freezing.MeasureOne | src/scheds/fair_bw_cache.c:251-267 | one program is measured, and collected, charged or killed; the safe iteration survives its removal |
| Freezing.MeasureSch | src/scheds/fair_bw_cache.c:251-267 | the whole loop computes `Quanta.MeasureAll` |
| Freezing.UpdateProgress | src/scheds/fair_bw_cache.c:50-56 | ideal instructions and ratio, by divisions whose divisor is not zero |
| Freezing.AssessSched | src/scheds/fair_bw_cache.c:271-276 | waiting times, each from its own reading of the clock, and ratios of all programs |
| Freezing.FreezeSched | src/scheds/fair_bw_cache.c:228-278 | the three loops and the window together compute `Quanta.Freeze`, for all four policies |
| Freezing.ThawSched | src/scheds/fair_bw_cache.c:209-226 | computes `Quanta.Thaw` |
| Turns.FreezeCounts | src/scheds/fair_bw_cache.c:251-269 | freezing removes a program from the count when it removes it from the lists |
| Turns.TurnConserves | src/scheds/fair_bw_cache.c:367-431 | under every policy: as many programs as fit are scheduled, none is lost, nothing else changes |
| Turns.MonitorHasProgram | src/scheds/fair_bw_cache.c:350-359 | after freezing, a program to monitor exists if monitoring goes on; `monitor` never takes the bare list head for a program |
| Progress.FreezePasses | src/scheds/fair_bw_cache.c:228-278 | every program listed after freezing was listed before, with the same slot and class; the counters of its own run are in their fields; in the phase nothing is charged and what ran alone is measured, outside it what ran is charged and the progress of all programs moves by the first cycles counted |
| Progress.FreezeMeasures | src/scheds/fair_bw_cache.c:58-66 | in the phase, in numbers: the reads of the socket for a BW program that ran and its own reads for any other, its occupancy if and only if that is below 2^31, its instructions for each thousand cycles if and only if the numbers fit; progress and sums stay |
| Progress.FreezeMoves | src/scheds/fair_bw_cache.c:271-276 | outside the phase, in numbers: each listed program gains `ipc_alone` times the first cycles counted over 1000, its ratio is its progress in thousandths, each exactly if the numbers fit; in the phase, or without cycles, both stay |
| Progress.KilledWhen | src/scheds/fair_bw_cache.c:262-266 | what a program has run is taken from the target of its slot, and it is killed if and only if nothing is left |
| Progress.ExpiryPasses | src/scheds/fair_bw_cache.c:538-560 | a whole quantum does to the figures of a program exactly what its freeze does |
| Expired.PerfQuantum | src/scheds/perf.c:484-496 | freeze, select and thaw under `perf` is a step of `Turns.Quantum`; only the invariant of the count is needed |
| Expired.PerfFairQuantum | src/scheds/perf_fair.c:496-508 | the same under `perf_fair` |
| Expired.FairQuantum | src/scheds/fair.c:423-436 | the same under `fair` |
| Expired.FairBwCacheQuantum | src/scheds/fair_bw_cache.c:538-560 | the same under `fair_bw_cache` |
| Expired.QExpired | src/scheds/fair_bw_cache.c:538-574 | under all four policies: a step of `Turns.Quantum`, then the quantum's event gets the time of the next end and goes back into the heap |
| Monitoring.FreezeCollects | src/scheds/fair_bw_cache.c:251-277 | while monitoring, freezing collects what ran, charges nothing, keeps the order |
| Monitoring.EachRunsAlone | src/scheds/fair_bw_cache.c:350-365 | in quantum k of n the k-th program runs alone |
| Monitoring.PhaseEnds | src/scheds/fair_bw_cache.c:277 | the phase ends at the (n+1)th freeze with every program collected once, in list order |
| Monitoring.FairRunsFirstAgain | src/scheds/fair.c:275 | `fair` goes on for one quantum: the first program runs alone a second time |
| Monitoring.FairChargesFirst | src/scheds/fair.c:259-265 | and is charged for it |
| Monitoring.CollectedOnce | src/scheds/fair_bw_cache.c:251-277 | whatever the number of quanta, every program is collected exactly once |
| Monitoring.EachMeasured | src/scheds/fair_bw_cache.c:251-262 | from the end of its own quantum on, for any number of quanta, each program carries the figures of the quantum in which it ran alone |
| Monitoring.NotAgain | src/scheds/fair_bw_cache.c:16-21 | a quantum outside the phase collects nothing and does not lead back into it |
| Instances.ChargeOne | src/scheds/fair_bw_cache.c:263-264 | charging one program keeps the balance of all |
| Instances.FreezeSound | src/scheds/fair_bw_cache.c:228-278 | freezing keeps the balance, and one instance per program |
| Instances.ExpirySound | src/scheds/fair_bw_cache.c:538-560 | so does a whole quantum |
| Instances.StartSound | src/scheds/common.c:358-387 | so does handing an instance to the scheduler |
| Instances.FinishSound | src/scheds/fair_bw_cache.c:473-508 | so does a finished program, respawned or not |
| Instances.SlotKept | src/scheds/common.c:364 | a respawned instance has the slot of its predecessor |
| Instances.Respawned | src/scheds/fair_bw_cache.c:462 | its id has never been used |
| Instances.RunSound | src/aff-executor.c:904-956 | what holds in every state of every run |
| Instances.InstructionsConserved | src/scheds/fair_bw_cache.c:433-463 | over every run: target left and instructions done make up the initial target modulo 2^64, and exactly if and only if no more than 2^64 - 1 have been done |
| Instances.WaitingConserved | src/aff-executor.c:924-933 | the same for an instance that has been forked and not started |
| Instances.IdsAreFresh | src/aff-executor.c:915-919 | over every run no two instances share an id, and the listed ones have different slots |
| Instances.CreatedGrows | src/aff-executor.c:915-919 | no id is ever forgotten |
| Figures.RespawnsWhen | src/scheds/fair_bw_cache.c:446-462 | a program that has finished is started again if and only if more than 1000000000 instructions of its target are left |
| Figures.EndedMeans | src/scheds/fair_bw_cache.c:489-498 | the last accounting of a finished program: its counters in their fields, its instructions charged, its progress moved by its own last cycles |
| Figures.Inherits | src/aff-executor.c:919-933 | the next instance, field by field: class, `ipc_alone`, and outside `fair` occupancy and reads, are those of its predecessor; the ideal instructions include the last share; ratio and own reads start at zero |
| Figures.OneHolder | src/aff-executor.c:915-919 | no slot has two unfinished instances in any state |
| Figures.FiguresKept | src/scheds/fair_bw_cache.c:433-463 | over every run, with any number of instances in between, the class and the stand-alone figures of a slot stay until it is measured again |
| Figures.MeasuredForEver | src/scheds/fair_bw_cache.c:58-66 | what a program was measured to be in the phase holds of every later instance of its slot, until that is measured again |
| Figures.RatiosHold | src/scheds/fair_bw_cache.c:271-276 | after every quantum of every run outside the phase, the ratio of every listed program is its progress in thousandths |
| Figures.ProgressAddsUp | src/scheds/fair_bw_cache.c:50-56 | over every run the ideal instructions of a slot are what they were plus the shares of all quanta and last runs in between, modulo 2^64, and exactly if and only if the sum is below 2^64 |
| Elapsed.FreezeTicks | src/scheds/common.c:265-285 | freezing keeps running and waiting time together equal to the time since the start, whether the program ran or waited |
| Elapsed.TimeAddsUp | src/scheds/common.c:265-315 | over every run, as long as an instance is listed: running and waiting time are together the time since it was handed to the scheduler, up to the last reading of its clock, modulo 2^32 |
| Rebalancing.End | src/scheds/fair_bw_cache.c:482-498 | the last accounting of a finished program |
| Rebalancing.FinishProg | src/scheds/fair_bw_cache.c:481-503 | one turn of the first loop while execution is not stopping: last accounting, target, decision to respawn, count; a killed program is only counted off |
| Rebalancing.Unlink | src/aff-executor.c:136 | a program that ends leaves the list it is on |
| Rebalancing.Exit | src/scheds/fair_bw_cache.c:473-508 | both together are the step `Instances.Finished` |
| Rebalancing.FinishAll | src/scheds/fair_bw_cache.c:473-508 | the first loop over the ring of finished programs: targets, count and respawns come out as `SettledAll`; the ring is empty afterwards |
| Rebalancing.AddAll | src/scheds/fair_bw_cache.c:510-535 | the second loop appends all new programs, in order, with the data carried over |
| Rebalancing.Rebalance | src/scheds/fair_bw_cache.c:465-536 | both loops together: lists, count, targets and respawns, for any two rings of finished and of new programs |
| Rebalancing.Load | src/scheds/common.c:319-346 | the fields carried over to an instance, its slot and its clocks |
| Rebalancing.AddProg | src/scheds/fair_bw_cache.c:527-534 | one turn of the second loop |
| Settling.FinishedSettles | src/scheds/fair_bw_cache.c:473-508 | a finished program in a run of `Instances` is its removal from its list and one turn of the first loop |
| Settling.LaunchStep | src/scheds/fair_bw_cache.c:527-534 | a started program in a run of `Instances` is one turn of the second loop |
| Settling.SettledSteps | src/scheds/fair_bw_cache.c:473-508 | the first loop over any number of finished and killed programs is a sequence of steps of a run, one for each |
| Settling.AddedSteps | src/scheds/fair_bw_cache.c:510-535 | so is the second loop over any number of new programs |
| Settling.SettledBehind | src/scheds/fair_bw_cache.c:433-463 | instances that are forked join those that wait already, which change nothing |
| Settling.RebalanceIsRun | src/scheds/fair_bw_cache.c:465-536 | a whole call of `rebalance` has exactly the effect on lists, count, targets and waiting instances that `Rebalancing.Rebalance` computes, as a run of one step for each program |
| Runs.NeverMonitorsAgain | src/scheds/fair_bw_cache.c:16-21 | over any run, nothing is collected once the window has passed n while at most n programs are counted |
| Runs.CountsListed | src/scheds/fair_bw_cache.c:503-504 | `progs_nr` is the number of listed programs, less one for every killed program whose end has been handled |
| Runs.AlwaysReady | src/scheds/fair_bw_cache.c:538-560 | what the end of a quantum relies on holds in every state of every run |
| Lines.CutLined | src/scheds/perf.c:353-382 | a program that is taken from the list leaves it in the order in which the others began to wait |
| Lines.JoinLined | src/scheds/perf.c:265 | programs that stop join the list behind all that began to wait before, and with their own readings in order |
| BoundedWaiting.WaitingIs | src/scheds/common.c:287-295 | the waiting time is right if and only if it is below 2^31 ms |
| BoundedWaiting.FreezeLined | src/scheds/perf.c:225-274 | freezing appends the programs that have just stopped, in order, and takes exact waiting times, every program at its own readings |
| BoundedWaiting.ChosenInReach | src/scheds/perf.c:292-317 | the program with the longest waiting time is one that all others may see run before them: it began to wait no later, but for the spread of the readings |
| BoundedWaiting.SelectLined | src/scheds/perf.c:353-382 | selecting keeps the list in the order in which the programs began to wait |
| BoundedWaiting.TurnWaits | src/scheds/perf.c:353-382 | monitoring or not, each program that waits is scheduled, or one program fewer may still run before it |
| BoundedWaiting.ExpiryOrderly | src/scheds/perf.c:225-274 | one quantum keeps the order and the bound on every waiting time |
| BoundedWaiting.StepOrderly | src/scheds/perf.c:415-482 | so do new, finished and killed programs between the quanta |
| BoundedWaiting.CourseOrderly | src/scheds/perf.c:225-274 | in every state of every run the list is in order |
| BoundedWaiting.RunsWithin | src/scheds/perf.c:353-382 | a program that r programs, itself included, may run before, and that nobody who comes later can overtake, runs within r quanta |
| BoundedWaiting.RunsBehind | src/scheds/perf.c:353-382 | if the readings of one loop agree, a program that waits behind i others runs within i + 1 quanta, whatever comes and goes |
| BoundedWaiting.NoProgramStarves | src/scheds/perf.c:353-382 | with at most n programs, every program that stays is scheduled within n quanta if the readings of one loop agree, and within n + 1 if they differ by no more than the shortest quantum |
| Guarantees.FurthestBehindRuns | src/scheds/fair_bw_cache.c:380-430 | in every quantum of every run outside the phase in which some program does not by itself demand too much: the program scheduled first is one of these, and none of these is further behind |
| Guarantees.RunnersBehindWaiters | src/scheds/fair.c:294-320 | in every quantum outside the phase, no waiting program is behind a running one; if one waits six run |
| Guarantees.LongestThenNearest | src/scheds/perf.c:353-382 | in every quantum of `perf` outside the phase: the first of those that have waited longest runs, and the others are the first ones nearest in turn to the bandwidth left |
| Guarantees.EveryQuantumIsFull | src/scheds/fair_bw_cache.c:367-431 | in every quantum of every run, under all four policies: min(6, n) different programs run, or one while monitoring, and none of them is also waiting |
| Events.TimesAreNumbers | src/aff-executor.c:163-169 | on normalised times the comparison, sum and difference macros are those of microseconds |
| Events.EventOrder | src/aff-executor.c:163-169 | the order of events is a total preorder |
| Events.RootFirst | src/aff-executor.c:815-822 | no event in the heap comes before the root |
| Events.QueuePop | src/aff-executor.c:831-832 | taking the root keeps the queue although its event is freed or changed |
| Events.QueuePush | src/aff-executor.c:954 | pushing a new event keeps the queue |
| Selection.HandledDue | src/aff-executor.c:811-833 | handling an event makes it one less that is due, although handlers push events: the measure of the loop |
| Selection.AllHandled | src/aff-executor.c:805-834 | exactly the events that were due are handled, each once, and none that is due is left |
| Selection.HandledInOrder | src/aff-executor.c:805-834 | in the order of their times |
| Selection.Wakeup | src/aff-executor.c:822-828 | the alarm is set to exactly the earliest time minus now, and always |
| Lifecycle.HandledInv | src/aff-executor.c:770-797 | handling an event keeps the invariant of the life cycle |
| Lifecycle.NewRunningInv | src/aff-executor.c:111-119 | so does NEW to RUNNING |
| Lifecycle.RunningFinishedInv | src/aff-executor.c:122-139 | so does RUNNING to FINISHED |
| Lifecycle.BuriedInv | src/scheds/linux.c:194-212 | so does dealing with a finished program, respawned or not, killed or not |
| Lifecycle.ResetInv | src/aff-executor.c:1044-1051 | the quantum is reset while its event is in the heap: heap order, all events and the invariant are kept, if time does not go back |
| Lifecycle.EmptyLoading | src/aff-executor.c:588-624 | what holds while the configuration file is read holds at the beginning |
| Lifecycle.LoadMore | src/aff-executor.c:541-564 | reading a line of the configuration keeps what holds at the beginning |
| Lifecycle.LoadedInv | src/scheds/linux.c:84-86 | with the first push of the quantum's event the invariant holds |
| Rounds.MovesInv | src/aff-executor.c:770-797 | every kind of step keeps the invariant and the bound on the quantum's event |
| Rounds.CourseInv | src/aff-executor.c:1002-1057 | in every run of steps in any order: counters equal the events, new, running and finished programs; each program is in one state; the quantum's event is in the heap once |
| Rounds.ShutdownWhen | src/aff-executor.c:644-651 | the executor shuts down if and only if no program waits, is new or runs |
| Rounds.Rebalanced | src/scheds/linux.c:180-213 | after rebalancing no program is new or finished |
| Targets.BuriedMeans | src/scheds/linux.c:194-212 | a program that has run once more lowers its target by one, and is started again, under an id with its slot, if and only if that is not zero; else one program fewer is left |
| Targets.TimesAddUp | src/scheds/linux.c:170 | in every run, what is left of a target and the runs that counted are together what the target was |
| Targets.KilledStays | src/scheds/linux.c:246-252 | in every run a program that has been killed stays marked until its address is used again, so that its end counts for no target |
| Targets.LeftAddsUp | src/scheds/linux.c:200-203 | in every run one program fewer is left for each that is killed and each that reaches its target |
| Executors.Executor.constructor | src/aff-executor.c:588-624 | the state before the configuration file is read |
| Executors.Executor.Begin | src/aff-executor.c:541-564 | reads all lines and pushes the quantum's event; the invariant and the bound on that event hold from then on |
| Executors.Executor.WaitingNewStep | src/aff-executor.c:103-108 | WAITING to NEW |
| Executors.Executor.QExpired | src/scheds/linux.c:215-269 | the quantum's event is rescheduled; which programs are killed is an input |
| Executors.Executor.HandleEvent | src/aff-executor.c:770-797 | the three kinds of event |
| Executors.Executor.SelectReadyEvents | src/aff-executor.c:805-834 | terminates, handles the root as long as it is due, sets the alarm |
| Executors.Executor.NewRunningStep | src/aff-executor.c:111-119 | NEW to RUNNING: list, counters and hash |
| Executors.Executor.RunningFinishedStep | src/aff-executor.c:122-139 | RUNNING to FINISHED: the pid is found in the hash |
| Executors.Executor.ProgRespawn | src/aff-executor.c:904-956 | a new event and program; the heap stays a heap |
| Executors.Executor.BuryFirst | src/scheds/linux.c:194-212 | one finished program |
| Executors.Executor.LinuxRebalance | src/scheds/linux.c:180-213 | both loops |
| Executors.Executor.SigchldHandler | src/aff-executor.c:689-741 | all reported ends, then one rebalancing, then the shutdown test |
| Executors.Executor.CheckShutdown | src/aff-executor.c:644-651 | the test of the three counters |
| Executors.Executor.HandleEvents | src/aff-executor.c:847-857 | events, then rebalancing if programs are new |
| Executors.Executor.ResetQuantum | src/aff-executor.c:1044-1051 | changes the key in place, then pops and pushes |

The functions that these contracts compare the code with (`FairBwCacheSpec.Select`,
`PerfSpec.Select`, `Quanta.Freeze`, `Instances.Finished`, `Lifecycle.Handled` and so on) have no rows
of their own: what they mean is said by the lemmas about them.

## Left out

- Hardware access: performance counters, the IMC and RAPL registers, cpuid tables; their readings are inputs.
- Freezer, cpuset, fork, pipes, shared memory and signal installation; what is kept of a core range is its first core.
- Printing, result files and the totals and averages written to them, the wall-clock totals modulo 10000 seconds, and parsing.
- The stop-execution branch of `rebalance` and `*_kill_all`: the runs of `Instances` are those in which `progs_left` has not reached zero, which none of the modelled steps reads; it is kept for `linux` only.
- Rebalancing.FinishProg: `progs_left`, and what follows when it reaches zero, are left out.
- Rebalancing.Exit: the same.
- Rebalancing.FinishAll: the same.
- Rebalancing.Unlink: the program is then on no list; the ring of finished programs it goes to, and the counters, are not in the contract.
- Rebalancing.AddProg: `aff_prog_new_running` changes the hash and the executor's counters; it is modelled in `Lifecycle`.
- Rebalancing.AddAll: the same, and the branch for a stopping execution is left out.
- Rebalancing.Rebalance: what is said of its two loops.
- The hash and executor counters in `sched_clear_prog`: it deletes by `pid` where insertion uses `shell_pid`, so the equalities of the life cycle are stated for `linux`, which never calls it.
- Executors.Executor.WaitingNewStep: the list of new programs is a sequence of addresses here; the rings that the lists of the executor are made of are those of `Rings`.
- Executors.Executor.NewRunningStep: the same of the lists of new and of running programs.
- Executors.Executor.RunningFinishedStep: the same of the lists of running and of finished programs.
- Executors.Executor.BuryFirst: the same of the list of finished programs; targets are real numbers instead of doubles.
- Executors.Executor.LinuxRebalance: the same of both loops.
- Executors.Executor.QExpired: which programs `linux` kills depends on measured times and is an input; the averages it is decided from are left out.
- `handle_prog_notifications`: every policy registers no `prog_changed`.
- `cds_list_replace`, `cds_list_splice` and the aligned allocation functions of `src/dynarray.c`: not used by the modelled code.
- Freezing.KillApp: the totals it updates, and `progs_left`, are left out; removal from the list, the count and the `killed` mark are modelled.
