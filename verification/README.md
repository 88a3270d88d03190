# A model of the UwUGC garbage collector

UwUGC is a copying, compacting collector with two spaces. A cycle has five steps: stop the world,
flip the meaning of the mark bit and snapshot the roots (1); mark concurrently, reserving a
destination and writing a relocation record for each object (2); stop the world, freeze the
records, rewrite the roots and swap the spaces (3); relocate page by page, by workers and by page
faults of the running program (4); stop the world and requeue the emptied space (5). This project
models that path and the protocols around it, and proves exactly when the program never notices.

## How it is built

Each layer has a specification on values (functions and predicates on datatypes), the same work in
place on classes where the program does it in place, and lemmas about the specification.

- `Pages`, `PageRuns`, `Placement`: the page allocator. FlexPages tile the used base pages, grants
  of any number of contexts are disjoint, the space bound, and when destinations come out in
  increasing order.
- `Registry`, `Partition`: relocation records, binary search against a linear scan, and which
  records each page's query delivers.
- `Graph`, `Metadata`, `Marking`, `ConcurrentMark`: reachability, headers, the explicit-stack
  marker, and marking while the program stores, writes and drops handles.
- `Relocation`, `Bitmap`, `Copier`, `CopyMachine`, `CopyProgress`: the address map of a frozen
  registry, the work-done bits, filling a page, jobs that fill all of them in any order while the
  program runs, and that they get done. The class `Copier.CopierActive` and the interleaved machine
  have one specification of what a fill does, `Copier.Put` and `Copier.Fires`: what the page's query
  over the unsorted vector delivered, or a fired assertion.
- `Mutator`, `Collector`, `Completion`, `Cycle`: what a program can do and observe; whole runs of
  cycles against a program that has no collector; exactly when a cycle can be completed; and one
  cycle on the collector's own objects put together.
- `GCSync`, `Controller`: stopping the world, and requesting cycles, as transition systems over any
  number of threads, with the methods that take those steps. That steps 1, 3 and 5 are single
  steps of `Collector` rests on `GCSync.StoppedWorld`.
- `Roots`, `Descriptors`: the table of handles that safepoints rely on, and the iterators that find
  an object's pointers.

The centre is `Collector.CollectorInvisible`. The state during relocation is split into what is in
place and what is still to come, which an object whose page came without it is not. Their union is
unchanged by a fill, because the work-done bits let each unit be replaced only once and because with
increasing destinations a page's query delivers exactly the page's records; and it is changed by a
program step exactly as if everything were already in place (`CopyMachine`). Across cycles this world is
related to that of a machine that never moves anything by one injective placement of objects
(`Mutator.Mirrors`), composed with each cycle's relocation.

Conditions the model states rather than proves away:

- Destinations increase in insertion order when relocation begins. `freeze` sorts by source only,
  and the copier searches the destination vector. The code tests no order and neither does the model:
  step 3 is always possible. `Partition.PageQueriesRightIff` shows this condition is exactly what the
  per-page queries need, `CopyMachine.RelocationRightIff` and `Completion.CompletesIff` that it is
  exactly when relocation comes out right, under every schedule, and `Cycle.SharedState.DoCycle` that
  the same is so of the stopped cycle. `Placement.OneClassIncreasing` shows that one size class gives
  it and `Placement.MixedClassesOutOfOrder` that a mix breaks it in every table.
- No object is allocated between the flush of the local pages and step 3. Such objects are born
  marked and get no record; page donation, which is to carry them, is not finished.
- A program makes handles by allocation. It stores null or a handle's pointer, and writes data, in
  any object that a path of fields leads to from a handle, also during marking and relocation. The
  library has no call that makes a handle from a field: `Load`, which does so outside marking, is
  how the model lets a program hold a nested object or move a reference between fields there.
  `ConcurrentMark.RawStoreKeepsIff` says exactly when another store, such as moving a reference
  from field to field during marking as a growing vector does, keeps the marker's tricolour
  condition at that step, and `ConcurrentMark.LoadLosesObject` that taking a pointer out of a field
  in this window can lose an object.
- An object has one size, for allocation and for copying. The code gives both the same size exactly
  when the extra bytes of a request are an array's elements (`Descriptors.SizesAgreeIff`).

Where the code does less than its names or comments say:

- With mixed size classes destinations can come out of order, and then relocation trips an assertion or
  loses an object whose page is present (`Completion.BrokenIff`).
- `PointerIter` sets a part's base to the part's own offset, so pointers nested two levels down are
  listed at the wrong place unless the outer part is at offset zero (`Descriptors.ListedRightIff`,
  `Descriptors.NestedPartMissed`).
- A shutdown does not end a loop that waits for a request (`Controller.ShutdownEndsIff`); a loop it
  ends leaves waiters behind (`Controller.WaiterReturnsIff`); and the end of a cycle does not wake a
  caller of `run_exclusive` (`Controller.ExclusiveNotWoken`).
- A failed `load` of a loaded handle leaves the stored count one too low (`Roots.Inner.Load`).
- The fourth branch of the record comparison, marked as an unknown corner case, is never taken: it
  is a proved dead branch of `Registry.Compare`. So is the fallback to a zero page after a failed
  page lookup (`Copier.CopierActive.ResolveFault`).

## Model

| member | source | states |
|---|---|---|
| Pages.TilesExactly | uwugc/src/mm/page_table.rs:173-190 | on a tiled table a base page is below the used end if and only if some FlexPage covers it, and no base page is covered twice |
| Pages.PagesApart | uwugc/src/mm/page_table.rs:173-190 | two FlexPages never share an address |
| Pages.AllocStep | uwugc/src/mm/context.rs:27-53 | one allocation by a context keeps the tiling and the context's claim on its page, takes exactly the bytes above the page's used mark, fails exactly when a fresh page is needed and does not fit, and a failure changes nothing |
| Pages.SharedStep | uwugc/src/mm/page_table.rs:127-163 | the same for medium and huge objects, which leave every context's local page alone |
| Pages.AllocKeepsOthers | uwugc/src/mm/context.rs:27-53 | an allocation by one context keeps any other context's claim on its own small page |
| Pages.SmallLeavesRoom | uwugc/src/mm/context.rs:33-52 | a small object never takes the last byte of its page |
| Pages.MediumFillsExactly | uwugc/src/mm/page_table.rs:146-163 | a medium object may fill the shared page exactly |
| Pages.PageTable.ResolveToPage | uwugc/src/mm/page_table.rs:52-87 | the backward walk returns the one FlexPage whose bytes contain the address, and None exactly outside the used range |
| Pages.PageTable.Alloc | uwugc/src/mm/page_table.rs:127-163 | the in-place allocation of medium and huge objects is the specification function for every input |
| Pages.Context.AllocFromPageTable | uwugc/src/mm/context.rs:27-53 | the in-place allocation of a context, with its local page, is the specification function for every input |
| PageRuns.NewGrantApart | uwugc/src/mm/context.rs:27-53 | a new grant is disjoint from every grant made before, which stays inside its page |
| PageRuns.StepSafe | uwugc/src/mm/context.rs:17-53 | any request or flush by any context keeps all grants disjoint, inside one FlexPage and aligned, and takes none back |
| PageRuns.RunSafe | uwugc/src/mm/page_table.rs:127-190 | the same over every run of any number of contexts on one table |
| PageRuns.AllocKeepsDense | uwugc/src/mm/context.rs:33-52 | the density bound behind the space bound is kept by each allocation of a single context |
| PageRuns.SpaceBound | uwugc/src/mm/page_table.rs:127-163 | base pages in use take at most 8/7 of the small and medium bytes plus twice the huge bytes plus 10 MiB |
| PageRuns.WithinBoundSucceeds | uwugc/src/gc/marker.rs:72-76 | an allocation that stays within the bound of the table is not refused |
| PageRuns.OneContextBound | uwugc/src/mm/context.rs:33-52 | over any run of requests of one context it goes on with the page it has: the pages in use stay within the bound, and no request is refused while all together stay within it |
| PageRuns.FlushOpensPage | uwugc/src/mm/context.rs:17-25 | a flush changes nothing but that the context's next small request opens a page |
| Placement.ExtendGood | uwugc/src/gc/marker.rs:72-83 | placing one more object keeps destinations disjoint, increasing inside each page, and every FlexPage begun exactly by some destination |
| Placement.PlaceGrants | uwugc/src/gc/marker.rs:70-83 | placement gives one destination of the right size to each object, in order |
| Placement.PlaceSucceeds | uwugc/src/gc/marker.rs:72-76 | placing a whole list of objects from a cleared table succeeds whenever their bytes meet the space bound |
| Placement.PlaceIsCompact | uwugc/src/mm/page_table.rs:127-163 | a placement that succeeded used no more pages than the bound |
| Placement.FrontierIff | uwugc/src/mm/context.rs:33-52 | a destination is above all earlier ones if and only if its page is new or the last one |
| Placement.IncreasingIff | uwugc/src/gc/relocation_map.rs:105-109 | destinations come out increasing in insertion order if and only if that guard held at every placement |
| Placement.OneClassIncreasing | uwugc/src/mm/context.rs:33-52 | with all objects small, all medium or all huge they do |
| Placement.MixedClassesOutOfOrder | uwugc/src/mm/context.rs:33-52 | a small, a huge and a small object again are placed out of order in every table with room for them |
| Registry.MapAddrExact | uwugc/src/gc/relocation_map.rs:121-124 | on disjoint records the address map is defined exactly on covered bytes and keeps each byte's offset in its record |
| Registry.MapAddrInjective | uwugc/src/gc/relocation_map.rs:39-46 | with disjoint destinations two source addresses never map to the same place |
| Registry.SortSorts | uwugc/src/gc/relocation_map.rs:105-109 | sorting disjoint records by source leaves each ending before the next starts |
| Registry.SortPermutes | uwugc/src/gc/relocation_map.rs:105-109 | and loses or duplicates none |
| Registry.FreezeKeepsMap | uwugc/src/gc/relocation_map.rs:105-124 | freezing does not change the address map |
| Registry.BinarySearch | uwugc/src/gc/relocation_map.rs:134-145 | a returned index is a match; on sorted records None means no record contains the address |
| Registry.DeliverExact | uwugc/src/gc/relocation_map.rs:146-150 | from a match on sorted records exactly the records meeting the range are delivered, in order |
| Registry.QueryRightIff | uwugc/src/gc/relocation_map.rs:126-151 | a range query on sorted records equals the linear scan if and only if its start lies in a record or nothing meets the range |
| Registry.IterateInRange | uwugc/src/gc/relocation_map.rs:126-173 | the query in place delivers what the specification says for the search's result, and the linear scan when it starts inside a record of a sorted vector |
| Registry.RelocationRegistry.Freeze | uwugc/src/gc/relocation_map.rs:105-109 | sorts the source vector only, with the same records and the same address map |
| Registry.RelocationRegistry.MapSrcToDest | uwugc/src/gc/relocation_map.rs:113-124 | the lookup by binary search agrees with the linear scan for every address |
| Partition.RecordInOnePage | uwugc/src/gc/copier.rs:118-135 | a record meets a page's range exactly when the page is that of its destination, and then lies inside it |
| Partition.PageOpener | uwugc/src/mm/context.rs:38-52 | every FlexPage of a marker-filled table begins exactly at some record's destination |
| Partition.IncreasingServes | uwugc/src/gc/relocation_map.rs:126-162 | with increasing destinations a page's query delivers exactly the page's records, wherever the search stops |
| Partition.ServedIff | uwugc/src/gc/relocation_map.rs:126-162 | a page's query is right if and only if it delivers no record of another page and misses none of its own |
| Partition.OutOfOrderFails | uwugc/src/gc/copier.rs:126-135 | with destinations out of order some page's query, wherever it stops, delivers a record of another page or misses one of its own |
| Partition.PageQueriesRightIff | uwugc/src/gc/copier.rs:118-135 | all per-page queries are right if and only if every placement was at the frontier of the table |
| Graph.ReachableIffPath | uwugc/src/gc/marker.rs:45-97 | being in every closed set that holds the roots is the same as having a path of pointers from a root |
| Graph.MovedReachable | uwugc/src/gc/copier.rs:148-170 | a heap moved along an injective map has no dangling pointers, and an object is reachable there exactly when its original was |
| Metadata.RoundTrip | uwugc/src/object/metadata.rs:98-137 | every header decodes to what was encoded, for every 64-bit length |
| Metadata.WordLayout | uwugc/src/object/metadata.rs:98-117 | the mark is bit 0, the barrier bit 1 and the kind bit 2 of the word |
| Metadata.WordHoldsLength | uwugc/src/object/metadata.rs:98-104 | and above them is the length of plain data, readable below 2^61 |
| Metadata.Header.TryMark | uwugc/src/gc/marker.rs:54-63 | the update succeeds exactly when the object was unmarked, changes only the mark and returns what was there |
| Metadata.OneMarkerWins | uwugc/src/object/metadata.rs:81-96 | of any number of markers that come to one unmarked object, over any interleaving of their reads and exchanges, at most one gets it, exactly one when all are done, and only the mark changes |
| Metadata.RaceEnds | uwugc/src/object/metadata.rs:81-96 | apart from exchanges that fail for no reason a marker is done after one look and two exchanges, whatever the others do |
| Marking.VisitNew | uwugc/src/gc/marker.rs:66-88 | marking an object and pushing its pointers keeps the traversal invariant |
| Marking.TraversalDone | uwugc/src/gc/marker.rs:45-97 | with an empty stack and all roots visited exactly the reachable objects are marked |
| Marking.RegisteredDisjoint | uwugc/src/gc/marker.rs:70-83 | records of different objects have disjoint source ranges and disjoint destination ranges |
| Marking.RefusalExceedsBound | uwugc/src/gc/marker.rs:72-74 | a refused destination means the live bytes exceed the space bound |
| Marking.Marker.MarkOne | uwugc/src/gc/marker.rs:66-88 | one object is marked, placed and recorded, and its pointers pushed; a refusal is possible only above the bound |
| Marking.Marker.Visit | uwugc/src/gc/marker.rs:45-93 | the loop for one root terminates and keeps the invariant, with the root marked at the end |
| Marking.Marker.Start | uwugc/src/gc/marker.rs:27-109 | exactly the objects reachable from the roots are marked, in the order of the explicit stack, each with one record and destination, nothing but mark bits changes, and it cannot fail when the live bytes meet the bound |
| ConcurrentMark.BeginInv | uwugc/src/gc.rs:94-101 | the snapshot of the roots establishes the marking invariant |
| ConcurrentMark.MutateInv | uwugc-plus/src/gcbox.rs:99-121 | stores of null or of a handle's pointer and data writes, into any object that a path of fields leads to from a handle, and handle drops keep the invariant at any point between two reads of the marker |
| ConcurrentMark.RawStoreKeepsIff | uwugc-plus/src/gcbox.rs:80-121 | putting an arbitrary pointer into a field keeps the tricolour condition at that step if and only if it has been seen, or the object is unmarked, or the field is not read yet |
| ConcurrentMark.LoadLosesObject | uwugc/src/gc/marker.rs:45-97 | if a handle could be made from a field in this window and the field cleared, marking would finish with a reachable object that has no record |
| ConcurrentMark.NextInv | uwugc/src/gc/marker.rs:45-97 | every step of the marker or the program keeps the invariant |
| ConcurrentMark.MarkRunInv | uwugc/src/gc/marker.rs:45-97 | so does every run |
| ConcurrentMark.MeasureFalls | uwugc/src/gc/marker.rs:48-92 | each marker step lowers a lexicographic measure that the program cannot raise |
| ConcurrentMark.MarkerNotStuck | uwugc/src/gc/marker.rs:48-97 | until it is finished the marker can step, unless a destination is refused |
| ConcurrentMark.FinishedComplete | uwugc/src/gc/marker.rs:45-97 | at the end everything reachable is marked and nothing is marked that was not reachable at the snapshot |
| ConcurrentMark.ConcurrentMarkingComplete | uwugc/src/gc/marker.rs:45-109 | over any interleaving with the program's stores and writes at any depth below its handles, every object reachable at the end has a relocation record, only objects reachable at the snapshot do, and the records are disjoint on both sides |
| ConcurrentMark.AloneVisitsInOrder | uwugc/src/gc/marker.rs:45-97 | with the program idle the marker that reads one field at a time visits the objects in the very order of the marker that scans each at once |
| Mutator.DoSound | uwugc-plus/src/gcbox.rs:104-121 | no operation of the program makes a dangling pointer or handle |
| Mutator.StoreReads | uwugc-plus/src/gcbox.rs:104-121 | read after store: along every path that avoids the field the object is reached as before, and the field then leads where the stored handle leads, or nowhere; no other field, object or handle changes |
| Mutator.WriteReads | uwugc-plus/src/typed_root_ref.rs:78-87 | read after write: the datum is the one written, and every path, every other datum and object stays as it was |
| Mutator.NewReads | uwugc/src/state/context.rs:84-116 | a new handle leads to an object that no path reached before, of the requested kind, size, data and number of fields, all null; all paths lead where they led |
| Mutator.HandleMoves | uwugc-plus/src/context.rs:38-54 | a dropped handle leads nowhere, and no other path changes; a loaded one leads where the field led |
| Mutator.TargetMirrors | uwugc-plus/src/gcbox.rs:95-102 | in worlds related by a placement of objects the same fields followed from a handle lead to the same object, or nowhere in both |
| Mutator.ObservesSame | uwugc/src/gc/copier.rs:148-170 | along any path from a handle the two worlds show the program the same sizes, payloads, data, nulls and identities |
| Mutator.MirrorsReachable | uwugc/src/gc/copier.rs:148-170 | and the same graph: an object is reachable in one exactly when its counterpart is in the other |
| Mutator.ReachablePlaced | uwugc/src/gc/marker.rs:45-97 | and every reachable object has a counterpart |
| Mutator.MirrorStep | uwugc-plus/src/gcbox.rs:104-121 | every operation keeps the moving world related to the one that never moves |
| Mutator.MirrorMarks | uwugc/src/gc/marker.rs:54-63 | setting mark bits is invisible to the program |
| Mutator.MirrorMove | uwugc/src/gc.rs:195-214 | relocating along a map that covers a closed set with the roots is invisible to the program |
| Relocation.RelocationExact | uwugc/src/gc/relocation_map.rs:121-124 | the frozen registry maps exactly the live objects, injectively, each to its own destination |
| Relocation.RelocationIsomorphic | uwugc/src/gc.rs:195-214 | the relocated heap from the rewritten roots is isomorphic to the old one from the old roots: kinds, sizes, data, every pointer and reachability, with no pointer unmapped |
| Bitmap.ChangedBit | uwugc/src/bitmap.rs:48-55 | writing one bit of a word leaves its other bits |
| Bitmap.SetBits | uwugc/src/bitmap.rs:33-56 | on the packed words a write is an update of the list of bits at one index |
| Bitmap.AtomicBitmap.Set | uwugc/src/bitmap.rs:27-56 | returns the old bit and changes only that bit; an index out of range is refused and changes nothing |
| Copier.FixPointers | uwugc/src/gc/copier.rs:154-170 | succeeds exactly when every pointer of the object has a record, and then maps each and changes nothing else |
| Copier.ImageInOnePage | uwugc/src/gc/copier.rs:118-135 | the pages' shares partition the relocated heap |
| Copier.BufferIsCopies | uwugc/src/gc/copier.rs:116-176 | a buffer filled from some records of a page, put at the page's start, is the relocated objects of those records |
| Copier.ServedCopies | uwugc/src/gc/copier.rs:118-176 | and the page's share of the relocated heap when the query was right |
| Copier.FilledRightIff | uwugc/src/gc/copier.rs:118-135 | once every page has been filled the space is the relocated heap if and only if destinations came out increasing; otherwise an object is lost |
| Copier.CopierActive.CopyRecords | uwugc/src/gc/copier.rs:126-171 | the containment assertions fail exactly when the query delivered a record of another page; the missing-record failure is impossible; the buffer holds the relocated object of each delivered record |
| Copier.CopierActive.DoRelocate | uwugc/src/gc/copier.rs:110-206 | the bit is tested and set first and a page already done is left alone; otherwise an assertion fires exactly when a foreign record was delivered, and if none does the whole page is replaced by the relocated objects of the records delivered |
| Copier.CopierActive.DoZeroPage | uwugc/src/gc/copier.rs:97-108 | a base page already done is left alone; otherwise its bit is set and all of it is emptied |
| Copier.CopierActive.ResolveFault | uwugc/src/gc/copier.rs:209-223 | an address below the used end is always resolved to its page, above it to one base page; unless its bit was set the unit is moved into place exactly as in the interleaved copier, or an assertion fires |
| Copier.CopierActive.Finish | uwugc/src/gc/copier.rs:225-295 | whatever pages faults have filled before, no assertion fires and the to-space ends up as the whole relocated heap if and only if every placement was at the frontier |
| CopyMachine.UnitExists | uwugc/src/gc/copier.rs:209-223 | every address of the to-space belongs to exactly one unit of filling |
| CopyMachine.WorkBits | uwugc/src/gc/copier.rs:97-114 | the test-and-set of the bits, by any number of jobs in any order, keeps the bits to the units filled and those one job has taken, apart |
| CopyMachine.PlaceAdds | uwugc/src/gc/copier.rs:110-206 | in whatever order destinations came out, a job that moves a unit into place finds no byte of any object in it and adds the objects whose records its query delivered, and nothing else |
| CopyMachine.CameIsShare | uwugc/src/gc/copier.rs:118-135 | with increasing destinations no assertion fires and what a page's query delivers is the page's whole share of the relocated heap, wherever its search stops |
| CopyMachine.VirtualIsFull | uwugc/src/gc/copier.rs:116-206 | so nothing is lost: what is in place and what is still to come are together the whole relocated heap as the program has changed it |
| CopyMachine.PlaceKeepsVirtual | uwugc/src/gc/copier.rs:110-206 | and a fill overwrites no byte the program wrote and leaves what the space will be as it was |
| CopyMachine.RefillHarmlessIff | uwugc/src/gc/copier.rs:110-114 | replacing a unit a second time, by what its query delivers, would be harmless if and only if nothing in it is new or changed: what the bit is for |
| CopyMachine.ProgramVirtual | uwugc/src/gc/copier.rs:209-295 | with increasing destinations what the program does to the objects in place is what it would do to the whole relocated heap |
| CopyMachine.UnblockedIff | uwugc/src/gc/copier.rs:209-223 | an operation on what is in place or to come goes ahead in fact if and only if everything it touches is present: every base page of a new object, and every object on the way along a path and at the end |
| CopyMachine.PointersInToSpace | uwugc/src/gc/copier.rs:154-170 | with increasing destinations every handle and every pointer the program can read is the start of a to-space object, there if its page is present |
| CopyMachine.CopyRunRefines | uwugc/src/gc/copier.rs:225-287 | with increasing destinations, over any interleaving of workers, faults, fills and program steps, no assertion fires and the program runs as on a heap relocated all at once |
| CopyMachine.DoneIsWhole | uwugc/src/gc/copier.rs:230-287 | and when no job is left every FlexPage is filled and every relocated object is there |
| CopyMachine.DoneLoses | uwugc/src/gc/copier.rs:118-135 | out of order, when the jobs are over and no assertion fired, some relocated object is missing although its page is present |
| CopyMachine.RelocationRightIff | uwugc/src/gc/copier.rs:110-295 | over any interleaving, whatever the program does, relocation ends with no assertion fired and every object there if and only if every placement was at the frontier of the table |
| CopyMachine.ScheduleIndependent | uwugc/src/gc/copier.rs:225-295 | with increasing destinations two schedules with the same program operations finish with the same heap and handles, wherever the searches stopped |
| CopyMachine.PlacedAtMostOnce | uwugc/src/gc/copier.rs:97-114 | in any run, in whatever order, each unit is filled or stopped by an assertion at most once, and exactly once if it ends up so, by the bits alone |
| CopyProgress.CopyProgress | uwugc/src/gc/copier.rs:230-287 | over any run the steps of workers and handlers are at most the work at hand plus two for each fault raised |
| CopyProgress.NotStuck | uwugc/src/gc/copier.rs:230-287 | until all jobs are over or stopped some job can run |
| CopyProgress.FaultServed | uwugc/src/gc/copier.rs:252-281 | with increasing destinations, while faults are dispatched, a missing page is made present by its own fault in three steps |
| CopyProgress.UsedPageServed | uwugc/src/gc/copier.rs:230-248 | afterwards a page with relocated objects is made present by the workers in two |
| CopyProgress.AccessServed | uwugc/src/gc/copier.rs:230-281 | and from any state, while faults are dispatched or after, at most three steps of handlers and workers for each thing it touches let an operation go ahead, with the heap it sees unchanged |
| CopyProgress.ZeroPageWaits | uwugc/src/gc/copier.rs:283-294 | but any page beyond the used end nobody asked for by then stays missing until the space is unregistered |
| Collector.NewIsFresh | uwugc/src/state/context.rs:84-96 | an allocation never gets the address of an object, in place or still to be moved in, and lies in the space in use |
| Collector.MayRunAllowed | uwugc/src/state/context.rs:84-96 | in every reachable phase the program's operations are well defined, and no byte of a new object is another object's or outside the space |
| Collector.RootsRecorded | uwugc/src/gc.rs:202-213 | the lookup of a root's relocation record never fails |
| Collector.Step1Inv | uwugc/src/gc.rs:87-124 | flipping the bit, taking the snapshot and the spare space keeps the invariant and the program's world |
| Collector.Step3Inv | uwugc/src/gc.rs:181-245 | freezing, rewriting roots and swapping the spaces keeps the invariant and turns the world into its relocation, still to be filled, in whatever order destinations came out |
| Collector.WholeIsFull | uwugc/src/gc/copier.rs:110-206 | in a relocation with increasing destinations what is in place and to come is the whole relocated heap; out of order it is not |
| Collector.NextInv | uwugc/src/gc.rs:28-48 | every step of any phase keeps the invariant; only the end of relocation rests on the order of the destinations |
| Collector.StepMirrors | uwugc/src/gc.rs:28-48 | where relocation begins in order every step is invisible to the program or is its own operation on the heap that never moves, and no assertion fires |
| Collector.CollectorInvisible | uwugc/src/gc.rs:28-48 | over any run of any number of cycles that each begin relocation with destinations in order, no assertion fires and the program's world is that of a program with no collector, moved along one injective map |
| Collector.StartOk | uwugc/src/state.rs:123-150 | a new collector satisfies the invariant |
| Collector.OneSpareWhenIdle | uwugc/src/state.rs:41-50 | between cycles exactly one cleared space is queued, so taking it never waits, and the two spaces never share an address |
| Collector.FlipUnmarksAll | uwugc/src/gc.rs:87-92 | right after the flip every object reads as unmarked and none was touched |
| Collector.SpacesAlternate | uwugc/src/gc.rs:181-232 | the space in use changes with each relocation and with nothing else |
| Collector.NoPointerLeft | uwugc/src/gc.rs:195-232 | every pointer the program holds or reads is in the space in use, so the space being emptied is never written; in order it points to an object in place or to come |
| Collector.SeesIdeal | uwugc/src/gc/copier.rs:209-223 | whatever a path from a handle reaches along objects in place shows what it would show without a collector, and two paths meet exactly when they would then |
| Collector.CanRelocate | uwugc/src/gc.rs:181-245 | relocation can begin as soon as marking is finished, in whatever order destinations came out |
| Collector.OneClassInTurn | uwugc/src/mm/context.rs:33-52 | with live objects of one size class it begins in order |
| Completion.NeverRefused | uwugc/src/gc/marker.rs:72-76 | while the live bytes meet the space bound the marker is never refused a destination |
| Completion.MarkingFinishes | uwugc/src/gc/marker.rs:45-97 | marking can be finished from any point of it by the marker's own steps while the live bytes meet the space bound, whatever the size classes |
| Completion.CopyingFinishes | uwugc/src/gc/copier.rs:225-287 | all jobs of relocation can be brought to an end from any point of it by the workers' own steps, in whatever order destinations came out |
| Completion.CycleMarks | uwugc/src/gc.rs:28-171 | from any state between cycles with live objects within the bound, whatever their size classes, the collector alone can flush, take the snapshot and mark to the end |
| Completion.BrokenIff | uwugc/src/gc.rs:181-280 | whatever run of collector and program leads from there to where the jobs of this relocation are over, by then an assertion has fired or a relocated object is missing in a page that is present, if and only if some placement was not at the frontier |
| Completion.CompletesIff | uwugc/src/gc.rs:181-280 | once marking is finished the collector alone completes the cycle with the program's world kept if every placement was at the frontier; and one was not if and only if every run to the end of the jobs is broken |
| Completion.CycleCompletes | uwugc/src/gc.rs:28-48 | so with live objects of one class within the bound it can run a whole cycle from any state between cycles |
| Completion.ProgramRuns | uwugc-plus/src/gcbox.rs:95-121 | what the program could do to objects without a collector it can do in any phase, but for a page it touches that is missing and loads in the window of the marker |
| Completion.AllocRuns | uwugc/src/state/context.rs:84-96 | outside marking an allocation succeeds whenever the table has the fresh pages it needs, and gets the address of the one new grant |
| Completion.CyclesKeepGraph | uwugc/src/gc.rs:28-48 | over any number of cycles that begin relocation in order, with no program step, the reachable graph is the same along the composed relocations of the cycles |
| Cycle.MarkedIsReady | uwugc/src/gc.rs:150-170 | what the marker leaves behind is a closed, disjoint plan for the copier |
| Cycle.CopiedIsRelocated | uwugc/src/gc.rs:181-266 | the filled space is the relocation of exactly the reachable heap, with no dangling pointer, no overlap and the unmarked bit of the next cycle |
| Cycle.SharedState.FixRoots | uwugc/src/gc.rs:199-214 | every root slot is mapped, and none lacks a record |
| Cycle.CopiedIsRelocatedIff | uwugc/src/gc.rs:181-266 | a to-space is the relocation of the reachable heap if and only if it is the copier's image |
| Cycle.NextGrantClear | uwugc/src/mm/context.rs:27-53 | memory that the table in use has handed out for objects, by allocation or by relocation, is never handed out again |
| Cycle.SharedState.AllocPlace | uwugc/src/state/context.rs:84-96 | an allocation in the space in use, also right after a cycle, is disjoint from every object |
| Cycle.SharedState.DoCycle | uwugc/src/gc.rs:28-280 | the five steps on the collector's own objects: marking fails only above the space bound; then the reachable heap is relocated with no assertion fired if and only if placements were at the frontier, as with one size class, and then the spaces are swapped, the old one requeued cleared and the bit flipped; the table in use is the one the marker has filled and the other is cleared |
| GCSync.AcquireMeansStopped | uwugc/src/gc_sync.rs:111-148 | the count of blocked threads reaches the live count if and only if no command and no fault is unread and no holder runs |
| GCSync.NextInv | uwugc/src/gc_sync.rs:93-157 | every step of every thread and the writer keeps the count equal to guards plus unread commands, and blocked threads equal to those counted plus unread faults |
| GCSync.StoppedWorld | uwugc/src/gc_sync.rs:104-157 | in every reachable state with a writer in: the command queue is empty, all holders are blocked, and nothing can happen until the guard drops |
| GCSync.NoUnderflow | uwugc/src/gc_sync.rs:126-241 | the live count is at least one at every decrement |
| GCSync.WaitingFalls | uwugc/src/gc_sync.rs:111-148 | while a writer waits every step anyone takes lowers the measure, and no new holder enters |
| GCSync.WaitingNotStuck | uwugc/src/gc_sync.rs:111-148 | a waiting writer can enter, has something to read, or waits for a holder that runs; also with commands left from before |
| GCSync.CountUnderLock | uwugc/src/gc_sync.rs:93-157 | only whoever has the lock changes the live count; a thread that cannot take it leaves it alone and goes |
| GCSync.CommandsCounted | uwugc/src/gc_sync.rs:93-157 | over any run each departure without the lock is one command, read once |
| GCSync.WaitIsBounded | uwugc/src/gc_sync.rs:111-148 | no wait is longer than twice the running holders plus what is unread |
| GCSync.EntersWhenAllStop | uwugc/src/gc_sync.rs:111-148 | if every running holder comes to a safepoint or leaves in some round, polling ends with the writer in: it does not give up before |
| GCSync.Sync.ReadAll | uwugc/src/gc_sync.rs:122-147 | reads every command, then every fault, as a run of the protocol |
| GCSync.Sync.GetExclusive | uwugc/src/gc_sync.rs:104-157 | for any behaviour of the threads between polls: it polls until everyone is counted or the rounds are used up, enters exactly then, with all holders blocked and no command unread, and if it still waits then for a holder that runs |
| GCSync.Sync.StopAndGo | uwugc/src/gc_sync.rs:104-170 | threads come and go, the world is stopped and let go: then no holder is left blocked, the page is back, nothing is unread and the count is that of the guards |
| Controller.NextInv | uwugc/src/gc_controller.rs:31-85 | every step keeps the promise to waiters and the exclusion |
| Controller.NoLostRequest | uwugc/src/gc_controller.rs:36-57 | over any run, whoever waits for the current count has a cycle requested or running unless the loop has exited; a request never finds it asleep; no exclusive body runs beside a cycle |
| Controller.RequestWaits | uwugc/src/gc_controller.rs:36-46 | over any run a request does not return before a cycle has finished after it, whoever wakes it |
| Controller.RequestKept | uwugc/src/gc_controller.rs:36-85 | a request, also one made while a cycle runs, stays until a cycle begins for it, unless it is cleared |
| Controller.CyclesAskedFor | uwugc/src/gc_controller.rs:20-85 | over any run from the start no more cycles have begun or are asked for than there were requests |
| Controller.ClearedStays | uwugc/src/gc_controller.rs:48-56 | once the request is cleared no further cycle begins until there is a new one |
| Controller.ClearSafeIff | uwugc/src/gc_controller.rs:48-56 | clearing the request keeps the promise if and only if a cycle is running or nobody waits for the current count |
| Controller.WaiterCanLeave | uwugc/src/gc_controller.rs:36-46 | unless the loop is ending a waiter is at most three steps of the loop and its own away from returning |
| Controller.WaiterReturnsIff | uwugc/src/gc_controller.rs:36-46 | a waiter can return if and only if its count has passed, or the loop neither has exited nor will at its first test |
| Controller.ExitStrands | uwugc/src/gc_controller.rs:36-46 | otherwise a waiter for the current count stays for ever |
| Controller.ShutdownEndsIff | uwugc/src/gc_controller.rs:31-34 | a shutdown ends the loop without a further request if and only if a cycle is requested or running, or the loop has not come to its first test, or has ended |
| Controller.WaitingLooperStays | uwugc/src/gc_controller.rs:70-74 | a loop waiting without a request stays there until one comes, shutdown or not |
| Controller.ExclusiveNotWoken | uwugc/src/gc_controller.rs:60-67 | an exclusive caller that found a cycle running stays parked until the next request or shutdown |
| Controller.EntersIff | uwugc/src/gc_controller.rs:59-67 | an exclusive caller that tests gets in if and only if no cycle is running |
| Controller.LeavingFrees | uwugc/src/gc_controller.rs:59-67 | when an exclusive body ends its caller is gone and the lock is free, with nothing else changed |
| Controller.ExclusiveCanEnter | uwugc/src/gc_controller.rs:31-67 | a shutdown wakes a parked exclusive caller, which is then at most two steps from getting in |
| Controller.GCController.Serve | uwugc/src/gc_controller.rs:31-85 | any calls and wake-ups in any order on the controller's own fields are a run of the protocol, after which no request is lost and no exclusive body runs beside a cycle |
| Roots.StepInv | uwugc-plus/src/context.rs:38-91 | add, store, load, drop and map keep slots distinct per handle, each pointer in exactly one place, and both counts exact |
| Roots.SafepointExact | uwugc-plus/src/context.rs:159-169 | the two counts are equal if and only if every live handle is stored |
| Roots.SafepointShowsAll | uwugc-plus/src/context.rs:184-190 | and then the collector sees exactly what the live handles point to |
| Roots.StepDenotes | uwugc-plus/src/context.rs:57-91 | an operation on other handles changes what a stored handle denotes only by mapping it, and a loaded one not at all |
| Roots.OwnDenotes | uwugc-plus/src/context.rs:64-91 | storing or loading a handle changes nothing about what it denotes, and a new one denotes the pointer it was given |
| Roots.LoadAfterMaps | uwugc-plus/src/context.rs:80-91 | over any run, a load returns the stored pointer under all maps applied since |
| Roots.StoredLoads | uwugc-plus/src/context.rs:64-91 | over any run from a store to the load, the pointer that comes back is the one the handle had, under all maps since |
| Roots.SlotsBounded | uwugc-plus/src/context.rs:106-134 | the table never has more slots than there have been handles at one time |
| Roots.Inner.AddPtr | uwugc-plus/src/context.rs:106-134 | a fresh handle with a free slot of its own; the assertion that the slot is empty never fires |
| Roots.Inner.Store | uwugc-plus/src/context.rs:64-78 | moves the handle's pointer into its slot; refused without effect if already stored |
| Roots.Inner.Load | uwugc-plus/src/context.rs:80-91 | moves it back; on a loaded handle it fails with the count already lowered, below the number of handles |
| Roots.Inner.Drop | uwugc-plus/src/context.rs:38-54 | frees the slot and corrects both counts, stored or loaded |
| Roots.Inner.MapPointers | uwugc-plus/src/context.rs:188-190 | maps every stored pointer, and fails exactly if one has no image |
| Roots.Inner.CanStop | uwugc-plus/src/context.rs:159-169 | the test passes exactly when all live handles are stored, and then the slots are exactly their pointers |
| Descriptors.FlatIff | uwugc-plus/src/descriptor.rs:55-110 | the true flattening of a type holds an address exactly when some part of it, at any depth and at its own place, has a pointer there |
| Descriptors.NodeRightIff | uwugc-plus/src/descriptor.rs:92-110 | a part listed at one base and really at another comes out right if and only if it has no pointers of its own or the bases agree, and everything below is straight |
| Descriptors.ListedRightIff | uwugc-plus/src/descriptor.rs:92-110 | the iterator lists exactly the pointers of the type, in order, if and only if no part with pointers is inside something away from the start of the object |
| Descriptors.ShallowIsStraight | uwugc-plus/src/descriptor.rs:92-110 | which holds when parts have no parts |
| Descriptors.NestedPartMissed | uwugc-plus/src/descriptor.rs:104-105 | a pointer two levels down in a part away from the start is listed at the wrong offset |
| Descriptors.PointerIter.Next | uwugc-plus/src/descriptor.rs:92-110 | the explicit stack terminates and yields the recursive listing one by one |
| Descriptors.ListAll | uwugc-plus/src/descriptor.rs:55-110 | run to the end it is the recursive listing, and the true one exactly for straight descriptors |
| Descriptors.ArrayIter.Next | uwugc-plus/src/types/pointer_iterator.rs:80-94 | the array iterator yields the concatenation of the elements' listings, each past the header and the elements before |
| Descriptors.ArraySlotsIff | uwugc-plus/src/types/pointer_iterator.rs:41-94 | an array has exactly the listing of its element type in each of its elements, the first included, past the header |
| Descriptors.ListArray | uwugc-plus/src/types/pointer_iterator.rs:41-94 | run to the end the array iterator lists, element by element and in order, the pointers of each, and the true ones exactly for straight descriptors or empty arrays |
| Descriptors.FlatApart | uwugc-plus/src/types.rs:162-189 | the pointers of a laid out type are eight bytes apart and inside its size |
| Descriptors.SizesAgreeIff | uwugc/src/state/context.rs:105-116 | an object is allocated with the size the marker copies if and only if the extra bytes requested are the elements of an array and nothing else |
| Descriptors.SlotsInside | uwugc-plus/src/types.rs:140-189 | the listed slots of an object of a laid out, straight type, array or not, are distinct, clear of the header and inside the dynamic size |
| Descriptors.SlotsCopied | uwugc/src/state/context.rs:105-116 | with the object's header before them all listed slots are inside what is allocated and what is copied |

## Left out

- Collector.CollectorInvisible: for runs whose relocations begin with destinations in order, because otherwise they are broken in the end (`Completion.BrokenIff`); and no allocation happens from the flush of the local pages to step 3.
- Completion.BrokenIff: says nothing of what the program or a later cycle does after an object was lost or an assertion fired. A fired assertion stops its job, and step 4 then does not end.
- Cycle.SharedState.DoCycle: the program is stopped for the whole cycle; interleavings are the subject of `ConcurrentMark`, `CopyMachine` and `Collector`, which are on values. There the objects of the collector that many threads share are one state and a step is one atomic operation or locked section.
- Copier.CopierActive.Finish: the workers' jobs run one after another; `CopyMachine` has them in any order, with faults.
- GCSync.Sync.GetExclusive: the threads' behaviour between two polls is a parameter, any list of safepoints and departures for each poll.
- Roots.Inner.Load: counts are whole numbers; the failing load is shown to leave the count too low, not what a machine word does below zero.
- Memory orderings and fences: every atomic operation and every locked section is one step, in one order for all threads.
- System calls: a missing page blocks its reader until it is filled, a fill is atomic, and queues and pipes lose nothing. The retry loop for partial moves is not modelled.
- Machine widths: addresses, sizes and counters are unbounded, except in headers and bitmap words.
- Page donation and contexts that cache a page again between the flush and step 1.
- The registry's fields for the first and the next free offset, which nothing reads.
- The library's sort and binary search: the sort is an insertion sort, stable like the original, and the search is any that returns a match when one exists on sorted input.
- The lists of roots of all threads are one list of slots. Handles of different threads differ only by name.
- A path of fields is followed and used in one step, once all pages on it are present: handles stay on their thread (`uwugc-plus/src/context.rs:29-35`), and the waits on the way are `CopyMachine.AccessServed`.
- A FlexPage is a value stored in its slot rather than an object behind a lock.
- Type registration, reference arrays and the marking of dead types: an object's pointer slots are a fixed list, found by the iterators of `Descriptors`.
- Object sizes and data are those the type manager reports; destructors and typed references are not modelled.
- The bounded retry of slow allocation around a cycle, the profiler, printing, and the growable vector of the allocation crate.
- Liveness of shutdown and of exclusive callers: only what is stated in `Controller`.
