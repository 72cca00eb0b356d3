# StructuredChaos: protocols and index algorithms, proved

StructuredChaos is an entity component system in C++23 with its own thread pool, memory and hashing. Its core is a set of
small lock-free protocols and index algorithms whose comments claim strong invariants. This project models them in Dafny and
proves those claims. `dafny verify dfyconfig.toml` checks all of it.

Two forms are used, as the source has them:

- **Protocols between threads are step machines.** A state, any number of threads, and one step of a thread per access to an
  atomic; `Run` takes the steps of any interleaving, in sequential consistency. An invariant holds at the start and is kept by
  every step (`StepKeeps` of each machine), and the theorems are about every state that a run can reach.
  Beside what always holds, each machine has what its operations come to: begun when nothing else is under way and met by no
  other, an operation ends and leaves exactly this (the modules named `Solo`, `Outcomes`, `Collects` and `Trim`), and for every interleaving what the ends of
  operations add up to.
- **What one thread does alone is classes, arrays and loops**, each method proved against a function or a relation of what it
  was given, about which the promises of the source are proved.

| Files | What they model |
|---|---|
| `ColumnPage`, `ColumnEffects`, `ColumnInvariant`, `ColumnRuns`, `ColumnSolo`, `ColumnStories`, `ColumnTrim` | the pages of a column: count, started, busy, parked, making bits, mask, summary and spares, from `tryEmplace`, `emplaceOr`, `modify` and `erase` to `occupy`, `start`, `forsake`, `emptied`, `park` and `vacate` |
| `RingQueue`, `RingInvariant`, `RingRuns`, `RingSolo` | the bounded queue of the pool, with laps per granule and discarded blocks |
| `ResourceEntry`, `ResourceEffects`, `ResourceInvariant`, `ResourceLists`, `ResourceRuns`, `ResourceSolo`, `ResourceOutcomes`, `ResourceCollects`, `ResourceHandles` | the word of a resource entry, the unused list and `collect` |
| `Dispatch`, `DispatchSolo`, `WaitingList` | how loads get onto the background lane, and the list of those that wait |
| `Reclaim`, `ReclaimSolo` | the epochs after which a replaced resource is ended |
| `MonotonicFit`, `Monotonic`, `MonotonicRuns`, `MonotonicSolo`, `MonotonicArena` | the bump allocator, with threads and without |
| `Tickets`, `TicketInvariant`, `TicketRuns`, `TicketSolo` | the tickets of shared loops and `parallelFor` |
| `PageNumbers`, `Ranks`, `PageSort` | the numbering race of `PageSort`, and the sort itself |
| `Changes`, `ChangeLaws`, `Applications`, `PageApplier` | recorded changes done in order, with what hooks get of them, spread over threads a page at a time, and with gathered erases and adds counted ahead |
| `FreeList`, `Entities`, `EntityAllocator` | indices of entities: chunks, shares, pages, generations |
| `Creates`, `CreateInvariant`, `CreateRuns`, `CreateSolo` | `create` on any number of threads at once: `take`, `makePage` and the shares, an access to an atomic at a time |
| `EachInPages`, `ColumnViews` | the loop over the entities with some components, and over what the threads of columns left |
| `Access`, `Closure`, `Stages`, `StageRuns` | what systems use, with what they set off, their stages, and what running the stages comes to |
| `Relations`, `Descendants` | relations kept by hooks, cascades, and all below an entity |
| `RapidMum`, `RapidWords`, `RapidHash`, `RapidCoverage`, `RapidTexts` | rapidhash, its lower-case form and its compile-time form |
| `Options`, `Lists`, `Counting`, `Division`, `Bits`, `Iterations`, `PageSizes` | helpers |

## Where the code does not do what one might think

- **One byte above ASCII hashes differently at compile time.** `rapidhash_internal_constexpr` of a signed `char` sign-extends
  the bytes of a text of one to three bytes (`subprojects/rapidHash/rapidhash-constexpr.h:235-236`).
  `RapidTexts.SignedHashDiffers` has the text, `RapidTexts.SignedShort` says for which texts the words that are mixed last
  agree, in both directions, and `RapidTexts.SignedHash` that the hashes are the same there.
- **`valid` is about generations.** Of an entity that `create` returned it says exactly that its index was destroyed a multiple
  of 2^32 times since (`EntityAllocator.EntityAllocator.ValidByLives`), so it says whether that very life goes on exactly where
  it does or where that number is no multiple of 2^32 (`ValidIsExactUnlessWrapped`). Of any other entity it says yes exactly for
  an index of a page that was handed out, with the generation it has (`ValidWhereverItIs`): also for the rest of the page of a
  thread, for indices in chunks and free lists and for those on their way back, and only for those beside the ones alive
  (`ValidIsWrongForWhatIsHeld`); `NextIsValidAlready` has an instance.
- **`forEachDescendant` ends exactly where the target of the entity is not below it**: its stack is empty after some number of
  turns if and only if it is not (`Descendants.EndsUnlessBelowItself`), and for two entities that are each other's target it
  never is (`Descendants.NoEndOnACycle`). `destroy` ends on every graph, as the entity leaves the list of its target first.

## What callers owe

- `parallelFor` needs `count + (threads + 1) * grain` below 2^64 and fewer than 2^16 helpers in a slot: in the model `next` and
  the count of helpers do not wrap.
- A `PageSort` has fewer than 2^32 items, as its offsets are 32 bits wide: in the model they are not bounded.
- A relation is made to a target that exists, and not replaced; the hooks of `relate` are the first ones of their components, so
  that an entity leaves the list of its target before its own sources go.
- A system uses no more than what it declares (`StageRuns.UsesItsAccess`).

## Model

| member | source | states |
|---|---|---|
| ColumnInvariant.StepKeeps | src/sc/ecs/column.hpp:1397-1683 | every atomic step of an adder, modifier, eraser or trimmer keeps all that ties count, started, busy, parked, making bits, mask, summary and spares together |
| ColumnRuns.MemoryStaysUnderUsers | src/sc/ecs/column.hpp:1542-1683 | in every interleaving a thread at a value has memory under it and the slot to itself, constructs only where nothing is and ends only what is there; memory goes back only where nothing is constructed and nobody is at a value |
| ColumnRuns.MakesAndErasesAlternate | src/sc/ecs/column.hpp:596-933 | on each slot successful makes and erases take turns, and the count of a page is its mask and the threads between count and mask |
| ColumnRuns.AtRestNothingIsLeft | src/sc/ecs/column.hpp:1425-1604 | with no operation under way no making bit is held, the count is the mask, and every word with a component is in the summary though emptied clears it next to markWord |
| ColumnRuns.AtRestMemoryIsSpare | src/sc/ecs/column.hpp:1587-1683 | with no operation under way started says which pages have memory, and an empty page has it only as a spare or because a vacate kept it for a making bit |
| ColumnRuns.SparesAreUnique | src/sc/ecs/column.hpp:1606-1646 | a page is among the spares or in the hands of one thread at most once, and then parked is set |
| ColumnSolo.OperationEnds | src/sc/ecs/column.hpp:596-933 | an operation that nobody meets ends, with the component there after tryEmplace and emplaceOr and not there after erase, made or erased exactly if it was not so before; all other components are as they were |
| ColumnSolo.OperationUses | src/sc/ecs/column.hpp:687-775 | modify, and emplaceOr of a component that is there, come to use it |
| ColumnStories.EveryOperationIsAccounted | src/sc/ecs/column.hpp:596-933 | in every interleaving an operation that ended without a throw made, used or erased its component, or saw at some step why not: the component there, not there, or its making bit taken |
| ColumnTrim.TrimEnds | src/sc/ecs/column.hpp:1280-1287 | trim leaves no spare, memory only under components or where a vacate kept it for a making bit, and all components as they were |
| RingInvariant.StepKeeps | src/sc/threading/ring_queue.hpp:93-171 | every atomic step of a producer or consumer keeps laps, states, pops and positions together |
| RingRuns.ItemsLeaveInOrder | src/sc/threading/ring_queue.hpp:93-171 | positions are claimed in tail order, each by one consumer, which gets the item of the producer of that position |
| RingRuns.SlotsAreNotShared | src/sc/threading/ring_queue.hpp:93-171 | a producer constructs only in an empty slot nobody else is at, and a block is discarded only with all its states 0 |
| RingRuns.WaitsForEarlierLaps | src/sc/threading/ring_queue.hpp:141-171 | a producer waits only while a position of its granule in an earlier lap is not popped or the popper of the last one moves it on |
| RingRuns.AtRestNothingIsLost | src/sc/threading/ring_queue.hpp:93-171 | with nobody inside, what was pushed was either moved out in its turn or is ready in its slot |
| RingSolo.PopDoesNotGiveUp | src/sc/threading/ring_queue.hpp:93-109 | in every interleaving a pop at the head does not give up while the item there is ready |
| RingSolo.PopGivesUpOnALook | src/sc/threading/ring_queue.hpp:93-117 | in every interleaving a pop gives up only where it sees another lap or no item at its position, never because another pop was faster |
| RingSolo.PopEnds | src/sc/threading/ring_queue.hpp:93-139 | a pop that nobody meets ends: with the item at the head moved out, and without one nothing is changed |
| RingSolo.PushEndsWithRoom | src/sc/threading/ring_queue.hpp:141-171 | a push that nobody meets ends exactly if all positions of earlier laps in its granule were popped; then its item is the last one, ready |
| RingSolo.ItemsAreThosePushed | src/sc/threading/ring_queue.hpp:141-171 | in every interleaving the items of the queue are those of the pushes that got a place, in the order in which they did |
| Bits.MaskIsRemainder | src/sc/threading/ring_queue.hpp:173-182 | the & with SLOT_MASK, bit by bit, is the remainder by the capacity |
| Bits.ShiftIsQuotient | src/sc/threading/ring_queue.hpp:173-182 | the >> of lapOf and granuleOf is the quotient by a power of two |
| RingRuns.RingIsValid | src/sc/threading/ring_queue.hpp:173-190 | the masks and shifts of the source give slots, laps and granules in range for every capacity |
| RingRuns.RingIsPeriodic | src/sc/threading/ring_queue.hpp:173-180 | slot and lap of a position: positions of one slot differ by whole laps, so the arithmetic of lapOf and granuleOf serves the protocol |
| RingRuns.RingIsGrained | src/sc/threading/ring_queue.hpp:173-190 | every granule has as many slots as pops are counted to |
| ResourceRuns.StepKeeps | src/sc/ecs/resource.hpp:123-205 | every atomic step of finders, handles, tasks and collectors keeps the word, the lists and the load of every entry |
| ResourceRuns.FreedIsUntouched | src/sc/ecs/resource.hpp:814-847 | no thread works on an entry that collect freed, no list leads to one, and it had no count |
| ResourceRuns.LoadRunsOnce | src/sc/ecs/resource.hpp:175-203 | the load left in an entry is consumed once: run, failed or freed |
| ResourceRuns.ParkedIsAlone | src/sc/ecs/resource.hpp:186-203 | PARKED with a count means that a finder or the parking task is between two steps |
| ResourceRuns.OneTaskWaits | src/sc/ecs/resource.hpp:1203-1225 | an entry waits for the lane at most once, so its link nextWaiting serves one task |
| ResourceRuns.AtRestNoLoadIsLost | src/sc/ecs/resource.hpp:953-984 | with no task left, a resource that still loads is parked and nobody has a handle |
| ResourceRuns.AtRestUnusedIsListed | src/sc/ecs/resource.hpp:123-173 | the unused list has every entry nobody has, once, exactly those with QUEUED |
| ResourceOutcomes.OperationEnds | src/sc/ecs/resource.hpp:123-247 | a copy, drop, wait, find, load, forceLoad, task or end of a read that nothing meets ends: a wait with the load done, Ready exactly if the loader did not throw, a find with a handle and a parked load started again or done, forceLoad with what failed loaded anew, a task with the load run, or parked without a handle, a dropped task with the load failed; the last count queues the entry |
| ResourceOutcomes.MakeEnds | src/sc/ecs/resource.hpp:533-642 | a new key has an entry with a handle, and its load with a task, done, or its file to be read |
| ResourceCollects.CollectEnds | src/sc/ecs/resource.hpp:814-847 | collect frees exactly the queued entries that nobody has, with a load parked in one, and lets those in use again be queued anew |
| ResourceHandles.AtRestHandlesAreCounted | src/sc/ecs/resource.hpp:123-157 | in every interleaving the handles of an entry are, with no thread at work, those made, copied and found less those dropped |
| ResourceHandles.WaitEndsLoaded | src/sc/ecs/resource.hpp:217-243 | in every interleaving a wait that ends finds the load over |
| Dispatch.StepKeeps | src/sc/ecs/resource.hpp:1213-1312 | every atomic step of startTask, dispatch and taskDone keeps order, limit and watchfulness |
| Dispatch.LoadsStartInOrder | src/sc/ecs/resource.hpp:1238-1285 | one thread dispatches at a time, no more loads run than the limit, and they are submitted in the order they were pushed |
| Dispatch.AtRestNothingWaits | src/sc/ecs/resource.hpp:1238-1312 | once nobody is in dispatch or owes one, nothing waits or the limit is reached |
| DispatchSolo.AtRestPushedIsAsked | src/sc/ecs/resource.hpp:1213-1225 | in every interleaving each load was pushed as often as a task for it was started, and what was submitted is on the lane or has ended |
| DispatchSolo.OperationEnds | src/sc/ecs/resource.hpp:1213-1312 | startTask pushes its load and taskDone frees a place, and then no load waits that the limit lets go |
| WaitingList.Reverse | src/sc/ecs/resource.hpp:1257-1266 | the links of what was pushed, reversed in place, list it oldest first; the links of others stay |
| WaitingList.Join | src/sc/ecs/resource.hpp:1267-1274 | the links of two lists joined in place list one after the other; only the link of the tail changes |
| Reclaim.StepKeeps | src/sc/threading/background.cpp:100-133 | every atomic step of tasks, replace and freeReplaced keeps each resource in one place and each task from one that may go |
| Reclaim.EndedIsUnread | src/sc/ecs/resource.hpp:1364-1411 | a replaced resource that was ended is current nowhere, held by no task, and ended once |
| Reclaim.EndsOnlyUnread | src/sc/ecs/resource.hpp:1385-1411 | what freeReplaced is about to end no task holds |
| ReclaimSolo.TaskHoldsWhatItRead | src/sc/threading/background.cpp:100-133 | in every interleaving a task holds exactly what it read since it began |
| ReclaimSolo.ReadIsNotEnded | src/sc/ecs/resource.hpp:1364-1411 | what a task read is not ended before it leaves |
| ReclaimSolo.SlotIsOfTask | src/sc/threading/background.cpp:100-133 | the slot of a thread has an epoch exactly while its task is under way |
| ReclaimSolo.TaskEnters | src/sc/threading/background.cpp:100-133 | a task begins with the epoch of then in its slot |
| ReclaimSolo.ReplaceEnds | src/sc/ecs/resource.hpp:1364-1381 | replace leaves a new resource and the old one on the list, marked with an epoch that no task under way has |
| ReclaimSolo.LookFreesWhatItMay | src/sc/ecs/resource.hpp:1385-1411 | whatever the tasks have come to, a look that no other one meets ends exactly the replaced that every task entered after, and keeps the others in their order |
| ReclaimSolo.WithoutTasksAllGo | src/sc/ecs/resource.hpp:1385-1411 | with no task under way every replaced resource is ended |
| MonotonicFit.FitIsExact | src/sc/memory/monotonic_resource.hpp:205-216 | fit finds the first aligned address with room up to end, and fails only where none below the wrap of addresses has |
| MonotonicFit.FreshBlockFits | src/sc/memory/monotonic_resource.hpp:218-226 | a fresh block has room for every request that fitsNewBlock accepts |
| MonotonicRuns.StepKeeps | src/sc/memory/monotonic_resource.hpp:92-109 | every atomic step of allocate and installRange keeps what was handed out apart from what is left |
| MonotonicRuns.RangesAreApart | src/sc/memory/monotonic_resource.hpp:92-200 | in every interleaving the ranges since the last reset are aligned, in one live block each and apart, also where blocks touch |
| MonotonicRuns.ExchangeStaysInBlock | src/sc/memory/monotonic_resource.hpp:95-102 | a successful exchange gives a range of the installed block, whose last byte nobody gets |
| MonotonicSolo.AllocateEnds | src/sc/memory/monotonic_resource.hpp:92-109 | allocate that no other thread meets returns the first place with room in the range, else in a new block, else a block of its own with the range as it was |
| MonotonicSolo.EndsWithWhatItAsked | src/sc/memory/monotonic_resource.hpp:92-109 | in every interleaving allocate ends with a range of the size and alignment it was asked for, or because the upstream has no memory |
| MonotonicSolo.ResetEnds | src/sc/memory/monotonic_resource.cpp:4-37 | reset and release leave nothing returned and all of the buffer, or of the block that is kept, to allocate from |
| MonotonicArena.Arena.constructor | src/sc/memory/monotonic_resource.hpp:66-71 | starts in a block of the upstream |
| MonotonicArena.Arena.InBuffer | src/sc/memory/monotonic_resource.hpp:73-81 | starts in the buffer of the caller, or without a range for an empty one; blocks are twice as large as the buffer |
| MonotonicArena.Arena.InstallRange | src/sc/memory/monotonic_resource.hpp:187-200 | the range is all of the block but its last byte, or none |
| MonotonicArena.Arena.AllocateNewBlock | src/sc/memory/monotonic_resource.cpp:51-66 | a new block is recorded and becomes the range |
| MonotonicArena.Arena.Allocate | src/sc/memory/monotonic_resource.hpp:92-109 | ends after one new block at most, fails only with the upstream, and returns an aligned range apart from all others: in the range, in the new block, or a block of its own that leaves the range as it was |
| MonotonicArena.Arena.TakeCustomBlock | src/sc/memory/monotonic_resource.cpp:68-71 | a request too large for a block gets one of its own, and the range stays |
| MonotonicArena.Arena.Reset | src/sc/memory/monotonic_resource.cpp:4-22 | all blocks but the first go back, all of them with a buffer, and the range is as at the start |
| MonotonicArena.Arena.Release | src/sc/memory/monotonic_resource.cpp:24-37 | all blocks go back |
| TicketRuns.StepKeeps | src/sc/threading/backend.cpp:281-373 | every atomic step of owners and helpers keeps slots, generations and jobs together |
| TicketRuns.HelpersFindTheirLoop | src/sc/threading/backend.cpp:335-358 | who gets in with a ticket works on the job it was made for, which has not returned, and a void ticket never gets in |
| TicketRuns.NobodyIsInside | src/sc/threading/backend.cpp:360-373 | once finishParallel saw nobody inside, nobody is, before the slot is used again |
| TicketRuns.JobsAreTheirDeeds | src/sc/threading/parallel_for.hpp:58-102 | in every interleaving a loop is failed exactly if a call of its function threw, and its calls are those that threads made for it |
| TicketRuns.EveryItemOnce | src/sc/threading/parallel_for.hpp:58-102 | when parallelFor returns and no call of it threw, every item was in exactly one call, and all calls have returned, also with helpers that left early; where one threw, no item was in two |
| TicketRuns.ItemsAreInOneChunk | src/sc/threading/parallel_for.hpp:67-73 | the chunks handed out by next are apart and, all taken, cover the items |
| TicketRuns.ForAlone | src/sc/threading/parallel_for.hpp:34-46 | without helpers the function is called one after the other for the chunks that start every grain items, the last one up to count |
| TicketRuns.SharedChunksAreTheSame | src/sc/threading/parallel_for.hpp:34-73 | the chunks of a shared loop, all taken, are those of a loop without helpers, in their order |
| TicketSolo.LoopEndsAlone | src/sc/threading/parallel_for.hpp:58-102 | a loop that nobody helps with returns, and by then the function was called for every item and returned each time |
| TicketSolo.HelpersTakeChunks | src/sc/threading/backend.cpp:335-358 | in every interleaving a helper with the ticket of a loop that has its slot gets in, and takes the next chunk while items are left |
| PageNumbers.EveryRaceIsComplete | src/sc/ecs/world.hpp:350-396 | whoever wins the races, exactly the pages that are hit have a number, each its own, noted once, and the counts and numbers of each segment are those of its items |
| PageSort.Race | src/sc/ecs/world.hpp:175-201 | however the threads of count race, and whoever goes on alone, they come to an end with complete numbers and counts |
| PageSort.PageSort.Add | src/sc/ecs/world.hpp:163-169 | items are added behind the others, in segments of bounded size |
| PageSort.PageSort.Count | src/sc/ecs/world.hpp:171-232 | from no page with a number on, every page that is hit has one of its own, and pages() is the ascending list of the pages that are hit |
| PageSort.PageSort.Collect | src/sc/ecs/world.hpp:198-232 | pages() is the strictly ascending list of the pages that are hit, by the scan and by the sort |
| PageSort.PathsAgree | src/sc/ecs/world.hpp:214-227 | the scan of m_numbers and the sort of what the segments found give the same list |
| PageSort.PlacesAreApart | src/sc/ecs/world.hpp:263-294 | no two items go to one place, whichever segments they are of |
| PageSort.EveryInterleavingPlaces | src/sc/ecs/world.hpp:272-294 | however the writes of the segments come between each other, every item ends at its place |
| PageSort.PlacedIsSorted | src/sc/ecs/world.hpp:245-294 | the places of a page hold its items in input order |
| PageSort.NumbersArePages | src/sc/ecs/world.hpp:350-396 | items with the number of a page are those of the page, with gaps in the numbers and all |
| PageSort.PageSort.PlaceSegment | src/sc/ecs/world.hpp:272-294 | a segment puts its items behind those of earlier segments in every page |
| PageSort.PageSort.Place | src/sc/ecs/world.hpp:236-296 | page(i) is exactly the items of page i in input order across all segments, and no page has a number any more |
| PageSort.PageSort.Uncount | src/sc/ecs/world.hpp:299-303 | all page numbers are zero again |
| PageSort.PageSort.SortItems | src/sc/ecs/world.hpp:156-303 | clear, add, count and place: all pages hit, for each its items in the order of the lists, and the next sort finds no number |
| Changes.PagewiseIsInOrder | src/sc/ecs/scheduler.hpp:558-656 | all lists in order do to a page what its own changes alone do, with the same removals and adds |
| Changes.PageStaysApart | src/sc/ecs/scheduler.hpp:584-643 | the changes of a page leave every other page as it was, so pages may be done at the same time |
| Changes.SpreadIsInOrder | src/sc/ecs/scheduler.hpp:584-643 | what the page sort gives a thread does to its page what all lists in order do to it |
| ChangeLaws.ComponentIsItsChanges | src/sc/ecs/scheduler.hpp:663-700 | in the end a component has the value that its own changes, in order, made of the one it had |
| ChangeLaws.HooksGetWhatWent | src/sc/ecs/scheduler.hpp:685-722 | the onRemove hooks of a column get each component that went, with the value it had, in order; of a column without hooks nothing is moved out |
| ChangeLaws.HooksGetWhatCame | src/sc/ecs/scheduler.hpp:199-222 | the onAdd hooks of a column get each component that came, as often as it came |
| ChangeLaws.RemovalsAreConserved | src/sc/ecs/scheduler.hpp:685-722 | what went to the hooks and what is there is what was there and what was made |
| Applications.EveryMixIsInOrder | src/sc/ecs/scheduler.hpp:584-643 | threads that do the changes of each page in their order, mixed with those of other pages in any way, leave all components and the removals and adds of every page as all lists in order do |
| Applications.PageByPageIsInOrder | src/sc/ecs/scheduler.hpp:584-643 | every page that is hit once, in any order, each from what the pages before it left, ends as all lists in order |
| Applications.SpreadEndsAsInOrder | src/sc/ecs/scheduler.hpp:608-639 | the same with the pages and places of the sort |
| Applications.ApplyPages | src/sc/ecs/scheduler.hpp:611-639 | whichever page a thread takes next |
| Applications.ApplySpread | src/sc/ecs/scheduler.hpp:584-643 | counted by threads that race, sorted and done page by page, or in order if there is one page, all lists end as in order |
| PageApplier.EraseWords | src/sc/ecs/column.hpp:1219-1258 | the words of a kill page that the summary names lose the slots killed and no others |
| PageApplier.EraseAlone | src/sc/ecs/column.hpp:1219-1258 | the gathered erases take away exactly the killed components and lower the count by as many |
| PageApplier.PageApplier.Kill | src/sc/ecs/scheduler.hpp:685-700 | an erase that is gathered counts as done |
| PageApplier.PageApplier.Flush | src/sc/ecs/scheduler.hpp:707-722 | doing the gathered erases changes nothing that the lists would see |
| PageApplier.PageApplier.EmplaceCounted | src/sc/ecs/column.hpp:943-971 | an add of a page counted ahead makes the component where there is none |
| PageApplier.PageApplier.FinishEmplace | src/sc/ecs/scheduler.hpp:199-232 | an emplace or replace does what it does alone, with the hook of an add |
| PageApplier.PageApplier.ApplyChange | src/sc/ecs/scheduler.hpp:663-680 | one change, with erases before it gathered or done, does what it does in order |
| PageApplier.PageApplier.ApplyPage | src/sc/ecs/scheduler.hpp:649-656 | batched and counted ahead, a list of changes does what doing them one at a time does, and each count is the mask again |
| PageApplier.PageApplier.Close | src/sc/ecs/scheduler.hpp:146-152 | what was counted and not added goes back |
| FreeList.Take | src/sc/ecs/entity.hpp:183-195 | the last chunk that is left goes, with the indices at the end of the list, to one thread |
| FreeList.Give | src/sc/ecs/entity.hpp:208-238 | an index is behind the others, chunks full but the last |
| FreeList.Grow | src/sc/ecs/entity.hpp:242-256 | room for so many indices, those there in their places |
| FreeList.Copy | src/sc/ecs/entity.hpp:257-268 | the indices are at the places from place on, across chunks, and nothing else changed |
| FreeList.GivePages | src/sc/ecs/entity.hpp:680-711 | giving whole pages, each copied to its place, leaves the list that giving the indices one by one leaves |
| FreeList.GiveOneByOne | src/sc/ecs/entity.hpp:665-672 | the list after one give each |
| FreeList.Size | src/sc/ecs/entity.hpp:270-279 | size is how many indices are left |
| Entities.PagesHaveEachOnce | src/sc/ecs/entity.hpp:838-865 | an index is once in the pages that were handed out, and only in its page |
| EntityAllocator.EntityAllocator.constructor | src/sc/ecs/entity.hpp:359-371 | nothing is handed out, and every index belongs nowhere yet |
| EntityAllocator.EntityAllocator.ValidByLives | src/sc/ecs/entity.hpp:560-574 | an entity from create is valid exactly if its index was destroyed a multiple of 2^32 times since |
| EntityAllocator.EntityAllocator.ValidIsExactUnlessWrapped | src/sc/ecs/entity.hpp:560-574 | valid says whether that very life goes on exactly where it does or that number is no multiple of 2^32 |
| EntityAllocator.EntityAllocator.ValidWhileAlive | src/sc/ecs/entity.hpp:560-574 | an entity from create is valid exactly while it lives, until its generation wraps |
| EntityAllocator.EntityAllocator.ValidAgainAfterWrap | src/sc/ecs/entity.hpp:560-574 | at every wrap of the generation of its index an old entity is valid again |
| EntityAllocator.EntityAllocator.ValidWhereverItIs | src/sc/ecs/entity.hpp:560-574 | any entity is valid exactly if its page was handed out and it has the generation of its index, wherever that one index is |
| EntityAllocator.EntityAllocator.ValidIsWrongForWhatIsHeld | src/sc/ecs/entity.hpp:560-574 | valid differs from being alive exactly for an index that is held or on its way back, with the generation it has |
| EntityAllocator.EntityAllocator.NextIsValidAlready | src/sc/ecs/entity.hpp:560-574 | the next index of the page of a thread is valid before create makes it |
| EntityAllocator.EntityAllocator.Alive | src/sc/ecs/entity.hpp:625-646 | the indices of the pages less what shares and lists hold are those that are alive, and those on their way back |
| EntityAllocator.EntityAllocator.Create | src/sc/ecs/entity.hpp:443-464 | an index nobody has, alive from now on, valid, of a life of its own: the last one of the chunk of the share, else of the list, else the next one of the page of the share, else the first one of the next page nobody has; none only with no index left and all pages taken |
| EntityAllocator.EntityAllocator.TakeChunk | src/sc/ecs/entity.hpp:443-446 | without an index of a chunk left, the share has what the list of the area has no more, and nothing only if no chunk was left; all else stays |
| EntityAllocator.EntityAllocator.FindPage | src/sc/ecs/entity.hpp:838-865 | the first page nobody has from the cursor on, past the last one from 0 |
| EntityAllocator.EntityAllocator.InstallPage | src/sc/ecs/entity.hpp:838-865 | a page nobody had is the thread's, its generations 0, every index of it is in one place, and the area looks at the page after it next |
| EntityAllocator.EntityAllocator.Destroy | src/sc/ecs/entity.hpp:582-594 | the entity is not valid any more, its generation is the next one, and its index is the last one in the list of its area; nothing else is changed |
| EntityAllocator.EntityAllocator.Kill | src/sc/ecs/entity.hpp:648-661 | ends the entity if it exists, its index still to be given back |
| EntityAllocator.EntityAllocator.GiveMany | src/sc/ecs/entity.hpp:663-672 | what was killed is back in the lists it came from, in order behind what they had |
| EntityAllocator.EntityAllocator.GiveManyPages | src/sc/ecs/entity.hpp:674-711 | of pages of any areas, every index is back, in the list of its area, in the order of the pages behind what was there |
| CreateInvariant.StepKeeps | src/sc/ecs/entity.hpp:443-471 | every atomic step of a create, and a destroy while there is none, keeps locks, shares, pages and indices together |
| CreateRuns.EveryIndexIsInOnePlace | src/sc/ecs/entity.hpp:183-195 | in every interleaving an index of a page with an owner is in exactly one place: alive, in the rest of the page or chunk of one share, in one list, or in flight at one thread |
| CreateRuns.HandedOutIsNobodys | src/sc/ecs/entity.hpp:443-464 | what a thread hands out is in its share, which no other thread uses, and not alive |
| CreateRuns.RowIsThere | src/sc/ecs/entity.hpp:838-865 | the pages of the row are different and have owners and generations; a page with an owner is in the row or about to be counted |
| CreateRuns.RowOnlyGrows | src/sc/ecs/entity.hpp:713-717 | a page of the row stays at its place for good |
| CreateRuns.GivesUpWithAllTaken | src/sc/ecs/entity.hpp:838-868 | create throws only once every page has an owner |
| CreateSolo.CreateEnds | src/sc/ecs/entity.hpp:443-471 | a create that no other thread meets ends with the index that is next: of the chunk of the share, of the last chunk of the list, of the page of the share, or of the first page without an owner from the cursor on, which is then the next of the row; and with none exactly if there is none of these |
| CreateSolo.EveryCreateIsAccounted | src/sc/ecs/entity.hpp:443-471 | in every interleaving a create that is done has handed out an index, or, and only else, found that every page has an owner |
| CreateRuns.AtRestOthersAreAlive | src/sc/ecs/entity.hpp:625-646 | with no create under way nothing is in flight, and the indices of the row that nobody holds are those alive |
| CreateRuns.CountAlive | src/sc/ecs/entity.hpp:625-646 | so alive() counts them |
| EachInPages.EachInMask | src/sc/ecs/world.hpp:1936-1949 | the bits of a word ascending, a full one without a search |
| EachInPages.MaskOf | src/sc/ecs/world.hpp:1888-1895 | the entities of a word with all components, without the excluded ones |
| EachInPages.EachInWords | src/sc/ecs/world.hpp:1924-1934 | skipping words by the summaries leaves no entity out |
| EachInPages.EachInPage | src/sc/ecs/world.hpp:1818-1899 | full page or word by word, the function is called once, ascending, for exactly the entities the loop is for |
| EachInPages.EachInPages | src/sc/ecs/world.hpp:1806-1905 | the same over all pages, in their order |
| ColumnViews.AtRestIsView | src/sc/ecs/column.hpp:1425-1604 | once no operation is under way, whatever the threads did, a page has the count and the summary that the loop relies on |
| ColumnViews.LoopSeesWhatWasMade | src/sc/ecs/world.hpp:1818-1899 | the loop is for exactly the slots of which every component to go through was made and not erased since, and no excluded one |
| Access.AddTo | src/sc/ecs/scheduler.hpp:1592-1600 | a list of uses with one more, writing wins |
| Access.ConflictsWith | src/sc/ecs/scheduler.hpp:1586-1624 | two systems conflict exactly if one takes the world or one writes what the other one uses |
| Access.Merge | src/sc/ecs/scheduler.hpp:1554-1574 | everything of both, events and columns to make once |
| Closure.EffectiveAccess | src/sc/ecs/scheduler.hpp:2443-2485 | ends, and has exactly what the system and all listeners and hooks it sets off, in however many steps, use; foreign is what those edit |
| Stages.StagesOf | src/sc/ecs/scheduler.hpp:2302-2313 | systems that conflict never share a stage and keep their order, and each stage after the first has a reason in the one before |
| Stages.LongestChain | src/sc/ecs/scheduler.hpp:2302-2313 | there is a chain of conflicts as long as the stage of a system says |
| Stages.ChainFits | src/sc/ecs/scheduler.hpp:2302-2313 | and none longer, in any staging that keeps systems apart |
| Stages.StagesAreLowest | src/sc/ecs/scheduler.hpp:2302-2313 | no staging that keeps systems apart has a lower number for any system |
| Stages.Group | src/sc/ecs/scheduler.hpp:2314-2317 | every system is in its stage once, in the order added |
| StageRuns.EndsAsInOrder | src/sc/ecs/scheduler.hpp:2245-2317 | every order that keeps systems that conflict in order ends as the order they were added in |
| StageRuns.StagesEndAsInOrder | src/sc/ecs/scheduler.hpp:2245-2317 | the stages one after the other, the systems of each in whatever order, end as all systems in the order added |
| Relations.World.constructor | src/sc/ecs/relation.hpp:102-110 | a world where nobody is related |
| Relations.World.Emplace | src/sc/ecs/relation.hpp:112-115 | the source is last in the list of its target, and both sides agree |
| Relations.World.Erase | src/sc/ecs/relation.hpp:117-124 | the source is out of the list of its target, and both sides agree |
| Relations.WithoutKeepsOrder | src/sc/ecs/relation.hpp:117-124 | the sources that stay in the list are in their order |
| Relations.World.Destroy | src/sc/ecs/world.hpp:845-868 | ends on any graph; with Destroy exactly the entity and all below it go, with Orphan its sources stay without the relation; both sides agree afterwards |
| Relations.World.DestroyGoing | src/sc/ecs/relation.hpp:117-151 | the same for a source whose target goes: the list of the target is left alone |
| Relations.World.OrphanSources | src/sc/ecs/relation.hpp:138-150 | every source loses the relation and nothing else changes |
| Descendants.ForEachDescendant | src/sc/ecs/relation.hpp:167-184 | with a stack, the recursive preorder of all below the entity, one call a turn |
| Descendants.HasTreeUnlessBelowItself | src/sc/ecs/relation.hpp:167-184 | what is below an entity is a tree exactly if its target is not below it |
| Descendants.EndsUnlessBelowItself | src/sc/ecs/relation.hpp:171-184 | the stack is empty after some number of turns exactly if the target of the entity is not below it |
| Descendants.NoEndOnACycle | src/sc/ecs/relation.hpp:171-184 | for two entities that are each other's target it never is |
| RapidMum.Mum | subprojects/rapidHash/rapidhash.h:156-197 | the product from four products of halves with its carries is the product of the two words |
| RapidWords.Swar32IsLower | subprojects/rapidHash/rapidhash.h:379-395 | the four bytes of a word in lower case at once are each in lower case, bytes above ASCII untouched |
| RapidWords.SwarByHalves | subprojects/rapidHash/rapidhash.h:352-377 | no carry leaves a half of the word |
| RapidWords.Swar64IsLower | subprojects/rapidHash/rapidhash.h:347-377 | the same of eight bytes |
| RapidHash.CompactRounds | subprojects/rapidHash/rapidhash.h:270-281 | the compact loop is all rounds, with all reads in bounds |
| RapidHash.UnrolledRounds | subprojects/rapidHash/rapidhash.h:282-312 | the unrolled loops are the same rounds |
| RapidHash.DoTail | subprojects/rapidHash/rapidhash.h:320-337 | the nested steps are those that are left, 16 bytes at a time |
| RapidHash.Hash | subprojects/rapidHash/rapidhash.h:243-344 | for every length the hash is that of its rounds, tail and last words, compact or unrolled |
| RapidHash.SameHash | subprojects/rapidHash/rapidhash.h:243-344 | the hash depends on nothing but the reads in bounds |
| RapidCoverage.EveryByteCounts | subprojects/rapidHash/rapidhash.h:243-344 | for every length, the hashes of two texts are made in the same way exactly if the texts are the same: no byte is left out |
| RapidTexts.LowercaseHash | subprojects/rapidHash/rapidhash.h:424-530 | the lower-case hash of a text is the hash of the text in lower case |
| RapidTexts.SignedShort | subprojects/rapidHash/rapidhash-constexpr.h:215-238 | of a signed char, what is mixed last is as at run time exactly if no byte that is read alone is above ASCII |
| RapidTexts.SignedHash | subprojects/rapidHash/rapidhash-constexpr.h:215-319 | there the compile-time hash is the run-time hash |
| RapidTexts.SignedHashDiffers | subprojects/rapidHash/rapidhash-constexpr.h:235-236 | the byte 0x80 alone hashes differently |

## Left out

- Memory orders weaker than sequential consistency: every step of a machine sees all steps before it.
- Fairness and waking: semaphores and futex waits are left out, a thread that waits looks again.
- OS memory, huge pages, regions and the caches of address ranges: a page has memory or not.
- File reading, logging, statistics, localization, mimalloc heaps, DeletionQueue, CleanupList, ArenaPool, FutureGroup and SpinLock.
- ColumnRuns.MemoryStaysUnderUsers: runs of emplaces at once, fill, and the erases of a whole page or without other threads are not among the operations of this machine; the latter are those of PageApplier.
- ColumnRuns.SparesAreUnique: what a page whose memory is kept costs is not part of the model, nor the table of header blocks.
- RingRuns.WaitsForEarlierLaps: says when a producer waits; that it stops waiting is RingSolo.PushEndsWithRoom where nobody meets it, and not said next to others, which need not go on.
- ResourceRuns.FreedIsUntouched: several caches that share a list, keys and maps are not modelled; a find that is published without the mutex is treated like one with it.
- ResourceOutcomes.OperationEnds: a wait for an entry whose file is being read is left out, as it ends only with that read. What throws in the source ends here with the handle that unwinding drops.
- Dispatch.LoadsStartInOrder: the limit is fixed; the source reads it anew each time.
- Reclaim.EndsOnlyUnread: freeReplaced with force, for the destructor, is not modelled.
- MonotonicRuns.RangesAreApart: the upstream is any that answers with memory apart from what it gave before; destructors that reset runs are not modelled.
- TicketRuns.EveryItemOnce: loops inside the function of a loop, and generations that wrap, are not modelled.
- PageSort.PageSort.Place: the loop over segments is done one segment after the other; that it may be done in parallel is EveryInterleavingPlaces.
- PageApplier.PageApplier.ApplyPage: hooks are the lists of what they are called for, in order; what a hook records goes to a next round that is not modelled, nor is an exception of one.
- FreeList.Take: emptied chunks that give fills again are new ones here, so the stack of emptied chunks is not modelled; the fields of the list are a value that methods return anew.
- EntityAllocator.EntityAllocator.Create: a call is one step here; its steps next to those of other threads are in CreateRuns. create of many at once, and areas made with their first entity, are not modelled: the areas are there from the start.
- CreateRuns.EveryIndexIsInOnePlace: destroys come between creates, as the source demands, and each is one step that leaves the list as FreeList.Give does; zeroing the generations of a page is one step under the lock.
- EntityAllocator.EntityAllocator.GiveManyPages: area after area, while the source grows all lists first and copies pages in parallel; the lists have nothing in common.
- EachInPages.EachInPages: the ticks behind Changed are the set of words with changes, and the marks the loop leaves are left out; words are sets of slots, so the trick that takes the lowest bit away is a removal.
- StageRuns.StagesEndAsInOrder: systems are without Commands, and each runs as one step.
- Closure.EffectiveAccess: listeners and hooks are one list, without a world there are no hooks in it; the checks that throw std::logic_error are left out.
- RapidCoverage.EveryByteCounts: is about terms, that is how the hash is made of its reads, not about the words that come out, which collide.
- Relations.World.Destroy: for one kind and outside a system; Commands that record the cascade, and erasing the list of a target past its hooks, are not modelled.
- RapidHash.Hash: seed mixing for the micro and nano variants, and big-endian reads, are left out.
- RapidTexts.LowercaseHash: the branch of `rapidhash_internal_lowercase` under `RAPIDHASH_UNROLLED` (`subprojects/rapidHash/rapidhash.h:468-498`) is not modelled; it passes a `const char *` to `rapid_read64`, which takes a `const uint8_t *`. The reads of the run-time hash copy memory on a little-endian machine; they are the sum of shifted bytes here, as at compile time.
- RapidMum.Mum: RAPIDHASH_PROTECTED, which combines the product with its factors, is left out.
