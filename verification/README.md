# Weenix kernel and warm-ups: a verified model

The repository holds a teaching kernel (Weenix) with its scheduler and
copy-on-write virtual memory, and two warm-up programs: a threaded token-bucket
emulator and a transaction sorter. This project models the four parts with the
most state and proves what they promise over all runs and all inputs.

**Virtual memory.** A process's address space is a sorted list of areas, each
pointing to a memory object; private areas point to chains of shadow objects
that end in an anonymous or a file object. `Areas` has the interval arithmetic
of the list, `Objects` the object table with reference counts and page lookups,
`AddressSpaces` the state and its invariant, `PageAccess`, `Mappings`,
`Forking` and `Transfer` the operations, `Isolation` the runs, and `Coherence`, `Grants`,
`Breaks` and `FilePages` what page tables, protections, breaks and files' pages are
over runs. `AreaScans` and `VmKernel` are the imperative forms: loops
over the list, and a class whose methods change the object table and the
processes in place, each proved equal to the operation on values. `FrameCache` is
the frame table of mm/pframe.c with its hash chains, two lists and counters, and
`FrameLink` keeps it in step with the page maps of the objects; `FrameCalls` and
`FrameRuns` have the calls into the cache that each operation makes, in order, and
follow them through every run. `FreedObjects` shows that freed objects keep no
page. `VmCases` has runs from boot that show surprising behaviour.

**Scheduler and mutex.** The kernel does not preempt threads, so the code
between two calls of sched_switch is one step. `Sched` has the steps, `SchedRuns`
what every run keeps, `SchedFairness` who is served when,
`SchedCancel` what cancellation does, `SchedCases` a run from
boot that is not served in order, `SchedKernel` the imperative form.

**Token bucket.** `TokenBucket` makes each critical section one step and each
read of a loop guard, which the program does without the lock, a step of its own
that reads a state between two critical sections. `TokenRuns` and
`TokenTheorems` have the results about safety, `TokenLevel` the bucket's level as a
function of the arrivals, `TokenLiveness` that every fair run
ends, `TokenEmulator` the imperative form.

**Sorting and money.** `List402` is the linked list on the heap, `BubbleSort` the
sort on it, `Money` the amount check and the fixed-width printer, `MoneyText`
how the two undo each other.

Four things the code does that one might not expect are stated exactly:

- `sched_cancel` leaves the thread's state alone, so cancelling a thread twice
  moves it back in the run queue (`SchedFairness.CancelRunnable` says when,
  `SchedCases.SecondCancelDelays` shows a run).
- Setting the break back to a page-aligned start can remove the heap area, after
  which the next call has no area to work on (`Mappings.BrkAgain` says when,
  `VmCases.BreakLosesHeap` shows runs).
- A read-only page-table entry can go stale when the kernel writes the page on
  behalf of its process (`PageAccess.KernelWriteCoherence` and
  `Coherence.RightStep` say when, `VmCases.EntryGoesStale` shows runs).
- A read or write whose end address wraps around copies nothing and reports
  success (`VmKernel.Kernel.VmmapRead`, `VmKernel.Kernel.VmmapWrite`).

Assumptions. The limits of user memory are pages 0x400 to 0xC0000 and a page has
4096 bytes; the headers that define them are not part of the repository. Memory
does not run out. The loader, which is not part of the repository either, sets a
process's break and its lower limit in one step. A file behaves as a fixed function from pages to bytes whose
object its vnode keeps alive. Packets need at least one token and the bucket
holds at least one, which the program's input checks enforce.

`dafny verify dfyconfig.toml` checks the whole project.

## Model

| member | source | states |
|---|---|---|
| `Isolation.RunIsolation` | Homework/Kernel/proc/fork.c:99-133 | over every run of forks, maps, unmaps, exits, break changes, faults, reads, writes and user stores: a page that its process neither remaps nor writes, and whose bottom page nobody writes through a shared mapping, keeps its bytes in that process's view |
| `Isolation.PrivateAnonIsolation` | Homework/Kernel/proc/fork.c:110-129 | for a private page over an anonymous object the last condition is not needed: no other process can change what this one sees, whatever it does |
| `Isolation.ForkIsolation` | Homework/Kernel/proc/fork.c:99-138 | after a fork and any run, parent and child each still see on any page, over a file or anonymous, what the parent saw at the fork, until they write or remap that page themselves or somebody writes the bottom page through a shared mapping |
| `Isolation.ForkAnonIsolation` | Homework/Kernel/proc/fork.c:110-129 | for a private anonymous page the last exception is not needed |
| `Isolation.SharedSeen` | Homework/Kernel/proc/fork.c:104-109 | two shared mappings that rest on one page still do after any run that remaps neither: what is written through one is what the other shows |
| `Isolation.IsolationStep` | Homework/Kernel/proc/fork.c:99-133 | one operation changes what q sees on p only if it is q's own write or remap of p, or a write to the bottom page through a shared mapping |
| `Isolation.RunInv` | Homework/Kernel/vm/shadow.c:110-145 | the whole invariant (exact counts, sorted areas, private objects private, page tables safe) holds after every run from a state that satisfies it |
| `Isolation.BootInv` | Homework/Kernel/vm/vmmap.c:110-121 | the initial state, one process with an empty map and the files' objects, satisfies the invariant; the loader's step sets the break |
| `VmCases.BreakLosesHeap` | Homework/Kernel/vm/brk.c:76-99 | a run from boot, for every page and every higher address: map a page, load a break at its start, raise the break, set it back to the start; the heap area is gone and the next call has none to look at |
| `VmCases.EntryGoesStale` | Homework/Kernel/vm/vmmap.c:595-637 | a run from boot, for every page: map it private, fault it in for reading, write other bytes to it by vmmap_write; the process sees the new bytes and its entry still shows the old ones |
| `Isolation.CountsInEveryRun` | Homework/Kernel/vm/shadow.c:110-145 | in every state of every run from boot an object is live exactly when an area, a vnode or a live shadow refers to it, and then its count is its resident pages plus those references |
| `Isolation.ReachableInEveryRun` | Homework/Kernel/vm/shadow.c:110-145 | in every state of every run no object on a chain below an area is freed, and every page of an anonymous or shadow object has pin count 1 |
| `Isolation.LiveIsReachable` | Homework/Kernel/vm/shadow.c:110-145 | the other way: every live anonymous or shadow object lies on the chain of some process's area, so nothing is leaked |
| `Isolation.LiveInEveryRun` | Homework/Kernel/vm/shadow.c:110-145 | in every state of every run an anonymous or shadow object is live if and only if some area leads to it |
| `Isolation.LastExitFreesAll` | Homework/Kernel/vm/shadow.c:110-145 | once no process has an area left, only the files' objects are live, each with its pages and its vnode's reference |
| `Isolation.AreasInEveryRun` | Homework/Kernel/vm/vmmap.c:328-414 | in every state of every run a process's areas are sorted, pairwise disjoint, not empty and inside user memory |
| `Isolation.EntriesInEveryRun` | Homework/Kernel/vm/pagefault.c:85-121 | in every state of every run every page-table entry designates a resident frame on its area's chain, and a writable one the frame of the area's own object |
| `Isolation.ApplyInv` | Homework/Kernel/proc/fork.c:99-138 | every single operation keeps the invariant |
| `Isolation.RestStep` | Homework/Kernel/proc/fork.c:99-133 | an operation that does not remap a page leaves it resting on the same page of the same bottom object |
| `Grants.GrantStep` | Homework/Kernel/vm/vmmap.c:328-507 | what every operation does to the mapping of every page of every process: a map call makes exactly its protection, sharing and page on its range, unmaps take away, a child has its parent's, the heap grows with its own, nothing else changes it |
| `Grants.GrantsInEveryRun` | Homework/Kernel/vm/vmmap.c:367-406 | in every run from boot a page is mapped as the map call that last covered it said, traced back through forks, unmaps around it and heap growth |
| `Grants.GrantKept` | Homework/Kernel/vm/vmmap.c:367-406 | a page keeps its protection, sharing and page until its process remaps it |
| `Grants.EntryStep` | Homework/Kernel/vm/pagefault.c:109-121 | what every operation does to every page-table entry: a fault enters its page with the rights of the access, remapping and forking take entries away, nothing else does |
| `Grants.RightfulStep` | Homework/Kernel/vm/pagefault.c:65-121 | no operation leaves an entry that allows more than its mapping |
| `Grants.RightsInEveryRun` | Homework/Kernel/vm/pagefault.c:65-121 | in every run from boot a writable entry lies only where the map call allowed writing, any other only where it allowed reading or executing |
| `Grants.FaultServes` | Homework/Kernel/vm/pagefault.c:95-121 | after a permitted fault the entry is there, writable for a write, and shows what the process is meant to see |
| `Breaks.BreakStep` | Homework/Kernel/vm/brk.c:56-102 | what every operation does to every process's break: an accepted call puts it at its address, a load sets it and the lower limit, a child has its parent's, nothing else changes either |
| `Breaks.BreakInEveryRun` | Homework/Kernel/vm/brk.c:56-102 | in every run from boot the break is where the last such operation of the process or its ancestors put it, and the lower limit where the last load did |
| `Breaks.BreakKept` | Homework/Kernel/vm/brk.c:56-102 | no operation of others, and no map, unmap or fault, moves a break |
| `Breaks.BreakAnswered` | Homework/Kernel/vm/brk.c:64-102 | after an accepted call and any run without another by the process, the stored break is its address, which a call with 0 answers; a child forked then has the same break and limit |
| `FilePages.FileSeen` | Homework/Kernel/vm/vmmap.c:383-399 | in every run from boot a page of a file that nobody dirtied through a mapping of its own holds the file's bytes, and a new mapping, private or shared, shows them |
| `FilePages.CleanStep` | Homework/Kernel/mm/pframe.c:227-259 | looking a page up for reading, and every operation on other pages, leaves a clean page of a file clean |
| `FilePages.MapRestsOn` | Homework/Kernel/vm/vmmap.c:383-399 | a new mapping rests on the named page of the file itself, or on an object nobody had |
| `FilePages.FileShared` | Homework/Kernel/vm/vmmap.c:383-399 | two shared mappings of a page of a file show each other's writes for as long as neither is remapped |
| `Objects.PutExact` | Homework/Kernel/vm/shadow.c:110-145 | giving up one outside reference, with the nested puts of bottom and shadowed object, leaves every count in the table exact; the recursion terminates because links point to older objects |
| `Objects.PutFreesLast` | Homework/Kernel/vm/shadow.c:118-144 | a put frees its object exactly when the reference given up was the last one that is not one of its own pages, and what survives keeps its contents |
| `Objects.PutKeeps` | Homework/Kernel/vm/shadow.c:123-139 | no surviving object loses pages, links or contents in the cascade |
| `Objects.PutFormed` | Homework/Kernel/vm/shadow.c:110-145 | the cascade keeps every chain well founded with its bottom object right and every page count equal to the resident pages |
| `Objects.RefExact` | Homework/Kernel/vm/shadow.c:91-100 | a reference taken is a reference counted |
| `Objects.AppendExact` | Homework/Kernel/vm/shadow.c:72-84 | a new shadow that takes over the references its two links stand for leaves all counts exact |
| `Objects.WriteLookupMeaning` | Homework/Kernel/vm/shadow.c:156-276 | after a lookup for writing the top object owns a frame with the bytes a read returned before, and no page of any object has changed its meaning |
| `Objects.ReadLookupMeaning` | Homework/Kernel/vm/shadow.c:156-218 | a read lookup returns the frame of the first object down the chain that has the page, else the bottom's, with the bytes the page means, and changes no meaning |
| `Objects.StoreMeaning` | Homework/Kernel/vm/shadow.c:156-218 | a store changes the meaning of exactly the pages whose owner is the stored frame's object |
| `Objects.AddPageMeaning` | Homework/Kernel/vm/shadow.c:231-276 | making a page resident with the bytes it already means changes the meaning of no page anywhere |
| `Objects.ChainLive` | Homework/Kernel/vm/shadow.c:110-145 | every object on the chain of a live object is live |
| `Objects.UncoveredChain` | Homework/Kernel/proc/fork.c:110-129 | an object that no live shadow covers is on no live chain but its own: a write to it is private |
| `Areas.CutMeaning` | Homework/Kernel/vm/vmmap.c:445-507 | removal is exact set difference: page p maps as before if it is outside the range and to nothing inside, in all overlap cases and the split |
| `Areas.CutSorted` | Homework/Kernel/vm/vmmap.c:445-507 | what is left after a removal is sorted, disjoint and has no empty area |
| `Areas.CutCount` | Homework/Kernel/vm/vmmap.c:455-498 | every piece of a cut area points to the area's object and to no other, so the number of pieces is the number of references needed |
| `Areas.CutEverything` | Homework/Kernel/vm/vmmap.c:126-150 | a removal over the whole user range empties the list |
| `Areas.InsertMeaning` | Homework/Kernel/vm/vmmap.c:156-187 | inserting an area into free pages overrides the page map on exactly its range |
| `Areas.InsertSorted` | Homework/Kernel/vm/vmmap.c:156-187 | insertion into a free range keeps the list sorted and disjoint |
| `Areas.FindAt` | Homework/Kernel/vm/vmmap.c:246-265 | in a sorted list the area found for a page is the only one that covers it |
| `Areas.FreeMeansDisjoint` | Homework/Kernel/vm/vmmap.c:513-537 | no area meets a range that the emptiness test calls free |
| `Areas.GrowMeaning` | Homework/Kernel/vm/brk.c:88-95 | growing an area into free pages maps exactly those pages in addition, continuing the object's pages |
| `AreaScans.Lookup` | Homework/Kernel/vm/vmmap.c:246-265 | the loop returns the index of the area covering the page, or the length of the list exactly when none does |
| `AreaScans.InsertPlace` | Homework/Kernel/vm/vmmap.c:164-186 | the loop finds the place of the first area that starts at or after the end of the new one |
| `AreaScans.IsRangeEmpty` | Homework/Kernel/vm/vmmap.c:513-537 | despite the early exit the loop answers true exactly when no page of the range is mapped |
| `AreaScans.FindRange` | Homework/Kernel/vm/vmmap.c:196-241 | on a non-empty map the result is the highest or lowest start of any free run of npages pages in user memory, and -1 exactly when there is none |
| `AreaScans.FindHighest` | Homework/Kernel/vm/vmmap.c:205-221 | the backward loop with pre_start finds the highest free run |
| `AreaScans.FindLowest` | Homework/Kernel/vm/vmmap.c:222-238 | the forward loop with pre_end finds the lowest free run |
| `PageAccess.PrivateWrite` | Homework/Kernel/vm/shadow.c:156-218 | a write through a private mapping is seen on that page of that process and nowhere else |
| `PageAccess.SharedWrite` | Homework/Kernel/vm/shadow.c:156-218 | a write through a shared mapping is seen exactly on the pages, of any process, whose bytes came from the written page |
| `PageAccess.WriteView` | Homework/Kernel/vm/vmmap.c:595-637 | what a write does to any page of any process, in terms of the owners after the lookup |
| `PageAccess.ReadPageFrame` | Homework/Kernel/vm/vmmap.c:547-585 | the frame a read lookup returns holds what the process sees |
| `PageAccess.FaultInv` | Homework/Kernel/vm/pagefault.c:85-121 | a page fault keeps the invariant: every writable entry designates the frame resident in its area's own object |
| `PageAccess.FaultView` | Homework/Kernel/vm/pagefault.c:95-121 | a page fault shows nobody anything new |
| `PageAccess.WritableCoherent` | Homework/Kernel/vm/pagefault.c:85-121 | a writable entry shows what the process is meant to see |
| `PageAccess.UserStoreIsWrite` | Homework/Kernel/vm/pagefault.c:85-121 | a store through a writable entry is the same as a write by the kernel on behalf of the process |
| `PageAccess.KernelWriteCoherence` | Homework/Kernel/vm/vmmap.c:595-637 | vmmap_write leaves page tables alone: an entry that was right shows the new bytes if and only if it designates the frame of the area's own object |
| `PageAccess.WriteKeepsOwner` | Homework/Kernel/vm/shadow.c:156-276 | a write changes the owner of no page of any process but, if private, the written one |
| `Coherence.RightStep` | Homework/Kernel/vm/vmmap.c:595-637 | an entry that designates the frame its process is meant to see stays right under an operation if and only if that is not a vmmap_write to the same page of the same process while the entry designates a frame further down the chain |
| `Coherence.CoherentInEveryRun` | Homework/Kernel/vm/pagefault.c:95-121 | in every run from boot without such a write to the page, user code reads through its entry what the process is meant to see |
| `Coherence.RunRight` | Homework/Kernel/vm/pagefault.c:95-121 | the same from any state of the invariant, for one entry through the whole run, over faults, forks, unmaps and writes of others |
| `Coherence.RightShows` | Homework/Kernel/vm/pagefault.c:95-121 | an entry that designates the owner's frame shows the process's view |
| `Coherence.FaultMakesRight` | Homework/Kernel/vm/pagefault.c:95-121 | a fault makes its own entry right, stale or not before |
| `Mappings.RemoveInv` | Homework/Kernel/vm/vmmap.c:445-507 | unmapping keeps the whole invariant |
| `Mappings.RemoveView` | Homework/Kernel/vm/vmmap.c:445-507 | unmapping takes exactly the pages of the range out of that process's view and changes no other view |
| `Mappings.MapAtInv` | Homework/Kernel/vm/vmmap.c:328-414 | mapping, over whatever was there, keeps the whole invariant |
| `Mappings.MapAtView` | Homework/Kernel/vm/vmmap.c:328-414 | a successful map changes the view to the old one overridden on exactly the new range, zeros or the file's bytes there, and is invisible to everybody else |
| `Mappings.DestroyEmpties` | Homework/Kernel/vm/vmmap.c:126-150 | destroying a map leaves no area and no entry of the process |
| `Mappings.CutObjsExact` | Homework/Kernel/vm/vmmap.c:445-507 | the references taken and given back by a removal keep all counts exact |
| `Mappings.SetBrkInv` | Homework/Kernel/vm/brk.c:23-29 | setting the break and its lower limit, as the loader does for a new program, keeps the whole invariant |
| `Mappings.BrkInv` | Homework/Kernel/vm/brk.c:56-102 | brk keeps the whole invariant |
| `Mappings.BrkView` | Homework/Kernel/vm/brk.c:76-99 | brk changes only the pages between the old and the new end of the heap area; added pages continue the area's object |
| `Mappings.BrkAgain` | Homework/Kernel/vm/brk.c:76-86 | after a successful call the area of the start break is still there, so that the next call finds it, if and only if the break was not set back to a page-aligned start |
| `Mappings.BrkCovers` | Homework/Kernel/vm/brk.c:79-98 | after an accepted call every address from the start to the break is mapped, and no page of the old heap beyond it is |
| `Mappings.BrkRoundTrip` | Homework/Kernel/vm/brk.c:83-95 | shrinking the heap and growing it back shows the old bytes again |
| `Forking.ForkView` | Homework/Kernel/proc/fork.c:99-133 | right after the fork the child sees exactly the parent's bytes and nobody else's view, the parent's included, has changed |
| `Forking.ForkInv` | Homework/Kernel/proc/fork.c:73-139 | the fork keeps the whole invariant |
| `Forking.ForkExact` | Homework/Kernel/proc/fork.c:99-133 | the references moved and taken for the new shadows keep all counts exact |
| `Forking.ForkDistinct` | Homework/Kernel/proc/fork.c:110-129 | no two private areas of parent and child end up with the same object |
| `Forking.ForkMeaning` | Homework/Kernel/proc/fork.c:110-129 | both new areas show what the old one showed, page by page |
| `Forking.ForkSurvives` | Homework/Kernel/proc/fork.c:99-133 | a fork frees nothing |
| `Forking.ForkPt` | Homework/Kernel/proc/fork.c:135-139 | the unmap of the whole user range leaves the parent no user entry, which is what makes its stale writable entries harmless |
| `Transfer.MappedLenMeaning` | Homework/Kernel/vm/vmmap.c:547-585 | every byte before the computed length is mapped and the one at it is not |
| `Transfer.ChunkBytes` | Homework/Kernel/vm/vmmap.c:614-629 | one chunk changes the bytes it covers and no other byte of the process |
| `Transfer.WrittenStep` | Homework/Kernel/vm/vmmap.c:604-634 | the next chunk continues the write across page and area boundaries |
| `Transfer.ChunkIsBytes` | Homework/Kernel/vm/vmmap.c:604-634 | storing a chunk is storing its bytes one after the other, so the loop refines the write byte by byte, also where one page is mapped twice |
| `Transfer.SharerSees` | Homework/Kernel/vm/vmmap.c:595-637 | whoever shares a page with the writer sees there after the write what the writer sees |
| `Transfer.PrivateUnseen` | Homework/Kernel/vm/vmmap.c:595-637 | a write whose pages are private is invisible to every other process |
| `Transfer.MappedStable` | Homework/Kernel/vm/vmmap.c:547-637 | a write does not change how far a range is mapped |
| `VmKernel.Kernel.constructor` | Homework/Kernel/vm/vmmap.c:110-121 | starts in the boot state, which satisfies the invariant |
| `VmKernel.Kernel.PframeFree` | Homework/Kernel/mm/pframe.c:550-582 | the page leaves the object and its reference is put back; needs an unpinned frame |
| `VmKernel.Kernel.Put` | Homework/Kernel/vm/shadow.c:110-145 | the in-place cascade, including the put that each freed page makes on its own dying object, computes exactly the value-level put |
| `VmKernel.Kernel.UncachePages` | Homework/Kernel/vm/anon.c:110-123 | the teardown loop unpins each page once, meets pframe_free's condition each time, and leaves no page |
| `VmKernel.Kernel.UncachePage` | Homework/Kernel/vm/anon.c:110-123 | one page of a dying object, unpinned once and freed |
| `VmKernel.Kernel.BottomLookup` | Homework/Kernel/vm/anon.c:133-162 | a resident page is returned as it is; a new one is filled with zeros or from the file |
| `VmKernel.Kernel.ShadowFill` | Homework/Kernel/vm/shadow.c:231-276 | the walk down the chain copies the bytes the page means into the new frame |
| `VmKernel.Kernel.ShadowLookup` | Homework/Kernel/vm/shadow.c:156-218 | returns the owner's frame for reading and a frame of the object itself for writing, as the lookups on values do |
| `VmKernel.Kernel.PframeLookup` | Homework/Kernel/mm/pframe.c:261-268 | dispatches on the kind of object and leaves the table as the read or write lookup on values does |
| `VmKernel.Kernel.VmmapInsert` | Homework/Kernel/vm/vmmap.c:156-187 | the area is in its sorted place and nothing else changed |
| `VmKernel.Kernel.CutAreaAt` | Homework/Kernel/vm/vmmap.c:455-498 | the four overlap cases for one area: list, references and the successor's index |
| `VmKernel.Kernel.SplitAt` | Homework/Kernel/vm/vmmap.c:455-473 | a hole inside an area: two pieces in order |
| `VmKernel.Kernel.CutNext` | Homework/Kernel/vm/vmmap.c:453-500 | one turn of the removal loop |
| `VmKernel.Kernel.CutList` | Homework/Kernel/vm/vmmap.c:453-500 | the loop cuts every area of the list and adjusts every count |
| `VmKernel.Kernel.VmmapRemove` | Homework/Kernel/vm/vmmap.c:445-507 | the new state is the value-level removal: areas, counts and page-table entries of the range |
| `VmKernel.Kernel.VmmapDestroy` | Homework/Kernel/vm/vmmap.c:126-150 | all areas and their references are gone |
| `VmKernel.Kernel.MapHere` | Homework/Kernel/vm/vmmap.c:367-406 | the new area is in place with its object, behind a shadow when private |
| `VmKernel.Kernel.VmmapMap` | Homework/Kernel/vm/vmmap.c:328-414 | -1 and no change exactly when no range is free; otherwise the value-level map at the chosen start, which is the highest or lowest free one when none was given |
| `VmKernel.Kernel.VmmapClone` | Homework/Kernel/vm/vmmap.c:271-301 | the same areas in the same order, with no object yet |
| `VmKernel.Kernel.ForkArea` | Homework/Kernel/proc/fork.c:101-131 | what one area's turn does to parent, child and the object table |
| `VmKernel.Kernel.TwoShadows` | Homework/Kernel/proc/fork.c:112-128 | two shadows over the old object; the parent's takes over the reference of its area |
| `VmKernel.Kernel.ForkNext` | Homework/Kernel/proc/fork.c:99-133 | one turn of the loop, the parent's area found by its start |
| `VmKernel.Kernel.ForkList` | Homework/Kernel/proc/fork.c:99-133 | the loop forks every area |
| `VmKernel.Kernel.DoFork` | Homework/Kernel/proc/fork.c:73-139 | the new state is the value-level fork, with the child as the last process |
| `VmKernel.Kernel.HandlePagefault` | Homework/Kernel/vm/pagefault.c:53-122 | serves a read only with the read bit, a write only with the write bit, an execution only with the exec bit, and then always; otherwise nothing changes; a served fault is the value-level one |
| `VmKernel.Kernel.FaultIn` | Homework/Kernel/vm/pagefault.c:85-121 | the lookup, the pin-dirty-unpin for a write, and the new entry |
| `VmKernel.Kernel.LoadBreak` | Homework/Kernel/vm/brk.c:23-29 | the loader's step: break and lower limit are set, the invariant is kept |
| `VmKernel.Kernel.DoBrk` | Homework/Kernel/vm/brk.c:56-102 | the current break for address 0; accepted exactly from the start break to the end of user memory with no page seen between the heap's end and the new one; otherwise -ENOMEM and no change; the heap area is needed only where the code looks it up |
| `VmKernel.Kernel.MoveHeapEnd` | Homework/Kernel/vm/brk.c:79-95 | the unsigned difference unmaps or grows exactly the pages between the two ends |
| `VmKernel.Kernel.VmmapRead` | Homework/Kernel/vm/vmmap.c:547-585 | the bytes the process sees up to the first unmapped page, 0 exactly when that is the whole range; nobody's view changes; if the end address wraps around nothing is copied and 0 is returned |
| `VmKernel.Kernel.ReadTurn` | Homework/Kernel/vm/vmmap.c:557-581 | one turn: nothing exactly at an unmapped page |
| `VmKernel.Kernel.ReadChunk` | Homework/Kernel/vm/vmmap.c:566-577 | the bytes of one page that the process sees |
| `VmKernel.Kernel.VmmapWrite` | Homework/Kernel/vm/vmmap.c:595-637 | the state is that of storing the mapped part of the range byte by byte; unless a shared page of the range is mapped twice no other byte of the process changes; every other page of every process keeps its owner and, unless it shows a shared page of the range, its bytes; same wrap-around as reading |
| `VmKernel.Kernel.WriteThenRead` | Homework/Kernel/vm/vmmap.c:547-637 | vmmap_write followed by vmmap_read of the same range returns the written bytes: all of them if the range is mapped, otherwise those before the first gap, across pages and areas and at any shadow depth |
| `VmKernel.Kernel.WriteTurn` | Homework/Kernel/vm/vmmap.c:605-633 | one turn: nothing exactly at an unmapped page |
| `VmKernel.Kernel.WriteNext` | Homework/Kernel/vm/vmmap.c:614-633 | a chunk stored after what is done already |
| `VmKernel.Kernel.StoreChunk` | Homework/Kernel/vm/vmmap.c:614-629 | lookup for writing, copy, dirty |
| `FrameCache.ChainAgreesWithObject` | Homework/Kernel/mm/pframe.c:190-212 | a page is found through its hash chain exactly when a frame for it is on its object's resident list |
| `FrameCache.CacheInEveryRun` | Homework/Kernel/mm/pframe.c:190-259 | over every run of requests, allocations, pins, unpins and frees the cache stays consistent: one frame per page, index and resident lists in agreement, frames split into the two lists by pin count with matching counters |
| `FrameCache.LeastRecentFirst` | Homework/Kernel/mm/pframe.c:190-259 | in every run the allocated list is in the order in which its frames were last allocated, requested or unpinned, so that its head, which the pageout daemon takes, is the least recently requested one |
| `FrameCache.AllocatedOk` | Homework/Kernel/mm/pframe.c:227-259 | allocation keeps the cache consistent: at most one frame per page, chains, object lists, the two lists and their counters |
| `FrameCache.RequestedOk` | Homework/Kernel/mm/pframe.c:190-212 | moving an unpinned frame that was asked for to the back of the allocated list keeps the cache consistent |
| `FrameCache.PinnedOk` | Homework/Kernel/mm/pframe.c:412-433 | so does pinning, with the move to the pinned list exactly at the first pin |
| `FrameCache.UnpinnedOk` | Homework/Kernel/mm/pframe.c:446-468 | so does unpinning, with the move back exactly at the last pin |
| `FrameCache.FreedOk` | Homework/Kernel/mm/pframe.c:550-582 | so does freeing an unpinned frame |
| `FrameCache.AllocThenFree` | Homework/Kernel/mm/pframe.c:227-259 | allocating a page and freeing its frame restores every list, chain, counter and resident list |
| `FrameCache.OnePinSuffices` | Homework/Kernel/vm/anon.c:146-162 | filling leaves exactly one pin, the pin and unpin around dirtying restore the cache exactly, and the one unpin of the teardown makes the frame freeable |
| `FrameLink.ResidentIff` | Homework/Kernel/mm/pframe.c:190-212 | a frame is found for a page exactly when the page is in its object's page map |
| `FrameLink.CountsAgree` | Homework/Kernel/mm/pframe.c:227-259 | the object's count of resident pages is the length of its resident list |
| `FrameLink.AllocAgrees` | Homework/Kernel/mm/pframe.c:227-259 | allocating a frame and adding the page to the object, with its reference and page count, keep cache and objects in step; a page that is not in the map has no frame yet |
| `FrameLink.PinAgrees` | Homework/Kernel/mm/pframe.c:412-468 | so do pinning and unpinning, with equal pin counts on both sides |
| `FrameLink.FreeAgrees` | Homework/Kernel/mm/pframe.c:550-582 | so does freeing: the condition on the pin count is the same on both sides, and page and frame go together |
| `FrameLink.ResidencyAgrees` | Homework/Kernel/mm/pframe.c:482-498 | so do filling, dirtying, counting references and new objects |
| `FrameLink.PageInAgrees` | Homework/Kernel/vm/anon.c:133-162 | so does a page of a bottom object made resident: allocated, filled, pinned if anonymous |
| `FrameLink.TeardownAgrees` | Homework/Kernel/vm/anon.c:110-120 | so does the teardown of a page: one unpin and free |
| `FrameLink.EmptyAgrees` | Homework/Kernel/mm/pframe.c:123-146 | before any page is resident both sides are empty |
| `FrameCalls.GetFollows` | Homework/Kernel/mm/pframe.c:341-396 | the calls of pframe_get, decided by what is found in the cache: a resident frame is moved to the back, otherwise one is allocated and pinned unless it is a file's; all are allowed and cache and objects stay in step |
| `FrameCalls.GetTouches` | Homework/Kernel/mm/pframe.c:190-212 | a looked-up page of a file is then the most recently used of the unpinned ones |
| `FrameCalls.ReadFollows` | Homework/Kernel/vm/shadow.c:183-211 | so are those of a lookup for reading, down the chain to the first cached page or the bottom object |
| `FrameCalls.SeenIsOwner` | Homework/Kernel/vm/shadow.c:186-199 | the walk over the cache ends at the object that owns the page |
| `FrameCalls.CopyFollows` | Homework/Kernel/vm/shadow.c:162-276 | so are those of copy-on-write: top frame allocated, the page below looked up or brought in with a second frame, top frame pinned; whether the bottom page is resident or not |
| `FrameCalls.WriteLookupFollows` | Homework/Kernel/vm/shadow.c:156-182 | so are those of a lookup for writing in any object |
| `FrameCalls.FaultFollows` | Homework/Kernel/vm/pagefault.c:95-114 | so are those of a write fault, which pins the frame around dirtying it |
| `FrameCalls.DropFollows` | Homework/Kernel/vm/shadow.c:124-133 | one turn of the teardown, an unpin if pinned and a free, is allowed and takes page and frame away |
| `FrameCalls.TeardownFollows` | Homework/Kernel/vm/shadow.c:121-133 | the loop over the list of resident pages as it was at the start unpins and frees exactly the object's frames, each call allowed |
| `FrameCalls.PutFollows` | Homework/Kernel/vm/shadow.c:110-145 | the calls of a put with its whole cascade, own pages first, then the bottom object, then the shadowed one, are allowed in that order and keep cache and objects in step |
| `FrameRuns.CutFollows` | Homework/Kernel/vm/vmmap.c:445-507 | so are those of a removal, area by area |
| `FrameRuns.StepFollows` | Homework/Kernel/mm/pframe.c:227-582 | for every operation of the virtual memory the calls it makes are allowed in turn and keep cache and objects in step |
| `FrameRuns.RunFollows` | Homework/Kernel/mm/pframe.c:227-582 | so they are over every run, whatever unused frames the slab allocator hands out |
| `FrameRuns.FramesInEveryRun` | Homework/Kernel/mm/pframe.c:123-259 | from boot and an empty cache of any size: after every run frames and resident pages correspond one to one with equal pin counts, and each object's page count is the length of its resident list |
| `FrameRuns.FramesOfLiveObjects` | Homework/Kernel/mm/pframe.c:550-582 | in every run no cached frame belongs to a freed object and a frame is pinned exactly when its object is no file; once no process has an area left nothing is pinned |
| `FreedObjects.StepBare` | Homework/Kernel/vm/shadow.c:110-145 | every operation leaves freed objects without pages |
| `FreedObjects.PagesInEveryRun` | Homework/Kernel/vm/shadow.c:110-145 | in every run pages are resident in live objects only, and once no process has an area left in files only |
| `FrameCache.FrameTable.constructor` | Homework/Kernel/mm/pframe.c:123-146 | an empty consistent cache |
| `FrameCache.FrameTable.GetResident` | Homework/Kernel/mm/pframe.c:190-212 | the frame of the page, or nothing exactly when it is not resident |
| `FrameCache.FrameTable.ScanChain` | Homework/Kernel/mm/pframe.c:199-210 | the walk along one chain finds the frame exactly when it is there |
| `FrameCache.FrameTable.Alloc` | Homework/Kernel/mm/pframe.c:227-259 | the in-place form of allocation |
| `FrameCache.FrameTable.Pin` | Homework/Kernel/mm/pframe.c:412-433 | the in-place form of pinning |
| `FrameCache.FrameTable.Unpin` | Homework/Kernel/mm/pframe.c:446-468 | the in-place form of unpinning |
| `FrameCache.FrameTable.Free` | Homework/Kernel/mm/pframe.c:550-582 | the in-place form of freeing |
| `SchedRuns.RunInv` | Homework/Kernel/proc/sched.c:31-153 | over every run of scheduler and mutex steps, thread placement, queue sizes, sleeping states and mutex states are right |
| `SchedRuns.ApplyInv` | Homework/Kernel/proc/sched.c:31-153 | every single step keeps them |
| `SchedRuns.BootInv` | Homework/Kernel/proc/sched.c:81-87 | one running thread and empty queues satisfy them |
| `SchedRuns.Placement` | Homework/Kernel/proc/sched.c:31-79 | a started, unexited thread that is not running is on exactly one queue, the one its wait channel names; a running or exited one is on none; it sleeps on a wait queue and only there, except that a sleep ended by a cancellation leaves its mark |
| `SchedRuns.WokenWasAsleep` | Homework/Kernel/proc/sched_helper.c:49-57 | the assertion in sched_wakeup_on never fails: whoever is woken is in a sleeping state |
| `SchedRuns.LockReturns` | Homework/Kernel/proc/kmutex.c:60-98 | a lock call that slept: the cancellable one returns 0 exactly when the caller owns the mutex, and -EINTR exactly when it was cancelled, the plain one returns as the owner, whatever happened meanwhile |
| `SchedCancel.FlagStep` | Homework/Kernel/proc/sched.c:136-151 | a cancellation sets the flag of its thread in whatever state, no other step touches a flag, a new thread has none |
| `SchedCancel.CancelledInEveryRun` | Homework/Kernel/proc/sched.c:136-151 | in every run from boot a thread is cancelled if and only if somebody cancelled it |
| `SchedCancel.SleepReturns` | Homework/Kernel/proc/sched.c:102-125 | over every run up to its own return, a cancellable sleep returns -EINTR if and only if the thread was cancelled since it went to sleep, and 0 if it was only woken |
| `SchedCancel.SleepNow` | Homework/Kernel/proc/sched.c:110-113 | a cancellable sleep returns at once, with everything as it was, if and only if the thread was cancelled before |
| `SchedCancel.PlainSleepRun` | Homework/Kernel/proc/sched_helper.c:23-38 | over every run a plain sleeper stays on its queue until woken, in its turn, however often it is cancelled |
| `SchedRuns.LockCancellableNow` | Homework/Kernel/proc/kmutex.c:70-78 | a call that does not sleep takes the mutex exactly when the caller was not cancelled |
| `SchedRuns.LockInv` | Homework/Kernel/proc/kmutex.c:35-98 | locking keeps: a free mutex has no waiters and the holder is not queued |
| `SchedRuns.UnlockInv` | Homework/Kernel/proc/kmutex.c:113-135 | unlocking keeps the same, and the caller no longer holds the mutex |
| `SchedRuns.CancelInv` | Homework/Kernel/proc/sched.c:136-153 | cancelling keeps placement, also for a thread cancelled twice |
| `SchedRuns.SleepInv` | Homework/Kernel/proc/sched_helper.c:23-38 | going to sleep keeps placement |
| `SchedRuns.WakeupInv` | Homework/Kernel/proc/sched_helper.c:40-60 | waking keeps placement |
| `SchedRuns.DispatchInv` | Homework/Kernel/proc/sched.c:191-219 | switching keeps placement |
| `SchedRuns.ResumeInv` | Homework/Kernel/proc/kmutex.c:80-97 | the part of a call after its sleep keeps placement and the mutex states |
| `SchedFairness.BoundedWaiting` | Homework/Kernel/proc/kmutex.c:113-135 | in every run, a waiter with k waiters ahead that no cancellation removes owns the mutex after at most k + 1 unlocks |
| `SchedFairness.ArrivalOrder` | Homework/Kernel/proc/kmutex.c:113-135 | in every run, a thread that queued later or not yet gets the mutex only after the earlier waiter did |
| `SchedFairness.WaiterStep` | Homework/Kernel/proc/kmutex.c:113-135 | one step gives the waiter the mutex or leaves no more waiters ahead, and one fewer if it is an unlock |
| `SchedFairness.OrderStep` | Homework/Kernel/proc/kmutex.c:113-135 | one step never lets a later thread pass a waiter |
| `SchedFairness.HolderStep` | Homework/Kernel/proc/kmutex.c:123-131 | the holder changes only by an unlock, to the oldest waiter, or from nobody |
| `SchedFairness.QueueStep` | Homework/Kernel/proc/sched.c:31-64 | first in, first out on every sleep queue, of a mutex or not: it changes by one arrival at the head, one service at the tail, one cancelled departure, or not at all |
| `SchedFairness.WokenInTurn` | Homework/Kernel/proc/sched_helper.c:40-60 | in every run, a sleeper with k ahead on its queue that no cancellation removes is woken by the (k + 1)-th wakeup of the queue at the latest |
| `SchedFairness.WokenInOrder` | Homework/Kernel/proc/sched_helper.c:40-60 | in every run, nobody is woken on a queue before a thread that went to sleep there earlier |
| `SchedFairness.SleeperStep` | Homework/Kernel/proc/sched_helper.c:40-60 | one step that does not wake a sleeper leaves no more ahead of it, and one fewer if it serves the queue |
| `SchedFairness.WokenRuns` | Homework/Kernel/proc/sched_helper.c:49-57 | a thread woken on any sleep queue is on the run queue after the step |
| `SchedFairness.CancelRunnable` | Homework/Kernel/proc/sched.c:144-152 | the run queue is not FIFO under repeated cancellation: cancelling a runnable thread leaves the queue alone if and only if the thread's stale state is not the cancellable sleep or the thread is last in line already |
| `SchedCases.SecondCancelDelays` | Homework/Kernel/proc/sched.c:144-152 | a run from boot after which the next thread to run, cancelled a second time, has to let another pass |
| `SchedFairness.RunQueueFair` | Homework/Kernel/proc/sched.c:191-219 | otherwise a runnable thread with k threads ahead runs after at most k + 1 switches |
| `SchedFairness.RunQueueStep` | Homework/Kernel/proc/sched.c:234-251 | how each step changes the run queue |
| `SchedFairness.BroadcastOrder` | Homework/Kernel/proc/sched_helper.c:62-74 | a broadcast empties the queue, makes all waiters runnable in the order of their sleep and touches no other queue |
| `SchedFairness.BroadcastInv` | Homework/Kernel/proc/sched_helper.c:62-74 | a broadcast keeps placement |
| `SchedKernel.Scheduler.constructor` | Homework/Kernel/proc/sched.c:81-87 | starts in the boot state |
| `SchedKernel.Scheduler.KtqueueEnqueue` | Homework/Kernel/proc/sched.c:31-39 | the thread is at the head of the queue, its channel and the size say so |
| `SchedKernel.Scheduler.KtqueueDequeue` | Homework/Kernel/proc/sched.c:47-64 | the thread at the tail, or nothing for an empty queue |
| `SchedKernel.Scheduler.KtqueueRemove` | Homework/Kernel/proc/sched.c:72-79 | the thread is off the queue, the others keep their order |
| `SchedKernel.Scheduler.MakeRunnable` | Homework/Kernel/proc/sched.c:234-251 | the thread is last in line on the run queue; it was on no queue |
| `SchedKernel.Scheduler.SleepOn` | Homework/Kernel/proc/sched_helper.c:23-38 | the caller sleeps on the queue |
| `SchedKernel.Scheduler.CancellableSleepOn` | Homework/Kernel/proc/sched.c:102-125 | -EINTR at once for a cancelled caller, otherwise a cancellable sleep |
| `SchedKernel.Scheduler.Cancel` | Homework/Kernel/proc/sched.c:136-153 | the flag, and the move to the run queue exactly for a cancellable sleeper; all invariants kept |
| `SchedKernel.Scheduler.Switch` | Homework/Kernel/proc/sched.c:211-214 | the oldest runnable thread runs |
| `SchedKernel.Scheduler.WakeupOn` | Homework/Kernel/proc/sched_helper.c:40-60 | the oldest waiter is runnable; its state was a sleeping one |
| `SchedKernel.Scheduler.BroadcastOn` | Homework/Kernel/proc/sched_helper.c:62-74 | the loop empties the queue in order |
| `SchedKernel.Scheduler.Unlock` | Homework/Kernel/proc/kmutex.c:113-135 | the mutex belongs to the oldest waiter or to nobody, and not to the caller |
| `SchedKernel.Scheduler.Lock` | Homework/Kernel/proc/kmutex.c:35-54 | the mutex is taken or the caller waits |
| `SchedKernel.Scheduler.LockCancellable` | Homework/Kernel/proc/kmutex.c:60-98 | a call that does not sleep returns 0 exactly when the caller owns the mutex |
| `SchedKernel.Scheduler.Resume` | Homework/Kernel/proc/kmutex.c:80-97 | a lock call that slept returns 0 exactly when the caller owns the mutex; a cancelled owner passes it on; a cancellable sleep returns -EINTR exactly when cancelled |
| `TokenTheorems.ReleaseTime` | Homework/Warmup2/warmup2.c:668-738 | in every run without SIGINT the packet at position k of Q1 is still there if and only if fewer tokens have arrived than the needs of positions 0..k less the tokens now in the bucket |
| `TokenTheorems.ExactRelease` | Homework/Warmup2/warmup2.c:668-738 | the same with the remaining number of tokens tracked through the run |
| `TokenTheorems.TokenConservation` | Homework/Warmup2/warmup2.c:681-704 | over every run, tokens produced are in the bucket, dropped, or spent by packets that left Q1 for Q2 |
| `TokenLevel.LevelMeans` | Homework/Warmup2/warmup2.c:624-660 | with the level as tokens less claims of Q1: it never exceeds B, and Q1 is empty if and only if it is not negative |
| `TokenLevel.LevelStep` | Homework/Warmup2/warmup2.c:681-731 | a token raises the level by one up to B and is dropped exactly if the bucket was full, a packet lowers it by its need, no other step moves it |
| `TokenLevel.LevelRun` | Homework/Warmup2/warmup2.c:568-738 | over every run without SIGINT level and dropped tokens are a function of the arrivals alone, whatever the servers do |
| `TokenLevel.LevelInEveryRun` | Homework/Warmup2/warmup2.c:568-738 | from the start of the program, the tokens in the bucket, the dropped ones and whether Q1 is empty |
| `TokenLevel.StraightThrough` | Homework/Warmup2/warmup2.c:618-660 | an arriving packet goes straight to Q2 if and only if the level covers its need, otherwise to the end of Q1 with no token taken |
| `TokenLevel.Refill` | Homework/Warmup2/warmup2.c:681-704 | while no packet claims tokens, n tokens fill the bucket to min(B, tokens + n) |
| `TokenTheorems.ServedAsReleased` | Homework/Warmup2/warmup2.c:740-793 | packets are served in the order of their release, and until SIGINT every released packet was served or is in Q2 |
| `TokenTheorems.ServedByItself` | Homework/Warmup2/warmup2.c:752-790 | over every run each server is credited with exactly the packets it took from Q2 |
| `TokenTheorems.QuietAfterSigint` | Homework/Warmup2/warmup2.c:819-868 | after SIGINT nothing is released, served, created or produced |
| `TokenTheorems.SigintReports` | Homework/Warmup2/warmup2.c:826-861 | SIGINT reports the packets of Q1 and then of Q2, in order, as removed |
| `TokenTheorems.WaitingMeans` | Homework/Warmup2/warmup2.c:745-747 | a server waits only while Q2 is empty and Q1 is not, and then the token thread has not finished |
| `TokenTheorems.WaitsExactly` | Homework/Warmup2/warmup2.c:745-747 | a server waits if and only if Q2 is empty, packets are to come and one is in Q1 |
| `TokenTheorems.ServeWakesNobody` | Homework/Warmup2/warmup2.c:786-791 | the broadcast after a service finds nobody waiting |
| `TokenTheorems.WakeupComes` | Homework/Warmup2/warmup2.c:698-730 | no wakeup is lost: a waiting server is woken by the time the head of Q1 has got its tokens, in every run without SIGINT |
| `TokenTheorems.SigintWakes` | Homework/Warmup2/warmup2.c:857-861 | SIGINT wakes every waiting server |
| `TokenTheorems.NoDeadlock` | Homework/Warmup2/warmup2.c:568-817 | until all threads have finished one of them can take a step, without SIGINT or spurious wakeups |
| `TokenLiveness.RoundExists` | Homework/Warmup2/warmup2.c:568-817 | from every state each thread that is neither finished nor waiting can take a turn, and no turn of another can prevent it |
| `TokenLiveness.StepWork` | Homework/Warmup2/warmup2.c:568-817 | a bound on the turns a thread has left falls with each of its turns and rises with no step, for the token thread once the last packet has come, for a server once Q1 is empty |
| `TokenLiveness.AllFinish` | Homework/Warmup2/warmup2.c:568-817 | after (2 num + 2) + (3 b num + 3) + (4 num + 4) rounds, in each of which every thread that is neither finished nor waiting takes a turn, all threads have finished, with or without SIGINT |
| `TokenLiveness.EmulatorEnds` | Homework/Warmup2/warmup2.c:568-817 | so from the start of the program, with both queues empty and every packet once in the output |
| `TokenTheorems.Drained` | Homework/Warmup2/warmup2.c:568-868 | when all threads have finished the queues are empty and every packet created is in the output exactly once; without SIGINT these are all packets |
| `TokenTheorems.RunInv` | Homework/Warmup2/warmup2.c:568-868 | the invariant holds in every state of every run: bucket within 0..B, head of Q1 short of tokens, identifiers 1..n each in exactly one place, service in order of arrival |
| `TokenTheorems.BootInv` | Homework/Warmup2/warmup2.c:360-382 | the initial state satisfies it |
| `TokenTheorems.DueToken` | Homework/Warmup2/warmup2.c:681-731 | a token brings every packet of Q1 one token closer, and the packet that is due leaves at once |
| `TokenTheorems.DueOther` | Homework/Warmup2/warmup2.c:568-666 | no other step moves Q1 while somebody waits there, whatever arrives |
| `TokenRuns.TokenBucketOk` | Homework/Warmup2/warmup2.c:689-704 | a token completes exactly the head's need or leaves it waiting, and is dropped only when Q1 is empty |
| `TokenRuns.ArrivalBucket` | Homework/Warmup2/warmup2.c:614-657 | an arrival releases only the arriving packet, and only into an empty Q1 |
| `TokenRuns.ApplyServers` | Homework/Warmup2/warmup2.c:742-747 | guards once read false stay false, and waiting servers keep having something to wait for |
| `TokenRuns.ApplyPcs` | Homework/Warmup2/warmup2.c:669-679 | a finished thread has left nothing to do behind |
| `TokenRuns.ApplyLine` | Homework/Warmup2/warmup2.c:740-793 | served packets, Q2 and Q1 form one line that only grows at its end, until SIGINT cuts its unserved part |
| `TokenRuns.ApplyIds` | Homework/Warmup2/warmup2.c:568-868 | only an arrival adds a packet, no step loses or duplicates one, SIGINT included |
| `TokenRuns.ApplyKinds` | Homework/Warmup2/warmup2.c:605-607 | dropped are exactly the packets that need more than B tokens |
| `TokenRuns.ApplyInv` | Homework/Warmup2/warmup2.c:568-868 | every step keeps the invariant |
| `TokenEmulator.Emulator.constructor` | Homework/Warmup2/warmup2.c:360-382 | starts in the boot state |
| `TokenEmulator.Emulator.CondBroadcast` | Homework/Warmup2/warmup2.c:656-656 | every waiting server contends for the lock again |
| `TokenEmulator.Emulator.ReleaseHead` | Homework/Warmup2/warmup2.c:698-731 | the head of Q1 moves to Q2 with a broadcast exactly if its tokens are there |
| `TokenEmulator.Emulator.PacketArrives` | Homework/Warmup2/warmup2.c:579-661 | the packet thread's critical section is the packet step |
| `TokenEmulator.Emulator.TokenArrives` | Homework/Warmup2/warmup2.c:674-733 | the token thread's critical section is the token step |
| `TokenEmulator.Emulator.ServerRuns` | Homework/Warmup2/warmup2.c:743-793 | a server's critical section, up to waiting or the unlock, is the server step |
| `TokenEmulator.Emulator.SignalCaught` | Homework/Warmup2/warmup2.c:824-863 | the handler's critical section is the SIGINT step |
| `TokenEmulator.Emulator.MoveAll` | Homework/Warmup2/warmup2.c:835-845 | one queue's packets are appended to the output in order, marked as removed |
| `List402.List.constructor` | Homework/Warmup1/my402list.c:152-158 | an empty well-formed list |
| `List402.List.Init` | Homework/Warmup1/my402list.c:152-158 | empties the list |
| `List402.List.Length` | Homework/Warmup1/my402list.c:7-9 | the number of elements |
| `List402.List.Empty` | Homework/Warmup1/my402list.c:11-13 | true exactly for the empty list |
| `List402.List.First` | Homework/Warmup1/my402list.c:115-120 | the first element, or null for an empty list |
| `List402.List.Last` | Homework/Warmup1/my402list.c:122-127 | the last element, or null for an empty list |
| `List402.List.Next` | Homework/Warmup1/my402list.c:129-134 | the next element, or null after the last one |
| `List402.List.Prev` | Homework/Warmup1/my402list.c:136-141 | the previous element, or null before the first one |
| `List402.List.LinkBetween` | Homework/Warmup1/my402list.c:89-96 | linking a new element between two neighbours keeps the ring well formed and inserts it at that place |
| `List402.List.Bypass` | Homework/Warmup1/my402list.c:63-67 | the neighbours of an element linked to each other form a ring without it |
| `List402.List.Unlink` | Homework/Warmup1/my402list.c:63-72 | the sequence without the element; the ring is still well formed |
| `List402.List.Append` | Homework/Warmup1/my402list.c:15-37 | the sequence with the object at the end |
| `List402.List.Prepend` | Homework/Warmup1/my402list.c:39-61 | the sequence with the object in front |
| `List402.List.InsertAfter` | Homework/Warmup1/my402list.c:85-98 | the sequence with the object after the element, or at the end for null |
| `List402.List.InsertBefore` | Homework/Warmup1/my402list.c:100-113 | the sequence with the object before the element, or in front for null |
| `List402.List.UnlinkAll` | Homework/Warmup1/my402list.c:74-83 | the loop with the saved successor empties the list |
| `List402.List.Find` | Homework/Warmup1/my402list.c:143-150 | the first element that holds the object, or null exactly when none does |
| `BubbleSort.BubbleSortForwardList` | Homework/Warmup1/warmup1.c:176-210 | returns normally exactly when the length is right and all timestamps differ, and then the list is a strictly ascending permutation on a well-formed ring; otherwise the length is wrong or the two lines reported do clash |
| `BubbleSort.Pass` | Homework/Warmup1/warmup1.c:188-205 | one pass puts the latest of the first m entries in place m - 1, and without a swap the list is sorted |
| `BubbleSort.Turn` | Homework/Warmup1/warmup1.c:189-204 | one comparison: equal timestamps are reported, a later one is swapped back |
| `BubbleSort.BubbleForward` | Homework/Warmup1/warmup1.c:146-174 | the two entries are swapped although both elements are freed and new ones made; every other element is the same object |
| `BubbleSort.TakeOut` | Homework/Warmup1/warmup1.c:156-157 | both elements are out of the ring |
| `BubbleSort.PutAfter` | Homework/Warmup1/warmup1.c:158-165 | the object is back in place after the saved predecessor or in front |
| `BubbleSort.PutBefore` | Homework/Warmup1/warmup1.c:166-173 | the object is back in place before the saved successor or at the end |
| `BubbleSort.PutBoth` | Homework/Warmup1/warmup1.c:158-173 | both objects are back in swapped order |
| `BubbleSort.TurnKeeps` | Homework/Warmup1/warmup1.c:189-204 | a comparison keeps what is settled, moves the latest entry one place on and permutes |
| `BubbleSort.AscendingDiffer` | Homework/Warmup1/warmup1.c:196-199 | a list with a strictly ascending permutation has no equal timestamps |
| `BubbleSort.ClashReordered` | Homework/Warmup1/warmup1.c:196-199 | equal timestamps survive every reordering, with their lines |
| `Money.CheckAmount` | Homework/Warmup1/warmup1.c:60-120 | accepts exactly the texts with at most seven digits, a dot and two digits that are not zero and have no superfluous leading zero, and returns their cents |
| `Money.ScanDots` | Homework/Warmup1/warmup1.c:65-72 | the number of dots, as far as none, one and more, and the place of the last |
| `Money.DigitsFrom` | Homework/Warmup1/warmup1.c:77-88 | true exactly when the stretch holds digits only |
| `Money.AcceptedBound` | Homework/Warmup1/warmup1.c:89-119 | an accepted amount is positive and below 10^9 cents |
| `Money.TransferFormat` | Homework/Warmup1/warmup1.c:212-254 | the fourteen characters are the field of the amount, the buffer ends with zero bytes and nothing beyond is touched |
| `Money.WriteSigns` | Homework/Warmup1/warmup1.c:213-219 | brackets around a negative amount, blanks around others, zero bytes at the end |
| `Money.WriteMarks` | Homework/Warmup1/warmup1.c:221-228 | question marks with separators for an amount that does not fit; nothing else changes |
| `Money.WriteDigits` | Homework/Warmup1/warmup1.c:231-246 | the digit loop writes every digit and the separators that have digits to their left |
| `Money.WriteDigit` | Homework/Warmup1/warmup1.c:233-245 | one digit and the separator after it |
| `Money.FillLeft` | Homework/Warmup1/warmup1.c:247-253 | zeros up to the dot and blanks left of it |
| `MoneyText.FieldRoundTrip` | Homework/Warmup1/warmup1.c:212-254 | for every amount below 10^9 in size the printed field decodes to the same signed amount |
| `MoneyText.PrinterUndoesParser` | Homework/Warmup1/warmup1.c:60-254 | printing an accepted amount shows no question mark and, blanks and commas aside, its text; only a missing digit before the dot is filled in |
| `MoneyText.AcceptedExactly` | Homework/Warmup1/warmup1.c:60-120 | accepted are exactly the positive amounts below 10^7 in the usual notation with two places, where a single 0 before the dot may be left out |
| `MoneyText.ParserUndoesPrinter` | Homework/Warmup1/warmup1.c:60-254 | reading the printed text of a positive amount below 10^9 gives the amount back |
| `MoneyText.FieldText` | Homework/Warmup1/warmup1.c:230-253 | blanks and commas aside the field is the amount in the usual notation |
| `MoneyText.QuestionMarks` | Homework/Warmup1/warmup1.c:220-229 | question marks appear exactly from 10^9 on |
| `MoneyText.Commas` | Homework/Warmup1/warmup1.c:236-244 | commas stand at two places only, each exactly when a digit stands to its left |

## Left out

- The file's failing mmap operation in `vmmap_map`: it returns after the area is already linked; the model takes the path where it succeeds.
- The list of areas kept at each bottom object (`mmo_vmas`): a split area is not put on it, and nothing modelled reads it.
- `pageoutd`, `pframe_migrate`, `pframe_clean` and the cleanpage operations: pages of anonymous and shadow objects stay pinned, and the shadow daemon is switched off.
- The waiting for busy frames in `pframe_get` and the allocator's sleep: filling a page is one step.
- Page directories and the TLB: a page table is a map from pages to entries, and a flush has no effect of its own.
- What `do_fork` does beyond the address space (file table, thread context, working directory).
- File systems, system call argument copying, `vm/mmap.c`, `proc.c`, `kthread.c`: mostly checks and dispatch to code outside the repository.
- Real time, statistics, option parsing and printed lines of the emulator; packets carry their identifier and need only.
- Dates, descriptions and table layout of the sorter; reading its input file.
- VmKernel.Kernel.HandlePagefault: reports a refused access; the exit of the process that follows is a separate operation of the runs.
- VmKernel.Kernel.Put: a dying shadow counts as dead from the start of its two nested puts, so that their effect can be stated on a table with exact counts; no other code runs in between.
- VmKernel.Kernel.VmmapClone: links of the area list are positions in a sequence; saving the successor before the loop body becomes the index of the next area.
- VmKernel.Kernel.VmmapMap: with no start given the map must not be empty, because the search reads the head and the tail of the list unconditionally.
- VmKernel.Kernel.DoBrk: for an address within the limits an area must cover the page of the start break, which the code dereferences without a test.
- VmKernel.Kernel.VmmapDestroy: the model also drops the page table, which `vmmap_destroy` leaves to the rest of the process's teardown; no user access comes in between.
- Mappings.DestroyEmpties: as for `VmKernel.Kernel.VmmapDestroy`.
- VmKernel.Kernel.PframeFree: the code also takes the frame out of the page tables that map it; the model does not, and `Isolation.EntriesInEveryRun` shows that no entry designates a freed frame.
- FrameCache.AllocatedOk: the reference taken on the object and its page count are not in the cache; `FrameLink.AllocAgrees` has both sides.
- FrameCache.FreedOk: the reference put back on the object is not in the cache; `FrameLink.FreeAgrees` and `VmKernel.Kernel.PframeFree` have it.
- FrameCache.FrameTable.Alloc: as for `FrameCache.AllocatedOk`.
- FrameCache.FrameTable.Free: as for `FrameCache.FreedOk`.
- SchedKernel.Scheduler.Switch: the wait for an interrupt while the run queue is empty is left to interrupt steps between the steps of a run.
- SchedKernel.Scheduler.KtqueueRemove: unlinking a thread is erasing it from a sequence; the links themselves are not modelled here (they are in `List402`).
- TokenEmulator.Emulator.ServerRuns: the service time after the unlock touches no shared state and is not a step.
- Fairness of the operating system's lock and thread scheduling in the emulator: results about waiting count token arrivals or rounds in which each thread gets a turn, not time.
- Money.TransferFormat: the comparison with the limit is on integers; the code compares with a double, which represents all integers of the range exactly enough to decide it alike.
