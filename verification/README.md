# Verification of the STM and its garbage collector

This project models the hardest parts of the software transactional memory kept in
this repository (the c7 library with its garbage collector, and the timestamp commit of
the older c4 library) and proves what they are for. `dafny verify dfyconfig.toml` checks
all of it. Loops, array updates and pointer surgery of the C code are methods over
arrays and fields, each proved against a function or predicate on values; protocols in
which threads interleave are machines of small steps, and their theorems hold for every
run, of any length, with any number of threads. Memory is sequentially consistent, and
code under the global mutex is cut at every `cond_wait`.

## The parts

**The transaction protocol** (`core.c`, `sync.c`, `contention.c`, `pages.c` of c7).
`History` says what it means to run a log of loads and stores alone. `Views` is memory:
one copy of the bytes per segment, private and shared pages, byte locks, read markers
with a version that wraps at 255. `Protocol` is the machine: starting, read and write
barriers, safe points, stopping the world, contention management, killing a suspended
transaction on its behalf, commit and abort. A failed assertion or a call of
`stm_fatalerror` is the outcome `None` of a step. `ProtocolSafety` has the invariant and
that every step keeps it; `ProtocolTheorems` and `ProtocolFindings` have the results.
`Segments` is the same memory in place: the loops that push, reset, privatize and re-share
bytes and pages, each equal to its function in `Views`.

**Card marking** (`Cards`, `Barriers`): which bytes of a large object the two write
barriers let a program change, and which the card-wise commit copies. `CardCommits` is the
protocol machine with the barriers and the card-wise commit in it, `CardFindings` two runs
of it.

**The large-block allocator** (`largemalloc.c`). `Bins` and `LargeHeap` say what the chunks,
boundary tags and bins mean; `BinLinks` and `BinLists` are the `d` and `u` lists with all
their relinking; `LargeMalloc` is the arena: headers and links rewritten in place.
`Pages` and `Accounts` put it together with the private pages over the one counter
`total_allocated`.

**Garbage collection.** `Nursery`: allocation, both write barriers, stores, shadows and the
minor collection of one segment (`nursery.c`). `Collection` (with `Graphs`): the major
collection over several versions of the objects, and the order of finalizers
(`gcpage.c`, `finalizer.c`).

**The hashtable** (`hashtable.c`). `Probing` is the arithmetic of the probe sequence,
`Hashtable` the table in place, `HashtableRaces` lookups that race with each other and
with rehashing, word by word.

**The trie** (`list.[ch]` of c7 and `lists.[ch]` of c4, which differ in the hash: `Scheme`).
`TrieKeys` has the digits of a key, `Trie` the tree as a value, `TrieOrder` the traversal,
`TrieTables` the structure in place with its buffer that grows.

**The timestamp commit** (`et.c` of c4): `Timestamps` is the machine, `TimestampSafety`,
`TimestampSteps` and `TimestampCommit` its invariant, `TimestampTheorems` the results.

## Model

| member | source | states |
|---|---|---|
| ProtocolTheorems.Serializability | c7/stm/core.c:761-887 | in every state of every run from setup, the logs of the committed transactions, run one at a time in commit order, lead from the first memory to the committed one with every load returning what it returned, and the log of each live transaction, run alone on the committed memory, gives exactly what its segment sees |
| ProtocolTheorems.CommitReadsCurrent | c7/stm/core.c:416-461 | when the read markers show no conflict, every value the committer loaded before storing there itself is still the committed one |
| ProtocolTheorems.ViewAgreement | c7/stm/core.c:113-163 | in every run, a segment sees the committed bytes of all objects it is not modifying, and the lock of an object names a segment exactly if that segment lists the object as modified |
| ProtocolTheorems.NeverFatal | c7/stm/sync.c:285-356 | no run meets a failed assertion of the modelled code, in particular a running thread without a signal while the others are counted |
| ProtocolTheorems.MarkersTellExactly | c7/stmgc.h:32-42 | "the marker equals the version exactly for the objects read in this transaction" holds if and only if the transaction has changed its version already or nothing was marked under the old one |
| ProtocolTheorems.StaleMarkers | c7/stm/core.c:351-366 | in every run, from the end of a transaction until the next one on that segment changes the version, the objects whose marker equals the version are exactly those that the one before has read, so the promise is kept exactly if it has read nothing (see Findings) |
| ProtocolFindings.AbortedForNothing | c7/stm/core.c:351-366 | a run in which a committer meets the stale marker of a transaction that has read nothing, and kills it |
| ProtocolTheorems.WorldIsStopped | c7/stm/sync.c:358-410 | once synchronize_all_threads has returned, no other thread is running until the mutex is given back; while a transaction is globally unique, no other one runs its program |
| ProtocolTheorems.RunningWhileUnique | c7/stm/core.c:329-354 | while a transaction is globally unique, another thread is SP_RUNNING exactly as long as it holds the mutex |
| ProtocolTheorems.StartWhileUnique | c7/stm/core.c:329-354 | whoever starts while a transaction is globally unique becomes SP_RUNNING (see Findings) |
| ProtocolFindings.StartedWhileUnique | c7/stm/core.c:1127-1135 | a run from setup that reaches such a state |
| ProtocolTheorems.UniqueUntilCommit | c7/stm/sync.c:403-410 | being globally unique ends only with the commit of that inevitable transaction |
| ProtocolTheorems.InevitableSafe | c7/stm/core.c:1106-1125 | there is at most one inevitable transaction, and it is never told to abort |
| ProtocolTheorems.HighestSpared | c7/stm/contention.c:117-286 | whatever step any thread makes, the transaction that is inevitable, or else started first, of all that were not told to abort is not aborted, except by its own program |
| ProtocolTheorems.KilledNeverRuns | c7/stm/core.c:950-1036 | a transaction that another thread reset on its behalf never runs its program again: all it does is wake up, see the signal and abort |
| ProtocolTheorems.NoWaitCycle | c7/stm/contention.c:162-194 | no chain of transactions that wait for each other to end comes back to its beginning |
| ProtocolTheorems.SleeperWillBeWoken | c7/stm/core.c:789-808 | what a sleeper waits for is still going on and has signal_when_done set, and when it ends the sleeper waits no more |
| Views.PushKeeps | c7/stm/core.c:761-787 | pushing without a read conflict keeps the whole memory invariant, with the logs of all other transactions still replaying to their views |
| Views.ResetKeeps | c7/stm/core.c:896-948 | resetting keeps the memory invariant, gives the segment the committed view and changes no other view |
| Views.PrivatizeKeeps | c7/stm/pages.c:116-150 | privatizing a page that holds any number of objects changes no view |
| Views.ReshareKeeps | c7/stm/gcpage.c:265-320 | re-sharing every page without modified objects changes no view |
| Views.NewVersionKeeps | c7/stm/core.c:307-327 | a new read version, also across the wrap-around, leaves no object marked as read |
| Segments.SegmentMemory.PushModified | c7/stm/core.c:761-787 | the loop over the modified objects unlocks them, clears their cards and copies exactly the bytes that the cards name to the shared page and to each private copy; the result is Views.Push exactly if the bytes not copied agreed already (that cards are clear or old, which the code asserts, follows for every history: Barriers.CopiesWhatChanged) |
| Segments.SegmentMemory.ResetModified | c7/stm/core.c:896-948 | the loop that pops, fetches, clears cards and unlocks has exactly the effect of Views.Reset |
| Segments.SegmentMemory.SynchronizeObject | c7/stm/core.c:726-748 | what is copied where, for all mark patterns; and that it is as good as copying the object exactly if the others agree on the rest |
| Segments.SegmentMemory.CardWiseSynchronize | c7/stm/core.c:594-723 | merging stretches of marked cards, the cut-off last card and both fallbacks copy exactly the bytes of Cards.Copied, and leave all cards clear |
| Segments.SegmentMemory.PageWiseSynchronize | c7/stm/core.c:518-581 | cutting an object into pages copies each byte to the shared page and to each private copy elsewhere, and nothing else |
| Segments.SegmentMemory.DetectConflict | c7/stm/core.c:416-461 | returns a running segment whose marker for a modified object equals its version, or 0 exactly if there is none |
| Segments.SegmentMemory.NextVersion | c7/stm/core.c:351-366 | one byte of version with its wrap-around and the wiping of all markers is Views.NewVersion |
| Segments.SegmentMemory.WriteLock | c7/stm/core.c:78-187 | marks the object read, and if it was free locks, lists and privatizes all its pages: Views.TakeLock and then Views.Privatize for each page |
| Segments.SegmentMemory.MajorReshare | c7/stm/gcpage.c:248-320 | hiding bits, sharing the rest and restoring them leaves private exactly the pages with modified objects, and takes 4096 off the counter for each page that went |
| CardCommits.CardSerializability | c7/stm/core.c:594-787 | serializability of every run with write barriers, minor and major collections and commits that copy by cards, as long as no commit finds an object that passed the full barrier without cards set, has a marked card as well, and does not look fully marked |
| CardCommits.StepRefines | c7/stm/core.c:726-787 | under that condition each step of this machine is a step of the protocol machine or changes nothing there, and keeps the invariant: stores go only to bytes that a barrier allowed |
| CardCommits.CommitIsPushExactly | c7/stm/core.c:594-723 | a commit by cards has the effect of the commit of whole objects if and only if each byte it leaves out is the committed one |
| CardCommits.CommitSerialExactly | c7/stm/core.c:761-787 | after a commit by cards, the committed transactions run one at a time still make the committed memory if and only if each byte it left out was the committed one |
| CardFindings.LosesStore | c7/stm/core.c:594-723 | a run from setup after which memory lacks a store of the one committed transaction (see Findings) |
| Cards.MajorFailsExactly | c7/stm/gcpage.c:512-525 | after any such sequence, the assertion of a major collection fails if and only if the object is listed for its cards and its write barrier flag is off |
| CardCommits.CardFailsExactly | c7/stm/gcpage.c:512-525 | the only assertion that can fail is one of the major collection, and it does if and only if a segment that has nothing young marked a card of an object and then passed the full barrier |
| CardFindings.MajorFails | c7/stm/gcpage.c:512-525 | a run of two segments from setup that ends so (see Findings) |
| Cards.CommitCopiesAll | c7/stm/core.c:594-723 | for any sequence of full barriers, card barriers, minor and major collections: the commit copies every byte that may have changed if and only if it is not so that the object passed the full barrier without cards set, has a marked card as well, and does not look fully marked |
| Cards.LosesChanges | c7/stm/core.c:189-214 | full barrier, minor collection, one card barrier: the commit copies one card only (see Findings) |
| Barriers.HonestExactly | c7/stm/core.c:257-305 | the same for the copies of the segments: for every content the program may have produced, copying by cards is as good as copying the object, under exactly that condition |
| Pages.PagesCtl.Increment | c7/stm/pages.c:27-36 | the counter moves by the amount, and a major collection is requested if the bound is reached |
| Accounts.System.Perform | c7/stm/pages.c:116-177 | each of malloc, free, sweep, shrink, write barrier, abort and re-sharing keeps total_allocated equal to the sizes plus overhead of the used chunks plus 4096 for each private page of each segment, and the used chunks are exactly the blocks handed out |
| Accounts.System.Run | c7/stm/pages.c:27-36 | so it is after any sequence of such calls, from a start with counter 0 |
| LargeMalloc.Arena.Malloc | c7/stm/largemalloc.c:270-361 | takes a free chunk of the smallest size that fits in the whole arena, at most 48 bytes larger than asked for, or returns nothing exactly if none fits; tiling, tags, bins and their links are right again |
| LargeMalloc.Arena.FindFit | c7/stm/largemalloc.c:281-315 | walking the d list of the right bin from its end, then the first bin that is not empty, finds a column all of whose chunks are best fits |
| LargeMalloc.Arena.Free | c7/stm/largemalloc.c:363-434 | merges with both neighbours by their tags: the chunk is used no more, a free one covers it, all other used chunks are untouched, and tiling, tags, bins and links are right again |
| LargeHeap.FreedOk | c7/stm/largemalloc.c:363-434 | on values: after both merges the chunks tile the arena, no two free ones are neighbours, every tag is right, each bin holds exactly its free chunks, and the weight drops by that of the chunk |
| LargeMalloc.Arena.Sweep | c7/stm/largemalloc.c:594-624 | frees exactly the used chunks not to be kept, although freeing merges chunks under the loop |
| LargeMalloc.Arena.Resize | c7/stm/largemalloc.c:522-563 | shrinks exactly if the end of the arena is free and large enough, and moves no used chunk |
| LargeMalloc.Arena.constructor | c7/stm/largemalloc.c:495-520 | one free chunk, the end marker and 84 empty circular lists satisfy all invariants |
| BinLists.Lists.Unlink | c7/stm/largemalloc.c:241-268 | each of the three cases of unlink_chunk relinks the neighbours so that the lists hold the bin without the chunk, and no other bin is touched |
| BinLists.Lists.Insert | c7/stm/largemalloc.c:128-139 | the chunk comes last in its circular list, marked UU_UNSORTED |
| BinLists.Lists.SortBin | c7/stm/largemalloc.c:155-239 | cutting the tail off, sorting it and merging it by relinking leaves strictly decreasing columns of equal sizes, with the same chunks, and no tail |
| BinLists.Lists.MergeRound | c7/stm/largemalloc.c:200-231 | one round of the merge loop: a new column before the cursor, a chunk above the bottom of the column, or a step forward |
| BinLists.Lists.Grab | c7/stm/largemalloc.c:317-334 | the fast path takes the chunk above and leaves the d list alone; otherwise unlink_chunk |
| Nursery.NurserySegment.Collect | c7/stm/nursery.c:517-597 | a minor collection at any moment: exactly the young objects that can be reached survive, each once, with its data and with its references leading to the new places, at its shadow if it has one; old objects stay; nothing refers to the nursery; and the invariant of the program holds again |
| Nursery.NurserySegment.MinorCollection | c7/stm/nursery.c:358-420 | the same for the collection proper, from whatever is remembered or carded, with or without the list of remembered objects |
| Nursery.ReadyAlways | c7/stm/core.c:189-214 | the invariant kept by allocation, barriers, stores and collections is what a collection needs: each old object with a young reference is remembered, or a marked card covers the reference |
| Nursery.NurserySegment.WriteBarrier | c7/stm/core.c:189-214 | keeps that invariant, drops the flag and the cards, and remembers the object in the right list |
| Nursery.NurserySegment.WriteCard | c7/stm/core.c:257-305 | keeps it, and marks the card of the reference or falls back to the full barrier |
| Nursery.NurserySegment.Store | c7/stm/nursery.c:338-356 | a store after either barrier keeps it |
| Nursery.NurserySegment.FindShadow | c7/stm/nursery.c:736-792 | an address outside the nursery, always the same one, where the object will be after the collection |
| Nursery.NurserySegment.EndTransaction | c7/stm/core.c:789-808 | after a collection the lists can go: no old object is without the flag |
| Collection.Collector.MajorCollection | c7/stm/gcpage.c:613-660 | what is kept is exactly what can be reached from a root or a modified object in any view, or from an object with a finalizer; finalizers are ordered; all write locks are as before |
| Collection.Collector.Mark | c7/stm/gcpage.c:326-444 | marking reaches exactly the union of all views, although unmodified objects are traced in one segment and modified ones in the shared and the private version |
| Collection.Collector.MarkedInEveryView | c7/stm/gcpage.c:384-444 | whatever one segment can reach in its own view from a root it sees is reached by that marking, and visible to it |
| Collection.Collector.DealWithFinalizers | c7/stm/finalizer.c:282-390 | only dead objects are queued, none that another dead object with a finalizer needs unless they need each other, at least one if any is dead; everything such objects need ends up visited, and no intermediate state is left |
| Collection.Collector.RestoreLocks | c7/stm/gcpage.c:595-611 | the locks are exactly those from before the marks |
| Probing.EverySlotProbed | c7/stm/hashtable.c:117-138 | for any 64-bit key the perturbed probe sequence comes to every slot of a table of 2^k slots, within its size plus 13 steps |
| Hashtable.RoomIsFree | c7/stm/hashtable.c:72-77 | the resize counter being odd and positive means that a slot is free |
| Hashtable.Hashtable.Lookup | c7/stm/hashtable.c:186-318 | without other threads: an existing entry is returned and nothing changes, a missing one is added; the table grows as needed and loses nothing |
| Hashtable.Hashtable.Compact | c7/stm/hashtable.c:341-380 | drops exactly the removable entries, never grows, and only after enough additions |
| HashtableRaces.StoredOnceAndFindable | c7/stm/hashtable.c:140-184 | in every interleaving, no table has two entries for a key, and the probe loop finds whatever is stored |
| HashtableRaces.LookupAnswers | c7/stm/hashtable.c:186-318 | when a lookup returns, whatever others did meanwhile, its answer is an entry of its key that is in the table |
| HashtableRaces.SameAnswer | c7/stm/hashtable.c:186-318 | all lookups of a key, however they race with each other and with rehashing, return the same entry |
| HashtableRaces.StoredStays | c7/stm/hashtable.c:140-184 | no step loses an entry; a compaction loses removable ones only |
| HashtableRaces.NeverFails | c7/stm/hashtable.c:195-251 | no assertion fails and no access is out of bounds, in any interleaving |
| HashtableRaces.OneHolder | c7/stm/hashtable.c:222-251 | the one word that is counter, lock and pointer admits one holder |
| HashtableRaces.SearchIsShort | c7/stm/hashtable.c:195-221 | a search ends within the table size plus 13 steps although others insert and rehash meanwhile |
| TrieKeys.DigitsDiffer | c7/stm/list.h:119-127 | different non-zero 8-aligned addresses differ in one of sixteen digits, with the hash of c7 (x ^ x << 4) and without it, as in c4 |
| TrieTables.TreeS.Find | c7/stm/list.c:91-100 | finds a key exactly if the map has it, with its value |
| TrieTables.TreeS.Insert | c7/stm/list.c:137-184 | the retry loop ends, and the map has the new key; slots of deleted items are used again |
| TrieTables.TreeS.Grow | c7/stm/list.c:102-123 | every insertion into the new tree succeeds at the first attempt, and the map and the space used do not grow |
| TrieTables.NeverLarger | c7/stm/list.c:102-123 | a tree built only by insertions from a set of keys takes no more space than any tree that holds them all, whatever its history |
| TrieTables.TreeS.DeleteItem | c7/stm/list.c:186-195 | removes the key from the map, and says whether it was there |
| TrieTables.TreeS.Compress | c7/stm/list.c:76-89 | rebuilding from nothing keeps the map |
| TrieTables.TreeS.Loop | c7/stm/list.h:153-204 | the traversal with its explicit stack meets the items in the order of TrieOrder.Items |
| TrieOrder.SameOrder | c4/lists.h:48-96 | two tries that hold the same two keys visit them in the same order, whatever their histories |
| TrieOrder.LoopMeetsInOrder | c4/lists.h:48-96 | a loop meets each key of the map once, in the one order given by the digits |
| TimestampTheorems.Serializability | c4/et.c:1457-1516 | in every run, each committed transaction read exactly the values that the commits with earlier times, in the order of time, leave |
| TimestampTheorems.SnapshotConsistent | c4/et.c:789-892 | in every run, whatever a live transaction has read is the value at its start time, also after the start time was moved forward, and also half way through a validation for what was checked |
| TimestampTheorems.MemoryIsLatest | c4/et.c:1265-1350 | an unlocked version that is not replaced has the latest committed value |
| TimestampTheorems.OneInevitable | c4/et.c:1560-1604 | there is at most one inevitable transaction, and the time stands still at its start plus one |
| TimestampTheorems.InevitableNeverAborts | c4/et.c:1577-1604 | an inevitable transaction never aborts, fails a validation or a lock, or meets a version that is too recent |
| TimestampTheorems.LocksArePrefix | c4/et.c:1137-1183 | the locks held are those of a stretch of the write list in the order of the loop, from its beginning until some are released |
| TimestampTheorems.CancelRestores | c4/et.c:1185-1221 | after CancelLocks, also of a partial acquisition, each version of the write list that was not replaced has its own revision or somebody else's lock |
| TimestampTheorems.NoDeadlock | c4/et.c:1137-1183 | no chain of threads that spin on locks or wait for the mutex comes back to its beginning |
| TimestampTheorems.SomebodyMoves | c4/et.c:1137-1221 | with memory left for new versions, if some thread is in a transaction then one that is can make a step |

## Findings

Three promises of the comments and one assertion are not kept by the code as it is. Each
has a run or an input that shows it, and the exact condition under which it is kept.

- **Stale read markers.** `stmgc.h` says that a marker equals the version if and only if the
  object was read in the current transaction. Between the start of a transaction and the
  change of its version, the markers of the transaction before on that segment still equal
  it. They are exactly those of what that one has read, so the promise is kept exactly if
  it has read nothing (`StaleMarkers`, `MarkersTellExactly`); `AbortedForNothing` is a run
  with three segments in which a transaction that has read nothing is aborted for it.
  Nothing wrong is committed (`Serializability`).
- **Running while another transaction is globally unique.** "No other segment is
  SP_RUNNING until it commits" fails with every start, and with every wake-up from a
  `cond_wait`, as `safe_point` is set before signals are looked at (`StartedWhileUnique`).
  It holds exactly for those that do not hold the mutex (`RunningWhileUnique`), and no
  other transaction runs its program (`WorldIsStopped`).
- **Changes lost by the card-wise commit.** An object that passes the full write barrier
  without cards set may change anywhere, but its cards stay clear. If a minor collection
  follows, and then a card barrier, the commit copies the marked cards only; the other
  changes stay in the private pages. `LosesStore` is a run after which memory lacks a
  committed store. `CommitCopiesAll` and `HonestExactly` have the condition on the history
  of the object, and `CommitSerialExactly` the one on the bytes. `Serializability` is about
  commits that copy whole objects; `CardSerializability` about those that copy by cards,
  under the condition. A debug build compares the copies after copying, and stops.
- **Cards and the full barrier before a major collection.** The full barrier takes
  `CARDS_SET` off an object that had a card marked, but leaves it in
  `old_objects_with_cards`. A minor collection allows for that; a major collection that
  finds nothing young in the segment asserts the flag for everything listed
  (`CardFailsExactly`, `MajorFails`).

## Left out

- ProtocolTheorems.Serializability: its commits copy whole objects; CardCommits.CardSerializability is about those that copy by cards.
- LargeMalloc.Arena.Resize: not the branch that lets the arena grow, which frees a chunk that was never counted.
- TimestampTheorems.SomebodyMoves: does not say that every thread goes on in the end, as spinning threads are not scheduled fairly.
- Objects made by a transaction (young and overflow objects), finalizers and the major collection are not in the protocol machine; they are in `Nursery` and `Collection`, for one segment or with the world stopped.
- The copying of large and overflow objects to other segments during the minor collection of a commit.
- The memory of a shadow whose object died stays allocated until the next major collection; `Nursery` drops it at once.
- `Nursery` does not keep apart cards that are clear and cards that are old, which only the commit does (`Cards`).
- Weak references, light finalizers, bags and user callbacks.
- Objects without items in the card code: `size - 1` underflows there.
- Malloc failure and the locks around the allocator, which run its calls one at a time.
- `qsort` is an insertion sort, and the array of chunks to sort is a sequence.
- The branch of the hashtable lookup for tables in the nursery, which may collect while it holds the lock, and the freeing of old tables.
- Small uniform pages, which are stubs that abort, and `TREE_LOOP_BACKWARD`.
- `CardCommits` does not follow the nurseries: whether a segment has anything young, and whether it had a minor collection before, may be either way in a major collection.
- Stealing, stubs, backup copies, private copies of protected objects and new objects in the c4 transactions; commits that stay inevitable; transactions run with all other threads stopped; the delayed abort inside `inev_mutex_acquire`. Setting the time and freeing the mutex are one step there, and so are the making and the publishing of a new version.
- `mmap`, `%gs`, `setjmp`, signals, machine-stack copying, timing events and debug printing; the pages that alias segment 0 are modelled as such.
- Weak memory ordering, and fairness of spin locks and condition variables.
