# Verified model of the Argennon block validator

Argennon validates a block of smart-contract requests by running them in parallel along a dependency graph that the
block proposer supplies. The validator first checks that the graph orders every two requests whose declared memory
accesses collide, then lets workers execute the requests as their predecessors finish. A request runs over a versioned
view of the heap, may call other applications under a gas limit and reentrancy locks, and writes its changes back at
the end.

The project models this in Dafny and proves what each part promises and what the parts promise together:

* **A block whose access maps pass the collision check can be executed by any number of workers with the result of the
  serial execution** (`BlockValidation`), from the declarations to the heap, resizes of chunks included. The parts are
  the merge of the access maps, the verifier, the protocol and commutation of effects.
* **The collision verifier** (`CollisionVerifier`, `CollisionSweep`, `SweepSoundness`, `SweepCompleteness`,
  `SweepLoss`, `SweepDemand`, `SweepEconomy`, `Resizing`): the sweep over sorted blocks, which merges clusters and splits blocks in
  place, asks for few edges, and still covers by paths all pairs that the quadratic check enumerates, unless a split
  drops a member that reaches past the cut. `SweepDemand` says exactly for which declared blocks acceptance is sound and
  for which it is complete, and there is a concrete block list for either failure. `SweepEconomy` says how few edges it
  asks for.
* **The execution protocol** (`Scheduler`, `SchedulerInvariant`, `SchedulerRuns`): atomic steps of N workers over the
  queue with its producer count; safety, termination, and the exact outcome of every run, with or without throwing
  workers.
* **Parallel equals serial** (`SerialOrder`, `WriteBacks`, `Effects`, `ParallelExecution`).
* **The versioned heap view** (`Versions`, `Transactions`, `AccessBlocks`, `BlockUse`, `HeapModifier`, `Additive`,
  `ChunkMemory`, `Chunks`): version lists with lazy rollback refine a stack of full snapshots exactly when every save is clean; calls
  are transactions exactly then, too; additive cells end up with the sum of the surviving amounts of all requests;
  chunks stay within their allocation and zero behind their end.
* **The call machinery** (`CallStack`, `Sessions`, `VersionLimit`): gas, call depth, rollback and reentrancy locks over
  arbitrary application behaviour.
* **Encodings** (`AccessMaps`, `PrefixTries`, `PrefixReaders`, `Identifiers`, `Base64Url`).

`Access`, `Dag`, `Clusters`, `Bytes`, `Arithmetic` and `Options` hold what the others share. `dafny verify
dfyconfig.toml` checks the whole project.

## How the source is rendered

* Objects that the source updates in place are classes: access blocks, the heap modifier, chunks, chunk infos and the
  session of a request. Their methods are proved against functions on values, and the laws are proved about those.
* Loops are methods with loops. Clusters and the three vectors of the sweep are local values that the methods
  reassign, because the source copies or moves them by value and nothing else refers to them.
* Concurrency is a state machine over atomic steps: one acquisition of the queue's mutex, one atomic counter update, or
  one byte or size looked at, or one block or size written back, by a running request is one step.
* An exception is a result. `registerDependency` and `registerAdjacency` throw for a missing edge; the checks return
  whether all edges were there. `assert` becomes a precondition or a proved fact; the assertion that a request is never
  paired with itself is rendered as a missing edge, so a block list that breaks it is refused.
* Application code is foreign: a request is any deterministic program of bounded length over its reads
  (`SerialOrder.Request`), and in the call machinery any tree of calls, locks and failures (`CallStack.Program`).
  A signal or any other abnormal end of an application is the program `Fail`.
* The heap location of an access block is a place in the content of its chunk. Chunks are only reallocated at the
  start and at the end of the validation of a block, so the allocation is fixed while blocks exist.
* In the parallel execution a resizer that leaves the size as it is has no effect, and what a request learns from
  `isValid` of a non-empty part is the extent of the block in its chunk. A size block at -1 resizes if it is writable,
  and one at -2 or -1 shows the size if it is readable, as `docs/specs.md:104-114` demands of declarations.
* The size of a chunk in `Chunks` is one unit of a version's content where the source has four bytes.

Where the code and what is said about it differ, the model follows the code:

* A split gives the tail of a block an empty cluster, so members that reach past the cut are no longer known there, and
  a list can be accepted although two colliding requests are not ordered (`SweepLoss.AcceptedButNotCovered`). What the
  sweep asks for does not depend on the graph. Acceptance therefore is sound exactly when the edges it asks for cover
  all colliding pairs (`SweepDemand.SoundIffAsksEnough`); a run without loss (`CollisionSweep.Lossless`) and
  `SweepLoss.EvenTriples`, which looks at the declared blocks only, imply this.
* The sweep takes the declared size of a size block for a range of bytes when it cuts it, and then asks for edges between
  requests that do not collide (`SweepDemand.DirectButRejected`). Direct edges suffice exactly when every edge it asks
  for joins a colliding pair (`SweepDemand.CompleteIffAsksPairs`); they do where no size block is cut.
* A worker whose request throws never removes its producer, so the workers that did not throw wait for ever
  (`SchedulerRuns.EndsIffNobodyThrew`).
* The size test reports expanders that cannot resize at all (`Resizing.IdleExpanderIsReported`) and misses some queries
  for zero bytes; `Resizing.ResizeCollisionExact` and `Resizing.EmptyPartMayChange` say exactly which.
* `restoreVersion` leaves newer entries in place and version numbers are reused, so an undone write can return, and a
  call after a failed call can find what the failed call wrote; `Versions` and `Transactions` give the exact condition.
* The constructor of a resource handler can throw at the version limit after it registered itself;
  `Sessions.Session.OpenHandler` says exactly when, `Sessions.ExecuteOne` how much gas excludes it, and
  `VersionLimit.LimitIsReached` that it is reached.
* The base64url decoder accepts texts that no encoder produces (`Base64Url.EncodingsAreCanonical`).
* The test of a shrinker's bound in `src/storage/ChunkIndex.cpp:75-87` looks at the bound after its sign was flipped, so
  a shrinker whose bound lies between 0 and the lower bound is accepted against `docs/specs.md:124`, and the size test
  then misses it (`Resizing.ShrinkerIsMissed`). `Resizing.AcceptedOutOfBounds` and `Resizing.UnreportedIffOutOfBounds`
  say that these are all; the end-to-end theorem excludes exactly them (`BlockValidation.ShrinksTooFar`).
* The running sum in the constructor of a prefix trie can overflow (`PrefixTries.OnlyTheLastSumOverflows`).

## Model

| member | source | states |
|---|---|---|
| `Access.CollidesIsConflict` | include/core/info.h:85-114 | `collides` holds exactly when the two access types permit, by `denies`, two operations that touch memory and one of which modifies it; it is symmetric |
| `Access.PermittedOperations` | include/core/info.h:86-100 | which of check, read, write and add each of the four access types permits |
| `Clusters.MergeInsert` | src/util/OrderedStaticMap.hpp:199-210 | the in-place loop over the two sorted vectors ends with the sorted merge of both |
| `Clusters.MergeSortedMembers` | src/util/OrderedStaticMap.hpp:199-210 | merging keeps every member with its multiplicity, so it is a permutation of both inputs |
| `Clusters.MergePrefixesSorted` | src/util/OrderedStaticMap.hpp:199-210 | merging sorted vectors gives a sorted vector |
| `Clusters.ChainIsClique` | src/validator/RequestScheduler.h:90-105 | checking only the edges between neighbours of a sorted writable cluster leaves any two members ordered by a path |
| `Clusters.DependencyLinks` | src/validator/RequestScheduler.h:107-136 | an accepted `addDependency(u)` leaves every member of the cluster joined with u by a path from the smaller to the greater identifier, although a clique is asked for two edges only |
| `Clusters.LifeLinks` | src/validator/RequestScheduler.h:70-136 | however insertions, merges and dependencies follow each other, on clusters that flow into one that finalizes: if nothing throws, that one is a clique if it is writable, and every request that a dependency was added for, on whichever of the clusters, is joined with every member the cluster had at that time |
| `CollisionSweep.NextOrdered` | src/validator/RequestScheduler.h:194-238 | after a merge or a split the offsets are still sorted |
| `CollisionSweep.NextShrinks` | src/validator/RequestScheduler.h:194-238 | a merge or a split keeps the total size of all blocks behind the one merged, so that with `--i` the measure (total size, number of blocks) decreases and the sweep ends |
| `CollisionSweep.NextKeepsBytes` | src/validator/RequestScheduler.h:213-234 | a merge or a split keeps, for every request, access type and byte, how often the byte occurs among the blocks still to be visited: only the bytes of the block just merged are gone |
| `CollisionVerifier.SplitAt` | src/validator/RequestScheduler.h:216-231 | the in-place shifting of the three vectors puts every block at the place and with the size that the split demands, within bounds |
| `CollisionVerifier.Examine` | src/validator/RequestScheduler.h:204-212 | the inner loop asks for exactly the dependencies on the colliding blocks that start inside and cannot absorb the current one, and stops at the first that can |
| `CollisionVerifier.TakeOver` | src/validator/RequestScheduler.h:213-234 | merging and splitting in place are one step of the sweep on the remaining list |
| `CollisionVerifier.FindCollisionCliques` | src/validator/RequestScheduler.h:190-239 | the loop with in-place updates and a decremented index accepts exactly when the sweep on lists accepts |
| `SweepSoundness.SweepSound` | src/validator/RequestScheduler.h:190-239 | an accepted run in which no split drops a reaching member settles every conflict of its list by paths and leaves every writable cluster a clique (size blocks included) |
| `SweepSoundness.AcceptedIsCovered` | src/validator/RequestScheduler.h:190-239 | if the sweep accepts without loss, every pair that the quadratic check enumerates is joined by a directed path; the exact condition is `SweepDemand.SoundIffAsksEnough` |
| `SweepCompleteness.DirectIsAccepted` | src/validator/RequestScheduler.h:190-239 | if every colliding pair has its own edge, the sweep accepts, size blocks included, unless a size block is cut: it then never asks for an edge between requests that do not collide; the exact condition is `SweepDemand.CompleteIffAsksPairs` |
| `SweepLoss.EvenTriplesLossless` | src/validator/RequestScheduler.h:213-234 | a condition on the declared blocks alone, checkable before the call and met by lists with size blocks, too, under which no split loses a member: any three mutually overlapping blocks of one kind end together |
| `SweepLoss.AcceptedButNotCovered` | src/validator/RequestScheduler.h:230-230 | a concrete block list and graph that the sweep accepts although requests 0 and 2 both write byte 4 and no path joins them |
| `SweepDemand.AcceptsIffAsked` | src/validator/RequestScheduler.h:190-239 | which edges the sweep asks for depends on the declared blocks alone; a graph is accepted if and only if it has all of them |
| `SweepDemand.SoundIffAsksEnough` | src/validator/RequestScheduler.h:190-239 | acceptance implies that all colliding pairs are joined by paths, for every graph, if and only if the edges asked for join them |
| `SweepDemand.AscendingSoundIff` | src/validator/RequestScheduler.h:190-239 | the same among graphs that obey the rule about identifiers: exactly when the edges asked for suffice or one of them breaks the rule, so that no such graph is accepted |
| `SweepDemand.LosslessAsksEnough` | src/validator/RequestScheduler.h:213-234 | a sweep that loses no member asks for enough |
| `SweepDemand.LossyDoesNotAskEnough` | src/validator/RequestScheduler.h:230-230 | the block list that loses a member does not |
| `SweepDemand.CompleteIffAsksPairs` | src/validator/RequestScheduler.h:190-239 | direct edges for all colliding pairs lead to acceptance, for every graph, if and only if every edge asked for joins a colliding pair |
| `SweepDemand.UncutAsksPairs` | src/validator/RequestScheduler.h:194-238 | this is so where no size block is cut |
| `SweepDemand.DirectButRejected` | src/validator/RequestScheduler.h:216-231 | two expanders and a reader of byte 0: every colliding pair has its edge, no resizing pair exists, and the sweep still rejects, because it cuts the second expander at 0 |
| `SweepEconomy.OneOffsetInput` | src/validator/RequestScheduler.h:190-239 | what the sweep asks for at one offset, exactly: whatever the order of the writers, a chain through their identifiers, for every reader and adder the edges to its two neighbours among the writers, and one edge for each reader with each adder |
| `SweepEconomy.MergesIntoTheFirst` | src/validator/RequestScheduler.h:204-214 | a block is merged into the first later block that starts inside it, is of its kind (an adder: is the same block) and does not end before it, and into none if there is no such block |
| `SweepEconomy.DependencyIsNeighbours` | src/validator/RequestScheduler.h:107-125 | a dependency on a clique is an edge from the last member that is not greater and one to the first that is |
| `SweepEconomy.SortedUnique` | src/util/OrderedStaticMap.hpp:199-210 | a sorted cluster is determined by its members, so the order of merges does not matter |
| `CollisionVerifier.FindCollisions` | src/validator/RequestScheduler.cpp:65-114 | the quadratic check with its running interval of size writers accepts exactly when no proposed bound is missing and every colliding pair and every resizing pair has an edge in one direction |
| `CollisionVerifier.CheckCollisions` | src/validator/RequestScheduler.h:275-290 | both passes together accept exactly when the graph has what the sweep asks for, no proposed bound is missing, and every resizing pair has its edge |
| `CollisionVerifier.PassedIsSound` | src/validator/RequestScheduler.h:275-290 | passing joins all resizing pairs by paths, and all pairs of the quadratic check if what is asked for is enough |
| `CollisionVerifier.PairedPasses` | src/validator/RequestScheduler.cpp:57-114 | an ascending graph that the quadratic check accepts passes, if blocks are not empty, those of one request are disjoint, and no size block is cut |
| `CollisionVerifier.EdgesForDisagreements` | src/validator/RequestScheduler.h:275-290 | if every two blocks of different requests that disagree (overlapping data of colliding types, the chunk size, or a resizer that may reach into or cut the other) have their edge, the check passes, for regular blocks |
| `CollisionVerifier.OneRequestPasses` | src/validator/RequestScheduler.h:265-269 | the blocks of one request pass with every graph, even if it resizes the chunk and writes to it |
| `CollisionVerifier.PassedOrdersDisagreements` | src/validator/RequestScheduler.h:275-290 | conversely, passing orders every two blocks that disagree by a path, if what is asked for is enough |
| `CollisionVerifier.PairedIffDisagreements` | src/validator/RequestScheduler.cpp:65-114 | the quadratic check demands exactly an edge for every two blocks that disagree |
| `CollisionVerifier.EvenTriplesAskEnough` | src/validator/RequestScheduler.h:213-234 | any three overlapping blocks of one kind end together: what is asked for is enough |
| `Resizing.FindResizingCollisions` | src/validator/RequestScheduler.h:241-273 | accepts exactly when no proposed bound is missing and every data block and size writer of two requests that the size test pairs have their edge |
| `Resizing.BoundIsNeeded` | src/validator/RequestScheduler.h:246-254 | a proposed bound is needed exactly if the chunk has both a resizer and a data block |
| `Resizing.UnpairedSeesNoResize` | src/validator/RequestScheduler.h:263-270 | over every sequence of permitted resizes `isValid` keeps its answer for a non-empty part of a block that the test pairs with none of the resizers, unless one of them undercuts the block |
| `Resizing.UnpairedIffNoneUndercuts` | src/validator/RequestScheduler.h:263-270 | of such a block, every request sees one answer throughout every run if and only if no shrinker's bound is below the end of the block while that end is not above the lower bound |
| `Resizing.UnreportedIffOutOfBounds` | src/validator/RequestScheduler.h:263-270 | a resizer can change the validity of a non-empty part of some block unreported if and only if it is a shrinker whose bound is below the lower bound |
| `Resizing.ShrinkerIsMissed` | src/storage/ChunkIndex.cpp:75-87 | such a shrinker is accepted: lower bound 5, a shrinker to 3, and the bytes [0, 4), which it may cut unreported |
| `Resizing.AcceptedBounds` | src/storage/ChunkIndex.cpp:75-87 | the acceptance test as written makes sure that the chunk is not smaller than its lower bound, and that a shrinker respects it exactly unless its bound lies between 0 and the lower bound |
| `Resizing.AcceptedDeclarations` | src/storage/ChunkIndex.cpp:75-87 | of a chunk within its bounds, exactly the expanders and shrinkers up to the upper bound are accepted, and a resizer to nothing only if the lower bound is zero |
| `Resizing.AcceptedOutOfBounds` | src/storage/ChunkIndex.cpp:75-87 | the declarations that break the rule and are accepted for some chunk are exactly those |
| `Resizing.ResizeCollisionExact` | src/validator/RequestScheduler.h:263-270 | for every declared bound: some permitted resize above the lower bound changes the validity of some non-empty part if and only if the size test reports a collision and the resizer is not an expander whose bound is at most the lower bound, or a shrinker undercuts the block |
| `Resizing.IdleExpanderIsReported` | src/validator/RequestScheduler.h:263-270 | such an expander is reported although it can change nothing |
| `Resizing.EmptyPartMayChange` | src/ascee/heap/RestrictedModifier.h:76-86 | for every declared bound: asking about zero bytes changes its answer unreported if and only if the bound of an expander is the offset of the block and above the lower bound, or the bound of a shrinker is below the offset of a block that ends at most at the lower bound |
| `AccessMaps.MergeOffsets` | src/util/OrderedStaticMap.hpp:98-128 | the loop on offset maps computes the stable merge by offset and block order |
| `AccessMaps.MergeApps` | src/util/OrderedStaticMap.hpp:98-128 | the nested loops compute the merge that unites equal applications and chunks |
| `AccessMaps.MergedAppsOrdered` | src/util/OrderedStaticMap.hpp:98-151 | merging ordered maps gives unique ascending applications, in each of them unique ascending chunks, in each of them blocks by offset and then by block order |
| `AccessMaps.MergedBlocksInOrder` | include/core/info.h:126-129 | in a merged list, at one offset, checkers come before writers, writers before readers, readers before adders, and requests ascend within a type |
| `AccessMaps.MergedAppsContents` | src/util/OrderedStaticMap.hpp:98-151 | the merged map holds exactly the (application, chunk, offset, block) declarations of both, with multiplicity |
| `AccessMaps.MergedIntervalIsOrderedPermutation` | src/util/OrderedStaticMap.hpp:155-173 | the same for any number of maps merged in halves |
| `AccessMaps.MergeAllParallel` | src/util/OrderedStaticMap.hpp:155-179 | for every worker count from 1 on the result is the same ordered permutation of all declarations |
| `AccessMaps.DeclarationIsListed` | src/validator/RequestProcessor.hpp:60-73 | whatever a request declares is in the ordered list of its application and chunk that the verifier gets |
| `AccessMaps.ListedIsDeclared` | src/util/OrderedStaticMap.hpp:155-179 | every entry of a merged list was declared by some request, for that application and chunk |
| `AccessMaps.OrderedIsInput` | src/validator/RequestScheduler.cpp:57-64 | such a list meets what the verifier demands of its input |
| `AccessMaps.Find` | src/util/OrderedStaticMap.hpp:56-66 | the binary search finds a position exactly when the key occurs |
| `Scheduler.FinalizeAll` | src/validator/RequestScheduler.cpp:148-153 | after all requests are finalized every in-degree is the number of predecessors |
| `Scheduler.BuildExecDag` | src/validator/RequestScheduler.cpp:133-142 | the ready queue starts with exactly the leading nodes without predecessors; the error is raised exactly when the first node has one or there is none |
| `SchedulerInvariant.InvInitial` | src/validator/RequestScheduler.cpp:133-142 | the start satisfies the invariant of the protocol |
| `SchedulerInvariant.InvStep` | src/validator/RequestScheduler.cpp:27-55 | every atomic step of every worker, throwing included, keeps the invariant: each in-degree counts the predecessors that have not decremented it, `producerCount` counts the requests in flight, each request is in at most one place |
| `SchedulerInvariant.DecrementIsSafe` | src/validator/RequestScheduler.cpp:45-51 | a node that is decremented is not reset, waits, and has a positive in-degree, so the assertion in `decrementInDegree` holds |
| `SchedulerInvariant.PredecessorsDone` | src/validator/RequestScheduler.cpp:45-51 | a request that left the blocked state was decremented by all its predecessors |
| `SchedulerRuns.HandedOutOnceInOrder` | src/validator/RequestScheduler.cpp:27-55 | in every run each request is handed out at most once, and only after everything that reaches it was executed |
| `SchedulerRuns.FirstReadyFirstOut` | src/util/BlockingQueue.hpp:33-58 | along every run, what was handed out followed by what waits only grows at its end: the queue is first in, first out |
| `SchedulerRuns.RunsAreBounded` | src/validator/RequestScheduler.cpp:27-55 | every run is at most as long as a budget fixed at the start, so every run ends |
| `SchedulerRuns.NoDeadlock` | src/util/BlockingQueue.hpp:30-72 | in a reachable state where nobody threw, if some worker has not left its loop some step is possible: never do all wait; what a throw does is `SchedulerRuns.EndsIffNobodyThrew` |
| `SchedulerRuns.UnderflowIsStable` | src/util/BlockingQueue.hpp:41-54 | once the queue is empty without producers it stays so, and `remaining` stays as it is |
| `SchedulerRuns.Outcome` | src/validator/RequestScheduler.cpp:27-55 | every finished run without exceptions executed all requests and every worker returned, if and only if the graph is acyclic and its sources are the first identifiers; otherwise every worker raised the error about the graph; there are runs only if `buildExecDag` does not throw |
| `SchedulerRuns.OnlyTheEmptyDoesNotStart` | src/validator/RequestScheduler.cpp:133-142 | of the graphs that can be executed to the end, `buildExecDag` throws for that of the empty block only |
| `SchedulerRuns.EndsIffNobodyThrew` | src/validator/RequestScheduler.cpp:27-55 | in every finished run all workers left their loop if and only if nobody threw; otherwise every worker that did not throw waits at an empty queue with a producer counted |
| `SchedulerRuns.ThrowBlocksTheOther` | src/util/BlockingQueue.hpp:41-54 | a run of two workers over one request in which the first throws and the second waits for ever |
| `SchedulerRuns.NoCycle` | src/validator/RequestScheduler.cpp:27-35 | a ranking of the nodes excludes cyclic paths |
| `Effects.EffectsCommute` | src/ascee/heap/RestrictedModifier.cpp:161-179 | write-backs to disjoint bytes commute, so do two additions to the same cell, and so do a write-back and a resize that spares its block: the block is behind all that is added, within all that is kept, or below the lower bound |
| `Effects.EffectKeeps` | src/ascee/heap/RestrictedModifier.cpp:69-89 | a write-back or resize keeps every byte, every size, and every extent of a block in its chunk that it does not affect |
| `Effects.NoConflictCommutes` | include/core/info.h:85-114 | effects permitted by two blocks that neither collide nor are paired by the size test commute, if shrinkers respect the lower bound |
| `Effects.LookerConflicts` | src/validator/RequestScheduler.h:263-270 | whoever may look at a byte, a size, or the validity of a non-empty part of a block collides with, or is paired with, every block through which it can be changed |
| `Effects.ExtentTellsValidity` | src/ascee/heap/RestrictedModifier.h:76-86 | `isValid` of a non-empty part answers by the extent of its block in the chunk |
| `Effects.WrittenIsSeen` | src/ascee/heap/RestrictedModifier.cpp:161-179 | whoever looks at a byte after a write-back sees the byte written, or the byte of the sum |
| `Effects.DeclaredIsPermitted` | include/core/info.h:85-114 | a readable block shows all its bytes, a writable one takes all of them, and an adder adds to all of them |
| `WriteBacks.InsertEffect` | src/validator/RequestProcessor.hpp:96-100 | an effect that commutes with what greater identifiers have written so far may be inserted at the place of its own request |
| `WriteBacks.FillUp` | src/validator/RequestProcessor.hpp:96-100 | what a request sees of a partly executed block is what it would see after all smaller identifiers, if the missing effects do not touch it |
| `ParallelExecution.ParallelEqualsSerial` | src/validator/RequestProcessor.hpp:75-109 | every complete run of any number of workers, look by look and effect by effect, resizes of chunks included, ends with the heap, the chunk sizes and the responses of the serial execution by identifier, if every two conflicting requests are joined by a path and shrinkers respect the lower bounds |
| `ParallelExecution.ExtentIsStable` | src/ascee/heap/RestrictedModifier.h:224-228 | while a request runs, the extent of its blocks in a chunk that it does not resize stays what it is in the serial execution, so it does not matter when it reads the size that its write-backs are cut off at |
| `ParallelExecution.ResizeIsDirected` | src/ascee/heap/RestrictedModifier.cpp:69-76 | when a request writes a new size back, the chunk still has the size that the request saw, so the chunk grows or shrinks as declared |
| `ParallelExecution.ResizeSetsTheSize` | src/ascee/heap/RestrictedModifier.cpp:69-76 | and the size afterwards is the one asked for |
| `ParallelExecution.AlwaysFloored` | src/storage/ChunkIndex.cpp:84-87 | in every state of every run no chunk is smaller than its lower bound |
| `BlockValidation.CheckDependencyGraph` | src/validator/RequestProcessor.hpp:60-73 | merges the access maps of all requests and accepts exactly when every chunk list passes the check, for every number of workers |
| `BlockValidation.MergedIsListable` | src/validator/RequestProcessor.hpp:60-73 | the lists of the merged map meet what the verifier demands of its input |
| `BlockValidation.CheckedOrdersCollisions` | src/validator/RequestProcessor.hpp:60-73 | if the access maps pass, what was asked for is enough, and the resizers were accepted and do not shrink too far, every two requests with conflicting declarations, size blocks and resizers included, are ordered by a path |
| `BlockValidation.LoadedComply` | src/storage/ChunkIndex.cpp:75-87 | accepted resizers that do not shrink too far respect the lower bounds, and all chunks start above theirs |
| `BlockValidation.EvenAskEnough` | src/validator/RequestProcessor.hpp:60-73 | a condition that can be read off the declarations of all chunk lists under which what the check asks for is enough |
| `BlockValidation.CheckedBlockIsSerializable` | src/validator/RequestProcessor.hpp:60-109 | from the declarations to the result, with resizers in the block and for every graph whose edges stay within the block: however the workers interleave, when nobody threw and no move is left, heap, chunk sizes and responses are those of the serial execution and every worker returned, if the graph is acyclic with its sources first; otherwise every worker raised the error about the graph |
| `Versions.PutShows` | src/ascee/heap/RestrictedModifier.cpp:144-159 | copy on write shows the new content at its version and leaves every earlier version as it was |
| `Versions.SaveKeepsContents` | src/ascee/heap/RestrictedModifier.cpp:36-39 | saving keeps what all blocks show if and only if no block holds an undone entry of the reused number with other content |
| `Versions.RefinesSnapshotsIffClean` | src/ascee/heap/RestrictedModifier.cpp:36-44 | over every run of loads, stores, additions, saves and multi-level restores the modifier behaves like a stack of full snapshots if and only if every save is clean in that sense |
| `Versions.RefinesWhenNothingUndone` | src/ascee/heap/RestrictedModifier.cpp:36-44 | in particular it does when no block holds an entry above the current version at any save |
| `Versions.UndoneWriteReturns` | src/ascee/heap/RestrictedModifier.cpp:36-44 | the failing family is real: save, store, restore, save brings the undone store back |
| `Transactions.FailedCallRestores` | src/ascee/executor/Executor.cpp:284-294 | right after a failed call, whatever it and its own calls did, every block shows what it showed before the call |
| `Transactions.TransactionalIffClean` | src/ascee/executor/Executor.cpp:209-294 | over every tree of calls with loads, stores and additions in between, calls behave as transactions at every point if and only if every save is clean; then the final contents are those of the completed calls alone |
| `Transactions.NextCallFinds` | src/ascee/heap/RestrictedModifier.cpp:36-44 | what the first call after a failed one finds in each block: what the failed call left there under its own version, if anything, and otherwise what the caller has |
| `Transactions.NoCallAfterFailureIsClean` | src/ascee/executor/Executor.cpp:209-294 | if no call begins after one failed, every save is clean |
| `Transactions.RequestContents` | src/ascee/executor/Executor.cpp:105-121 | the blocks after a whole request: untouched if it failed, the meaning of its transactions if it completed with clean saves |
| `AccessBlocks.AccessBlock.SyncTo` | src/ascee/heap/RestrictedModifier.cpp:116-120 | the loop drops exactly the entries above the version |
| `AccessBlocks.AccessBlock.EnsureExists` | src/ascee/heap/RestrictedModifier.cpp:122-133 | appends a zeroed version unless the newest has this number |
| `AccessBlocks.AccessBlock.Read` | src/ascee/heap/RestrictedModifier.cpp:135-142 | throws for bytes outside the block or a denied read, and otherwise returns the bytes shown at the version |
| `AccessBlocks.AccessBlock.PrepareToWrite` | src/ascee/heap/RestrictedModifier.cpp:144-159 | after it the newest version has the number and holds what was shown, except in the bytes about to be written |
| `AccessBlocks.AccessBlock.Write` | src/ascee/heap/RestrictedModifier.h:145-149 | throws and changes nothing, or the version shows what it showed with the bytes replaced |
| `AccessBlocks.AccessBlock.AddInt` | src/ascee/heap/RestrictedModifier.h:151-166 | throws and changes nothing, or the version shows the wrapped sum |
| `AccessBlocks.AccessBlock.WriteToHeap` | src/ascee/heap/RestrictedModifier.cpp:161-179 | at most the permitted number of bytes reach the heap, the sum for additive blocks and the newest content for others; all other bytes stay |
| `BlockUse.AddAndWriteBack` | src/ascee/heap/RestrictedModifier.h:151-166 | an additive block that gets any amounts and is written back leaves the old number plus their sum in the heap, modulo 256 to the size |
| `BlockUse.StoreAndWriteBack` | src/ascee/heap/RestrictedModifier.cpp:144-179 | a store into a writable block that is written back changes the stored bytes in the heap and nothing else |
| `BlockUse.ReadUntouched` | src/ascee/heap/RestrictedModifier.cpp:135-142 | an untouched block that may be read returns what the heap holds |
| `HeapModifier.RestrictedModifier.constructor` | src/ascee/heap/RestrictedModifier.h:151-166 | a fresh modifier starts at version 0; its untouched additive blocks start from zero and all others from the heap |
| `HeapModifier.RestrictedModifier.SaveVersion` | src/ascee/heap/RestrictedModifier.cpp:36-39 | is the save of the version machine, or throws at the limit |
| `HeapModifier.RestrictedModifier.RestoreVersion` | src/ascee/heap/RestrictedModifier.cpp:41-44 | is the restore of the version machine |
| `HeapModifier.RestrictedModifier.LoadBytes` | src/ascee/heap/RestrictedModifier.h:32-34 | returns the current contents or throws, and is the load of the version machine |
| `HeapModifier.RestrictedModifier.StoreBytes` | src/ascee/heap/RestrictedModifier.h:48-52 | is the store of the version machine, exactly when the block admits it |
| `HeapModifier.RestrictedModifier.AddInteger` | src/ascee/heap/RestrictedModifier.h:54-56 | is the addition of the version machine, exactly when the block admits it |
| `Additive.CollectsSurvivors` | src/ascee/heap/RestrictedModifier.h:151-166 | along every run with clean saves an additive block shows the sum of the amounts that no restore undid |
| `Additive.AnyOrderGivesTheTotal` | src/ascee/heap/RestrictedModifier.cpp:161-179 | whatever the order in which requests write back, the cell ends with its initial value plus all amounts, of all requests, that no restore undid in their runs of the modifier, modulo 256 to the size |
| `ChunkMemory.FlushedArrives` | src/ascee/heap/RestrictedModifier.cpp:79-86 | the new bytes of every block arrive as far as the chunk reaches, computed from what the heap held before |
| `ChunkMemory.FlushedElsewhere` | src/ascee/heap/RestrictedModifier.cpp:79-86 | bytes behind the chunk and bytes that no block covers stay as they are |
| `ChunkMemory.FlushedIsEffect` | src/ascee/heap/RestrictedModifier.cpp:161-179 | what the owner of a chunk sees of a write-back, cut short at the end of the chunk or not, is the effect that the parallel execution is about; bytes behind the chunk stay |
| `ChunkMemory.StepTidy` | src/ascee/heap/Chunk.cpp:52-85 | reserving and shrinking are invisible to the owner; a request cuts or zero-extends the chunk and then changes only covered bytes below the new size |
| `ChunkMemory.AlwaysTidy` | src/ascee/heap/Chunk.cpp:52-85 | over every sequence of reservations, shrinks and requests the size stays within the capacity and all bytes behind it stay zero |
| `ChunkMemory.Allocated` | src/ascee/heap/Chunk.cpp:63-85 | reserving gives the greater of the two capacities, shrinking exactly the chunk |
| `Chunks.Chunk.constructor` | src/ascee/heap/Chunk.cpp:32-36 | a new chunk is empty and zeroed |
| `Chunks.Chunk.GetContentPointer` | src/ascee/heap/Chunk.cpp:42-45 | refuses exactly the ranges outside the allocation |
| `Chunks.Chunk.SetSize` | src/ascee/heap/Chunk.cpp:52-61 | zeroes exactly what is cut off |
| `Chunks.Chunk.Resize` | src/ascee/heap/Chunk.cpp:63-70 | copies the chunk into a new allocation, zeroed behind it |
| `Chunks.Chunk.ReserveSpace` | src/ascee/heap/Chunk.cpp:72-79 | only ever enlarges the allocation |
| `Chunks.Chunk.ShrinkSpace` | src/ascee/heap/Chunk.cpp:81-85 | leaves exactly the chunk allocated |
| `Chunks.ToAccessBlocks` | src/ascee/heap/RestrictedModifier.cpp:207-232 | one untouched block per declaration at a non-negative offset, in order; refused exactly for writers of read-only chunks and blocks outside the allocation |
| `Chunks.AcceptableMeans` | src/ascee/heap/RestrictedModifier.cpp:217-229 | a declaration is refused exactly if it would change a read-only chunk or reaches outside the allocation |
| `Chunks.ChunkInfo.UpdateChunkSize` | src/ascee/heap/RestrictedModifier.cpp:91-107 | accepts exactly the same size, growth up to the bound of an expander, or shrinking down to the bound of a shrinker |
| `Chunks.ChunkInfo.GetChunkSize` | src/ascee/heap/RestrictedModifier.cpp:109-114 | the size shown at the version, unless the size is not accessible |
| `Chunks.ChunkInfo.IsValid` | src/ascee/heap/RestrictedModifier.h:76-86 | throws for a block that is too small, and otherwise compares the end with the size shown |
| `Chunks.ChunkInfo.WriteToHeap` | src/ascee/heap/RestrictedModifier.cpp:69-89 | the whole write-back of a chunk is one request step on its memory; the size fits the capacity, no copy leaves the chunk, and the chunk stays tidy |
| `CallStack.StepKeeps` | src/ascee/executor/Executor.cpp:146-168 | every push, pop, lock, unlock, opening and closing of a handler keeps: the lock table is exact, the heap context is that of the newest context, handlers nest and are not overdrawn, versions to roll back to exist |
| `CallStack.OpenConserves` | src/ascee/executor/Executor.cpp:253-273 | opening an invocation leaves gas handed out plus three times the remaining gas as it was, up to a rounding loss of two |
| `CallStack.StepConserves` | src/ascee/executor/Executor.cpp:253-294 | gas handed out plus three times the live remaining gas never grows |
| `CallStack.StepCosts` | src/ascee/executor/Executor.cpp:253-294 | two per invocation plus the gas that live handlers may hand out beyond their last unit never grows |
| `CallStack.GasBoundsInvocations` | src/ascee/executor/Executor.cpp:253-294 | in every reachable state handed out gas plus three times the remaining gas is at most three times the initial gas, at most half of the initial gas many invocations were made, and no remaining gas is negative |
| `CallStack.LockedExactlyOnce` | src/ascee/argc/functions/invoke.cpp:27-48 | in every reachable state an application is locked if and only if a live context of it has the lock, and at most one has |
| `CallStack.RollbackIsSafe` | src/ascee/executor/Executor.cpp:284-294 | a failed call rolls back to a version below the current one, as `restoreVersion` asserts, and after every step the heap context is that of the newest context |
| `CallStack.VersionsSuffice` | src/ascee/executor/Executor.cpp:260-273 | with less than 60000 gas the version limit is never reached |
| `VersionLimit.LimitIsReached` | src/ascee/executor/Executor.cpp:253-294 | for every initial gas from 144000 on, some behaviour of the application that `executeOne` calls reaches the version limit within the call depth and with gas left to forward, so that the next handler dies in its constructor |
| `VersionLimit.ManyCalls` | src/ascee/executor/Executor.cpp:253-294 | how many successful calls a given remaining gas pays for, over any state with two free levels of the call depth |
| `Sessions.Session.Enter` | src/ascee/argc/functions/invoke.cpp:27-39 | takes the lock, or throws exactly when another context of the application has it |
| `Sessions.Session.Leave` | src/ascee/argc/functions/invoke.cpp:41-48 | releases the lock of the newest context, if it has it |
| `Sessions.Session.PushContext` | src/ascee/executor/Executor.cpp:146-151 | throws exactly for a call to the calling application itself |
| `Sessions.Session.PopContext` | src/ascee/executor/Executor.cpp:158-168 | releases the lock and loads the heap context of the caller |
| `Sessions.Session.OpenHandler` | src/ascee/executor/Executor.cpp:260-273 | throws harmlessly for too little gas; throws and leaves a dead handler registered and the depth raised exactly at the version limit; otherwise opens the invocation |
| `Sessions.Session.CloseHandler` | src/ascee/executor/Executor.cpp:284-294 | rolls back unless the call completed, and restores the caller |
| `Sessions.Session.RunBody` | src/ascee/argc/functions/invoke.cpp:76-88 | how the application code ends is a function of its program and of who has its lock; contexts below the newest, their locks and all handlers below the newest stay as they were |
| `Sessions.Session.DependantCall` | src/ascee/argc/functions/invoke.cpp:63-116 | the outcome is `CallOutcome`; however the call ends, contexts, locks, heap context and depth are those before the call; a call to an unknown application or to the caller itself enters nothing; if it returns normally, the application and then everything it deferred calls to was entered, in this order |
| `Sessions.EndsWithItsCode` | src/ascee/argc/functions/invoke.cpp:27-39 | a program ends with the code of the `Return` it ends in, unless it wants a lock that another context has |
| `Sessions.CallSucceeds` | src/ascee/argc/functions/invoke.cpp:63-116 | a call returns a code exactly if the application exists and is not the caller, its program ends with this code, the code is below 400, no taken lock is wanted, and all its deferred calls succeed |
| `Sessions.Session.PerformDeferred` | src/ascee/argc/functions/invoke.cpp:105-113 | the deferred calls run with the lock of the caller released, in order, until one fails; none fails exactly if each of them succeeds |
| `Sessions.Session.ExecuteApp` | src/ascee/executor/Executor.cpp:209-251 | the code is that of the call, or a failure if the gas or the call depth does not suffice, and then nothing is entered; the heap version is the one before the call if and only if the code is at least 400 |
| `Sessions.ExecuteOne` | src/ascee/executor/Executor.cpp:105-121 | for every application behaviour and every initial gas below 90350 the machinery ends as it began, the code is that of the call, the heap is at version 0 exactly if the code is at least 400, and twice the number of invocations plus what remains is at most the initial gas |
| `PrefixTries.Build` | src/util/PrefixTrie.hpp:35-48 | the constructor refuses exactly the malformed tries; the tables it fills with wrap-around arithmetic are those of unbounded arithmetic |
| `PrefixTries.OnlyTheLastSumOverflows` | src/util/PrefixTrie.hpp:42-47 | for every well-formed trie: the running sum overflows only on the last level of a trie as high as its word, exactly when that level is within the previous sum of the range of the word; the stored sum is right in any case |
| `PrefixTries.EncodeVarUInt` | src/util/PrefixTrie.hpp:142-152 | encodes exactly the values below the last sum, without overflow |
| `PrefixTries.EncodeDecode` | src/util/PrefixTrie.hpp:142-172 | every value gets a valid code, and decoding it returns the value |
| `PrefixTries.DecodeEncode` | src/util/PrefixTrie.hpp:142-172 | every valid code is the code of the value that it decodes to |
| `PrefixTries.EncodeAscends` | src/util/PrefixTrie.hpp:142-152 | codes are ordered like their values |
| `PrefixReaders.PrefixFree` | src/util/PrefixTrie.hpp:50-70 | no code is a proper prefix of another |
| `PrefixReaders.ReadsCode` | src/util/PrefixTrie.hpp:58-70 | whatever follows a code, the byte reader finds the code |
| `PrefixReaders.ReadIsCode` | src/util/PrefixTrie.hpp:58-70 | everything that the byte reader returns is a valid code, spelt by the bytes it consumed |
| `PrefixReaders.ReadersAgree` | src/util/PrefixTrie.hpp:115-134 | the reader of words and the reader of bytes agree on every word under every length limit |
| `PrefixReaders.ReadPrefixCodeOfWord` | src/util/PrefixTrie.hpp:124-134 | the loop returns the first length whose boundary is above the word |
| `PrefixReaders.ReadPrefixCodeOfBytes` | src/util/PrefixTrie.hpp:58-70 | the accumulating loop computes the reading of the byte string |
| `PrefixReaders.DecodeVarUInt` | src/util/PrefixTrie.hpp:154-172 | under every length limit, decodes exactly the words below the last boundary that the limit leaves; adding and subtracting wrap around and back |
| `PrefixReaders.DecodeVarUIntOfBytes` | src/util/PrefixTrie.hpp:154-172 | on bytes: succeeds exactly when a code is spelt within the limit, and returns the value with this code and its length |
| `PrefixReaders.DecodeVarUIntAt` | src/util/PrefixTrie.hpp:174-192 | on a pointer, with and without an end: moves past the code of the returned value, or stays where it is when there is no code before the end |
| `PrefixReaders.WriteBigEndian` | src/util/PrefixTrie.hpp:238-242 | writes the first bytes of the word and nothing else |
| `Identifiers.RepositoryTries` | include/core/tries.hpp:30-37 | the four tries of the repository are well-formed |
| `Identifiers.RunningSumOverflows` | src/util/PrefixTrie.hpp:44-47 | the intermediate sum does overflow for the integer trie, and the stored sum is right all the same |
| `Identifiers.EqualCodes` | src/util/PrefixTrie.hpp:91-113 | decides equality of the two codes and never reads past the end of either |
| `Identifiers.Parse` | include/core/tries.hpp:52-60 | takes exactly one identifier off the front of the input, or refuses |
| `Identifiers.PaddingLosesNothing` | include/core/tries.hpp:82-97 | two identifiers have the same zero-padded form if and only if their bytes are the same, and none is a proper prefix of another |
| `Identifiers.Equal` | include/core/tries.hpp:74-80 | equality holds exactly when the first `getLen` bytes agree, and exactly when the converted forms agree |
| `Base64Url.Encode` | src/util/base64url.cpp:112-198 | the loops write exactly the encoding, its reported length and a terminating zero |
| `Base64Url.RoundTrip` | src/util/base64url.cpp:112-302 | decoding the encoding of any byte string returns it |
| `Base64Url.Lengths` | src/util/base64url.cpp:85-88 | `base64DecodeLen` of the encoded length is the length |
| `Base64Url.Decode` | src/util/base64url.cpp:209-302 | refuses exactly the impossible lengths and the texts with other characters, and otherwise writes exactly `base64DecodeLen` bytes, the decoded ones |
| `Base64Url.EncodingsAreCanonical` | src/util/base64url.cpp:270-295 | a text is the encoding of what it decodes to if and only if the unused bits of its last character are zero; the decoder accepts the others, too |
| `Base64Url.Alphabet` | src/util/base64url.cpp:62-82 | the 64 characters are the upper-case letters, the lower-case letters, the digits, '-' and '_', in this order, and no other character is decoded |
| `Base64Url.SameBits` | src/util/base64url.cpp:112-198 | four sextets are the 24 bits of three bytes, most significant first |
| `Base64Url.Examples` | src/util/base64url.cpp:112-198 | encodings of one, two and three bytes, and of bytes that need '-' and '_' |

## Left out

- ParallelExecution.ParallelEqualsSerial: queries for zero bytes are not looks; when their answer may change unnoticed is `Resizing.EmptyPartMayChange`.
- BlockValidation.CheckedBlockIsSerializable: the access type of a size block is the one that its offset calls for; nothing in the source checks it.
- SweepSoundness.AcceptedIsCovered: only for runs without loss, because a split really drops members; `SweepDemand.SoundIffAsksEnough` is exact.
- SweepSoundness.SweepSound: as for `SweepSoundness.AcceptedIsCovered`.
- SweepLoss.EvenTriplesLossless: sufficient and not necessary, since whether a member is lost depends on the clusters that the sweep has formed.
- SweepCompleteness.DirectIsAccepted: its conditions on the declared blocks (no size block is cut, no data block is empty, blocks of one request are disjoint) are sufficient; `SweepDemand.CompleteIffAsksPairs` is exact without them.
- SchedulerRuns.NoDeadlock: not after a worker threw, because it is false there; `SchedulerRuns.EndsIffNobodyThrew` is exact, and safety holds with throwing workers.
- SchedulerRuns.Outcome: runs in which nobody threw; the others are in `SchedulerRuns.EndsIffNobodyThrew`.
- CollisionVerifier.FindCollisions: 32-bit overflow of offset plus size is not modelled; sizes are bounded by 64 KiB when requests are loaded.
- Sessions.Session.OpenHandler: once a dead handler is registered the C++ program has no defined behaviour, and the model stops there.
- Sessions.ExecuteOne: between 90350 gas, below which no handler is left dangling, and 144000 gas, from which `VersionLimit.LimitIsReached` shows one, nothing is said.
- CallStack.VersionsSuffice: also covers handlers opened directly at the root, so its bound is lower than that of `Sessions.ExecuteOne`.
- Sessions.Session.ExecuteApp: tracks the version number; what the blocks hold is in `Transactions`, over the same calls, saves and restores.
- Condition variables: a worker that waits takes the next step as soon as its condition holds; lost and spurious wake-ups are not modelled.
- The optimistic caller, which has no gas and turns every failure into a rejected block.
- `runAll` and the loading of blocks: that all requests are loaded, checked and finalized is a precondition.
- `loadChunk`, `loadContext` and the lookup of blocks by application, chunk and offset: a block is addressed by its position; `AccessMaps.Find` is the search they use.
- Reading and writing variable-length integers through access blocks: plain compositions of the block operations with the trie codes.
- `Chunk::applyDelta`, pages, digests, block loading, signatures, keys, and the dynamic loading of applications.
- Signals, timers, threads and stack sizes of the operating system; floating-point helpers, string scanning and HTTP texts.
