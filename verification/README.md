# Kubo: garbage collection, pins and their neighbours, in Dafny

This project models the parts of Kubo (and of the folder tree in the frontend that
ships with it) whose correctness depends on reasoning across many steps, and proves
what those parts are for. `dafny verify dfyconfig.toml` verifies the whole project.

The centre is **garbage collection and the lock protocol around it**.

* `Gc.dfy` and `Sweep.dfy` model the collection itself as imperative code: one set
  `gcs` and one flag `errors` shared by all marking phases, an abort in the middle of
  a walk, then the deletion loop over raw keys. Marking succeeds exactly when a
  reference predicate (`Healthy`) says so, it then colours exactly a reference set
  (`Kept`), and the sweep leaves exactly the blocks whose hash has a kept name.
* `GcProtocol.dfy` is a transition system of all writers and collectors: adders with
  their pause in the middle of an add, `block put`, pinned `dag put` of one or many
  nodes, pin add, remove and update, block removal, and a collector that marks node by
  node and deletes key by key. `GcSafety.dfy` proves the step invariants,
  `GcRuns.dfy` and `GcPins.dfy` the statements about whole runs, over every
  interleaving, `GcExposure.dfy` the exact conditions under which a paused adder is
  safe, `GcMark.dfy` that the interleaved mark keeps what the collection on its own
  keeps, and `GcVerdict.dfy` that it ends in a sweep exactly when the collection on its
  own would succeed, and that a collection can always run to its end.

Around it:

* `RefWriter.dfy`: `ipfs refs`, a depth-limited deduplicating listing that explores a
  node again when it meets it higher up, and without deduplication prints one line for
  every path. `Walks.dfy` holds the depth-first enumeration of paths it is measured by.
* `PinVerify.dfy` and `PinLs.dfy`: memoised verification and classification of pins.
* `RemoveBlocks.dfy`: `ipfs block rm`.
* `Routing.dfy`: construction of delegated routers with loop detection and sharing.
* `ConfigScrub.dfy`, `ConfigMerge.dfy`, `ConfigShape.dfy` and `ConfigReplace.dfy`:
  hiding secrets, deep merging, decoding and encoding typed fields, and replacing the
  configuration by what was shown.
* `Cat.dfy` and `ApiFile.dfy`: windows over concatenated files, and the seekable
  remote file on top of them.
* `NotFoundErrors.dfy`: recovering a not-found error from an error text.
* `ReqLog.dfy`, `StreamRegistry.dfy`, `OnlyOne.dfy`: in-place compaction and two kinds
  of reference counting.
* `FileTree.dfy`: the frontend's mutable folder tree.
* `Graph.dfy` and `Marking.dfy`: walks, reachability and what a marking walk adds to a
  set; every traversal is measured against them. `Cids.dfy`, `Strings.dfy` and
  `Wrappers.dfy` hold small shared definitions.

Classes carry the fields the source updates in place. Reference definitions (`Kept`,
`Healthy`, `InRange`, `Good`, `Shown`, `Readable`, `Bad`, `Window`, `Scrub`,
`Retained`, `Balance`) are written without looking at the loops they specify.

## Where the code does less than one might expect

These are results, each with an exact condition or a concrete example.

* **A paused adder is protected by pins alone.** While an adder has given up the lock,
  what it has built survives exactly as far as it has pinned names. In every reachable
  state a paused adder will find all of it when it takes the lock again, whatever
  happens short of taking pins away, if and only if each block is present and pinned
  under some name now (`GcExposure.ResumesCompleteIff`). Before it returns, an adder
  lists its tree, which reads all directories and their entries again, but not what is
  below a file. So it will return a complete tree if and only if every block that is
  part of what it had built and of a tree it may still return is present and pinned,
  or is listed or written again with that tree (`GcExposure.ReturnsCompleteIff`). Over
  whole runs an adder returns complete if no block it builds on lacked a pinned name
  while the lock was held exclusively during one of its pauses
  (`GcRuns.AddIsComplete`), in particular if nobody unpins its roots, whatever happens
  to other adders (`GcRuns.UndisturbedAddIsComplete`), and in any case if it never
  paused (`GcRuns.UnpausedAddIsComplete`). `GcRuns.DisturbedAddLosesFile` is a run in
  which a client turns the recursive pin of a pause into a direct one and an adder
  returns without error although a chunk of its file is gone. (`tempRoot` is assigned
  only inside the branch that needs it to be defined, so intermediate roots are never
  unpinned by the adder itself and stay pinned.)
* **Marking below internal pins stops at lone direct pins**, because direct pins are
  coloured first. `Sweep.InternalClosedIff` says exactly when nothing is lost by it,
  `Sweep.InternalNotClosed` is an example of a loss.
* **`block rm` looks pins up by CID and deletes by hash.** A pinned block is lost
  exactly when another, unpinned name of it is in the request
  (`BlockRemoval.PinnedLostIff`, example `BlockRemoval.SecondNameLosesPinned`). The
  protocol's removal step is the case without such names.
* **`config replace` merges.** The input is decoded into typed fields and the encoded
  result is merged into the file. A field that the input leaves out is written as its
  zero value, so it is replaced (`ConfigReplace.LeftOutZeroed`), but an empty field of
  the kind that is omitted keeps what the file had, and a map keeps the entries that
  the new one lacks, unless it is nil. What is read back is what was written if and
  only if no map lacks an old entry and no omitted field had another value
  (`ConfigShape.OverExactIff`), although the command's help speaks of replacing. So
  after `config show` and `config replace` of its output the file reads as before,
  secrets, unknown fields and API authorizations included, while the running instance
  keeps everything but the authorizations; a remote service that is null in the file
  makes it fail, because it is not shown (`ConfigReplace.Repo.ShowThenReplace`).
* **A not-found text prints back unchanged** if and only if it spells its CID the way
  CIDs are printed (`NotFoundErrors.RoundTripIff`). As base 32 is decoded without regard
  to case, writing any letter of a CID in upper case breaks it
  (`NotFoundErrors.OtherSpellingLost`).
* **A short forward seek past the end of a remote file fails, a long one succeeds**, and
  after a failed reset a read or a short forward seek dereferences nil (the conditions
  in `RemoteFile.ApiFile.Seek` and `RemoteFile.ApiFile.Read`).
* **A missing raw leaf does not stop a collection**, because raw nodes are not read
  (`Sweep.MissingRawLeafTolerated`); a missing node of another codec does, unless only
  best-effort roots lead to it (`Sweep.AbsentBelowMfs`).
* The "missing key" error of `scrubEither` never fires: for a value that is not an
  object it hands on the nil map of the failed type assertion, which as an interface
  value does not compare equal to nil (`ConfigScrub.ScrubEither`).

## Model

| member | source | states |
|---|---|---|
| GarbageCollection.ColoredHealthy | kubo-master/gc/gc.go:212-297 | four phases that share one set and met no fault have coloured exactly what must be kept, and the run was healthy |
| GarbageCollection.KeptExact | kubo-master/gc/gc.go:273-282 | walking internal pins after the direct pins were added colours what internal pins reach without passing a lone direct pin |
| GarbageCollection.FaultRecursive | kubo-master/gc/gc.go:217-238 | a fault met below a recursive pin makes the run unhealthy |
| GarbageCollection.FaultBest | kubo-master/gc/gc.go:240-271 | a fault met below a best-effort root, absent blocks excepted, makes the run unhealthy although earlier phases pruned the walk |
| GarbageCollection.FaultInternal | kubo-master/gc/gc.go:281-290 | a fault met below an internal pin makes the run unhealthy although all earlier phases pruned the walk |
| GarbageCollection.WalkVisit | kubo-master/gc/gc.go:190-193 | one visit of a node whose links were fetched or reported keeps the walk's invariant |
| GarbageCollection.WalkAbort | kubo-master/gc/gc.go:158-165 | a rejected hash in the middle of a walk is a fault reachable from the root |
| GarbageCollection.Collector.GetLinks | kubo-master/gc/gc.go:217-228 | a raw node has no links and is not read; other links are fetched, or the failure is flagged and reported, once and for that node, and the list is empty; an absent block is tolerated by the best-effort variant alone; a rejected hash stops the walk and is reported by its caller |
| GarbageCollection.Collector.Walk | kubo-master/gc/gc.go:190-193 | one walk adds exactly what the root reaches outside the nodes coloured before, or there is a fault below the root |
| GarbageCollection.Collector.Descendants | kubo-master/gc/gc.go:157-200 | all walks of a stream together add exactly what its roots reach outside the nodes coloured before; an error or a new flag means a broken stream or a fault |
| GarbageCollection.Collector.ColoredSet | kubo-master/gc/gc.go:212-297 | success if and only if all pin streams are whole and every node that must be read can be; on success exactly the kept nodes are coloured; a broken stream of direct pins has an error of its own |
| Sweep.MissingRawLeafTolerated | kubo-master/test/sharness/t0087-repo-robust-gc.sh:16-45 | with a raw leaf of a recursive pin missing, marking succeeds, the file's root is kept and junk is not |
| Sweep.AbsentBelowMfs | kubo-master/gc/gc.go:240-271 | with a node missing below the MFS root, marking succeeds, the root is kept and junk is not; once the root is also pinned recursively marking fails |
| Sweep.ToRawCids | kubo-master/gc/gc.go:32-39 | the raw name of a hash is in the result exactly when some coloured CID has that hash, whatever its version and codec |
| Sweep.Repository.SweepKeys | kubo-master/gc/gc.go:94-133 | an uncancelled sweep leaves exactly the blocks with a coloured raw name and those that cannot be deleted; a key is reported removed exactly when its block went, and once; errors exactly when an unmarked block could not be deleted, which is reported for each of them; a cancelled sweep deletes no kept block either |
| Sweep.Repository.GC | kubo-master/gc/gc.go:50-152 | failed marking deletes nothing; otherwise exactly the kept and the undeletable blocks are left; the stream carries no error exactly when marking, key listing, all deletions and the datastore went well |
| Sweep.Repository.GarbageCollect | kubo-master/core/corerepo/gc.go:86-94 | the caller of `repo gc` sees no error exactly when the run was free of errors, and then exactly the kept blocks are left, the MFS root counting as best-effort root |
| Sweep.CollectResult | kubo-master/core/corerepo/gc.go:99-127 | every error of the stream is carried by the result and every removed key passed on, in order; no error exactly for a stream without errors, and a single one exactly for a stream with one |
| Sweep.DrainedInOrder | kubo-master/core/corerepo/gc.go:99-127 | wherever it stands in the stream, a removal contributes its key and a failure its error, at their place, and nothing else |
| Sweep.ErrorsOfEmpty | kubo-master/core/corerepo/gc.go:99-127 | a stream has no errors to collect exactly when all its results are removals |
| Sweep.InternalClosedIff | kubo-master/gc/gc.go:273-282 | everything below internal pins is kept if and only if no lone direct pin below them has a child that is not kept |
| Sweep.InternalNotClosed | kubo-master/gc/gc.go:273-282 | a store with readable blocks a, b and c in a chain, a pinned internally and b directly, for which marking succeeds and c is not kept |
| GcSafety.LockStep | kubo-master/core/coreunix/add.go:534-540 | no step lets an exclusive and a shared lock holder exist together |
| GcSafety.ClientStepOk | kubo-master/core/coreapi/dag.go:40-61 | what puts and batch adds have stored under the pin lock is still there after every step of anybody |
| GcSafety.MarkVisitOk | kubo-master/gc/gc.go:190-193 | while recursive pins are walked node by node, every child of a coloured node is coloured or waiting |
| GcSafety.MarkStep | kubo-master/gc/gc.go:212-297 | no step of anybody makes a mark in progress, or the set a sweep keeps, miss a node below a recursive pin, a direct pin or an internal pin |
| GcSafety.PinsFrozen | kubo-master/gc/gc.go:50-68 | no step changes a pin while the lock is held exclusively |
| GcSafety.InvStep | kubo-master/gc/gc.go:50-152 | every step of every participant keeps the protocol invariant |
| GcSafety.DeletionSafe | kubo-master/gc/gc.go:94-133 | a block that any step deletes has no name that is below a recursive pin, pinned directly or pinned internally, and goes while nobody holds the pin lock |
| GcSafety.OnlyUnpinned | kubo-master/core/coreapi/pin.go:101-160 | a recursive pin disappears only in the step of a client that unpins it |
| GcSafety.CurRootCovers | kubo-master/core/coreunix/add.go:162-183 | pinning the only entry of the root directory instead of the directory still covers every file added |
| GcSafety.RootOk | kubo-master/core/coreunix/add.go:187-216 | a root that holds all files and below which everything is stored or written now stands for the whole adder |
| GcSafety.OwnStepOk | kubo-master/core/coreunix/add.go:293-418 | every step of an adder leaves its files below what it has stored, its root standing for all of it, and nothing missing that was there |
| GcSafety.StoredStep | kubo-master/core/coreunix/add.go:523-542 | every step of anybody leaves an adder with all it builds on, unless some of that has no pinned name, the adder is paused and the lock is held exclusively; other adders play no part |
| GcSafety.WaitingStep | kubo-master/core/coreunix/add.go:187-216 | a root an adder waits on stays pinned in every step that does not unpin it |
| GcSafety.PinnedNotExposed | kubo-master/core/coreunix/add.go:523-542 | an adder whose root is pinned has pinned names for all it builds on |
| GcRuns.RunInv | kubo-master/gc/gc.go:50-152 | the invariant holds in every state of every run |
| GcRuns.RunShape | kubo-master/core/coreunix/add.go:293-418 | in every run, what an adder has added lies below what it has stored, and below its root while it waits and after it returned |
| GcRuns.RunStored | kubo-master/core/coreunix/add.go:293-418 | in every run, an adder that was never exposed has all it builds on |
| GcRuns.RunWaiting | kubo-master/core/coreunix/add.go:187-216 | in every run, a root an adder waits on is pinned unless it was unpinned while the adder waited on it |
| GcRuns.UndisturbedNotExposed | kubo-master/core/coreunix/add.go:523-542 | in every run, an adder whose waiting roots nobody unpinned was never exposed, whatever happened to other adders |
| GcRuns.PinnedNeverDeleted | kubo-master/gc/gc.go:94-133 | in every run, no step deletes a present block with a name that is below a recursive pin, or pinned directly or internally, at that moment |
| GcRuns.PutStaysStored | kubo-master/core/coreapi/block.go:50-69 | in every run, a block put under the lock is there while the putter holds it, and after the pinning step it is stored and pinned |
| GcRuns.AdderBlocksStay | kubo-master/core/coreunix/add.go:523-542 | in every run, all that a never exposed adder at work has stored and builds on is present, also while it has given up the lock |
| GcRuns.AddIsComplete | kubo-master/core/coreunix/add.go:293-373 | in every run, when an add that was never exposed returns without error every block below its root is present; that its files lie below the root is a contract of the directory code, carried through the pauses |
| GcRuns.UndisturbedAddIsComplete | kubo-master/core/coreunix/add.go:293-373 | in every run in which nobody unpins this adder's roots while it relies on them, it returns with its root pinned and everything below it present |
| GcRuns.UnpausedAddIsComplete | kubo-master/core/coreunix/add.go:293-373 | in every run, an adder that never gave up the lock returns with everything below its root present |
| GcRuns.DisturbedAddLosesFile | kubo-master/core/coreunix/add.go:523-542 | a run from an idle state in which the root of a pause is unpinned and pinned directly, a collection takes a chunk of the file, and the adder goes on, lists its tree and returns without error |
| GcExposure.GuardedStays | kubo-master/gc/gc.go:94-133 | a present block with a pinned name stays present with a pinned name for as long as no pin is taken away |
| GcExposure.ReleaseAll | kubo-master/core/coreunix/add.go:298-304 | from any state all holders can let go of the lock while a paused adder stays paused |
| GcExposure.LoseBlock | kubo-master/blocks/blockstoreutil/remove.go:37-71 | once nobody holds the lock, a block without a pinned name can be removed |
| GcExposure.ResumesCompleteIff | kubo-master/core/coreunix/add.go:523-542 | in every reachable state, a paused adder finds all it had built whenever it takes the lock again, in every continuation that takes no pin away, if and only if each of these blocks is present and has a pinned name |
| GcExposure.OldMissingStep | kubo-master/core/coreunix/add.go:293-418 | from a pause on, what an adder builds on or returns lacks at most blocks of the old tree, and none that its listing has read |
| GcExposure.RenewedHashes | kubo-master/core/coreunix/add.go:218-251 | what returning a tree writes anew or lists does not include a block that is not renewed |
| GcExposure.ReturnsCompleteIff | kubo-master/core/coreunix/add.go:293-373 | in every reachable state, a paused adder returns only complete trees, in every continuation that takes no pin away, if and only if every block that is part of what it had built and of a tree it may return is present with a pinned name, or is listed or written again with that tree |
| GcMark.KeptMono | kubo-master/gc/gc.go:212-297 | with more blocks stored, more is kept |
| GcMark.VisitAll | kubo-master/gc/gc.go:190-193 | one visit of the interleaved mark leaves nothing uncoloured and not waiting that hangs, in the store of the beginning, on what is coloured |
| GcMark.VisitOnly | kubo-master/gc/gc.go:190-193 | one visit colours and queues only what must be kept in the store of now |
| GcMark.NextAll | kubo-master/gc/gc.go:230-282 | a new phase starts with all that the last one had to colour |
| GcMark.MarkStepBounded | kubo-master/gc/gc.go:212-297 | every step of anybody, also of one who stores blocks, keeps the mark between its bounds |
| GcMark.SweepKeepsBetween | kubo-master/gc/gc.go:50-152 | in every run, a mark that ends in a sweep keeps at least what must be kept in the store of its beginning and at most what must be kept in the store of the sweep |
| GcMark.SweepKeepsExactly | kubo-master/gc/gc.go:50-152 | if no block was stored during the mark, it keeps exactly the hashes of what recursive pins, best-effort roots, direct pins and internal pins keep |
| GcVerdict.VisitErrors | kubo-master/gc/gc.go:217-263 | a visit of an uncoloured node raises the error flag if and only if its hash is rejected or it cannot be read, an absent block below a best-effort root excepted; it stays in its phase and colours that node alone |
| GcVerdict.FaultMeansUnhealthy | kubo-master/gc/gc.go:212-297 | in whichever phase, the first fault that the interleaved mark meets makes the repository unhealthy |
| GcVerdict.EndVerdict | kubo-master/gc/gc.go:284-297 | at the end of the mark the flag is up if and only if the repository is unhealthy |
| GcVerdict.SweepsIffHealthy | kubo-master/gc/gc.go:50-152 | in every run, a mark during which no block was stored and which nobody called off ends in a sweep if and only if the repository was healthy when the lock was taken; otherwise the lock is given up |
| GcVerdict.MarkEnds | kubo-master/gc/gc.go:212-297 | from any state of a mark there is a run to its end that changes nothing but the mark |
| GcVerdict.CollectionCanFinish | kubo-master/gc/gc.go:50-152 | whenever nobody holds the lock a waiting collection can run to its end; a healthy repository is left with exactly the blocks that must be kept, an unhealthy one as it was |
| GcPins.CompletePinStays | kubo-master/gc/gc.go:94-133 | in every run, a recursive pin below which everything is present stays complete for as long as it stays pinned |
| GcPins.PinAddIsComplete | kubo-master/core/coreapi/pin.go:24-160 | in every run, after a recursive pin add, or an update from a complete pin, which fetches only what the old pin does not hold, everything below the new pin is present and stays so while the pin does |
| GcPins.BatchStep | kubo-master/core/coreapi/dag.go:40-61 | every step of anybody that does not unpin them keeps the nodes a batch add has visited pinned |
| GcPins.AddManyIsComplete | kubo-master/core/coreapi/dag.go:40-61 | in every run in which nobody unpins a node the batch add has pinned, all its nodes are pinned and stored when it has gone through them |
| GcPins.OperationCanFinish | kubo-master/core/coreapi/pin.go:24-160 | whenever nobody holds the lock exclusively, every put, batch add, pin add, pin removal and pin update can run to its end, and then exactly the blocks and pins it promises are there and nothing else has changed |
| RefWriting.WalkRecorded | kubo-master/core/commands/refs.go:275-321 | when every record is expanded, every walk within the limit ends in a record at no greater depth |
| RefWriting.FreshExpandedTrans | kubo-master/core/commands/refs.go:308-320 | lowering a record on a second visit keeps all records expanded |
| RefWriting.DescentDone | kubo-master/core/commands/refs.go:248-260 | recording a node and descending below it, or stopping at the limit, leaves the link done |
| RefWriting.FuelDrops | kubo-master/core/commands/refs.go:213-264 | every descent decreases a bound, also on cyclic graphs |
| RefWriting.FinishedExact | kubo-master/core/commands/refs.go:213-264 | an error-free listing has printed exactly the CIDs at a link distance of 1 to the limit from some root |
| RefWriting.RefWriter.Visit | kubo-master/core/commands/refs.go:275-321 | when to descend, when to print, and what is recorded, for every combination of limit, deduplication and earlier record |
| RefWriting.RefWriter.FollowLink | kubo-master/core/commands/refs.go:217-260 | one link keeps the listing sound, and is done unless a node within the limit cannot be fetched; without deduplication it prints itself and then, in order, all paths that go on from it within the limit |
| RefWriting.RefWriter.WriteRefsRecursive | kubo-master/core/commands/refs.go:213-264 | all links of a node are done or a node within the limit cannot be fetched; the count is the number of lines printed; without deduplication there is one line for every path below the node, in depth-first order |
| RefWriting.RefWriter.WriteRefs | kubo-master/core/commands/refs.go:205-211 | listing one more root keeps the whole listing valid; the count is the number of lines printed; without deduplication there is one line for every path below the root, in depth-first order |
| RefWriting.RefWriter.Run | kubo-master/core/commands/refs.go:113-132 | free of errors if and only if every object and every CID in range can be fetched; then exactly the CIDs in range are printed, with deduplication each once, and without it one line for every sequence of link positions, from each object in turn and no longer than the limit, in depth-first order, which is the link at its end; every line is a link |
| Walks.PathsBelowExact | kubo-master/core/commands/refs.go:213-264 | the depth-first enumeration below a node holds every sequence of link positions of length 1 to the limit, each once, a shorter one before those that continue it and lower positions first |
| Walks.OnceEach | kubo-master/core/commands/refs.go:213-264 | a list of paths in depth-first order holds none twice |
| Walks.PathsFromExact | kubo-master/core/commands/refs.go:113-132 | the same for several roots, one after the other |
| PinVerification.BadIsUnreadable | kubo-master/core/coreapi/pin.go:205-232 | the unmemoised list of bad nodes holds exactly the reachable nodes whose links cannot be read |
| PinVerification.OkIff | kubo-master/core/coreapi/pin.go:205-232 | a status is ok if and only if the links of every reachable node can be read |
| PinVerification.BadInOrder | kubo-master/core/coreapi/pin.go:205-232 | the bad nodes are the ends of exactly the paths that lead to a node that cannot be read, one for each path, in depth-first order |
| PinVerification.Verifier.CheckPin | kubo-master/core/coreapi/pin.go:205-232 | with a memory shared by all pins the status, with the order and repetition of bad nodes, is the one of the unmemoised recursion |
| PinVerification.Verifier.Verify | kubo-master/core/coreapi/pin.go:195-254 | one report for each streamed pin, equal to the unmemoised status, ok exactly when everything below the pin can be read |
| PinListing.ReachIsPinOrBelow | kubo-master/core/coreapi/pin.go:343-367 | what pins reach is the pins and what is at least one link below them |
| PinListing.WalkedExact | kubo-master/core/coreapi/pin.go:343-367 | walks that skip their roots and share one visited set visit exactly what is below the pins |
| PinListing.AllReadable | kubo-master/core/coreapi/pin.go:343-367 | walks that all succeeded have read everything the pins reach, although they pruned each other |
| PinListing.WalkFault | kubo-master/core/coreapi/pin.go:343-367 | a failing read is at a node the current root reaches |
| PinListing.Lister.AddToResultKeys | kubo-master/core/coreapi/pin.go:282-295 | a CID is emitted at most once, and only when its name passes the filter |
| PinListing.Lister.Stream | kubo-master/core/coreapi/pin.go:299-338 | a stream of pins emits exactly its pins that were not emitted before and pass the filter, and succeeds exactly when all can be read |
| PinListing.Lister.Walk | kubo-master/core/coreapi/pin.go:343-367 | one walk emits exactly what it visits first and what was not emitted before, or some node below the root cannot be read |
| PinListing.Lister.WalkAll | kubo-master/core/coreapi/pin.go:343-367 | all walks emit exactly what is below the pins and was not emitted before; success exactly when everything reachable can be read |
| PinListing.Lister.PinLsAll | kubo-master/core/coreapi/pin.go:278-370 | it runs to its end exactly when what it must read can be read; then it shows exactly what the reference shows for that type and filter, recursive before direct before indirect, and never a CID twice |
| BlockRemoval.Blockstore.FilterPinned | kubo-master/blocks/blockstoreutil/remove.go:78-96 | the unpinned CIDs are returned, exactly the pinned ones are reported, and a failed check returns none |
| BlockRemoval.Blockstore.RmBlocks | kubo-master/blocks/blockstoreutil/remove.go:37-71 | a failed pin check removes nothing; otherwise exactly the blocks of unpinned CIDs go on which the store does not fail; exactly the pinned CIDs are reported as such; unless quiet every block that went is reported, and no report of a removal is wrong; exactly the CIDs on which a query or a deletion fails are reported for that, and an absent block is reported missing unless forced |
| BlockRemoval.PinnedLostIff | kubo-master/blocks/blockstoreutil/remove.go:37-96 | a pinned stored block is lost if and only if an unpinned name of it was asked for and the store does not fail on it |
| BlockRemoval.OneNameSafe | kubo-master/blocks/blockstoreutil/remove.go:37-96 | with one name per block no pinned block is removed |
| BlockRemoval.SecondNameLosesPinned | kubo-master/blocks/blockstoreutil/remove.go:37-96 | an example in which a pinned block goes under its version 1 name |
| Routing.GoodUp | kubo-master/routing/delegated.go:65-149 | a router that is sound and refers only to good routers is good: a cycle through it would run through one of them |
| Routing.StackLoop | kubo-master/routing/delegated.go:77-80 | meeting a name that is still under construction closes a real reference cycle |
| Routing.Builder.Parse | kubo-master/routing/delegated.go:65-149 | success if and only if everything reachable is defined, of a known type, constructible and on no cycle; the error names a router that justifies it; visited without created is the stack under construction |
| Routing.Builder.ParseParts | kubo-master/routing/delegated.go:98-135 | the parts of a composed router are its references in order: each stands for the one router built for its name and has its error handling, timeout and, in a parallel router, delay, 0 unless given, and never waits for a value search |
| Routing.Check | kubo-master/config/routing.go:73-100 | success if and only if exactly the five methods are configured; otherwise the error blames a missing or an unsupported one |
| Routing.Composer.Set | kubo-master/routing/delegated.go:47-58 | setting a method fills its own slot and leaves the other four as they were |
| Routing.ParseAll | kubo-master/routing/delegated.go:31-63 | for every order in which the methods are visited: success if and only if the methods check and every method's router is good, and then every slot holds the router of its method |
| Routing.BuiltOnce | kubo-master/routing/delegated.go:73-75 | no name is built twice |
| Routing.ComposedOfEarlier | kubo-master/routing/delegated.go:98-149 | every composed router in the build log has, in order, one part with the settings of each of its references, which stands for a router of the referenced name built before it |
| ConfigScrub.ScrubMapInternal | kubo-master/core/commands/config.go:268-287 | the loop over a map computes the reference scrub |
| ConfigScrub.ScrubEither | kubo-master/core/commands/config.go:253-259 | an object is scrubbed further, anything else yields nothing and no error |
| ConfigScrub.ScrubLookup | kubo-master/core/commands/config.go:243-287 | what every path holds after scrubbing: diverging paths are untouched, matching paths keep scrubbed objects only, nothing is left below the selector |
| ConfigScrub.NoMatchingLeaf | kubo-master/core/commands/config.go:243-287 | nothing but objects is left at a path the selector matches |
| ConfigScrub.ScrubIdempotent | kubo-master/core/commands/config.go:243-287 | scrubbing twice is scrubbing once |
| ConfigMerge.MergeReplacesIff | kubo-master/repo/common/common.go:66-92 | deep merging yields the right value if and only if that leaves out no key of an object it is merged with |
| ConfigMerge.MergeSame | kubo-master/repo/common/common.go:66-92 | merging a value with itself changes nothing |
| ConfigShape.EncodeRead | kubo-master/config/config.go:130-142 | a typed value of any shape that is encoded and decoded again is the same with omitted fields at zero |
| ConfigShape.WrittenOver | kubo-master/repo/fsrepo/fsrepo.go:645-669 | for every shape, decodable file and typed value: what is read back after the encoded value was merged into the file is the written value, with the old entries that a map lacks and the old values of omitted fields |
| ConfigShape.OverExactIff | kubo-master/repo/fsrepo/fsrepo.go:645-669 | what is read back is what was written if and only if no map that is not nil lacks an old entry and every omitted field was as empty before |
| ConfigShape.OverSelf | kubo-master/repo/fsrepo/fsrepo.go:645-669 | a typed value written over itself is read back unchanged |
| ConfigShape.UnknownIgnored | kubo-master/config/config.go:130-142 | a field unknown to a struct has no influence on whether and how it is decoded |
| ConfigReplace.MemberScrubbed | kubo-master/core/commands/config.go:268-287 | decoding what a scrub leaves of a struct, of which the selector hits one member, changes that member alone |
| ConfigReplace.ServicesConcealed | kubo-master/config/remotepin.go:5-5 | below the star every service loses its key and nothing else, and a service that is null goes |
| ConfigReplace.ShowReads | kubo-master/core/commands/config.go:211-224 | the three scrubs of `config show` change the key, the authorizations and the services of what is decoded, and no other section of whatever shape |
| ConfigReplace.ShowConceals | kubo-master/core/commands/config.go:211-224 | what is shown of any decodable file decodes to the configuration without private key, authorizations and service keys, and with everything else but services that are null |
| ConfigReplace.OverWithoutAuthorizations | kubo-master/config/api.go:27-31 | a configuration written over itself without its authorizations is read back with them, because empty ones are omitted |
| ConfigReplace.LeftOutZeroed | kubo-master/config/config.go:132-142 | a section of scalar or map type that is not of the omitted kind and is written as zero is read back as zero, whatever the file held |
| ConfigReplace.Repo.SetConfig | kubo-master/repo/fsrepo/fsrepo.go:645-669 | the running instance gets the new configuration, the file is read as that written over the old one, and top-level fields unknown to the typed configuration stay |
| ConfigReplace.ReapplyApi | kubo-master/core/commands/config.go:552-579 | success exactly when no service is added, dropped or redirected; then every service has its old API details and its new policies |
| ConfigReplace.ConcealedRestored | kubo-master/core/commands/config.go:535-579 | what is shown may be written back, and with key and API details restored it lacks only the authorizations |
| ConfigReplace.RestoredIff | kubo-master/core/commands/config.go:535-579 | what is stored is the one configuration that has every section of the input but these two: of the identity only the private key differs and is the old one, of the remote services only the API details differ and are those of the old service of that name |
| ConfigReplace.Repo.ReplaceConfig | kubo-master/core/commands/config.go:527-582 | success exactly when the input decodes, names no secret, adds and drops no service and changes no API details, and the file has a key; then the running instance has the input, of which, field by field, only the private key and the API details of the services differ and are the old ones, and the file is read as that written over the old content; on failure nothing changes |
| ConfigReplace.Repo.ShowThenReplace | kubo-master/core/commands/config.go:211-224 | replacing by what was shown fails only for want of a key or because a service is null; the file is then read exactly as before, and the running instance has all of it if and only if there were no authorizations |
| RemoteFile.ApiFile.Reset | kubo-master/client/rpc/apifile.go:78-96 | a new request streams from the position, and fails exactly when the request does or the position is negative |
| RemoteFile.ApiFile.Read | kubo-master/client/rpc/apifile.go:98-104 | the bytes are those of the file at the position, as many as asked for, delivered and left, and the position moves past them; end of file exactly when something was asked for and nothing is left; a panic exactly without an open response |
| RemoteFile.ApiFile.ReadAt | kubo-master/client/rpc/apifile.go:106-123 | the bytes are the window at the offset, end of file exactly when it is short, and the file's own position does not change |
| RemoteFile.ApiFile.Seek | kubo-master/client/rpc/apifile.go:125-144 | skipping and resetting both leave the unread stream of a plain file at the target; exactly when a seek succeeds, and when it panics; where a failed one leaves the file, and when it reports the end of the file |
| CatCommand.ProgressStep | kubo-master/core/commands/cat.go:151-183 | skipping or appending a file keeps the readers equal to what is left after the offset |
| CatCommand.WindowOfPrefix | kubo-master/core/commands/cat.go:172-181 | stopping early at files that fill the window does not change the window |
| CatCommand.Cat | kubo-master/core/commands/cat.go:124-186 | the readers concatenate to exactly the window of the concatenated files and the length is its size; an error exactly when a node that is not a file comes before the window is full |
| NotFoundErrors.KeyFound | kubo-master/client/rpc/errors.go:74-86 | the key phrase overlaps no shifted copy of itself, so it is found right behind a prefix without it |
| NotFoundErrors.HandledIff | kubo-master/client/rpc/errors.go:49-159 | a message is handled if and only if it is empty, or a CID of version 0 or in base 32, or the word for an undefined one, follows its first key phrase, or it speaks of a blockstore; the last kind alone keeps the whole message |
| NotFoundErrors.RecoversParts | kubo-master/client/rpc/errors.go:74-137 | parsing a message made of a prefix, a canonical or undefined CID and a suffix recovers exactly the three parts |
| NotFoundErrors.RoundTripIff | kubo-master/client/rpc/errors.go:26-28 | printing a handled message gives it back if and only if it spells its CID the way CIDs are printed |
| NotFoundErrors.OtherSpellingLost | kubo-master/client/rpc/errors.go:74-137 | with every decoder that ignores case, a message that spells any letter of a base 32 CID in upper case is handled and prints with the CID in its canonical spelling, so differently |
| RequestLog.RetainedExact | kubo-master/commands/reqlog.go:69-80 | an entry is retained if and only if it is in the log and active, or its end time plus the keep time lies in the future |
| RequestLog.RetainedIncreasing | kubo-master/commands/reqlog.go:69-80 | compaction keeps ids strictly increasing |
| RequestLog.ReqLog.Cleanup | kubo-master/commands/reqlog.go:69-80 | the in-place loop leaves exactly the retained entries, in order |
| RequestLog.ReqLog.AddEntry | kubo-master/commands/reqlog.go:37-48 | the next id is given out, ids stay increasing, no active entry is lost, and only every tenth size triggers a clean-up |
| RequestLog.ReqLog.Finish | kubo-master/commands/reqlog.go:103-111 | the entry is marked finished, no active entry is lost, and what is left is the log, cleaned up at every tenth size |
| RequestLog.ReqLog.ClearInactive | kubo-master/commands/reqlog.go:51-59 | exactly the active entries and those with a future end time are left, the keep time is restored, and only active ones are left if and only if no inactive end time lies in the future |
| P2pStreams.CountedAdd | kubo-master/p2p/stream.go:75-87 | counting one more stream of a peer keeps every count equal to the number of its streams |
| P2pStreams.CountedRemove | kubo-master/p2p/stream.go:90-106 | removing a stream and dropping a zero count keeps every count equal to the number of streams |
| P2pStreams.StreamRegistry.Register | kubo-master/p2p/stream.go:75-87 | an id that no stream has or had, exactly one stream more, every registered stream still filed under its own id or gone, counts and tags in step |
| P2pStreams.StreamRegistry.Deregister | kubo-master/p2p/stream.go:90-106 | exactly that stream goes, a second time nothing happens, counts and tags in step |
| P2pStreams.StreamRegistry.Close | kubo-master/p2p/stream.go:109-113 | for every stream that was ever registered: both ends are closed, that stream goes and no other, and a repeated close changes no count |
| P2pStreams.StreamRegistry.Reset | kubo-master/p2p/stream.go:116-120 | the same with a reset of the remote end |
| OnlyOneRepo.BalanceAppend | kubo-master/repo/onlyone.go:26-72 | one more opening or closing changes the balance of its key alone |
| OnlyOneRepo.OnlyOne.Open | kubo-master/repo/onlyone.go:26-48 | the repository is opened exactly when nobody holds the key; the count is the number of handles held; a failed opening changes nothing |
| OnlyOneRepo.OnlyOne.Close | kubo-master/repo/onlyone.go:59-72 | giving back the last handle closes the repository once and makes the key inactive, any other does not |
| FileTree.SplitJoin | frontend/utils/filesystem.ts:21-21 | every list of proper names is the split of some path |
| FileTree.SplitName | frontend/utils/filesystem.ts:21-21 | a path without a slash is its only part, and the empty path has none |
| FileTree.SplitSlash | frontend/utils/filesystem.ts:21-21 | for any two strings, the parts of both joined by a slash are the parts of the first and then those of the second |
| FileTree.SplitUnique | frontend/utils/filesystem.ts:21-21 | nothing else splits by these two laws, on any string |
| FileTree.FileSystem.PrefixesExist | frontend/utils/filesystem.ts:24-35 | all prefixes of an existing path exist, and the proper ones are folders |
| FileTree.FileSystem.AddFolder | frontend/utils/filesystem.ts:20-36 | it makes every prefix a folder and adds nothing else, keeping every existing entry, or throws exactly when a prefix is a file, with the tree unchanged |
| FileTree.FileSystem.AddFile | frontend/utils/filesystem.ts:38-55 | it fails exactly when the folder does not exist; otherwise the file is there, nothing is below it, and every path not under its name is as before |
| FileTree.FileSystem.ListFolderContents | frontend/utils/filesystem.ts:57-69 | exactly the nodes directly below the folder, or failure exactly when the folder does not exist |
| FileTree.FileSystem.AddThenList | frontend/utils/filesystem.ts:38-69 | a file that was added is listed with its name, CID and timestamp |

## Left out

* The blockstore, the pinner, `dag.Walk`, MFS and the CID codec are libraries outside
  this repository. They appear as small contracts: a store keyed by hash, pin sets, a
  walk in any order that asks before it expands a node, a link getter that answers raw
  CIDs without reading them, decoding and printing of CIDs as given functions. The link function is a fact about a block's content.
* How an adder chunks files and lays out directories: an adder step writes any set of
  blocks such that everything below its new roots is written or was stored before, the
  root it pins holds all files added, and a tree that has grown since a pause is not
  part of what it was then. Those are the contracts of the layout code. Listing the tree
  reads every directory and entry from the store, or fetches it into the store; that
  some of them may still be cached is not modelled.
* Adders that do not pin take no lock; they are among the writers of the protocol's
  unlocked writes, and nothing is promised to them.
* The protocol's clients and adders are steps of a transition system instead of
  methods, because their point is how they interleave; each step is atomic, and
  flushing a pin set is part of the step that changes it.
* The lock's preference for waiting writers: any waiter may get it, which allows more
  runs. A collector may start at any time between its request and its unlock.
* Names in the protocol are version 1 CIDs, with one name per block where a removal is
  concerned; `RemoveBlocks.dfy` treats several names.
* Cancellation, except that a sweep may stop after any number of keys; channels,
  buffering, tracing and logging.
* The text of errors and which of several errors of one kind is carried.
* CheckPin: the error value kept for a bad node is not modelled, only the node.
* CheckPin, Verify: graphs are acyclic, as content addressing makes them; the rank in
  their contracts says so. The same holds for Run when it neither deduplicates nor
  limits the depth.
* Run: formatting of edges, failures to emit a line, and the order of lines with
  deduplication.
* Parse: type assertions that panic on parameters of the wrong kind, and the
  construction of HTTP and DHT routers, which is an oracle that succeeds or fails.
* ShowThenReplace: decoding matches field names exactly, where the JSON library ignores
  case; a scalar of the wrong kind, such as a number for a text, is not told apart, an
  array counts as a scalar, and fields with decoders of their own count as scalars or as
  untyped JSON. The shapes of identity, API and remote services are spelled out, those
  of the other sections are arbitrary. Letter case is folded for ASCII only.
* ParseErrNotFound: how a CID is decoded is a parameter; of a CID only its version and
  identity are modelled.
* AddEntry: the entry is not in the log yet, as with every caller in the repository.
* Close: of `OnlyOne`, one call more than there were opens; of the stream registry,
  streams that were never registered, which the code does not create.
* PinAddIsComplete: that a recursive pin add fetches everything below the new pin, and an
  update everything that is not below the old one, is a contract of the pinner; what is
  proved is what follows from it.
* Register: a stream is registered once, as by both its callers; ids, counts and lengths are unbounded integers, here and elsewhere; the
  64-bit and 32-bit wrap-around of the source needs more operations than can happen.
* AddFolder: names inherited from the JavaScript object prototype count as absent.
* Copies for reports, periodic and conditional collection, command-line parsing,
  encoders, the HTTP gateway, key generation, naming and the content routing protocols.
