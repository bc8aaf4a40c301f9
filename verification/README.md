# A verified model of the jobs-iroh core

jobs-iroh is a build system over a content-addressed object store. This project
models the parts of it in which state, recursion or concurrency carry a promise
to the rest of the system, and proves those promises in Dafny. Check it with
`dafny verify dfyconfig.toml`.

Conventions used throughout:

- A content key has no collisions, so a key is modelled by the content it names:
  a tree key by the directory tree (`FsTree`), an object key by the object and
  everything below it (`Objects`).
- Clocks, the network, disks and foreign tools are parameters or arbitrary
  choices. A `faulty` store or a `flaky` stream may fail at any call; one that is
  neither may not. A peer is an arbitrary function from the frames it has
  received to the frames it sends.
- Code that changes things step by step is a class with fields or a method with
  a loop; a protocol between goroutines is a set of atomic steps, and a claim
  about it covers every order of the steps.

| file | what it models |
|---|---|
| `FsTree.dfy` | directory trees, paths, Go's lexical path cleaning |
| `Prune.dfy`, `PruneLaws.dfy` | `amber/prune.go`: the keep-set trie, PruneTree, NormalizeTree |
| `Cover.dfy`, `CoverLinks.dfy`, `CoverLaws.dfy` | `cover/cover.go`: the symlink-chasing closure walk, and why pruning to it is safe |
| `Overlay.dfy` | `amber/overlay.go`: grafting generated files onto a tree |
| `Identity.dfy` | `cover/cover.go`, `amber/kptree.go`: deriving KP |
| `Objects.dfy`, `Pack.dfy`, `WantSync.dfy`, `Transfer.dfy` | `amberiroh/wantsync.go`, `amberiroh/pack.go`: the have/want transfer |
| `RefCommit.dfy` | `amberiroh/server.go`, `amberclient/client.go`: reference commits under concurrency |
| `ShardPool.dfy` | `amberclient/pool.go`: the shard-connection pool |
| `BuildRefs.dfy`, `BuildGraph.dfy`, `BuildDriver.dfy`, `BuildRuns.dfy` | `runner/`: the local build driver and the order of its reference writes |
| `LayerStream.dfy` | `registryd/stream.go`: the seekable regenerated layer |
| `RefTrack.dfy`, `GcSweep.dfy` | `reftrack/reftrack.go`, `gcsweep/gcsweep.go`: reference expiry |

## Promises that need a condition

Where the code does less than its documentation says, the model follows the code.
Each item names the member that shows the case and the member that gives the
condition under which the promise does hold.

- A declared source that does not exist is documented as an error
  (cover/cover.go:54-57). `Cover.Walk` and `Cover.WalkClosure` state exactly when a
  walk succeeds: no path it must visit is in trouble, and every declared path
  exists or the declared paths before it already lead there through symlinks. So
  the order of the declared paths decides: with a symlink a to a missing b, the
  walk from a and b succeeds and the walk from b and a fails
  (`Cover.MissingDeclaredAccepted`).
- The per-name lock is documented to make compare-and-swap race-free
  (amberiroh/server.go:187-189). The server's own reference writes, such as
  sched/kp.go:132-135 and sched/results.go:235, do not take it. For a name that
  only pushes write, every compare-and-swap replaces exactly the value it named
  (`RefCommit.EveryRunIsSafe`); for any other name there is an interleaving in
  which it does not (`RefCommit.OwnWritesDefeatCas`).
- A layer generator that runs short is documented to surface as a truncation
  (registryd/stream.go:107-112). When it runs short while skipping to the read
  position the reader gets a clean, sticky end of file
  (`LayerStream.ShortSkipLooksClean`); `LayerStream.Stream.Read` states that this
  happens if and only if the generator ends before the position the read starts
  from.
- The tracker is documented to keep both halves of a build-output pair on one
  clock (reftrack/reftrack.go:27-29). Touch breaks the pair exactly when it seeds
  the deps of a pinned output (`RefTrack.TouchKeepsStepIff`), Reconcile exactly
  when it completes a half-tracked pair whose halves do not fit
  (`RefTrack.ReconcileKeepsStepIff`).
- A sweep is documented never to delete deps while their output survives
  (gcsweep/gcsweep.go:216-222). It can in three ways: the pair is out of step
  (`GcSweep.DepsLostBehindOutput`); a pin that saved the output at its turn is taken
  back before the turn of the deps (`GcSweep.DepsLostToUnpin`), since unpinning does
  not take the sweep lock (gcsweep/gcsweep.go:368-379); or a build writes the pair
  again, deps first, between the two turns (`GcSweep.DepsLostToWrite`), since neither
  do reference writes (amber/ref.go:33-60), and the re-fetch asks only for pins.
  `GcSweep.LostIff` gives the exact condition for every pass, whatever deletes fail
  and whatever accesses land at any point of it. Hence deps are safe when each pair
  fits (the deps have expired only if the output has), nothing is unpinned, and
  outputs are written only with their deps after the turn of the deps
  (`GcSweep.Sweep`); an undisturbed sweep loses none if and only if every pair fits
  (`GcSweep.UndisturbedSweep`), and pairs in step fit at any cutoff
  (`GcSweep.StepFits`).
- An entry is re-fetched immediately before its delete so that a pin that landed
  since the list was made is seen (gcsweep/gcsweep.go:230-232). A pin that lands
  between that look (line 233) and the delete (line 237) succeeds and does not save
  the name (`GcSweep.PinnedDeleted`). `GcSweep.PinHolds` says which pins hold: those
  before the check keep every name they are about, those after it all but the name
  that this turn deletes.
- A cover that does not reach the build directory is documented as an error when
  pinning, so that the sandbox never fails to enter it (cover/cover.go:100-104). The
  check also accepts a covered path above the directory, which need not be there:
  the cover of a file a is accepted for the build directory a/b
  (`CoverLaws.WorkdirMissing`). After a successful check the directory is in the
  pruned tree if and only if it is in the context (`CoverLaws.WorkdirSurvives`).
- The driver reports a dependency cycle when it meets a node in progress
  (runner/develop_linux.go:162-164). A cycle of unfinished nodes that need each
  other always ends in an error, wherever a driver starts on it
  (`BuildRuns.DriveCycle`). A source edge of a build whose build-from bridge is
  already there is not such a need: the driver joins the output through the bridge
  when another definition of the same tree has produced it, so that driving a node
  on a cycle of unfinished definitions can succeed (`BuildRuns.JoinUntiesCycle`).
  `BuildRuns.DriveAll` gives the exact condition, one that can be read off the
  finite graph and the store: some order of drives finishes a node if and only if
  it lies in no knot, a set of nodes each of which waits for one of the set.

## Model

| member | source | states |
|---|---|---|
| `FsTree.JoinUps` | cover/cover.go:201-202 | joining k times ".." and then a proper path to a directory gives that path below the k-th directory above it, and leaves the root exactly if there is none |
| `FsTree.JoinUndoes` | cover/cover.go:201-201 | ".." undoes a name, empty and "." components do nothing, and ".." at the root leaves it |
| `FsTree.JoinNames` | cover/cover.go:201-201 | names are appended |
| `FsTree.JoinInSteps` | cover/cover.go:280-280 | joining in two steps is joining at once |
| `FsTree.JoinEscapesIff` | cover/cover.go:201-207 | the join leaves the root if and only if some part of the way climbs above it, and otherwise ends as deep as the way leads |
| `FsTree.CleanIsJoin` | amber/prune.go:68-68 | cleaning a rooted path is the join while that stays inside, and ".." at the root does nothing |
| `FsTree.CleanUps` | amber/prune.go:68-68 | however often a path climbs above the root first, its names are left |
| `Prune.AddCovers` | amber/prune.go:28-45 | adding a path to the trie covers exactly what was covered before and what lies at or below the path |
| `Prune.AddTouches` | amber/prune.go:28-45 | and reaches exactly what was reached before and what lies on, below or above the path |
| `Prune.AddAllMeaning` | amber/prune.go:65-76 | the trie of a keep list depends only on its set of paths |
| `Prune.PruneDir` | amber/prune.go:95-144 | fails exactly when some trie path is missing or runs through a non-directory, and otherwise emits exactly the covered part; every emitted entry has the kind, mode, extended attributes, content and link target it had, with uid 0, gid 0 and the fixed mtime |
| `Prune.PruneTree` | amber/prune.go:65-81 | computes the specification whose meaning PruneSucceedsIff and PruneExact give, for any raw keep list; every entry of the result is such a copy of what was there |
| `Prune.NormalizeTree` | amber/prune.go:88-93 | never fails; every entry of the result is such a copy, and none is missing |
| `Prune.NormEntryCopies` | amber/prune.go:83-93 | normalising an entry copies it and everything below it, field by field |
| `PruneLaws.PruneSucceedsIff` | amber/prune.go:59-81 | pruning succeeds if and only if the keep list is non-empty, holds no root path, and every keep path that no shorter one absorbs exists |
| `PruneLaws.PruneExact` | amber/prune.go:47-57 | the result holds exactly the entries on, below or above a keep path, each a copy field by field, and whole copied subtrees at and below one |
| `PruneLaws.PruneDependsOnCover` | amber/prune.go:28-45 | order, repetition and nesting of the keep list change neither the result nor whether there is one |
| `PruneLaws.PruneStable` | amber/prune.go:52-57 | normalising first or pruning twice changes nothing |
| `PruneLaws.PruneSameIffAgree` | amber/prune.go:52-57 | two trees prune alike if, on the kept region, they have entries of the same kind, mode, extended attributes, content and link target, and only then |
| `PruneLaws.TrieExtensionality` | amber/prune.go:20-45 | tries built by add that cover the same paths are equal |
| `Cover.Walker.constructor` | cover/cover.go:64-73 | a fresh walker; every set its invariant needs is finite and closed |
| `Cover.Walker.ResolvePath` | cover/cover.go:239-300 | the loop computes component-wise resolution under the link budget, and covers exactly the symlinks it met |
| `Cover.Walker.CoverPath` | cover/cover.go:157-190 | terminates on cyclic links; on success everything newly visited is dealt with; a missing declared path is accepted if and only if it was visited before; any other failure is a path the walk must visit and cannot cover |
| `Cover.Walker.CoverEnd` | cover/cover.go:175-189 | the resolved end is visited and covered, and every link at or below it was chased |
| `Cover.Walker.ChaseLink` | cover/cover.go:194-209 | an in-root target was visited; an escaping one is accepted only if its link may escape |
| `Cover.Walker.ScanDir` | cover/cover.go:213-232 | every link below the directory was chased |
| `Cover.FoundIsStored` | cover/cover.go:239-300 | what resolution reports is stored where it says, and the links it met are symlinks |
| `Cover.StoredOrThroughLink` | cover/cover.go:239-300 | a path that resolves is stored as such, or runs through a symlink that resolution met |
| `Cover.UniverseHosts` | cover/cover.go:157-300 | seeds, stored paths and link targets are a finite set that the walk never leaves, for every tree |
| `Cover.Walk` | cover/cover.go:64-95 | succeeds if and only if there is a seed, every path it must visit resolves and has no symlink at or below its end that escapes without permission, and every seed exists or is where the seeds before it already lead; success gives the closure of the seeds, with warnings for exactly the visited paths that do not exist |
| `Cover.WalkClosure` | cover/cover.go:105-141 | the same without seeding the build directory, and if and only if the closure reaches that directory |
| `Cover.ExpansionHosts` | cover/cover.go:157-232 | the visited paths are closed under resolving, chasing and scanning |
| `Cover.ExpansionLeast` | cover/cover.go:157-232 | and are contained in every closed set with the seeds in it |
| `Cover.ExpansionUnique` | cover/cover.go:47-52 | so two walks that succeed from the same set of seeds, in any order, have the same cover |
| `Cover.ExpansionUnblamed` | cover/cover.go:157-232 | after a successful walk no path it had to visit is in trouble |
| `Cover.CoverSeed` | cover/cover.go:83-87 | one seed on top of a finished walk: a missing one is accepted exactly when the seeds before it lead there |
| `Cover.VisitedIsDue` | cover/cover.go:157-232 | what a finished walk has visited is exactly what every closed set with the seeds in it holds |
| `Cover.MissingDeclaredAccepted` | cover/cover.go:64-95 | a walk that succeeds with a declared source that does not exist, and fails with the two declared sources swapped |
| `CoverLinks.TargetMeans` | cover/cover.go:194-209 | a relative target is read from the directory that holds the link; a target leaves the context exactly if it is absolute or climbs higher than that directory is deep |
| `CoverLinks.LinkTargetCovered` | cover/cover.go:192-232 | if a link at or below a path that the walk visits goes k levels up and then down q, and that is stored, a successful walk covers it and visits it in turn |
| `CoverLinks.EscapeRefused` | cover/cover.go:194-208 | a walk that must visit a path with a link at or below it that is absolute or climbs out of the context fails unless that very link may escape |
| `CoverLinks.ThroughLink` | cover/cover.go:266-285 | a path through a link is followed from where the link leads, and what is stored there is found; the link is covered |
| `CoverLinks.ThroughEscape` | cover/cover.go:276-283 | a path through a link that leaves the context is an error |
| `CoverLinks.NoWayOn` | cover/cover.go:249-296 | a name that its directory lacks is missing, and a path through a file or device is an error |
| `CoverLinks.DotsPassedOver` | cover/cover.go:245-248 | empty and "." components are passed over |
| `CoverLinks.SeedCovered` | cover/cover.go:157-171 | a seed that is stored is covered |
| `CoverLinks.WalkCovers` | cover/cover.go:64-95 | Walk covers the build directory, unless it is the root, and every declared source that is stored |
| `CoverLinks.DeclaredReaches` | cover/cover.go:121-133 | one declared path that is stored at, under or above the build directory is enough for WalkClosure |
| `CoverLinks.FortyLinks` | cover/cover.go:27-29 | a path through a chain of n links is found if and only if n is at most forty |
| `CoverLaws.WalkedPathsPrune` | cover/cover.go:157-300 | PruneTree never fails on the paths of a successful walk |
| `CoverLaws.WorkdirSurvives` | cover/cover.go:105-133 | after WalkClosure the build directory is a directory of the pruned tree if and only if it is one of the context |
| `CoverLaws.WorkdirMissing` | cover/cover.go:97-133 | a cover that WalkClosure accepts for a build directory that neither the context nor any pruned tree has |
| `CoverLaws.ResolutionPreserved` | cover/cover.go:234-300 | any path at or below a seed that resolves in the full context resolves in the pruned tree to the same place, with a copy, field by field, of the entry and of everything below it |
| `CoverLaws.FollowPreserved` | cover/cover.go:172-189 | the same with chains of final symlinks followed: none dangles after pruning |
| `CoverLaws.PruningInventsNothing` | amber/prune.go:95-144 | whatever resolves in a pruned tree resolves in the full one to the same place, kind, mode, extended attributes, target and content |
| `Overlay.InsertMeaning` | amber/overlay.go:41-62 | inserting a generated file succeeds exactly when no generated entry lies at, above or below it, and adds just that file |
| `Overlay.InsertIffCompatible` | amber/overlay.go:36-62 | over any subset of the files already inserted, insertion fails exactly on coinciding or prefix-related paths |
| `Overlay.EmitNewDir` | amber/overlay.go:134-162 | emits the directory that exists only in the overlay |
| `Overlay.EmitDir` | amber/overlay.go:70-131 | fails exactly when a file lands on a directory or a path descends through a non-directory, and otherwise emits the grafted directory |
| `Overlay.GraftedView` | amber/overlay.go:70-131 | the grafted tree, path by path |
| `Overlay.OverlayTree` | amber/overlay.go:31-68 | succeeds if and only if the files are compatible and none collides; reads as the generated file, of mode 0444, at each declared path, as a directory of mode 0555 where one had to be created, and as the old tree elsewhere |
| `Overlay.OverlayUnique` | amber/overlay.go:23-30 | those two conditions determine the result, so map order shows nowhere |
| `Identity.SumGenerated` | cover/cover.go:340-346 | the total size of the generated files, whatever the iteration order |
| `Identity.SizeIsSum` | cover/cover.go:340-346 | in whatever order the files are listed, their lengths add up to the size |
| `Identity.Derive` | cover/cover.go:310-338 | derives from the covered tree with the generated files laid over it, with version 2, and fails exactly when the blob generates more than 1048576 bytes, declares two covers, does not prune or does not overlay |
| `Identity.CoveredView` | cover/cover.go:319-332 | the covered tree holds a copy, field by field, of the context at, below and above the paths that the closure or the sources spell, or of all of it when there are none, and nothing else |
| `Identity.IdentityIgnoresUncovered` | cover/cover.go:302-338 | contexts that agree on the cover derive the same KP or fail alike, whatever differs elsewhere |
| `Identity.IdentitySeesCover` | amber/kptree.go:26-76 | equal KPs mean equal pinned bytes, equal platform and, on the whole cover, the same kinds, modes, extended attributes, contents and link targets, save where generated files lie over it |
| `Identity.IdentityStable` | cover/cover.go:319-332 | deriving from the normalised or the already covered context changes nothing |
| `Pack.ChunkWriter.Write` | amberiroh/pack.go:17-30 | whatever the sizes of the writes, the frames are the full chunks of all bytes written and the buffer is the rest |
| `Pack.ChunkWriter.Flush` | amberiroh/pack.go:32-39 | emits the buffer as one frame, and nothing when it is empty |
| `Pack.ChunkWriter.Finish` | amberiroh/pack.go:41-46 | the last partial chunk, then the terminator |
| `Pack.ChunksAppend` | amberiroh/pack.go:17-30 | appending to a stream only affects its partial chunk |
| `Pack.AllPayload` | amberiroh/protocol.go:37-38 | a pack is payload up to its terminator: 1048576 bytes in every frame but the last, which is not empty |
| `Pack.PackReader.Read` | amberiroh/pack.go:90-119 | reads the payload bytes in order; a clean end only at the terminator, an error only on a stream cut short, and both stick |
| `Pack.ReadRecords` | amberiroh/wantsync.go:253-268 | reads record after record, wherever the frames cut them, up to the closing |
| `Pack.DecodePack` | amberiroh/wantsync.go:253-274 | a pack counts only when its closing arrived and its frames ran through the terminator, and leaves the stream at the next frame; for any pack format |
| `Pack.ScanToken` | amberiroh/pack.go:90-119 | reading on from the middle of a record gets to its end |
| `Pack.ScanSound` | amberiroh/wantsync.go:253-268 | what is read was written: the bytes begin with one record for every item read, in order, and reading succeeds if and only if a closing follows them |
| `Pack.PackRoundTrip` | amberiroh/pack.go:54-119 | for any format that reads back its own records, a finished pack decodes to exactly the objects put into it, however the records fall across the frames, and leaves the frames after it untouched |
| `Pack.EndsIffTerminated` | amberiroh/pack.go:90-119 | a pack ends if and only if nothing but payload comes before a terminator |
| `Pack.CutPackFails` | amberiroh/pack.go:52-53 | a pack cut anywhere, with or without an error frame after the cut, is never taken as a success |
| `Objects.CompleteMeans` | amberiroh/wantsync.go:44-60 | an object is complete if and only if every object that a chain of children leads to is there |
| `Objects.PackStore.Probe` | amberiroh/wantsync.go:44-60 | Has and CheckComplete on a store that others may be filling: complete means complete now, missing means incomplete when it was asked |
| `Objects.PackStore.WriteParallel` | amberiroh/wantsync.go:297-297 | the store's contract: every object with its bytes checked against its key, or an error and only checked objects; others may store at the same time |
| `WantSync.SplitWants` | amberiroh/wantsync.go:23-28 | the two parts are the wants in order; the first is as long as the cap allows |
| `WantSync.NeededMeaning` | amberiroh/wantsync.go:30-62 | exactly the incomplete keys of the frontier, each once, weighing no more than the frontier |
| `WantSync.WantsOf` | amberiroh/wantsync.go:36-62 | on a store that others may be filling: asks for keys of the frontier that were incomplete when it began, each once, and leaves out only keys that are complete by now; exactly what is needed if nobody else stored anything; fails only with the store |
| `WantSync.LeastLoaded` | amberiroh/wantsync.go:366-371 | the channel with the lowest ratio of load to weight, ties to the lower index |
| `WantSync.DealWants` | amberiroh/wantsync.go:350-380 | the shards hold exactly the wants in their relative order; in bytes, an empty object counting as one, and weighed by the throughputs, one below 1 counting as 1, no shard is ahead of another by more than its own last key |
| `WantSync.CheckDelivered` | amberiroh/wantsync.go:390-405 | true if and only if every requested key arrived |
| `Transfer.DedupeKeys` | amberiroh/wantsync.go:469-480 | first occurrences, in order |
| `Transfer.DedupeMeaning` | amberiroh/wantsync.go:467-480 | the same keys, each once; a list without repeats is unchanged |
| `Transfer.SendPack` | amberiroh/pack.go:54-69 | a whole pack, or, when an object is missing, the full chunks before it and no terminator |
| `Transfer.Send` | amberiroh/wantsync.go:410-465 | everything a sender writes over a whole session, and whether it ends, aborts or waits |
| `Transfer.AnswerMeans` | amberiroh/wantsync.go:410-465 | an empty request ends the session and anything but a request aborts it, without an answer; a request for held keys is answered by one pack from which exactly they are read, each once; any other by frames that end in an error and are read as a failure, and the session is aborted |
| `Transfer.RepliesAreSend` | amberiroh/wantsync.go:410-465 | the replies of an honest peer over a whole session are what Send writes |
| `Transfer.HonestRound` | amberiroh/wantsync.go:407-465 | one round on an honest channel delivers exactly the requested objects and leaves the channel frame-aligned |
| `Transfer.RoundKeepsHeld` | amberiroh/wantsync.go:326-328 | a round keeps the invariant that the root is held together by the store and the frontier |
| `Transfer.HeldIsComplete` | amberiroh/wantsync.go:201-209 | with the frontier complete, so is the root |
| `Transfer.Gather` | amberiroh/wantsync.go:211-276 | deals exactly the keys asked for over the channels and reads every pack to its end; the items are those of the packs, in any arrival order, for any weights and any peers |
| `Transfer.Exchange` | amberiroh/wantsync.go:215-325 | a round that succeeds stored every object it received, checked, and received every key it asked for |
| `Transfer.Round` | amberiroh/wantsync.go:215-329 | keeps the frontier invariant for arbitrary peers; with honest ones it succeeds and the bound on the remaining work falls |
| `Transfer.RoundShrinks` | amberiroh/wantsync.go:282-328 | if exactly the requested keys arrive, the unfolded size of the next frontier is that of the wants, carried keys included, less the number of keys requested |
| `Transfer.Receive` | amberiroh/wantsync.go:161-330 | no error means that every object a chain of children leads to from the root is stored, for any peers, channels and initial store, while other transfers fill the same store, and each channel got only want rounds of at most 32768 keys and then one empty TWants; with honest senders it ends within as many rounds as the tree has objects, succeeds, and leaves every sender finished and nothing unread |
| `RefCommit.EveryRunIsSafe` | amberiroh/server.go:295-353 | in every interleaving each reference points at a wholly stored root, on the server and on every client, and each push replaces exactly what the last one left, each CAS push the value it named |
| `RefCommit.StepKeepsLocks` | amberiroh/server.go:190-200 | a name is locked by exactly the push that is committing to it |
| `RefCommit.StepKeepsChecks` | amberiroh/server.go:320-326 | a precondition checked under the lock stands until the commit |
| `RefCommit.StepKeepsWhole` | amberclient/client.go:555-566 | objects come before references, in pushes and in pulls |
| `RefCommit.StepKeepsHistory` | amberiroh/server.go:423-448 | the commits to a name form one chain of values |
| `RefCommit.PutWritesPushed` | amberiroh/server.go:327-344 | in every run a Put leaves the reference named by the push that it ends, the last one started under its id, at the root of that push, commits exactly that and changes no other; a CAS push had named the value there when it started |
| `RefCommit.OnlyPutsWrite` | amberiroh/server.go:327-344 | nothing but a Put and the writes of the server's own changes its references, and only a Put commits |
| `RefCommit.CommitsArePushes` | amberiroh/server.go:295-353 | every commit of a run has the name, root and precondition of a push in it |
| `RefCommit.PullDelivers` | amberclient/client.go:555-566 | a pull that completes leaves the client's reference at the value the server had when the pull started, and changes no other reference of any client |
| `RefCommit.OnlyPullsDeliver` | amberclient/client.go:555-566 | nothing else changes a reference of a client |
| `RefCommit.PushGoesThrough` | amberiroh/server.go:295-353 | from any state, a push to a name that is not locked goes through if all that its root needs arrives and its precondition holds |
| `RefCommit.PullGoesThrough` | amberclient/client.go:463-566 | and a pull of a reference that is there, once all that it needs has arrived |
| `RefCommit.EndReleases` | amberiroh/server.go:320-321 | however a push ends, it holds no lock afterwards |
| `RefCommit.IdleIsSafe` | amberiroh/server.go:295-353 | an idle system with whole references satisfies the invariant |
| `RefCommit.OwnWritesDefeatCas` | amberiroh/server.go:320-344 | for every name the server also writes by itself, a run in which a CAS push replaces a value it did not name |
| `ShardPool.Pool.constructor` | amberclient/pool.go:120-128 | the baseline is as given, or one, and the cap as given, or the baseline |
| `ShardPool.Pool.AcquireBegin` | amberclient/pool.go:170-252 | an entry is closed and leaves exactly if it is dead, or has an identity that a non-empty list of endpoints lacks, or is idle and has served 90 transfers or rides a relay more than 300 seconds after its dial; starts the most dials that the transfer, the baseline per active transfer and the cap allow, spread over the endpoints |
| `ShardPool.ChooseSlots` | amberclient/pool.go:222-249 | no endpoint gets two dials more than another, and one that gets more than another is unreadable or has no more connections pooled |
| `ShardPool.Pool.Pick` | amberclient/pool.go:286-331 | reserves k usable entries or all there are, each with fewer streams than any passed over, or as many and used no earlier; counts the parked ones, marks first uses, and adds one stream and one use to each |
| `ShardPool.Pool.Release` | amberclient/pool.go:312-329 | takes one stream from each entry of the reservation and stamps it; a second call does nothing |
| `ShardPool.Pool.DialOk` | amberclient/pool.go:334-359 | the connection joins the pool, or after drain is handed over to be closed |
| `ShardPool.Pool.Discard` | amberclient/pool.go:365-388 | exactly the named entries leave the pool and are handed over to be closed |
| `ShardPool.Pool.CloseNext` | amberclient/pool.go:385-387 | closes a connection that was not closed before |
| `ShardPool.Pool.ScaleDown` | amberclient/pool.go:393-434 | acts exactly when idle, open and above the baseline; keeps that many entries, distinct identities first and each justified against each entry given up, among one identity direct before relayed and then the last used; closes exactly the others, none in use |
| `ShardPool.Retain` | amberclient/pool.go:405-420 | the two passes keep every identity or no identity twice, and nothing is given up for something less preferred |
| `ShardPool.Pool.Drain` | amberclient/pool.go:437-448 | closes every entry and refuses further work |
| `ShardPool.Pool.Do` | amberclient/pool.go:170-448 | every step keeps the invariant: entries and dials within the cap, stream counts equal to the reservations held, every dialed connection in exactly one place; a connection in use is closed only if dead, no longer advertised, discarded or drained |
| `ShardPool.Run` | amberclient/pool.go:170-448 | every interleaving keeps that invariant; once drained and settled, the connections closed are exactly those dialed, each closed once |
| `ShardPool.ReturnCounts` | amberclient/pool.go:313-329 | stream counts follow the reservations when one is returned |
| `ShardPool.TakeCounts` | amberclient/pool.go:293-309 | and when one is handed out |
| `ShardPool.PickedAreLightest` | amberclient/pool.go:287-309 | the first usable entries in load order are the least loaded ones |
| `ShardPool.SortStable` | amberclient/pool.go:287-292 | sorting keeps the order of connections of equal rank |
| `BuildRefs.RefStore.WriteRefs` | runner/refwriter.go:89-96 | writes a prefix of the batch in order, all of it unless the store fails; the history grows by exactly the states after each write, and every one is safe |
| `BuildRefs.BuildBatchSafe` | runner/buildrun.go:149-164 | wherever the batch of a build is cut off, a visible output has its closure and existing aliases still hold |
| `BuildDriver.RanWithAll` | runner/localbuild.go:59-140 | name by name, what was there when a stage of the log ran: outputs, runtime closures and blobs; and that no build ran whose output was there |
| `BuildDriver.Driver.EnsureInput` | runner/develop_linux.go:59-84 | terminates on every finite graph; without error the output resolves; every stage in the log ran with all it consumes in place, none runs for an input that is there, and every new reference comes from a stage that ran; a node in progress or in a knot gives an error; a smooth graph on a sound store gives none |
| `BuildDriver.Driver.EnsureImport` | runner/develop_linux.go:86-130 | the same for imports, with the visited and in-progress marks |
| `BuildDriver.Driver.DriveImport` | runner/develop_linux.go:97-129 | the fetcher build and its runtime closure exist before the import runs |
| `BuildDriver.Driver.EnsureBuild` | runner/develop_linux.go:157-200 | the same for builds; an unresolved build whose source is itself or in progress is an error |
| `BuildDriver.Driver.DriveBuild` | runner/develop_linux.go:167-199 | joins an existing output through the bridge, otherwise ensures the source first |
| `BuildDriver.Driver.BuildFromSource` | runner/develop_linux.go:188-199 | publishes the bridge, then drives the stages of the tree |
| `BuildDriver.Driver.DriveFStages` | runner/localbuild.go:59-140 | each stage runs only after what it consumes exists; a finished run leaves both F references equal to the KP ones |
| `BuildDriver.Driver.Prepare` | runner/localbuild.go:70-117 | pins, then ensures the pinned inputs, then derives KP; a tree that waits for itself does not get through |
| `BuildDriver.Driver.EnsurePinned` | runner/localbuild.go:70-103 | pins only after plugins and resolution deps exist |
| `BuildDriver.Driver.EnsurePinDeps` | runner/localbuild.go:208-237 | the plugins and then the resolution deps that the stored blob names, each in any order; one in a knot is an error |
| `BuildDriver.Driver.EnsureInputs` | runner/localbuild.go:240-262 | the inputs that the stored pinned blob names, in order; one in a knot is an error |
| `BuildDriver.Driver.DeriveKP` | runner/localbuild.go:146-183 | leaves the pinned alias that the build reads and the binding of F to KP |
| `BuildDriver.Driver.Finish` | runner/localbuild.go:119-138 | a memo hit, which runs no stage, or a build, then the aliases |
| `BuildDriver.Driver.Publish` | runner/buildrun.go:149-164 | the ordered batch keeps every invariant at every cut |
| `BuildDriver.Driver.WriteFAliases` | runner/localbuild.go:188-204 | copies both references, closure first |
| `BuildGraph.KnotStays` | runner/develop_linux.go:86-200 | nothing the driver writes outside a knot can finish a node of it |
| `BuildGraph.KnotUnion` | runner/develop_linux.go:86-200 | all knots together are a knot |
| `BuildGraph.StuckIsKnot` | runner/develop_linux.go:86-200 | when no unfinished node has all it needs, the unfinished nodes are a knot |
| `BuildGraph.FreeIsSmooth` | runner/develop_linux.go:86-200 | driving a node that has all it needs cannot fail |
| `BuildGraph.CycleIsKnot` | runner/develop_linux.go:91-94 | a cycle of unfinished nodes that need each other is a knot |
| `BuildRuns.DriveCycle` | runner/develop_linux.go:157-200 | driving any node of such a cycle ends in an error, on any store, and leaves the cycle as it was |
| `BuildRuns.DriveAll` | runner/develop_linux.go:59-200 | driving the graph in a suitable order finishes exactly the nodes that lie in no knot |
| `BuildRuns.DriveTwin` | amber/buildfrom.go:71-77 | finishing one definition of a tree finishes every other whose bridge is there |
| `BuildRuns.JoinUntiesCycle` | runner/develop_linux.go:167-174 | a cycle of unfinished definitions on which driving a node succeeds, through the bridge of another |
| `BuildRuns.ManyRuns` | runner/localbuild.go:59-140 | over any number of runs, of inputs or of trees, driven to the end or only pinned, each cut off at any write, a visible output always has its closure and F names point where KP names point |
| `LayerStream.Stream.Seek` | registryd/stream.go:56-75 | moves like the reader over the layer, and refuses like it |
| `LayerStream.SeekMeans` | registryd/stream.go:56-75 | where seeks from the start, from the position and from the end lead, and which are refused |
| `LayerStream.TailRead` | registryd/stream.go:56-117 | a read after a seek n bytes back from the end yields the last n bytes of the layer, as far as it goes |
| `LayerStream.Stream.Read` | registryd/stream.go:77-117 | answers like the reader over the layer; nothing reopens after Close; a clean early end if and only if the generator ends before the read position; a sound, full generator never fails it |
| `LayerStream.Stream.Reach` | registryd/stream.go:89-100 | brings the generator to the read position, restarting it only when it is past it |
| `LayerStream.Stream.Serve` | registryd/stream.go:101-116 | returns the layer's bytes at the position; a generator that runs dry here gives an error |
| `LayerStream.Stream.Restart` | registryd/stream.go:131-139 | a fresh generator from the start, or a sticky error |
| `LayerStream.Stream.Close` | registryd/stream.go:161-167 | closes for good |
| `LayerStream.Replay` | registryd/stream.go:56-167 | every history of calls, whatever the generators do, is one of the plain reader over the layer |
| `LayerStream.FailureSticks` | registryd/stream.go:141-149 | after a failure no read yields a byte or another answer |
| `LayerStream.ShortSkipLooksClean` | registryd/stream.go:94-100 | a short generator that is read as a clean end |
| `RefTrack.SiblingIsInverse` | reftrack/reftrack.go:92-100 | build-output:x and build-output-deps:x are each other's siblings, for every x |
| `RefTrack.SiblingMeans` | reftrack/reftrack.go:92-100 | and no other names are |
| `RefTrack.FamiliesApart` | reftrack/reftrack.go:23-43 | no name is in both families, and neither family is protected |
| `RefTrack.Tracker.Touch` | reftrack/reftrack.go:64-74 | resets the clock of the name and of its tracked sibling |
| `RefTrack.Tracker.Pin` | reftrack/reftrack.go:107-123 | pins and touches the name and its tracked sibling |
| `RefTrack.Tracker.Unpin` | reftrack/reftrack.go:127-140 | clears both flags and no clock |
| `RefTrack.Tracker.Reconcile` | reftrack/reftrack.go:170-185 | tracks exactly the listed names, new ones from now, known ones with their clocks |
| `RefTrack.Tracker.Expired` | reftrack/reftrack.go:190-212 | exactly the old, unpinned names that begin with none of shell:, fetcher: and seed-src:, each once, deps last, in string order |
| `RefTrack.ProtectedMeans` | reftrack/reftrack.go:23-43 | protected are the names that begin with shell:, fetcher: or seed-src: |
| `RefTrack.LexMeans` | reftrack/reftrack.go:200-212 | the order of the list: a prefix first, otherwise the smaller character where two names first differ |
| `RefTrack.TouchMeans` | reftrack/reftrack.go:64-90 | entry by entry: a touch sets two clocks and no pin, leaves every other entry alone and tracks a new name unpinned |
| `RefTrack.PinMeans` | reftrack/reftrack.go:107-123 | entry by entry: a pin sets two clocks and two flags |
| `RefTrack.UnpinMeans` | reftrack/reftrack.go:127-140 | entry by entry: an unpin clears two flags and nothing else |
| `RefTrack.PinKeepsStep` | reftrack/reftrack.go:102-140 | Pin and Unpin keep every pair in step |
| `RefTrack.TouchKeepsStepIff` | reftrack/reftrack.go:62-74 | Touch keeps every pair in step if and only if it does not seed the deps of a pinned output |
| `RefTrack.ReconcileKeepsStepIff` | reftrack/reftrack.go:167-185 | Reconcile does if and only if it completes no pair whose halves do not fit |
| `GcSweep.Sweep` | gcsweep/gcsweep.go:205-248 | whatever deletes fail and whatever accesses land before each check and between each check and its delete: what is left is what the replay of the pass on names leaves, and as many are counted as were deleted; only expired names go, only written ones come; a name that begins with shell:, fetcher: or seed-src:, or was untracked, pinned or used within the retention, stays; pins hold; expired names left alone go; no deps are lost when the pairs fit, nothing is unpinned and the writes fit; pairs in step stay in step if nothing is written |
| `GcSweep.Turn` | gcsweep/gcsweep.go:225-247 | one name from its check on, with accesses between check and delete: it is deleted exactly when its delete does not fail, it was not pinned at the check and its output has not failed; the tracker still agrees with the replay |
| `GcSweep.DeleteExpired` | gcsweep/gcsweep.go:223-248 | the loop is the replay, turn by turn: for every name still to come the tracker has it pinned exactly when the replay keeps it |
| `GcSweep.GoneIff` | gcsweep/gcsweep.go:225-247 | a listed name is gone after the pass if and only if its turn deletes it and no later access writes it |
| `GcSweep.GoesOnlyInTurn` | gcsweep/gcsweep.go:225-247 | a reference can go only at its own turn |
| `GcSweep.ComesOnlyWritten` | gcsweep/gcsweep.go:225-247 | a name that is gone is there again only if an access writes it |
| `GcSweep.FailedIff` | gcsweep/gcsweep.go:237-243 | the failed outputs are those whose delete was tried and fails |
| `GcSweep.PinHolds` | gcsweep/gcsweep.go:230-237 | a pin before the check of a turn keeps all its existing names to the end, one between check and delete all but the name deleted, unless an unpin takes it back |
| `GcSweep.KeptStays` | reftrack/reftrack.go:107-140 | a kept name stays kept as long as nothing unpins it |
| `GcSweep.LeftAloneGoes` | gcsweep/gcsweep.go:225-247 | an expired name goes if no access pins or writes it and neither its delete nor its output's fails |
| `GcSweep.PairsKept` | reftrack/reftrack.go:107-140 | until the turn of listed deps, they are kept whenever their output is |
| `GcSweep.LostIff` | gcsweep/gcsweep.go:216-248 | deps are gone while their output is there if and only if their turn deletes them, nothing writes them later, and the output is not looked at, or is pinned at its turn, or is written after it |
| `GcSweep.PairedLosesNone` | gcsweep/gcsweep.go:216-222 | no deps are lost when deps are looked at only with their output, nothing is unpinned and outputs are written only with their deps, after the turn of the deps |
| `GcSweep.CalmCount` | gcsweep/gcsweep.go:223-248 | when nothing is written, the turns that deleted are as many as the references gone |
| `GcSweep.UndisturbedSweep` | gcsweep/gcsweep.go:216-248 | an undisturbed sweep keeps exactly the names that begin with shell:, fetcher: or seed-src:, or were untracked, pinned or used within the retention, and leaves no output without its deps if and only if deps have expired only where their output has |
| `GcSweep.TouchedSurvives` | gcsweep/gcsweep.go:205-248 | a name touched within the retention survives any sweep, with its tracked sibling |
| `GcSweep.StepFits` | gcsweep/gcsweep.go:216-222 | pairs in step fit, at any cutoff |
| `GcSweep.PinnedDeleted` | gcsweep/gcsweep.go:230-237 | a pin between check and delete does not save the name |
| `GcSweep.DepsLostToUnpin` | gcsweep/gcsweep.go:225-247 | a pin and an unpin mid-pass that leave an output without its deps |
| `GcSweep.DepsLostToWrite` | gcsweep/gcsweep.go:225-247 | a pair written again mid-pass, deps first, of which only the output is left |
| `GcSweep.DepsLostBehindOutput` | gcsweep/gcsweep.go:205-222 | a sweep that deletes the deps of a surviving output |

## Left out

- Prune.Add: the trie is a value, so updating its nodes in place (amber/prune.go:28-45) and any sharing between them are not captured.
- Overlay.Insert: likewise for the generated-files trie (amber/overlay.go:35-63).
- PruneTree: a root key that names no directory, and store errors while reading or emitting directories, are not modelled; the same holds for NormalizeTree, OverlayTree and Derive.
- Walk: declared paths and the build directory are taken as clean, as the recipe layer delivers them; listing errors of the store are not modelled; the same holds for WalkClosure.
- DecodePack: amberpack's byte format is not part of this model and appears as an arbitrary codec, with an opening, records and a closing; its decoder is fed one byte at a time, without a buffer of its own. Errors while writing a frame are those of a flaky stream.
- Gather: the byte counters that give the channel weights are not modelled; the claims hold for every choice of weights. Progress reports and statistics are left out.
- Receive: `patience` stands for the stream's deadline, since an untrusted peer may feed rounds for ever; the concurrent decoders become one pass over the channels whose objects then arrive in any order.
- DealWants: loads and ratios are reals; floating-point rounding is not modelled.
- EveryRunIsSafe: the handlers of pushes and pulls are atomic steps over values, not methods over a shared heap; that a finished receive means a complete closure is Transfer.Receive, which is proved for a store that all transfers share. The garbage-collector guard around the reference write and the retry of a pull on one connection are left out.
- AcquireBegin: the bounded wait of a cold pool between the two critical sections is not modelled; any steps may happen in between.
- ScaleDown: the idle timer is not modelled; the sweep may come at any time.
- DriveFStages: what a stage computes is a function of content, and the bridges and blobs in the store are taken to be those their stages compute; the second name of a build-from tree, progress output and cancellation are left out.
- BuildBatch: F and KP names are told apart, since their trees have different shapes and their keys never coincide.
- Stream: closing the dropped generator and the error reported to the handler afterwards are not modelled.
- Sweep: a touch or pin looks its reference up and marks it in one step, so one that looks it up before a delete and marks it after is not modelled; what lands between a delete and the Forget after it counts as landing before the next check, so a mark that Forget wipes from a name written back in that gap is not captured. The listing and the list of expired names are made in one step; the scoring, the collector cycle and the flush after the expiry pass are left out.
- Tracker: the snapshot file is left out.
- Sharded attach, token tables, relays, path watching and dial budgets of the client and the server.
- The scheduler, the wire format, the recipe language, sandboxes, fetchers, image assembly, the HTTP handlers and the command-line tools.
