# A model of the Git cache

This project models a caching Git server in Dafny and proves what the server
relies on. The server keeps bare repositories on a local disk, publishes their
contents as *generations* (sets of packs plus JSON manifests) in an object
store shared by several nodes, and answers Git clients from the disk, from a
generation, or by reading through to the upstream.

Verify everything with `dafny verify dfyconfig.toml`.

## What is modelled

| module | part of the server |
|---|---|
| `ObjectGraph` | Git's objects as a finite graph with a closure function |
| `StoreState` | the object store as tables, single writes, integrity and coverage |
| `LocalRepo` | the Git operations on the local repository that the protocol relies on |
| `GenerationStore` | publishing and indexing, write by write |
| `Retention`, `Compaction` | repointing, the retention sweep and compaction |
| `StoreRuns` | whole runs of all of these, each operation possibly cut short |
| `LostCoverage` | a run whose sweep loses a commit |
| `HeadCas` | concurrent publishers and compactors on the head, as a step system |
| `Coordinator` | single-flight updates with per-repository leases, as a step system |
| `PktLine`, `PackDemux` | pkt-line framing and the incremental side-band demultiplexer |
| `ProxyStream` | the tee from a proxied response into a spool, and the warm task |
| `CatFile`, `DepthWindow` | the `cat-file` parser and the depth-window walk built on it |
| `DiskManager`, `DiskRuns` | quota, eviction, locks and buffered access times; whole runs of a manager |
| `FetchPlan`, `ReadThrough` | fetch options and the accounting of wants |
| `UploadPack` | request lines and the ref advertisement |
| `Keys` | object-store keys |
| `Multipart`, `RateLimiter` | multipart uploads and the API's rate limiter |

Code that changes state step by step is a method or a class with the source's
fields, proved against specification functions; properties of whole runs are
lemmas over those functions or methods that run any sequence of operations. A
crash is a write that does not happen and after which the operation returns, so
the contracts of the store methods hold after every prefix of their writes. Each
operation also has a *script*, its writes in order, and `Reached` says that what
an operation leaves is the state after an initial part of its script.

Everything that can fail for reasons outside the model is counted when it does:
`faults` of the store and of the disk, `failures` of Git commands, `gaps` in
local history, the negative answers in `noes`. So the contracts also say when an
operation must go through: it fails, or does less than it could, only over a
counted event or a stated condition. Over whole runs this reads `Smooth` for the
store and `Succeeds` for the disk; the writer of a spool and the parts of an
upload fail where a parameter says so.

*Integrity* says that the head and every commit, ref and default manifest name a
generation whose manifest and packs are stored. *Coverage* says that the packs
of that generation also hold everything the named commit reaches. `Kept`, used
in most store contracts, says that an operation keeps the first, and the second
under a stated condition, wherever it stops.

## What the proofs found

- **The sweep can lose coverage.** Integrity always survives. Coverage does
  exactly when the head's generation holds every complete commit mapped to a
  superseded generation (`Retention.SweepCoverage`). Two publishes that crash
  before moving the head, followed by a sweep, break it
  (`LostCoverage.SweepCanLoseCoverage`, `LostCoverage.LossyRun`). It cannot
  happen in a run whose publishes either stop before their first commit manifest
  or finish with a head that holds at least what the head before it held
  (`StoreRuns.QuietRunHoldsAll`). Delta publishes always do
  (`StoreRuns.DeltaGrows`), and a finished full pack over an existing head keeps
  every mapped commit within the head exactly when the refs still reach all of
  them (`StoreRuns.FinishedPublishHoldsAll`). While nothing fails, publishes of
  fresh ids on a head that is not newer are all carried out as deltas, and a run
  of them needs no further condition (`StoreRuns.CleanRunHoldsAll`).
- **Compaction** keeps coverage exactly when the refs present after hydration
  reach everything it promises to keep (`Compaction.CompactionCoverage`), since
  the repack keeps only what refs reach.
- **Demultiplexer.** The 128 KiB buffer limit never fires for chunks of up to
  65538 bytes, and that bound is tight (`PackDemux.SafeChunkIsTight`).
- **A pack cut off in the middle counts as complete.** Once a pack byte has been
  extracted and nothing failed, the tee imports what it has when the body ends
  (`PackDemux.CandidateExactly`); only indexing the pack can reject it. For whole
  responses the test is exact (`PackDemux.ResponseCompletes`), and their packs are
  imported and not fetched again (`ProxyStream.ProxiedResponse`).
- **pkt-lines** round-trip exactly up to a payload of 65531 bytes
  (`PktLine.PacketHeader`).
- **Buffered access times are not invisible to eviction.** A directory that is not
  indexed counts as accessed now when evicting, but a flush indexes it with its
  buffered time. So the recency eviction uses is the latest recorded access
  exactly for directories that are indexed or were accessed this very moment
  (`DiskManager.EvictionRecency`), and whether a flush comes before or after an
  eviction matters exactly when some unindexed directory has a buffered time other
  than the present (`DiskManager.FlushTiming`). A run of the manager's own
  operations leads there: a directory is made, its recording fails or never
  happens, an access is noted (`DiskRuns.FlushChangesVictim`). A run keeps the
  recency of indexed repositories right exactly when no flush or reservation takes
  up such a directory with a wrong time (`DiskRuns.RunRecency`,
  `DiskRuns.FlushCanLoseRecency`).
- **Saturating sums** mislead a reservation only when all 64-bit sizes are
  usable (`DiskManager.FitsIsExact`, `DiskRuns.PromisesCanOverrun`).
- **The head's time** never goes back because of a publisher, whatever its clock.
  It does exactly when a compactor stamps its head earlier than the head it read
  and still wins the swap (`HeadCas.HeadNeverGetsOlder`,
  `HeadCas.HeadCanGetOlder`).
- **Repository names** with `manifests/commits` or `manifests/refs` as two
  neighbouring parts mislead repointing, which looks for these texts anywhere in
  a key: there, and only there, it takes the generation head for a commit or ref
  manifest (`Keys.ReadingsAreRight`). It then fails instead of finishing.
- **Keys.** A ref whose name is literally `default` shares its key with the
  repository's default manifest; no other two things share a key
  (`Keys.KeysStayApart`).
- **Streams of unknown length** need more than the permitted 10000 parts exactly
  beyond 625 GiB (`Multipart.StreamParts`).
- **Rate limit.** Any minute admits at most twice the limit, and that is reached
  (`RateLimiter.MinuteBound`, `RateLimiter.BoundIsTight`).

## Where documentation and code differ

The model follows the code.

- `docs/deployment.md:430-433` calls a generation manifest self-contained, with
  commits that are complete. The code makes it so exactly when the packs hold the
  published commit, which a ref reaching it ensures
  (`GenerationStore.PlannedGenerationIsSelfContained`).
- `docs/deployment.md:444-449` has compaction delete old generation manifests and
  packs. The code deletes nothing there and leaves that to the sweep
  (`Compaction.CompactGenerationChain`).
- The comment in `generations.rs:700-704` takes repointing to the head as enough
  for hydration. It is enough for finding a generation, not for finding the
  commit in it (`Retention.SweepCoverage`).
- The setting for the rate limit is called a limit per minute
  (`docs/deployment.md:421`). It is one per window
  (`RateLimiter.MinuteBound`).

## Model

| member | source | states |
|---|---|---|
| ObjectGraph.ClosureIsReachability | crates/git-cache-git/src/lib.rs:469-530 | an object is in the closure of a set exactly when a chain of links leads to it from the set; this is the meaning of everything Git packs |
| ObjectGraph.ClosureIsLeast | crates/git-cache-git/src/lib.rs:469-530 | the closure is contained in every closed set that contains the roots |
| ObjectGraph.ClosureOfMember | crates/git-cache-git/src/lib.rs:469-530 | a closed set holds an object exactly when it holds everything the object reaches |
| LocalRepo.Repo.PackObjectsRevs | crates/git-cache-git/src/lib.rs:469-530 | a pack holds what the wanted objects reach minus what the excluded ones reach, unless Git fails, which is counted; nothing is packed for no roots |
| LocalRepo.Repo.RepackForServing | crates/git-cache-git/src/lib.rs:578-584 | together the packs left by a repack hold exactly what the refs reach |
| LocalRepo.Repo.IsAncestor | crates/git-cache-git/src/lib.rs:196-208 | the answer says whether the tip reaches the commit, unless Git fails or history is missing, both of which are counted |
| LocalRepo.Repo.RefsContaining | crates/git-cache-git/src/lib.rs:234-250 | the tips returned are those of the refs that reach the commit; one is left out only over a counted gap |
| LocalRepo.Repo.HydrateGeneration | crates/git-cache-domain/src/materializer/generations.rs:80-220 | only packs without a local index are fetched, so every pack of the generation must be stored or already local; on success the refs and the HEAD of the snapshot are applied; on failure packs may have been added, and the refs are changed only when setting HEAD was the step that failed |
| StoreState.HarmlessKeepsIntegrity | crates/git-cache-objectstore/src/manifests.rs:41-63 | any single write that names only usable generations and removes nothing named keeps referential integrity |
| StoreState.ReferencedAfter | crates/git-cache-objectstore/src/manifests.rs:335-350 | a write makes at most the generation it names newly named |
| StoreState.CoveringKeepsCoverage | crates/git-cache-domain/src/materializer/generations.rs:538-547 | any single write whose target generation holds the commits mapped to it keeps coverage |
| StoreState.CoveredMeansComplete | crates/git-cache-domain/src/materializer/generations.rs:35-75 | under coverage, the generation a complete commit manifest, a listed commit or a head tip leads to holds everything that commit reaches |
| StoreState.SharedKeyIsHarmless | crates/git-cache-objectstore/src/manifests.rs:153-182 | replacing the ref named "default" and the default manifest together, as the shared key makes every write of either do, keeps integrity and coverage |
| GenerationStore.ObjectStore.Perform | crates/git-cache-objectstore/src/local.rs:45-61 | one write either happens in full or not at all; a crash is a write after which nothing else happens |
| GenerationStore.ObjectStore.HeadMayMove | crates/git-cache-objectstore/src/local.rs:95-110 | in a shared store the head alone may change, to anything integrity and coverage allow; called before every read of the head in the publish loop and before every compare-and-swap |
| GenerationStore.WriteGenerationIfAbsentOrMatches | crates/git-cache-objectstore/src/manifests.rs:258-272 | a stored generation manifest is never replaced by a different one |
| GenerationStore.WriteCommitIfAbsentOrMatches | crates/git-cache-objectstore/src/manifests.rs:297-310 | a commit manifest written by a publish never overrides a different one |
| GenerationStore.WriteDefaultRef | crates/git-cache-domain/src/materializer/manifests.rs:53-60 | the HEAD ref manifest is written before the default manifest, and a failure leaves at most the first |
| GenerationStore.SwapHead | crates/git-cache-objectstore/src/manifests.rs:229-243 | the head is replaced only if it is still the one that was read; otherwise nothing changes |
| GenerationStore.FinishPublish | crates/git-cache-domain/src/materializer/generations.rs:586-624 | default manifest, then head: wherever it stops, an initial part of these has been written; after success with no competing writer the head is the newer of the stored one and the publisher's; packs, manifests and commit mappings are untouched |
| GenerationStore.DeltaCompletesPrevious | crates/git-cache-domain/src/materializer/generations.rs:366-408 | leaving out of a delta what the previous tips reach loses nothing, because a closed previous generation holding those tips already has it |
| GenerationStore.PlannedObjects | crates/git-cache-domain/src/materializer/generations.rs:321-506 | a planned generation holds exactly what the previous packs hold and what the refs reach, and is closed |
| GenerationStore.PlannedGenerationIsSelfContained | crates/git-cache-domain/src/materializer/generations.rs:321-506 | a planned generation holds everything its commits reach exactly when its packs hold the published commit, which is so whenever a ref reaches it; then the new head's tips are held too |
| GenerationStore.PlannedIsSafe | crates/git-cache-domain/src/materializer/generations.rs:321-506 | what a plan writes is safe to write, for integrity always and for coverage when a ref reaches the commit |
| GenerationStore.CollectCommits | crates/git-cache-domain/src/materializer/generations.rs:464-476 | a new generation lists the published commit and exactly the cached commits nothing maps yet |
| GenerationStore.MakePlan | crates/git-cache-domain/src/materializer/generations.rs:321-506 | a delta on the head exactly when it is asked for, the head's generation is stored, the head has tips and no packing fails, otherwise a full pack; the recorded HEAD is the repository's exactly when it leads to a ref; planning fails only over a failing command or without refs |
| GenerationStore.MakePack | crates/git-cache-domain/src/materializer/generations.rs:366-408 | the incremental pack is taken exactly when it is possible and nothing failed; a failing one falls back to the full pack |
| GenerationStore.CarryOut | crates/git-cache-domain/src/materializer/generations.rs:508-570 | the writes of a plan in order: stopped anywhere an initial part of them has been made and integrity holds; all of them are made unless a write fails or meets a conflicting manifest |
| GenerationStore.DeltaExtends | crates/git-cache-domain/src/materializer/generations.rs:366-456 | a delta keeps the head's packs and tips in front and adds at most its own pack |
| GenerationStore.PublishCommits | crates/git-cache-objectstore/src/manifests.rs:335-342 | all listed commits end up mapped to the new generation in order, and a run cut short maps an initial part of them |
| GenerationStore.PublishBranch | crates/git-cache-objectstore/src/manifests.rs:343-347 | a ref's observation is stored before the ref manifest itself, also when the run is cut short in between |
| GenerationStore.PublishPackFiles | crates/git-cache-objectstore/src/manifests.rs:41-63 | pack, generation manifest, commit manifests, observation and ref manifest are written in that order: wherever it stops, exactly an initial part of this list has been written, and integrity holds |
| GenerationStore.Reannounce | crates/git-cache-domain/src/materializer/generations.rs:292-318 | an already published commit keeps its generation; only ref manifests are written |
| GenerationStore.PublishGeneration | crates/git-cache-domain/src/materializer/generations.rs:274-570 | stopped anywhere, exactly an initial part of the planned writes has been made, integrity holds, and coverage does when a ref reaches the commit; finished, the store is exactly the planned one and the commit is mapped to a usable generation; where packing works, a publish asked to build on a stored head with tips is a delta that keeps that head's packs and tips; it fails only over a counted fault, without refs, or over stored manifests that conflict with its own |
| GenerationStore.FreshPlanIsFree | crates/git-cache-objectstore/src/manifests.rs:258-342 | a plan whose ids are fresh meets no conflicting manifest, so that a publish of it that meets no fault finishes |
| GenerationStore.PublishDone | crates/git-cache-domain/src/materializer/generations.rs:538-570 | the writes of a publish one after the other make the published state, with the newer of the two heads |
| GenerationStore.AncestorIsCovered | crates/git-cache-domain/src/materializer/planning.rs:649-671 | a commit reached from a covered tip is held by the generation the tip is mapped to |
| GenerationStore.IndexLocalCommit | crates/git-cache-domain/src/materializer/planning.rs:673-688 | mapping an ancestor of a mapped tip to the tip's generation keeps integrity and coverage |
| GenerationStore.IndexIfAncestorOfTip | crates/git-cache-domain/src/materializer/planning.rs:649-671 | a commit is mapped exactly to the generation of a complete tip that reaches it, unless a counted fault or gap is in the way; otherwise nothing is written |
| GenerationStore.IndexFromKnownGeneration | crates/git-cache-domain/src/materializer/planning.rs:599-647 | both ways of finding a tip only ever map a commit to a generation whose packs hold its closure, the head's generation first; nothing is found only if no head tip and no cached ref's tip leads to the commit, or a gap in history was met; it fails only over a counted fault |
| Retention.RepointedNames | crates/git-cache-domain/src/materializer/generations.rs:967-1005 | after repointing, no name leads to an old generation except the head itself |
| Retention.RepointCoverage | crates/git-cache-domain/src/materializer/generations.rs:967-1005 | repointing keeps coverage exactly when the new generation holds every complete commit that was mapped to an old one |
| Retention.RepointCommits | crates/git-cache-domain/src/materializer/generations.rs:974-983 | commit manifests are moved one at a time; stopped anywhere, the moves made are an initial part of the list in the order of the listing |
| Retention.RepointRefs | crates/git-cache-domain/src/materializer/generations.rs:984-994 | ref manifests are moved one at a time, observations never |
| Retention.Repoint | crates/git-cache-domain/src/materializer/generations.rs:967-1005 | commit manifests, ref manifests, then the default manifest: stopped anywhere, an initial part of these moves has been made, integrity holds, and coverage does when the target takes over; finished, the store is the fully repointed one |
| Retention.SortByCreation | crates/git-cache-domain/src/materializer/generations.rs:679-683 | generations in order of creation, none lost or repeated |
| Retention.SuccessorCreatedAt | crates/git-cache-domain/src/materializer/generations.rs:690-695 | the first creation time strictly after a generation's own, if there is one |
| Retention.FindSuperseded | crates/git-cache-domain/src/materializer/generations.rs:679-705 | finds exactly the generations that are not the head's and have another one created strictly between them and the cutoff |
| Retention.SecondSweepFindsNothing | crates/git-cache-domain/src/materializer/generations.rs:671-704 | after a sweep nothing is superseded at the same cutoff |
| Retention.SweepCoverage | crates/git-cache-domain/src/materializer/generations.rs:649-772 | a sweep keeps coverage exactly when the head holds every complete commit mapped to a superseded generation |
| Retention.ListGenerationIds | crates/git-cache-domain/src/materializer/generations.rs:935-965 | either all stored generations are listed or the scan limit makes it fail |
| Retention.ListPacks | crates/git-cache-domain/src/materializer/generations.rs:740-744 | the orphan scan sees every stored pack below the scan limit and exactly that many of them otherwise |
| Retention.DeleteGenerationAndPacks | crates/git-cache-domain/src/materializer/generations.rs:719-738 | the packs that no remaining generation lists go first and the manifest last; stopped anywhere, an initial part of these deletions has been made |
| Retention.DeleteSwept | crates/git-cache-domain/src/materializer/generations.rs:712-738 | stopped anywhere, no named generation and no pack of a kept one is gone |
| Retention.DeleteOrphans | crates/git-cache-domain/src/materializer/generations.rs:740-760 | the second loop deletes only packs that no kept generation lists |
| Retention.RepointToHead | crates/git-cache-domain/src/materializer/generations.rs:707-710 | names move to the head before anything is deleted |
| Retention.RemoveSwept | crates/git-cache-domain/src/materializer/generations.rs:712-760 | both deletion loops together, with exactly the superseded generations removed |
| Retention.SweepSuperseded | crates/git-cache-domain/src/materializer/generations.rs:649-772 | stopped anywhere, exactly an initial part of the moves and deletions has been made, integrity holds, no kept generation loses a pack, and coverage holds when the head takes over; finished, exactly the head and the generations without a successor before the cutoff remain and the report lists each removed generation once; it fails only over a counted fault or at the scan limit |
| Compaction.CompactionCoverage | crates/git-cache-domain/src/materializer/generations.rs:787-932 | compaction keeps coverage exactly when the refs present after hydration reach every complete commit and every listed commit it promises to keep |
| Compaction.CollectListed | crates/git-cache-domain/src/materializer/generations.rs:803-817 | the compacted generation takes over every commit any generation lists |
| Compaction.MakeCompacted | crates/git-cache-domain/src/materializer/generations.rs:831-888 | the repacked manifest holds what the hydrated refs reach, as base packs, and records HEAD exactly when it leads to a ref; it fails only over a counted failure, a head that cannot be hydrated, or no refs |
| Compaction.UploadPacks | crates/git-cache-objectstore/src/manifests.rs:41-52 | packs already stored are not written again; stopped anywhere, an initial part of the missing ones was added |
| Compaction.UploadGeneration | crates/git-cache-domain/src/materializer/generations.rs:895-897 | the new generation is usable before anything names it |
| Compaction.SwitchOver | crates/git-cache-domain/src/materializer/generations.rs:899-923 | the head moves only if it is the one read; then all old names move and the listed commits are marked complete, in this order wherever it stops |
| Compaction.MarkComplete | crates/git-cache-domain/src/materializer/generations.rs:914-923 | listed commits are mapped to the compacted generation one at a time |
| Compaction.CompactGenerationChain | crates/git-cache-domain/src/materializer/generations.rs:787-932 | stopped anywhere, or losing the race for the head, exactly an initial part of its writes has been made, integrity holds and nothing is deleted; finished, every old generation's names lead to the new one; it does nothing only when the head has at most as many packs as the threshold, or another publisher moved the head, and fails only over a counted fault or a stated obstacle |
| StoreRuns.Perform | crates/git-cache-domain/src/materializer/generations.rs:236-253 | each operation does what its outcome allows: an initial part of its own writes, all of them when it is done, with the stated final state; where nothing fails it is done whenever it was due, and a publish makes a delta wherever one is possible; it keeps integrity, and coverage when it was cautious |
| StoreRuns.Run | crates/git-cache-domain/src/materializer/generations.rs:538-547 | any sequence of fetches, publishes, indexings, compactions and sweeps, each possibly cut short, is a run: every state follows from the one before by the outcome of its operation, and names always lead to stored manifests and packs; while nothing fails every operation does what is due |
| StoreRuns.RunKeeps | crates/git-cache-domain/src/materializer/generations.rs:538-547 | in every run, at every moment, head and commit, ref and default manifests name generations whose manifest and packs are stored; if every operation was cautious, every mapped commit is complete |
| StoreRuns.FinishedPublishHoldsAll | crates/git-cache-domain/src/materializer/generations.rs:366-446 | a finished delta publish keeps the head in possession of every complete commit; a full pack over an existing head does so exactly when the refs still reach all of them |
| StoreRuns.HeadHoldsAllIsSafe | crates/git-cache-domain/src/materializer/generations.rs:649-772 | while the head holds every complete commit, a sweep at any cutoff is safe |
| StoreRuns.DeltaGrows | crates/git-cache-domain/src/materializer/generations.rs:366-408 | a finished publish that adds a delta leaves a head with at least the objects of the one before |
| StoreRuns.QuietRepack | crates/git-cache-domain/src/materializer/generations.rs:787-932 | a compaction whose refs reach everything, stopped at any write, leaves a head whose packs hold every complete commit |
| StoreRuns.QuietSweep | crates/git-cache-domain/src/materializer/generations.rs:649-772 | a sweep, stopped at any write, leaves every complete commit in the head's packs if it was there before |
| StoreRuns.QuietRunHoldsAll | crates/git-cache-domain/src/materializer/generations.rs:649-772 | in a store with no other publisher, over every run of fetches, indexings, sweeps, compactions whose refs reach everything, and publishes that stop before their first commit manifest or finish with a head no poorer than the last, the head holds every complete commit at every moment, coverage holds, and so every sweep is safe |
| StoreRuns.CleanRunHoldsAll | crates/git-cache-domain/src/materializer/generations.rs:274-570 | in a store with no other publisher, over every run in which nothing fails and every publish is of a commit that the refs reach, under fresh ids, asked to build on a head that is not newer, every publish is carried out, the head holds every complete commit at every moment, and coverage holds |
| LostCoverage.SweepCanLoseCoverage | crates/git-cache-domain/src/materializer/generations.rs:671-738 | two publishes that crash before moving the head, followed by a sweep, lead a complete commit manifest to packs that do not hold the commit |
| LostCoverage.CrashedPublish | crates/git-cache-domain/src/materializer/generations.rs:538-570 | the crashed publishes of that example are genuine prefixes of publishes with genuine plans |
| LostCoverage.LossyRun | crates/git-cache-domain/src/materializer/generations.rs:538-570 | that example is a run, from the empty store, of fetches, one finished and two interrupted publishes and a sweep: everything is covered before the sweep and not after it |
| HeadCas.StepKeepsInv | crates/git-cache-domain/src/materializer/generations.rs:586-624 | each step of any publisher or compactor, whatever their clocks, keeps every participant's knowledge sound, and makes the head older exactly when a compactor swaps in a head stamped before the one it read |
| HeadCas.SoundStays | crates/git-cache-objectstore/src/local.rs:86-110 | what a participant knows stays true while others move the head, because versions change with every swap |
| HeadCas.HeadNeverGetsOlder | crates/git-cache-domain/src/materializer/generations.rs:586-624 | over every interleaving the head names a generation whose manifest was stored before, and it never gets older exactly when no compactor swaps in a head stamped before the one it read |
| HeadCas.PublisherGuarantee | crates/git-cache-domain/src/materializer/generations.rs:586-624 | a publisher that did not use up its attempts leaves a head at least as new as its own, for ever after unless a compactor with a slow clock sets the head back; one that used them up lost to that many swaps by others |
| HeadCas.EveryRun | crates/git-cache-domain/src/materializer/generations.rs:586-624 | all this from the empty store, at any moment of any run and at any later one |
| HeadCas.EndingsAreTrue | crates/git-cache-domain/src/materializer/generations.rs:586-624 | in every run from the empty store whoever has finished says what happened: a publisher won exactly if a swap of its own found the head it had read, was outdated exactly if it read a strictly newer head, and gave up exactly after losing all five attempts; a compactor swapped exactly if its swap found the head it had read |
| HeadCas.HeadCanGetOlder | crates/git-cache-domain/src/materializer/generations.rs:889-910 | a run in which a compactor whose clock is behind sets the head back |
| PktLine.LengthRoundTrip | crates/git-cache-domain/src/materializer/direct_git.rs:1334-1338 | every length up to 65535 prints as exactly four digits and reads back |
| PktLine.PlusReadsAsZero | crates/git-cache-domain/src/materializer/proxy_tee.rs:223-226 | a header with a leading plus sign is read like one with a leading zero, and announces less than 4096 bytes |
| PktLine.CaseDoesNotMatter | crates/git-cache-domain/src/materializer/proxy_tee.rs:223-226 | upper-case and lower-case digits announce the same length |
| PktLine.PacketHeader | crates/git-cache-domain/src/materializer/direct_git.rs:1334-1338 | a packet's header announces its own length exactly when the payload has at most 65531 bytes |
| PktLine.PacketParts | crates/git-cache-domain/src/materializer/proxy_tee.rs:223-226 | payload and remainder are found where the header says, whatever follows |
| PktLine.DigitsRoundTrip | crates/git-cache-domain/src/materializer/proxy_tee.rs:223-226 | reading hexadecimal digits inverts printing them |
| PktLine.LeadingZeros | crates/git-cache-domain/src/materializer/direct_git.rs:1334-1338 | padding does not change the number read |
| PktLine.ParseLength | crates/git-cache-domain/src/materializer/proxy_tee.rs:223-226 | no header announces more than 65535 bytes |
| PackDemux.ParseSplit | crates/git-cache-domain/src/materializer/proxy_tee.rs:125-214 | parsing a prefix and then its unread tail with the rest is parsing everything |
| PackDemux.ParseHoldable | crates/git-cache-domain/src/materializer/proxy_tee.rs:125-214 | what is held back between chunks is less than one packet, and nothing once the parse is over |
| PackDemux.ChunkingIsInvisible | crates/git-cache-domain/src/materializer/proxy_tee.rs:125-214 | for every string and every split into chunks of at most 65538 bytes, state, buffer and pack equal those of one parse of the whole, and the buffer limit never fires |
| PackDemux.SafeChunkIsTight | crates/git-cache-domain/src/materializer/proxy_tee.rs:17-17 | 65538 is the largest such bound: a response cut at 65539 bytes is rejected although it is well formed |
| PackDemux.CutResponseYieldsPrefix | crates/git-cache-domain/src/materializer/proxy_tee.rs:125-214 | a response cut short yields a prefix of the pack |
| PackDemux.BandsParse | crates/git-cache-domain/src/materializer/proxy_tee.rs:160-205 | band-1 data in order and nothing else is extracted, and the flush ends the parse whatever follows |
| PackDemux.LinesParse | crates/git-cache-domain/src/materializer/proxy_tee.rs:136-160 | shallow, unshallow and acknowledgement lines before the final NAK are skipped |
| PackDemux.ResponseYieldsPack | crates/git-cache-domain/src/materializer/proxy_tee.rs:92-214 | every response (lines, NAK, body) under every safe chunking yields exactly the pack the server meant, side-band or not |
| PackDemux.ResponseCompletes | crates/git-cache-domain/src/materializer/proxy_tee.rs:113-123 | after every well-formed response under every safe chunking the pack counts as complete exactly when the response carries one |
| PackDemux.CandidateExactly | crates/git-cache-domain/src/materializer/proxy_tee.rs:113-123 | for every body in every split the extracted bytes count as a complete pack exactly when there are some and nothing failed, so never before NAK or after a failure, and also when the body was cut off in the middle of the pack |
| PackDemux.NeverFailed | crates/git-cache-domain/src/materializer/proxy_tee.rs:125-132 | a failure is for good: no failure at the end means none on the way |
| PackDemux.Demux.Feed | crates/git-cache-domain/src/materializer/proxy_tee.rs:125-214 | feeding a chunk appends to the sink exactly what the specification says and fails exactly when it says |
| PackDemux.Demux.Drain | crates/git-cache-domain/src/materializer/proxy_tee.rs:134-214 | the loop with its moving offset leaves state, buffer and sink as one parse of the buffer does |
| PackDemux.Frame | crates/git-cache-domain/src/materializer/proxy_tee.rs:136-205 | a packet before NAK gives up no data, NAK alone ends the waiting, and only acknowledgement and shallow lines are tolerated before it; a side-band packet gives up its payload exactly when it is on band 1, and a band other than 1 and 2 is a failure |
| ProxyStream.Spool.TrySend | crates/git-cache-api/src/lib.rs:1831-1849 | a message is queued only while the writer works and there is room; what was accepted is exactly what was sent |
| ProxyStream.Spool.WriterTurn | crates/git-cache-api/src/lib.rs:1609-1672 | one message is taken per turn and written after reserving for it, in as few steps as needed; a failing step abandons the spool, the finish message completes it, and file and queue together stay what was sent |
| ProxyStream.Spool.DropSender | crates/git-cache-api/src/lib.rs:1831-1849 | dropping the sender cannot make an unfinished spool look finished |
| ProxyStream.UpstreamProxyStream.TeeChunk | crates/git-cache-api/src/lib.rs:1831-1849 | the tee survives a chunk exactly when it demultiplexes and its pack bytes, if any, find room; otherwise its sender is dropped |
| ProxyStream.UpstreamProxyStream.EndOfBody | crates/git-cache-api/src/lib.rs:1870-1896 | the import is chosen exactly when the tee is alive, the pack is complete and the finish message is accepted, otherwise a refetch is; the sender is dropped either way |
| ProxyStream.UpstreamProxyStream.PollNext | crates/git-cache-api/src/lib.rs:1855-1897 | what the client sees for each poll, what was forwarded, and when the warm task is spent |
| ProxyStream.UpstreamProxyStream.DropStream | crates/git-cache-api/src/lib.rs:1905-1913 | a warm task still held is refetched, unless there is no runtime to run it on, and a tee still alive lets go of its sender |
| ProxyStream.Spool.Settle | crates/git-cache-api/src/lib.rs:1609-1672 | once the sender is gone the writer ends; the spool is complete if it was finished and no write fails, and only then |
| ProxyStream.RunImport | crates/git-cache-api/src/lib.rs:1683-1744 | with a permit exactly one of import and refetch happens: the import when the spool is complete and importable, else the refetch; without a permit neither |
| ProxyStream.History | crates/git-cache-api/src/lib.rs:1683-1913 | what was received is exactly the chunks polled before the end, and what was forwarded the longest initial part of them within the byte limit; the warm task is used exactly once (not at all when dropped outside a runtime before the end) and comes to exactly one import or refetch unless the semaphore is closed; an imported pack is exactly the pack of the forwarded chunks; and where the writer works and keeps up, the import is chosen exactly when the forwarded chunks hold a complete pack |
| ProxyStream.ProxiedResponse | crates/git-cache-api/src/lib.rs:1855-1897 | a well-formed response polled to its end within the byte limit, with a writer that works and is never a full channel behind, reaches the client whole and its pack is imported from the spool, never fetched again, if there is one and it can be indexed |
| DepthWindow.WithinIsChain | crates/git-cache-domain/src/materializer/repo.rs:178-224 | being within k steps is having a chain of parents of at most k links |
| DepthWindow.WalkLevel | crates/git-cache-domain/src/materializer/repo.rs:190-222 | one level adds exactly the commits at that distance, or reports that one is missing |
| DepthWindow.AncestryWindow | crates/git-cache-domain/src/materializer/repo.rs:178-224 | the walk lists each commit at shortest distance below the depth exactly once with that distance, if all are present, and nothing otherwise |
| DepthWindow.WindowReady | crates/git-cache-domain/src/materializer/repo.rs:140-176 | readiness is exactly: depth between 1 and 1024, every commit in the window present with its tree, and no graft inside it |
| DepthWindow.ServableAtSmallerDepth | crates/git-cache-domain/src/materializer/repo.rs:140-176 | what can be served at a depth can be served at every smaller positive depth |
| DepthWindow.CheckBoundary | crates/git-cache-domain/src/materializer/repo.rs:263-290 | a client boundary is covered exactly when the window below it is present and holds no graft of the cache |
| DepthWindow.DeepenBoundarySatisfied | crates/git-cache-domain/src/materializer/repo.rs:251-294 | a deepen is satisfied exactly when every boundary is covered, or the cache has no grafts |
| DepthWindow.DeepenAtSmallerDepth | crates/git-cache-domain/src/materializer/repo.rs:251-294 | a satisfied deepen is satisfied at every smaller positive depth |
| CatFile.BatchRoundTrip | crates/git-cache-git/src/lib.rs:1254-1340 | parsing what Git prints for any list of ids, present, missing or repeated, gives exactly the present commits with their parents in order |
| CatFile.BodyParses | crates/git-cache-git/src/lib.rs:1304-1331 | parents are read in order from the header of a commit, whatever its other headers and message contain |
| CatFile.PresentEntryParses | crates/git-cache-git/src/lib.rs:1254-1300 | an entry is read to its last byte, including the newline after the body |
| CatFile.MissingEntryParses | crates/git-cache-git/src/lib.rs:1280-1282 | a missing object takes one line and contributes nothing |
| CatFile.ScalarIsChar | crates/git-cache-git/src/lib.rs:1264-1266 | every encoding of a Unicode scalar value by section 3 of RFC 3629 is accepted as one character of the header, whatever follows |
| CatFile.CharIsScalar | crates/git-cache-git/src/lib.rs:1264-1266 | and nothing else is: what is accepted as a character is the encoding of a scalar value |
| CatFile.SpaceIsWhiteSpace | crates/git-cache-git/src/lib.rs:1269-1269 | words are separated exactly by the characters with the property White_Space |
| CatFile.ReadParents | crates/git-cache-git/src/lib.rs:1310-1331 | the line loop over a commit body returns what the specification says on every input |
| CatFile.ReadBatch | crates/git-cache-git/src/lib.rs:1254-1340 | the offset loop stays in bounds, ends, and returns what the specification says on every input, error or not |
| CatFile.CommitParentMap | crates/git-cache-git/src/lib.rs:391-423 | looking ids up in batches of 512 equals looking them up at once |
| DiskManager.SumUp | crates/git-cache-disk/src/lib.rs:732-765 | a saturating sum is the exact sum, or the largest 64-bit value when that is exceeded |
| DiskManager.FitsIsExact | crates/git-cache-disk/src/lib.rs:589-613 | the saturating comparison is the exact one, except when everything addressable may be used |
| DiskManager.LruEvictable | crates/git-cache-disk/src/lib.rs:806-813 | the victim is unprotected, unlocked and before all others in order of recency and path; none is returned only when nothing is evictable |
| DiskManager.EvictedArePrefix | crates/git-cache-disk/src/lib.rs:589-631 | the evicted repositories are a prefix of the evictable ones in order of recency |
| DiskManager.LockedAreSpared | crates/git-cache-disk/src/lib.rs:806-813 | no run of evictions takes a locked or protected repository |
| DiskManager.DiskManager.LockRepo | crates/git-cache-disk/src/lib.rs:406-420 | a lock count is the number of live handles |
| DiskManager.DiskManager.DropLock | crates/git-cache-disk/src/lib.rs:713-724 | dropping one handle removes the lock only with the last |
| DiskManager.DiskManager.NoteAccess | crates/git-cache-disk/src/lib.rs:227-235 | an access noted in memory counts as much as one written to the index |
| DiskManager.DiskManager.RecordAccess | crates/git-cache-disk/src/lib.rs:193-221 | a recorded access is stored with the measured size and keeps the protection |
| DiskManager.DiskManager.TouchAccess | crates/git-cache-disk/src/lib.rs:303-328 | an indexed repository only gets a new time; an unknown one is recorded in full |
| DiskManager.DiskManager.EnsureRepo | crates/git-cache-domain/src/materializer/repo.rs:27-51 | a directory that exists is touched, a new one recorded; when recording fails the directory stays behind unindexed |
| DiskManager.DiskManager.SetProtected | crates/git-cache-disk/src/lib.rs:330-362 | protection changes for one repository without counting as an access of it |
| DiskManager.DiskManager.ApplyPending | crates/git-cache-disk/src/lib.rs:273-301 | applying buffered times one by one in any order gives the flushed index, and the count is that of the buffered paths that are indexed or exist |
| DiskManager.DiskManager.FlushAccesses | crates/git-cache-disk/src/lib.rs:245-271 | a flush moves every buffered time into the index and returns how many paths it found indexed or existing, or, over a fault, changes nothing |
| DiskManager.FlushRecency | crates/git-cache-disk/src/lib.rs:245-301 | a flush loses no recency exactly when no unindexed directory has a buffered time older than its latest access |
| DiskManager.EvictionRecency | crates/git-cache-disk/src/lib.rs:633-665 | the recency eviction uses for a directory is its latest recorded access exactly when the directory is indexed or was last accessed this very moment |
| DiskManager.EvictionSees | crates/git-cache-disk/src/lib.rs:589-665 | eviction sees every directory and nothing else, with its size and the protection the index records |
| DiskManager.FlushTiming | crates/git-cache-disk/src/lib.rs:245-301 | a flush before an eviction changes what it sees exactly when an unindexed directory has a buffered time other than the present |
| DiskManager.StoredRecency | crates/git-cache-disk/src/lib.rs:589-665 | writing the index back during a reservation keeps it in line with the recorded accesses exactly when everything newly listed was last accessed this very moment |
| DiskManager.EvictionIgnoresFlushTiming | crates/git-cache-disk/src/lib.rs:589-602 | two ways of spreading the same recorded accesses over index and buffer look the same to eviction exactly when each directory is indexed in both or in neither, or was last accessed this very moment |
| DiskManager.RunsAreNested | crates/git-cache-disk/src/lib.rs:589-631 | the order of eviction is determined: of any two eviction runs over the same index one is an initial part of the other |
| DiskManager.RunIsDetermined | crates/git-cache-disk/src/lib.rs:589-631 | two eviction runs over the same index that went on until the request fitted or nothing evictable was left are equal |
| DiskManager.SameEvictions | crates/git-cache-disk/src/lib.rs:150-191 | when no unindexed directory has a buffered time other than the present, a reservation that gets its room or finds nothing left to evict evicts exactly the same repositories whether a flush comes before it or not |
| DiskManager.DiskManager.EvictUntilAvailable | crates/git-cache-disk/src/lib.rs:589-631 | evictions are successive victims, none locked or protected, each made only while the request did not fit, and unless the file system fails they go on until it fits or nothing evictable is left; the stored index is at most one eviction behind |
| DiskManager.DiskManager.Reserve | crates/git-cache-disk/src/lib.rs:150-191 | success means used, reserved and requested bytes fit; failure reserves nothing and comes from a fault or from lack of space with nothing evictable left; nothing locked or protected is evicted; recency survives exactly when whatever the index newly lists was last accessed this very moment |
| DiskManager.DiskManager.ReleaseReservation | crates/git-cache-disk/src/lib.rs:703-711 | dropping a reservation gives back exactly its bytes |
| DiskManager.DiskManager.InvalidateRepo | crates/git-cache-disk/src/lib.rs:372-404 | refused exactly when the repository is locked, failing otherwise only over a fault; accounted bytes never grow, and shrink only when the delete is done |
| DiskRuns.Perform | crates/git-cache-disk/src/lib.rs:150-420 | each operation of the manager has exactly the effect stated for it, on success and on failure, and fails only over a fault, a lock or lack of space |
| DiskRuns.Run | crates/git-cache-disk/src/lib.rs:150-420 | whatever sequence of operations a new manager is asked for, its history is a run, each operation with its stated effect; only when all of 64 bits may be used must the requests add up to no more than that |
| DiskRuns.LocksRightInRun | crates/git-cache-disk/src/lib.rs:406-420 | in every run every lock count is at every moment the number of live handles |
| DiskRuns.HeldRepositoryStays | crates/git-cache-disk/src/lib.rs:372-420 | in every run a repository with a live handle throughout is neither evicted nor invalidated |
| DiskRuns.ProtectedRepositoryStays | crates/git-cache-disk/src/lib.rs:330-362 | in every run a protected repository stays, and stays protected, as long as nobody lifts the protection or asks for its removal |
| DiskRuns.PromisesFit | crates/git-cache-disk/src/lib.rs:150-191 | in every run the reserved bytes stay within what may be used, unless that is the largest 64-bit value |
| DiskRuns.PromisesCanOverrun | crates/git-cache-disk/src/lib.rs:158-170 | for that value it fails: two reservations in a row promise more |
| DiskRuns.StepRecency | crates/git-cache-disk/src/lib.rs:193-301 | an operation keeps index and buffer in line with the recorded accesses exactly when it is not a flush or a reservation that takes up an unindexed directory with a wrong time |
| DiskRuns.RunRecency | crates/git-cache-disk/src/lib.rs:193-301 | over every run the recency of every indexed repository is at every moment its latest recorded access exactly when no operation is of that kind |
| DiskRuns.NoStraysNoLoss | crates/git-cache-disk/src/lib.rs:245-301 | in a run in which no reservation and no flush begins while a directory is missing from the index, that recency is always right |
| DiskRuns.FlushBeforeReserve | crates/git-cache-disk/src/lib.rs:150-301 | where every unindexed directory with a buffered time was noted this very moment, a successful reservation evicts the same repositories and leaves the same directories whether a flush comes before it or not |
| DiskRuns.FlushChangesVictim | crates/git-cache-disk/src/lib.rs:284-297 | a run of the manager's own operations after which a flush changes the victim of the next eviction |
| DiskRuns.FlushCanLoseRecency | crates/git-cache-disk/src/lib.rs:284-297 | a run after which a flush gives an indexed repository a time older than its latest recorded access |
| Coordinator.UpdateCoordinator.InflightFor | crates/git-cache-worker/src/lib.rs:220-229 | the caller owns the entry exactly when there was none for its key |
| Coordinator.UpdateCoordinator.Acquire | crates/git-cache-worker/src/lib.rs:85-110 | a lease is granted exactly when nobody holds it |
| Coordinator.UpdateCoordinator.RemoveInflight | crates/git-cache-worker/src/lib.rs:251-260 | an entry is removed only by its own owner |
| Coordinator.UpdateAlone | crates/git-cache-worker/src/lib.rs:187-249 | run without interference, an update under a free lease answers an update on success, the executor's error on failure and an internal error on a panic, a busy lease when it is held, publishes that answer for the entry it created, and leaves inflight map and leases as they were; a joiner changes nothing |
| Coordinator.LeasesStay | crates/git-cache-worker/src/lib.rs:83-138 | every step keeps one holder per held lease |
| Coordinator.EntriesStay | crates/git-cache-worker/src/lib.rs:280-311 | every step keeps one owner per entry, which publishes once |
| Coordinator.InflightStays | crates/git-cache-worker/src/lib.rs:220-260 | every step keeps the inflight map listing exactly the live owners' entries |
| Coordinator.JoinersStay | crates/git-cache-worker/src/lib.rs:187-218 | every step keeps joiners attached to entries of their own key |
| Coordinator.RunKeepsInv | crates/git-cache-worker/src/lib.rs:187-259 | all of this holds over every interleaving of any number of tasks |
| Coordinator.OwnersDiffer | crates/git-cache-worker/src/lib.rs:220-229 | at most one live owner per key |
| Coordinator.JoinersServed | crates/git-cache-worker/src/lib.rs:280-311 | a joiner that returned got its owner's result, and none waits on an entry whose owner finished without publishing |
| Coordinator.DoneIsQuiet | crates/git-cache-worker/src/lib.rs:251-260 | when all tasks are done, inflight map and leases are empty |
| Coordinator.EveryRunGuarantees | crates/git-cache-worker/src/lib.rs:83-138 | in every interleaving of successes, errors, busy leases and panics: one executor per repository, one live owner per key, joiners served, quiet at the end |
| Coordinator.StepEarns | crates/git-cache-worker/src/lib.rs:187-249 | each step leaves the acting task with a result that tells how its execution ended, or with none |
| Coordinator.ResultsAreEarned | crates/git-cache-worker/src/lib.rs:187-249 | in every interleaving whoever has returned, owner or joiner, has the result of one task of its key that executed at most once: an update exactly if that execution succeeded while the task held the lease, an error exactly if it failed with that message or panicked, a busy lease exactly if it never ran, which is so exactly if the lease was held by another task when it asked |
| Coordinator.RunsAreBounded | crates/git-cache-worker/src/lib.rs:187-259 | without new arrivals every run ends within a bound fixed at its start |
| Coordinator.NeverStuck | crates/git-cache-worker/src/lib.rs:187-259 | as long as some task has not returned, some task can take a step |
| FetchPlan.FetchFor | crates/git-cache-domain/src/materializer/direct_git.rs:81-185 | for every parsed request, cache state and later boundary, the fetch options set at most one of depth, deepen and unshallow and never zero; history is left alone, deepened by the depth or unshallowed exactly as request and boundary call for; objects are downloaded again exactly from a partial cache that lacks them, or for a want that needs it; blobs are left out exactly when the client wants none |
| FetchPlan.FetchArgs | crates/git-cache-git/src/lib.rs:1499-1549 | argument building succeeds exactly on acceptable options and pushes exactly what they ask for, each once |
| ReadThrough.Cache.Settle | crates/git-cache-domain/src/materializer/direct_git.rs:452-559 | one want is served, hydrated or set aside: never served or hydrated from a repository that has to be refetched or extended first; otherwise set aside only over an answer that its commit is absent and not to be had from the store, or lacks history; what is served is present with its tree and its depth window, offered to the client and, under suspicion, vouched for |
| ReadThrough.Cache.ServeHydrated | crates/git-cache-domain/src/materializer/direct_git.rs:504-550 | a hydrated commit is served only if its history was walked, or that of another commit of the same generation, and then it is not walked again; it is not served only if it is not mapped or its history has a gap |
| ReadThrough.Cache.Classify | crates/git-cache-domain/src/materializer/direct_git.rs:452-561 | every want is counted once or pending, all commits are pending where the repository has to be refetched or extended, each pending want is excused otherwise, and a marker written here always leads to a verified fetch |
| ReadThrough.Cache.PrepareAll | crates/git-cache-domain/src/materializer/direct_git.rs:588-598 | after the batched fetch every commit is ready and offered to the client, or missing over a failure or a negative answer |
| ReadThrough.Cache.BatchedFetch | crates/git-cache-domain/src/materializer/direct_git.rs:723-814 | every pending want is asked for, with its kind or with all heads; all heads are asked for only after a failure, and at most once |
| ReadThrough.Cache.FetchPending | crates/git-cache-domain/src/materializer/direct_git.rs:563-671 | on success every pending want was asked for and every commit among them is ready and offered, verified where the closure is in doubt, and then the marker is gone if its file can be removed; nothing but pending wants or, after a failure, all heads is asked for, again exactly as the plan says; it fails only over a failure or a negative answer |
| ReadThrough.Cache.EnsureWants | crates/git-cache-domain/src/materializer/direct_git.rs:291-710 | on success the five counts add up to the number of wants, those of commits to the number of commits among them, every commit is fit to serve and offered to the client, each is vouched for when the closure was suspect; the suspicion is lifted exactly when something was served or fetched, and no new one is left behind, unless the marker file cannot be removed; a repository that has to be refetched or extended serves nothing and the upstream is asked for every commit; otherwise it is asked only for excused wants |
| ReadThrough.PlanFor | crates/git-cache-domain/src/materializer/direct_git.rs:297-440 | the plan made for any request over any cache repository is sound, forces a refetch exactly when the cache lacks objects, and extends history exactly for a full clone of a shallow cache and for a deepening that the boundary does not satisfy |
| ReadThrough.Cache.EnsureRequest | crates/git-cache-domain/src/materializer/direct_git.rs:291-710 | all this for every request and every cache repository: a full clone is never served from a shallow cache, nor whole objects from a partial one, except for complete snapshots; where nothing fails and nothing is missing every request is met, from a complete cache without asking the upstream |
| UploadPack.VisitLines | crates/git-cache-domain/src/materializer/direct_git.rs:1434-1461 | the offset loop visits the lines of the specification on every body |
| UploadPack.PrintThenRead | crates/git-cache-domain/src/materializer/direct_git.rs:1434-1461 | printing lines of at most 65531 bytes and flushes, then reading, gives the lines back |
| UploadPack.CutBodyGivesPrefix | crates/git-cache-domain/src/materializer/direct_git.rs:1434-1461 | a truncated body gives an initial part of its lines and never other ones |
| UploadPack.Sorted | crates/git-cache-domain/src/materializer/direct_git.rs:1282-1285 | the branches in strictly ascending byte order, each once |
| UploadPack.Synthesize | crates/git-cache-domain/src/materializer/direct_git.rs:1279-1332 | the advertisement lists the upstream's branches in ascending order and ends with a flush |
| UploadPack.CapabilitiesTellDefault | crates/git-cache-domain/src/materializer/direct_git.rs:1287-1307 | the symref in the capabilities determines the default branch |
| UploadPack.AdvertisementReadsBack | crates/git-cache-domain/src/materializer/direct_git.rs:1271-1332 | reading an advertisement back yields every branch with its commit exactly once, HEAD and its symref exactly when the default branch is advertised, and capabilities on the first line only |
| Keys.EncodeComponent | crates/git-cache-objectstore/src/manifests.rs:452-467 | the encoder's loop computes the specified encoding |
| Keys.DecodeUndoesEncode | crates/git-cache-objectstore/src/manifests.rs:452-467 | encoding can be inverted, so no two names share an encoding |
| Keys.EncodedIsPlain | crates/git-cache-objectstore/src/manifests.rs:452-467 | an encoded name holds only unreserved characters and percent signs, hence no slash |
| Keys.KeysStayApart | crates/git-cache-objectstore/src/manifests.rs:114-182 | two keys of any kinds are equal exactly when they belong to the same thing, or one is a repository's default manifest and the other its ref named "default" |
| Keys.DefaultCanClash | crates/git-cache-domain/src/materializer/generations.rs:1045-1047 | that clash is real for every repository |
| Keys.EveryKeyIsAccepted | crates/git-cache-objectstore/src/lib.rs:121-155 | every generated key passes the store's key check |
| Keys.ListingsAreExact | crates/git-cache-objectstore/src/manifests.rs:118-143 | listing a repository's generation, pack or manifest prefix finds its own and nothing else |
| Keys.ReadingsAreRight | crates/git-cache-domain/src/materializer/generations.rs:967-1005 | repointing reads every key of a repository as the kind of manifest it holds exactly when no two neighbouring parts of the repository's name are manifests/commits or manifests/refs |
| Keys.SomeNamesMislead | crates/git-cache-domain/src/materializer/generations.rs:974-984 | repository names for which it does not are accepted, on every host |
| Multipart.PartSize | crates/git-cache-objectstore/src/s3.rs:669-679 | defined exactly up to 5 TiB, the default of 64 MiB or the smallest size with which 10000 parts suffice |
| Multipart.PartsTile | crates/git-cache-objectstore/src/s3.rs:139-182 | parts are numbered consecutively, all but the last are full, and together they are the data |
| Multipart.PartCount | crates/git-cache-objectstore/src/s3.rs:669-679 | n parts suffice exactly when n full parts hold the data |
| Multipart.PutFileParts | crates/git-cache-objectstore/src/s3.rs:139-182 | a file of up to 5 TiB becomes at most 10000 parts that tile it, exactly unless the upload of one of them fails; exactly a longer one is refused as too large |
| Multipart.PutStreamParts | crates/git-cache-objectstore/src/s3.rs:212-300 | the parts of a stream do not depend on how the reader hands out its bytes, and exactly a failing part makes it fail |
| Multipart.StreamParts | crates/git-cache-objectstore/src/s3.rs:617-627 | a stream of honest announced length stays within 10000 parts; one of unknown length exactly up to 625 GiB |
| RateLimiter.Limiter.Check | crates/git-cache-api/src/lib.rs:1996-2016 | the answers are those of the specification; a limit of zero admits everything |
| RateLimiter.WindowBound | crates/git-cache-api/src/lib.rs:1996-2016 | each window admits at most the limit, and windows are at least a minute apart |
| RateLimiter.MinuteBound | crates/git-cache-api/src/lib.rs:1996-2016 | no half-open minute whatsoever admits more than twice the limit |
| RateLimiter.BoundIsTight | crates/git-cache-api/src/lib.rs:1996-2016 | twice the limit is reached, for every limit |

## Left out

- Foreign effects: HTTP routing, S3 and TLS clients, LFS handlers, Git and gitoxide processes, file systems, JSON, SHA-256, UUIDs, clocks and logging. Where a module needs one it is a parameter, a nondeterministic outcome or a contract: packs are identified by their contents, ids are unique, content versions are injective.
- Configuration, command line, authentication parsing, error-to-status mapping, metrics, cron and webhook sources, short-commit resolution and the LFS protocol: easy members or plumbing.
- Concurrent sweep and publish: the sweep takes the repository lock of its own node only, so timing assumptions outside the code would decide; runs over the store are sequential apart from the head. Another publisher's head appears where a publish or a compaction reads or swaps the head again; the other writes neither read nor write it, so a move between them is the same as one there.
- Cancellation of a coordinator owner's future, a stream polled after its end, poisoned locks, and the eviction of a repository between two halves of a flush are not modelled.
- Reading the head, a manifest or a listing from the store is taken to work; writes, removals, swaps and Git commands may fail.
- Store writes that fail after taking effect, and listing that misses fresh objects, are not modelled; a write happens or does not.
- Refs are taken to point at commits; peeling of annotated tags, and pack files kept by `.keep` markers during a repack, are not modelled.
- GenerationStore.PublishGeneration: the disk reservation for the pack file and its release are not part of the store model.
- Retention.SweepSuperseded: the byte counters of the report are not modelled; generations created at the same instant are sorted in any order, which does not affect the result.
- Retention.Repoint: the listing is taken to tell commit manifests from ref manifests, as the code's does for all repository names but those of `Keys.ReadingsAreRight`; there the source stops with an error at the head, which it cannot read as such a manifest.
- Compaction.CompactGenerationChain: dry-run byte counts and the report's pack count are not modelled.
- PackDemux.Demux.Feed: overflow of the 64-bit byte counter is not modelled.
- ProxyStream.UpstreamProxyStream.PollNext: the 64-bit saturating count of bytes sent is a natural number.
- ProxyStream.History: what the import does with a finished spool (indexing the pack, restoring refs) and the refetch itself are outcomes, and the generation jobs that follow a successful one are not modelled.
- StoreRuns.Perform: the HEAD recorded in a generation is settled for each publish and compaction, not followed over runs.
- StoreRuns.QuietRunHoldsAll: in a store shared with other publishers their heads may hold anything, so nothing of this kind can be promised.
- StoreState.SharedKeyIsHarmless: the default manifest and the ref manifest named "default" are two tables, although they share a key in the store (`Keys.KeysStayApart`). A write of one there replaces the other; both name generations, so the lemma covers what that does to integrity and coverage, but the content of the one that was replaced is not followed further.
- DepthWindow.WindowReady: presence of trees is a set; the local completeness walk for single-commit snapshots is not modelled.
- DiskManager.DiskManager.Reserve: reservation markers left on disk by an earlier process, the cleanup of stale temporary directories and the size of metadata files are not modelled; the sum of reservations is required to fit 64 bits, as the source's sum would otherwise overflow.
- DiskRuns.Run: with the largest 64-bit value usable, requests that together exceed it are not followed, because the source's sum of reservations overflows.
- DiskManager.DiskManager.LockRepo: taking a lock and noting an access in memory are taken to work; the source first makes sure that the cache's directories exist, which may fail.
- DiskManager.DiskManager.EvictUntilAvailable: removing a directory succeeds or leaves it whole.
- DiskManager.DiskManager.InvalidateRepo: a new directory of the same name appearing while the old one is being deleted is not modelled.
- ReadThrough.Cache.EnsureWants: the types of all wants are looked up in one query, whose failure ends the request in the source; here a type may be unknown, the query does not fail; only commits have commit manifests; what is in a repository is the answer to a query, so the same query may be answered differently later; background checks and maintenance jobs, and the partial-hydration marker, which is cleared after refetching the requested wants only, are left out.
- UploadPack.VisitLines: which lines are UTF-8 text is a parameter.
- UploadPack.AdvertisementReadsBack: names and commits contain no NUL and commits no space, and every line fits a packet, as Git guarantees for what it reports.
- Keys.EveryKeyIsAccepted: the additional walk over path components is implied by the segment checks on the platforms the server runs on.
- Multipart.PutFileParts: a failing part upload ends the loop; the abort request that follows is not modelled.
- RateLimiter.Limiter.Check: the two clock readings of one check are taken as one.
- The intent parser of `direct_git.rs` (lines 1357-1432) enters through its guarantees only: depths between 1 and the largest 32-bit number.
