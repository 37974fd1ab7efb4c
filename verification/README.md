# A verified model of the archive's durable state

The archiver copies an organisation's objects into a tree of files, keeps a
ledger of what it fetched, resumes after any interruption, and may move cold
files to an object store. This project models the parts whose promises span
calls, runs and crashes, and proves those promises for every input and every
interleaving the model admits.

`dafny verify dfyconfig.toml` checks it.

## How it is laid out

**Ledger.** `Records` holds keys, values, replay and the class sort; `Shards`
one shard's maps and dirty sets; `Batches` the merge of what shards drain.
`Books` is the whole ledger as a value, memory and disk together, with one
lemma per hold of the lock; `Ledgers` is the class whose methods are proved
against it, over heap shards shared by alias keys, with other workers recording
between any two holds. `Loads` is what a load makes of a disk, and `Deletions`
what stays gone over any run of holds, crashes and loads. `Durability` is the
simple view (memory, durable state, batches that land or tear), and `Refinement`
tells from the holds of a run which moves of that view it made, no others: what
no move of the view breaks, no run of the ledger breaks. So the two theorems
about gates (`GateDurability`, over the rules in `Gates`) and about walks
(`WalkDurability`) are proved over the ledger's own holds, records landing while
a batch is in flight included; `GateCalls` brings the first to the class.

A crash leaves the acknowledged lines and any whole-line prefix of the batch in
flight; `AppendLogs` proves, over bytes, that a torn or unparseable tail amounts
to that. Lines are an abstract codec that parses what it encoded and emits no
newline.

Beneath them, `Directories` says when a directory or an appended byte survives a
crash at all.

**Walk.** `Walks` is the page loop against a script of everything it does not
control; `WalkLimits` says which elements its bounds keep, `WalkSafety` what one
walk keeps true, and `WalkDurability` any number of walks over the ledger. Upstream is a newest-first list that grows at the front, whose
elements become terminal once. A page may repeat elements, never skip one.

**History.** `Sidecars` is the backward scan, `Histories` the three operations on
the sidecar file, `Timelines` the commit order of sidecar and object file, and
`Archives` that order together with the ledger entry, over whole runs.

**Tree walk.** `TreeTours` specifies the traversal as a function, for every
tree; `TreeWalkers` is the recursive walker proved equal to it; `TreeSafety`
proves what it promises, `TreeNames` its naming rule, and `TreeSlashes` exactly
where the promises fail.

**Mirror.** `Renames` spells old names of a path, `Custodies` moves and heals one
surface, `Sweeps` mirrors a whole tree. Digests are collision free, and a
recorded digest is truthful; objects with no digest are in the model.

**Others.** `Identities` and `SharedArchives` are the directory-identity and
single-claimant protocols; `ByteSizes`, `Durations` and `Decimals` the two
parser and printer pairs.

## Where the code and its promises differ

Each is proved: an input that breaks the promise, and the exact condition under
which it holds.

- **An incremental walk can strand elements.** Without a count bound the walk
  does not remember what it met. If a page shift re-lists an element the same
  walk archived a page earlier, that element reads as frozen history, and the
  walk stops above elements it never listed and settles
  (`WalkSafety.RelistedElementStrands`). A walk is safe, whatever is served,
  exactly when it is count-bounded or its starting state does not allow the early
  stop: a first walk, a resumed one, an unsettled one (`WalkSafety.WalkIsSafeIff`).
- **A limit stop can leave a collection settled.** Its comments say a walk stopped
  by a limit withholds settlement. It earns none, but one that moved nothing does
  not withdraw any either: a settled collection whose retried entry is a child, not
  an element, is walked to the limit and stays settled
  (`WalkLimits.LimitLeavesSettled`). A limit stop ends settled exactly when the
  collection was settled and every element kept was at rest
  (`WalkLimits.LeftOutIff`).
- **The file system's own root owns nothing.** The containment test appends a
  separator to a root's path, which `/` already ends with. A walk of `/`, or one
  that follows a link to `/`, may visit a directory twice
  (`TreeSlashes.OnceIff`).
- **A live owner behind a symlink is not seen.** The scan for owners skips
  symlinked children, so a claim can make a second live owner
  (`Identities.SymlinkedOwnerIsMissed`). A claim is unique exactly when every live
  owner the scan skips was in the cache (`Identities.Parent.ClaimDir`).
- **A directory whose creation failed midway passes for durable.** A creation that
  fails at a flush leaves its levels in place. The retry finds the directory and
  reports success without flushing, so a crash can still take it, with what was
  appended in it (`Directories.RetryForgets`). A success is durable exactly when
  every directory already there is (`Directories.HonouredIff`).
- **A version that cannot be recorded is lost.** A commit over empty or invalid
  UTF-8 content skips the sidecar, as its comments say; a version is lost
  exactly then, unless the sidecar already holds it as the newest
  (`Timelines.CommitLosesIff`).

## Model

| member | source | states |
|---|---|---|
| `Records.ByClassSorts` | pkg/manifest/wal.go:93-123 | the merged batch is sorted by record class and is a permutation of what the shards emitted |
| `Records.ByClassStable` | pkg/manifest/ledger.go:1803-1808 | sorting keeps the order of emission inside each class |
| `Records.ReplayAt` | pkg/manifest/shard.go:192-217 | after a replay every cell holds its last record in the log, or what it held before |
| `Records.ShardKeyIs` | pkg/manifest/shard.go:40-51 | anything at or beneath a workspace, a stack or the configuration versions is in that shard |
| `Records.ShardKeyElse` | pkg/manifest/shard.go:40-51 | every shard key is a prefix of the key it owns, and is one of those or the organization root's |
| `Records.ReplayOverMixedSnapshots` | pkg/manifest/ledger.go:1860-1949 | replaying the whole log over any mix of snapshots taken before it and snapshots folded from it gives the same state |
| `Shards.Shard.ApplyRecord` | pkg/manifest/shard.go:192-217 | a replayed record replaces its own cell alone, marks the shard stale and makes nothing dirty |
| `Shards.Shard.EmitAll` | pkg/manifest/shard.go:253-345 | a drain emits every dirty cell with its current value and nothing else, in seven groups: settlement withdrawals, open entries, settled entries, marks, completion, settlement, the run record |
| `Shards.Shard.DrainDirty` | pkg/manifest/shard.go:253-345 | the drain hands over exactly the dirty sets it empties, and drained entries read as in flight until it is closed |
| `Shards.Shard.RestoreDirty` | pkg/manifest/shard.go:352-375 | a failed append makes everything drained dirty again, with what was recorded since |
| `Shards.Shard.AckDrained` | pkg/manifest/shard.go:380-384 | an acknowledged append closes the in-flight window of what was drained and marks the shard stale, leaving later changes dirty |
| `Batches.MergedIsBatch` | pkg/manifest/ledger.go:1785-1808 | merging what each physical shard drained, in any order, and sorting by class gives a batch that carries all and only what memory owed |
| `Durability.FullBatch` | pkg/manifest/ledger.go:1788-1858 | the whole batch over the durable state is memory |
| `Durability.PrefixAt` | pkg/manifest/wal.go:93-123 | after any whole-line prefix of a batch each cell is as durable before, or as in memory, or withdrawn; cells that were clean are as in memory |
| `Durability.PrefixGuards` | pkg/manifest/wal.go:93-123 | once a prefix reaches a record, everything dirty of a lower class is already as in memory |
| `Durability.PrefixLeads` | pkg/manifest/shard.go:253-345 | a prefix past the leading class has withdrawn every settlement that was withdrawn since the last flush, even one re-earned since |
| `Durability.PrefixOrder` | pkg/manifest/wal.go:93-123 | a prefix that reaches a settled object holds every open entry; one that reaches a cleared or marked gate, a mark, a completion or a settlement holds those and every settled object; one that reaches the run record holds all of them |
| `Books.FlightLands` | pkg/manifest/ledger.go:1768-1858 | whatever is recorded while a batch is in flight, acknowledging it makes the durable state the memory it was drained from |
| `Books.FlightFails` | pkg/manifest/ledger.go:1768-1858 | a failed append that leaves any whole-line prefix leaves a durable state between the two, memory as the workers left it, and owed exactly what was owed at the drain and what was recorded since |
| `Books.MemoryDocuments` | pkg/manifest/shard.go:391-421 | the document of a shard with nothing dirty is exactly what snapshot and log together hold for it |
| `Books.WroteImage` | pkg/manifest/ledger.go:1965-1994 | writing one shard's snapshot while the log stays changes nothing a load would see |
| `Books.RemoveLogGood` | pkg/manifest/ledger.go:1868-1949 | when no shard is stale and no failed append is outstanding, removing the log changes nothing a load would see |
| `Books.SettledCellSurvives` | pkg/manifest/ledger.go:906-926 | a cell neither dirty nor in flight is recovered exactly as memory holds it by a crash at that instant, whatever the batch in flight left |
| `Books.CleanRecovery` | pkg/manifest/ledger.go:1768-1858 | with nothing dirty and nothing in flight a crash recovers memory itself |
| `Refinement.NothingInvented` | pkg/manifest/ledger.go:1768-1994 | the moves a run of lock holds amounts to hold exactly what the workers recorded, in the order they did |
| `Refinement.RunRefined` | pkg/manifest/ledger.go:1768-1994 | every interleaving of records, drains, acknowledgements, failed appends, snapshot writes, stale marks cleared and log removals has the memory, the disk and the batch in flight that its own moves have, each drain one whole flush, landed or torn where its append was |
| `Refinement.CrashRefined` | pkg/manifest/ledger.go:1768-1994 | after any such interleaving memory is what the workers recorded, and a crash recovers exactly the memory drained for the last acknowledged flush, the lines failed appends left after it, and some whole-line prefix of the batch in flight: every such state, and no other |
| `Ledgers.Ledger.RecordLocked` | pkg/manifest/ledger.go:1190-1220 | recording leaves the entry with its new status and one attempt more than it had, owed to the log, and no other cell changed; both tallies stay equal to what the shards hold |
| `Ledgers.RecordTallies` | pkg/manifest/ledger.go:1190-1220 | moving one entry from its old status to its new one keeps each cumulative count equal to the entries in that status, and each run count to those recorded since the run started |
| `Ledgers.Ledger.StartRun` | pkg/manifest/ledger.go:1644-1672 | a run start empties the run counts and records a run number one above the last, or one, changing no other cell; the cumulative counts stay |
| `Ledgers.Ledger.SeedTallies` | pkg/manifest/ledger.go:335-352 | after a load each cumulative count is the number of entries in that status over physical shards, each once |
| `Ledgers.Ledger.Do` | pkg/manifest/ledger.go:1281-1373 | each recording call changes exactly its own cell: an entry gains an attempt and its status, a flag its value, a collection its completion |
| `Ledgers.RecordedIs` | pkg/manifest/ledger.go:1281-1373 | a recorded entry has its status and one more attempt than it had, and no other cell changes |
| `Ledgers.FlaggedIs` | pkg/manifest/ledger.go:1281-1373 | a settlement flag has the value it is given, a completed collection its completion, and no other cell changes |
| `Ledgers.MarkAdvances` | pkg/manifest/ledger.go:1281-1373 | a high-water mark keeps the newer of what it held and what it is given, and nothing else changes |
| `Ledgers.Ledger.HasUnsettledUnder` | pkg/manifest/ledger.go:1391-1413 | true exactly when some entry strictly beneath the prefix, in the prefix's own shard, is errored, forbidden or pending, or absent when absences are retried |
| `Ledgers.Ledger.OpenObligation` | pkg/manifest/obligation.go:46-60 | a marker is opened unless it is already pending or errored, so an obligation a run left open is not restarted |
| `Ledgers.Ledger.ShardFor` | pkg/manifest/ledger.go:653-710 | a shard key reaches the shard of its physical directory, so alias keys share one shard |
| `Ledgers.Ledger.Drain` | pkg/manifest/ledger.go:1768-1814 | one hold of the lock drains every dirty physical shard once into a class-ordered batch of all that was owed |
| `Ledgers.Ledger.Acknowledge` | pkg/manifest/ledger.go:1815-1858 | closes the drain of every shard drained and of no other |
| `Ledgers.Ledger.Restore` | pkg/manifest/ledger.go:1815-1858 | re-marks the drain of every shard drained and of no other |
| `Ledgers.Ledger.CompactShard` | pkg/manifest/ledger.go:1965-1994 | writes the shard's document and clears its stale mark, or skips a shard made dirty meanwhile; workers may record between the two holds; what it did is a run of holds, and what a load would see never changes |
| `Ledgers.Ledger.Fold` | pkg/manifest/ledger.go:1868-1949 | removes the log only when no shard is stale after the pass; a fold of everything that did not remove it arms the next flush to fold again; what it did is a run of holds, and what a load would see never changes |
| `Ledgers.Ledger.Flush` | pkg/manifest/ledger.go:1768-1858 | a flush is a run of holds that begins with its drain: memory is what the workers recorded meanwhile made of it; success made durable all that memory held when it began; a failed append left a state between and everything still owed; after an undisturbed success the log is gone or within the threshold, and one that stayed within it, with no fold armed, was not folded; an armed fold stays armed until the log is gone; it succeeds when no write fails |
| `Ledgers.Ledger.EntryDurable` | pkg/manifest/ledger.go:906-926 | answers yes exactly when the entry is neither dirty nor in flight, and then every state a crash could be recovered into holds the entry memory holds |
| `Ledgers.Ledger.ReplayLog` | pkg/manifest/ledger.go:745-791 | replays, in order, exactly the log's records whose tag or whose cell's own shard is present, each with its own cell and value, under its tag while that is present and else under its cell's shard; the discards reported are the lines it left out, and the log counts toward the next fold |
| `Ledgers.Ledger.RunMigrations` | pkg/manifest/ledger.go:409-457 | rewrites in memory exactly the entries of dated shards that the migration changes, leaves snapshots and log alone, and marks every shard with an old snapshot for a fold |
| `Ledgers.Ledger.Load` | pkg/manifest/ledger.go:224-400 | a load that succeeds holds of every cell the newest line that lands there, or else its snapshot, after the migrations, and nothing else, all of it durable; a log it discarded anything from, or that stood over a snapshot of an old version, is gone; it succeeds when no write fails |
| `Loads.SurvivingAreThere` | pkg/manifest/ledger.go:745-839 | a log record is in what a load replays exactly when its tag or the shard of its cell is present, with its own cell and value, under its tag if that is present and else under its cell's shard, in the log's order |
| `Loads.ReopenedRestores` | pkg/manifest/ledger.go:224-400 | what a reopened ledger holds is, cell by cell, what the disk says of it once migrated: nothing is dropped and nothing added |
| `Deletions.HonouredForGood` | pkg/manifest/ledger.go:313-397 | once a load succeeded over a removed subtree, no snapshot, log line, batch or memory holds anything of it, through any further records, failed appends, folds, migrations, crashes and loads, whatever directories exist by then, unless it is recorded anew |
| `Deletions.NothingFromNowhere` | pkg/manifest/ledger.go:224-400 | with nothing left to migrate, every value memory ever holds was held somewhere at any earlier moment or recorded since |
| `Deletions.CallIsRun` | pkg/manifest/ledger.go:1768-1994 | what a flush, a fold or a compaction did is such a stretch of steps, and the log file's lines are the ones the call left |
| `Ledgers.Ledger.Mirror` | pkg/manifest/ledger.go:1064-1149 | a pending or absent verdict ends with the gate in that status, written only if it was not; a clear ends with it cleared exactly where it was open or marked, and leaves any other gate, or none, alone; a written gate remembers how often each mirrored object had been recorded |
| `Ledgers.Ledger.Reference` | pkg/collect/env.go:437-456 | with workers recording before each of its reads, every reading is of memory as it was at that moment; then the gate is pending if some first reading was missing, errored, forbidden, pending, or absent under a retry of absences; else marked absent if some second reading was absent, even where there was no gate; else cleared if it was open or marked, and otherwise as it was |
| `Gates.PrefixBacked` | pkg/manifest/wal.go:93-123 | after any prefix of any batch every settled gate has behind it records at least as new as those that settled its objects, though they live in other shards |
| `Gates.OpenMarkerLeads` | pkg/manifest/obligation.go:36-60 | once a prefix reaches a settled entry, every marker opened before it is durable |
| `Gates.ReferMoves` | pkg/collect/env.go:437-456 | the verdict on any readings moves the gate so, counts one more attempt when it writes, remembers the objects a settled gate stands for, and touches no other cell |
| `GateDurability.RecoveredGatesBacked` | pkg/collect/env.go:437-456 | over any run of records, references and flags between any two of the ledger's holds, appends landing or failing, and crashes, a recovered settled gate has a recorded entry for every object it mirrored, at least as new as the one that was read |
| `GateCalls.CallBacked` | pkg/collect/env.go:437-456 | a crash after a call of the ledger's own reference, wherever the runs before had come to, recovers no settled gate without the objects it mirrors |
| `Walks.Collection.VisitPage` | pkg/collect/walk.go:223-356 | told from the listing alone: the page keeps its elements not met before, in order, up to the first outside the bounds or the first at rest for good where the walk may stop; settlement is withdrawn before the first archive exactly when the page is the walk's first to move anything and there is settlement to withdraw; and the page ends the walk, completes and settles the collection, or pages on as its last element says |
| `Walks.Walk` | pkg/collect/walk.go:187-357 | the page loop performs exactly the specified ledger mutations, in that order, on pages each decided so; it ends as the last of them says, and completion and settlement are what that end earns |
| `WalkLimits.FreshMeans` | pkg/collect/walk.go:226-262 | the distinct elements of a listing are each there once, where first listed, in listing order |
| `WalkLimits.CountKeeps` | pkg/collect/walk.go:39-66 | bounded by a count alone, a walk not stopped early keeps exactly that many of the distinct elements served, the first, or all there are; it ends at its limit exactly when there are more |
| `WalkLimits.CountCaps` | pkg/collect/walk.go:39-66 | however it ends, such a walk keeps no more than the count and none twice |
| `WalkLimits.AgeKeeps` | pkg/collect/walk.go:39-66 | with an oldest bound, over a newest-first listing, a walk not stopped early keeps an element exactly when fewer than the count precede it or it is not older than the bound |
| `WalkLimits.UnboundedKeeps` | pkg/collect/walk.go:201-356 | a walk with no bound leaves nothing out unless it stops early |
| `WalkLimits.LeftOutIff` | pkg/collect/walk.go:326-356 | a walk that got through its listing is complete; it ended at its limit exactly when it left an element out, and is then settled exactly when it was settled before and moved nothing; one that ended at the listing's end is settled exactly when all it kept was terminal and nothing is to be retried |
| `WalkLimits.LimitLeavesSettled` | pkg/collect/walk.go:326-346 | a settled collection with a retried child, walked to its limit with nothing moved, stays settled with elements left out |
| `WalkSafety.WalkGood` | pkg/collect/walk.go:201-356 | with a count bound, or from a state that does not allow the early stop, or when no element is served twice, a walk from a truthful settlement performs only mutations that keep it truthful, wherever it is interrupted |
| `WalkSafety.EarlyStopCovers` | pkg/collect/walk.go:264-324 | when a walk stops early everything at or below its boundary and everything above it is recorded, and was terminal when it was |
| `WalkSafety.WalkIsSafeIff` | pkg/collect/walk.go:201-356 | from any truthful settlement, every walk keeps it truthful exactly when it is count-bounded or starts with the early stop not allowed |
| `WalkSafety.RelistedElementStrands` | pkg/collect/walk.go:226-324 | from every other state, a page shift that re-lists an element this walk archived stops the walk above an element it never listed, and settles |
| `WalkDurability.PrefixSound` | pkg/manifest/wal.go:93-123 | after any prefix of any batch a recovered settlement is truthful and a withdrawn one is still withdrawn |
| `WalkDurability.RecoveredNeverStrands` | pkg/collect/walk.go:201-356 | over any number of walks cut short anywhere, with other records, drains, appends landing or failing, folds and crashes between any two mutations, a recovered settled collection is complete, all it recorded was terminal, and everything older is recorded |
| `AppendLogs.AppendFile.LastRecordBoundary` | pkg/atomicfile/atomicfile.go:378-405 | the backward chunked scan returns the offset just past the last newline, or zero |
| `AppendLogs.AppendFile.Append` | pkg/atomicfile/atomicfile.go:245-372 | an append trims an unfinished tail, writes at the boundary, and on a failure is trimmed away or leaves a prefix of its own bytes |
| `AppendLogs.AppendFile.Replay` | pkg/manifest/wal.go:177-230 | a replay returns the records before the first unparseable line and cuts the file there, keeping an unfinished tail that no newline ends |
| `AppendLogs.AppendReplays` | pkg/manifest/wal.go:137-230 | on an intact log a replay after an append returns the old records and then the new, whatever torn or unparseable line follows |
| `AppendLogs.BlankSkipped` | pkg/manifest/wal.go:177-230 | a line of white space alone is passed over, and a line with anything else that parses is replayed |
| `AppendLogs.CutAppendReplays` | pkg/atomicfile/atomicfile.go:332-372 | cut at any byte, an append replays as the old records and a whole-line prefix of the new |
| `AppendLogs.AppendRun` | pkg/atomicfile/atomicfile.go:245-405 | after any sequence of flushed, failed and crashed appends the log replays as each batch in order, whole if flushed, absent if trimmed, else a prefix |
| `Directories.FileSystem.MkdirAll` | pkg/atomicfile/atomicfile.go:477-541 | for every pattern of faults, creates the missing levels and flushes each one's parent, shallowest first, and the deepest itself; a directory already there costs one stat |
| `Directories.FileSystem.Append` | pkg/atomicfile/atomicfile.go:245-293 | an append creates its directory and file, and flushes the entry of an empty file before its first bytes |
| `Directories.MadeSurvives` | pkg/atomicfile/atomicfile.go:477-541 | a directory reported made survives a crash exactly when the nearest one that was there before the call does |
| `Directories.MadeIff` | pkg/atomicfile/atomicfile.go:477-541 | a creation succeeds exactly when the directory is there, or no file stands in its path and nothing faults: each stat up to the first level there is, the creation, each created level's mode, and the flush of each and of the level above it |
| `Directories.MadeOnly` | pkg/atomicfile/atomicfile.go:477-541 | a directory already there costs nothing, and nothing is ever created but levels of the path asked for |
| `Directories.MadeDown` | pkg/atomicfile/atomicfile.go:477-541 | the levels a creation reached are there whether or not it succeeded |
| `Directories.HonouredIff` | pkg/atomicfile/atomicfile.go:477-541 | every reported success is durable exactly when every directory already there would survive a crash |
| `Directories.RetryForgets` | pkg/atomicfile/atomicfile.go:477-541 | after a flush failed the retry finds the directory, reports it made without a flush, and a crash takes it |
| `Directories.AppendSurvives` | pkg/atomicfile/atomicfile.go:245-317 | a file that holds bytes has its entry flushed, whatever failed before; appended bytes survive exactly when the nearest directory there before the append does |
| `Directories.AppendIff` | pkg/atomicfile/atomicfile.go:245-317 | an append succeeds exactly when its directory is made and nothing faults, the mode and the flush of its entry included for a file without bytes; one that fails adds no byte |
| `Directories.NothingForgotten` | pkg/atomicfile/atomicfile.go:245-541 | over any run in which no creation failed midway a crash keeps every directory and every appended byte |
| `Sidecars.WalkMeans` | pkg/history/history.go:254-322 | the backward answer is the newest committed line that parses and matches; the tally counts each unparseable line behind it once and names the newest |
| `Sidecars.WindowIsSuffix` | pkg/history/history.go:338-390 | a window read from any offset holds a suffix of the file's committed lines, and the whole file from offset zero |
| `Sidecars.ScanWindow` | pkg/history/history.go:338-390 | scanning one window finds what the walk over its committed lines finds, with absolute offsets |
| `Sidecars.NewestMatching` | pkg/history/history.go:254-295 | the doubling-window scan answers as a parse of the whole file does, and terminates |
| `Histories.Sidecar.AppendRecord` | pkg/history/history.go:396-417 | an append adds one record to those readable, or none if it did not land, behind any torn tail |
| `Histories.Sidecar.Supersede` | pkg/history/history.go:108-139 | appends the outgoing content unless the newest version already is it, and refuses what is not UTF-8 |
| `Histories.Sidecar.Restore` | pkg/history/history.go:148-176 | appends the incoming content exactly when a tombstone is newest |
| `Histories.Sidecar.Bury` | pkg/history/history.go:196-228 | flushes the last content unless already newest, then a tombstone unless one is newest; stopped between, it left exactly the flush |
| `Timelines.NothingLost` | pkg/store/store.go:163-224 | over any sequence of commits and burials each cut after any step, the sidecar's versions and then the file, adjacent repeats removed, are the versions committed, adjacent repeats removed, with no two adjacent tombstones or equal versions |
| `Timelines.CommitKeeps` | pkg/store/store.go:163-224 | one commit cut after any of its steps keeps the timeline |
| `Timelines.CommitLosesIff` | pkg/store/history.go:166-200 | a commit keeps the timeline exactly when the content it replaces is recordable or is already the newest version recorded |
| `Timelines.RetriedBury` | pkg/store/history.go:107-158 | a burial retried after an interruption leaves the records of an uninterrupted one |
| `Archives.Shelf.WriteJSONBytes` | pkg/store/store.go:163-224 | commits in order, superseding, replacing, closing; on a failure the file is untouched, and a tombstone left open still counts as committed; after a whole commit no tombstone is newest |
| `Archives.Shelf.BuryHistory` | pkg/store/history.go:107-158 | leaves some prefix of a burial, all of it on success, and the file alone |
| `Archives.Shelf.ArchiveJSON` | pkg/collect/archive.go:408-458 | records done exactly what the file holds, absent only once its burial was attempted, and nothing on a cancellation; a disappearance with no failed write leaves a tombstone newest, over the file's content if that can be recorded; a payload sealed elsewhere is not written again |
| `Archives.DoneIsKept` | pkg/collect/archive.go:408-458 | over any run of a history-kept object, attempts cut anywhere and restarts from any flushed entry included, the content an entry is done with is in the sidecar or the file |
| `Archives.DoneIsCurrent` | pkg/collect/archive.go:77-88 | over any such run of an object kept without history, a done entry in memory or on disk is done with what the file holds |
| `TreeWalks.OwnsIsContainment` | pkg/fsid/fsid.go:205-217 | the ownership test is containment for every root but the file system's own |
| `TreeWalkers.Walker.OwnerOf` | pkg/fsid/fsid.go:205-217 | answers with the logical path under the first registered root that owns the directory |
| `TreeWalkers.Walker.RootAt` | pkg/fsid/fsid.go:224-232 | answers with the logical path of the first walk rooted exactly there |
| `TreeWalkers.Walker.Walk` | pkg/fsid/fsid.go:119-168 | for every tree, terminates having registered the root and toured it as specified, links to ancestors and nested relocations included |
| `TreeWalkers.Walker.VisitLink` | pkg/fsid/fsid.go:175-201 | a link into an owned tree is recorded as an alias of the name that tree is walked under; any other starts a walk |
| `TreeSafety.TouredSound` | pkg/fsid/fsid.go:119-201 | every nested walk keeps no later root inside an earlier one, no directory visited twice, and each root it adds wholly visited |
| `TreeSafety.VisitsExactly` | pkg/fsid/fsid.go:86-201 | a finished walk visited exactly the directories reachable through entries and links, each once |
| `TreeSafety.NamesExactly` | pkg/fsid/fsid.go:86-201 | each reported name resolves to the file reported under it, and no name is reported twice |
| `TreeSafety.AliasesAnswer` | pkg/fsid/fsid.go:175-232 | each alias resolves to a visited directory and maps to the logical path that directory is reported under |
| `TreeSafety.EveryNameAnswers` | pkg/fsid/fsid.go:86-232 | every name that leads to a directory, through whatever links, is the one it is reported under or is at or beneath an alias |
| `TreeSafety.EveryFileAnswers` | pkg/fsid/fsid.go:86-232 | every name that leads to a file is reported for it or is beneath an alias |
| `TreeNames.NothingBeneathAliases` | pkg/fsid/fsid.go:60-98 | no file is reported at an alias the walk declined, or beneath one |
| `TreeNames.SpellingsAreNotWalked` | pkg/collect/sync.go:843-904 | so no old spelling of a path through those aliases is the name of a walked file |
| `TreeWalkers.WalkFiles` | pkg/fsid/fsid.go:86-98 | walks every tree as specified; from a directory other than the file system's root, over a tree with no link to that root, the walk is a finished, sound one |
| `TreeSlashes.OnceIff` | pkg/fsid/fsid.go:205-217 | once-only visits and names hold over all trees exactly when neither a walk of the file system's root nor a link to it is in play |
| `TreeSlashes.SlashTwice` | pkg/fsid/fsid.go:205-217 | any walk that registers the file system's root visits a directory again when a link to it is met after it |
| `TreeSlashes.RootLinkWalksTwice` | pkg/fsid/fsid.go:175-217 | a tree whose link to the file system's root makes a walk rooted elsewhere visit a directory twice |
| `Renames.AliasRewrites` | pkg/collect/sync.go:920-951 | returns exactly the paths other than the input reachable by one to N owner-to-alias substitutions, each once, nearest first |
| `Renames.OneStepIs` | pkg/collect/sync.go:906-951 | one substitution replaces an owner's path, which is never the archive root, by its alias in a path strictly beneath it |
| `Renames.RespelledBeneath` | pkg/collect/sync.go:906-951 | another spelling lies strictly beneath an alias and keeps the path's own name |
| `Renames.WithinSpells` | pkg/collect/sync.go:920-951 | what the level loop has reached after k levels was spelled by at most k substitutions |
| `Renames.SpelledWithin` | pkg/collect/sync.go:920-951 | everything spelled by at most k substitutions is reached after k levels |
| `Custodies.ConfirmsMeans` | pkg/collect/sync.go:456-472 | a confirmation against a recorded truthful digest is equality of content |
| `Custodies.SizeAloneConfirms` | pkg/collect/sync.go:456-472 | with no digest recorded any content of the same size is confirmed and no other, which is why the offload reads it back; no digest makes up for a size that differs |
| `Custodies.Mirror.OffloadFile` | pkg/collect/sync.go:198-289 | stopped anywhere, a local file is gone or newly uploaded only if it is a bundle whose sidecar lists its members or a tarball with a durable, signed done entry whose hash, if it recorded one, is its content's; it is gone only with those bytes at the key and, for a tarball, its stub written; no other path is touched, a file not so recorded changes nothing, a key already there is never written again, and a retry without a fault finishes exactly when the key holds the same bytes |
| `Custodies.CustodyHolds` | pkg/collect/sync.go:198-289 | after any number of offload attempts stopped anywhere every surface is local, or is one of those recorded bytes with a copy of them at its key, and no object already mirrored has changed |
| `Custodies.Mirror.Heal` | pkg/collect/sync.go:964-1131 | the historical key is released only if the current key holds its content or the recorded one; where nothing could confirm a copy none is made; a healed copy that cannot be confirmed is discarded without losing the historical key; a faithful copy with no fault completes |
| `Sweeps.Sweep.UploadNeeded` | pkg/collect/sync.go:1878-1922 | unless a request faults, an upload is needed exactly when the mirror holds neither the file's content nor, with no digest recorded, its size |
| `Sweeps.Sweep.SyncFile` | pkg/collect/sync.go:1771-1814 | without a failure the file is mirrored; nothing but its own content is ever written, and neither a mirrored file nor a mirrored sidecar is written again; when nothing faults it fails exactly on a sidecar mirrored with other content |
| `Sweeps.Sweep.SyncFiles` | pkg/collect/sync.go:1720-1756 | without a failure every file is mirrored; no other key and no mirrored sidecar changes |
| `Sweeps.Sweep.EvictAll` | pkg/collect/sync.go:670-695 | without a failure every surface is in the mirror alone; failing or not, a local file is kept or its recorded bytes are at its key; no object already mirrored changes; proven surfaces all move when nothing faults |
| `Sweeps.Sweep.Obligations` | pkg/collect/sync.go:722-768 | owes exactly the bundles whose sidecar outlived their zip and the done tarballs with no local file, and fails exactly when a presence cannot be told |
| `Sweeps.Sweep.VerifyOne` | pkg/collect/sync.go:804-833 | without a failure the surface is listed at its size, or a spelling of it under an alias is, and that copy is brought to its own key when nothing stops the heal; failing or not, its own listed copy stays, or each copy under an old name stays or is carried to its own key at its size; only its keys are touched |
| `Sweeps.Sweep.VerifyEvicted` | pkg/collect/sync.go:792-833 | without a failure every obligation is held; failing or not, the copies of each obligation that shares no key with another outlive the check; keys that are neither obligations nor their old spellings are untouched |
| `Sweeps.Sweep.PruneRemote` | pkg/collect/sync.go:2037-2219 | with a restore unfinished, its marker unreadable or the ledger not resumed, nothing is deleted, and anything that would have been fails the sweep; otherwise of the listed keys that are no walked file and no evictable or sidecar shape, those the archive never mirrors go, and those with nothing at their path that the ledger moved, or whose shard is not lost, the last unless they are more than 100 and more than the matched keys; it is clean exactly when nothing is in doubt or refused |
| `Sweeps.Sweep.PruneIs` | pkg/collect/sync.go:2037-2219 | reading the listing key by key and weighing the unbacked keys against the matched ones amounts to exactly those deletions and that verdict |
| `Sweeps.Sweep.SyncArchive` | pkg/collect/sync.go:611-706 | whatever fails, no mirrored sidecar and no mirrored surface changes but an older eviction's, and of those the copy under its own key stays, or each copy under an old name stays or is carried; every local file is kept or its recorded bytes are mirrored, and a surface nothing proves is neither moved nor uploaded; a sweep that ends without a failure leaves every kept file mirrored, every sealed bundle and durably signed tarball of its signature's size in the mirror alone, every older eviction held, and no key but walked files, exempt shapes and spellings that still resolve locally; when nothing faults, nothing is in doubt and the mirror holds what it owes, it ends so |
| `Sweeps.Sweep.StillHeld` | pkg/collect/sync.go:804-833 | after any sweep an older eviction that the listing held is in the mirror, at its recorded size, under its own key or an old name's |
| `Sweeps.AloneOutsideAliases` | pkg/collect/sync.go:906-951 | where no alias lies beneath another and no owed surface beneath any, no two owed surfaces share a key |
| `Sweeps.ShapesAre` | pkg/store/remotestub.go:71-97 | a bundle is a zip directly in a workspace's bundles directory, a configuration tarball lies anywhere beneath its directory, and a sidecar is a bundle's name with a suffix that its stem drops |
| `Sweeps.ArchiveIsShaped` | pkg/store/remotestub.go:71-97 | no sidecar has an evictable surface's shape or name, and the stem of each is a bundle |
| `Identities.Parent.OwnersUnder` | pkg/collect/identity.go:263-298 | answers from the cache, or scans the plain child directories; the cache never names a directory that lost its id |
| `Identities.Parent.MarkRenamed` | pkg/collect/identity.go:192-208 | leaves the breadcrumb on the old directory and changes nothing else |
| `Identities.Parent.ClaimDir` | pkg/collect/identity.go:85-186 | stopped anywhere, no recorded id changes and no second owner appears; on success the directory is a live owner, and the unique one exactly when every live owner the scan skips was in the cache; each claim is one the run theorem ranges over |
| `Identities.SymlinkedOwnerIsMissed` | pkg/collect/identity.go:263-298 | a claim beside a live owner behind a symlink, with nothing failing, succeeds and leaves two live owners of one id |
| `Identities.UniqueAlways` | pkg/collect/identity.go:85-298 | over any run of claims, stopped claims and restarts in which no owner is hidden, at most one live directory names an id |
| `SharedArchives.Env.ClaimShared` | pkg/collect/shared.go:79-92 | the first caller of a path claims it, later ones wait on that claim |
| `SharedArchives.Env.ReleaseShared` | pkg/collect/shared.go:110-119 | the claim stays exactly when its archive succeeded over a settled entry; the claimant returns the outcome it published |
| `SharedArchives.Env.Await` | pkg/collect/shared.go:68-73 | a waiter returns its claimant's outcome, or its own cancellation with the claim left standing |
| `SharedArchives.InEveryRun` | pkg/collect/shared.go:57-119 | in every interleaving two archive calls for one path never overlap, a waiter returns its claimant's outcome unless it gave up, a claim that outlives its call succeeded over a settled entry, and nobody waits on a waiter |
| `SharedArchives.OnlyClaimantRemoves` | pkg/collect/shared.go:94-119 | only the claimant takes its claim out, and only when it failed or left its object unsettled |
| `SharedArchives.KeptIsForever` | pkg/collect/shared.go:94-119 | after a kept success no later call of the path ever archives again |
| `ByteSizes.ParseIsExact` | pkg/config/bytesize.go:69-97 | a text parses to a size exactly when it splits into a numeral and a unit whose exact product is that whole number of bytes, within 63 bits |
| `ByteSizes.ParsesIff` | pkg/config/bytesize.go:69-97 | a text parses to a size exactly when it is digits, or digits around a point, and a unit of the table, a point only with a multiplier, and the digits times the unit are exactly that many bytes at that scale, within 63 bits |
| `ByteSizes.SplitIsUnique` | pkg/config/bytesize.go:69-97 | trimming the unit letters finds the one split there can be |
| `ByteSizes.RoundTrip` | pkg/config/bytesize.go:69-112 | printing a size and parsing it gives the size back, for every non-negative size |
| `ByteSizes.PrintsLargest` | pkg/config/bytesize.go:102-112 | a size prints as a whole number of the largest binary unit that divides it |
| `Durations.ParseDuration` | pkg/config/duration.go:46-83 | the segment loop parses as the sum of the segments' values, or fails |
| `Durations.SignCatchesOverflow` | pkg/config/duration.go:76-79 | the wrapped sum of two non-negative values is negative exactly when it overflowed |
| `Durations.TotalIsSum` | pkg/config/duration.go:65-83 | the total is the exact sum, or a failure exactly when that leaves 63 bits |
| `Durations.ParsesIff` | pkg/config/duration.go:46-83 | a text parses to a duration exactly when it is a bare zero, or numbers each with a unit of the table whose values, a fraction of a nanosecond dropped, each fit and sum to it within 63 bits |
| `Durations.RoundTrip` | pkg/config/duration.go:46-94 | printing a duration and parsing it gives the duration back, for every non-negative duration |
| `Durations.DaysPrint` | pkg/config/duration.go:87-94 | whole days print as days |

## Left out

- Walks.Walk: does not advance the high-water mark while it pages; the mark's own rule (it only advances) is part of `Ledgers.Ledger.Do`.
- Walks.Collection.VisitPage: archives land in any order but not overlapped with the ledger's other work; `WalkDurability` allows other records between any two mutations.
- Shards.Shard.EmitAll: cells of one kind are emitted in any order, where the source sorts their keys.
- Ledgers.Ledger.RecordLocked: an entry keeps its status, its attempts and the flags the proofs need; timestamps, signatures and error texts are one abstract value.
- Ledgers.Ledger.Reference: reads every shared object in both passes, where the source stops at the first pending one.
- Ledgers.Ledger.Flush: the file sync and the acknowledgement are one step; a crash between them is covered by a batch in flight whose every line landed.
- Ledgers.Ledger.Load: the refusals (a log of the older layout, a null entry, an unknown status, a lock held elsewhere) and stat faults end it before the state it is proved about.
- AppendLogs.AppendFile.Append: the bytes of the file only; its creation and the flushes of its directories are in `Directories`.
- Directories.FileSystem.MkdirAll: file modes and a concurrent creator of the same levels are not modelled.
- Archives.Shelf.ArchiveJSON: a done object whose file was sealed away keeps its entry, but the run theorems do not remove files; streamed blobs and eager uploads are not modelled.
- TreeWalkers.WalkFiles: stat faults and cancellation, which end the walk with an error, are not modelled, nor is the canonical form of the root.
- Custodies.Mirror.Heal: a copy that could be neither confirmed nor discarded stays at the current key, as in the source, and the next sweep trusts it.
- Sweeps.Sweep.SyncFiles: uploads one file at a time, where the source overlaps them; distinct files have distinct keys.
- Sweeps.Sweep.SyncArchive: a listing fault or a cancellation ends the sweep early and nothing is claimed of it; the gate of what may be mirrored is a parameter; a copy under an old name that has no evictable shape is not claimed to outlive the prune, and neither are the copies of two obligations that share a key.
- Sweeps.Sweep.VerifyOne: trusts the listing for presence and size, as the source does; a release of historical copies is best effort.
- Identities.Parent.ClaimDir: identity files are assumed readable.
- Histories.Sidecar.Bury: contents are compared directly, where the source compares their digests.
- Durations.ParseDuration: a fractional segment is rounded down exactly, where the standard library computes it in floating point; the fractions the printer emits are exact in both. Negative values are not modelled.
- ByteSizes.ParseIsExact: negative sizes are not modelled.
- Stub backfill, subtree and eager syncs, progress and byte tallies, run summaries and dropped surfaces: they add bookkeeping around the transfers proved here.
- The skip decision for derived and gated listings and the retry of failed fetches: single-branch reads of the states proved here.
- YAML decoding, JSON schemas, the command line, the panel and exports.
- File locks, signals and clocks.
