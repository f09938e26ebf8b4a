# Verified model of gamux

A model in Dafny of the parts of gamux that move bytes, parse formats and coordinate concurrent work, with proofs of
what they guarantee and, where a guarantee fails, of exactly when. `dafny verify dfyconfig.toml` checks the project.

| part | modules |
|---|---|
| depot update: manifest diff, chunk plan, download, checkpoint, whole run | `Depot`, `Diff`, `Plan`, `Cdn`, `Checkpoints`, `Stream`, `Update` |
| the same as interleaved steps with saves, crashes and restarts | `Engine`, `Outcomes`, `FullRun`, `SingleRun`, `InterruptedFallback`, `Attempts`, `OtherManifests` |
| depot reconciliation and merge | `Reconcile`, `Elimination` |
| INI documents | `TextLines`, `IniLine`, `IniDocument`, `IniRead`, `IniEdit`, `IniReload`, `Ini` |
| binary manifests and name encryption | `Octets`, `Wire`, `Crypto`, `Proto`, `Manifests`, `ManifestProgress` |
| KeyValues text and Steam app manifests | `Vdf`, `VdfText`, `VdfRead`, `Acf`, `AcfRoundTrip`, `AcfRead` |
| stage pipeline | `Saga` |
| display scale guard | `ScaleGuards`, `ScaleGuardRuns` |
| seat session teardown | `Teardown`, `ForeignStops` |
| input event loop | `Grabber` |
| split-screen geometry and the KWin script | `Geometry`, `KWin` |

`Text` and `Modular` hold helpers.

## What the model takes as given

- File contents are byte sequences by normalised path; path normalisation and SHA-1 are functions. A digest identifies
  the content it belongs to (`Depot.Identifies`); nothing is assumed about other contents.
- Replies of content hosts, cancellation, the throttling of checkpoint saves, outcomes of file writes and of commands,
  and the order in which maps are walked are arbitrary: inputs, or choices the proofs do not constrain.
- The block cipher is any permutation of 16-byte blocks, base64 any coding that decodes what it encodes.
- Go's integer widths are explicit where they matter: 64-bit lengths and cursors in the manifest decoder, the 32-bit
  header sum, 32-bit motion. A slice expression out of range is the outcome `Panics`; a cursor that returns to an
  earlier position is the outcome `Hangs`.
- Objects whose methods update fields are classes (`Checkpoint`, `DepotDownload`, `Section`, `File`, `Pipeline`,
  `Context`, `ScaleGuard`); protocols between goroutines are state machines over their lock sections and file effects.

## Where the code does less than it seems to promise

Each of these is proved, with the exact condition or a reachable run.

- The delta is keyed by chunk id alone, so a repeated id in a file can leave wrong bytes (`Update.DeltaVerdict`,
  `Update.DeltaVerdictOfManifests`, `Update.RepeatedIdBreaksDelta`).
- The full redownload truncates without clearing marks; a crash in it can leave zeros for good
  (`InterruptedFallback.InterruptedFallbackKeepsZeros`, `InterruptedFallback.ResumedExactly`).
- Checkpoint marks are never dropped and a delta is trusted unread, so a run towards another manifest, given up, can spoil a
  later run (`OtherManifests.ThereAndBack`, `OtherManifests.SpoiltClaim`, `Attempts.LastRunDecides`).
- Old-only files are removed for depots that still have files in the target only; a depot that was dropped leaves its files
  on disk (`Update.InstalledPurgedExactly`, `Update.DroppedDepotStays`).
- Merging depots loses a non-empty file behind an earlier directory or empty file of the same path
  (`Reconcile.MergeCompleteness`).
- An INI comment that ends in two carriage returns shrinks with every save (`IniDocument.PrintedFixpoint`); after the
  default section is deleted and made anew, its keys are saved into another section and lost to lookups
  (`IniReload.LookupsSurviveExactly`, `IniReload.RemadeDefaultIsLost`).
- In the manifest decoder a length that reaches 2^63 makes chunks, files and mappings panic, and in an unknown field of the
  payload it sends the cursor back, which can go on for ever (`ManifestProgress.PayloadComesToAnEnd`,
  `ManifestProgress.NegativeLengthHangs`); payload lengths within eight of 2^32 panic (`ManifestProgress.HeaderLengths`).
- A scale record is not replaced atomically: a torn second write loses the baseline of a display locked before
  (`ScaleGuardRuns.TornWriteExactly`, `ScaleGuardRuns.CutShortLosesScales`).
- A supervisor that checks late can stop a session launched after its own (`ForeignStops.StoppedByAnotherExactly`).
- The grid holds four seats, the three-player layout three, and the monitor layouts one a display; more overlap
  (`Geometry.ExactTiling`, `KWin.DisplayTiled`).
- `GetString` in `detector/vdf.go` is documented as following a path; parts that repeat the node's own key at its start
  are all passed over, and the model does the same (`Vdf.LookUp`).

## Model

| member | source | states |
|---|---|---|
| Cdn.DownloadChunk | downloader/cdn.go:204-336 | the hosts tried are the schedule of three rounds over all hosts from a start index taken from the id; every reply but the last is of no use, and the last one settles the call (written, write error, cancelled) unless all rounds are through; written means a payload whose write succeeded, and under a 40-character id one with that SHA-1 |
| Cdn.RoundVisitsEveryHostOnce | downloader/cdn.go:241-246 | for any host count and start, every host has exactly one position in every round |
| Cdn.RoundsRotate | downloader/cdn.go:241-246 | the first try goes to the start host, and each round starts one host further than the one before |
| Cdn.StartOfId | downloader/cdn.go:212-218 | the start host is the number in the first four hexadecimal digits of the id, modulo the number of hosts |
| Cdn.HostVisits | downloader/cdn.go:223-246 | at any point of the schedule a host has been tried once per complete round, and once more if it came up in the current one |
| Cdn.GivingUpTriedEveryHost | downloader/cdn.go:223-336 | failure without cancellation or write error means exactly 3n tries, three for every host |
| Checkpoints.Checkpoint.constructor | downloader/checkpoint.go:22-32 | a missing or unreadable file gives an empty checkpoint, otherwise exactly the saved marks |
| Checkpoints.Checkpoint.MarkCompleted | downloader/checkpoint.go:40-53 | marks only grow, by the one key; a throttled or failed save leaves the file as it was; what is saved stays within what is in memory |
| Checkpoints.Checkpoint.Flush | downloader/checkpoint.go:55-61 | no mark changes; a write that succeeds makes the file equal to memory, one that fails leaves it alone |
| Checkpoints.Checkpoint.SaveLocked | downloader/checkpoint.go:63-71 | the file is replaced as a whole or not at all, and the dirty flag follows the write |
| Diff.DiffDepotManifests | manifest/diff.go:33-146 | the diff is exactly the modified, new and deleted regular files of the two manifests, for each nil combination |
| Diff.DiffChunks | manifest/diff.go:113-132 | chunks are split into those with the same id (any casing) at the same offset of the old file and the rest, in order |
| Diff.CompareChunkLists | manifest/diff.go:97-111 | equal exactly when all ids agree up to casing and all offsets agree; sizes are not compared |
| Diff.KeepPartitions | manifest/diff.go:126-132 | unchanged and missing chunks together are the new chunks, each as often as it occurs |
| Diff.ModifiedAt | manifest/diff.go:78-135 | with one entry per path a path is in the diff if and only if it was there before and differs, with its own chunk diff |
| Diff.UnchangedChunkHolds | manifest/diff.go:126-132 | an unchanged chunk of a described old file already has the bytes the new file needs there, and lies within the old file |
| Diff.UnchangedExactly | manifest/diff.go:113-132 | a chunk is unchanged if and only if the last old chunk at its offset has its id in any casing |
| Diff.FreshAre | manifest/diff.go:78-88 | new files are the regular ones of paths that had no regular file before |
| Diff.OldFilesAre | manifest/diff.go:67-74 | the old entry of a path is the last regular file listed for it |
| Diff.SameFileSameContent | manifest/diff.go:92-111 | a file the diff passes over has the same content before and after |
| Diff.SameContentSameFile | manifest/diff.go:92-111 | a file whose content stays is passed over if both entries have a digest, or both are cut alike |
| Diff.DiffSizes | manifest/diff.go:119-132 | the sizes of a file diff are those of the two contents, and kept and missing chunks add up to the new one |
| Plan.KeyIdentifiesChunk | downloader/stream.go:26-28 | two chunks with 40-character ids share a checkpoint key only if path, id and offset agree |
| Plan.KeysAgree | downloader/stream.go:26-28 | they share it exactly if path, id in any casing and offset agree |
| Plan.SkippedChunksHold | downloader/stream.go:471-490 | every chunk the scan skips holds its bytes, if the chunks taken on trust do |
| Depot.ValidExactly | manifest/integrity.go:45-63 | the check on disk passes a chunk of a described file if and only if it is empty, or lies in the file and has its bytes |
| Plan.InPlaceIsSkipped | downloader/stream.go:480-488 | a chunk that is in place is not pending, whatever marks and claims there are |
| Plan.IntactFile | downloader/stream.go:468-495 | a file that already has its content has no pending chunk, and trust in it is justified |
| Plan.MissingFile | downloader/stream.go:468-495 | of a missing file without marks every chunk is pending |
| Plan.ScanMarks | downloader/stream.go:468-495 | the scan only adds marks, and marks plus pending chunks account for every chunk of the entry |
| Plan.PatchedIsContent | downloader/stream.go:405-464 | an opened file with its pending chunks written over it and cut to size is the described content exactly if every chunk taken on trust carried its bytes |
| Stream.DepotDownload.PendingChunks | downloader/stream.go:468-495 | the pending chunks and marks are those of the scan in order, and the byte counter grows by the chunks not pending; for a file that already has its content nothing is pending |
| Stream.DepotDownload.CreditChunk | downloader/stream.go:497-501 | the counter grows by the chunk and the key is marked |
| Stream.DepotDownload.FetchOne | downloader/stream.go:520-546 | only this file changes, at the chunk, to bytes with the chunk id as SHA-1; the mark is set; the fallback counts no downloaded bytes |
| Stream.DepotDownload.FetchChunks | downloader/stream.go:507-549 | the file is the old one overwritten by the right bytes on every fetched chunk; all keys are marked; bytes are counted once, in the first pass only |
| Stream.DepotDownload.RedownloadFull | downloader/stream.go:552-577 | success means the digest of the file is the wanted one; the downloaded counter does not move |
| Stream.SettleExact | downloader/stream.go:443-464 | after truncation and digest check the file is the described content if and only if trust was justified, or a digest was there and something was fetched |
| Stream.DepotDownload.DownloadChunked | downloader/stream.go:405-464 | the file is right if and only if trust was justified, or a digest was there and something was fetched; all chunks are marked, the counter is up by all chunk sizes, no other file is touched; a file that already has its content keeps it, with nothing fetched and no change reported |
| Stream.DepotDownload.WriteEmptyFile | downloader/stream.go:382-400 | a chunkless file ends as zeros of its size, whatever was there |
| Stream.DepotDownload.ProcessFile | downloader/stream.go:284-379 | in every branch the counter of bytes moves by exactly the size of the file, and that of updates by one exactly if the file is updated; directories and dry runs touch nothing; an intact file is left alone; otherwise the exact outcome holds |
| Stream.IntactIsNoUpdate | downloader/stream.go:284-379 | a file that already has its content is no update, whatever the delta and the marks, in a dry run or not |
| Stream.MissingIsUpdate | downloader/stream.go:284-379 | a missing file is one, unless a mark speaks for it |
| Stream.IntactStays | downloader/stream.go:139-160 | processing one file of an intact installation leaves all files intact |
| Stream.RunStep | downloader/stream.go:143-151 | processing one file settles that file and leaves marks and bytes of all others as they were |
| Stream.DepotDownload.StreamFiles | downloader/stream.go:139-160 | after a successful pass each file is right exactly when its verdict on the state before the run says so; nothing outside the listed paths changes; over an intact installation nothing is fetched, nothing is counted as updated, and all files stay intact |
| Update.ComputeDelta | downloader/stream.go:204-247 | the delta holds exactly one recorded change for every path that a comparison finds changed, with the explicit previous manifest or of every depot with its installed one, and the deleted paths are theirs |
| Update.OneDepotCompared | downloader/stream.go:224-246 | an update of one depot, whose entries name it or none, compares all its files with what is installed of it |
| Update.Deduplicate | downloader/stream.go:112-131 | fails if and only if two entries of one path disagree in digest or size; otherwise keeps the first entry of every path |
| Update.ConsistentExactly | downloader/stream.go:112-131 | entries agree exactly if no two for one path, other than directory nodes for the root, differ in digest or in size |
| Update.FirstPerPathFacts | downloader/stream.go:112-131 | deduplication keeps listed entries only, one per path, and loses no path |
| Update.KeptIsFirst | downloader/stream.go:112-131 | the entry kept for a path is the first one listed for it |
| Update.KeptInOrder | downloader/stream.go:112-131 | entries are kept in the order listed |
| Update.PurgeDeleted | downloader/stream.go:250-267 | exactly the deleted paths the manifest does not list disappear, every other file stays |
| Update.SoundPatchConverges | downloader/stream.go:405-464 | with marks that stand for bytes on disk, a delta made against the real file and, if the file has a delta, ids that do not repeat in it, the patch is right |
| Update.InstalledDeltaSound | downloader/stream.go:204-247 | a delta against manifests that are really on disk, one for each depot or one for all, was made against the real file of every target entry |
| Update.DeltaVerdict | downloader/stream.go:421-430 | keyed by id alone, the delta is right if and only if every chunk that repeats the id of an unchanged one without being unchanged already has its bytes in place, or a digest was there and a chunk was fetched |
| Update.DeltaVerdictOfManifests | downloader/stream.go:421-430 | between files cut at the same places the two manifests decide that: no chunk repeats the id of an unchanged one without being unchanged |
| Update.RepeatedIdBreaksDelta | downloader/stream.go:421-430 | an installed 1, 2 and a target 1, 1 with a repeated id: the update succeeds without fetching and the file stays wrong, with a digest present |
| Update.RepeatedIdExists | downloader/stream.go:421-430 | such entries exist, with digests right for both contents |
| Update.LedgerIsTotal | downloader/stream.go:133-139 | for tiled files the bytes a run counts are the total size of its regular files, dry or not |
| Update.Transfer | downloader/stream.go:108-160 | only listed and purged paths move; conflicting versions abort; a success has the exact outcome per file; over an intact installation nothing is fetched or counted as updated |
| Update.CleanUpdateConverges | downloader/stream.go:56-180 | what is installed is on disk (nothing, for a fresh install), one entry per path, and distinct ids in files that have a delta: every target file gets exactly its bytes |
| Update.StreamDepotFiles | downloader/stream.go:56-180 | the whole run, with installed manifests per depot, an explicit one or none: of the files the target does not list exactly those that a compared manifest lists are removed, and the others stay as they were; a clean update or fresh install leaves every target file with exactly its target bytes, counts exactly the total size, and drops the checkpoint; a run over files that are all right already fetches nothing, counts no update and leaves them so; any other successful run has the exact outcome per file |
| Update.InstalledPurgedExactly | downloader/stream.go:224-267 | with installed manifests an old-only file is removed if and only if a depot that still has files in the target had it |
| Update.DroppedDepotStays | downloader/stream.go:224-246 | the old-only files of an installed depot without files in the target stay as they were, all but those such a depot had too |
| Update.FinishCheckpoint | downloader/stream.go:86-92 | success drops the checkpoint file, failure saves the marks, a dry run touches neither |
| Engine.OwnStepSafe | downloader/stream.go:405-577 | every atomic step of a file or chunk worker keeps marks backed by bytes, torn writes included |
| Engine.NextSafe | downloader/stream.go:143-151 | the same for every step of any file next to all others, for saves, and for a crash with restart |
| Engine.RunSafe | downloader/checkpoint.go:34-71 | over every run with crashes anywhere: saved marks are within the marks in memory, which are within the chunks whose bytes are on disk |
| Engine.FreshStartIsSafe | downloader/stream.go:76-110 | a start without marks, with deltas made against the real files, satisfies the invariant |
| Engine.ResumedEqualsUninterrupted | downloader/stream.go:405-549 | two finished runs from one safe state, one interrupted and resumed in any way, leave the same files: the target ones |
| Engine.StepConserves | downloader/stream.go:497-549 | every step moves the byte counter by exactly what it newly credits; the fallback credits nothing again |
| Engine.RunConservesBytes | downloader/stream.go:133-139 | under every interleaving, with crashes and fallbacks, a finished run has counted the total size of its regular files since its last start |
| InterruptedFallback.InterruptedFallbackKeepsZeros | downloader/stream.go:552-562 | a crash in the middle of the digest fallback: the resumed run skips every chunk on its mark and finishes with zeros the digest rejects |
| InterruptedFallback.RepeatedChunkExists | downloader/stream.go:552-562 | jobs on which this happens exist |
| InterruptedFallback.ResumedExactly | downloader/stream.go:405-577 | after a crash anywhere, a fallback included, a resumed file is right if and only if every chunk with a saved mark or a claim has its bytes at the crash, or a digest is there and some chunk is to be fetched |
| InterruptedFallback.SavedMarksFreezeFile | downloader/stream.go:552-562 | if all marks of a file of full length were saved, the resumed run leaves it right exactly if the crash did |
| Outcomes.OwnStepJudged | downloader/stream.go:405-577 | every step of a file, torn writes and the fallback included, keeps it on the way to its verdict |
| Outcomes.RunDecided | downloader/stream.go:405-577 | from any files, any marks and any deltas, under every interleaving without a crash, a file is done right if and only if the verdict on the start of the run says so |
| FullRun.InterleavedExact | downloader/stream.go:139-160 | the entries kept, run in any interleaving without a crash to the end, come out as in the sequential run: each right exactly when its verdict says so |
| FullRun.InterleavedUpdate | downloader/stream.go:56-180 | after the purge every interleaving of a clean update or fresh install that finishes leaves every target file with exactly its target bytes |
| Attempts.TowardsKeeps | downloader/checkpoint.go:34-71 | an attempt towards the same file, however it ends, keeps the bytes of what the file has marked or claimed |
| Attempts.ElsewhereKeeps | downloader/checkpoint.go:34-71 | so does an attempt that wants no file at its path |
| Attempts.LastRunDecides | downloader/checkpoint.go:34-71 | after any attempts towards any manifests, a last run leaves a file wrong if and only if nothing of it is fetched or it has no digest, an attempt towards another file at its path spoilt what had been marked or claimed, and a marked or claimed chunk is still without its bytes |
| OtherManifests.ThereAndBack | downloader/checkpoint.go:34-53 | a run towards one manifest, one towards another, both given up, and the first again: it skips the chunk on its old mark, fetches nothing and succeeds with the bytes of the other |
| OtherManifests.TwoVersionsExist | downloader/checkpoint.go:34-53 | manifests on which this happens exist |
| OtherManifests.SpoiltClaim | downloader/stream.go:421-430 | an attempt towards one manifest given up after a write, without any mark, and a run towards another whose delta claims the chunk: nothing is fetched and it succeeds with the bytes of the first |
| OtherManifests.SpoiltClaimExists | downloader/stream.go:421-430 | files and digests for that run exist |
| Reconcile.IndexFiles | manifest/reconcile.go:37-44 | the index holds the last non-empty regular file of every normalised path |
| Reconcile.LastVersionCounts | manifest/reconcile.go:37-44 | of several non-empty versions of a path in one depot the last one is compared |
| Reconcile.HasConflict | manifest/reconcile.go:59-70 | true if and only if some shared path differs in digest or size |
| Reconcile.CountConflicts | manifest/reconcile.go:192-200 | the number of active depots the target conflicts with |
| Reconcile.FindPairs | manifest/reconcile.go:81-96 | the conflicting pairs of active depots, in ascending order |
| Reconcile.PairsAre | manifest/reconcile.go:81-96 | every listed pair is a conflict of two active depots, and every such conflict is listed |
| Reconcile.ResolveConflicts | manifest/reconcile.go:79-141 | the loop ends and leaves the surviving set, which the laws of `Elimination` and of compatibility below determine |
| Reconcile.SurvivorsCompatible | manifest/reconcile.go:98-100 | no two survivors conflict |
| Reconcile.ClimbToSurvivor | manifest/reconcile.go:109-140 | from every depot a chain of conflicts along which scores never drop leads to a survivor |
| Reconcile.ComponentKeepsItsBest | manifest/reconcile.go:102-140 | in every set closed under conflict, such as a connected component, a depot with the maximum score survives |
| Elimination.ConflictsAreRivals | manifest/reconcile.go:192-200 | the conflicts counted for a depot are its active rivals, each once |
| Elimination.FirstPairLeaves | manifest/reconcile.go:102-140 | of the first conflicting pair the depot with the lower score leaves, with equal scores the one with more active rivals, with equal counts the one with the higher id; the others go on without it |
| Elimination.NobodyLeaves | manifest/reconcile.go:98-100 | without a conflict everybody stays |
| Elimination.FreeSurvives | manifest/reconcile.go:79-141 | a depot that conflicts with nobody stays, whatever happens among the others |
| Elimination.LowerIdStays | manifest/reconcile.go:122-129 | of two depots with equal scores that conflict with each other alone the lower id stays and the other leaves |
| Elimination.LeavesStay | manifest/reconcile.go:115-122 | with equal scores a depot in conflict with at least two others, which conflict with nobody else, leaves and they all stay |
| Elimination.AgreeingStay | manifest/reconcile.go:57-100 | depots that agree on every file they share all stay |
| Elimination.HighestStays | manifest/reconcile.go:106-114 | a depot whose own files score higher than those of every other candidate stays |
| Reconcile.OrderDoesNotMatter | manifest/reconcile.go:53-55 | the survivors do not depend on the order the candidate map is walked in |
| Reconcile.MergeFiles | manifest/reconcile.go:151-187 | the merged list holds the first entry of every path over the included depots in order, without the root |
| Reconcile.MergedGrows | manifest/reconcile.go:151-187 | further files come at the end of the merged list and change nothing before it |
| Reconcile.MergedIsConsistent | manifest/reconcile.go:151-187 | paths in the merged list are distinct, so the conflicting-version abort of the download cannot happen |
| Reconcile.MergeCompleteness | manifest/reconcile.go:170-185 | every non-empty file of the included depots is listed with its own digest and size if and only if no depot lists two versions of a file and none is shadowed by an earlier directory or empty file |
| Reconcile.ReconcileDepots | manifest/reconcile.go:14-190 | the included depots are the survivors in ascending order, for any map order, and the files their consistent merge |
| Reconcile.ReconciledIsStreamable | manifest/reconcile.go:143-189 | the two results together, for whatever candidates |
| TextLines.TrimSplit | ini/ini.go:453 | trimming takes white space off both ends and nothing else |
| TextLines.LinesOfJoined | ini/ini.go:445-452 | scanning lines that were written one per line gives these lines, less one carriage return each |
| IniLine.ParsedIsCanonical | ini/ini.go:451-522 | whatever a line parses to is in the form that reads back |
| IniLine.Reparsed | ini/ini.go:603-632 | a written element scans back to itself, up to the raw text of blanks and one trailing carriage return of comments |
| IniLine.ReparsedHeader | ini/ini.go:592-601 | a written section header reads back as that name |
| IniRead.BlankLine | ini/ini.go:455-462 | a line of white space is a blank element |
| IniRead.CommentLine | ini/ini.go:464-471 | a number sign or semicolon as the first visible character makes the whole line a comment |
| IniRead.SectionLine | ini/ini.go:474-478 | brackets around a line make it a header with the trimmed text between them as its name |
| IniRead.PairLine | ini/ini.go:481-497 | key, first equal sign and value, with any white space around them, are a pair; a blank or tab beside the sign is remembered as one blank |
| IniRead.OtherLine | ini/ini.go:517-521 | a line that is nothing else is kept as a comment |
| IniDocument.LoadedIsGood | ini/ini.go:442-529 | loading gives a document whose section names and keys are distinct up to casing, all in the form that reads back |
| IniRead.LoadedAnswers | ini/ini.go:442-529 | a loaded text answers every lookup with the value on the last line that sets this key while this section is in force, in any casing, and with nothing if there is no such line |
| IniRead.PutFinds | ini/ini.go:499-513 | a repeated key wins over the earlier one and leaves every other key alone |
| IniDocument.LoadAfterPrint | ini/ini.go:442-640 | loading what was written gives the same sections and elements, with the separating blank lines now elements |
| IniDocument.ReloadedPrints | ini/ini.go:563-640 | that document writes the same lines, less trailing carriage returns |
| IniRead.HeadersStandApart | ini/ini.go:577-601 | every written header is the first line or follows an empty one: the one the section before ends in, or else one more |
| IniDocument.PrintedFixpoint | ini/ini.go:442-640 | write, load, write gives the same bytes if and only if no comment line ends in a second carriage return |
| IniDocument.PlainTextFixpoint | ini/ini.go:442-640 | for text without carriage returns it always does |
| IniDocument.LookupsSurvive | ini/ini.go:375-381 | every lookup answers the same after writing and reloading |
| IniDocument.CommentsAreKept | ini/ini.go:464-471 | loading keeps every comment line and invents none |
| IniEdit.SetFinds | ini/ini.go:147-168 | after Set the key answers the new value in any casing and every other key the old one |
| IniEdit.SetKeepsOthers | ini/ini.go:147-168 | comments, blank lines and all other pairs stay, in order |
| IniEdit.SetKeepsPlace | ini/ini.go:144-158 | a pair that is set again stays where it stands and keeps its separator, all other elements stay as they are |
| IniEdit.DeleteFinds | ini/ini.go:205-218 | after Delete the key is gone in any casing and every other key answers as before |
| IniEdit.DeleteKeepsOthers | ini/ini.go:205-218 | what is left is exactly the section without that key, in order |
| IniEdit.SetSurvivesReload | ini/ini.go:411-413 | in a loaded document a pair that was set reads back after writing and loading if and only if its section name is on one line and key and value are in the form that reads back |
| IniReload.MisplacedDefault | ini/ini.go:577-601 | a default section that is not first prints into the section before it, whatever follows |
| IniReload.LookupsSurviveExactly | ini/ini.go:442-640 | in any document with distinct names and readable parts every lookup survives writing and loading if and only if no default section with a pair stands behind another section |
| IniReload.MisplacedIsLost | ini/ini.go:577-601 | such a pair is not found after loading |
| IniReload.RemadeDefaultIsLost | ini/ini.go:334-347 | a new file, the default section deleted, a pair set in a section and one in the default section: the last one is found before writing and lost after |
| Ini.IndexFinds | ini/ini.go:265-272 | a fitting key index answers what a search would, and there are no duplicate keys |
| Ini.Section.Get | ini/ini.go:74-83 | the unquoted value of the one pair with that key in any casing |
| IniRead.UnquoteStrips | ini/ini.go:699-709 | one pair of equal quotes goes, with the white space outside it, and nothing inside |
| IniRead.UnquoteKeeps | ini/ini.go:699-709 | a value that is not between equal quotes loses the white space around it only |
| Ini.Section.HasKey | ini/ini.go:137-142 | true if and only if the section has that key in any casing |
| Ini.Section.Set | ini/ini.go:147-168 | the elements are those of the specification and the index still fits |
| Ini.Section.Delete | ini/ini.go:205-218 | reports whether the key was there, removes its element, and rebuilds a fitting index |
| Ini.Section.RebuildKeyIndex | ini/ini.go:265-272 | the rebuilt index points every key at its one element |
| Ini.Section.AddPair | ini/ini.go:499-513 | while loading, a repeated key takes the place of the earlier pair, a new one goes to the end |
| Ini.File.constructor | ini/ini.go:282-291 | a new file has an empty default section |
| Ini.File.SectionNamed | ini/ini.go:295-310 | the section with that name in any casing, appended if missing; other sections stay |
| Ini.File.GetSection | ini/ini.go:313-323 | the section with that name in any casing, if there is one |
| Ini.File.Get | ini/ini.go:375-381 | the unquoted answer of the lookup in the document |
| Ini.File.Set | ini/ini.go:411-413 | the document is updated in that section and key alone |
| Ini.File.Delete | ini/ini.go:426-432 | reports whether the key was there; the document is without it |
| Ini.File.DeleteSection | ini/ini.go:334-347 | exactly that section is gone, and the section index fits the rest |
| Ini.Load | ini/ini.go:442-529 | the loaded file stands for the document its text describes, with fitting indexes |
| Ini.File.TakeLine | ini/ini.go:451-522 | one scanned line has exactly its effect on the document and the current section |
| Ini.File.WriteTo | ini/ini.go:563-640 | the output is the print of the document, blank lines before headers where needed |
| Wire.DecodeVarint | manifest/protobuf.go:28-42 | the value and length of the varint: ten bytes at most, modulo 2^64, none for a cut-off one |
| Wire.VarintRoundTrip | manifest/protobuf.go:28-42 | every 64-bit value written in base 128 reads back with exactly its bytes |
| Wire.VarintExactly | manifest/protobuf.go:28-42 | a varint ends at the first byte without the continuation bit, if one of the first ten is, and is the sum of its groups modulo 2^64; otherwise there is none |
| Wire.WrappedExactly | manifest/protobuf.go:79-83 | the slice bound wraps around if and only if position plus length reaches 2^63 |
| Wire.FieldRead | manifest/protobuf.go:48-101 | every field written at a position is read there, and reading goes on right behind it |
| Proto.ReadField | manifest/protobuf.go:49-101 | one turn of a field loop: the token it finds, with every way of going on after a break that leaves only the switch |
| Proto.ParseChunkInfo | manifest/protobuf.go:45-104 | the chunk, or the panic, of any bytes |
| Proto.ParseFileEntry | manifest/protobuf.go:107-169 | the file entry, or the panic, of any bytes under any key |
| Proto.ReadPath | manifest/protobuf.go:144-151 | the normalised path, decrypted if there is a key and that gives a name |
| Proto.NameAsItStands | manifest/protobuf.go:144-151 | without a key, under one that is refused, and where decryption leaves nothing, the path is the normalised name as it stands |
| Proto.ParsePayload | manifest/protobuf.go:213-264 | the entries, the panic, or the endless loop of any payload |
| Proto.ParseBinaryManifestWithKey | manifest/protobuf.go:177-271 | the result for any data: errors for empty, short, wrong or entryless data, entries otherwise, and where it panics or hangs |
| Proto.Unzipped | manifest/protobuf.go:182-196 | data that begins as a zip container and unpacks is replaced by its first stream, any other data is taken as it is |
| Manifests.ChunkFieldsDecode | manifest/protobuf.go:45-104 | any list of fields, in any order, repeated or unknown, decodes to what they make of a chunk one after the other |
| Manifests.FileFieldsDecode | manifest/protobuf.go:107-169 | the same for files |
| Manifests.PayloadDecodes | manifest/protobuf.go:213-264 | a payload decodes to its mappings with a path, whatever other fields lie between |
| Manifests.ManifestRoundTrip | manifest/protobuf.go:177-271 | decoding the encoding of entries gives exactly these entries and chunks, for any trailing data |
| Manifests.PlainManifestRoundTrip | manifest/protobuf.go:172-174 | without a key, for every non-empty list of entries with normalised paths |
| Manifests.EncryptedManifestRoundTrip | manifest/protobuf.go:144-151 | with the key, through encrypted names, for paths that do not end in NUL |
| ManifestProgress.CrashExactly | manifest/protobuf.go:79-83 | chunk and file loops panic at a position if and only if the length there does not fit |
| ManifestProgress.TurnAdvances | manifest/protobuf.go:215-263 | the payload cursor strictly increases where lengths fit; where one does not, a mapping panics and any other field moves the cursor back |
| ManifestProgress.ChunkPanicsExactly | manifest/protobuf.go:45-104 | the chunk decoder panics if and only if its loop comes to a length that does not fit |
| ManifestProgress.FilePanicsExactly | manifest/protobuf.go:107-169 | so does the file decoder, lengths in its chunks included |
| ManifestProgress.PayloadComesToAnEnd | manifest/protobuf.go:213-264 | unless an unknown field sends the cursor back, it strictly increases, and decoding ends if and only if every length it comes to fits; otherwise it panics |
| ManifestProgress.FittingGoesOn | manifest/protobuf.go:213-264 | where every length the loop comes to fits, the cursor is never sent back |
| ManifestProgress.NegativeLengthHangs | manifest/protobuf.go:250-255 | an unknown field whose length is minus its header size is read again for ever |
| ManifestProgress.HugeMappingPanics | manifest/protobuf.go:225-235 | a mapping whose length reaches 2^63 panics |
| ManifestProgress.HeaderLengths | manifest/protobuf.go:206-211 | for data of any size: sum and size are compared modulo 2^32; refused exactly when the first is greater, a panic on a length within eight of 2^32 that is let through, the payload decoded otherwise |
| ManifestProgress.SmallHeaderLengths | manifest/protobuf.go:206-211 | below 4 GiB: a payload is refused if and only if it does not end in the data, and lengths within eight of 2^32 panic |
| ManifestProgress.LargePayloadRefused | manifest/protobuf.go:206-211 | from 4 GiB on, payloads that end in the data are refused where the size modulo 2^32 is smaller |
| Crypto.CbcRoundTrip | manifest/crypto.go:91-93 | chained decryption undoes chained encryption for any number of blocks over any block permutation |
| Crypto.UnpadPad | manifest/crypto.go:95-110 | removing padding undoes padding, for every message |
| Crypto.UnpadExactly | manifest/crypto.go:95-110 | what is removed is padding, one to sixteen equal bytes that each say how many they are, and data is left alone exactly if it ends in no padding |
| Crypto.RemovePadding | manifest/crypto.go:95-110 | padding is removed exactly if the last byte counts equal bytes at the end |
| Crypto.DecryptFilename | manifest/crypto.go:62-114 | the decrypted name, or the name as it is where key, base64 or length do not allow it |
| Crypto.PlainNameStays | manifest/crypto.go:62-89 | a name stays as it is without a key and where key, base64 or length are not those of an encrypted name; only a key that is no hexadecimal text is reported |
| Crypto.NameRoundTrip | manifest/crypto.go:62-114 | an encrypted name decrypts to itself without trailing NULs: to itself if and only if it has none |
| Crypto.DecryptChunkPayload | manifest/crypto.go:118-148 | plain data for whole blocks, the data itself without key or whole blocks, an error for a bad key |
| Crypto.ChunkWithoutKey | manifest/crypto.go:118-141 | without a key, and below one block, any data passes through unchanged; a payload is refused if and only if there is a block of data and a key that is none |
| Crypto.ChunkRoundTrip | manifest/crypto.go:118-148 | encrypted whole-block payloads decrypt to themselves |
| Crypto.DecryptManifestPayload | manifest/crypto.go:13-59 | vector in the clear, padding removed, errors for a bad key or size |
| Crypto.ManifestRefused | manifest/crypto.go:13-31 | a manifest payload is refused if and only if the key is none, the data is empty, or it is not whole blocks |
| Crypto.ManifestPayloadRoundTrip | manifest/crypto.go:13-59 | padded and encrypted payloads of any length decrypt to themselves |
| Octets.XorTwice | manifest/crypto.go:91-93 | exclusive or with one number twice gives the first one back |
| Octets.XorBits | manifest/crypto.go:91-93 | bit by bit, exclusive or is set where the two numbers differ |
| Octets.HexFromHex | manifest/protobuf.go:86 | lower-case hexadecimal text of bytes is what its bytes encode to |
| Octets.UnhexHex | manifest/crypto.go:14-17 | every sequence of bytes reads back from its hexadecimal text |
| Octets.UnhexExactly | manifest/crypto.go:14-17 | text reads as bytes if and only if it is an even number of digits |
| Octets.DigitsInOrder | manifest/crypto.go:14-17 | the sixteen digits in order, letters in either case |
| Vdf.Tokenize | detector/vdf.go:156-255 | the tokens of any text: quotes over several lines, escapes, comments, braces; what they are is the subject of `VdfRead` |
| Vdf.ParseNode | detector/vdf.go:117-154 | from any position in any list of tokens the parser moves on, and finds a node unless there is a closing brace |
| Vdf.ParseVDFNode | detector/vdf.go:117-154 | the node and the next position, for every token list |
| Vdf.ParseVDF | detector/vdf.go:90-115 | the only top-level node, or a root over all of them |
| Vdf.LookUp | detector/vdf.go:35-54 | the value at a path; leading parts that name the node itself are passed over if the path has several |
| Vdf.TreeParses | detector/vdf.go:117-154 | parsing the tokens of any tree gives that tree and stops right behind it |
| Vdf.DocumentParses | detector/vdf.go:96-114 | the tokens of trees parse to these trees in order: one alone is the document, any other number stands below a root |
| Vdf.OwnKeyPassedOver | detector/vdf.go:40-50 | the first part of a path may name the node itself, in any casing |
| VdfText.QuotedScans | detector/vdf.go:179-218 | between quotes, text without harmful backslashes is one token, itself |
| VdfRead.EscapedCollects | detector/vdf.go:187-202 | between quotes every text, written with a backslash before quotes and backslashes, and line feeds and tabs as their letters, is collected as it was |
| VdfRead.PiecesRead | detector/vdf.go:179-243 | a line of white space, bare words, quoted texts and braces, with or without a comment, gives exactly the tokens of its pieces |
| VdfRead.TrimmedAlike | detector/vdf.go:165-169 | trimming a line that leaves no quote open changes no token |
| VdfRead.RowsRead | detector/vdf.go:156-255 | a text of such lines, with either line ending, gives the tokens of all pieces in order |
| VdfRead.RowsParse | detector/vdf.go:90-255 | however the tokens of some trees are spread over lines and comments, the text parses to these trees |
| VdfRead.TextOverLines | detector/vdf.go:170-175 | a quote may stay open over any number of lines: the text is the lines with line feeds between them, but for empty ones at its start |
| VdfRead.OpenQuoteEnds | detector/vdf.go:246-248 | a quote still open at the end of the text gives its token there, unless nothing was in it |
| VdfRead.OpenSectionEnds | detector/vdf.go:132-150 | a section without its closing brace ends with the text |
| VdfText.TreeScans | detector/vdf.go:156-255 | the printed lines of any tree scan to its tokens |
| VdfText.TextRoundTrip | detector/vdf.go:90-255 | parsing the printed text of any tree gives the tree back |
| Acf.GenerateACFContent | detector/acf.go:135-194 | the text is the print of the manifest tree, byte for byte |
| Acf.ParseACF | detector/acf.go:32-121 | the data of the parsed text, launch options in order; none without id and name; which key each field comes from is the subject of `AcfRead` |
| AcfRead.FieldsRead | detector/acf.go:38-120 | of any printed manifest each field is the value of the first key of its name in any casing: id, name, directory, build, time of the last update and size on disk; language and beta key from the user's settings, else from the top; there is no result if and only if id and name are missing |
| AcfRead.OptionRead | detector/acf.go:76-111 | a launch section without an executable gives no option, any other one its own executable, arguments and description, the English one where there is no other |
| AcfRead.OptionNamed | detector/acf.go:93-104 | an option is named after its description, else after its file, and plainly if it is the default or the first one |
| AcfRead.OptionsRead | detector/acf.go:74-114 | the options are those of the sections below config and launch, in order |
| AcfRoundTrip.OptionBack | detector/acf.go:73-112 | one printed launch option gives its executable, arguments and description back |
| AcfRoundTrip.ManifestRoundTrip | detector/acf.go:32-194 | parsing generated text gives every printable field back, empty ones as their defaults, the public branch as none, times and sizes as 0 |
| AcfRoundTrip.OptionsSurvive | detector/acf.go:174-190 | options with clean executables all come back, in order |
| Saga.Pipeline.Execute | pipeline/runner.go:121-182 | world, errors, order of steps and result of any run, with the caller's reporter put back |
| Saga.Pipeline.RunStage | pipeline/runner.go:136-161 | one stage runs under a scaled reporter and its error is noted |
| Saga.Pipeline.Rollback | pipeline/runner.go:184-203 | the listed stages are rolled back from the last to the first, errors noted and passed over |
| Saga.Pipeline.AddStage | pipeline/runner.go:114-118 | the stage comes last |
| Saga.WhatHappened | pipeline/runner.go:121-203 | a run that stops rolled back each completed stage that can be, exactly once, the latest first, whatever errors rollbacks gave |
| Saga.ErrorsTold | pipeline/runner.go:128-203 | the result says how the run ended and which stage failed with what; the error list gains exactly that failure and then every rollback that gave an error, under its own stage |
| Saga.UnwindingRestores | pipeline/runner.go:184-203 | unwinding stages that are reversible where they ran restores the world |
| Saga.Atomicity | pipeline/runner.go:121-203 | a failed or cancelled run ends in its initial world if completed stages are reversible where they ran and the failing one changed nothing |
| Saga.ProgressMovesOn | pipeline/runner.go:218-223 | scaled progress never goes back, stays in the band of its stage and ends at 100 |
| ScaleGuards.ScaleGuard.LockDisplays | multiseat/scaleguard.go:56-124 | memory, record and scales after every combination of write and command outcome; the record is written before any scale changes |
| ScaleGuards.ScaleGuard.CollectTargets | multiseat/scaleguard.go:69-107 | exactly the chosen displays with a deviating scale are locked, and each scale is remembered once |
| ScaleGuards.ScaleGuard.PersistLockedScales | multiseat/scaleguard.go:194-205 | only the record changes, to the remembered scales, if the write is done |
| ScaleGuards.ScaleGuard.Restore | multiseat/scaleguard.go:127-154 | memory and record go only after a command that succeeded |
| ScaleGuards.ScaleGuard.RecoverOrphanedLocks | multiseat/scaleguard.go:158-192 | recorded scales are set as far as the command goes, and the record is removed whatever happened |
| ScaleGuards.Find | multiseat/scaleguard.go:84-93 | the first display with the index, else the first display |
| ScaleGuards.LockedExactly | multiseat/scaleguard.go:69-107 | locked are exactly the displays that are asked for by index, the first one standing in for an unknown index or for none, that have a name and are more than a thousandth away from scale 1 |
| ScaleGuards.LockedAreOne | multiseat/scaleguard.go:56-124 | after a lock that succeeded every display that takes part is within a thousandth of scale 1 and every other one at the scale it had or at 1 |
| ScaleGuardRuns.StepKeepsSafe | multiseat/scaleguard.go:56-211 | every step between two effects, crashes included, keeps each display at its baseline or on record with it |
| ScaleGuardRuns.AlwaysRestorable | multiseat/scaleguard.go:127-192 | in every reachable state a Restore or a restart with recovery puts every display back to its baseline |
| ScaleGuardRuns.TornWriteExactly | multiseat/scaleguard.go:194-205 | a write cut short loses a baseline if and only if some display is away from it |
| ScaleGuardRuns.RefusedWriteExactly | multiseat/scaleguard.go:113-121 | a refused write loses a baseline if and only if the command changes a display that was not on record |
| ScaleGuardRuns.RecoveryExactly | multiseat/scaleguard.go:185-191 | after recovery nothing is lost if and only if every display is back |
| ScaleGuardRuns.CutShortLosesScales | multiseat/scaleguard.go:166-175 | a torn write and a crash: recovery finds nothing and every display stays as it is |
| ScaleGuardRuns.SecondLockWrites | multiseat/scaleguard.go:113-114 | such a write comes up while another display is already at scale 1 |
| ScaleGuardRuns.LockIsThreeSteps | multiseat/scaleguard.go:56-124 | the method is these steps of the machine |
| Teardown.NeverRunsAgain | multiseat/session_control.go:50-57 | over every run a seat that is not running never runs again |
| Teardown.StatusStaysOff | multiseat/session_control.go:243-288 | a directory that is not running becomes running only by a launch in it |
| Teardown.StepKeepsValid | multiseat/session_control.go:43-240 | every step of every goroutine keeps each handle with one owner: its seat, one goroutine, or closed |
| Teardown.HandlesClosedOnce | multiseat/session_control.go:50-76 | under every interleaving a handle is closed at most once, and exactly once after its supervisor has seen all exits and nobody is still closing |
| Teardown.SupervisorStopsOwn | multiseat/session_control.go:109-116 | if a directory is launched again only after its supervisor is through, no supervisor stops another session than its own |
| ForeignStops.LateSupervisorStopsWhatItFinds | multiseat/session_control.go:43-116 | in every reachable state a supervisor that is not through, however many exits it still waits for, can go on to remove and stop whatever session its directory has |
| ForeignStops.StoppedByAnotherExactly | multiseat/session_control.go:109-116 | after a launch in a reachable state, a run in which another session's supervisor takes the new session out of the table to stop it is possible if and only if some goroutine supervises the directory at the launch |
| ForeignStops.LookupStops | multiseat/session_control.go:120-140 | from there two steps remove the session and turn off all its seats |
| ForeignStops.SeatLookupStops | multiseat/session_control.go:188-230 | stopping one seat turns off this seat in two steps and touches no other seat and no session |
| Teardown.RelaunchBeforeCheck | multiseat/session_control.go:95-116 | that situation is reached: all seats exit, a stop, a new launch, and only then the check |
| Grabber.ReadLoop | multiseat/grabber.go:204-299 | the state and output after every stream of bytes, read in whole records until it ends or the grab is released; what is sent is the subject of the conservation and order laws below |
| Grabber.MotionConserved | multiseat/grabber.go:243-291 | motion sent plus motion pending is motion read with an injector attached, modulo 2^32, on both axes |
| Grabber.ScrollConserved | multiseat/grabber.go:249-260 | vertical scroll sent is -3840 times the wheel turns read with an injector attached, horizontal scroll 3840 times, modulo 2^32 |
| Grabber.ScrollsKeepOrder | multiseat/grabber.go:249-260 | every wheel record gives exactly one axis output, in the order read |
| Grabber.RecordDecodes | multiseat/grabber.go:46-57 | a record written in 24 bytes, least significant first, is read as its kind, code and signed value |
| Grabber.FramesInOrder | multiseat/grabber.go:285-296 | a frame is sent only after pointer output since the last one, and after a report nothing is pending or unframed |
| Grabber.PressesKeepOrder | multiseat/grabber.go:263-283 | buttons and keys go out one for one in the order read, autorepeat and joystick codes left out |
| Geometry.CalculateSeatGeometry | multiseat/display.go:70-165 | whatever the arguments, the rectangle lies on the screen; on a supported layout it holds exactly the pixels that belong to the seat the index stands for |
| Geometry.CellHoldsOwned | multiseat/display.go:84-165 | on a supported layout a pixel is in a seat's window if and only if it is the seat that pixel belongs to |
| Geometry.ExactTiling | multiseat/display.go:84-165 | for any screen and any number of seats the windows are disjoint and cover every pixel if and only if the layout supports the number: any columns or rows, four in the grid, three in the three-player layout, one otherwise |
| Geometry.NeighboursMeet | multiseat/display.go:84-107 | side by side every seat is left of the next one, top to bottom above it, all of one size but for the last, which takes the few pixels that do not divide |
| Geometry.GridsMeet | multiseat/display.go:109-154 | in the grid seats go along the rows; of three seats the first has the upper half and the others follow below |
| Geometry.SlotsTile | multiseat/launch.go:46-53 | seats in different slots of a supported layout tile the screen |
| Geometry.SharedSlotOverlaps | multiseat/launch.go:46-53 | two seats in one non-empty slot do not |
| Geometry.DefaultSlotsInjective | multiseat/launch.go:46-53 | without explicit slots every seat has its own |
| Geometry.ExplicitSlotsTile | multiseat/launch.go:46-53 | different explicit slots in range are the slots the seats get, and tile the screen |
| Geometry.NormalizingKeepsGeometry | multiseat/launch.go:19-27 | downgrading a layout changes no rectangle, and leaves no grid with places for more seats than there are |
| KWin.GenerateEntries | multiseat/kwin.go:73-96 | the script's table: index, id, display, local index and total of every seat with a process, counted per display |
| KWin.EntryIsOwn | multiseat/kwin.go:73-96 | the entry found for a process is that of its seat: its own index, id and display, how many seats come before it there and how many there are |
| KWin.NoEntry | multiseat/kwin.go:186-190 | a process of no seat has no entry |
| KWin.ScreenGeometry | multiseat/kwin.go:106-115 | the geometry of the screen with that index, of some screen for any other index, and without screens the virtual size or 1920 by 1080 |
| KWin.OneScreenWindow | multiseat/kwin.go:117-190 | on one screen the window of a process is the computed rectangle of its seat's own index, moved to the screen's corner |
| KWin.OneScreenTiled | multiseat/kwin.go:73-190 | on one screen the windows of seats with different indices tile it if and only if the layout supports their number and the script places windows of that layout |
| KWin.PlacedByProcess | multiseat/kwin.go:186-190 | on any screens the window of a process is the one of its seat |
| KWin.LocalIndexTaken | multiseat/kwin.go:76-90 | on a display every local index below its total belongs to a seat |
| KWin.LocalIndexUnique | multiseat/kwin.go:76-90 | two seats of a display have different local indices below the total |
| KWin.OneScreenAgrees | multiseat/kwin.go:117-184 | on one screen the script's rectangle is the computed one moved to the screen's corner; several windowed or custom seats are left alone |
| KWin.DisplayTiled | multiseat/kwin.go:117-184 | on several screens, for every layout, each pixel of a display with seats is in the window of exactly one of them if and only if the layout supports their number and the script places windows of that layout |
| KWin.StaysOnDisplay | multiseat/kwin.go:117-184 | for every layout no window leaves the display of its seat; windowed and custom seats are left alone unless there is one seat |
| KWin.ClampDisplayIndices | multiseat/launch.go:31-44 | every seat ends on a connected display, in place, and only its index changes |

## Left out

- Case folding is for ASCII letters only; other letters of `strings.EqualFold` and `strings.ToLower` are compared as they are.
- Text is a sequence of characters, so invalid UTF-8 is not modelled; in manifests one character stands for one byte.
- File sizes and byte counters are unbounded in the download model; a wrap-around of 64-bit sums is not modelled.
- Directories, permissions, executable bits and symbolic links; the disk holds regular files only, so a directory in the place of a file, and its removal, is not modelled.
- Update.StreamDepotFiles: files are processed one after the other here; their interleaving is the subject of `Engine`, where any worker may step next without a limit on their number. Which manifest is installed for a depot is an input; reading it from its directory is not modelled.
- Update.CleanUpdateConverges: regular entries whose normalised path changes when normalised again, such as `/..`, are not covered; the code normalises paths twice for checkpoint marks and the delta. Theorems about bytes ask for lists without such entries.
- Cdn.DownloadChunk: decryption and decompression of a reply are part of the reply; a reply is data, a rejection, a write error or a cancellation.
- Depot.ValidOnDisk: ids that are not 40 characters long are never verified by the code either, so theorems about bytes ask for 40-character ids.
- Engine: a torn chunk write leaves arbitrary bytes within the chunk; loss of finished writes below the file API is not modelled.
- Reconcile.ReconcileDepots: the affinity score is any function of the depot and its files; language resolution and the scoring keywords are not modelled.
- Diff.DiffDepotManifests: deleted paths are a set; their sorting, and a path listed twice in a manifest that has no successor, are not modelled.
- Ini.Load: the scanner's 10 MB line limit and read errors; `SetName`, which leaves the section index stale; typed getters and setters; saving to disk through a temporary file.
- Vdf.Tokenize: the scanner's 64 KB line limit.
- Acf.ParseACF: path cleaning, base names and integer parsing are functions; the display name of an option is derived from them.
- Proto.ParseBinaryManifestWithKey: unpacking a zip container is a function.
- Proto.ReadField: the token loop shared by chunk and file decoding is one method here and written out twice in the code.
- Crypto.DecryptFilename: buffers the code fills in place are values here.
- Saga.Pipeline.Execute: stages are functions of the world; cache invalidation and state recomputation after success, timeouts of rollbacks and a missing context are not modelled.
- ScaleGuards.ScaleGuard.LockDisplays: the state file's JSON text, and displays plugged in or changed by somebody else during a session.
- ScaleGuardRuns: the tool and the state file path are there; without a path nothing is ever recorded.
- Teardown: signals to processes, sinks, grabbers, relays and events; a launch is one step that may replace a session, so two launches at once are covered.
- Grabber.ReadLoop: the event listener and the release of devices.
- KWin.GenerateEntries: of several seats with one process id the last counts, as in the script's table; loading the script and polling are not modelled.
- Geometry.CalculateSeatGeometry: the arguments built for gamescope and cage from the rectangle.
- Network discovery, provider chains, the user interface, input devices, audio and the remaining packages.
