# A model of the native-tool benchmark pipeline

The project models the v2 benchmark pipeline of the repository: the final
collector with its record-publishing protocol, the offline preparation of
evidence with its staged commit and owned rollback, the classification and
pagination analysis of session traces, the strict record and manifest formats,
the frozen verdicts, and the byte-level helpers around them. `dafny verify
dfyconfig.toml` checks all of it.

## How it is organised

- `FileSystem`, `Reliance`: a disk of inodes (directories map names to inodes,
  files carry bytes, symbolic links lead to an inode) with the calls `link`,
  `unlink`, `mkdir`, `rmdir`, `rename` and exclusive creation after
  POSIX.1-2017; the class `FileSystem` holds the disk, the adversary and the
  history of the run. What is said about the past is said of that history.
- `RecordStore`, `Lifecycle`, `Sources`, `AttemptSessions`, `NeatRoot`,
  `Collector`: the collector, from the record transaction up to the whole
  attempt loop.
- `StagingTree`, `Ownership`, `TreeRollback`, `Staging`, `Prepare`, `GapRuns`,
  `LeftoverRuns`: evidence preparation, what it may touch, the two runs that
  touch more, and one that cannot take back what it made.
- `Text`, `Fields`, `Interleave`, `SourceNames`, `SessionShape`, `Records`,
  `Manifest`: names, JSON values, the ABBA plan, the two strict formats.
- `Pagination`, `Attribution`, `Classifier`: what session traces mean.
- `Preflight`, `Assembly`, `Pipeline`: from a complete collection to an accepted
  manifest.
- `Capture`, `Caps`, `Verdicts`, `TreeHash`, `PathMapper`: bounded buffers,
  output caps, order statistics, tree hashes, path anonymization. `Outcomes` and
  `Sequences` hold shared definitions.

## What is assumed

- The environment acts only at the named hooks and while the attempt runner
  runs, as arbitrary functions of the disk; an identity check and the call that
  follows it are one step. Any call may fail for a reason of its own. An inode
  stands for a device and inode number, and is never reused. Hooks throw no
  `NroV2RecordWriteError`, which `asWriteErrorV2` would pass through.
- The runs root exists; one that is missing the preparation creates recursively
  (line 993) and never takes back.
- A `stat` directly after an exclusive create or a rename is taken to succeed,
  except that of the staging directory and of the entries in it; the code
  deliberately leaves such paths behind when it does not.
- No-loss needs an environment that takes no name from the prior or published
  record and neither unlinks nor edits the private temp file, which is verified
  before the park and not again before the publish (lines 1922 and 1960 of the
  collector); it may give any of them further names. Only that no other name of
  the new record is left needs an environment that gives it none. The
  collector's stronger guarantee needs an environment that leaves the files in
  the output root and the sources directory alone.
- In the preparation nothing checks identities between the reservation's hook
  and the move; `Ownership.SwapGap` says of a history that the environment used
  that gap.
- A caught failure is a step of the history, with the number of the call that
  follows it: `HandledAt` is the start of the handler. So is an `lstat` whose
  outcome the preparation records.
- JSON text, SHA-256, the text of tool results, the parsing of facts lines, the
  compaction count and the attempt runner are parameters. The unique temp and
  backup names are taken to be distinct from the other names in the root and to
  end in `.tmp` and `.bak`, as they do.
- The record writer always parses against the frozen protocol, and the collector
  requires that protocol to be the one in use, so one protocol is modelled.
- `Math.ceil(0.9 * n)` is taken as exact; sums are unbounded integers, as the
  bound in the comment at lines 110-115 of `commander-native-tool-benchmark.ts`
  is per fact and not per run.

## What the code does differently from what one would expect

- `GapRuns.LinkRunLoses`: the rollback of the manifest compares identities with
  `stat`, which follows a link, and removes with `rm`, which does not; a foreign
  symbolic link to the owned manifest is removed.
  `Ownership.ManifestConfinedIff` says exactly when.
- `GapRuns.SwapRunLoses`: the move replaces whatever empty directory is at the
  evidence name. `Ownership.MoveConfinedIff` says exactly when that is the
  run's.
- `LeftoverRuns.HalfRunLeaves`: a failure in staging can leave the staging
  directory behind. The handler removes what is recorded, and an entry is
  recorded by an `lstat` after it is made: not if the writing of the file fails,
  if a recursive mkdir fails after its first level, if the new staging directory
  itself cannot be inspected, or if an `lstat` failed and no later one made good
  for it. `Prepare.PrepareEvidence` says that nothing is left exactly when
  everything made was inspected, and which failing calls leave something when
  none has failed before.
- `Assembly.BackslashRecordRefused`: the record parser takes what follows the
  last slash or backslash as the file name, the preparation uses `basename`,
  which knows only slashes; a file name of 482 bytes with a backslash makes an
  evidence path over the cap. That takes a file system with such names: for
  names of at most 255 bytes `Assembly.NamedRecordAccepted` proves acceptance,
  and `Assembly.AssembledIff` says exactly when it holds otherwise.
- The comment on `truncateUtf8` promises a marker; the function adds none.

## Model

| member | source | states |
|---|---|---|
| `RecordStore.WriteCollectionRecord` | scripts/commander-native-tool-v2-final-collect.ts:1870-2012 | For any environment moves at the hooks and any call failures: only the prior record's and the run's own entries are removed and nothing is overwritten; `committed` on the error is true exactly when the publish link happened, once; until then the prior record stays linked at its name or the backup name (while the environment spares it), on every uncommitted exit it still is and the tracked identity is unchanged; after the publish no code step touches the record's name; a normal return means the canonical bytes under the tracked identity. When no call fails for a reason of its own, an uncommitted failure has put the record back, and after a normal return the new record has no other name unless the environment gave it one; an undisturbed run in which no call fails succeeds and changes nothing but the record. |
| `RecordStore.HookKeeps` | scripts/commander-native-tool-v2-final-collect.ts:1921-1973 | An arbitrary environment move keeps everything that holds of a run of the transaction; the in-place part only as long as it spares the records. |
| `RecordStore.CodeKeeps` | scripts/commander-native-tool-v2-final-collect.ts:1870-2012 | A confined code step that leaves the inodes where the next stage expects them keeps everything that holds of a run. |
| `RecordStore.ParkKeeps` | scripts/commander-native-tool-v2-final-collect.ts:1936-1944 | Linking the record at the backup name keeps it linked and touches nothing foreign. |
| `RecordStore.RemoveKeeps` | scripts/commander-native-tool-v2-final-collect.ts:1946-1953 | Unlinking the old name keeps the record linked at the backup name. |
| `RecordStore.PublishKeeps` | scripts/commander-native-tool-v2-final-collect.ts:1955-1966 | Linking the draft at the absent record name moves the transaction to committed without replacing anything. |
| `RecordStore.RequireOwnedEntry` | scripts/commander-native-tool-v2-final-collect.ts:1837-1843 | The gate passes exactly when the path names the tracked inode with its kind, else it fails with the committed flag it was given. |
| `RecordStore.VerifyRecordFile` | scripts/commander-native-tool-v2-final-collect.ts:1817-1828 | Success means the path names the expected file and its bytes are the expected ones. |
| `RecordStore.CleanupOwned` | scripts/commander-native-tool-v2-final-collect.ts:1900-1915 | A temp or backup name goes only while it names the tracked inode. |
| `RecordStore.StageTemp` | scripts/commander-native-tool-v2-final-collect.ts:1890-1899 | The exclusive temp file: new inode, named in the owned root, never over an existing name. |
| `RecordStore.InspectTemp` | scripts/commander-native-tool-v2-final-collect.ts:1921-1927 | The temp file is verified after the hook, then the root and the record. |
| `RecordStore.Park` | scripts/commander-native-tool-v2-final-collect.ts:1929-1945 | The prior record gets the backup name only when root and record are the tracked ones, and never over a foreign entry. |
| `RecordStore.RemoveOld` | scripts/commander-native-tool-v2-final-collect.ts:1946-1954 | The record's name is taken away only from the parked prior record. |
| `RecordStore.Publish` | scripts/commander-native-tool-v2-final-collect.ts:1955-1967 | The commit point: the draft is linked at the record's name only inside the owned root and only if that name is free. |
| `RecordStore.Adopt` | scripts/commander-native-tool-v2-final-collect.ts:1967-1971 | After the publish the new identity is tracked and only the temp name goes. |
| `RecordStore.Conclude` | scripts/commander-native-tool-v2-final-collect.ts:1972-1979 | Success after the commit means the target was verified; only the superseded record's backup name may go. |
| `RecordStore.Restore` | scripts/commander-native-tool-v2-final-collect.ts:1990-1994 | The parked record is linked back never over a foreign entry and never inside a foreign root. |
| `RecordStore.DropRedundantBackup` | scripts/commander-native-tool-v2-final-collect.ts:1995-2008 | The backup name goes only once the record's name holds the prior record. |
| `RecordStore.Recover` | scripts/commander-native-tool-v2-final-collect.ts:1980-2011 | The handler before the commit keeps the prior record linked; when no call fails it ends at its name, or at the backup name if something foreign has taken it. |
| `RecordStore.RollbackComplete` | scripts/commander-native-tool-v2-final-collect.ts:1980-2011 | What the restore, the redundant backup and the cleanup add up to. |
| `RecordStore.TidySuccess` | scripts/commander-native-tool-v2-final-collect.ts:1972-1979 | After a normal return the draft's only name is the record's, under the one assumption that nobody else names it. |
| `RecordStore.RecordSplit` | scripts/commander-native-tool-v2-final-collect.ts:1955-1971 | The file a history last made the record is found phase by phase: the exclusive initial one, or the latest published. |
| `Lifecycle.InitializeCollectionStorage` | scripts/commander-native-tool-v2-final-collect.ts:1678-1782 | Exclusive initialization touches only inodes it created; success puts root, sources and record in place under the tracked identities with the initial bytes; on a failure the handler has started once and has since only removed, and, undisturbed and with no call failing in the handler, every directory is as it was; an undisturbed run succeeds when the name is free. |
| `Lifecycle.RollBack` | scripts/commander-native-tool-v2-final-collect.ts:1691-1710 | Children before the root, each only while it still is the tracked entry; undisturbed nothing remains. |
| `Lifecycle.RemoveOwned` | scripts/commander-native-tool-v2-final-collect.ts:1696-1709 | Removal only under a matching identity, a directory only when empty. |
| `Lifecycle.Revalidate` | scripts/commander-native-tool-v2-final-collect.ts:1772-1776 | Root, sources and record must all still be the owned entries. |
| `Lifecycle.Unbuilt` | scripts/commander-native-tool-v2-final-collect.ts:1692-1710 | Taking away what was created, and nothing else, gives back the previous directories. |
| `Sources.RetainRawSource` | scripts/commander-native-tool-v2-final-collect.ts:2093-2205 | Success means the sources directory holds exactly the raw bytes under the deterministic name and the tracked new inode; a larger source than 16 MiB is refused before the disk is looked at; on a failure either nothing was done or the handler started once and only removed, no source of this run is at its name and, undisturbed, every directory is as it was. |
| `Sources.RemoveOwnedRetainedSource` | scripts/commander-native-tool-v2-final-collect.ts:2223-2258 | Either exactly the tracked file's name under the matching label goes, or nothing changes; it goes when everything still matches. |
| `AttemptSessions.CreateAttemptSession` | scripts/commander-native-tool-v2-final-collect.ts:2354-2402 | Exclusive session directory, attempt numbers 1 to 60 only, nothing foreign touched; on a failure nothing was done, or the handler started once and only removed and, undisturbed, every directory is as it was; success adds exactly that directory. |
| `AttemptSessions.LocateProducedSession` | scripts/commander-native-tool-v2-final-collect.ts:2479-2605 | Read-only; success means the single safely named produced file is the regular file whose bytes, read through the handle, were the file's bytes at some moment of the call, with root, directory, identity and size confirmed at the end. |
| `AttemptSessions.RemoveOwnedAttemptSession` | scripts/commander-native-tool-v2-final-collect.ts:2632-2693 | Removes at most the produced file's and the session directory's names, each only under its tracked identity, the directory only when empty; both go when everything still matches. |
| `AttemptSessions.RemovalKept` | scripts/commander-native-tool-v2-final-collect.ts:2632-2693 | The removals touch no other directory's names and no bytes. |
| `Collector.CollectFinal` | scripts/commander-native-tool-v2-final-collect.ts:2844-2981 | Whole-run safety on every exit, failures included. No record begun: nothing was ever published, only entries the run created were touched, the handler ran and, undisturbed, every directory is as it was. Begun: root and sources are the directories the run created, the record is the file it last created or published at the record's name after writing exactly that record's bytes, there was one publish per entry, each entry names a source retained between the publishes around it that no code step has unlinked or edited since, and no step touched what the run did not create; with an aloof environment record and sources are on the disk byte for byte. The outcome's counts are those of the record, complete means 40 sessions, otherwise 60 attempts were started. With a cooperative runner, no disturbance and a free root the run finishes, or the attempt after the state it reached is hopeless: its process, given the attempt's empty session directory, is the last thing that changed the disk, and did not start or left there bytes that are no session for the arm in turn. When every process starts and every session a runner may leave can be represented, it finishes. |
| `Collector.RunAttempt` | scripts/commander-native-tool-v2-final-collect.ts:2866-2961 | One attempt keeps that state and reports whether the process was started; the record advances, by exactly one entry with the next ABBA arm, exactly when this attempt performed a publish, else an error is returned. Undisturbed it succeeds, or this very attempt is hopeless and the state as it was. |
| `Collector.Keep` | scripts/commander-native-tool-v2-final-collect.ts:2922-2961 | A session that can be represented is retained, committed and cleaned up after; undisturbed that succeeds. |
| `Collector.NeverHopeless` | scripts/commander-native-tool-v2-final-collect.ts:2866-2921 | No attempt is hopeless when every process starts and every session it may leave can be represented. |
| `Collector.Commit` | scripts/commander-native-tool-v2-final-collect.ts:2934-2954 | The record advances exactly when the publish was performed in its own steps: before it the retained source is reverted and the record stays, after it the published record is kept even on an error; undisturbed it succeeds. |
| `Collector.ProspectiveAcceptable` | scripts/commander-native-tool-v2-final-collect.ts:2927-2935 | Every record the loop serializes is accepted by the strict parser: arm in turn, at most 60 entries, distinct safe paths. |
| `Collector.CommittedWrite` | scripts/commander-native-tool-v2-final-collect.ts:2934-2958 | A committed write advances the state to the new record with all sources. |
| `Collector.FailedWrite` | scripts/commander-native-tool-v2-final-collect.ts:2936-2953 | A write that fails before its commit point leaves the record, possibly parked at the backup name. |
| `Collector.AloofSpares` | scripts/commander-native-tool-v2-final-collect.ts:1870-2012 | What is assumed of the environment by the loop implies what the record transaction assumes. |
| `Collector.PriorIntact` | scripts/commander-native-tool-v2-final-collect.ts:1870-2012 | Until the publish the prior record keeps its bytes as well as a name. |
| `Collector.Begin` | scripts/commander-native-tool-v2-final-collect.ts:2846-2864 | The loop starts with the initial record committed, or nothing was published and the initialization was taken back. |
| `Collector.Close` | scripts/commander-native-tool-v2-final-collect.ts:2934-2958 | Commit and removal of the attempt's session: the record advances exactly when published, whatever fails afterwards. |
| `Collector.CommittedTied` | scripts/commander-native-tool-v2-final-collect.ts:2934-2958 | A committed write makes the draft the file last published, its bytes written before, one publish more for one entry more. |
| `Collector.WriteRespectful` | scripts/commander-native-tool-v2-final-collect.ts:1870-2012 | The record transaction touches no entry the collection has not created. |
| `Collector.FailedUnbegun` | scripts/commander-native-tool-v2-final-collect.ts:2846-2864 | An initialization that fails leaves nothing published and nothing foreign touched. |
| `TreeRollback.RemoveOwnedTree` | scripts/commander-native-tool-benchmark-v2-prepare.ts:823-841 | Only recorded entries with a matching inode go, whatever the disk looks like; when no call fails for a reason of its own exactly the owned part goes and nothing outside the tree changes. |
| `TreeRollback.SortByDepthSorts` | scripts/commander-native-tool-benchmark-v2-prepare.ts:823-828 | The pass visits the same entries, the deepest first. |
| `TreeRollback.SweepExact` | scripts/commander-native-tool-benchmark-v2-prepare.ts:823-841 | What is left of the tree is exactly what is not owned, and the directories above it. |
| `TreeRollback.WhollyOwnedGoes` | scripts/commander-native-tool-benchmark-v2-prepare.ts:823-841 | A tree owned throughout goes down to its root. |
| `TreeRollback.ForeignSurvives` | scripts/commander-native-tool-benchmark-v2-prepare.ts:823-841 | A foreign entry survives, and so does every directory above it. |
| `TreeRollback.OwnedSurvivesOnlyAbove` | scripts/commander-native-tool-benchmark-v2-prepare.ts:823-841 | An owned entry survives only as a directory in which something survives. |
| `TreeRollback.StepByPath` | scripts/commander-native-tool-benchmark-v2-prepare.ts:823-841 | Lookup, identity comparison and removal by path amount to one step of the pass. |
| `TreeRollback.Capture` | scripts/commander-native-tool-benchmark-v2-prepare.ts:780-800 | The snapshot records exactly what lies at or below the path, with its identity and kind. |
| `TreeRollback.CapturedOwned` | scripts/commander-native-tool-benchmark-v2-prepare.ts:780-800 | A tree just captured is owned throughout, place by place. |
| `Prepare.PrepareEvidence` | scripts/commander-native-tool-benchmark-v2-prepare.ts:897-1247 | A normal return has the manifest bytes and the staged files in place (undisturbed: exactly those and nothing else new). Every step touches only what the run has made or moved, but for the two gaps of `Ownership.Gap`, which an undisturbed run and a run that fails in staging never go through. A failure: nothing was done, or the handler started once and has since only removed. After staging, undisturbed and with no call failing in the handler, every directory is as it was. In staging at most the staging directory is left, and, with no call failing in the handler, nothing is exactly when the run had inspected everything it made; where no earlier call had failed it had, unless the failing one broke off half-way: the inspection of the new staging directory, the writing of a file, or a recursive mkdir between two levels. When nothing goes wrong, the outputs are absent, a candidate is free and nothing stands in the way of the entries, it succeeds. |
| `Ownership.MoveConfinedIff` | scripts/commander-native-tool-benchmark-v2-prepare.ts:1108-1122 | The unguarded move touches only the run's own entries exactly when both names lead to its own entries (or the evidence name is free). |
| `Ownership.ManifestConfinedIff` | scripts/commander-native-tool-benchmark-v2-prepare.ts:1229-1241 | The manifest's removal takes the run's own name exactly when that name is no symbolic link to it. |
| `Ownership.OwnConfined` | scripts/commander-native-tool-benchmark-v2-prepare.ts:897-1247 | A run that goes through no gap touches only what it has claimed by its end. |
| `GapRuns.LinkRunLoses` | scripts/commander-native-tool-benchmark-v2-prepare.ts:1131-1241 | A whole run, hook by hook, in which a link is put in the manifest's place and the handler removes it: `stat` follows it, `rm` does not. |
| `GapRuns.SwapRunLoses` | scripts/commander-native-tool-benchmark-v2-prepare.ts:1087-1130 | A whole run in which the reserved directory is swapped at its hook and the move replaces the foreign one. |
| `LeftoverRuns.HalfRunLeaves` | scripts/commander-native-tool-benchmark-v2-prepare.ts:1001-1206 | A whole run in which the recursive mkdir makes `sessions` and fails before the session's directory: the handler can remove nothing, and the staging directory stays. |
| `Staging.CreateStaging` | scripts/commander-native-tool-benchmark-v2-prepare.ts:1001-1030 | Exclusive staging under a safe name; a taken candidate is left alone and the next one tried, eight times; it succeeds when one of them is free; a directory that cannot be inspected after its creation is not held. |
| `Staging.Populate` | scripts/commander-native-tool-benchmark-v2-prepare.ts:1031-1052 | The staged tree is the listed entries, each new; the record holds exactly what was inspected, and lacks something only if a call failed, the last one half-way. |
| `Staging.MakeFolders` | scripts/commander-native-tool-benchmark-v2-prepare.ts:1044-1044 | A recursive mkdir makes what is missing on the way, the topmost first, and may fail with some of it made; none of that is recorded yet. |
| `Staging.StageFolders` | scripts/commander-native-tool-benchmark-v2-prepare.ts:1041-1047 | After it every level is recorded, the deepest first, also those that were there: one that an earlier inspection missed is made good. |
| `Staging.CoveredIff` | scripts/commander-native-tool-benchmark-v2-prepare.ts:780-812 | The record of the tree is complete exactly when the history shows everything made to have been inspected. |
| `Staging.Stage` | scripts/commander-native-tool-benchmark-v2-prepare.ts:1001-1086 | Staging as a whole: what is on the disk is what the entries so far describe, all of it the run's own; on a failure what is held is all of it exactly when everything made was inspected, which with no earlier failed call it was unless the failing one broke off half-way. |
| `Staging.VerifyFiles` | scripts/commander-native-tool-benchmark-v2-prepare.ts:1069-1079 | Success means every checked file below the root has its bytes. |
| `Prepare.Reserve` | scripts/commander-native-tool-benchmark-v2-prepare.ts:1087-1107 | Both outputs are re-checked and the evidence directory is reserved exclusively. |
| `Prepare.Move` | scripts/commander-native-tool-benchmark-v2-prepare.ts:1108-1130 | The staged tree replaces the reserved directory unchanged, within the run's own entries or through the swap at the hook. |
| `Prepare.OpenManifest` | scripts/commander-native-tool-benchmark-v2-prepare.ts:1131-1155 | The manifest is created exclusively. |
| `Prepare.RollBack` | scripts/commander-native-tool-benchmark-v2-prepare.ts:1169-1247 | Only removals, each only while the thing still is the run's own or through the manifest's link; undisturbed nothing of it remains, and of a failed staging nothing exactly when all of it was recorded. |
| `Prepare.RollBackTree` | scripts/commander-native-tool-benchmark-v2-prepare.ts:1192-1228 | An owned tree and its root go; anything foreign in it stays with the directories above it. |
| `Prepare.StuckStays` | scripts/commander-native-tool-benchmark-v2-prepare.ts:1192-1228 | A tree with an unrecorded entry keeps its root: nothing recorded can be emptied past it. |
| `Prepare.StagingLeft` | scripts/commander-native-tool-benchmark-v2-prepare.ts:1169-1247 | After a failure in staging the only entry that can be new is the staging directory's. |
| `Prepare.AssertOutputAbsent` | scripts/commander-native-tool-benchmark-v2-prepare.ts:260-275 | An output that is already there is refused. |
| `Pagination.ComputePagination` | scripts/commander-native-tool-benchmark-v2-policy.ts:318-429 | Accepts exactly the traces with sound unique ids whose results answer an earlier call once, and returns their facts: an obligation is paginated exactly when a later successful read call on its path asks for a part; misuse exactly when some obligation has none. |
| `Pagination.RegisterCalls` | scripts/commander-native-tool-benchmark-v2-policy.ts:341-369 | The calls of one message are registered or refused exactly as their entry is acceptable. |
| `Pagination.MetIff` | scripts/commander-native-tool-benchmark-v2-policy.ts:405-406 | Filtering by the incremental set of previewed paths finds a later continuation exactly when a successful partial call comes later. |
| `Pagination.ReachedIff` | scripts/commander-native-tool-benchmark-v2-policy.ts:405-408 | The completion count finds a later complete result on the same path exactly when there is one. |
| `Pagination.CandidateIs` | scripts/commander-native-tool-benchmark-v2-policy.ts:360-367 | A call is a candidate exactly when it is partial and its path was previewed before it. |
| `Attribution.CallsConserved` | scripts/commander-native-tool-benchmark-v2-policy.ts:370-412 | Every read call is an orphan, an error or a success, and only one of them. |
| `Attribution.OrphanInserted` | scripts/commander-native-tool-benchmark-v2-policy.ts:346-412 | A fresh orphan call inserted in any message of an accepted trace changes only the orphan count, by one. |
| `Attribution.OrphanMessageInserted` | scripts/commander-native-tool-benchmark-v2-policy.ts:346-412 | The same for a fresh orphan call in a message of its own. |
| `Attribution.MessageInserted` | scripts/commander-native-tool-benchmark-v2-policy.ts:329-340 | A message without reads changes no fact. |
| `Attribution.ResultsSwapped` | scripts/commander-native-tool-benchmark-v2-policy.ts:370-409 | Swapping two adjacent read results changes no fact but completion, and none at all when their paths differ. |
| `Records.ParseCollectionRecord` | scripts/commander-native-tool-benchmark-v2.ts:411-524 | Accepts exactly the serializations of acceptable records and returns the serialized record. |
| `Records.ParseEntries` | scripts/commander-native-tool-benchmark-v2.ts:457-508 | Accepts exactly the serializations of chronicles. |
| `Records.ParseEntry` | scripts/commander-native-tool-benchmark-v2.ts:460-507 | Accepts exactly an entry that fits at its place. |
| `Records.RecordToJsonInjective` | scripts/commander-native-tool-benchmark-v2.ts:527-554 | Two records with one serialization are one record. |
| `Records.ChronicleMeaning` | scripts/commander-native-tool-benchmark-v2.ts:459-511 | Checking entry by entry means: sound entries, distinct resolved paths, each arm in its ABBA turn. |
| `Records.SessionsBounded` | scripts/commander-native-tool-benchmark-v2.ts:486-505 | A final record never holds more than 40 sessions. |
| `Records.Extended` | scripts/commander-native-tool-benchmark-v2.ts:459-511 | When one more entry extends a chronicle, and what it adds. |
| `Fields.EnvironmentRoundTrip` | scripts/commander-native-tool-benchmark-v2.ts:283-315 | The environment parser accepts exactly serialized safe environments. |
| `SourceNames.SourcePathOk` | scripts/commander-native-tool-v2-final-collect.ts:271-273 | A retained source's declared path passes every check and resolves to its place. |
| `SourceNames.SourcePathsDistinct` | scripts/commander-native-tool-v2-final-collect.ts:271-273 | Two attempts never declare one place. |
| `Interleave.NamesDistinct` | scripts/commander-native-tool-v2-final-collect.ts:271-278 | Two attempts share neither source name nor session directory. |
| `Manifest.ParseManifest` | scripts/commander-native-tool-benchmark-v2.ts:672-853 | Accepts exactly the serializations of acceptable manifests and returns the serialized manifest. |
| `Manifest.ParseSessions` | scripts/commander-native-tool-benchmark-v2.ts:731-768 | Accepts exactly the serializations of sound sessions with distinct labels and paths. |
| `Manifest.ParseAttempts` | scripts/commander-native-tool-benchmark-v2.ts:782-838 | Accepts exactly gapless attempt lists with sound, distinct paths. |
| `Manifest.ParseChecks` | scripts/commander-native-tool-benchmark-v2.ts:622-660 | Accepts exactly the frozen rubric checks. |
| `Manifest.SessionsToJsonInjective` | scripts/commander-native-tool-benchmark-v2.ts:943-979 | Two session lists with one serialization are one list. |
| `SessionShape.ValidateSessionShape` | scripts/commander-native-tool-benchmark-v2.ts:863-940 | For every number of runs the final shape accepts exactly the canonical ABBA sequence with at most 99 runs an arm; the dev shape exactly labels in turn from order 1. |
| `SessionShape.CanonicalIff` | scripts/commander-native-tool-benchmark-v2.ts:863-940 | Labels and orders leave the final phase only the arms to choose. |
| `SessionShape.AbbaBijection` | scripts/commander-native-tool-benchmark-v2.ts:337-349 | The n-th control is at 2n-1 for odd n and 2n for even n, the n-th treatment at the other; positions and numbered sessions correspond one to one. |
| `SessionShape.AbbaPositionsOf` | scripts/commander-native-tool-benchmark-v2.ts:343-350 | Trying all positions finds exactly those, in order. |
| `SessionShape.HeldStep` | scripts/commander-native-tool-benchmark-v2.ts:337-350 | How many positions an arm holds up to k, and that its latest is k. |
| `SessionShape.LabelRoundTrip` | scripts/commander-native-tool-benchmark-v2.ts:352-354 | Labels up to 99 are read back as written, and nothing else reads as one. |
| `SessionShape.TallyLabels` | scripts/commander-native-tool-benchmark-v2.ts:863-905 | The first pass accepts exactly labels in turn with increasing orders, and counts them. |
| `Classifier.ClassifyFinalSession` | scripts/commander-native-tool-v2-final-collect.ts:650-705 | Valid exactly when the enforcing run facts succeed, invalid exactly when strict derivation succeeds, with the same facts and category; neither the exit code nor the timeout nor the label matters. |
| `Classifier.ValidNotInvalid` | scripts/commander-native-tool-benchmark-v2.ts:1273-1326 | No session is both valid and invalid: an attempt cannot hide a valid run. |
| `Classifier.UnclassifiedIffValid` | scripts/commander-native-tool-v2-final-collect.ts:650-705 | A sound session no category applies to is valid exactly when user, assistant, prompt text and thinking level are present and its reads are accepted; else it is unrepresentable. |
| `Classifier.ComputeRunFacts` | scripts/commander-native-tool-benchmark-v2.ts:1071-1206 | Succeeds exactly on analyzable sessions, or with enforcement exactly on finally valid ones, and returns their facts. |
| `Classifier.DeriveAttemptFacts` | scripts/commander-native-tool-benchmark-v2.ts:1273-1326 | The category is the first of the frozen priority that applies; strict derivation fails exactly when none does. |
| `Classifier.LeadingByOrder` | scripts/commander-native-tool-benchmark-v2.ts:1291-1312 | One category leads, and the order decides which. |
| `Classifier.ValidateEntries` | scripts/commander-native-tool-benchmark.ts:862-892 | Accepts exactly entries with sound usage, every answer recording it, and on demand a user and an assistant message. |
| `Classifier.ValidateUsage` | scripts/commander-native-tool-benchmark.ts:830-855 | Accepts exactly bounded non-negative usage, integral where required. |
| `Classifier.ExtractPromptText` | scripts/commander-native-tool-benchmark.ts:899-918 | The text of the first user message, or its absence. |
| `Classifier.TerminalStateOf` | scripts/commander-native-tool-benchmark.ts:953-989 | One pass gives the last known type, role and stop reason; a terminal stop means the last message is an answer that stopped by itself. |
| `Classifier.StopIsTerminal` | scripts/commander-native-tool-benchmark.ts:980-986 | The two last-seen variables speak of one entry when both match. |
| `Classifier.LastWhereMeaning` | scripts/commander-native-tool-benchmark.ts:953-989 | The last entry of a kind is one after which there is no other. |
| `Classifier.ScanEnvironment` | scripts/commander-native-tool-benchmark.ts:1018-1044 | The keys seen, each where first seen, and the level recorded last. |
| `Classifier.FirstSeenMembers` | scripts/commander-native-tool-benchmark.ts:1018-1044 | Those keys are exactly the answers' keys, without repetition. |
| `Preflight.PreflightCollection` | scripts/commander-native-tool-benchmark-v2-prepare.ts:579-700 | Succeeds exactly when every source is usable, distinct, has the declared hash, classifies as declared, and a final cohort is complete; the facts carry labels by arm occurrence, attempt numbers and positions. |
| `Assembly.AssembledIff` | scripts/commander-native-tool-benchmark-v2-prepare.ts:912-957 | The assembled manifest is accepted by the strict parser exactly when its evidence paths are within 512 bytes. |
| `Assembly.NamedFits` | scripts/commander-native-tool-benchmark-v2-prepare.ts:912-940 | They are for every acceptable record whose declared paths have file names of at most 255 bytes. |
| `Assembly.NamedRecordAccepted` | scripts/commander-native-tool-benchmark-v2-prepare.ts:579-957 | Hence every such record that passes the preflight yields a manifest the strict parser accepts. |
| `Assembly.CollectedFits` | scripts/commander-native-tool-benchmark-v2-prepare.ts:920-940 | They are for every record the collector writes, whose names are short. |
| `Assembly.BackslashRecordRefused` | scripts/commander-native-tool-benchmark-v2-prepare.ts:912-957 | A whole record the parser accepts, with one file name of 482 bytes, whose manifest is refused: the two notions of base name disagree on backslashes. |
| `Assembly.CollectedRecordPrepares` | scripts/commander-native-tool-benchmark-v2-prepare.ts:579-957 | A record of the collector with confirmed sources prepares into an accepted manifest. |
| `Assembly.EvidencePathOk` | scripts/commander-native-tool-benchmark-v2-prepare.ts:912-940 | Only its length can make an evidence path unacceptable, and where it resolves. |
| `Assembly.SessionTagsMeaning` | scripts/commander-native-tool-benchmark-v2-prepare.ts:612-625 | Sessions are labelled by arm and occurrence, in the final phase in ABBA order. |
| `Assembly.AttemptTagsMeaning` | scripts/commander-native-tool-benchmark-v2-prepare.ts:612-625 | Attempts are labelled gaplessly by occurrence. |
| `Assembly.DerivedReported` | scripts/commander-native-tool-benchmark-v2-prepare.ts:684-690 | Derived attempts carry a prompt hash that is one and in the final phase an invalid category. |
| `Pipeline.CompleteRunPrepares` | scripts/commander-native-tool-v2-final-collect.ts:2844-2981 | Whatever state a collection with all valid runs holds, its sources pass the preflight and the assembled manifest is accepted. |
| `Pipeline.KeptConfirm` | scripts/commander-native-tool-benchmark-v2-prepare.ts:664-690 | Every kept source classifies again as it was recorded. |
| `Capture.CappedCapture.Append` | scripts/commander-native-tool-v2-final-collect.ts:441-463 | The stored bytes are the stream if it fits, otherwise the cut of its first `maxBytes` bytes; the total is exact; after overflow what is stored is frozen. |
| `Capture.AppendAll` | scripts/commander-native-tool-v2-final-collect.ts:425-465 | Any way of splitting a stream over appends leaves the same capture. |
| `Capture.BoundaryCut` | scripts/commander-native-tool-v2-final-collect.ts:390-413 | The scan finds the start of the last code point and cuts before it when it is split. |
| `Capture.CutIsGreatestBoundary` | scripts/commander-native-tool-v2-final-collect.ts:390-413 | On code points the cut is the greatest boundary not above the cap. |
| `Capture.CapturedWhole` | scripts/commander-native-tool-v2-final-collect.ts:415-465 | What is captured of code points is as many whole ones as fit. |
| `Verdicts.VerdictsOrderFree` | scripts/commander-native-tool-benchmark-v2.ts:1529-1623 | The verdicts do not depend on the order of the runs. |
| `Verdicts.VerdictsMonotone` | scripts/commander-native-tool-benchmark-v2.ts:1529-1623 | Lowering treatment runs and raising control runs loses no achieved verdict. |
| `Verdicts.FrozenThresholds` | scripts/commander-native-tool-benchmark-v2.ts:1529-1623 | The four frozen thresholds on named statistics: half the bytes, four fifths of the gross tokens, no more requests, a tail of at most 105 percent; dev runs, empty arms and zero controls are not measured. |
| `Verdicts.MedianVerdictMeaning` | scripts/commander-native-tool-benchmark-v2.ts:1467-1518 | The integer test is the rational threshold on the medians, boundary included; empty arms and a zero control are not measured. |
| `Verdicts.P90VerdictMeaning` | scripts/commander-native-tool-benchmark-v2.ts:1574-1621 | The tail verdict is 1.05 times the control, with the same exceptions. |
| `Verdicts.P90Least` | scripts/commander-native-tool-benchmark-v2.ts:1397-1401 | The 90th percentile is the least number with at least nine tenths of the runs at or below it. |
| `Verdicts.MiddleHalves` | scripts/commander-native-tool-benchmark-v2.ts:1381-1394 | The middle values are the least with at least half, and with more than half, of the runs at or below. |
| `Verdicts.OrderStatistic` | scripts/commander-native-tool-benchmark-v2.ts:1381-1401 | The k-th sorted value is at most w exactly when more than k runs are. |
| `Verdicts.SortMonotone` | scripts/commander-native-tool-benchmark-v2.ts:1381-1401 | Lowering runs lowers every order statistic, or keeps it. |
| `Caps.ApplyCaps` | scripts/commander-native-tool-benchmark-v2-analyze.ts:501-542 | Within both caps; the lines themselves when they fit; otherwise a marker after the longest shorter list of kept lines it fits behind, or after a cut first line; degenerate caps give nothing. |
| `Caps.DropTrailing` | scripts/commander-native-tool-benchmark-v2-analyze.ts:527-536 | The drop loop finds the longest list of lines, shorter than those kept, that the marker fits behind. |
| `Caps.TruncateUtf8` | scripts/commander-native-tool-benchmark-v2-analyze.ts:139-149 | The longest prefix within the cap. |
| `Caps.RenderSummary` | scripts/commander-native-tool-benchmark-v2-prepare.ts:1368-1386 | The summary is within the cap with its final newline, and unchanged when it fits. |
| `TreeHash.FixtureManifestHash` | scripts/commander-native-tool-benchmark.ts:1586-1631 | Accepts exactly bounded printable trees of files and directories, and hashes their sorted rows. |
| `TreeHash.Walk` | scripts/commander-native-tool-benchmark.ts:1588-1626 | The walk adds exactly the files below, and refuses exactly what breaks a bound or the path rules. |
| `TreeHash.PreimageIff` | scripts/commander-native-tool-benchmark.ts:1628-1630 | Two accepted trees have one preimage exactly when they hold the same digests under the same paths. |
| `TreeHash.JoinedInjective` | scripts/commander-native-tool-benchmark.ts:1629-1629 | No row text can pass for another: paths hold no newline and digests have 64 characters. |
| `TreeHash.OneArrangement` | scripts/commander-native-tool-benchmark.ts:1628-1628 | Sorting leaves one arrangement of rows with distinct paths. |
| `TreeHash.RowsDistinct` | scripts/commander-native-tool-benchmark.ts:1596-1626 | A listing's files have distinct relative paths. |
| `TreeHash.RowsPermuted` | scripts/commander-native-tool-benchmark.ts:1595-1595 | A listing's order does not change what it holds. |
| `PathMapper.OverlapKept` | scripts/delegation-history-fixture.ts:239-248 | On mapped paths one lies at or beneath another exactly when their images do. |
| `PathMapper.MapInjective` | scripts/delegation-history-fixture.ts:239-248 | Distinct paths have distinct images. |
| `PathMapper.ImageParts` | scripts/delegation-history-fixture.ts:239-248 | The image keeps the `/` or `/**` suffix and maps segment by segment. |
| `PathMapper.MappedIff` | scripts/delegation-history-fixture.ts:229-248 | A path the mapper was built from is mapped exactly when its segments are neither empty nor wildcards. |
| `PathMapper.MapListMergesNone` | scripts/delegation-history-fixture.ts:250-252 | Mapping a list gives the sorted images, as many as there are distinct paths. |
| `PathMapper.TokenInjective` | scripts/delegation-history-fixture.ts:233-236 | Tokens are distinct, beyond four digits too. |
| `PathMapper.ByteSorted` | scripts/delegation-history-fixture.ts:155-157 | Strictly ascending, with exactly the given members. |

## Left out

- Processes, timers, signals, command lines, usage text, and rendering other than the caps.
- JSON text and the byte limits on it, SHA-256, string decoding, regular expressions and marker-line parsing: parameters of the model.
- Cost, token and per-tool byte totals, wall time and the rubric: sums and data that no acceptance decision depends on.
- The preflights of inputs, system and protocol, and the bundle's root entries in `nonTreatmentBundleHashV2`, whose walk, sorting and preimage are those of `fixtureManifestHash`.
- The real-path containment of declared sources: `Preflight` takes the outcome of the path inspection as given and checks that real paths are distinct.
- The v1 and P9 copies of the algorithms: weaker versions of the same.
- Symbolic links that lead to a path rather than an inode, and renaming or replacing the run directory itself.
- Lone surrogates in strings, and the aliasing of captured chunks with the caller's buffers.
- Records.ParseCollectionRecord: which of several defects a refused record is reported for is not stated; acceptance is exact.
- Manifest.ParseManifest: which of several defects a refused manifest is reported for is not stated; acceptance is exact.
- Classifier.ComputeRunFacts: which of several defects a refused session is reported for is not stated; acceptance is exact.
- RecordStore.WriteCollectionRecord: after the publish the root's identity is not checked again, as in the code, so a root swapped at that hook is reported through the record's verification only.
