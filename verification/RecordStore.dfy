/** The owned collection storage and the park / unlink / publish transaction
    that replaces its record (commander-native-tool-v2-final-collect.ts). */
module RecordStore {
  import opened Outcomes
  import opened FileSystem
  import opened Reliance
  import opened Text

  const OUTPUT_ROOT: Name := "commander-native-tool-v2-final-collection"
  const RECORD: Name := "collection-record.json"
  const SOURCES: Name := "sources"
  const ROOT_PATH := Join(Base, OUTPUT_ROOT)
  const RECORD_PATH := Join(ROOT_PATH, RECORD)
  const SOURCES_PATH := Join(ROOT_PATH, SOURCES)
  const TEMP_SUFFIX := ".tmp"
  const BACKUP_SUFFIX := ".bak"

  /** A storage failure says whether the new record had been published. */
  datatype WriteError = WriteError(code: ErrorCode, committed: bool)

  /** The storage the collector owns: identities taken at creation, and the
      identity of the current record. */
  class CollectionStorage {
    const rootIdentity: Identity
    const sourcesIdentity: Identity
    var recordIdentity: Identity

    constructor (rootIdentity: Identity, sourcesIdentity: Identity, recordIdentity: Identity)
      ensures this.rootIdentity == rootIdentity && this.sourcesIdentity == sourcesIdentity
      ensures this.recordIdentity == recordIdentity
    {
      this.rootIdentity, this.sourcesIdentity := rootIdentity, sourcesIdentity;
      this.recordIdentity := recordIdentity;
    }
  }

  // -------------------------------------------------------------------------
  // What one transaction is about
  // -------------------------------------------------------------------------

  /** The inodes and private names of one transaction. */
  datatype Tx = Tx(root: Ino, prior: Ino, draft: Ino, bytes: Bytes, temp: Name, backup: Name) {
    predicate WellNamed() {
      && temp != RECORD && backup != RECORD && temp != backup
      && temp != OUTPUT_ROOT && backup != OUTPUT_ROOT
      && EndsWith(temp, TEMP_SUFFIX) && EndsWith(backup, BACKUP_SUFFIX)
    }

    function TempPath(): Path { Join(ROOT_PATH, temp) }

    function BackupPath(): Path { Join(ROOT_PATH, backup) }

    /** The commit point. */
    function Publish(): Step { Step.Link(TempPath(), RECORD_PATH) }

    /** The prior record is linked in the owned root. */
    predicate PriorLinked(d: Disk) {
      d.Entry(root, RECORD) == Some(prior) || d.Entry(root, backup) == Some(prior)
    }

    predicate DraftAt(d: Disk, name: Name) {
      d.Entry(root, name) == Some(draft) && d.Content(draft) == Some(bytes)
    }

    /** The draft has no name but the record's and the temp name in the owned root. */
    ghost predicate DraftOnlyHere(d: Disk) {
      forall x, n | d.Entry(x, n) == Some(draft) :: x == root && (n == RECORD || n == temp)
    }

    /** Nothing but the three names of the transaction and the draft's bytes is
        different, and the private names hold what the transaction put there. */
    ghost predicate Framed(before: Disk, d: Disk) {
      && (forall x, n | !(x == root && n in {RECORD, temp, backup}) :: d.Entry(x, n) == before.Entry(x, n))
      && d.Entry(root, temp) in {None, Some(draft)} && d.Entry(root, backup) in {None, Some(prior)}
      && (forall i | i != draft :: d.Content(i) == before.Content(i))
    }

    /** The owned root holds the prior record, or the whole new one. */
    predicate RecordHeld(d: Disk) {
      PriorLinked(d) || DraftAt(d, RECORD)
    }

    /** The environment may do anything but take a name from the prior or the
        published record, or touch the private temp file. */
    ghost predicate Spares(before: Disk, after: Disk) {
      && (forall n | n == RECORD || n == backup ::
            before.Entry(root, n) == Some(prior) && before.IsFile(prior) ==> after.Entry(root, n) == Some(prior))
      && (forall n | n == RECORD || n == temp ::
            before.Entry(root, n) == Some(draft) && before.IsFile(draft) ==>
              after.Entry(root, n) == Some(draft) && after.Content(draft) == before.Content(draft))
    }
  }

  /** The commit point of any transaction: a completed temp file is linked at the
      record's name. */
  predicate IsPublish(step: Step) {
    step.Link? && step.target == RECORD_PATH && step.source.Join? && EndsWith(step.source.name, TEMP_SUFFIX)
  }

  /** How often the program has published a record since `h0`. */
  ghost function Publishes(h0: History, h: History): nat {
    if h == h0 || h.Start? then 0
    else Publishes(h0, h.prev) + (if IsPublish(h.step) then 1 else 0)
  }

  /** The file the program last made the record: the one it created at the
      record's name, or at the temp name it published. */
  ghost function RecordOf(h0: History, h: History): Option<Ino> {
    if h == h0 || h.Start? then None
    else if h.step == Step.Create(RECORD_PATH) then Some(h.prev.disk.next)
    else if IsPublish(h.step) then MadeAt(h0, h.prev, h.step.source)
    else RecordOf(h0, h.prev)
  }

  lemma {:induction false} PublishesSplit(h0: History, h1: History, h2: History)
    requires Extends(h0, h1) && Extends(h1, h2)
    ensures Publishes(h0, h2) == Publishes(h0, h1) + Publishes(h1, h2)
  {
    if h2 != h1 {
      ExtendsLength(h0, h1);
      ExtendsLength(h1, h2.prev);
      PublishesSplit(h0, h1, h2.prev);
    }
  }

  lemma {:induction false} RecordSplit(h0: History, h1: History, h2: History)
    requires Extends(h0, h1) && Extends(h1, h2) && (RecordOf(h1, h2).Some? || Publishes(h1, h2) == 0)
    ensures RecordOf(h0, h2) == if RecordOf(h1, h2).Some? then RecordOf(h1, h2) else RecordOf(h0, h1)
  {
    if h2 != h1 {
      ExtendsLength(h0, h1);
      ExtendsLength(h1, h2.prev);
      if h2.step == Step.Create(RECORD_PATH) {
      } else if IsPublish(h2.step) {
        MadeSplit(h0, h1, h2.prev, h2.step.source);
      } else {
        RecordSplit(h0, h1, h2.prev);
      }
    }
  }

  lemma {:induction false} RecordCreated(h0: History, h: History)
    ensures RecordOf(h0, h).Some? ==> RecordOf(h0, h).value in Created(h0, h)
  {
    if h != h0 && h.Then? {
      RecordCreated(h0, h.prev);
      if IsPublish(h.step) { MadeCreated(h0, h.prev, h.step.source); }
    }
  }

  /** Without links and without creating the record there is no new record. */
  lemma {:induction false} QuietPublishes(h0: History, h: History, paths: set<Path>)
    requires Quiet(h0, h, paths)
    ensures Publishes(h0, h) == 0 && (RECORD_PATH !in paths ==> RecordOf(h0, h).None?)
  {
    if h != h0 { QuietPublishes(h0, h.prev, paths); }
  }

  /** The environment gives the draft no new name. */
  ghost predicate Private(h0: History, h: History, tx: Tx) {
    h != h0 ==>
      && h.Then?
      && Private(h0, h.prev, tx)
      && (h.step == Environment ==>
            forall x, n | h.disk.Entry(x, n) == Some(tx.draft) :: h.prev.disk.Entry(x, n) == Some(tx.draft))
  }

  /** Every move of the environment since `h0` spared the records. */
  ghost predicate Spared(h0: History, h: History, tx: Tx) {
    h != h0 ==>
      && h.Then?
      && Spared(h0, h.prev, tx)
      && (h.step == Environment ==> tx.Spares(h.prev.disk, h.disk))
  }

  /** In every state since `h0` the owned root held a record. */
  ghost predicate AlwaysHeld(h0: History, h: History, tx: Tx) {
    && tx.RecordHeld(h.disk)
    && (h != h0 ==> h.Then? && AlwaysHeld(h0, h.prev, tx))
  }

  /** As long as nothing is published the prior record itself is linked. */
  ghost predicate PriorHeldUntilPublish(h0: History, h: History, tx: Tx) {
    && (!Performed(h0, h, tx.Publish()) ==> tx.PriorLinked(h.disk))
    && (h != h0 ==> h.Then? && PriorHeldUntilPublish(h0, h.prev, tx))
  }

  /** After the publish no step of the program changed the record's name. */
  ghost predicate PublishedKept(h0: History, h: History, tx: Tx) {
    h != h0 ==>
      && h.Then?
      && PublishedKept(h0, h.prev, tx)
      && (Performed(h0, h.prev, tx.Publish()) && h.step != Environment ==>
            h.disk.Entry(tx.root, RECORD) == h.prev.disk.Entry(tx.root, RECORD))
  }

  /** No step of the program changes the bytes of file `i`. */
  ghost predicate Unedited(h0: History, h: History, i: Ino) {
    h != h0 ==>
      && h.Then?
      && Unedited(h0, h.prev, i)
      && (h.step != Environment ==> h.disk.Content(i) == h.prev.disk.Content(i))
  }

  datatype Stage = Started | Staged | Parked | Removed | Published | Aborted

  /** Where the inodes are under the rely, stage by stage. */
  ghost predicate InPlace(d: Disk, tx: Tx, stage: Stage) {
    && d.KindOf(tx.prior) == FileKind
    && (stage in {Started, Staged, Parked} ==> d.Entry(tx.root, RECORD) == Some(tx.prior))
    && (stage in {Parked, Removed} ==> d.Entry(tx.root, tx.backup) == Some(tx.prior))
    && (stage in {Staged, Parked, Removed} ==> tx.DraftAt(d, tx.temp))
    && (stage == Published ==> tx.DraftAt(d, RECORD))
    && (stage == Aborted ==> tx.PriorLinked(d))
  }

  /** What the run has created and published on its way to `stage`. */
  ghost predicate Tracked(h0: History, h: History, tx: Tx, stage: Stage) {
    && Extends(h0, h)
    && (forall p | p != tx.TempPath() :: MadeAt(h0, h, p).None?)
    && (MadeAt(h0, h, tx.TempPath()) == Some(tx.draft) || (stage.Started? && h == h0))
    && (!stage.Started? ==> h.disk.IsFile(tx.draft) && Wrote(h0, h, tx.draft, tx.bytes))
    && Publishes(h0, h) == (if stage.Published? then 1 else 0)
    && RecordOf(h0, h) == (if stage.Published? then Some(tx.draft) else None)
  }

  /** What holds of a run of the transaction that has reached `stage`. */
  ghost predicate Ran(h0: History, h: History, tx: Tx, stage: Stage) {
    && tx.WellNamed()
    && tx.prior != tx.draft
    && CodeConfined(h0, h, {tx.prior, tx.draft}, {tx.root})
    && Unedited(h0, h, tx.prior)
    && (Performed(h0, h, tx.Publish()) <==> stage.Published?)
    && PublishedKept(h0, h, tx)
    && Tracked(h0, h, tx, stage)
    && (Protected(h0, h, tx) ==> Guarded(h0, h, tx) && InPlace(h.disk, tx, stage))
    && (Private(h0, h, tx) ==> tx.DraftOnlyHere(h.disk))
  }

  /** The prior record was in place and the environment spared it. */
  ghost predicate Protected(h0: History, h: History, tx: Tx) {
    && h0.disk.Entry(tx.root, RECORD) == Some(tx.prior)
    && h0.disk.KindOf(tx.prior) == FileKind
    && Spared(h0, h, tx)
  }

  ghost predicate Guarded(h0: History, h: History, tx: Tx) {
    AlwaysHeld(h0, h, tx) && PriorHeldUntilPublish(h0, h, tx)
  }

  /** Nothing stands in the way of the stages still to come. */
  ghost predicate Ready(h0: History, h: History, tx: Tx, stage: Stage) {
    && Protected(h0, h, tx) && Private(h0, h, tx) && tx.Framed(h0.disk, h.disk)
    && h.disk.Lstat(ROOT_PATH) == Some(Identity(tx.root, DirectoryKind))
    && (stage in {Started, Staged} ==> h.disk.Entry(tx.root, tx.backup).None?)
    && (stage == Started ==> h.disk.Entry(tx.root, tx.temp).None?)
    && (stage == Removed ==> h.disk.Entry(tx.root, RECORD).None?)
  }

  lemma {:induction false} HookKeeps(h0: History, h: History, tx: Tx, stage: Stage, after: Disk)
    requires Ran(h0, h, tx, stage) && Admissible(h.disk, after) && !stage.Started?
    ensures Ran(h0, Then(h, Environment, after), tx, stage)
    ensures Spared(h0, Then(h, Environment, after), tx) ==> Spared(h0, h, tx)
    ensures Private(h0, Then(h, Environment, after), tx) ==> Private(h0, h, tx)
    ensures after == h.disk && Ready(h0, h, tx, stage) ==> Ready(h0, Then(h, Environment, after), tx, stage)
  {
    ConfinedLength(h0, h, {tx.prior, tx.draft}, {tx.root});
    HookTracked(h0, h, tx, stage, after);
    if after == h.disk && Ready(h0, h, tx, stage) { QuietHook(h0, h, tx, stage); }
    hide Tracked, CodeConfined, Unedited, PublishedKept, Admissible, Ready, InPlace, Tx.Spares, Tx.RecordHeld,
         Tx.PriorLinked, Tx.DraftOnlyHere;
    if tx.Spares(h.disk, after) && InPlace(h.disk, tx, stage) { SparedInPlace(h.disk, after, tx, stage); }
    PrivateHook(h0, h, tx, after);
  }

  lemma {:induction false} PrivateHook(h0: History, h: History, tx: Tx, after: Disk)
    requires Private(h0, h, tx) ==> tx.DraftOnlyHere(h.disk)
    requires Extends(h0, h)
    ensures Private(h0, Then(h, Environment, after), tx) ==> tx.DraftOnlyHere(after)
  {
    ExtendsLength(h0, h);
  }

  lemma SparedInPlace(d: Disk, after: Disk, tx: Tx, stage: Stage)
    requires InPlace(d, tx, stage) && tx.Spares(d, after) && Admissible(d, after)
    ensures InPlace(after, tx, stage)
    ensures tx.RecordHeld(d) ==> tx.RecordHeld(after)
    ensures tx.PriorLinked(d) ==> tx.PriorLinked(after)
  {
    hide Disk.Valid;
    assert after.KindOf(tx.prior) == d.KindOf(tx.prior);
  }

  lemma {:induction false} QuietHook(h0: History, h: History, tx: Tx, stage: Stage)
    requires Ready(h0, h, tx, stage)
    ensures Ready(h0, Then(h, Environment, h.disk), tx, stage)
  {}

  lemma {:induction false} HookTracked(h0: History, h: History, tx: Tx, stage: Stage, after: Disk)
    requires Tracked(h0, h, tx, stage) && Admissible(h.disk, after) && !stage.Started?
    ensures Tracked(h0, Then(h, Environment, after), tx, stage)
  {
    ExtendsLength(h0, h);
    forall p | p != tx.TempPath() ensures MadeAt(h0, Then(h, Environment, after), p).None? {
      assert MadeAt(h0, h, p).None?;
    }
    if !stage.Started? { assert after.KindOf(tx.draft) == h.disk.KindOf(tx.draft); }
  }

  /** Taking names away, the park and the restore create and publish nothing. */
  lemma {:induction false} StepTracked(h0: History, h: History, tx: Tx, stage: Stage, step: Step, after: Disk,
                                       stage': Stage)
    requires Tracked(h0, h, tx, stage) && !stage.Started? && !stage'.Started? && (stage'.Published? <==> stage.Published?)
    requires step.Unlink? || (step.Link? && !IsPublish(step))
    requires after.IsFile(tx.draft)
    ensures Tracked(h0, Then(h, step, after), tx, stage')
  {
    ExtendsLength(h0, h);
    forall p | p != tx.TempPath() ensures MadeAt(h0, Then(h, step, after), p).None? {
      assert MadeAt(h0, h, p).None?;
    }
  }

  /** A confined step of the program that leaves the inodes in place for
      `stage'`. */
  lemma {:induction false} CodeKeeps(h0: History, h: History, tx: Tx, stage: Stage, step: Step, after: Disk,
                                     stage': Stage)
    requires Ran(h0, h, tx, stage) && step != Environment
    requires Confined(h.disk, after, {tx.prior, tx.draft}, {tx.root})
    requires after.Content(tx.prior) == h.disk.Content(tx.prior)
    requires stage'.Published? <==> stage.Published? || step == tx.Publish()
    requires stage.Published? ==> after.Entry(tx.root, RECORD) == h.disk.Entry(tx.root, RECORD)
    requires InPlace(h.disk, tx, stage) ==> InPlace(after, tx, stage')
    requires Tracked(h0, Then(h, step, after), tx, stage')
    requires tx.DraftOnlyHere(h.disk) ==> tx.DraftOnlyHere(after)
    ensures Ran(h0, Then(h, step, after), tx, stage')
    ensures Spared(h0, Then(h, step, after), tx) <==> Spared(h0, h, tx)
    ensures Private(h0, Then(h, step, after), tx) <==> Private(h0, h, tx)
  {
    ConfinedLength(h0, h, {tx.prior, tx.draft}, {tx.root});
    hide Tracked;
  }

  // -------------------------------------------------------------------------
  // The transaction
  // -------------------------------------------------------------------------

  /** The storage's identities are those of existing entries. */
  ghost predicate Owns(disk: Disk, storage: CollectionStorage)
    reads storage
  {
    && storage.rootIdentity.kind == DirectoryKind
    && storage.sourcesIdentity.kind == DirectoryKind
    && storage.recordIdentity.kind == FileKind
    && storage.rootIdentity.ino < disk.next
    && storage.recordIdentity.ino < disk.next
  }

  /** No-follow owned-identity gate. */
  method RequireOwnedEntry(fs: FileSystem, p: Path, expected: Identity, committed: bool)
    returns (error: Option<WriteError>)
    requires fs.Valid()
    modifies fs`clock
    ensures fs.Valid()
    ensures error.None? ==> fs.disk.Lstat(p) == Some(expected)
    ensures error.Some? ==> error.value.committed == committed
    ensures !fs.faulty(old(fs.clock)) ==> (error.None? <==> fs.disk.Lstat(p) == Some(expected))
    ensures fs.clock >= old(fs.clock)
  {
    var current := fs.Lstat(p);
    error := if current == Some(expected) then None else Some(WriteError(STORAGE_IO, committed));
  }

  /** Identity and bytes of a record file. */
  method VerifyRecordFile(fs: FileSystem, p: Path, bytes: Bytes, expected: Identity, committed: bool)
    returns (error: Option<WriteError>)
    requires fs.Valid() && expected.kind == FileKind
    modifies fs`clock
    ensures fs.Valid()
    ensures error.None? ==> fs.disk.Lstat(p) == Some(expected) && fs.disk.Content(expected.ino) == Some(bytes)
    ensures error.Some? ==> error.value.committed == committed
    ensures fs.clock >= old(fs.clock)
    ensures fs.Calm() && fs.disk.Lstat(p) == Some(expected) && fs.disk.Content(expected.ino) == Some(bytes) ==>
      error.None?
  {
    error := RequireOwnedEntry(fs, p, expected, committed);
    if error.None? {
      var raw := fs.ReadFile(p);
      if raw != Some(bytes) {
        error := Some(WriteError(RECORD_IO, committed));
      }
    }
  }

  function AsWriteError(thrown: Thrown, committed: bool): WriteError {
    match thrown
    case Coded(code) => WriteError(code, committed)
    case Uncoded => WriteError(RECORD_IO, committed)
  }

  /** Remove the name `p` only while it names `expected`. */
  method CleanupOwned(fs: FileSystem, p: Path, expected: Identity)
    requires fs.Valid() && p.Join? && expected.kind == FileKind
    modifies fs
    ensures fs.Valid()
    ensures
      || (fs.disk == old(fs.disk) && fs.history == old(fs.history))
      || (old(fs.disk).Lstat(p) == Some(expected)
          && old(fs.disk).DirAt(p.parent).Some?
          && fs.disk == old(fs.disk).Unbind(old(fs.disk).DirAt(p.parent).value, p.name)
          && fs.history == Then(old(fs.history), Step.Unlink(p), fs.disk))
    ensures fs.Reliable(old(fs.clock)) ==> fs.disk.Lstat(p) != Some(expected)
    ensures fs.clock >= old(fs.clock)
  {
    var current := fs.Lstat(p);
    if current == Some(expected) {
      UnbindLookup(fs.disk, fs.disk.DirAt(p.parent).value, p.name, p);
      UnbindLookup(fs.disk, fs.disk.DirAt(p.parent).value, p.name, p.parent);
      var _ := fs.Unlink(p);
    }
  }

  lemma StartRan(h0: History, tx: Tx)
    requires h0.disk.Valid() && tx.WellNamed() && tx.prior < tx.draft == h0.disk.next
    ensures Ran(h0, h0, tx, Started)
  {
    NeverNamed(h0.disk, tx);
  }

  lemma NeverNamed(d: Disk, tx: Tx)
    requires d.Valid() && tx.draft >= d.next
    ensures tx.DraftOnlyHere(d)
  {
    forall x, n ensures d.Entry(x, n) != Some(tx.draft) {
      assert d.Entry(x, n).Some? ==> d.Entry(x, n).value in d.nodes;
    }
  }

  /** Other names coming and going leave the root path where it leads. */
  lemma RootStays(d: Disk, dir: Ino, name: Name, i: Ino)
    requires d.IsDir(dir) && name != OUTPUT_ROOT
    ensures d.Unbind(dir, name).DirAt(ROOT_PATH) == d.DirAt(ROOT_PATH)
    ensures d.Unbind(dir, name).Lstat(ROOT_PATH) == d.Lstat(ROOT_PATH)
    ensures d.Bind(dir, name, i).DirAt(ROOT_PATH) == d.DirAt(ROOT_PATH)
    ensures d.Bind(dir, name, i).Lstat(ROOT_PATH) == d.Lstat(ROOT_PATH)
  {
    SameRoot(d, d.Unbind(dir, name));
    SameRoot(d, d.Bind(dir, name, i));
  }

  lemma SameRoot(d: Disk, e: Disk)
    requires e.base == d.base && forall x :: e.Entry(x, OUTPUT_ROOT) == d.Entry(x, OUTPUT_ROOT)
    requires forall i :: e.KindOf(i) == d.KindOf(i)
    requires forall i | i in d.nodes && d.nodes[i].Symlink? :: i in e.nodes && e.nodes[i] == d.nodes[i]
    requires forall i | i in e.nodes && e.nodes[i].Symlink? :: i in d.nodes && e.nodes[i] == d.nodes[i]
    ensures e.DirAt(ROOT_PATH) == d.DirAt(ROOT_PATH) && e.Lstat(ROOT_PATH) == d.Lstat(ROOT_PATH)
  {
    assert e.KindOf(d.base) == d.KindOf(d.base);
    if d.base in d.nodes && d.nodes[d.base].Symlink? {
      assert e.KindOf(d.nodes[d.base].dest) == d.KindOf(d.nodes[d.base].dest);
    }
    assert e.DirAt(Base) == d.DirAt(Base);
    if d.Lookup(ROOT_PATH).Some? {
      var r := d.Lookup(ROOT_PATH).value;
      assert e.KindOf(r) == d.KindOf(r);
      if r in d.nodes && d.nodes[r].Symlink? { assert e.KindOf(d.nodes[r].dest) == d.KindOf(d.nodes[r].dest); }
    }
  }

  lemma {:induction false} CreateKeeps(h0: History, tx: Tx, after: Disk)
    requires h0.disk.Valid() && tx.WellNamed() && tx.prior < h0.disk.next && tx.draft == h0.disk.next
    requires h0.disk.DirAt(ROOT_PATH) == Some(tx.root)
    requires h0.disk.Create(tx.TempPath()) == Success(after)
    ensures var h := Then(h0, Step.Create(tx.TempPath()), after);
      && Ran(h0, h, tx, Started) && MadeAt(h0, h, tx.TempPath()) == Some(tx.draft)
      && (Ready(h0, h0, tx, Started) ==> Spared(h0, h, tx) && Private(h0, h, tx) && tx.Framed(h0.disk, after))
    ensures after.Entry(tx.root, tx.temp) == Some(tx.draft)
    ensures after.Lstat(ROOT_PATH) == h0.disk.Lstat(ROOT_PATH)
    ensures forall d, n | n != tx.temp :: after.Entry(d, n) == h0.disk.Entry(d, n)
  {
    var d := h0.disk;
    StartRan(h0, tx);
    assert after == d.Allocate(File([])).Bind(tx.root, tx.temp, tx.draft);
    AllocateLookup(d, File([]), ROOT_PATH);
    LookupValid(d, ROOT_PATH);
    RootStays(d.Allocate(File([])), tx.root, tx.temp, tx.draft);
    NeverNamed(d, tx);
    CreateTracked(h0, tx, after);
    hide Tracked;
    CodeKeeps(h0, h0, tx, Started, Step.Create(tx.TempPath()), after, Started);
  }

  lemma {:induction false} CreateTracked(h0: History, tx: Tx, after: Disk)
    requires tx.WellNamed() && tx.draft == h0.disk.next
    ensures var h := Then(h0, Step.Create(tx.TempPath()), after);
      Tracked(h0, h, tx, Started) && MadeAt(h0, h, tx.TempPath()) == Some(tx.draft)
  {
    var h := Then(h0, Step.Create(tx.TempPath()), after);
    assert Length(h) == Length(h0) + 1;
    assert RECORD_PATH != tx.TempPath();
    assert Extends(h0, h0) && MadeAt(h0, h0, tx.TempPath()).None?;
    forall p | p != tx.TempPath() ensures MadeAt(h0, Then(h0, Step.Create(tx.TempPath()), after), p).None? {
      assert MadeAt(h0, h0, p).None?;
    }
  }

  lemma {:induction false} WriteKeeps(h0: History, h: History, tx: Tx, bytes: Bytes, after: Disk)
    requires Ran(h0, h, tx, Started)
    requires h.disk.Entry(tx.root, tx.temp) == Some(tx.draft) && MadeAt(h0, h, tx.TempPath()) == Some(tx.draft)
    requires h.disk.IsFile(tx.draft) && after == h.disk.Write(tx.draft, bytes)
    ensures Ran(h0, Then(h, Step.Write(tx.draft), after), tx, if bytes == tx.bytes then Staged else Started)
    ensures after.Lstat(ROOT_PATH) == h.disk.Lstat(ROOT_PATH)
    ensures Spared(h0, Then(h, Step.Write(tx.draft), after), tx) <==> Spared(h0, h, tx)
    ensures Private(h0, Then(h, Step.Write(tx.draft), after), tx) <==> Private(h0, h, tx)
    ensures tx.Framed(h0.disk, h.disk) ==> tx.Framed(h0.disk, after)
  {
    WriteLookup(h.disk, tx.draft, bytes, ROOT_PATH);
    WriteTracked(h0, h, tx, bytes, after);
    CodeKeeps(h0, h, tx, Started, Step.Write(tx.draft), after, if bytes == tx.bytes then Staged else Started);
  }

  lemma {:induction false} WriteTracked(h0: History, h: History, tx: Tx, bytes: Bytes, after: Disk)
    requires Tracked(h0, h, tx, Started) && MadeAt(h0, h, tx.TempPath()) == Some(tx.draft)
    requires h.disk.IsFile(tx.draft) && after == h.disk.Write(tx.draft, bytes)
    ensures Tracked(h0, Then(h, Step.Write(tx.draft), after), tx, if bytes == tx.bytes then Staged else Started)
  {
    ExtendsLength(h0, h);
    forall p | p != tx.TempPath() ensures MadeAt(h0, Then(h, Step.Write(tx.draft), after), p).None? {
      assert MadeAt(h0, h, p).None?;
    }
  }

  /** Names in the owned root, as seen through its path. */
  lemma RootLookup(d: Disk, tx: Tx, name: Name)
    requires d.Lstat(ROOT_PATH) == Some(Identity(tx.root, DirectoryKind))
    ensures d.DirAt(ROOT_PATH) == Some(tx.root)
    ensures d.Lookup(Join(ROOT_PATH, name)) == d.Entry(tx.root, name)
  {
    LstatDirectory(d, ROOT_PATH, Identity(tx.root, DirectoryKind));
  }

  lemma ReadyToStage(h0: History, tx: Tx)
    requires h0.disk.Valid() && Ready(h0, h0, tx, Started)
    ensures h0.disk.Create(tx.TempPath()).Success?
  {
    RootLookup(h0.disk, tx, tx.temp);
  }

  /** Before the park every gate passes and the park itself succeeds. */
  lemma ReadyToPark(h0: History, h: History, tx: Tx)
    requires Ran(h0, h, tx, Staged) && Ready(h0, h, tx, Staged)
    ensures h.disk.Lstat(tx.TempPath()) == Some(Identity(tx.draft, FileKind))
      && h.disk.Content(tx.draft) == Some(tx.bytes)
    ensures h.disk.Lstat(RECORD_PATH) == Some(Identity(tx.prior, FileKind))
    ensures h.disk.Link(RECORD_PATH, tx.BackupPath()).Success?
    ensures h.disk.Lstat(ROOT_PATH) == Some(Identity(tx.root, DirectoryKind))
  {
    RootLookup(h.disk, tx, tx.temp);
    RootLookup(h.disk, tx, RECORD);
  }

  lemma ReadyToRemove(h0: History, h: History, tx: Tx)
    requires Ran(h0, h, tx, Parked) && Ready(h0, h, tx, Parked)
    ensures h.disk.Lstat(tx.BackupPath()) == Some(Identity(tx.prior, FileKind))
    ensures h.disk.Lstat(RECORD_PATH) == Some(Identity(tx.prior, FileKind))
  {
    RootLookup(h.disk, tx, tx.backup);
    RootLookup(h.disk, tx, RECORD);
  }

  lemma Named(h0: History, h: History, tx: Tx, stage: Stage)
    requires Ran(h0, h, tx, stage)
    ensures tx.WellNamed() && tx.prior != tx.draft
  {}

  /** The temp name does not come back by itself. */
  lemma {:induction false} TempStaysGone(h0: History, h: History, tx: Tx, after: Disk)
    requires Ran(h0, h, tx, Published) && h.disk.DirAt(ROOT_PATH) == Some(tx.root)
    requires h.disk.Lstat(tx.TempPath()) != Some(Identity(tx.draft, FileKind))
    requires Private(h0, Then(h, Environment, after), tx)
    ensures after.Entry(tx.root, tx.temp) != Some(tx.draft)
  {
    ConfinedLength(h0, h, {tx.prior, tx.draft}, {tx.root});
  }

  lemma ReadyToPublish(h0: History, h: History, tx: Tx)
    requires Ran(h0, h, tx, Removed) && Ready(h0, h, tx, Removed)
    ensures h.disk.Link(tx.TempPath(), RECORD_PATH).Success?
  {
    RootLookup(h.disk, tx, tx.temp);
    RootLookup(h.disk, tx, RECORD);
  }

  lemma {:induction false} ReadyToVerify(h0: History, h: History, tx: Tx)
    requires Ran(h0, h, tx, Published) && Ready(h0, h, tx, Published)
    ensures h.disk.Lstat(RECORD_PATH) == Some(Identity(tx.draft, FileKind))
      && h.disk.Content(tx.draft) == Some(tx.bytes)
    ensures h.disk.DirAt(ROOT_PATH) == Some(tx.root) && tx.Framed(h0.disk, h.disk)
    ensures Private(h0, h, tx) && Protected(h0, h, tx)
  {
    RootLookup(h.disk, tx, RECORD);
  }

  /** The unique temp file under the owned root. */
  method StageTemp(fs: FileSystem, storage: CollectionStorage, bytes: Bytes, temp: Name, backup: Name)
    returns (error: Option<WriteError>, draft: Identity, ghost tx: Tx)
    requires fs.Valid() && Owns(fs.disk, storage)
    requires Tx(0, 0, 0, [], temp, backup).WellNamed()
    modifies fs
    ensures fs.Valid()
    ensures tx == Tx(storage.rootIdentity.ino, storage.recordIdentity.ino, old(fs.disk.next), bytes, temp, backup)
    ensures draft == Identity(tx.draft, FileKind)
    ensures fs.clock >= old(fs.clock)
    ensures Ran(old(fs.history), fs.history, tx, Started) || Ran(old(fs.history), fs.history, tx, Staged)
    ensures error.None? ==> Ran(old(fs.history), fs.history, tx, Staged)
    ensures fs.Calm() && Ready(old(fs.history), old(fs.history), tx, Started) ==>
              error.None? && Ready(old(fs.history), fs.history, tx, Staged)
    ensures error.Some? ==> !error.value.committed
    ensures error.Some? && fs.Reliable(old(fs.clock)) ==> fs.disk == old(fs.disk)
  {
    hide Ran, Disk.Valid, Sound, Disk.Create, Spared, Private, Tx.Framed, FileSystem.Played, Disk.Lookup;
    ghost var h0 := fs.history;
    tx := Tx(storage.rootIdentity.ino, storage.recordIdentity.ino, fs.disk.next, bytes, temp, backup);
    draft := Identity(fs.disk.next, FileKind);
    StartRan(h0, tx);
    error := RequireOwnedEntry(fs, ROOT_PATH, storage.rootIdentity, false);
    if error.Some? { return; }
    LstatDirectory(fs.disk, ROOT_PATH, storage.rootIdentity);
    if Ready(h0, h0, tx, Started) { ReadyToStage(h0, tx); }
    var failed, ino := fs.Create(Join(ROOT_PATH, temp));
    if failed.Some? {
      error := Some(WriteError(RECORD_IO, false));
      return;
    }
    CreateKeeps(h0, tx, fs.disk);
    ghost var h1 := fs.history;
    var ok := fs.Write(ino, bytes);
    ghost var some :| fs.disk == h1.disk.Write(tx.draft, some) && (ok ==> some == bytes);
    WriteKeeps(h0, h1, tx, some, fs.disk);
    if !ok {
      error := Some(WriteError(RECORD_IO, false));
    }
  }

  lemma {:induction false} ParkKeeps(h0: History, h: History, tx: Tx, after: Disk)
    requires Ran(h0, h, tx, Staged)
    requires h.disk.DirAt(ROOT_PATH) == Some(tx.root) && h.disk.Lookup(RECORD_PATH) == Some(tx.prior)
    requires h.disk.Link(RECORD_PATH, tx.BackupPath()) == Success(after)
    ensures Ran(h0, Then(h, Step.Link(RECORD_PATH, tx.BackupPath()), after), tx, Parked)
    ensures Ready(h0, h, tx, Staged) ==> Ready(h0, Then(h, Step.Link(RECORD_PATH, tx.BackupPath()), after), tx, Parked)
  {
    assert after == h.disk.Bind(tx.root, tx.backup, tx.prior);
    RootStays(h.disk, tx.root, tx.backup, tx.prior);
    StepTracked(h0, h, tx, Staged, Step.Link(RECORD_PATH, tx.BackupPath()), after, Parked);
    hide Tracked;
    CodeKeeps(h0, h, tx, Staged, Step.Link(RECORD_PATH, tx.BackupPath()), after, Parked);
  }

  lemma {:induction false} RemoveKeeps(h0: History, h: History, tx: Tx, after: Disk)
    requires Ran(h0, h, tx, Parked)
    requires h.disk.Lookup(RECORD_PATH) == Some(tx.prior)
    requires h.disk.Unlink(RECORD_PATH) == Success(after)
    ensures Ran(h0, Then(h, Step.Unlink(RECORD_PATH), after), tx, Removed)
    ensures Ready(h0, h, tx, Parked) ==> Ready(h0, Then(h, Step.Unlink(RECORD_PATH), after), tx, Removed)
  {
    assert after == h.disk.Unbind(h.disk.DirAt(ROOT_PATH).value, RECORD);
    StepTracked(h0, h, tx, Parked, Step.Unlink(RECORD_PATH), after, Removed);
    hide Tracked;
    CodeKeeps(h0, h, tx, Parked, Step.Unlink(RECORD_PATH), after, Removed);
    if Ready(h0, h, tx, Parked) {
      hide Ran, Protected, Private;
      RootLookup(h.disk, tx, RECORD);
      RootStays(h.disk, tx.root, RECORD, 0);
    }
  }

  lemma {:induction false} PublishKeeps(h0: History, h: History, tx: Tx, after: Disk)
    requires Ran(h0, h, tx, Removed)
    requires h.disk.DirAt(ROOT_PATH) == Some(tx.root)
    requires h.disk.Link(tx.TempPath(), RECORD_PATH) == Success(after)
    ensures Ran(h0, Then(h, tx.Publish(), after), tx, Published)
    ensures Ready(h0, h, tx, Removed) ==> Ready(h0, Then(h, tx.Publish(), after), tx, Published)
    ensures after.DirAt(ROOT_PATH) == Some(tx.root)
  {
    assert after == h.disk.Bind(tx.root, RECORD, h.disk.Entry(tx.root, tx.temp).value);
    PublishTracked(h0, h, tx, after);
    hide Tracked;
    CodeKeeps(h0, h, tx, Removed, tx.Publish(), after, Published);
    hide Ran, Protected, Private, Tx.Framed, Confined, InPlace, Tx.DraftOnlyHere;
    RootStays(h.disk, tx.root, RECORD, h.disk.Entry(tx.root, tx.temp).value);
    if tx.Framed(h0.disk, h.disk) { PublishFramed(h0.disk, h.disk, tx); }
  }

  lemma PublishFramed(d0: Disk, d: Disk, tx: Tx)
    requires tx.Framed(d0, d) && d.IsDir(tx.root) && d.Entry(tx.root, tx.temp).Some? && tx.WellNamed()
    ensures tx.Framed(d0, d.Bind(tx.root, RECORD, d.Entry(tx.root, tx.temp).value))
  {}

  lemma {:induction false} PublishTracked(h0: History, h: History, tx: Tx, after: Disk)
    requires tx.WellNamed() && Tracked(h0, h, tx, Removed)
    requires h.disk.DirAt(ROOT_PATH) == Some(tx.root)
    requires h.disk.Link(tx.TempPath(), RECORD_PATH) == Success(after)
    ensures Tracked(h0, Then(h, tx.Publish(), after), tx, Published)
  {
    ExtendsLength(h0, h);
    forall p | p != tx.TempPath() ensures MadeAt(h0, Then(h, tx.Publish(), after), p).None? {
      assert MadeAt(h0, h, p).None?;
    }
  }

  /** The two kinds of private names. */
  lemma SuffixesApart(tx: Tx)
    requires tx.WellNamed()
    ensures !IsPublish(Step.Link(tx.BackupPath(), RECORD_PATH))
  {
    assert tx.backup[|tx.backup| - 4..] == BACKUP_SUFFIX;
    assert BACKUP_SUFFIX[1] != TEMP_SUFFIX[1];
  }

  ghost predicate TxOf(tx: Tx, storage: CollectionStorage, bytes: Bytes, temp: Name, backup: Name, draft: Identity) {
    && storage.rootIdentity == Identity(tx.root, DirectoryKind)
    && draft == Identity(tx.draft, FileKind)
    && bytes == tx.bytes && temp == tx.temp && backup == tx.backup
  }

  /** The owned root and the owned record, as the transaction tracks them. */
  method RequireOwnedTarget(fs: FileSystem, storage: CollectionStorage) returns (error: Option<WriteError>)
    requires fs.Valid() && storage.rootIdentity.kind == DirectoryKind
    modifies fs`clock
    ensures fs.Valid() && fs.clock >= old(fs.clock)
    ensures error.Some? ==> !error.value.committed
    ensures error.None? ==>
      && fs.disk.DirAt(ROOT_PATH) == Some(storage.rootIdentity.ino)
      && fs.disk.Lstat(RECORD_PATH) == Some(storage.recordIdentity)
    ensures
      && fs.Calm() && fs.disk.Lstat(ROOT_PATH) == Some(storage.rootIdentity)
      && fs.disk.Lstat(RECORD_PATH) == Some(storage.recordIdentity)
      ==> error.None?
  {
    error := RequireOwnedEntry(fs, ROOT_PATH, storage.rootIdentity, false);
    if error.None? {
      LstatDirectory(fs.disk, ROOT_PATH, storage.rootIdentity);
      error := RequireOwnedEntry(fs, RECORD_PATH, storage.recordIdentity, false);
    }
  }

  /** Verify the temp file, then the root and the record. */
  method InspectTemp(fs: FileSystem, storage: CollectionStorage, bytes: Bytes, temp: Name, draft: Identity,
                     ghost h0: History, ghost tx: Tx)
    returns (error: Option<WriteError>)
    requires fs.Valid() && Ran(h0, fs.history, tx, Staged)
    requires TxOf(tx, storage, bytes, temp, tx.backup, draft)
    requires storage.recordIdentity == Identity(tx.prior, FileKind)
    modifies fs
    ensures fs.Valid() && fs.clock >= old(fs.clock)
    ensures Ran(h0, fs.history, tx, Staged)
    ensures error.Some? ==> !error.value.committed
    ensures fs.Calm() && Ready(h0, old(fs.history), tx, Staged) ==> error.None? && Ready(h0, fs.history, tx, Staged)
  {
    hide Ran, Ready, Disk.Valid, Sound, Admissible, FileSystem.Played;
    ghost var h := fs.history;
    var thrown := fs.Hook();                                            // afterTempCommit
    HookKeeps(h0, h, tx, Staged, fs.disk);
    if Ready(h0, fs.history, tx, Staged) { ReadyToPark(h0, fs.history, tx); }
    if thrown.Some? { return Some(AsWriteError(thrown.value, false)); }
    error := VerifyRecordFile(fs, Join(ROOT_PATH, temp), bytes, draft, false);
    if error.Some? { return; }
    error := RequireOwnedTarget(fs, storage);
  }

  /** The root and the record once more, immediately before the park. */
  method InspectTarget(fs: FileSystem, storage: CollectionStorage, ghost h0: History, ghost tx: Tx)
    returns (error: Option<WriteError>)
    requires fs.Valid() && Ran(h0, fs.history, tx, Staged)
    requires storage.rootIdentity == Identity(tx.root, DirectoryKind)
    requires storage.recordIdentity == Identity(tx.prior, FileKind)
    modifies fs
    ensures fs.Valid() && fs.clock >= old(fs.clock)
    ensures Ran(h0, fs.history, tx, Staged)
    ensures error.Some? ==> !error.value.committed
    ensures error.None? ==> fs.disk.DirAt(ROOT_PATH) == Some(tx.root) && fs.disk.Lookup(RECORD_PATH) == Some(tx.prior)
    ensures fs.Calm() && Ready(h0, old(fs.history), tx, Staged) ==> error.None? && Ready(h0, fs.history, tx, Staged)
  {
    hide Ran, Ready, Disk.Valid, Sound, Admissible, FileSystem.Played;
    ghost var h := fs.history;
    var thrown := fs.Hook();                                            // afterTargetVerify
    HookKeeps(h0, h, tx, Staged, fs.disk);
    if Ready(h0, fs.history, tx, Staged) { ReadyToPark(h0, fs.history, tx); }
    if thrown.Some? { return Some(AsWriteError(thrown.value, false)); }
    error := RequireOwnedTarget(fs, storage);
  }

  /** Park the prior record at the backup name. */
  method Park(fs: FileSystem, storage: CollectionStorage, backup: Name, ghost h0: History, ghost tx: Tx)
    returns (error: Option<WriteError>, stage: Stage)
    requires fs.Valid() && Ran(h0, fs.history, tx, Staged)
    requires storage.recordIdentity == Identity(tx.prior, FileKind) && backup == tx.backup
    requires fs.disk.DirAt(ROOT_PATH) == Some(tx.root) && fs.disk.Lookup(RECORD_PATH) == Some(tx.prior)
    modifies fs
    ensures fs.Valid() && fs.clock >= old(fs.clock)
    ensures stage == Staged || stage == Parked
    ensures Ran(h0, fs.history, tx, stage)
    ensures error.None? ==> stage == Parked
    ensures error.Some? ==> !error.value.committed
    ensures fs.Calm() && Ready(h0, old(fs.history), tx, Staged) ==> error.None? && Ready(h0, fs.history, tx, Parked)
  {
    hide Ran, Disk.Valid, Sound;
    ghost var h := fs.history;
    if Ready(h0, h, tx, Staged) { ReadyToPark(h0, h, tx); }
    var failed := fs.Link(RECORD_PATH, Join(ROOT_PATH, backup));
    if failed.Some? {
      return Some(WriteError(if failed == Some(EEXIST) then STORAGE_IO else RECORD_IO, false)), Staged;
    }
    ParkKeeps(h0, h, tx, fs.disk);
    stage := Parked;
    if Ready(h0, fs.history, tx, Parked) { ReadyToRemove(h0, fs.history, tx); }
    error := RequireOwnedEntry(fs, Join(ROOT_PATH, backup), storage.recordIdentity, false);
  }

  /** Take the old name away from the parked record. */
  method RemoveOld(fs: FileSystem, storage: CollectionStorage, ghost h0: History, ghost tx: Tx)
    returns (error: Option<WriteError>, stage: Stage)
    requires fs.Valid() && Ran(h0, fs.history, tx, Parked)
    requires storage.recordIdentity == Identity(tx.prior, FileKind)
    modifies fs
    ensures fs.Valid() && fs.clock >= old(fs.clock)
    ensures stage == Parked || stage == Removed
    ensures Ran(h0, fs.history, tx, stage)
    ensures error.None? <==> stage == Removed
    ensures error.Some? ==> !error.value.committed
    ensures fs.Calm() && Ready(h0, old(fs.history), tx, Parked) ==> error.None? && Ready(h0, fs.history, tx, Removed)
  {
    hide Ran, Disk.Valid, Sound, Admissible;
    stage := Parked;
    ghost var h := fs.history;
    var thrown := fs.Hook();                                            // afterBackupPark
    HookKeeps(h0, h, tx, Parked, fs.disk);
    if Ready(h0, fs.history, tx, Parked) { ReadyToRemove(h0, fs.history, tx); }
    if thrown.Some? { return Some(AsWriteError(thrown.value, false)), stage; }
    error := RequireOwnedEntry(fs, RECORD_PATH, storage.recordIdentity, false);
    if error.Some? { return; }
    h := fs.history;
    var failed := fs.Unlink(RECORD_PATH);
    if failed.Some? { return Some(WriteError(RECORD_IO, false)), stage; }
    RemoveKeeps(h0, h, tx, fs.disk);
    stage := Removed;
  }

  /** The commit point: link the draft at the record's absent name. */
  method Publish(fs: FileSystem, storage: CollectionStorage, temp: Name, ghost h0: History, ghost tx: Tx)
    returns (error: Option<WriteError>, stage: Stage)
    requires fs.Valid() && Ran(h0, fs.history, tx, Removed)
    requires storage.rootIdentity == Identity(tx.root, DirectoryKind) && temp == tx.temp
    modifies fs
    ensures fs.Valid() && fs.clock >= old(fs.clock)
    ensures stage == Removed || stage == Published
    ensures Ran(h0, fs.history, tx, stage)
    ensures error.None? <==> stage == Published
    ensures error.None? ==> fs.disk.DirAt(ROOT_PATH) == Some(tx.root)
    ensures error.Some? ==> !error.value.committed
    ensures fs.Calm() && Ready(h0, old(fs.history), tx, Removed) ==> error.None? && Ready(h0, fs.history, tx, Published)
  {
    hide Ran, Disk.Valid, Sound;
    stage := Removed;
    ghost var h := fs.history;
    var thrown := fs.Hook();                                            // afterTargetRemoved
    HookKeeps(h0, h, tx, Removed, fs.disk);
    if Ready(h0, fs.history, tx, Removed) { ReadyToPublish(h0, fs.history, tx); }
    if thrown.Some? { return Some(AsWriteError(thrown.value, false)), stage; }
    error := RequireOwnedEntry(fs, ROOT_PATH, storage.rootIdentity, false);
    if error.Some? { return; }
    LstatDirectory(fs.disk, ROOT_PATH, storage.rootIdentity);
    h := fs.history;
    var failed := fs.Link(Join(ROOT_PATH, temp), RECORD_PATH);
    if failed.Some? {
      return Some(WriteError(if failed == Some(EEXIST) then STORAGE_IO else RECORD_IO, false)), stage;
    }
    PublishKeeps(h0, h, tx, fs.disk);
    stage := Published;
  }

  lemma {:induction false} CleanupTempKeeps(h0: History, h: History, tx: Tx, stage: Stage, dir: Ino, after: Disk)
    requires Ran(h0, h, tx, stage) && stage in {Published, Aborted}
    requires h.disk.IsDir(dir) && h.disk.Entry(dir, tx.temp) == Some(tx.draft) && after == h.disk.Unbind(dir, tx.temp)
    ensures tx.WellNamed() && Ran(h0, Then(h, Step.Unlink(tx.TempPath()), after), tx, stage)
    ensures Spared(h0, Then(h, Step.Unlink(tx.TempPath()), after), tx) <==> Spared(h0, h, tx)
    ensures Private(h0, Then(h, Step.Unlink(tx.TempPath()), after), tx) <==> Private(h0, h, tx)
    ensures dir == tx.root && tx.Framed(h0.disk, h.disk) ==> tx.Framed(h0.disk, after)
  {
    StepTracked(h0, h, tx, stage, Step.Unlink(tx.TempPath()), after, stage);
    hide Tracked;
    CodeKeeps(h0, h, tx, stage, Step.Unlink(tx.TempPath()), after, stage);
  }

  /** The backup name goes only when the record's name, in the same directory,
      holds the prior record, or when the new record is published. */
  lemma {:induction false} CleanupBackupKeeps(h0: History, h: History, tx: Tx, stage: Stage, dir: Ino, after: Disk)
    requires Ran(h0, h, tx, stage) && stage in {Published, Aborted}
    requires h.disk.IsDir(dir) && h.disk.Entry(dir, tx.backup) == Some(tx.prior)
      && after == h.disk.Unbind(dir, tx.backup)
    requires stage == Aborted ==> h.disk.Entry(dir, RECORD) == Some(tx.prior)
    ensures tx.WellNamed() && Ran(h0, Then(h, Step.Unlink(tx.BackupPath()), after), tx, stage)
    ensures Spared(h0, Then(h, Step.Unlink(tx.BackupPath()), after), tx) <==> Spared(h0, h, tx)
    ensures Private(h0, Then(h, Step.Unlink(tx.BackupPath()), after), tx) <==> Private(h0, h, tx)
    ensures dir == tx.root && tx.Framed(h0.disk, h.disk) ==> tx.Framed(h0.disk, after)
  {
    StepTracked(h0, h, tx, stage, Step.Unlink(tx.BackupPath()), after, stage);
    hide Tracked;
    CodeKeeps(h0, h, tx, stage, Step.Unlink(tx.BackupPath()), after, stage);
  }

  lemma {:induction false} RestoreKeeps(h0: History, h: History, tx: Tx, after: Disk)
    requires Ran(h0, h, tx, Aborted)
    requires h.disk.DirAt(ROOT_PATH) == Some(tx.root)
    requires h.disk.Link(tx.BackupPath(), RECORD_PATH) == Success(after)
    ensures Ran(h0, Then(h, Step.Link(tx.BackupPath(), RECORD_PATH), after), tx, Aborted)
    ensures Spared(h0, Then(h, Step.Link(tx.BackupPath(), RECORD_PATH), after), tx) <==> Spared(h0, h, tx)
    ensures Private(h0, Then(h, Step.Link(tx.BackupPath(), RECORD_PATH), after), tx) <==> Private(h0, h, tx)
  {
    assert after == h.disk.Bind(tx.root, RECORD, h.disk.Entry(tx.root, tx.backup).value);
    SuffixesApart(tx);
    StepTracked(h0, h, tx, Aborted, Step.Link(tx.BackupPath(), RECORD_PATH), after, Aborted);
    hide Tracked;
    CodeKeeps(h0, h, tx, Aborted, Step.Link(tx.BackupPath(), RECORD_PATH), after, Aborted);
  }

  lemma Abort(h0: History, h: History, tx: Tx, stage: Stage)
    requires Ran(h0, h, tx, stage) && stage in {Staged, Parked, Removed}
    ensures Ran(h0, h, tx, Aborted)
  {}

  /** The published draft loses its temp name. */
  lemma TempDropped(h0: History, h: History, tx: Tx, after: Disk)
    requires Ran(h0, h, tx, Published) && h.disk.DirAt(ROOT_PATH) == Some(tx.root)
    requires h.disk.Lstat(tx.TempPath()) == Some(Identity(tx.draft, FileKind))
      && after == h.disk.Unbind(tx.root, tx.temp)
    ensures Ran(h0, Then(h, Step.Unlink(tx.TempPath()), after), tx, Published)
      && after.DirAt(ROOT_PATH) == Some(tx.root)
    ensures Ready(h0, h, tx, Published) ==> Ready(h0, Then(h, Step.Unlink(tx.TempPath()), after), tx, Published)
  {
    Named(h0, h, tx, Published);
    CleanupTempKeeps(h0, h, tx, Published, tx.root, after);
    RootStays(h.disk, tx.root, tx.temp, 0);
    hide Ran;
  }

  /** After the publish: drop the temp name and track the new identity. */
  method Adopt(fs: FileSystem, storage: CollectionStorage, temp: Name, draft: Identity, ghost h0: History, ghost tx: Tx)
    returns (error: Option<WriteError>)
    requires fs.Valid() && Ran(h0, fs.history, tx, Published)
    requires TxOf(tx, storage, tx.bytes, temp, tx.backup, draft)
    requires fs.disk.DirAt(ROOT_PATH) == Some(tx.root)
    modifies fs, storage`recordIdentity
    ensures fs.Valid() && fs.clock >= old(fs.clock)
    ensures Ran(h0, fs.history, tx, Published)
    ensures storage.recordIdentity == draft
    ensures fs.Calm() && Ready(h0, old(fs.history), tx, Published) ==>
      error.None? && Ready(h0, fs.history, tx, Published)
    ensures error.Some? ==> error.value.committed
    ensures fs.Reliable(old(fs.clock)) && Private(h0, fs.history, tx) ==> fs.disk.Entry(tx.root, temp) != Some(tx.draft)
  {
    hide Ran, Ready, Disk.Valid, Sound, Admissible, Private;
    ghost var h := fs.history;
    CleanupOwned(fs, Join(ROOT_PATH, temp), draft);
    if fs.history != h { TempDropped(h0, h, tx, fs.disk); }
    assert fs.disk.DirAt(ROOT_PATH) == Some(tx.root);
    storage.recordIdentity := draft;
    h := fs.history;
    var thrown := fs.Hook();                                            // afterPublish
    HookKeeps(h0, h, tx, Published, fs.disk);
    if h.disk.Lstat(Join(ROOT_PATH, temp)) != Some(draft) && Private(h0, fs.history, tx) {
      TempStaysGone(h0, h, tx, fs.disk);
    }
    error := if thrown.Some? then Some(AsWriteError(thrown.value, true)) else None;
  }

  /** Remove the parked backup name while it still names the prior record. */
  method CleanupBackup(fs: FileSystem, backup: Name, prior: Identity, ghost h0: History, ghost tx: Tx,
                       ghost stage: Stage)
    requires fs.Valid() && Ran(h0, fs.history, tx, stage) && stage in {Published, Aborted}
    requires prior == Identity(tx.prior, FileKind) && backup == tx.backup
    requires stage == Aborted ==> fs.disk.Lookup(RECORD_PATH) == Some(tx.prior)
    modifies fs
    ensures fs.Valid() && fs.clock >= old(fs.clock)
    ensures Ran(h0, fs.history, tx, stage)
    ensures Spared(h0, fs.history, tx) <==> Spared(h0, old(fs.history), tx)
    ensures Private(h0, fs.history, tx) <==> Private(h0, old(fs.history), tx)
    ensures forall d, n | n != backup :: fs.disk.Entry(d, n) == old(fs.disk).Entry(d, n)
    ensures forall j :: fs.disk.Content(j) == old(fs.disk).Content(j)
    ensures fs.disk.DirAt(ROOT_PATH) == old(fs.disk).DirAt(ROOT_PATH)
    ensures fs.disk.Lstat(ROOT_PATH) == old(fs.disk).Lstat(ROOT_PATH)
    ensures fs.disk.Lstat(RECORD_PATH) == old(fs.disk).Lstat(RECORD_PATH)
    ensures fs.Reliable(old(fs.clock)) ==> fs.disk.Lstat(Join(ROOT_PATH, backup)) != Some(prior)
    ensures old(fs.disk).DirAt(ROOT_PATH) == Some(tx.root) && tx.Framed(h0.disk, old(fs.disk)) ==>
      tx.Framed(h0.disk, fs.disk)
  {
    hide Ran, Disk.Valid, Sound, Private, Spared, Tx.Framed;
    ghost var h := fs.history;
    CleanupOwned(fs, Join(ROOT_PATH, backup), prior);
    if fs.history != h {
      ghost var dir := h.disk.DirAt(ROOT_PATH).value;
      CleanupBackupKeeps(h0, h, tx, stage, dir, fs.disk);
      RootStays(h.disk, dir, backup, 0);
    }
  }

  /** Remove the temp name while it still names the draft. */
  method CleanupTemp(fs: FileSystem, temp: Name, draft: Identity, ghost h0: History, ghost tx: Tx, ghost stage: Stage)
    requires fs.Valid() && Ran(h0, fs.history, tx, stage) && stage in {Published, Aborted}
    requires draft == Identity(tx.draft, FileKind) && temp == tx.temp
    modifies fs
    ensures fs.Valid() && fs.clock >= old(fs.clock)
    ensures Ran(h0, fs.history, tx, stage)
    ensures Spared(h0, fs.history, tx) <==> Spared(h0, old(fs.history), tx)
    ensures Private(h0, fs.history, tx) <==> Private(h0, old(fs.history), tx)
    ensures forall d, n | n != temp :: fs.disk.Entry(d, n) == old(fs.disk).Entry(d, n)
    ensures forall j :: fs.disk.Content(j) == old(fs.disk).Content(j)
    ensures fs.disk.DirAt(ROOT_PATH) == old(fs.disk).DirAt(ROOT_PATH)
    ensures fs.disk.Lstat(ROOT_PATH) == old(fs.disk).Lstat(ROOT_PATH)
    ensures fs.Reliable(old(fs.clock)) ==> fs.disk.Lstat(Join(ROOT_PATH, temp)) != Some(draft)
  {
    hide Ran, Disk.Valid, Sound, Private, Spared, Tx.Framed;
    ghost var h := fs.history;
    CleanupOwned(fs, Join(ROOT_PATH, temp), draft);
    if fs.history != h {
      ghost var dir := h.disk.DirAt(ROOT_PATH).value;
      CleanupTempKeeps(h0, h, tx, stage, dir, fs.disk);
      RootStays(h.disk, dir, temp, 0);
    }
  }

  /** Post-commit verification; the superseded record loses its backup name. */
  method Conclude(fs: FileSystem, bytes: Bytes, temp: Name, backup: Name, draft: Identity, prior: Identity,
                  interrupted: Option<WriteError>, ghost h0: History, ghost tx: Tx)
    returns (error: Option<WriteError>)
    requires fs.Valid() && Ran(h0, fs.history, tx, Published)
    requires draft == Identity(tx.draft, FileKind) && prior == Identity(tx.prior, FileKind)
    requires bytes == tx.bytes && temp == tx.temp && backup == tx.backup
    requires interrupted.Some? ==> interrupted.value.committed
    modifies fs
    ensures fs.Valid() && fs.clock >= old(fs.clock)
    ensures Ran(h0, fs.history, tx, Published)
    ensures Spared(h0, fs.history, tx) <==> Spared(h0, old(fs.history), tx)
    ensures Private(h0, fs.history, tx) <==> Private(h0, old(fs.history), tx)
    ensures error.Some? ==> error.value.committed
    ensures interrupted.Some? ==> error == interrupted
    ensures fs.disk.DirAt(ROOT_PATH) == old(fs.disk).DirAt(ROOT_PATH)
    ensures fs.Calm() && Ready(h0, old(fs.history), tx, Published) && interrupted.None? ==>
              error.None? && tx.Framed(h0.disk, fs.disk) && Private(h0, fs.history, tx) && Protected(h0, fs.history, tx)
    ensures error.None? ==>
      && fs.disk.Lstat(RECORD_PATH) == Some(draft) && fs.disk.Content(tx.draft) == Some(bytes)
      && fs.disk.Entry(tx.root, temp) == old(fs.disk).Entry(tx.root, temp)
      && (fs.Reliable(old(fs.clock)) ==> fs.disk.Lstat(Join(ROOT_PATH, backup)) != Some(prior))
  {
    hide Ran, Disk.Valid, Sound, Protected, Ready, Private, Spared, Tx.Framed;
    error := interrupted;
    Named(h0, fs.history, tx, Published);
    if Ready(h0, fs.history, tx, Published) { ReadyToVerify(h0, fs.history, tx); }
    ghost var h := fs.history;
    if error.None? {
      error := VerifyRecordFile(fs, RECORD_PATH, bytes, draft, true);
    }
    CleanupBackup(fs, backup, prior, h0, tx, Published);
    if error.Some? {
      CleanupTemp(fs, temp, draft, h0, tx, Published);
    }
    if Protected(h0, h, tx) { StillProtected(h0, h, fs.history, tx); }
  }

  lemma {:induction false} StillProtected(h0: History, h: History, h2: History, tx: Tx)
    requires Protected(h0, h, tx) && (Spared(h0, h, tx) ==> Spared(h0, h2, tx))
    ensures Protected(h0, h2, tx)
  {}

  /** The prior record is back at its name, unless something foreign has taken
      that name: then it stays at the backup name. */
  predicate RolledBack(d: Disk, tx: Tx) {
    && (d.Entry(tx.root, RECORD) == Some(tx.prior)
        || (d.Entry(tx.root, RECORD).Some? && d.Entry(tx.root, tx.backup) == Some(tx.prior)))
    && d.Entry(tx.root, tx.temp) != Some(tx.draft)
  }

  /** Link the parked record back at its name, never over a foreign entry and
      never inside a foreign root. */
  method Restore(fs: FileSystem, root: Identity, backup: Name, ghost h0: History, ghost tx: Tx)
    requires fs.Valid() && Ran(h0, fs.history, tx, Aborted)
    requires root == Identity(tx.root, DirectoryKind) && backup == tx.backup
    modifies fs
    ensures fs.Valid() && fs.clock >= old(fs.clock)
    ensures Ran(h0, fs.history, tx, Aborted)
    ensures Spared(h0, fs.history, tx) <==> Spared(h0, old(fs.history), tx)
    ensures Private(h0, fs.history, tx) <==> Private(h0, old(fs.history), tx)
    ensures forall d, n | n != RECORD :: fs.disk.Entry(d, n) == old(fs.disk).Entry(d, n)
    ensures forall d, n | old(fs.disk).Entry(d, n).Some? :: fs.disk.Entry(d, n) == old(fs.disk).Entry(d, n)
    ensures forall j :: fs.disk.Content(j) == old(fs.disk).Content(j)
    ensures fs.disk.Lstat(ROOT_PATH) == old(fs.disk).Lstat(ROOT_PATH)
    ensures
      && fs.Reliable(old(fs.clock)) && fs.disk.Lstat(ROOT_PATH) == Some(root)
      && fs.disk.Entry(tx.root, backup) == Some(tx.prior) && !old(fs.disk).IsDir(tx.prior)
      ==> fs.disk.Entry(tx.root, RECORD).Some?
  {
    hide Ran, Disk.Valid, Sound, Private, Spared, FileSystem.Played;
    ghost var h := fs.history;
    var current := fs.Lstat(ROOT_PATH);
    if current == Some(root) {
      LstatDirectory(fs.disk, ROOT_PATH, root);
      var failed := fs.Link(Join(ROOT_PATH, backup), RECORD_PATH);
      if failed.None? {
        RestoreKeeps(h0, h, tx, fs.disk);
        RootStays(h.disk, tx.root, RECORD, h.disk.Entry(tx.root, backup).value);
      }
    }
  }

  /** The backup name goes only once the record's name holds the prior record. */
  method DropRedundantBackup(fs: FileSystem, storage: CollectionStorage, backup: Name, ghost h0: History, ghost tx: Tx)
    requires fs.Valid() && Ran(h0, fs.history, tx, Aborted)
    requires storage.recordIdentity == Identity(tx.prior, FileKind) && backup == tx.backup
    modifies fs
    ensures fs.Valid() && fs.clock >= old(fs.clock)
    ensures Ran(h0, fs.history, tx, Aborted)
    ensures Spared(h0, fs.history, tx) <==> Spared(h0, old(fs.history), tx)
    ensures Private(h0, fs.history, tx) <==> Private(h0, old(fs.history), tx)
    ensures forall d, n | n != backup :: fs.disk.Entry(d, n) == old(fs.disk).Entry(d, n)
    ensures forall j :: fs.disk.Content(j) == old(fs.disk).Content(j)
    ensures fs.disk.Lstat(ROOT_PATH) == old(fs.disk).Lstat(ROOT_PATH)
    ensures old(fs.disk).Lookup(RECORD_PATH) != Some(tx.prior) ==> fs.disk == old(fs.disk)
    ensures
      && fs.Reliable(old(fs.clock)) && old(fs.disk).Lstat(RECORD_PATH) == Some(storage.recordIdentity)
      ==> fs.disk.Lstat(Join(ROOT_PATH, backup)) != Some(storage.recordIdentity)
  {
    var current := fs.Lstat(RECORD_PATH);
    if current == Some(storage.recordIdentity) {
      CleanupBackup(fs, backup, storage.recordIdentity, h0, tx, Aborted);
    }
  }

  /** `d` before the handler, `a` after the restore, `b` once a redundant
      backup is gone, `c` at the end. */
  lemma RollbackComplete(d: Disk, a: Disk, b: Disk, c: Disk, tx: Tx, stage: Stage)
    requires tx.WellNamed() && stage in {Staged, Parked, Removed} && InPlace(d, tx, stage)
    requires c.Lstat(ROOT_PATH) == b.Lstat(ROOT_PATH) == a.Lstat(ROOT_PATH) == Some(Identity(tx.root, DirectoryKind))
    requires stage != Removed ==> a == d
    requires forall x, n | n != RECORD :: a.Entry(x, n) == d.Entry(x, n)
    requires stage == Removed ==> a.Entry(tx.root, RECORD).Some?
    requires forall x, n | n != tx.backup :: b.Entry(x, n) == a.Entry(x, n)
    requires a.Lookup(RECORD_PATH) != Some(tx.prior) ==> b == a
    requires forall x, n | n != tx.temp :: c.Entry(x, n) == b.Entry(x, n)
    requires forall j :: c.Content(j) == d.Content(j)
    requires c.Lstat(tx.TempPath()) != Some(Identity(tx.draft, FileKind))
    ensures RolledBack(c, tx)
  {
    LstatDirectory(a, ROOT_PATH, Identity(tx.root, DirectoryKind));
    LstatDirectory(c, ROOT_PATH, Identity(tx.root, DirectoryKind));
    assert a.Lookup(RECORD_PATH) == a.Entry(tx.root, RECORD);
    assert c.Lookup(tx.TempPath()) == c.Entry(tx.root, tx.temp);
    assert c.Content(tx.draft) == Some(tx.bytes);
  }

  /** The failure handler before the commit. */
  method Recover(fs: FileSystem, storage: CollectionStorage, temp: Name, backup: Name, draft: Identity, stage: Stage,
                 ghost h0: History, ghost tx: Tx)
    requires fs.Valid() && Ran(h0, fs.history, tx, stage) && stage in {Staged, Parked, Removed}
    requires TxOf(tx, storage, tx.bytes, temp, backup, draft)
    requires storage.recordIdentity == Identity(tx.prior, FileKind)
    modifies fs
    ensures fs.Valid() && fs.clock >= old(fs.clock)
    ensures Ran(h0, fs.history, tx, Aborted)
    ensures Spared(h0, fs.history, tx) <==> Spared(h0, old(fs.history), tx)
    ensures Private(h0, fs.history, tx) <==> Private(h0, old(fs.history), tx)
    ensures
      && fs.Reliable(old(fs.clock)) && Protected(h0, fs.history, tx)
      && fs.disk.Lstat(ROOT_PATH) == Some(storage.rootIdentity)
      ==> RolledBack(fs.disk, tx)
  {
    hide Tx.Framed, Private, Spared, Disk.Valid, Sound;
    ghost var d := fs.disk;
    ghost var safe := fs.Reliable(fs.clock) && Protected(h0, fs.history, tx);
    assert safe ==> InPlace(d, tx, stage);
    Abort(h0, fs.history, tx, stage);
    if stage == Removed {
      Restore(fs, storage.rootIdentity, backup, h0, tx);
    }
    ghost var a := fs.disk;
    if stage == Removed || stage == Parked {
      DropRedundantBackup(fs, storage, backup, h0, tx);
    }
    ghost var b := fs.disk;
    CleanupTemp(fs, temp, draft, h0, tx, Aborted);
    if safe && fs.disk.Lstat(ROOT_PATH) == Some(storage.rootIdentity) {
      RollbackComplete(d, a, b, fs.disk, tx, stage);
    }
  }

  /** Nothing was created but the draft, at the temp name; it was published once,
      after it was written in full, if the transaction has committed. */
  ghost predicate PublishedOnce(h0: History, h: History, tx: Tx, committed: bool) {
    && Extends(h0, h)
    && (forall p | p != tx.TempPath() :: MadeAt(h0, h, p).None?)
    && (MadeAt(h0, h, tx.TempPath()) == Some(tx.draft) || h == h0)
    && (if committed then Publishes(h0, h) == 1 && RecordOf(h0, h) == Some(tx.draft) && Wrote(h0, h, tx.draft, tx.bytes)
        else Publishes(h0, h) == 0 && RecordOf(h0, h) == None)
  }

  /** What a finished transaction guarantees to its caller. */
  ghost predicate Settled(h0: History, h: History, tx: Tx, error: Option<WriteError>, tracked: Identity) {
    var committed := error.None? || error.value.committed;
    // Whatever the environment does, only the prior record and the draft are touched.
    && CodeConfined(h0, h, {tx.prior, tx.draft}, {tx.root})
    && Unedited(h0, h, tx.prior)
    // The flag is truthful, and the tracked identity follows the commit.
    && (committed <==> Performed(h0, h, tx.Publish()))
    && tracked == Identity(if committed then tx.draft else tx.prior, FileKind)
    // What is published is never taken back.
    && PublishedKept(h0, h, tx)
    // Under the rely no state of the run is without a record.
    && (Protected(h0, h, tx) ==> Guarded(h0, h, tx) && (committed ==> tx.DraftAt(h.disk, RECORD)))
    // What was created and published: the tracked record is the file last made it.
    && PublishedOnce(h0, h, tx, committed)
    // A normal return means the record is there, byte for byte.
    && (error.None? ==> h.disk.Lstat(RECORD_PATH) == Some(tracked) && h.disk.Content(tx.draft) == Some(tx.bytes))
  }

  /** The draft is named at the record's name and nowhere else. */
  ghost predicate SoleName(d: Disk, tx: Tx) {
    forall x, n :: d.Entry(x, n) == Some(tx.draft) <==> x == tx.root && n == RECORD
  }

  /** What it leaves behind when no call fails for a reason of its own: after a
      success the draft has no name but the record's, unless the environment gave
      it one, and the superseded record has no backup name; after a failure
      before the commit the prior record is at its name, if it was spared. */
  ghost predicate Tidy(h0: History, h: History, tx: Tx, error: Option<WriteError>) {
    && (error.None? && Private(h0, h, tx) ==>
          SoleName(h.disk, tx) && (Protected(h0, h, tx) ==> h.disk.Entry(tx.root, tx.backup) != Some(tx.prior)))
    && (error.Some? && !error.value.committed && Protected(h0, h, tx)
        && h.disk.Lstat(ROOT_PATH) == Some(Identity(tx.root, DirectoryKind)) ==>
          RolledBack(h.disk, tx))
  }

  lemma {:induction false} SoleNameLeft(h0: History, h: History, tx: Tx)
    requires Ran(h0, h, tx, Published) && Private(h0, h, tx)
    requires h.disk.Lstat(RECORD_PATH) == Some(Identity(tx.draft, FileKind))
    requires h.disk.Entry(tx.root, tx.temp) != Some(tx.draft)
    ensures SoleName(h.disk, tx) && h.disk.DirAt(ROOT_PATH) == Some(tx.root)
  {
    assert h.disk.Entry(h.disk.DirAt(ROOT_PATH).value, RECORD) == Some(tx.draft);
  }

  lemma {:induction false} TidySuccess(h0: History, h: History, tx: Tx)
    requires Ran(h0, h, tx, Published)
    requires h.disk.Lstat(RECORD_PATH) == Some(Identity(tx.draft, FileKind))
    requires Private(h0, h, tx) ==> h.disk.Entry(tx.root, tx.temp) != Some(tx.draft)
    requires h.disk.Lstat(tx.BackupPath()) != Some(Identity(tx.prior, FileKind))
    ensures Tidy(h0, h, tx, None)
  {
    if Private(h0, h, tx) {
      SoleNameLeft(h0, h, tx);
      assert h.disk.Lookup(tx.BackupPath()) == h.disk.Entry(tx.root, tx.backup);
    }
  }

  lemma TidyCommitted(h0: History, h: History, tx: Tx, error: WriteError)
    requires error.committed
    ensures Tidy(h0, h, tx, Some(error))
  {}

  lemma TidyFailure(h0: History, h: History, tx: Tx, error: WriteError)
    requires Protected(h0, h, tx) && h.disk.Lstat(ROOT_PATH) == Some(Identity(tx.root, DirectoryKind)) ==>
      RolledBack(h.disk, tx)
    ensures Tidy(h0, h, tx, Some(error))
  {}

  lemma SettledOut(h0: History, h: History, tx: Tx, stage: Stage, error: Option<WriteError>, tracked: Identity)
    requires Ran(h0, h, tx, stage) && (stage.Published? <==> error.None? || error.value.committed)
    requires stage.Published? || stage.Aborted? || stage.Started?
    requires tracked == Identity(if stage.Published? then tx.draft else tx.prior, FileKind)
    requires error.None? ==> h.disk.Lstat(RECORD_PATH) == Some(tracked) && h.disk.Content(tx.draft) == Some(tx.bytes)
    ensures Settled(h0, h, tx, error, tracked)
  {
    hide Guarded, PublishedKept, CodeConfined;
  }

  /** The guarded part of the transaction up to the commit point. */
  method UpToPublish(fs: FileSystem, storage: CollectionStorage, bytes: Bytes, temp: Name, backup: Name,
                     draft: Identity, ghost h0: History, ghost tx: Tx)
    returns (error: Option<WriteError>, stage: Stage)
    requires fs.Valid() && Ran(h0, fs.history, tx, Staged)
    requires TxOf(tx, storage, bytes, temp, backup, draft)
    requires storage.recordIdentity == Identity(tx.prior, FileKind)
    modifies fs
    ensures fs.Valid() && fs.clock >= old(fs.clock)
    ensures Ran(h0, fs.history, tx, stage) && stage in {Staged, Parked, Removed, Published}
    ensures error.None? <==> stage == Published
    ensures error.None? ==> fs.disk.DirAt(ROOT_PATH) == Some(tx.root)
    ensures error.Some? ==> !error.value.committed
    ensures fs.Calm() && Ready(h0, old(fs.history), tx, Staged) ==> error.None? && Ready(h0, fs.history, tx, Published)
  {
    stage := Staged;
    error := InspectTemp(fs, storage, bytes, temp, draft, h0, tx);
    if error.Some? { return; }
    error := InspectTarget(fs, storage, h0, tx);
    if error.Some? { return; }
    error, stage := Park(fs, storage, backup, h0, tx);
    if error.Some? { return; }
    error, stage := RemoveOld(fs, storage, h0, tx);
    if error.Some? { return; }
    error, stage := Publish(fs, storage, temp, h0, tx);
  }

  /** The rest of it once the record is published. */
  method FromPublish(fs: FileSystem, storage: CollectionStorage, bytes: Bytes, temp: Name, backup: Name,
                     draft: Identity, ghost h0: History, ghost tx: Tx)
    returns (error: Option<WriteError>)
    requires fs.Valid() && Ran(h0, fs.history, tx, Published)
    requires TxOf(tx, storage, bytes, temp, backup, draft)
    requires storage.recordIdentity == Identity(tx.prior, FileKind)
    requires fs.disk.DirAt(ROOT_PATH) == Some(tx.root)
    modifies fs, storage`recordIdentity
    ensures fs.Valid()
    ensures Settled(h0, fs.history, tx, error, storage.recordIdentity) && (error.Some? ==> error.value.committed)
    ensures fs.Reliable(old(fs.clock)) ==> Tidy(h0, fs.history, tx, error)
    ensures fs.Calm() && Ready(h0, old(fs.history), tx, Published) ==>
              error.None? && tx.Framed(h0.disk, fs.disk) && Private(h0, fs.history, tx) && Protected(h0, fs.history, tx)
  {
    hide Ran, Ready, Disk.Valid, Sound, Settled, Tidy, Private, Protected, Tx.Framed;
    var prior := storage.recordIdentity;
    error := Adopt(fs, storage, temp, draft, h0, tx);
    error := Conclude(fs, bytes, temp, backup, draft, prior, error, h0, tx);
    SettledOut(h0, fs.history, tx, Published, error, draft);
    if error.Some? {
      TidyCommitted(h0, fs.history, tx, error.value);
    } else if fs.Reliable(old(fs.clock)) {
      TidySuccess(h0, fs.history, tx);
    }
  }

  /** The guarded part of the transaction, with its failure handler. */
  method Attempt(fs: FileSystem, storage: CollectionStorage, bytes: Bytes, temp: Name, backup: Name, draft: Identity,
                 ghost h0: History, ghost tx: Tx)
    returns (error: Option<WriteError>)
    requires fs.Valid() && Ran(h0, fs.history, tx, Staged)
    requires TxOf(tx, storage, bytes, temp, backup, draft)
    requires storage.recordIdentity == Identity(tx.prior, FileKind)
    modifies fs, storage`recordIdentity
    ensures fs.Valid()
    ensures Settled(h0, fs.history, tx, error, storage.recordIdentity)
    ensures fs.Reliable(old(fs.clock)) ==> Tidy(h0, fs.history, tx, error)
    ensures fs.Calm() && Ready(h0, old(fs.history), tx, Staged) ==>
              error.None? && tx.Framed(h0.disk, fs.disk) && Private(h0, fs.history, tx) && Protected(h0, fs.history, tx)
  {
    hide Ran, Ready, Disk.Valid, Sound, Settled, Tidy, Private, Protected, Tx.Framed, RolledBack;
    var stage;
    error, stage := UpToPublish(fs, storage, bytes, temp, backup, draft, h0, tx);
    if error.None? {
      error := FromPublish(fs, storage, bytes, temp, backup, draft, h0, tx);
    } else {
      Recover(fs, storage, temp, backup, draft, stage, h0, tx);
      SettledOut(h0, fs.history, tx, Aborted, error, storage.recordIdentity);
      if fs.Reliable(old(fs.clock)) { TidyFailure(h0, fs.history, tx, error.value); }
    }
  }

  /** The atomic update of the collection record.  `accepted` is the verdict of
      the strict parser on the canonical bytes; `temp` and `backup` are the
      unique hidden names of this call. */
  method WriteCollectionRecord(fs: FileSystem, storage: CollectionStorage, accepted: bool, bytes: Bytes, temp: Name,
                               backup: Name)
    returns (error: Option<WriteError>, ghost tx: Tx)
    requires fs.Valid() && Owns(fs.disk, storage)
    requires Tx(0, 0, 0, [], temp, backup).WellNamed()
    modifies fs, storage`recordIdentity
    ensures fs.Valid()
    ensures tx == Tx(storage.rootIdentity.ino, old(storage.recordIdentity.ino), old(fs.disk.next), bytes, temp, backup)
    ensures Settled(old(fs.history), fs.history, tx, error, storage.recordIdentity)
    ensures !accepted ==> error == Some(WriteError(RECORD_INVALID, false)) && fs.history == old(fs.history)
    ensures accepted && fs.Reliable(old(fs.clock)) ==> Tidy(old(fs.history), fs.history, tx, error)
    ensures accepted && fs.Calm() && Ready(old(fs.history), old(fs.history), tx, Started) ==>
              && error.None? && tx.Framed(old(fs.disk), fs.disk)
              && Private(old(fs.history), fs.history, tx) && Protected(old(fs.history), fs.history, tx)
  {
    hide Ran, Ready, Disk.Valid, Sound, Settled, Tidy, Private, Protected, Tx.Framed, Tracked, RolledBack;
    ghost var h0 := fs.history;
    tx := Tx(storage.rootIdentity.ino, storage.recordIdentity.ino, fs.disk.next, bytes, temp, backup);
    StartRan(h0, tx);
    if !accepted {
      error := Some(WriteError(RECORD_INVALID, false));
      SettledOut(h0, h0, tx, Started, error, storage.recordIdentity);
      return;
    }
    var draft;
    error, draft, tx := StageTemp(fs, storage, bytes, temp, backup);
    if error.None? {
      error := Attempt(fs, storage, bytes, temp, backup, draft, h0, tx);
    } else {
      if Ran(h0, fs.history, tx, Started) {
        SettledOut(h0, fs.history, tx, Started, error, storage.recordIdentity);
      } else {
        Abort(h0, fs.history, tx, Staged);
        SettledOut(h0, fs.history, tx, Aborted, error, storage.recordIdentity);
      }
      if fs.Reliable(old(fs.clock)) {
        if Protected(h0, fs.history, tx) { UntouchedRecord(h0, fs.history, tx); }
        TidyFailure(h0, fs.history, tx, error.value);
      }
    }
  }

  /** The draft could not be staged: the prior record is where it was. */
  lemma UntouchedRecord(h0: History, h: History, tx: Tx)
    requires h0.disk.Valid() && tx.draft >= h0.disk.next && h.disk == h0.disk && Protected(h0, h, tx)
    ensures RolledBack(h.disk, tx)
  {
    NeverNamed(h0.disk, tx);
  }
}
