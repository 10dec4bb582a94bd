/** The collection loop: at most 60 started attempts, until 40 valid sessions
    fill the ABBA plan (commander-native-tool-v2-final-collect.ts). */
module Collector {
  import opened Outcomes
  import opened FileSystem
  import opened Reliance
  import opened RecordStore
  import opened Lifecycle
  import opened Interleave
  import opened Fields
  import opened Records
  import opened Sources
  import opened SourceNames
  import opened AttemptSessions
  import opened NeatRoot

  datatype Verdict = Valid | Invalid | Unrepresentable

  /** What the loop is given: the frozen protocol, JSON text, SHA-256, the
      runner's answers, the classifier, and the private names of each write. */
  datatype Plan = Plan(
    protocol: Protocol,
    stringify: Json -> Bytes,
    digest: Bytes -> string,
    started: nat -> bool,
    classify: (Bytes, ArmName) -> Verdict,
    temp: nat -> Name,
    backup: nat -> Name)
  {
    ghost predicate WellFormed() {
      && AcceptableRecord(InitialRecord(protocol), protocol)
      && (forall b :: Sha256Hex(digest(b)))
      && (forall n :: Tx(0, 0, 0, [], temp(n), backup(n)).WellNamed())
    }

    function RecordBytes(record: CollectionRecord): Bytes {
      stringify(RecordToJson(record))
    }
  }

  function Pin(pin: Option<string>): string {
    if pin.Some? then pin.value else ""
  }

  /** The canonical record before any paid process. */
  function InitialRecord(p: Protocol): CollectionRecord {
    CollectionRecord(COLLECTION_SCHEMA_VERSION, FROZEN_VERSION, FROZEN_DOC, Final, Pin(p.milestonePromptSha256),
                     Pin(p.fixtureManifestSha256), Pin(p.nonTreatmentSha256), Pin(p.rubricSha256), p.environment, [])
  }

  // -------------------------------------------------------------------------
  // What holds between attempts
  // -------------------------------------------------------------------------

  /** A retained source, and the moment from which it is to be preserved. */
  datatype Source = Source(name: Name, ino: Ino, raw: Bytes, since: History)

  /** The committed state of a collection. */
  datatype State = State(root: Ino, sources: Ino, record: CollectionRecord, rec: Ino, kept: seq<Source>)

  /** Entry k of the record is the k-th retained source: its name, its hash, and
      a session exactly when its bytes are a valid session. */
  ghost predicate Listed(st: State, plan: Plan) {
    && |st.kept| == |st.record.entries|
    && forall k | 0 <= k < |st.kept| ::
         var e := st.record.entries[k];
         && st.kept[k].name == RawSourceName(k + 1, e.arm)
         && e.path == SourceRelativePath(st.kept[k].name)
         && e.expectedSessionSha256 == plan.digest(st.kept[k].raw)
         && plan.classify(st.kept[k].raw, e.arm) != Unrepresentable
         && (e.kind.Session? <==> plan.classify(st.kept[k].raw, e.arm) == Valid)
  }

  /** Since it was retained, no step of the program has unlinked or edited it. */
  ghost predicate Preserved(h: History, sources: Ino, s: Source) {
    && NameKept(s.since, h, sources, s.name, s.ino)
    && s.since.disk.Entry(sources, s.name) == Some(s.ino)
    && s.since.disk.Content(s.ino) == Some(s.raw)
  }

  /** The committed record is linked in the owned root under one of `names`, byte
      for byte, and every source it names is retained byte for byte. */
  ghost predicate OnDisk(d: Disk, st: State, plan: Plan, names: set<Name>) {
    && (exists n | n in names :: d.Entry(st.root, n) == Some(st.rec))
    && d.Content(st.rec) == Some(plan.RecordBytes(st.record))
    && forall s | s in st.kept :: d.Entry(st.sources, s.name) == Some(s.ino) && d.Content(s.ino) == Some(s.raw)
  }

  /** The program created the source at its name, after the k-th publish and before
      the next. */
  ghost predicate RetainedAt(h0: History, s: Source, k: nat) {
    Extends(h0, s.since) && Publishes(h0, s.since) == k && MadeAt(h0, s.since, SourcePath(s.name)) == Some(s.ino)
  }

  /** The state is what the history shows: root and sources are the directories
      the program created, the record is the file it last made the record, after
      it had written the whole of it, and it has published once for every entry. */
  ghost predicate Tied(h0: History, h: History, st: State, plan: Plan) {
    && MadeAt(h0, h, ROOT_PATH) == Some(st.root) && MadeAt(h0, h, SOURCES_PATH) == Some(st.sources)
    && RecordOf(h0, h) == Some(st.rec) && Wrote(h0, h, st.rec, plan.RecordBytes(st.record))
    && Publishes(h0, h) == |st.record.entries|
    && forall k | 0 <= k < |st.kept| :: RetainedAt(h0, st.kept[k], k)
  }

  /** Steps that neither publish nor make an owned entry. */
  ghost predicate Aside(h1: History, h2: History) {
    && Extends(h1, h2)
    && Publishes(h1, h2) == 0 && RecordOf(h1, h2).None?
    && MadeAt(h1, h2, ROOT_PATH).None? && MadeAt(h1, h2, SOURCES_PATH).None?
  }

  lemma {:induction false} TiedAside(h0: History, h1: History, h2: History, st: State, plan: Plan)
    requires Tied(h0, h1, st, plan) && Extends(h0, h1) && Aside(h1, h2)
    ensures Tied(h0, h2, st, plan)
  {
    PublishesSplit(h0, h1, h2);
    RecordSplit(h0, h1, h2);
    MadeSplit(h0, h1, h2, ROOT_PATH);
    MadeSplit(h0, h1, h2, SOURCES_PATH);
    WroteLater(h0, h1, h2, st.rec, plan.RecordBytes(st.record));
  }

  lemma {:induction false} QuietAside(h1: History, h2: History, paths: set<Path>)
    requires Quiet(h1, h2, paths) && paths !! STORAGE_PATHS
    ensures Aside(h1, h2)
  {
    QuietExtends(h1, h2, paths);
    QuietPublishes(h1, h2, paths);
    QuietMade(h1, h2, paths, ROOT_PATH);
    QuietMade(h1, h2, paths, SOURCES_PATH);
  }

  lemma {:induction false} RemovingAside(h1: History, h2: History)
    requires Removing(h1, h2)
    ensures Aside(h1, h2)
  {
    RemovingQuiet(h1, h2);
    QuietAside(h1, h2, {});
  }

  lemma {:induction false} HookQuiet(h: History, after: Disk)
    ensures Quiet(h, Then(h, Step.Environment, after), {})
  {
    assert Quiet(h, h, {});
  }

  ghost predicate Holds(h0: History, h: History, st: State, plan: Plan, names: set<Name>) {
    && Extends(h0, h) && Tied(h0, h, st, plan) && Respectful(h0, h)
    && st.root != st.sources
    && AcceptableRecord(st.record, plan.protocol) && st.record.phase == Final
    && Listed(st, plan)
    && (forall s | s in st.kept :: Preserved(h, st.sources, s) && s.ino != st.rec && s.ino < h.disk.next)
    && (AloofSince(h0, h, st.root, st.sources) ==> OnDisk(h.disk, st, plan, names))
  }

  /** Steps that keep the record's names and the sources keep everything. */
  lemma {:induction false} PhaseKeeps(h0: History, h1: History, h2: History, st: State, plan: Plan, names: set<Name>,
                                      own: set<Ino>, into: set<Ino>)
    requires Holds(h0, h1, st, plan, names) && Aside(h1, h2) && h1.disk.next <= h2.disk.next
    requires CarefulSince(h1, h2, own, into) && own <= Created(h0, h2) && into <= {h0.disk.base} + Created(h0, h2)
    requires forall n | n in names :: NameKept(h1, h2, st.root, n, st.rec)
    requires forall s | s in st.kept :: NameKept(h1, h2, st.sources, s.name, s.ino)
    ensures Holds(h0, h2, st, plan, names)
  {
    hide Listed, AcceptableRecord, Aloof, Tied, Respectful;
    TiedAside(h0, h1, h2, st, plan);
    RespectfulThrough(h0, h1, h2, own, into);
    ExtendsTransitive(h0, h1, h2);
    forall s | s in st.kept ensures Preserved(h2, st.sources, s) {
      KeptTransitive(s.since, h1, h2, st.sources, s.name, s.ino);
    }
    if AloofSince(h0, h2, st.root, st.sources) {
      AloofSplit(h0, h1, h2, st.root, st.sources);
      OnDiskStays(h1, h2, st, plan, names);
    }
  }

  lemma {:induction false} OnDiskStays(h1: History, h2: History, st: State, plan: Plan, names: set<Name>)
    requires OnDisk(h1.disk, st, plan, names) && AloofSince(h1, h2, st.root, st.sources)
    requires forall n | n in names :: NameKept(h1, h2, st.root, n, st.rec)
    requires forall s | s in st.kept :: NameKept(h1, h2, st.sources, s.name, s.ino)
    ensures OnDisk(h2.disk, st, plan, names)
  {
    var n :| n in names && h1.disk.Entry(st.root, n) == Some(st.rec);
    AloofKept(h1, h2, st.root, st.sources, st.root, n, st.rec);
    forall s | s in st.kept
      ensures h2.disk.Entry(st.sources, s.name) == Some(s.ino) && h2.disk.Content(s.ino) == Some(s.raw)
    {
      AloofKept(h1, h2, st.root, st.sources, st.sources, s.name, s.ino);
    }
  }

  /** In particular, steps confined to inodes the state does not track. */
  lemma {:induction false} ConfinedPhase(h0: History, h1: History, h2: History, st: State, plan: Plan, names: set<Name>,
                      own: set<Ino>, into: set<Ino>)
    requires Holds(h0, h1, st, plan, names) && CodeConfined(h1, h2, own, into) && h1.disk.next <= h2.disk.next
    requires Aside(h1, h2) && own <= Created(h0, h2) && into <= {h0.disk.base} + Created(h0, h2)
    requires st.rec !in own && forall s | s in st.kept :: s.ino !in own
    ensures Holds(h0, h2, st, plan, names)
  {
    hide Holds;
    ConfinedExtends(h1, h2, own, into);
    ConfinedCareful(h1, h2, own, into);
    forall n | n in names ensures NameKept(h1, h2, st.root, n, st.rec) {
      ConfinedKept(h1, h2, own, into, st.root, n, st.rec);
    }
    forall s | s in st.kept ensures NameKept(h1, h2, st.sources, s.name, s.ino) {
      ConfinedKept(h1, h2, own, into, st.sources, s.name, s.ino);
    }
    PhaseKeeps(h0, h1, h2, st, plan, names, own, into);
  }

  /** What the state tracks was created by the program. */
  lemma {:induction false} TrackedCreated(h0: History, h: History, st: State, plan: Plan, names: set<Name>)
    requires Holds(h0, h, st, plan, names)
    ensures {st.root, st.sources, st.rec} <= Created(h0, h) && Extends(h0, h)
  {
    MadeCreated(h0, h, ROOT_PATH);
    MadeCreated(h0, h, SOURCES_PATH);
    RecordCreated(h0, h);
  }

  // -------------------------------------------------------------------------
  // The record write, seen from the collection
  // -------------------------------------------------------------------------

  /** An aloof environment spares the records of the transaction. */
  lemma {:induction false} AloofSpares(h0: History, h: History, tx: Tx, sources: Ino)
    requires AloofSince(h0, h, tx.root, sources)
    ensures Spared(h0, h, tx)
  {
    if h != h0 {
      AloofSpares(h0, h.prev, tx, sources);
      if h.step == Step.Environment { AloofStepSpares(h.prev.disk, h.disk, tx, sources); }
    }
  }

  lemma AloofStepSpares(before: Disk, after: Disk, tx: Tx, sources: Ino)
    requires Aloof(before, after, tx.root, sources)
    ensures tx.Spares(before, after)
  {}

  /** Until the publish the prior record keeps its bytes as well as a name. */
  lemma {:induction false} PriorIntact(h0: History, h: History, tx: Tx, sources: Ino)
    requires AloofSince(h0, h, tx.root, sources) && Unedited(h0, h, tx.prior) && PriorHeldUntilPublish(h0, h, tx)
    requires !Performed(h0, h, tx.Publish()) && h0.disk.Content(tx.prior).Some?
    ensures tx.PriorLinked(h.disk) && h.disk.Content(tx.prior) == h0.disk.Content(tx.prior)
  {
    if h != h0 { PriorIntact(h0, h.prev, tx, sources); }
  }

  /** One more retained source and its entry. */
  function Grown(st: State, record: CollectionRecord, rec: Ino, s: Source): State {
    st.(record := record, rec := rec, kept := st.kept + [s])
  }

  /** What is published is tied to the history in turn. */
  lemma {:induction false} CommittedTied(h0: History, h1: History, h2: History, st: State, plan: Plan, tx: Tx,
                                         record: CollectionRecord, s: Source)
    requires Extends(h0, h1) && Tied(h0, h1, st, plan) && PublishedOnce(h1, h2, tx, true)
    requires |st.kept| == |st.record.entries| && |record.entries| == |st.record.entries| + 1
    requires tx.bytes == plan.RecordBytes(record) && s.since == h1 && MadeAt(h0, h1, SourcePath(s.name)) == Some(s.ino)
    requires tx.WellNamed()
    ensures Tied(h0, h2, Grown(st, record, tx.draft, s), plan)
  {
    PublishesSplit(h0, h1, h2);
    RecordSplit(h0, h1, h2);
    TempApart(tx);
    MadeSplit(h0, h1, h2, ROOT_PATH);
    MadeSplit(h0, h1, h2, SOURCES_PATH);
    WroteLater(h0, h1, h2, tx.draft, tx.bytes);
    assert RetainedAt(h0, s, |st.kept|);
  }

  lemma TempApart(tx: Tx)
    requires tx.WellNamed()
    ensures tx.TempPath() !in STORAGE_PATHS
  {
    PrivateNames(tx, 0);
    assert ROOT_PATH.parent == Base && tx.TempPath().parent == ROOT_PATH;
  }

  lemma FailedAside(h1: History, h2: History, tx: Tx)
    requires PublishedOnce(h1, h2, tx, false) && tx.WellNamed()
    ensures Aside(h1, h2)
  {
    TempApart(tx);
  }

  /** The write touches the record it tracks and the draft it creates. */
  lemma {:induction false} WriteRespectful(h0: History, h1: History, h2: History, st: State, plan: Plan, tx: Tx,
                                           committed: bool)
    requires Holds(h0, h1, st, plan, {RECORD}) && PublishedOnce(h1, h2, tx, committed)
    requires CodeConfined(h1, h2, {tx.prior, tx.draft}, {tx.root}) && tx.root == st.root && tx.prior == st.rec
    ensures Respectful(h0, h2)
  {
    hide Tied, CodeConfined, Respectful, Holds;
    TrackedCreated(h0, h1, st, plan, {RECORD});
    HoldsRespectful(h0, h1, st, plan);
    if h2 != h1 {
      MadeCreated(h1, h2, tx.TempPath());
      CreatedSplit(h0, h1, h2);
      ConfinedCareful(h1, h2, {tx.prior, tx.draft}, {tx.root});
      RespectfulThrough(h0, h1, h2, {tx.prior, tx.draft}, {tx.root});
    }
  }

  lemma HoldsRespectful(h0: History, h: History, st: State, plan: Plan)
    requires Holds(h0, h, st, plan, {RECORD})
    ensures Respectful(h0, h)
  {}

  lemma {:induction false} SettledParts(h0: History, h: History, tx: Tx, error: Option<WriteError>, tracked: Identity)
    requires Settled(h0, h, tx, error, tracked)
    ensures var committed := error.None? || error.value.committed;
      && CodeConfined(h0, h, {tx.prior, tx.draft}, {tx.root}) && Unedited(h0, h, tx.prior)
      && PublishedOnce(h0, h, tx, committed) && (committed <==> Performed(h0, h, tx.Publish()))
      && (Protected(h0, h, tx) ==> Guarded(h0, h, tx) && (committed ==> tx.DraftAt(h.disk, RECORD)))
  {}

  /** The retained sources stay preserved through a record write. */
  lemma {:induction false} KeptThrough(h1: History, h2: History, kept: seq<Source>, sources: Ino, tx: Tx)
    requires CodeConfined(h1, h2, {tx.prior, tx.draft}, {tx.root}) && h1.disk.next <= h2.disk.next
      && tx.draft >= h1.disk.next
    requires forall k | k in kept :: Preserved(h1, sources, k) && k.ino != tx.prior && k.ino < h1.disk.next
    ensures forall k | k in kept :: Preserved(h2, sources, k) && k.ino != tx.draft && k.ino < h2.disk.next
    ensures forall k | k in kept :: NameKept(h1, h2, sources, k.name, k.ino)
  {
    hide CodeConfined, NameKept;
    forall k | k in kept ensures Preserved(h2, sources, k) && NameKept(h1, h2, sources, k.name, k.ino) {
      ConfinedKept(h1, h2, {tx.prior, tx.draft}, {tx.root}, sources, k.name, k.ino);
      KeptTransitive(k.since, h1, h2, sources, k.name, k.ino);
    }
  }

  /** And on the disk, when the environment is aloof. */
  lemma {:induction false} SourcesThrough(h1: History, h2: History, kept: seq<Source>, root: Ino, sources: Ino)
    requires AloofSince(h1, h2, root, sources)
    requires forall k | k in kept :: NameKept(h1, h2, sources, k.name, k.ino)
    requires forall k | k in kept :: h1.disk.Entry(sources, k.name) == Some(k.ino) && h1.disk.Content(k.ino) == Some(k.raw)
    ensures forall k | k in kept :: h2.disk.Entry(sources, k.name) == Some(k.ino) && h2.disk.Content(k.ino) == Some(k.raw)
  {
    hide AloofSince, NameKept;
    forall k | k in kept
      ensures h2.disk.Entry(sources, k.name) == Some(k.ino) && h2.disk.Content(k.ino) == Some(k.raw)
    {
      AloofKept(h1, h2, root, sources, sources, k.name, k.ino);
    }
  }

  /** Under an aloof environment the transaction is protected. */
  lemma {:induction false} AloofProtects(h1: History, h2: History, tx: Tx, sources: Ino)
    requires AloofSince(h1, h2, tx.root, sources)
    requires h1.disk.Entry(tx.root, RECORD) == Some(tx.prior) && h1.disk.Content(tx.prior).Some?
    ensures Protected(h1, h2, tx)
  {
    AloofSpares(h1, h2, tx, sources);
  }

  /** A committed write advances the state. */
  lemma {:induction false} CommittedWrite(h0: History, h1: History, h2: History, st: State, plan: Plan, tx: Tx,
                                          error: Option<WriteError>, tracked: Identity, record: CollectionRecord,
                                          s: Source)
    requires Holds(h0, h1, st, plan, {RECORD}) && Settled(h1, h2, tx, error, tracked)
    requires (error.None? || error.value.committed) && tx.WellNamed()
    requires tx.root == st.root && tx.prior == st.rec && tx.draft == h1.disk.next
      && tx.bytes == plan.RecordBytes(record)
    requires AcceptableRecord(record, plan.protocol) && record.phase == Final
    requires Listed(Grown(st, record, tx.draft, s), plan)
    requires s.since == h1 && s.ino < h1.disk.next && s.ino != st.rec && h1.disk.next <= h2.disk.next
    requires h1.disk.Entry(st.sources, s.name) == Some(s.ino) && h1.disk.Content(s.ino) == Some(s.raw)
    requires |record.entries| == |st.record.entries| + 1 && MadeAt(h0, h1, SourcePath(s.name)) == Some(s.ino)
    ensures Holds(h0, h2, Grown(st, record, tx.draft, s), plan, {RECORD})
  {
    hide Listed, AcceptableRecord, Aloof, AloofSince, Guarded, Settled, CodeConfined, Tied, PublishedOnce, Tx.WellNamed,
         Preserved, NameKept, Extends, Protected, Unedited, Performed, MadeAt, Plan.RecordBytes, Respectful;
    var st' := Grown(st, record, tx.draft, s);
    ListedLength(st, plan);
    SettledParts(h1, h2, tx, error, tracked);
    CommittedTied(h0, h1, h2, st, plan, tx, record, s);
    WriteRespectful(h0, h1, h2, st, plan, tx, true);
    ConfinedExtends(h1, h2, {tx.prior, tx.draft}, {tx.root});
    ExtendsTransitive(h0, h1, h2);
    PreservedNow(h1, st.sources, s);
    KeptThrough(h1, h2, st'.kept, st.sources, tx);
    if AloofSince(h0, h2, st.root, st.sources) {
      AloofSplit(h0, h1, h2, st.root, st.sources);
      AloofProtects(h1, h2, tx, st.sources);
      SourcesThrough(h1, h2, st'.kept, st.root, st.sources);
    }
  }

  lemma ListedLength(st: State, plan: Plan)
    requires Listed(st, plan)
    ensures |st.kept| == |st.record.entries|
  {}

  lemma PreservedNow(h: History, sources: Ino, s: Source)
    requires s.since == h && h.disk.Entry(sources, s.name) == Some(s.ino) && h.disk.Content(s.ino) == Some(s.raw)
    ensures Preserved(h, sources, s)
  {}

  /** A write that fails before its commit point leaves the state, though the
      record may be parked at the backup name. */
  lemma FailedWrite(h0: History, h1: History, h2: History, st: State, plan: Plan, tx: Tx, error: Option<WriteError>,
                    tracked: Identity)
    requires Holds(h0, h1, st, plan, {RECORD}) && Settled(h1, h2, tx, error, tracked)
    requires error.Some? && !error.value.committed
    requires tx.root == st.root && tx.prior == st.rec && tx.draft == h1.disk.next && h1.disk.next <= h2.disk.next
    requires tx.WellNamed()
    ensures Holds(h0, h2, st, plan, {RECORD, tx.backup})
  {
    hide Listed, AcceptableRecord, Aloof, AloofSince, Settled, CodeConfined, Tied, PublishedOnce, Tx.WellNamed,
         Preserved, NameKept, Extends, Protected, Unedited, PriorHeldUntilPublish, AlwaysHeld, Performed, Aside,
         Plan.RecordBytes, Respectful;
    SettledParts(h1, h2, tx, error, tracked);
    FailedAside(h1, h2, tx);
    TiedAside(h0, h1, h2, st, plan);
    WriteRespectful(h0, h1, h2, st, plan, tx, false);
    ConfinedExtends(h1, h2, {tx.prior, tx.draft}, {tx.root});
    ExtendsTransitive(h0, h1, h2);
    KeptThrough(h1, h2, st.kept, st.sources, tx);
    if AloofSince(h0, h2, st.root, st.sources) {
      AloofSplit(h0, h1, h2, st.root, st.sources);
      AloofProtects(h1, h2, tx, st.sources);
      PriorIntact(h1, h2, tx, st.sources);
      SourcesThrough(h1, h2, st.kept, st.root, st.sources);
    }
  }

  // -------------------------------------------------------------------------
  // The prospective record
  // -------------------------------------------------------------------------

  /** What the classifier's verdict makes of a retained source. */
  function EntryFor(plan: Plan, attempt: nat, arm: ArmName, raw: Bytes): CollectionEntry {
    CollectionEntry(if plan.classify(raw, arm) == Valid then Session else Attempt, arm,
                    SourceRelativePath(RawSourceName(attempt, arm)), plan.digest(raw))
  }

  function Prospective(st: State, plan: Plan, arm: ArmName, raw: Bytes): CollectionRecord {
    st.record.(entries := st.record.entries + [EntryFor(plan, |st.record.entries| + 1, arm, raw)])
  }

  /** Every record the loop serializes is accepted by the strict parser. */
  lemma ProspectiveAcceptable(st: State, plan: Plan, arm: ArmName, raw: Bytes)
    requires plan.WellFormed() && AcceptableRecord(st.record, plan.protocol) && st.record.phase == Final
      && Listed(st, plan)
    requires |st.record.entries| < MAX_PAID_ATTEMPTS && Sessions(st.record.entries) < TOTAL_VALID_RUNS
    requires arm == AbbaArmAt(Sessions(st.record.entries) + 1)
    ensures AcceptableRecord(Prospective(st, plan, arm, raw), plan.protocol)
  {
    hide RawSourceName, PathOk, Resolve, Chronicle;
    var entries, n := st.record.entries, |st.record.entries| + 1;
    var e := EntryFor(plan, n, arm, raw);
    SourcePathOk(n, arm);
    Extended(entries, e, Final);
    forall k | 0 <= k < |entries| ensures Resolve(entries[k].path) != Resolve(e.path) {
      SourcePathsDistinct(k + 1, entries[k].arm, n, arm);
    }
  }

  lemma ProspectiveListed(st: State, plan: Plan, arm: ArmName, s: Source, rec: Ino)
    requires Listed(st, plan) && s.name == RawSourceName(|st.kept| + 1, arm)
    requires plan.classify(s.raw, arm) != Unrepresentable
    ensures Listed(Grown(st, Prospective(st, plan, arm, s.raw), rec, s), plan)
  {
    hide RawSourceName;
    var record := Prospective(st, plan, arm, s.raw);
    var kept := st.kept + [s];
    assert forall k | 0 <= k < |st.kept| :: kept[k] == st.kept[k] && record.entries[k] == st.record.entries[k];
    assert kept[|st.kept|] == s;
  }

  // -------------------------------------------------------------------------
  // The phases of one attempt
  // -------------------------------------------------------------------------

  /** The storage object and the state name the same inodes. */
  ghost predicate Tracks(disk: Disk, storage: CollectionStorage, st: State)
    reads storage
  {
    && Owns(disk, storage)
    && storage.sourcesIdentity.ino < disk.next
    && st.root == storage.rootIdentity.ino && st.sources == storage.sourcesIdentity.ino
    && st.rec == storage.recordIdentity.ino
  }

  lemma {:induction false} NextGrows(h0: History, h: History, own: set<Ino>, into: set<Ino>)
    requires Sound(h) && h0.disk.Valid() && CodeConfined(h0, h, own, into)
    ensures h0.disk.next <= h.disk.next
  {
    SoundAdmissible(h0, h, own, into);
  }

  lemma {:induction false} UntrackedPhase(h0: History, h1: History, h2: History, st: State, plan: Plan, own: set<Ino>,
                                          into: set<Ino>, paths: set<Path>)
    requires Holds(h0, h1, st, plan, {RECORD}) && st.rec < h1.disk.next
    requires Sound(h2) && h1.disk.Valid() && CodeConfined(h1, h2, own, into)
    requires Quiet(h1, h2, paths) && paths !! STORAGE_PATHS
    requires h2 == h1 || own <= Created(h1, h2)
    requires (forall i | i in own :: i >= h1.disk.next) && into <= {st.root, st.sources}
    ensures Holds(h0, h2, st, plan, {RECORD}) && Admissible(h1.disk, h2.disk)
  {
    if h2 == h1 {
      SoundAdmissible(h1, h2, own, into);
      return;
    }
    TrackedCreated(h0, h1, st, plan, {RECORD});
    QuietExtends(h1, h2, paths);
    CreatedSplit(h0, h1, h2);
    QuietAside(h1, h2, paths);
    SoundAdmissible(h1, h2, own, into);
    ConfinedPhase(h0, h1, h2, st, plan, {RECORD}, own, into);
  }

  lemma {:induction false} HookPhase(h0: History, h: History, st: State, plan: Plan, after: Disk)
    requires Holds(h0, h, st, plan, {RECORD}) && st.rec < h.disk.next && Sound(Then(h, Step.Environment, after))
      && h.disk.Valid()
    ensures Holds(h0, Then(h, Step.Environment, after), st, plan, {RECORD})
  {
    NotYetNamed(h, ROOT_PATH, {}, {});
    ConfinedHook(h, h, {}, {}, after);
    HookQuiet(h, after);
    UntrackedPhase(h0, h, Then(h, Step.Environment, after), st, plan, {}, {}, {});
  }

  // -------------------------------------------------------------------------
  // When nothing goes wrong
  // -------------------------------------------------------------------------

  /** The attempt process, given an empty directory, leaves one session there and
      keeps to it. */
  ghost predicate Cooperative(fs: FileSystem) {
    forall n, p, d: Disk :: d.Valid() && d.DirAt(p).Some? && d.Empty(d.DirAt(p).value) ==>
      fs.runner(n, p, d).thrown.None? && Delivered(d, fs.runner(n, p, d).disk, d.DirAt(p).value)
  }

  /** The last that changed anything was the attempt process, given the empty
      directory `dir` at path `p`. */
  ghost predicate Ran(fs: FileSystem, h: History, p: Path, dir: Ino) {
    && h.Then? && h.step == Step.Environment
    && (|| (&& h.prev.disk.Valid() && h.prev.disk.DirAt(p) == Some(dir) && h.prev.disk.Empty(dir)
            && exists n :: h.disk == fs.runner(n, p, h.prev.disk).disk)
        || (h.disk == h.prev.disk && Ran(fs, h.prev, p, dir)))
  }

  lemma {:induction false} RanStill(fs: FileSystem, h1: History, h: History, p: Path, dir: Ino)
    requires Ran(fs, h1, p, dir) && Still(h1, h)
    ensures Ran(fs, h, p, dir)
  {
    if h != h1 { RanStill(fs, h1, h.prev, p, dir); }
  }

  lemma {:induction false} RanBefore(fs: FileSystem, h: History, p: Path, dir: Ino) returns (n: nat, d: Disk)
    requires Ran(fs, h, p, dir)
    ensures d.Valid() && d.DirAt(p) == Some(dir) && d.Empty(dir) && h.disk == fs.runner(n, p, d).disk
  {
    if h.prev.disk.Valid() && h.prev.disk.DirAt(p) == Some(dir) && h.prev.disk.Empty(dir)
      && exists n :: h.disk == fs.runner(n, p, h.prev.disk).disk {
      d := h.prev.disk;
      n :| h.disk == fs.runner(n, p, d).disk;
    } else {
      n, d := RanBefore(fs, h.prev, p, dir);
    }
  }

  /** Every session an attempt process leaves is one the classifier can represent. */
  ghost predicate Representable(fs: FileSystem, plan: Plan) {
    forall n, p, d: Disk, name, ino, raw, arm |
      d.Valid() && d.DirAt(p).Some? && d.Empty(d.DirAt(p).value)
      && HoldsSession(fs.runner(n, p, d).disk, d.DirAt(p).value, name, ino, raw) ::
      plan.classify(raw, arm) != Unrepresentable
  }

  function Names(kept: seq<Source>): set<Name> {
    set s | s in kept :: s.name
  }

  /** The collection's directories hold what the state says, the session directory
      `extra`, and the source names `names`. */
  ghost predicate Neatly(d: Disk, st: State, extra: set<Name>, names: set<Name>) {
    d.Valid() && Neat(d, st.root, st.sources, st.rec, extra, names)
  }

  /** The attempt's session directory holds the produced session and nothing else. */
  ghost predicate Delivery(d: Disk, st: State, session: AttemptSession, produced: Produced) {
    && d.Entry(st.root, session.dirName) == Some(session.identity.ino) && d.IsDir(session.identity.ino)
    && session.identity.kind == DirectoryKind && session.identity.ino !in {d.base, st.root, st.sources}
    && HoldsSession(d, session.identity.ino, produced.fileName, produced.identity.ino, produced.raw)
  }

  lemma NeatlyPaths(d: Disk, st: State, extra: set<Name>, names: set<Name>)
    requires Neatly(d, st, extra, names)
    ensures d.Lstat(ROOT_PATH) == Some(Identity(st.root, DirectoryKind)) && d.DirAt(ROOT_PATH) == Some(st.root)
    ensures d.Lstat(SOURCES_PATH) == Some(Identity(st.sources, DirectoryKind))
    ensures d.Lstat(RECORD_PATH) == Some(Identity(st.rec, FileKind))
    ensures d.base != st.root && d.base != st.sources && st.root < d.next && st.sources < d.next && d.base < d.next
  {
    NeatPaths(d, st.root, st.sources, st.rec, extra, names);
  }

  lemma RoomReady(d: Disk, e: Disk, st: State, names: set<Name>, session: AttemptSession)
    requires Neatly(d, st, {}, names) && Admissible(d, e)
    requires session.dirName == AttemptSessionDirName(session.attempt) && session.identity.ino >= d.next
    requires RoomMade(d, e, st.root, session.dirName, session.identity)
    ensures Neatly(e, st, {session.dirName}, names) && session.identity.ino !in {e.base, st.root, st.sources}
    ensures e.DirAt(SessionPath(session.dirName)) == Some(session.identity.ino) && e.Empty(session.identity.ino)
  {
    hide AttemptSessionDirName;
    NeatlyPaths(d, st, {}, names);
    NeatRoom(d, e, st.root, st.sources, st.rec, names, session.attempt, session.identity);
    RoomPath(d, e, st.root, session.dirName, session.identity);
    LstatDirectory(e, SessionPath(session.dirName), session.identity);
  }

  lemma DeliveredNeatly(d: Disk, e: Disk, st: State, names: set<Name>, session: AttemptSession)
    requires Neatly(d, st, {session.dirName}, names) && Admissible(d, e) && Delivered(d, e, session.identity.ino)
    requires session.identity.ino !in {d.base, st.root, st.sources} && session.identity.kind == DirectoryKind
    requires d.DirAt(SessionPath(session.dirName)) == Some(session.identity.ino) && d.Empty(session.identity.ino)
    requires d.Lstat(SessionPath(session.dirName)) == Some(session.identity)
    ensures Neatly(e, st, {session.dirName}, names) && OneSession(e, session.identity.ino)
    ensures e.Lstat(SessionPath(session.dirName)) == Some(session.identity)
    ensures e.Entry(st.root, session.dirName) == Some(session.identity.ino) && e.IsDir(session.identity.ino)
  {
    hide OneSession;
    NeatElsewhere(d, e, st.root, st.sources, st.rec, {session.dirName}, names, session.identity.ino);
    NeatlyPaths(d, st, {session.dirName}, names);
    NeatlyPaths(e, st, {session.dirName}, names);
    KindsStay(d, e, session.identity.ino);
  }

  lemma LocatedDelivery(d: Disk, st: State, names: set<Name>, session: AttemptSession, produced: Produced)
    requires Neatly(d, st, {session.dirName}, names) && OneSession(d, session.identity.ino)
    requires d.Entry(st.root, session.dirName) == Some(session.identity.ino) && d.IsDir(session.identity.ino)
    requires session.identity.kind == DirectoryKind && session.identity.ino !in {d.base, st.root, st.sources}
    requires d.Entry(session.identity.ino, produced.fileName) == Some(produced.identity.ino)
    requires d.Content(produced.identity.ino) == Some(produced.raw)
    ensures Delivery(d, st, session, produced)
  {
    var name, ino, raw :| HoldsSession(d, session.identity.ino, name, ino, raw);
  }

  // -------------------------------------------------------------------------
  // The phases of one attempt
  // -------------------------------------------------------------------------

  lemma SessionPathAside(attempt: nat)
    ensures {SessionPath(AttemptSessionDirName(attempt))} !! STORAGE_PATHS
  {
    SessionNameApart(attempt);
    assert ROOT_PATH.parent == Base && SessionPath(AttemptSessionDirName(attempt)).parent == ROOT_PATH;
  }

  lemma SourcePathAside(attempt: nat, arm: ArmName)
    ensures {SourcePath(RawSourceName(attempt, arm))} !! STORAGE_PATHS
  {
    assert SourcePath(RawSourceName(attempt, arm)).parent == SOURCES_PATH;
    assert ROOT_PATH.parent == Base && SOURCES_PATH.parent == ROOT_PATH && RECORD_PATH.parent == ROOT_PATH;
    assert SOURCES_PATH.Join? && SOURCES_PATH.parent.Join?;
  }

  /** Create the session directory. */
  method MakeRoom(fs: FileSystem, storage: CollectionStorage, plan: Plan, attempt: nat, ghost h0: History,
                  ghost st: State)
    returns (error: Option<Thrown>, session: AttemptSession)
    requires fs.Valid() && Tracks(fs.disk, storage, st) && Holds(h0, fs.history, st, plan, {RECORD})
    requires 1 <= attempt <= MAX_PAID_ATTEMPTS
    modifies fs
    ensures fs.Valid() && Tracks(fs.disk, storage, st) && Holds(h0, fs.history, st, plan, {RECORD})
    ensures old(fs.disk).next <= fs.disk.next && Aside(old(fs.history), fs.history)
    ensures error.None? ==>
      && session == AttemptSession(attempt, AttemptSessionDirName(attempt), Identity(old(fs.disk.next), DirectoryKind))
      && session.identity.ino < fs.disk.next && fs.disk.Lstat(SessionPath(session.dirName)) == Some(session.identity)
      && session.identity.ino in Created(h0, fs.history)
    ensures fs.Calm() && Neatly(old(fs.disk), st, {}, Names(st.kept)) ==>
      && error.None? && Neatly(fs.disk, st, {session.dirName}, Names(st.kept))
      && session.identity.ino !in {fs.disk.base, st.root, st.sources}
      && fs.disk.DirAt(SessionPath(session.dirName)) == Some(session.identity.ino)
      && fs.disk.Empty(session.identity.ino)
  {
    hide Holds, Disk.Valid, Sound, CodeConfined, AttemptSessionDirName, Neat, RoomMade, Noted, Quiet,
         FileSystem.Played, Aside, Reliance.Failed, HandledAt;
    ghost var h := fs.history;
    ghost var id := fs.disk.next;
    ghost var neat := fs.Calm() && Neatly(fs.disk, st, {}, Names(st.kept));
    if neat {
      NeatlyPaths(fs.disk, st, {}, Names(st.kept));
      RoomIsFree(fs.disk, st, Names(st.kept), attempt);
    }
    error, session := CreateAttemptSession(fs, storage, attempt);
    SessionPathAside(attempt);
    UntrackedPhase(h0, h, fs.history, st, plan, {id}, {st.root}, {SessionPath(AttemptSessionDirName(attempt))});
    QuietAside(h, fs.history, {SessionPath(AttemptSessionDirName(attempt))});
    if error.Some? { return; }
    NotedCreated(h0, h, fs.history, st, plan, SessionPath(session.dirName), session.identity);
    assert id < fs.disk.next by { NamedExists(fs.disk, SessionPath(session.dirName)); }
    if neat { RoomReady(h.disk, fs.disk, st, Names(st.kept), session); }
  }

  lemma {:induction false} NotedCreated(h0: History, h1: History, h2: History, st: State, plan: Plan, p: Path,
                                        id: Identity)
    requires Holds(h0, h1, st, plan, {RECORD}) && Noted(h1, h2, p, id)
    ensures id.ino in Created(h0, h2)
  {
    MadeCreated(h1, h2, p);
    CreatedSplit(h0, h1, h2);
  }

  lemma RoomIsFree(d: Disk, st: State, names: set<Name>, attempt: nat)
    requires Neatly(d, st, {}, names)
    ensures d.Entry(st.root, AttemptSessionDirName(attempt)).None?
  {
    RoomFree(d, st.root, st.sources, st.rec, names, attempt);
  }

  /** The session directory is still there, with one session in it that the process
      has just left. */
  ghost predicate Executed(fs: FileSystem, h: History, st: State, session: AttemptSession) {
    && Ran(fs, h, SessionPath(session.dirName), session.identity.ino)
    && Neatly(h.disk, st, {session.dirName}, Names(st.kept)) && OneSession(h.disk, session.identity.ino)
    && h.disk.Lstat(SessionPath(session.dirName)) == Some(session.identity)
    && h.disk.Entry(st.root, session.dirName) == Some(session.identity.ino) && h.disk.IsDir(session.identity.ino)
  }

  /** The attempt runner. */
  method Execute(fs: FileSystem, storage: CollectionStorage, plan: Plan, session: AttemptSession, ghost h0: History,
                 ghost st: State)
    returns (thrown: Option<Thrown>)
    requires fs.Valid() && Tracks(fs.disk, storage, st) && Holds(h0, fs.history, st, plan, {RECORD})
    modifies fs
    ensures fs.Valid() && Tracks(fs.disk, storage, st) && Holds(h0, fs.history, st, plan, {RECORD})
    ensures Aside(old(fs.history), fs.history) && old(fs.disk.next) <= fs.disk.next && fs.disk.base == old(fs.disk).base
    ensures
      && Cooperative(fs) && Neatly(old(fs.disk), st, {session.dirName}, Names(st.kept))
      && session.identity.ino !in {old(fs.disk).base, st.root, st.sources} && session.identity.kind == DirectoryKind
      && old(fs.disk).DirAt(SessionPath(session.dirName)) == Some(session.identity.ino)
      && old(fs.disk).Empty(session.identity.ino)
      && old(fs.disk).Lstat(SessionPath(session.dirName)) == Some(session.identity)
      ==> thrown.None? && Executed(fs, fs.history, st, session)
  {
    hide Holds, Disk.Valid, Sound, AttemptSessionDirName, Neat, OneSession, Aside, FileSystem.Played, Delivered, Ran,
         Neatly, Disk.DirAt, Disk.Empty, Disk.Lstat, Names;
    ghost var h := fs.history;
    var p := SessionPath(session.dirName);
    ghost var neat := && Cooperative(fs) && Neatly(fs.disk, st, {session.dirName}, Names(st.kept))
                      && session.identity.ino !in {fs.disk.base, st.root, st.sources}
                      && session.identity.kind == DirectoryKind && fs.disk.DirAt(p) == Some(session.identity.ino)
                      && fs.disk.Empty(session.identity.ino) && fs.disk.Lstat(p) == Some(session.identity);
    thrown := fs.Run(p);                                                // the attempt runner
    HookPhase(h0, h, st, plan, fs.disk);
    HookAside(h, fs.disk);
    AdmissibleBase(h.disk, fs.disk);
    if neat {
      RanNow(fs, fs.history, p, session.identity.ino, fs.clock - 1);
      DeliveredNeatly(h.disk, fs.disk, st, Names(st.kept), session);
    }
  }

  /** Find what the process has left. */
  method Find(fs: FileSystem, storage: CollectionStorage, plan: Plan, session: AttemptSession, ghost h0: History,
              ghost st: State)
    returns (error: Option<Thrown>, produced: Produced)
    requires fs.Valid() && Tracks(fs.disk, storage, st) && Holds(h0, fs.history, st, plan, {RECORD})
    requires session.identity.kind == DirectoryKind
    modifies fs
    ensures fs.Valid() && Tracks(fs.disk, storage, st) && Holds(h0, fs.history, st, plan, {RECORD})
    ensures Aside(old(fs.history), fs.history) && old(fs.disk.next) <= fs.disk.next
    ensures error.None? ==> produced.identity.kind == FileKind
    ensures
      && fs.Calm() && Executed(fs, old(fs.history), st, session)
      && session.dirName == AttemptSessionDirName(session.attempt)
      && session.identity.ino !in {old(fs.disk).base, st.root, st.sources}
      ==>
        && error.None? && Ran(fs, fs.history, SessionPath(session.dirName), session.identity.ino)
        && Neatly(fs.disk, st, {session.dirName}, Names(st.kept)) && Delivery(fs.disk, st, session, produced)
  {
    hide Holds, Disk.Valid, Sound, CodeConfined, WasRead, SafeProducedName, AttemptSessionDirName, Neat, OneSession,
         Quiet, Aside, FileSystem.Played, HoldsSession, Ran, Still, Neatly, Delivery, Disk.DirAt, Names;
    ghost var h := fs.history;
    ghost var neat := && fs.Calm() && Executed(fs, h, st, session)
                      && session.dirName == AttemptSessionDirName(session.attempt)
                      && session.identity.ino !in {fs.disk.base, st.root, st.sources};
    if neat { NeatlyPaths(fs.disk, st, {session.dirName}, Names(st.kept)); }
    error, produced := LocateProducedSession(fs, storage, session);
    UntrackedPhase(h0, h, fs.history, st, plan, {}, {}, {});
    QuietAside(h, fs.history, {});
    AdmissibleBase(h.disk, fs.disk);
    if neat {
      RanStill(fs, h, fs.history, SessionPath(session.dirName), session.identity.ino);
      LocatedDelivery(fs.disk, st, Names(st.kept), session, produced);
    }
  }

  /** Create the session directory, run the process, find what it produced. */
  method Produce(fs: FileSystem, storage: CollectionStorage, plan: Plan, attempt: nat, ghost h0: History,
                 ghost st: State)
    returns (error: Option<Thrown>, started: bool, session: AttemptSession, produced: Produced)
    requires fs.Valid() && Tracks(fs.disk, storage, st) && Holds(h0, fs.history, st, plan, {RECORD})
    requires 1 <= attempt <= MAX_PAID_ATTEMPTS
    modifies fs
    ensures fs.Valid() && Tracks(fs.disk, storage, st) && Holds(h0, fs.history, st, plan, {RECORD})
    ensures Extends(old(fs.history), fs.history)
    ensures error.None? ==> session.identity.ino in Created(h0, fs.history)
    ensures error.None? ==>
      && session == AttemptSession(attempt, AttemptSessionDirName(attempt), Identity(old(fs.disk.next), DirectoryKind))
      && started && session.identity.ino < fs.disk.next && produced.identity.kind == FileKind
    ensures fs.Calm() && Cooperative(fs) && Neatly(old(fs.disk), st, {}, Names(st.kept)) ==>
      && session.dirName == AttemptSessionDirName(attempt)
      && fs.disk.Entry(st.root, session.dirName) == Some(session.identity.ino)
      && Ran(fs, fs.history, SessionPath(session.dirName), session.identity.ino)
      && if plan.started(attempt) then
           && error.None? && Neatly(fs.disk, st, {session.dirName}, Names(st.kept))
           && Delivery(fs.disk, st, session, produced)
         else error == Some(Coded(ATTEMPT_START_FAILED))
  {
    hide Holds, Disk.Valid, Sound, AttemptSessionDirName, Aside, FileSystem.Played, Ran, Neatly, Delivery, Created,
         Disk.DirAt, Disk.Empty, Extends, Names, Cooperative, Executed, Tracks, Disk.Lstat;
    ghost var start := fs.history;
    ghost var neat := fs.Calm() && Cooperative(fs) && Neatly(fs.disk, st, {}, Names(st.kept));
    started, produced := false, Produced("", [], Identity(0, OtherKind));
    error, session := MakeRoom(fs, storage, plan, attempt, h0, st);
    ghost var h := fs.history;
    AsideExtends(start, h);
    if error.Some? { return; }
    var thrown := Execute(fs, storage, plan, session, h0, st);
    ghost var h1 := fs.history;
    AsideExtends(h, h1);
    ExtendsTransitive(start, h, h1);
    CreatedLater(h0, h, h1, st, plan, session.identity.ino);
    if neat { ExecutedFacts(fs, h1, st, session); }
    if thrown.Some? { return thrown, started, session, produced; }
    if !plan.started(attempt) { return Some(Coded(ATTEMPT_START_FAILED)), started, session, produced; }
    started := true;
    error, produced := Find(fs, storage, plan, session, h0, st);
    AsideExtends(h1, fs.history);
    ExtendsTransitive(start, h1, fs.history);
    CreatedLater(h0, h1, fs.history, st, plan, session.identity.ino);
    if neat { DeliveryNamed(fs.disk, st, session, produced); }
  }

  lemma {:induction false} ExecutedFacts(fs: FileSystem, h: History, st: State, session: AttemptSession)
    requires Executed(fs, h, st, session)
    ensures Ran(fs, h, SessionPath(session.dirName), session.identity.ino)
    ensures h.disk.Entry(st.root, session.dirName) == Some(session.identity.ino)
  {
    hide Ran;
  }

  lemma DeliveryNamed(d: Disk, st: State, session: AttemptSession, produced: Produced)
    requires Delivery(d, st, session, produced)
    ensures d.Entry(st.root, session.dirName) == Some(session.identity.ino)
  {
    hide HoldsSession;
  }

  lemma {:induction false} RanNow(fs: FileSystem, h: History, p: Path, dir: Ino, n: nat)
    requires h.Then? && h.step == Step.Environment && h.disk == fs.runner(n, p, h.prev.disk).disk
    requires h.prev.disk.Valid() && h.prev.disk.DirAt(p) == Some(dir) && h.prev.disk.Empty(dir)
    ensures Ran(fs, h, p, dir)
  {}

  lemma HookAside(h: History, after: Disk)
    ensures Aside(h, Then(h, Step.Environment, after))
  {
    HookQuiet(h, after);
    QuietAside(h, Then(h, Step.Environment, after), {});
  }

  lemma {:induction false} AsideExtends(h1: History, h2: History)
    requires Aside(h1, h2)
    ensures Extends(h1, h2)
  {}

  lemma NamedExists(d: Disk, p: Path)
    requires d.Valid() && d.Lstat(p).Some?
    ensures d.Lstat(p).value.ino < d.next
  {
    LookupValid(d, p);
  }

  /** Remove the retained source of an entry that was not committed. */
  method RevertSource(fs: FileSystem, storage: CollectionStorage, attempt: nat, arm: ArmName, retained: Retained,
                      ghost h0: History, ghost st: State, ghost plan: Plan, ghost names: set<Name>)
    requires fs.Valid() && Tracks(fs.disk, storage, st) && Holds(h0, fs.history, st, plan, names) && attempt < 100
    requires retained.identity.ino != st.rec && forall s | s in st.kept :: s.ino != retained.identity.ino
    requires retained.identity.ino in Created(h0, fs.history)
    modifies fs
    ensures fs.Valid() && Holds(h0, fs.history, st, plan, names) && Extends(old(fs.history), fs.history)
  {
    hide Holds, Disk.Valid, Sound, CodeConfined, Aside, Removing;
    ghost var h := fs.history;
    var _, _ := RemoveOwnedRetainedSource(fs, storage, attempt, arm, retained);
    NextGrows(h, fs.history, {retained.identity.ino}, {});
    RemovingAside(h, fs.history);
    AsideExtends(h, fs.history);
    TrackedCreated(h0, h, st, plan, names);
    CreatedSplit(h0, h, fs.history);
    ConfinedPhase(h0, h, fs.history, st, plan, names, {retained.identity.ino}, {});
  }

  lemma {:induction false} SettledFacts(h0: History, h: History, tx: Tx, error: Option<WriteError>, tracked: Identity)
    requires Settled(h0, h, tx, error, tracked) && Sound(h) && h0.disk.Valid() && h.disk.Valid()
    ensures tracked == Identity(if error.None? || error.value.committed then tx.draft else tx.prior, FileKind)
    ensures Admissible(h0.disk, h.disk) && Extends(h0, h)
    ensures error.None? ==> tx.draft < h.disk.next && h.disk.IsFile(tx.draft)
  {
    SoundAdmissible(h0, h, {tx.prior, tx.draft}, {tx.root});
  }

  /** Serialize the record, have the strict parser accept it, and write it. */
  method WriteRecord(fs: FileSystem, storage: CollectionStorage, plan: Plan, record: CollectionRecord, attempt: nat)
    returns (error: Option<WriteError>, ghost tx: Tx)
    requires fs.Valid() && Owns(fs.disk, storage) && plan.WellFormed()
    modifies fs, storage`recordIdentity
    ensures fs.Valid()
    ensures tx == Tx(storage.rootIdentity.ino, old(storage.recordIdentity.ino), old(fs.disk.next), plan.RecordBytes(record),
                     plan.temp(attempt), plan.backup(attempt)) && tx.WellNamed()
    ensures Settled(old(fs.history), fs.history, tx, error, storage.recordIdentity)
    ensures !AcceptableRecord(record, plan.protocol) ==> error == Some(WriteError(RECORD_INVALID, false))
    ensures storage.recordIdentity ==
              Identity(if error.None? || error.value.committed then tx.draft else tx.prior, FileKind)
    ensures Admissible(old(fs.disk), fs.disk) && Extends(old(fs.history), fs.history)
    ensures error.None? ==> tx.draft < fs.disk.next && fs.disk.IsFile(tx.draft)
    ensures AcceptableRecord(record, plan.protocol) && fs.Calm() && Ready(old(fs.history), old(fs.history), tx, Started) ==>
      && error.None? && tx.Framed(old(fs.disk), fs.disk) && SoleName(fs.disk, tx)
      && fs.disk.Entry(tx.root, tx.backup) != Some(tx.prior)
  {
    hide Disk.Valid, Sound, Settled, Protected, Private, Ready, AcceptableRecord, RecordToJson, Tx.Framed, SoleName,
         RolledBack, FileSystem.Played, Admissible;
    ghost var h := fs.history;
    var parsed := ParseCollectionRecord(RecordToJson(record), plan.protocol);
    if parsed.Success? { RecordToJsonInjective(record, parsed.value); }
    NamedApart(plan, attempt);
    error, tx := WriteCollectionRecord(fs, storage, parsed.Success?, plan.RecordBytes(record),
                                       plan.temp(attempt), plan.backup(attempt));
    SettledFacts(h, fs.history, tx, error, storage.recordIdentity);
  }

  lemma NamedApart(plan: Plan, attempt: nat)
    requires plan.WellFormed()
    ensures Tx(0, 0, 0, [], plan.temp(attempt), plan.backup(attempt)).WellNamed()
  {}

  /** Nothing changes but names in `root`, where `name` stays, and new inodes. */
  ghost predicate SameBut(before: Disk, after: Disk, root: Ino, name: Name) {
    && after.base == before.base
    && (forall x, n | x != root || n == name :: after.Entry(x, n) == before.Entry(x, n))
    && (forall i | i in before.nodes :: after.Content(i) == before.Content(i) && after.IsDir(i) == before.IsDir(i))
  }

  /** Publish the prospective record; before the commit point revert to the
      record that was, after it keep what was published. */
  method Commit(fs: FileSystem, storage: CollectionStorage, plan: Plan, record: CollectionRecord, attempt: nat,
                arm: ArmName, raw: Bytes, retained: Retained, ghost h0: History, ghost st: State)
    returns (error: Option<Thrown>, record': CollectionRecord, ghost st': State, ghost names: set<Name>)
    requires fs.Valid() && plan.WellFormed() && Tracks(fs.disk, storage, st)
      && Holds(h0, fs.history, st, plan, {RECORD})
    requires record == st.record && attempt == |st.record.entries| + 1 <= MAX_PAID_ATTEMPTS
    requires Sessions(record.entries) < TOTAL_VALID_RUNS && arm == AbbaArmAt(Sessions(record.entries) + 1)
    requires plan.classify(raw, arm) != Unrepresentable
    requires retained.sourceName == RawSourceName(attempt, arm)
    requires SourceKept(fs.disk, st.sources, retained.sourceName, retained.identity.ino, raw)
    requires MadeAt(h0, fs.history, SourcePath(retained.sourceName)) == Some(retained.identity.ino)
    requires retained.identity.ino < fs.disk.next
    requires retained.identity.ino != st.rec && forall s | s in st.kept :: s.ino != retained.identity.ino
    modifies fs, storage`recordIdentity
    ensures fs.Valid() && Holds(h0, fs.history, st', plan, names) && record' == st'.record
    ensures error.None? ==> Tracks(fs.disk, storage, st') && names == {RECORD} && st'.rec == old(fs.disk.next)
    ensures error.None? ==> st'.record == Prospective(st, plan, arm, raw)
    // The record advances exactly when the program has published.
    ensures Extends(old(fs.history), fs.history)
    ensures if Publishes(old(fs.history), fs.history) == 0 then st' == st && error.Some?
            else st'.record == Prospective(st, plan, arm, raw) && Publishes(old(fs.history), fs.history) == 1
    ensures {RECORD} <= names <= {RECORD, plan.backup(attempt)} && (st'.record != st.record ==> names == {RECORD})
    ensures st'.root == st.root && st'.sources == st.sources
    ensures fs.Calm() && Neatly(old(fs.disk), st, {AttemptSessionDirName(attempt)}, Names(st.kept) + {retained.sourceName}) ==>
      && error.None? && Neatly(fs.disk, st', {AttemptSessionDirName(attempt)}, Names(st'.kept))
      && SameBut(old(fs.disk), fs.disk, st.root, AttemptSessionDirName(attempt))
  {
    hide Holds, Disk.Valid, Sound, Settled, Ready, Chronicle, RecordToJson, Listed, Chronological, Tx.Framed, SoleName,
         AttemptSessionDirName, RawSourceName, Neat, FileSystem.Played, Plan.WellFormed, AcceptableRecord, Admissible;
    ghost var h := fs.history;
    ghost var s := Source(retained.sourceName, retained.identity.ino, raw, h);
    ghost var extra, kept := {AttemptSessionDirName(attempt)}, Names(st.kept) + {retained.sourceName};
    ghost var neat := fs.Calm() && Neatly(fs.disk, st, extra, kept);
    var prospective := record.(entries := record.entries + [EntryFor(plan, attempt, arm, raw)]);
    HoldsRecord(h0, h, st, plan);
    ProspectiveAcceptable(st, plan, arm, raw);
    ProspectiveListed(st, plan, arm, s, h.disk.next);
    ghost var wanted := Tx(st.root, st.rec, fs.disk.next, plan.RecordBytes(prospective), plan.temp(attempt),
                           plan.backup(attempt));
    NamedApart(plan, attempt);
    if neat { NeatlyReady(h, wanted, st, kept, attempt); }
    var failure;
    ghost var tx;
    failure, tx := WriteRecord(fs, storage, plan, prospective, attempt);
    SettledPublishes(h, fs.history, tx, failure, storage.recordIdentity);
    AdmissibleBase(h.disk, fs.disk);
    if failure.Some? && !failure.value.committed {
      FailedWrite(h0, h, fs.history, st, plan, tx, failure, storage.recordIdentity);
      record', st', names := record, st, {RECORD, tx.backup};
      error := Some(Coded(failure.value.code));
      ghost var h2 := fs.history;
      RetainedCreated(h0, h, h2, st, plan, retained);
      RevertSource(fs, storage, attempt, arm, retained, h0, st, plan, names);
      ExtendsTransitive(h, h2, fs.history);
      SamePublishes(h0, h, fs.history, st, plan, names);
    } else {
      CommittedWrite(h0, h, fs.history, st, plan, tx, failure, storage.recordIdentity, prospective, s);
      record', st', names := prospective, Grown(st, prospective, tx.draft, s), {RECORD};
      error := if failure.Some? then Some(Coded(failure.value.code)) else None;
      if neat { NeatlyCommitted(h.disk, fs.disk, tx, st, st', kept, attempt, s); }
    }
  }

  lemma {:induction false} RetainedCreated(h0: History, h: History, h2: History, st: State, plan: Plan,
                                           retained: Retained)
    requires Holds(h0, h, st, plan, {RECORD}) && Extends(h, h2)
    requires MadeAt(h0, h, SourcePath(retained.sourceName)) == Some(retained.identity.ino)
    ensures retained.identity.ino in Created(h0, h2)
  {
    MadeCreated(h0, h, SourcePath(retained.sourceName));
    CreatedSplit(h0, h, h2);
  }

  lemma NeatlyReady(h: History, tx: Tx, st: State, names: set<Name>, attempt: nat)
    requires Neatly(h.disk, st, {AttemptSessionDirName(attempt)}, names)
    requires tx.root == st.root && tx.prior == st.rec && tx.WellNamed()
    ensures Ready(h, h, tx, Started)
  {
    NeatReady(h, tx, st.sources, names, attempt);
  }

  lemma NeatlyCommitted(d: Disk, e: Disk, tx: Tx, st: State, st': State, names: set<Name>, attempt: nat, s: Source)
    requires Neatly(d, st, {AttemptSessionDirName(attempt)}, names) && names == Names(st.kept) + {s.name}
    requires e.Valid() && Admissible(d, e) && tx.root == st.root && tx.prior == st.rec && tx.WellNamed()
      && tx.draft >= d.next
    requires tx.Framed(d, e) && SoleName(e, tx) && e.Entry(tx.root, tx.backup) != Some(tx.prior) && e.IsFile(tx.draft)
    requires st'.root == st.root && st'.sources == st.sources && st'.rec == tx.draft && st'.kept == st.kept + [s]
    ensures Neatly(e, st', {AttemptSessionDirName(attempt)}, Names(st'.kept))
    ensures SameBut(d, e, st.root, AttemptSessionDirName(attempt))
  {
    hide AttemptSessionDirName, Neat, SoleName, Admissible;
    NeatRecord(d, e, tx, st.sources, names, attempt);
    assert Names(st'.kept) == names by {
      forall k | k in st'.kept ensures k in st.kept || k == s {}
      assert s in st'.kept && forall k | k in st.kept :: k in st'.kept;
    }
    forall i | i in d.nodes ensures e.Content(i) == d.Content(i) && e.IsDir(i) == d.IsDir(i) { KindsStay(d, e, i); }
    AdmissibleBase(d, e);
  }

  lemma {:induction false} SettledPublishes(h: History, h2: History, tx: Tx, error: Option<WriteError>,
                                            tracked: Identity)
    requires Settled(h, h2, tx, error, tracked)
    ensures Publishes(h, h2) == if error.None? || error.value.committed then 1 else 0
  {}

  /** Nothing was published between two moments with the same state. */
  lemma {:induction false} SamePublishes(h0: History, h1: History, h2: History, st: State, plan: Plan, names: set<Name>)
    requires Holds(h0, h1, st, plan, {RECORD}) && Holds(h0, h2, st, plan, names) && Extends(h1, h2)
    ensures Publishes(h1, h2) == 0
  {
    PublishesSplit(h0, h1, h2);
  }

  lemma HoldsRecord(h0: History, h: History, st: State, plan: Plan)
    requires Holds(h0, h, st, plan, {RECORD})
    ensures AcceptableRecord(st.record, plan.protocol) && st.record.phase == Final && Listed(st, plan)
  {}

  /** After the commit: the hook, and the removal of the session. */
  method CleanUp(fs: FileSystem, storage: CollectionStorage, session: AttemptSession, produced: Produced,
                 ghost h0: History, ghost st: State, ghost plan: Plan)
    returns (error: Option<Thrown>)
    requires fs.Valid() && Tracks(fs.disk, storage, st) && Holds(h0, fs.history, st, plan, {RECORD})
    requires session.identity.kind == DirectoryKind && session.identity.ino !in {st.root, st.sources, st.rec}
    requires produced.identity.kind == FileKind && session.dirName == AttemptSessionDirName(session.attempt)
    requires session.identity.ino in Created(h0, fs.history)
    modifies fs
    ensures fs.Valid() && Tracks(fs.disk, storage, st) && Holds(h0, fs.history, st, plan, {RECORD})
    ensures Aside(old(fs.history), fs.history)
    ensures
      && fs.Calm() && Neatly(old(fs.disk), st, {session.dirName}, Names(st.kept))
      && Delivery(old(fs.disk), st, session, produced)
      ==> error.None? && Neatly(fs.disk, st, {}, Names(st.kept))
  {
    hide Holds, Disk.Valid, Sound, CodeConfined, NameKept, Removal, SafeProducedName, AttemptSessionDirName, Neat,
         Aside, Quiet, Removing, FileSystem.Played, HoldsSession;
    ghost var h, start := fs.history, fs.history;
    ghost var neat := fs.Calm() && Neatly(fs.disk, st, {session.dirName}, Names(st.kept))
      && Delivery(fs.disk, st, session, produced);
    error := fs.Hook();                                                 // afterEntryCommit
    HookPhase(h0, h, st, plan, fs.disk);
    HookAside(h, fs.disk);
    if error.Some? { return; }
    h := fs.history;
    if neat {
      NeatlyPaths(fs.disk, st, {session.dirName}, Names(st.kept));
      DeliveryPaths(fs.disk, st, session, produced);
    }
    var removedFile, removedDir;
    error, removedFile, removedDir := RemoveOwnedAttemptSession(fs, storage, session, produced);
    RemovingAside(h, fs.history);
    CreatedLater(h0, start, h, st, plan, session.identity.ino);
    SessionGone(h0, h, fs.history, st, plan, session.identity.ino);
    AsideTransitive(start, h, fs.history);
    if neat { NeatlyRemoved(h.disk, fs.disk, st, Names(st.kept), session, produced); }
  }

  lemma DeliveryPaths(d: Disk, st: State, session: AttemptSession, produced: Produced)
    requires Delivery(d, st, session, produced) && d.DirAt(ROOT_PATH) == Some(st.root)
      && produced.identity.kind == FileKind
    ensures d.Lstat(SessionPath(session.dirName)) == Some(session.identity) && SafeProducedName(produced.fileName)
    ensures d.Lstat(Join(SessionPath(session.dirName), produced.fileName)) == Some(produced.identity)
    ensures d.nodes[session.identity.ino].entries.Keys == {produced.fileName}
  {
    hide SafeProducedName;
    OnlyEntry(d, session.identity.ino, produced.fileName, produced.identity.ino, produced.raw);
    LstatDirectory(d, SessionPath(session.dirName), session.identity);
  }

  lemma NeatlyRemoved(d: Disk, e: Disk, st: State, names: set<Name>, session: AttemptSession, produced: Produced)
    requires Neatly(d, st, {session.dirName}, names) && session.identity.ino !in {d.base, st.root, st.sources}
      && e.Valid()
    requires Removal(d, e, st.root, session, produced, true, true)
    requires session.dirName == AttemptSessionDirName(session.attempt)
    ensures Neatly(e, st, {}, names)
  {
    hide AttemptSessionDirName, Removal, Neat;
    SessionNameApart(session.attempt);
    NeatlyPaths(d, st, {session.dirName}, names);
    NeatRemoval(d, e, st.root, st.sources, st.rec, names, session, produced);
  }

  lemma AsideTransitive(h0: History, h1: History, h2: History)
    requires Aside(h0, h1) && Aside(h1, h2)
    ensures Aside(h0, h2)
  {
    ExtendsTransitive(h0, h1, h2);
    PublishesSplit(h0, h1, h2);
    RecordSplit(h0, h1, h2);
    MadeSplit(h0, h1, h2, ROOT_PATH);
    MadeSplit(h0, h1, h2, SOURCES_PATH);
  }

  lemma {:induction false} SessionGone(h0: History, h1: History, h2: History, st: State, plan: Plan, session: Ino)
    requires Holds(h0, h1, st, plan, {RECORD}) && session !in {st.root, st.sources, st.rec}
    requires forall d, n, i :: d != session && !(d == st.root && i == session) ==> NameKept(h1, h2, d, n, i)
    requires h1.disk.next == h2.disk.next && Aside(h1, h2)
    requires CarefulSince(h1, h2, {session}, {}) && session in Created(h0, h1)
    ensures Holds(h0, h2, st, plan, {RECORD})
  {
    hide NameKept, Aside, Tied, Preserved, AcceptableRecord, Listed, Aloof, AloofSince, CarefulSince, Respectful;
    CreatedLater(h0, h1, h2, st, plan, session);
    assert NameKept(h1, h2, st.root, RECORD, st.rec);
    assert st.root != st.sources;
    PhaseKeeps(h0, h1, h2, st, plan, {RECORD}, {session}, {});
  }

  lemma {:induction false} StillCreated(h0: History, h1: History, h2: History, st: State, plan: Plan, i: Ino)
    requires Holds(h0, h1, st, plan, {RECORD}) && Extends(h1, h2) && i in Created(h0, h1)
    ensures i in Created(h0, h2)
  {
    CreatedSplit(h0, h1, h2);
  }

  lemma {:induction false} CreatedLater(h0: History, h1: History, h2: History, st: State, plan: Plan, i: Ino)
    requires Holds(h0, h1, st, plan, {RECORD}) && Aside(h1, h2) && i in Created(h0, h1)
    ensures i in Created(h0, h2)
  {
    CreatedSplit(h0, h1, h2);
  }

  /** What one attempt comes to. */
  datatype Attempted = Attempted(error: Option<Thrown>, started: bool, record: CollectionRecord)

  /** The two ways an undisturbed attempt, the next after the state `st`, ends the
      collection.  Its process has run in the session directory of the attempt, and
      nothing has changed since: it did not start, or the session it left there is
      beyond the classifier. */
  ghost predicate Hopeless(fs: FileSystem, h: History, plan: Plan, st: State, error: Thrown) {
    var attempt := |st.record.entries| + 1;
    var name := AttemptSessionDirName(attempt);
    && h.disk.Entry(st.root, name).Some?
    && (var dir := h.disk.Entry(st.root, name).value;
        && Ran(fs, h, SessionPath(name), dir)
        && if plan.started(attempt) then
             && error == Coded(ATTEMPT_UNREPRESENTABLE)
             && exists file, ino, raw :: HoldsSession(h.disk, dir, file, ino, raw) && Beyond(plan, st, raw)
           else error == Coded(ATTEMPT_START_FAILED))
  }

  /** The bytes are no session for the arm whose turn it is. */
  ghost predicate Beyond(plan: Plan, st: State, raw: Bytes) {
    plan.classify(raw, AbbaArmAt(Sessions(st.record.entries) + 1)) == Unrepresentable
  }

  /** What a process has left can be represented, when everything it may leave can. */
  lemma {:induction false} RanRepresentable(fs: FileSystem, h: History, plan: Plan, st: State, p: Path, dir: Ino)
    requires Representable(fs, plan) && Ran(fs, h, p, dir)
    ensures forall file, ino, raw | HoldsSession(h.disk, dir, file, ino, raw) :: !Beyond(plan, st, raw)
  {
    hide Ran, HoldsSession, AbbaArmAt, Disk.Valid, Disk.DirAt;
    var n, d := RanBefore(fs, h, p, dir);
    forall file, ino, raw | HoldsSession(h.disk, dir, file, ino, raw) ensures !Beyond(plan, st, raw) {
      assert HoldsSession(fs.runner(n, p, d).disk, d.DirAt(p).value, file, ino, raw);
    }
  }

  lemma {:induction false} NeverHopeless(fs: FileSystem, h: History, plan: Plan, st: State, error: Thrown)
    requires (forall n | 1 <= n <= MAX_PAID_ATTEMPTS :: plan.started(n)) && Representable(fs, plan)
    requires |st.record.entries| < MAX_PAID_ATTEMPTS
    ensures !Hopeless(fs, h, plan, st, error)
  {
    hide Ran, HoldsSession, Beyond, Representable, AttemptSessionDirName;
    var name := AttemptSessionDirName(|st.record.entries| + 1);
    var dir := h.disk.Entry(st.root, name);
    if dir.Some? && Ran(fs, h, SessionPath(name), dir.value) {
      RanRepresentable(fs, h, plan, st, SessionPath(name), dir.value);
    }
  }

  lemma {:induction false} StartHopeless(fs: FileSystem, h: History, plan: Plan, st: State, session: AttemptSession)
    requires session.dirName == AttemptSessionDirName(|st.record.entries| + 1)
    requires h.disk.Entry(st.root, session.dirName) == Some(session.identity.ino)
    requires Ran(fs, h, SessionPath(session.dirName), session.identity.ino) && !plan.started(|st.record.entries| + 1)
    ensures Hopeless(fs, h, plan, st, Coded(ATTEMPT_START_FAILED))
  {
    hide Ran;
  }

  lemma {:induction false} SessionHopeless(fs: FileSystem, h: History, plan: Plan, st: State, session: AttemptSession,
                                           produced: Produced)
    requires session.dirName == AttemptSessionDirName(|st.record.entries| + 1)
    requires Ran(fs, h, SessionPath(session.dirName), session.identity.ino) && plan.started(|st.record.entries| + 1)
    requires Delivery(h.disk, st, session, produced) && Beyond(plan, st, produced.raw)
    ensures Hopeless(fs, h, plan, st, Coded(ATTEMPT_UNREPRESENTABLE))
  {
    hide Ran, HoldsSession;
    assert HoldsSession(h.disk, session.identity.ino, produced.fileName, produced.identity.ino, produced.raw);
  }

  /** The retained source, before its entry is written. */
  method Retain(fs: FileSystem, storage: CollectionStorage, plan: Plan, attempt: nat, arm: ArmName, raw: Bytes,
                ghost h0: History, ghost st: State, ghost extra: set<Name>)
    returns (error: Option<Thrown>, retained: Retained)
    requires fs.Valid() && Tracks(fs.disk, storage, st) && Holds(h0, fs.history, st, plan, {RECORD})
    requires attempt == |st.kept| + 1 <= MAX_PAID_ATTEMPTS
    modifies fs
    ensures fs.Valid() && Tracks(fs.disk, storage, st) && Holds(h0, fs.history, st, plan, {RECORD})
    ensures Aside(old(fs.history), fs.history)
    ensures retained == Retained(RawSourceName(attempt, arm), Identity(old(fs.disk.next), FileKind))
    ensures error.None? ==>
      && SourceKept(fs.disk, st.sources, retained.sourceName, retained.identity.ino, raw)
      && MadeAt(h0, fs.history, SourcePath(retained.sourceName)) == Some(retained.identity.ino)
      && retained.identity.ino < fs.disk.next
    ensures fs.Calm() && |raw| <= SESSION_MAX_BYTES && Neatly(old(fs.disk), st, extra, Names(st.kept)) ==>
      && error.None? && Neatly(fs.disk, st, extra, Names(st.kept) + {retained.sourceName})
      && OneMore(old(fs.disk), fs.disk, st.sources, retained.sourceName, retained.identity)
      && Admissible(old(fs.disk), fs.disk)
  {
    hide Holds, Disk.Valid, Sound, CodeConfined, RawSourceName, Neat, OneMore, Noted, Quiet, Aside, Reliance.Failed,
         HandledAt, FileSystem.Played, SourceKept, Admissible;
    ghost var h := fs.history;
    ghost var neat := fs.Calm() && |raw| <= SESSION_MAX_BYTES && Neatly(fs.disk, st, extra, Names(st.kept));
    if neat {
      NeatlyPaths(fs.disk, st, extra, Names(st.kept));
      SourceFree(h0, fs.history, st, plan, extra, attempt, arm);
    }
    error, retained := RetainRawSource(fs, storage, attempt, arm, raw);
    ghost var p := SourcePath(retained.sourceName);
    SourcePathAside(attempt, arm);
    UntrackedPhase(h0, h, fs.history, st, plan, {retained.identity.ino}, {st.sources}, {p});
    AdmissibleBase(h.disk, fs.disk);
    QuietAside(h, fs.history, {p});
    if error.Some? { return; }
    RetainedExists(fs.disk, st.sources, retained, raw);
    RetainedMade(h0, h, fs.history, p, retained.identity, st, plan);
    if neat { NeatlySource(h.disk, fs.disk, st, extra, Names(st.kept), retained); }
  }

  lemma AdmissibleBase(d: Disk, e: Disk)
    requires Admissible(d, e)
    ensures d.next <= e.next && e.base == d.base
  {}

  lemma NeatlySource(d: Disk, e: Disk, st: State, extra: set<Name>, names: set<Name>, retained: Retained)
    requires Neatly(d, st, extra, names) && Admissible(d, e)
      && OneMore(d, e, st.sources, retained.sourceName, retained.identity)
    ensures Neatly(e, st, extra, names + {retained.sourceName})
  {
    hide Neat, OneMore;
    NeatlyPaths(d, st, extra, names);
    NeatSource(d, e, st.root, st.sources, st.rec, extra, names, retained.sourceName, retained.identity);
  }

  lemma {:induction false} RetainedMade(h0: History, h: History, h2: History, p: Path, id: Identity, st: State,
                                        plan: Plan)
    requires Holds(h0, h, st, plan, {RECORD}) && Noted(h, h2, p, id)
    ensures MadeAt(h0, h2, p) == Some(id.ino)
  {
    MadeSplit(h0, h, h2, p);
  }

  /** The name of the next source has not been given out. */
  lemma SourceFree(h0: History, h: History, st: State, plan: Plan, extra: set<Name>, attempt: nat, arm: ArmName)
    requires Holds(h0, h, st, plan, {RECORD}) && Neatly(h.disk, st, extra, Names(st.kept))
    requires attempt == |st.kept| + 1 <= MAX_PAID_ATTEMPTS
    ensures h.disk.Entry(st.sources, RawSourceName(attempt, arm)).None?
  {
    hide RawSourceName, AcceptableRecord, Preserved, Aloof, Tied;
    if RawSourceName(attempt, arm) in Names(st.kept) {
      var k :| 0 <= k < |st.kept| && st.kept[k].name == RawSourceName(attempt, arm);
      NamesDistinct(k + 1, st.record.entries[k].arm, attempt, arm);
    }
  }

  /** Commit the entry of a retained source, and clean up after it. */
  method Close(fs: FileSystem, storage: CollectionStorage, plan: Plan, record: CollectionRecord, attempt: nat,
               arm: ArmName, session: AttemptSession, produced: Produced, retained: Retained, ghost h0: History,
               ghost st: State)
    returns (error: Option<Thrown>, record': CollectionRecord, ghost st': State, ghost names: set<Name>)
    requires fs.Valid() && plan.WellFormed() && Tracks(fs.disk, storage, st)
      && Holds(h0, fs.history, st, plan, {RECORD})
    requires record == st.record && attempt == |st.record.entries| + 1 <= MAX_PAID_ATTEMPTS
    requires Sessions(record.entries) < TOTAL_VALID_RUNS && arm == AbbaArmAt(Sessions(record.entries) + 1)
    requires plan.classify(produced.raw, arm) != Unrepresentable && produced.identity.kind == FileKind
    requires retained.sourceName == RawSourceName(attempt, arm)
    requires SourceKept(fs.disk, st.sources, retained.sourceName, retained.identity.ino, produced.raw)
    requires MadeAt(h0, fs.history, SourcePath(retained.sourceName)) == Some(retained.identity.ino)
    requires retained.identity.ino < fs.disk.next
    requires retained.identity.ino != st.rec && forall s | s in st.kept :: s.ino != retained.identity.ino
    requires session.identity.kind == DirectoryKind && session.identity.ino !in {st.root, st.sources}
    requires session.identity.ino < fs.disk.next && session.identity.ino in Created(h0, fs.history)
    requires session.attempt == attempt && session.dirName == AttemptSessionDirName(attempt)
    modifies fs, storage`recordIdentity
    ensures fs.Valid() && Holds(h0, fs.history, st', plan, names) && record' == st'.record
    ensures st'.root == st.root && st'.sources == st.sources
    ensures Extends(old(fs.history), fs.history)
    ensures if Publishes(old(fs.history), fs.history) == 0 then st' == st && error.Some?
            else st'.record == Prospective(st, plan, arm, produced.raw) && names == {RECORD}
                 && Publishes(old(fs.history), fs.history) == 1
    ensures error.None? ==> Tracks(fs.disk, storage, st')
    ensures {RECORD} <= names <= {RECORD, plan.backup(attempt)}
    ensures
      && fs.Calm() && Neatly(old(fs.disk), st, {session.dirName}, Names(st.kept) + {retained.sourceName})
      && Delivery(old(fs.disk), st, session, produced)
      ==> error.None? && Neatly(fs.disk, st', {}, Names(st'.kept))
  {
    hide Holds, Disk.Valid, Sound, RawSourceName, AttemptSessionDirName, SourceKept, Neat, Aside, FileSystem.Played,
         HoldsSession, Plan.WellFormed, Neatly, Delivery, Extends, Publishes, Names, Created, MadeAt, SameBut, AbbaArmAt,
         Sessions;
    ghost var start := fs.history;
    ghost var neat := && fs.Calm() && Neatly(fs.disk, st, {session.dirName}, Names(st.kept) + {retained.sourceName})
                      && Delivery(fs.disk, st, session, produced);
    ghost var d := fs.disk;
    error, record', st', names := Commit(fs, storage, plan, record, attempt, arm, produced.raw, retained, h0, st);
    if error.Some? { return; }
    ghost var h2 := fs.history;
    LongerRecord(st, plan, arm, produced.raw);
    if neat { DeliveryCommitted(d, h2.disk, st, st', session, produced); }
    StillCreated(h0, start, h2, st, plan, session.identity.ino);
    error := CleanUp(fs, storage, session, produced, h0, st', plan);
    AsideExtends(h2, fs.history);
    ExtendsTransitive(start, h2, fs.history);
    AsidePublishes(start, h2, fs.history);
  }

  lemma LongerRecord(st: State, plan: Plan, arm: ArmName, raw: Bytes)
    ensures Prospective(st, plan, arm, raw) != st.record
  {
    assert |Prospective(st, plan, arm, raw).entries| == |st.record.entries| + 1;
  }

  /** A session that can be represented is retained, committed and cleaned up after. */
  method Keep(fs: FileSystem, storage: CollectionStorage, plan: Plan, record: CollectionRecord, attempt: nat,
              arm: ArmName, session: AttemptSession, produced: Produced, ghost h0: History, ghost st: State)
    returns (error: Option<Thrown>, record': CollectionRecord, ghost st': State, ghost names: set<Name>)
    requires fs.Valid() && plan.WellFormed() && Tracks(fs.disk, storage, st)
      && Holds(h0, fs.history, st, plan, {RECORD})
    requires record == st.record && attempt == |st.record.entries| + 1 <= MAX_PAID_ATTEMPTS
    requires Sessions(record.entries) < TOTAL_VALID_RUNS && arm == AbbaArmAt(Sessions(record.entries) + 1)
    requires plan.classify(produced.raw, arm) != Unrepresentable && produced.identity.kind == FileKind
    requires session.identity.kind == DirectoryKind && session.identity.ino !in {st.root, st.sources}
    requires session.identity.ino < fs.disk.next && session.identity.ino in Created(h0, fs.history)
    requires session.attempt == attempt && session.dirName == AttemptSessionDirName(attempt)
    modifies fs, storage`recordIdentity
    ensures fs.Valid() && Holds(h0, fs.history, st', plan, names) && record' == st'.record
    ensures st'.root == st.root && st'.sources == st.sources
    ensures Extends(old(fs.history), fs.history)
    ensures if Publishes(old(fs.history), fs.history) == 0 then st' == st && error.Some?
            else st'.record == Prospective(st, plan, arm, produced.raw) && names == {RECORD}
                 && Publishes(old(fs.history), fs.history) == 1
    ensures error.None? ==> Tracks(fs.disk, storage, st')
    ensures {RECORD} <= names <= {RECORD, plan.backup(attempt)}
    ensures
      && fs.Calm() && Neatly(old(fs.disk), st, {session.dirName}, Names(st.kept))
      && Delivery(old(fs.disk), st, session, produced)
      ==> error.None? && Neatly(fs.disk, st', {}, Names(st'.kept))
  {
    hide Holds, Disk.Valid, Sound, RawSourceName, AttemptSessionDirName, Chronicle, SourceKept, Neat, OneMore, Aside,
         FileSystem.Played, HoldsSession, Plan.WellFormed, Admissible, Listed, Neatly, Delivery, Extends, Publishes,
         Names, AcceptableRecord, Created, MadeAt, Sessions, AbbaArmAt;
    ghost var start, d := fs.history, fs.disk;
    ghost var neat := && fs.Calm() && Neatly(d, st, {session.dirName}, Names(st.kept))
                      && Delivery(d, st, session, produced);
    record', st', names := record, st, {RECORD};
    HoldsInos(h0, start, st, plan);
    HoldsRecord(h0, start, st, plan);
    ListedLength(st, plan);
    if neat { DeliveryBounded(d, st, session, produced); }
    var retained;
    error, retained := Retain(fs, storage, plan, attempt, arm, produced.raw, h0, st, {session.dirName});
    ghost var h := fs.history;
    AsideExtends(start, h);
    SamePublishes(h0, start, h, st, plan, {RECORD});
    if error.Some? { return; }
    if neat { DeliveryStays(d, fs.disk, st, session, produced, retained); }
    CreatedLater(h0, start, h, st, plan, session.identity.ino);
    error, record', st', names := Close(fs, storage, plan, record, attempt, arm, session, produced, retained, h0, st);
    PublishesSplit(start, h, fs.history);
    ExtendsTransitive(start, h, fs.history);
  }

  /** One attempt: produce, classify, keep. */
  method RunAttempt(fs: FileSystem, storage: CollectionStorage, plan: Plan, record: CollectionRecord, attempt: nat,
                    validSessions: nat, ghost h0: History, ghost st: State)
    returns (r: Attempted, ghost st': State, ghost names: set<Name>)
    requires fs.Valid() && plan.WellFormed() && Tracks(fs.disk, storage, st)
      && Holds(h0, fs.history, st, plan, {RECORD})
    requires record == st.record && attempt == |st.record.entries| + 1 <= MAX_PAID_ATTEMPTS
    requires validSessions == Sessions(record.entries) < TOTAL_VALID_RUNS
    modifies fs, storage`recordIdentity
    ensures fs.Valid() && Holds(h0, fs.history, st', plan, names) && r.record == st'.record
    ensures st'.root == st.root && st'.sources == st.sources
    // The record advances, by one entry for the position's arm, exactly when the program has published.
    ensures Extends(old(fs.history), fs.history)
    ensures if Publishes(old(fs.history), fs.history) == 0 then st' == st && r.error.Some?
            else
              && Publishes(old(fs.history), fs.history) == 1 && names == {RECORD}
              && |r.record.entries| == attempt && r.record.entries[..attempt - 1] == record.entries
              && r.record.entries[attempt - 1].arm == AbbaArmAt(validSessions + 1)
    ensures r.error.None? ==> r.started && Tracks(fs.disk, storage, st')
    ensures {RECORD} <= names <= {RECORD, plan.backup(attempt)}
    ensures fs.Calm() && Cooperative(fs) && Neatly(old(fs.disk), st, {}, Names(st.kept)) ==>
      if r.error.None? then Neatly(fs.disk, st', {}, Names(st'.kept))
      else st' == st && Hopeless(fs, fs.history, plan, st, r.error.value)
  {
    hide Holds, Disk.Valid, Sound, AttemptSessionDirName, Aside, FileSystem.Played, HoldsSession, Plan.WellFormed,
         Delivered, Admissible, Neatly, Delivery, Extends, Publishes, Names, Created, Ran, Hopeless, Cooperative,
         Sessions, AbbaArmAt;
    ghost var start := fs.history;
    ghost var neat := fs.Calm() && Cooperative(fs) && Neatly(fs.disk, st, {}, Names(st.kept));
    st', names := st, {RECORD};
    var arm := AbbaArmAt(validSessions + 1);
    var error, started, session, produced := Produce(fs, storage, plan, attempt, h0, st);
    r := Attempted(error, started, record);
    ghost var h := fs.history;
    SamePublishes(h0, start, h, st, plan, {RECORD});
    if error.Some? {
      if neat { StartHopeless(fs, h, plan, st, session); }
      return;
    }
    if plan.classify(produced.raw, arm) == Unrepresentable {
      if neat { SessionHopeless(fs, h, plan, st, session, produced); }
      r := Attempted(Some(Coded(ATTEMPT_UNREPRESENTABLE)), started, record);
      return;
    }
    var record';
    error, record', st', names := Keep(fs, storage, plan, record, attempt, arm, session, produced, h0, st);
    PublishesSplit(start, h, fs.history);
    ExtendsTransitive(start, h, fs.history);
    r := Attempted(error, started, record');
  }

  lemma DeliveryBounded(d: Disk, st: State, session: AttemptSession, produced: Produced)
    requires Delivery(d, st, session, produced)
    ensures |produced.raw| <= SESSION_MAX_BYTES
  {}

  lemma DeliveryStays(d: Disk, e: Disk, st: State, session: AttemptSession, produced: Produced, retained: Retained)
    requires Delivery(d, st, session, produced) && Neatly(d, st, {session.dirName}, Names(st.kept))
    requires Admissible(d, e) && retained.identity.ino >= d.next
    requires OneMore(d, e, st.sources, retained.sourceName, retained.identity)
    ensures Delivery(e, st, session, produced)
  {
    hide SafeProducedName;
    KindsStay(d, e, session.identity.ino);
    assert produced.identity.ino in d.nodes;
  }

  lemma DeliveryCommitted(d: Disk, e: Disk, st: State, st': State, session: AttemptSession, produced: Produced)
    requires Delivery(d, st, session, produced) && d.Valid() && st'.root == st.root && st'.sources == st.sources
    requires SameBut(d, e, st.root, session.dirName)
    ensures Delivery(e, st', session, produced)
  {
    hide SafeProducedName;
    assert produced.identity.ino in d.nodes && session.identity.ino in d.nodes;
  }

  lemma {:induction false} AsidePublishes(h0: History, h1: History, h2: History)
    requires Extends(h0, h1) && Aside(h1, h2)
    ensures Publishes(h0, h2) == Publishes(h0, h1)
  {
    PublishesSplit(h0, h1, h2);
  }

  lemma HoldsInos(h0: History, h: History, st: State, plan: Plan)
    requires Holds(h0, h, st, plan, {RECORD})
    ensures forall s | s in st.kept :: s.ino < h.disk.next
  {}

  lemma RetainedExists(d: Disk, sources: Ino, retained: Retained, raw: Bytes)
    requires d.Valid() && SourceKept(d, sources, retained.sourceName, retained.identity.ino, raw)
    ensures retained.identity.ino < d.next
  {}

  // -------------------------------------------------------------------------
  // The loop
  // -------------------------------------------------------------------------

  datatype Status = Complete | AttemptsExhausted

  datatype Outcome =
    | Finished(status: Status, validCount: nat, startedAttempts: nat, record: CollectionRecord)
    | Failed(error: Thrown)

  /** Where a run stands: the committed state, and the names the record may be
      under. */
  datatype Run = Run(st: State, names: set<Name>)

  /** The initialized storage is the first committed state. */
  lemma {:induction false} StartHolds(h0: History, h: History, plan: Plan, made: Made)
    requires plan.WellFormed() && h.disk.Valid()
    requires made.WellKinded() && made.record.Some? && CodeConfined(h0, h, made.Inos(), {h0.disk.base} + made.Inos())
    requires Accounted(h0, h, made)
      && Wrote(h0, h, made.record.value.ino, plan.RecordBytes(InitialRecord(plan.protocol)))
    requires AloofTo(h0, h, made) ==>
      RecordSits(h.disk, made) && h.disk.Content(made.record.value.ino) == Some(plan.RecordBytes(InitialRecord(plan.protocol)))
    ensures var st := State(made.root.value.ino, made.sources.value.ino, InitialRecord(plan.protocol), made.record.value.ino, []);
      Holds(h0, h, st, plan, {RECORD}) && Sessions(st.record.entries) == 0
  {
    hide Disk.Valid, AcceptableRecord;
    QuietPublishes(h0, h, STORAGE_PATHS);
    StartRespectful(h0, h, made);
    assert made.Slot(ROOT_PATH) == InoOf(made.root) && made.Slot(SOURCES_PATH) == InoOf(made.sources);
    assert ROOT_PATH in STORAGE_PATHS && SOURCES_PATH in STORAGE_PATHS;
  }

  lemma {:induction false} MadeWithin(h0: History, h: History, made: Made)
    requires Accounted(h0, h, made)
    ensures made.Inos() <= Created(h0, h)
  {
    forall i | i in made.Inos() ensures i in Created(h0, h) {
      var p := if made.root.Some? && made.root.value.ino == i then ROOT_PATH
               else if made.sources.Some? && made.sources.value.ino == i then SOURCES_PATH else RECORD_PATH;
      assert made.Slot(p) == Some(i);
      MadeCreated(h0, h, p);
    }
  }

  lemma {:induction false} StartRespectful(h0: History, h: History, made: Made)
    requires Accounted(h0, h, made) && CodeConfined(h0, h, made.Inos(), {h0.disk.base} + made.Inos())
    ensures Respectful(h0, h)
  {
    MadeWithin(h0, h, made);
    ConfinedCareful(h0, h, made.Inos(), {h0.disk.base} + made.Inos());
    CarefulMono(h0, h, made.Inos(), {h0.disk.base} + made.Inos(), Created(h0, h), {h0.disk.base} + Created(h0, h));
  }

  /** A run without a committed state: nothing was published, only inodes the
      program created were touched, and, if the handler of the initialization (or
      nothing but a hook) ran undisturbed, every directory is as it was. */
  ghost predicate Unbegun(fs: FileSystem, h0: History, h: History) {
    && Publishes(h0, h) == 0
    && CodeConfined(h0, h, Created(h0, h), {h0.disk.base} + Created(h0, h))
    && (forall i | i in Created(h0, h) :: i >= h0.disk.next)
    && (h == Then(h0, Step.Environment, h.disk) || Reliance.Failed(h0, h))
    && (fs.Passive() && (h == Then(h0, Step.Environment, h.disk) || HandledReliably(fs, h0, h)) ==>
          forall x, n :: h.disk.Entry(x, n) == h0.disk.Entry(x, n))
  }

  lemma HookUnbegun(fs: FileSystem, h0: History, after: Disk)
    requires fs.Passive() ==> after == h0.disk
    ensures Unbegun(fs, h0, Then(h0, Step.Environment, after))
  {
    assert Created(h0, h0) == {} && Publishes(h0, h0) == 0;
    ConfinedHook(h0, h0, {}, {h0.disk.base}, after);
    OtherStep(h0, h0, Step.Environment, after, {});
    HookQuiet(h0, after);
    QuietPublishes(h0, Then(h0, Step.Environment, after), {});
    assert {h0.disk.base} + {} == {h0.disk.base};
  }

  /** An initialization that fails, after the first hook. */
  lemma {:induction false} FailedUnbegun(fs: FileSystem, h0: History, h1: History, h: History, made: Made)
    requires h1 == Then(h0, Step.Environment, h1.disk) && h1.disk.base == h0.disk.base && h0.disk.next <= h1.disk.next
    requires fs.Passive() ==> h1.disk == h0.disk
    requires Accounted(h1, h, made) && CodeConfined(h1, h, made.Inos(), {h1.disk.base} + made.Inos())
    requires (forall i | i in made.Inos() :: i >= h1.disk.next) && Reliance.Failed(h1, h) && h0.disk.Valid() && Sound(h)
    requires fs.Passive() && HandledReliably(fs, h1, h) ==> forall x, n :: h.disk.Entry(x, n) == h1.disk.Entry(x, n)
    ensures Unbegun(fs, h0, h)
  {
    assert Extends(h0, h1) && Working(h0, h1) && Quiet(h0, h1, {});
    FailedEarlier(h0, h1, h);
    FailedExtends(h0, h);
    CreatedNew(h0, h);
    ExtendsTransitive(h0, h1, h);
    CreatedSplit(h0, h1, h);
    QuietPublishes(h0, h1, {});
    QuietPublishes(h1, h, STORAGE_PATHS);
    PublishesSplit(h0, h1, h);
    MadeWithin(h1, h, made);
    var own := Created(h0, h);
    ConfinedMono(h1, h, made.Inos(), {h1.disk.base} + made.Inos(), own, {h0.disk.base} + own);
    assert CodeConfined(h0, h0, own, {h0.disk.base} + own);
    ConfinedHook(h0, h0, own, {h0.disk.base} + own, h1.disk);
    ConfinedTransitive(h0, h1, h, own, {h0.disk.base} + own);
  }

  /** The preflights are behind; create the storage with the initial record. */
  method Begin(fs: FileSystem, plan: Plan) returns (error: Option<Thrown>, storage: CollectionStorage?, ghost st: State)
    requires fs.Valid() && plan.WellFormed()
    modifies fs
    ensures fs.Valid()
    ensures error.None? <==> storage != null
    ensures storage == null ==> Unbegun(fs, old(fs.history), fs.history)
    ensures storage != null ==>
      && fresh(storage) && Tracks(fs.disk, storage, st) && Holds(old(fs.history), fs.history, st, plan, {RECORD})
      && st.record == InitialRecord(plan.protocol) && Sessions(st.record.entries) == 0
    ensures fs.Calm() && old(fs.disk).Entry(old(fs.disk).base, OUTPUT_ROOT).None? ==>
              storage != null && Neatly(fs.disk, st, {}, Names(st.kept))
  {
    hide Holds, Disk.Valid, Sound, CodeConfined, AloofTo, AcceptableRecord, Unbegun, Accounted, Wrote,
         Reliance.Failed, Built, FileSystem.Played, Neat, Plan.WellFormed;
    ghost var h0 := fs.history;
    st := State(0, 0, InitialRecord(plan.protocol), 0, []);
    storage := null;
    error := fs.Hook();                                                 // afterPreflights
    HookUnbegun(fs, h0, fs.disk);
    if error.Some? { return; }
    ghost var h1 := fs.history;
    ghost var made;
    error, storage, made := InitializeCollectionStorage(fs, plan.RecordBytes(InitialRecord(plan.protocol)));
    if storage == null {
      FailedUnbegun(fs, h0, h1, fs.history, made);
      return;
    }
    StartHolds(h1, fs.history, plan, made);
    st := State(storage.rootIdentity.ino, storage.sourcesIdentity.ino, InitialRecord(plan.protocol),
                storage.recordIdentity.ino, []);
    EarlierStart(h0, h1, fs.history, st, plan);
    NamedExists(fs.disk, SOURCES_PATH);
    if fs.Calm() { NeatBuilt(h1.disk, fs.disk, made); }
    assert Names(st.kept) == {};
  }

  /** The final collection.  However the environment behaves and whatever fails,
      on every exit either no record was ever published and what was created is
      taken back, or the state that `run` describes holds: it is the one the
      history shows, each of its entries names a source that no step of the
      program has since unlinked or edited, and, if the environment was aloof, the
      record and all its sources are on the disk byte for byte.  Undisturbed, the
      collection finishes, unless the attempt after that state is hopeless; none is
      when every process starts and every session can be represented. */
  method CollectFinal(fs: FileSystem, plan: Plan) returns (outcome: Outcome, ghost run: Option<Run>)
    requires fs.Valid() && plan.WellFormed()
    modifies fs
    ensures fs.Valid()
    ensures run.None? ==> outcome.Failed? && Unbegun(fs, old(fs.history), fs.history)
    ensures run.Some? ==> Holds(old(fs.history), fs.history, run.value.st, plan, run.value.names)
    ensures run.Some? ==> {RECORD} <= run.value.names <= {RECORD, plan.backup(|run.value.st.record.entries| + 1)}
    ensures outcome.Finished? ==>
      && run.Some? && run.value.names == {RECORD} && outcome.record == run.value.st.record
      && outcome.validCount == Sessions(outcome.record.entries)
      && outcome.startedAttempts == |outcome.record.entries| <= MAX_PAID_ATTEMPTS
      && if outcome.status == Complete then outcome.validCount == TOTAL_VALID_RUNS
         else outcome.validCount < TOTAL_VALID_RUNS && outcome.startedAttempts == MAX_PAID_ATTEMPTS
    ensures fs.Calm() && Cooperative(fs) && old(fs.disk).Entry(old(fs.disk).base, OUTPUT_ROOT).None? ==>
      run.Some? && (outcome.Finished? || Hopeless(fs, fs.history, plan, run.value.st, outcome.error))
    ensures
      && fs.Calm() && Cooperative(fs) && old(fs.disk).Entry(old(fs.disk).base, OUTPUT_ROOT).None?
      && (forall n | 1 <= n <= MAX_PAID_ATTEMPTS :: plan.started(n)) && Representable(fs, plan)
      ==> outcome.Finished?
  {
    hide Holds, Disk.Valid, Sound, Owns, Unbegun, Neat, Cooperative, Hopeless, FileSystem.Played, Plan.WellFormed,
         Representable, Tracks, Neatly, Extends, Publishes, AbbaArmAt, Names, Sessions;
    ghost var h0 := fs.history;
    ghost var neat := fs.Calm() && Cooperative(fs) && fs.disk.Entry(fs.disk.base, OUTPUT_ROOT).None?;
    run := None;
    var error, storage: CollectionStorage?;
    ghost var st;
    error, storage, st := Begin(fs, plan);
    if storage == null { return Failed(error.value), run; }
    var record, validSessions, startedAttempts := InitialRecord(plan.protocol), 0, 0;
    run := Some(Run(st, {RECORD}));
    for attempt := 1 to MAX_PAID_ATTEMPTS + 1
      invariant fresh(storage) && fs.Valid() && Tracks(fs.disk, storage, st)
        && Holds(h0, fs.history, st, plan, {RECORD})
      invariant record == st.record && startedAttempts == |record.entries| == attempt - 1
      invariant validSessions == Sessions(record.entries) < TOTAL_VALID_RUNS
      invariant run == Some(Run(st, {RECORD}))
      invariant neat ==> Neatly(fs.disk, st, {}, Names(st.kept))
    {
      var step;
      ghost var names;
      step, st, names := RunAttempt(fs, storage, plan, record, attempt, validSessions, h0, st);
      if step.started { startedAttempts := startedAttempts + 1; }
      if step.error.Some? {
        if neat && (forall n | 1 <= n <= MAX_PAID_ATTEMPTS :: plan.started(n)) && Representable(fs, plan) {
          NeverHopeless(fs, fs.history, plan, st, step.error.value);
        }
        return Failed(step.error.value), Some(Run(st, names));
      }
      LastEntry(record.entries, step.record.entries);
      record := step.record;
      run := Some(Run(st, {RECORD}));
      if record.entries[attempt - 1].kind.Session? { validSessions := validSessions + 1; }
      if validSessions == TOTAL_VALID_RUNS {
        return Finished(Complete, validSessions, startedAttempts, record), run;
      }
    }
    outcome := Finished(AttemptsExhausted, validSessions, startedAttempts, record);
  }

  /** The rely and the account may as well start earlier. */
  lemma EarlierStart(h0: History, h1: History, h2: History, st: State, plan: Plan)
    requires h1.Then? && h1.prev == h0 && h1.step == Step.Environment && Holds(h1, h2, st, plan, {RECORD})
      && st.kept == []
    requires h1.disk.base == h0.disk.base
    ensures Holds(h0, h2, st, plan, {RECORD})
  {
    hide Listed, AcceptableRecord, Preserved, OnDisk, Tied, Respectful;
    TiedEarlier(h0, h1, h2, st, plan);
    RespectfulEarlier(h0, h1, h2);
    assert Extends(h0, h1);
    ExtendsTransitive(h0, h1, h2);
    if AloofSince(h0, h2, st.root, st.sources) { AloofSplit(h0, h1, h2, st.root, st.sources); }
  }

  lemma {:induction false} RespectfulEarlier(h0: History, h1: History, h2: History)
    requires h1.Then? && h1.prev == h0 && h1.step == Step.Environment && Extends(h1, h2) && Respectful(h1, h2)
    requires h1.disk.base == h0.disk.base
    ensures Respectful(h0, h2)
  {
    assert Extends(h0, h1) && CarefulSince(h0, h1, {}, {});
    CreatedSplit(h0, h1, h2);
    assert Respectful(h0, h0) && Extends(h0, h0);
    var own := Created(h1, h2);
    CarefulMono(h0, h1, {}, {}, own, {h1.disk.base} + own);
    CarefulTransitive(h0, h1, h2, own, {h1.disk.base} + own);
    ExtendsTransitive(h0, h1, h2);
    assert Created(h0, h0) == {};
    RespectfulThrough(h0, h0, h2, own, {h1.disk.base} + own);
  }

  lemma {:induction false} TiedEarlier(h0: History, h1: History, h2: History, st: State, plan: Plan)
    requires h1.Then? && h1.prev == h0 && h1.step == Step.Environment && Extends(h1, h2) && Tied(h1, h2, st, plan)
      && st.kept == []
    ensures Tied(h0, h2, st, plan)
  {
    assert Extends(h0, h1) && Quiet(h0, h1, {});
    QuietPublishes(h0, h1, {});
    PublishesSplit(h0, h1, h2);
    RecordSplit(h0, h1, h2);
    MadeSplit(h0, h1, h2, ROOT_PATH);
    MadeSplit(h0, h1, h2, SOURCES_PATH);
    WroteLater(h0, h1, h2, st.rec, plan.RecordBytes(st.record));
  }

  lemma {:induction false} LastEntry(before: seq<CollectionEntry>, after: seq<CollectionEntry>)
    requires |after| == |before| + 1 && after[..|before|] == before
    ensures Sessions(after) == Sessions(before) + (if after[|before|].kind.Session? then 1 else 0)
  {
    assert after[..|after| - 1] == before;
  }
}
