/** The collection's directories while nothing disturbs it: the output root holds
    the record, the sources and at most one attempt's session directory. */
module NeatRoot {
  import opened Outcomes
  import opened FileSystem
  import opened RecordStore
  import opened Lifecycle
  import opened Interleave
  import opened Sources
  import opened AttemptSessions
  import opened Text

  /** The owned entries are in place; besides them the root holds only the names
      `extra`, and the sources directory only `names`. */
  ghost predicate Neat(d: Disk, root: Ino, sources: Ino, rec: Ino, extra: set<Name>, names: set<Name>) {
    && d.Entry(d.base, OUTPUT_ROOT) == Some(root) && d.IsDir(root) && root != sources
    && d.Entry(root, SOURCES) == Some(sources) && d.IsDir(sources)
    && d.Entry(root, RECORD) == Some(rec) && d.IsFile(rec)
    && (forall n | d.Entry(root, n).Some? :: n in {RECORD, SOURCES} + extra)
    && (forall n | d.Entry(sources, n).Some? :: n in names)
  }

  lemma NeatPaths(d: Disk, root: Ino, sources: Ino, rec: Ino, extra: set<Name>, names: set<Name>)
    requires d.Valid() && Neat(d, root, sources, rec, extra, names)
    ensures d.Lstat(ROOT_PATH) == Some(Identity(root, DirectoryKind)) && d.DirAt(ROOT_PATH) == Some(root)
    ensures d.Lstat(SOURCES_PATH) == Some(Identity(sources, DirectoryKind))
    ensures d.Lstat(RECORD_PATH) == Some(Identity(rec, FileKind))
  {
    assert d.DirAt(Base) == Some(d.base);
    LstatDirectory(d, ROOT_PATH, Identity(root, DirectoryKind));
  }

  /** What is built by the initialization. */
  lemma NeatBuilt(d0: Disk, d: Disk, made: Made)
    requires d0.Valid() && Built(d0, d, made) && made.WellKinded() && made.record.Some?
    ensures Neat(d, made.root.value.ino, made.sources.value.ino, made.record.value.ino, {}, {})
  {
    assert {made.root.value.ino, made.sources.value.ino, made.record.value.ino} <= made.Inos();
  }

  /** Kinds of existing inodes stay. */
  lemma KindsStay(d: Disk, e: Disk, i: Ino)
    requires Admissible(d, e) && i in d.nodes
    ensures e.IsDir(i) == d.IsDir(i) && e.IsFile(i) == d.IsFile(i)
  {
    assert e.KindOf(i) == d.KindOf(i);
  }

  /** The session directory of an attempt is added to the root. */
  lemma NeatRoom(d: Disk, e: Disk, root: Ino, sources: Ino, rec: Ino, names: set<Name>, attempt: nat, id: Identity)
    requires Neat(d, root, sources, rec, {}, names) && Admissible(d, e)
    requires RoomMade(d, e, root, AttemptSessionDirName(attempt), id)
    ensures Neat(e, root, sources, rec, {AttemptSessionDirName(attempt)}, names)
    ensures e.Entry(root, AttemptSessionDirName(attempt)) == Some(id.ino)
  {
    hide AttemptSessionDirName, Disk.Valid;
    SessionNameApart(attempt);
    KindsStay(d, e, root);
    KindsStay(d, e, sources);
    KindsStay(d, e, rec);
  }

  lemma RoomFree(d: Disk, root: Ino, sources: Ino, rec: Ino, names: set<Name>, attempt: nat)
    requires Neat(d, root, sources, rec, {}, names)
    ensures d.Entry(root, AttemptSessionDirName(attempt)).None?
  {
    SessionNameApart(attempt);
  }

  /** What an attempt process that keeps to its directory does: it leaves one
      session there, and nothing else anywhere. */
  ghost predicate Delivered(before: Disk, after: Disk, dir: Ino) {
    && OneSession(after, dir)
    && (forall x, n | x != dir :: after.Entry(x, n) == before.Entry(x, n))
    && (forall i | i in before.nodes :: after.Content(i) == before.Content(i))
  }

  /** Nothing that matters changes outside directory `dir`. */
  lemma NeatElsewhere(d: Disk, e: Disk, root: Ino, sources: Ino, rec: Ino, extra: set<Name>, names: set<Name>, dir: Ino)
    requires Neat(d, root, sources, rec, extra, names) && Admissible(d, e) && dir !in {d.base, root, sources}
    requires forall x, n | x != dir :: e.Entry(x, n) == d.Entry(x, n)
    ensures Neat(e, root, sources, rec, extra, names)
  {
    hide Disk.Valid;
    KindsStay(d, e, root);
    KindsStay(d, e, sources);
    KindsStay(d, e, rec);
  }

  /** One source more. */
  lemma NeatSource(d: Disk, e: Disk, root: Ino, sources: Ino, rec: Ino, extra: set<Name>, names: set<Name>, name: Name,
                   id: Identity)
    requires Neat(d, root, sources, rec, extra, names) && Admissible(d, e) && OneMore(d, e, sources, name, id)
    requires d.base != sources
    ensures Neat(e, root, sources, rec, extra, names + {name})
  {
    hide Disk.Valid;
    KindsStay(d, e, root);
    KindsStay(d, e, sources);
    KindsStay(d, e, rec);
  }

  /** Private names have a dot where the others do not. */
  lemma PrivateNames(tx: Tx, attempt: nat)
    requires tx.WellNamed()
    ensures {tx.temp, tx.backup} !! {RECORD, SOURCES, AttemptSessionDirName(attempt), OUTPUT_ROOT}
  {
    FourthLast(tx.temp, TEMP_SUFFIX);
    FourthLast(tx.backup, BACKUP_SUFFIX);
    FourthLast(SOURCES, "rces");
    assert AttemptSessionDirName(attempt) == ".attempt-" + TwoDigits(attempt) + "-ses" + "sion";
    FourthLast(AttemptSessionDirName(attempt), "sion");
  }

  lemma FourthLast(n: Name, suffix: string)
    requires EndsWith(n, suffix) && |suffix| == 4
    ensures n[|n| - 4] == suffix[0]
  {
    assert n[|n| - 4..][0] == suffix[0];
  }

  /** The transaction can start. */
  lemma NeatReady(h: History, tx: Tx, sources: Ino, names: set<Name>, attempt: nat)
    requires h.disk.Valid() && Neat(h.disk, tx.root, sources, tx.prior, {AttemptSessionDirName(attempt)}, names)
    requires tx.WellNamed()
    ensures Ready(h, h, tx, Started)
  {
    hide AttemptSessionDirName, Tx.WellNamed;
    PrivateNames(tx, attempt);
    NeatPaths(h.disk, tx.root, sources, tx.prior, {AttemptSessionDirName(attempt)}, names);
    assert h.disk.Entry(tx.root, tx.temp).None? && h.disk.Entry(tx.root, tx.backup).None?;
  }

  /** The record is replaced. */
  lemma NeatRecord(d: Disk, e: Disk, tx: Tx, sources: Ino, names: set<Name>, attempt: nat)
    requires Neat(d, tx.root, sources, tx.prior, {AttemptSessionDirName(attempt)}, names) && Admissible(d, e)
    requires tx.WellNamed() && tx.Framed(d, e) && SoleName(e, tx) && e.Entry(tx.root, tx.backup) != Some(tx.prior)
    requires e.IsFile(tx.draft)
    ensures Neat(e, tx.root, sources, tx.draft, {AttemptSessionDirName(attempt)}, names)
    ensures forall x, n | x != tx.root || n == AttemptSessionDirName(attempt) :: e.Entry(x, n) == d.Entry(x, n)
  {
    hide AttemptSessionDirName, Tx.WellNamed, Disk.Valid;
    PrivateNames(tx, attempt);
    SessionNameApart(attempt);
    KindsStay(d, e, tx.root);
    KindsStay(d, e, sources);
    assert RECORD !in {tx.temp};
    assert e.Entry(tx.root, tx.temp).None? && e.Entry(tx.root, tx.backup).None?;
  }

  /** The session directory is gone again. */
  lemma NeatRemoval(d: Disk, e: Disk, root: Ino, sources: Ino, rec: Ino, names: set<Name>, session: AttemptSession,
                    produced: Produced)
    requires Neat(d, root, sources, rec, {session.dirName}, names) && session.identity.ino !in {d.base, root, sources}
    requires Removal(d, e, root, session, produced, true, true) && session.dirName !in {OUTPUT_ROOT, RECORD, SOURCES}
    requires d.base != root && d.base != sources
    ensures Neat(e, root, sources, rec, {}, names)
  {
    var left := d.Unbind(session.identity.ino, produced.fileName);
    assert forall i :: e.KindOf(i) == left.KindOf(i) && left.KindOf(i) == d.KindOf(i);
  }
}
