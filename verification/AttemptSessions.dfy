/** The per-attempt session directories: exclusive creation, locating the one
    produced session file, and removal after the commit
    (commander-native-tool-v2-final-collect.ts). */
module AttemptSessions {
  import opened Outcomes
  import opened FileSystem
  import opened RecordStore
  import opened Lifecycle
  import opened Interleave
  import opened Text
  import opened Sources
  import opened Reliance

  datatype AttemptSession = AttemptSession(attempt: nat, dirName: Name, identity: Identity)

  datatype Produced = Produced(fileName: Name, raw: Bytes, identity: Identity)

  function SessionPath(dirName: Name): Path {
    Join(ROOT_PATH, dirName)
  }

  lemma SessionNameApart(attempt: nat)
    ensures AttemptSessionDirName(attempt) !in {OUTPUT_ROOT, SOURCES, RECORD}
  {
    assert AttemptSessionDirName(attempt)[0] == '.';
  }

  // -------------------------------------------------------------------------
  // Creation
  // -------------------------------------------------------------------------

  /** Undisturbed, the disk has just the empty session directory more. */
  ghost predicate RoomMade(d0: Disk, d: Disk, root: Ino, name: Name, id: Identity) {
    && d0.Entry(root, name).None?
    && id.kind == DirectoryKind && d.Empty(id.ino) && (forall i :: d.Content(i) == d0.Content(i))
    && (forall x, n :: d.Entry(x, n) == if x == root && n == name then Some(id.ino) else d0.Entry(x, n))
    && d.DirAt(ROOT_PATH) == Some(root) && d.Lstat(ROOT_PATH) == d0.Lstat(ROOT_PATH)
  }

  lemma {:induction false} SessionDirMade(h0: History, root: Ino, name: Name, after: Disk)
    requires h0.disk.Valid() && name != OUTPUT_ROOT && h0.disk.DirAt(ROOT_PATH) == Some(root)
    requires h0.disk.Mkdir(SessionPath(name)) == Success(after)
    ensures CodeConfined(h0, Then(h0, Step.Mkdir(SessionPath(name)), after), {h0.disk.next}, {root})
    ensures RoomMade(h0.disk, after, root, name, Identity(h0.disk.next, DirectoryKind))
    ensures Noted(h0, Then(h0, Step.Mkdir(SessionPath(name)), after), SessionPath(name), Identity(h0.disk.next, DirectoryKind))
  {
    NotedFirst(h0, Step.Mkdir(SessionPath(name)), after);
    var d := h0.disk;
    MkdirFacts(d, SessionPath(name));
    AllocateLookup(d, Dir(map[]), ROOT_PATH);
    LookupValid(d, ROOT_PATH);
    RootStays(d.Allocate(Dir(map[])), root, name, d.next);
    assert after == d.Allocate(Dir(map[])).Bind(root, name, d.next);
    ConfinedStep(h0, h0, {d.next}, {root}, Step.Mkdir(SessionPath(name)), after);
  }

  lemma RoomPath(d0: Disk, d: Disk, root: Ino, name: Name, id: Identity)
    requires RoomMade(d0, d, root, name, id)
    ensures d.Lstat(SessionPath(name)) == Some(id)
  {}

  /** Exclusive creation of the session directory of attempt `attempt`. */
  method CreateAttemptSession(fs: FileSystem, storage: CollectionStorage, attempt: int)
    returns (error: Option<Thrown>, session: AttemptSession)
    requires fs.Valid() && Owns(fs.disk, storage)
    modifies fs
    ensures fs.Valid() && fs.clock >= old(fs.clock)
    // Only the new directory is touched, and it is named only in the owned root.
    ensures CodeConfined(old(fs.history), fs.history, {old(fs.disk.next)}, {storage.rootIdentity.ino})
    ensures !(1 <= attempt <= MAX_PAID_ATTEMPTS) ==>
      error == Some(Coded(ATTEMPT_DIR_IO)) && fs.history == old(fs.history)
    ensures fs.history == old(fs.history) || old(fs.disk.next) in Created(old(fs.history), fs.history)
    ensures 1 <= attempt ==> Quiet(old(fs.history), fs.history, {SessionPath(AttemptSessionDirName(attempt))})
    ensures error.None? ==>
      && session == AttemptSession(attempt, AttemptSessionDirName(attempt), Identity(old(fs.disk.next), DirectoryKind))
      && fs.disk.Lstat(ROOT_PATH) == Some(storage.rootIdentity)
      && fs.disk.Lstat(SessionPath(session.dirName)) == Some(session.identity)
      && Noted(old(fs.history), fs.history, SessionPath(session.dirName), session.identity)
    // A failure: either nothing was done, or the handler ran and, undisturbed, took the directory away.
    ensures error.Some? ==> fs.history == old(fs.history) || Failed(old(fs.history), fs.history)
    ensures error.Some? && fs.Passive()
            && (fs.history == old(fs.history) || HandledReliably(fs, old(fs.history), fs.history)) ==>
              forall d, n :: fs.disk.Entry(d, n) == old(fs.disk).Entry(d, n)
    ensures
      && fs.Calm() && 1 <= attempt <= MAX_PAID_ATTEMPTS
      && old(fs.disk).Lstat(ROOT_PATH) == Some(storage.rootIdentity)
      && old(fs.disk).Entry(storage.rootIdentity.ino, AttemptSessionDirName(attempt)).None?
      ==> error.None? && RoomMade(old(fs.disk), fs.disk, storage.rootIdentity.ino, session.dirName, session.identity)
  {
    hide Disk.Valid, CodeConfined, RoomMade, AttemptSessionDirName, Noted, Removing, Failed, Quiet, Sound,
         FileSystem.Played;
    ghost var h0 := fs.history;
    ghost var root := storage.rootIdentity.ino;
    var id := Identity(fs.disk.next, DirectoryKind);
    session := AttemptSession(0, "", id);
    NotYetNamed(h0, ROOT_PATH, {id.ino}, {root});
    if !(1 <= attempt <= MAX_PAID_ATTEMPTS) {
      if 1 <= attempt { NothingYet(h0, {SessionPath(AttemptSessionDirName(attempt))}); }
      return Some(Coded(ATTEMPT_DIR_IO)), session;
    }
    var name := AttemptSessionDirName(attempt);
    NothingYet(h0, {SessionPath(name)});
    SessionNameApart(attempt);
    session := AttemptSession(attempt, name, id);
    error := RequireOwned(fs, ROOT_PATH, storage.rootIdentity, ATTEMPT_DIR_IO);
    if error.Some? { return; }
    LstatDirectory(fs.disk, ROOT_PATH, storage.rootIdentity);
    var failed := fs.Mkdir(SessionPath(name));
    if failed.Some? {
      return Some(Coded(if failed == Some(EEXIST) then ATTEMPT_DIR_EXISTS else ATTEMPT_DIR_IO)), session;
    }
    SessionDirMade(h0, root, name, fs.disk);
    ghost var h := fs.history;
    error := fs.Hook();                                                 // afterSessionDirCreate
    ConfinedHook(h0, h, {id.ino}, {root}, fs.disk);
    NotedOther(h0, h, SessionPath(name), id, Environment, fs.disk);
    NotedQuiet(h0, fs.history, SessionPath(name), id);
    if RoomMade(h0.disk, fs.disk, root, name, id) { RoomPath(h0.disk, fs.disk, root, name, id); }
    if error.None? {
      error := RequireOwned(fs, ROOT_PATH, storage.rootIdentity, ATTEMPT_DIR_IO);
    }
    if error.None? {
      error := RequireOwned(fs, SessionPath(name), id, ATTEMPT_DIR_IO);
    }
    if error.Some? {
      ghost var at := fs.clock;
      h := fs.history;
      fs.Catch();
      CaughtConfined(h0, h, {id.ino}, {root}, at);
      DiscardSessionDir(fs, name, id, h0, root);
      NotedHandled(h0, h, SessionPath(name), id, at, fs.history);
    }
  }

  /** Remove a session directory this run has created, while its name still
      names it and only when it is empty. */
  method DiscardSessionDir(fs: FileSystem, name: Name, id: Identity, ghost h0: History, ghost root: Ino)
    requires fs.Valid() && id.kind == DirectoryKind && CodeConfined(h0, fs.history, {id.ino}, {root})
    modifies fs
    ensures fs.Valid() && fs.clock >= old(fs.clock)
    ensures CodeConfined(h0, fs.history, {id.ino}, {root}) && Removing(old(fs.history), fs.history)
    ensures fs.Reliable(old(fs.clock)) && RoomMade(h0.disk, old(fs.disk), root, name, id) ==>
              forall d, n :: fs.disk.Entry(d, n) == h0.disk.Entry(d, n)
  {
    ghost var d := fs.disk;
    if RoomMade(h0.disk, d, root, name, id) { RoomPath(h0.disk, d, root, name, id); }
    RemoveOwned(fs, SessionPath(name), id, h0, {id.ino}, {root});
  }

  // -------------------------------------------------------------------------
  // Locating the produced session
  // -------------------------------------------------------------------------

  /** The one contract for produced file names, shared by locating and removal. */
  predicate SafeProducedName(name: Name) {
    && name != "" && name != "." && name != ".."
    && '/' !in name && '\\' !in name
    && (forall i | 0 <= i < |name| :: !IsControl(name[i]))
    && EndsWith(name, ".jsonl")
    && Utf8Bytes(name) <= PATH_MAX_BYTES
  }

  /** The directory holds one session, safely named and within the bound, and
      nothing else. */
  ghost predicate HoldsSession(d: Disk, dir: Ino, name: Name, ino: Ino, raw: Bytes) {
    && SafeProducedName(name) && |raw| <= SESSION_MAX_BYTES
    && d.Entry(dir, name) == Some(ino) && d.Content(ino) == Some(raw)
    && forall n | d.Entry(dir, n).Some? :: n == name
  }

  ghost predicate OneSession(d: Disk, dir: Ino) {
    exists name, ino, raw :: HoldsSession(d, dir, name, ino, raw)
  }

  /** In some state since `h0`, `raw` was what file `i` starts with. */
  ghost predicate WasRead(h0: History, h: History, i: Ino, raw: Bytes) {
    || (h.disk.Content(i).Some? && raw <= h.disk.Content(i).value)
    || (h != h0 && h.Then? && WasRead(h0, h.prev, i, raw))
  }

  lemma {:induction false} ReadStays(h0: History, h: History, i: Ino, raw: Bytes, after: Disk)
    requires WasRead(h0, h, i, raw) && CodeConfined(h0, h, {}, {})
    ensures WasRead(h0, Then(h, Environment, after), i, raw)
  {
    ConfinedLength(h0, h, {}, {});
  }

  /** The root and the session directory are still the owned ones. */
  method RequireSession(fs: FileSystem, storage: CollectionStorage, session: AttemptSession)
    returns (error: Option<Thrown>)
    requires fs.Valid() && storage.rootIdentity.kind == DirectoryKind && session.identity.kind == DirectoryKind
    modifies fs`clock
    ensures fs.Valid() && fs.clock >= old(fs.clock)
    ensures error.None? ==>
      && fs.disk.Lstat(ROOT_PATH) == Some(storage.rootIdentity)
      && fs.disk.DirAt(ROOT_PATH) == Some(storage.rootIdentity.ino)
      && fs.disk.Lstat(SessionPath(session.dirName)) == Some(session.identity)
      && fs.disk.DirAt(SessionPath(session.dirName)) == Some(session.identity.ino)
    ensures
      && fs.Reliable(old(fs.clock)) && fs.disk.Lstat(ROOT_PATH) == Some(storage.rootIdentity)
      && fs.disk.Lstat(SessionPath(session.dirName)) == Some(session.identity)
      ==> error.None?
  {
    error := RequireOwned(fs, ROOT_PATH, storage.rootIdentity, SESSION_IO);
    if error.Some? { return; }
    LstatDirectory(fs.disk, ROOT_PATH, storage.rootIdentity);
    error := RequireOwned(fs, SessionPath(session.dirName), session.identity, SESSION_IO);
    if error.None? { LstatDirectory(fs.disk, SessionPath(session.dirName), session.identity); }
  }

  /** Pick the only `.jsonl` name of the session directory. */
  method ChooseProduced(fs: FileSystem, session: AttemptSession) returns (error: Option<Thrown>, name: Name)
    requires fs.Valid()
    modifies fs`clock
    ensures fs.Valid() && fs.clock >= old(fs.clock)
    ensures error.None? ==>
      && SafeProducedName(name)
      && fs.disk.DirAt(SessionPath(session.dirName)).Some?
      && forall n :: n in fs.disk.nodes[fs.disk.DirAt(SessionPath(session.dirName)).value].entries && EndsWith(n, ".jsonl") <==>
                     n == name
    ensures
      && fs.Reliable(old(fs.clock)) && fs.disk.DirAt(SessionPath(session.dirName)).Some?
      && OneSession(fs.disk, fs.disk.DirAt(SessionPath(session.dirName)).value)
      ==> error.None?
  {
    ghost var dir := fs.disk.DirAt(SessionPath(session.dirName));
    name := "";
    var names := fs.ReadDir(SessionPath(session.dirName));
    if names.None? { return Some(Coded(SESSION_IO)), name; }
    var jsonl := set n | n in names.value && EndsWith(n, ".jsonl");
    if OneSession(fs.disk, dir.value) {
      ghost var only, ino, raw :| HoldsSession(fs.disk, dir.value, only, ino, raw);
      OnlyEntry(fs.disk, dir.value, only, ino, raw);
      assert jsonl == {only};
    }
    if |jsonl| != 1 { return Some(Coded(SESSION_FILE_COUNT)), name; }
    name :| name in jsonl;
    OnlyElement(jsonl, name);
    if !SafeProducedName(name) { return Some(Coded(SESSION_IO)), name; }
    error := None;
    forall n ensures n in names.value && EndsWith(n, ".jsonl") <==> n == name {
      assert n in jsonl <==> n in names.value && EndsWith(n, ".jsonl");
    }
  }

  lemma OnlyEntry(d: Disk, dir: Ino, name: Name, ino: Ino, raw: Bytes)
    requires HoldsSession(d, dir, name, ino, raw)
    ensures d.IsDir(dir) && d.nodes[dir].entries.Keys == {name} && EndsWith(name, ".jsonl")
  {
    forall n ensures n in d.nodes[dir].entries <==> n == name {
      assert d.Entry(dir, n).Some? <==> n in d.nodes[dir].entries;
    }
  }

  lemma OnlyElement<T>(s: set<T>, x: T)
    requires |s| == 1 && x in s
    ensures forall y :: y in s <==> y == x
  {
    assert |s - {x}| == 0;
    forall y | y in s ensures y == x {
      assert y !in s - {x};
    }
  }

  lemma SessionFile(d: Disk, dir: Ino, name: Name)
    requires OneSession(d, dir) && d.Entry(dir, name).Some?
    ensures d.IsFile(d.Entry(dir, name).value) && |d.Content(d.Entry(dir, name).value).value| <= SESSION_MAX_BYTES
  {
    var only, ino, raw :| HoldsSession(d, dir, only, ino, raw);
  }

  /** The produced file's name, identity and size, before it is read. */
  method InspectProduced(fs: FileSystem, session: AttemptSession)
    returns (error: Option<Thrown>, fileName: Name, id: Identity, size: nat)
    requires fs.Valid()
    modifies fs`clock
    ensures fs.Valid() && fs.clock >= old(fs.clock)
    ensures error.None? ==>
      && SafeProducedName(fileName) && id.kind == FileKind && size <= SESSION_MAX_BYTES
      && fs.disk.Lstat(Join(SessionPath(session.dirName), fileName)) == Some(id)
      && fs.disk.Content(id.ino).Some? && |fs.disk.Content(id.ino).value| == size
    ensures
      && fs.Reliable(old(fs.clock)) && fs.disk.DirAt(SessionPath(session.dirName)).Some?
      && OneSession(fs.disk, fs.disk.DirAt(SessionPath(session.dirName)).value)
      ==> error.None?
  {
    hide Disk.Valid, SafeProducedName, OneSession, FileSystem.Played, Sound;
    ghost var dir := fs.disk.DirAt(SessionPath(session.dirName));
    id, size := Identity(0, OtherKind), 0;
    error, fileName := ChooseProduced(fs, session);
    if error.Some? { return; }
    var filePath := Join(SessionPath(session.dirName), fileName);
    if dir.Some? && OneSession(fs.disk, dir.value) { SessionFile(fs.disk, dir.value, fileName); }
    var info := fs.LstatFile(filePath);
    if info.None? || info.value.0.kind != FileKind { return Some(Coded(SESSION_IO)), fileName, id, size; }
    id, size := info.value.0, info.value.1;
    if size > SESSION_MAX_BYTES { return Some(Coded(SESSION_OVER_BOUND)), fileName, id, size; }
    var handle := fs.Stat(filePath);
    if handle != Some(id.ino) { return Some(Coded(SESSION_IO)), fileName, id, size; }
  }

  /** Find the produced session, read its bytes through the verified handle, and
      check that it is still what was inspected.  Nothing is written. */
  method LocateProducedSession(fs: FileSystem, storage: CollectionStorage, session: AttemptSession)
    returns (error: Option<Thrown>, produced: Produced)
    requires fs.Valid() && storage.rootIdentity.kind == DirectoryKind && session.identity.kind == DirectoryKind
    modifies fs
    ensures fs.Valid() && fs.clock >= old(fs.clock)
    ensures CodeConfined(old(fs.history), fs.history, {}, {})
    ensures error.None? ==>
      && session.dirName == AttemptSessionDirName(session.attempt)
      && SafeProducedName(produced.fileName) && produced.identity.kind == FileKind
      && fs.disk.Lstat(ROOT_PATH) == Some(storage.rootIdentity)
      && fs.disk.Lstat(SessionPath(session.dirName)) == Some(session.identity)
      && fs.disk.Entry(session.identity.ino, produced.fileName) == Some(produced.identity.ino)
      && fs.disk.IsFile(produced.identity.ino)
      // The size is that of the file now; the bytes are those it had when it was read.
      && |produced.raw| == |fs.disk.Content(produced.identity.ino).value| <= SESSION_MAX_BYTES
      && WasRead(old(fs.history), fs.history, produced.identity.ino, produced.raw)
    ensures error.None? && fs.Passive() ==> fs.disk.Content(produced.identity.ino) == Some(produced.raw)
    ensures Quiet(old(fs.history), fs.history, {})
    ensures fs.Passive() ==> fs.disk == old(fs.disk) && Still(old(fs.history), fs.history)
    ensures
      && fs.Calm() && session.dirName == AttemptSessionDirName(session.attempt)
      && old(fs.disk).Lstat(ROOT_PATH) == Some(storage.rootIdentity)
      && old(fs.disk).Lstat(SessionPath(session.dirName)) == Some(session.identity)
      && OneSession(old(fs.disk), session.identity.ino)
      ==> error.None?
  {
    hide OneSession, Quiet, Sound, FileSystem.Played;
    NothingYet(fs.history, {});
    hide Disk.Valid, CodeConfined, WasRead, SafeProducedName, AttemptSessionDirName, Disk.Lookup, Disk.Follow,
         Disk.DirAt;
    NotYetNamed(fs.history, ROOT_PATH, {}, {});
    produced := Produced("", [], Identity(0, OtherKind));
    if session.dirName != AttemptSessionDirName(session.attempt) { return Some(Coded(SESSION_IO)), produced; }
    error := RequireSession(fs, storage, session);
    if error.Some? { return; }
    var fileName, id, size;
    error, fileName, id, size := InspectProduced(fs, session);
    if error.Some? { return; }
    error, produced := ReadProduced(fs, fileName, id, size);
    if error.Some? { return; }
    error := ConfirmProduced(fs, storage, session, produced);
    if error.None? && fs.Passive() {
      WholePrefix(produced.raw, fs.disk.Content(produced.identity.ino).value);
    }
  }

  lemma WholePrefix(a: Bytes, b: Bytes)
    requires a <= b && |a| == |b|
    ensures a == b
  {}

  /** Exactly `size` bytes through the open handle, with the hooks around the
      read. */
  method ReadProduced(fs: FileSystem, fileName: Name, id: Identity, size: nat)
    returns (error: Option<Thrown>, produced: Produced)
    requires fs.Valid()
    modifies fs
    ensures fs.Valid() && fs.clock >= old(fs.clock)
    ensures CodeConfined(old(fs.history), fs.history, {}, {})
    ensures produced.fileName == fileName && produced.identity == id
    ensures error.None? ==> |produced.raw| == size && WasRead(old(fs.history), fs.history, id.ino, produced.raw)
    ensures error.None? && fs.Passive() ==>
              fs.disk.Content(id.ino).Some? && produced.raw <= fs.disk.Content(id.ino).value
    ensures Quiet(old(fs.history), fs.history, {})
    ensures fs.Passive() ==> fs.disk == old(fs.disk) && Still(old(fs.history), fs.history)
    ensures fs.Calm() && fs.disk.Content(id.ino).Some? && |fs.disk.Content(id.ino).value| >= size ==> error.None?
  {
    hide Disk.Valid, CodeConfined, Quiet, Still, Sound, FileSystem.Played;
    NothingYet(fs.history, {});
    ghost var h0 := fs.history;
    NotYetNamed(h0, Base, {}, {});
    produced := Produced(fileName, [], id);
    error := fs.Hook();                                                 // afterSessionOpen
    ConfinedHook(h0, h0, {}, {}, fs.disk);
    OtherStep(h0, h0, Environment, fs.disk, {});
    StillHook(h0, h0, fs.disk);
    if error.Some? { return; }
    var content := fs.Read(id.ino);
    if content.None? || |content.value| < size { return Some(Coded(SESSION_IO)), produced; }
    produced := Produced(fileName, content.value[..size], id);
    ghost var h := fs.history;
    error := fs.Hook();                                                 // afterSessionRead
    ConfinedHook(h0, h, {}, {}, fs.disk);
    OtherStep(h0, h, Environment, fs.disk, {});
    StillHook(h0, h, fs.disk);
    ReadStays(h0, h, id.ino, produced.raw, fs.disk);
  }

  /** The last look: root, directory, identity and size. */
  method ConfirmProduced(fs: FileSystem, storage: CollectionStorage, session: AttemptSession, produced: Produced)
    returns (error: Option<Thrown>)
    requires fs.Valid() && storage.rootIdentity.kind == DirectoryKind && session.identity.kind == DirectoryKind
    modifies fs`clock
    ensures fs.Valid() && fs.clock >= old(fs.clock)
    ensures error.None? ==>
      && produced.identity.kind == FileKind
      && fs.disk.Lstat(ROOT_PATH) == Some(storage.rootIdentity)
      && fs.disk.Lstat(SessionPath(session.dirName)) == Some(session.identity)
      && fs.disk.Entry(session.identity.ino, produced.fileName) == Some(produced.identity.ino)
      && fs.disk.IsFile(produced.identity.ino)
      && |produced.raw| == |fs.disk.Content(produced.identity.ino).value|
    ensures
      && fs.Reliable(old(fs.clock)) && fs.disk.Lstat(ROOT_PATH) == Some(storage.rootIdentity)
      && fs.disk.Lstat(SessionPath(session.dirName)) == Some(session.identity)
      && fs.disk.Lstat(Join(SessionPath(session.dirName), produced.fileName)) == Some(produced.identity)
      && produced.identity.kind == FileKind && |produced.raw| == |fs.disk.Content(produced.identity.ino).value|
      ==> error.None?
  {
    error := RequireSession(fs, storage, session);
    if error.Some? { return; }
    var info := fs.LstatFile(Join(SessionPath(session.dirName), produced.fileName));
    if info.None? || info.value.0.kind != FileKind { return Some(Coded(SESSION_IO)); }
    if info.value.0 != produced.identity || info.value.1 != |produced.raw| { return Some(Coded(SESSION_IO)); }
  }

  // -------------------------------------------------------------------------
  // Removal
  // -------------------------------------------------------------------------

  /** What the removal did: at most the produced file's name and the emptied
      directory's name are gone. */
  ghost predicate Removal(before: Disk, after: Disk, root: Ino, session: AttemptSession, produced: Produced,
                          removedFile: bool, removedDir: bool) {
    && (removedFile ==>
          before.IsDir(session.identity.ino)
          && before.Entry(session.identity.ino, produced.fileName) == Some(produced.identity.ino))
    && var left := if removedFile then before.Unbind(session.identity.ino, produced.fileName) else before;
       if removedDir then
         && left.IsDir(root) && left.Entry(root, session.dirName) == Some(session.identity.ino)
         && left.Empty(session.identity.ino) && after == left.Unbind(root, session.dirName)
       else after == left
  }

  /** Unlink the produced file while its name still names the inode located. */
  method RemoveProduced(fs: FileSystem, session: AttemptSession, produced: Produced)
    returns (error: Option<Thrown>, removed: bool)
    requires fs.Valid() && produced.identity.kind == FileKind
    requires fs.disk.DirAt(SessionPath(session.dirName)) == Some(session.identity.ino)
    modifies fs
    ensures fs.Valid() && fs.clock >= old(fs.clock)
    ensures if removed then
        && old(fs.disk).Entry(session.identity.ino, produced.fileName) == Some(produced.identity.ino)
        && fs.disk == old(fs.disk).Unbind(session.identity.ino, produced.fileName)
        && fs.history == Then(old(fs.history), Step.Unlink(Join(SessionPath(session.dirName), produced.fileName)), fs.disk)
      else fs.disk == old(fs.disk) && fs.history == old(fs.history)
    ensures
      && fs.Reliable(old(fs.clock))
      && old(fs.disk).Lstat(Join(SessionPath(session.dirName), produced.fileName)) == Some(produced.identity)
      ==> error.None? && removed
  {
    var filePath := Join(SessionPath(session.dirName), produced.fileName);
    error, removed := None, false;
    var current := fs.Lstat(filePath);
    if current == Some(produced.identity) {
      var failed := fs.Unlink(filePath);
      if failed.Some? { return Some(Coded(SESSION_IO)), false; }
      removed := true;
    }
  }

  /** Remove the session directory while its name still names it and it is
      empty. */
  method RemoveSessionDir(fs: FileSystem, storage: CollectionStorage, session: AttemptSession)
    returns (error: Option<Thrown>, removed: bool)
    requires fs.Valid() && session.identity.kind == DirectoryKind
    requires fs.disk.DirAt(ROOT_PATH) == Some(storage.rootIdentity.ino)
    modifies fs
    ensures fs.Valid() && fs.clock >= old(fs.clock)
    ensures var root := storage.rootIdentity.ino;
      if removed then
        && old(fs.disk).IsDir(root) && old(fs.disk).Entry(root, session.dirName) == Some(session.identity.ino)
        && old(fs.disk).Empty(session.identity.ino)
        && fs.disk == old(fs.disk).Unbind(root, session.dirName)
        && fs.history == Then(old(fs.history), Step.Rmdir(SessionPath(session.dirName)), fs.disk)
      else fs.disk == old(fs.disk) && fs.history == old(fs.history)
    ensures
      && fs.Reliable(old(fs.clock)) && old(fs.disk).Lstat(SessionPath(session.dirName)) == Some(session.identity)
      && old(fs.disk).Empty(session.identity.ino)
      ==> error.None? && removed
  {
    error, removed := None, false;
    var current := fs.Lstat(SessionPath(session.dirName));
    if current == Some(session.identity) {
      var failed := fs.Rmdir(SessionPath(session.dirName));
      removed := failed.None?;
      if failed.Some? && failed != Some(EEXIST) && failed != Some(ENOTEMPTY) { error := Some(Coded(SESSION_IO)); }
    }
  }

  /** Taking away the only name empties the directory and leaves the way to it. */
  lemma LastNameGone(d: Disk, root: Ino, session: AttemptSession, name: Name)
    requires d.DirAt(ROOT_PATH) == Some(root) && d.Lstat(SessionPath(session.dirName)) == Some(session.identity)
    requires session.identity.kind == DirectoryKind && session.identity.ino != root
    requires d.nodes[session.identity.ino].entries.Keys == {name} && name != OUTPUT_ROOT
    ensures var e := d.Unbind(session.identity.ino, name);
      e.Empty(session.identity.ino) && e.Lstat(SessionPath(session.dirName)) == Some(session.identity)
  {
    RootStays(d, session.identity.ino, name, 0);
    var e := d.Unbind(session.identity.ino, name);
    assert e.KindOf(session.identity.ino) == d.KindOf(session.identity.ino);
    assert e.nodes[session.identity.ino].entries == map[];
  }

  lemma KeptStart(h: History)
    ensures forall d, n, i :: NameKept(h, h, d, n, i)
  {}

  lemma ProducedNameApart(name: Name)
    requires SafeProducedName(name)
    ensures name != OUTPUT_ROOT
  {
    assert OUTPUT_ROOT[|OUTPUT_ROOT| - 1] == 'n' && name[|name| - 6..][5] == 'l';
  }

  /** Neither removal touches another directory's names, or any bytes. */
  lemma {:induction false} RemovalKept(h0: History, h1: History, h2: History, root: Ino, session: AttemptSession,
                                       name: Name, dir: Ino, n: Name, i: Ino)
    requires h0.disk.IsDir(session.identity.ino)
    requires h1 == h0 || (h1.Then? && h1.prev == h0 && h1.disk == h0.disk.Unbind(session.identity.ino, name))
    requires h1.disk.IsDir(root)
    requires h2 == h1 || (h2.Then? && h2.prev == h1 && h1.disk.Entry(root, session.dirName) == Some(session.identity.ino)
                          && h2.disk == h1.disk.Unbind(root, session.dirName))
    requires dir != session.identity.ino && !(dir == root && i == session.identity.ino)
    ensures NameKept(h0, h2, dir, n, i)
  {
    assert NameKept(h0, h0, dir, n, i);
    assert NameKept(h0, h1, dir, n, i);
  }

  lemma {:induction false} NoSteps(h: History, i: Ino)
    ensures CarefulSince(h, h, {i}, {})
  {}

  /** What goes is in the session's directory, or is that directory. */
  lemma {:induction false} RemovalCareful(h0: History, h1: History, h2: History, root: Ino, session: AttemptSession,
                                          name: Name)
    requires h0.disk.IsDir(session.identity.ino)
    requires h1 == h0 || (h1.Then? && h1.prev == h0 && h1.disk == h0.disk.Unbind(session.identity.ino, name))
    requires h1.disk.IsDir(root)
    requires h2 == h1 || (h2.Then? && h2.prev == h1 && h1.disk.Entry(root, session.dirName) == Some(session.identity.ino)
                          && h2.disk == h1.disk.Unbind(root, session.dirName))
    ensures CarefulSince(h0, h2, {session.identity.ino}, {})
  {
    assert CarefulSince(h0, h0, {session.identity.ino}, {});
    assert CarefulSince(h0, h1, {session.identity.ino}, {});
  }

  lemma {:induction false} TwoRemovals(h0: History, h1: History, h2: History)
    requires h1 == h0 || (h1.Then? && h1.prev == h0 && h1.step.Unlink?)
    requires h2 == h1 || (h2.Then? && h2.prev == h1 && h2.step.Rmdir?)
    ensures Removing(h0, h2)
  {
    assert Removing(h0, h0) && Removing(h0, h1);
  }

  /** Remove the produced file and then the session directory, each only while
      it still is the tracked entry, the directory only when empty. */
  method RemoveOwnedAttemptSession(fs: FileSystem, storage: CollectionStorage, session: AttemptSession,
                                   produced: Produced)
    returns (error: Option<Thrown>, removedFile: bool, removedDir: bool)
    requires fs.Valid() && storage.rootIdentity.kind == DirectoryKind && session.identity.kind == DirectoryKind
    requires produced.identity.kind == FileKind
    modifies fs
    ensures fs.Valid()
    ensures Removal(old(fs.disk), fs.disk, storage.rootIdentity.ino, session, produced, removedFile, removedDir)
    ensures forall d, n, i ::
              d != session.identity.ino && !(d == storage.rootIdentity.ino && i == session.identity.ino) ==>
                NameKept(old(fs.history), fs.history, d, n, i)
    ensures old(fs.disk).next == fs.disk.next && Removing(old(fs.history), fs.history)
    ensures CarefulSince(old(fs.history), fs.history, {session.identity.ino}, {})
    ensures
      && fs.Reliable(old(fs.clock)) && SafeProducedName(produced.fileName)
      && session.dirName == AttemptSessionDirName(session.attempt)
      && old(fs.disk).Lstat(ROOT_PATH) == Some(storage.rootIdentity)
      && old(fs.disk).Lstat(SessionPath(session.dirName)) == Some(session.identity)
      && old(fs.disk).Lstat(Join(SessionPath(session.dirName), produced.fileName)) == Some(produced.identity)
      && old(fs.disk).nodes[session.identity.ino].entries.Keys == {produced.fileName}
      ==> error.None? && removedFile && removedDir
  {
    hide Disk.Valid, NameKept, SafeProducedName, AttemptSessionDirName, Removing, Sound, FileSystem.Played,
         CarefulSince;
    NoSteps(fs.history, session.identity.ino);
    TwoRemovals(fs.history, fs.history, fs.history);
    ghost var h0, root, keep := fs.history, storage.rootIdentity.ino, session.identity.ino;
    KeptStart(h0);
    removedFile, removedDir := false, false;
    if session.dirName != AttemptSessionDirName(session.attempt) || !SafeProducedName(produced.fileName) {
      return Some(Coded(SESSION_IO)), removedFile, removedDir;
    }
    ProducedNameApart(produced.fileName);
    error := RequireSession(fs, storage, session);
    if error.Some? { return; }
    ghost var only := fs.disk.nodes[keep].entries.Keys == {produced.fileName} && keep != root;
    error, removedFile := RemoveProduced(fs, session, produced);
    ghost var h1 := fs.history;
    TwoRemovals(h0, h1, h1);
    if removedFile { RootStays(h0.disk, keep, produced.fileName, 0); }
    if only && removedFile { LastNameGone(h0.disk, root, session, produced.fileName); }
    if error.None? {
      error, removedDir := RemoveSessionDir(fs, storage, session);
    }
    TwoRemovals(h0, h1, fs.history);
    RemovalCareful(h0, h1, fs.history, root, session, produced.fileName);
    forall d, n, i | d != keep && !(d == root && i == keep) ensures NameKept(h0, fs.history, d, n, i) {
      RemovalKept(h0, h1, fs.history, root, session, produced.fileName, d, n, i);
    }
  }
}
