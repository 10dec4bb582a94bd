/** Byte-exact retention of raw sources under the owned sources directory
    (commander-native-tool-v2-final-collect.ts). */
module Sources {
  import opened Outcomes
  import opened FileSystem
  import opened Reliance
  import opened RecordStore
  import opened Lifecycle
  import opened Interleave
  import opened Text

  const SESSION_MAX_BYTES: nat := 16 * 1024 * 1024

  // -------------------------------------------------------------------------
  // Retained sources
  // -------------------------------------------------------------------------

  /** What the collector records about one retained source. */
  datatype Retained = Retained(sourceName: Name, identity: Identity)

  function SourcePath(name: Name): Path {
    Join(SOURCES_PATH, name)
  }

  /** A run that has created the one file `id` in the sources directory. */
  ghost predicate Retaining(h0: History, h: History, sources: Ino, name: Name, id: Identity) {
    && id == Identity(h0.disk.next, FileKind)
    && CodeConfined(h0, h, {id.ino}, {sources})
    && Noted(h0, h, SourcePath(name), id)
  }

  /** The one entry the program has made is `id`, at path `p`. */
  ghost predicate Noted(h0: History, h: History, p: Path, id: Identity) {
    Extends(h0, h) && Quiet(h0, h, {p}) && MadeAt(h0, h, p) == Some(id.ino) && Working(h0, h)
  }

  lemma NotedOther(h0: History, h: History, p: Path, id: Identity, step: Step, after: Disk)
    requires Noted(h0, h, p, id) && (step == Environment || step.Write?)
    ensures Noted(h0, Then(h, step, after), p, id)
  {
    OtherStep(h0, h, step, after, {p});
  }

  lemma NotedFirst(h0: History, step: Step, after: Disk)
    requires step.Mkdir? || step.Create?
    ensures Noted(h0, Then(h0, step, after), step.path, Identity(h0.disk.next, if step.Create? then FileKind else DirectoryKind))
  {
    CreateStep(h0, h0, step, after, {step.path});
  }

  /** After the handler the account is the same. */
  lemma {:induction false} NotedHandled(h0: History, h: History, p: Path, id: Identity, at: nat, h2: History)
    requires Noted(h0, h, p, id) && Removing(Then(h, Caught(at), h.disk), h2)
    ensures Quiet(h0, h2, {p}) && Failed(h0, h2) && HandledAt(h0, h2) == Some(at) && id.ino in Created(h0, h2)
  {
    MadeCreated(h0, h, p);
    hide Working, Removing, Failed, Extends, Quiet;
    HandlerMakesNothing(h0, h, at, h2, {p});
    FailedSince(h0, h, at, h2);
  }

  lemma {:induction false} CaughtConfined(h0: History, h: History, own: set<Ino>, into: set<Ino>, at: nat)
    requires CodeConfined(h0, h, own, into)
    ensures CodeConfined(h0, Then(h, Caught(at), h.disk), own, into)
  {
    ConfinedStep(h0, h, own, into, Caught(at), h.disk);
  }

  /** Undisturbed, the disk has just that one entry more. */
  ghost predicate OneMore(d0: Disk, d: Disk, sources: Ino, name: Name, id: Identity) {
    && d0.Entry(sources, name).None?
    && (forall x, n :: d.Entry(x, n) == if x == sources && n == name then Some(id.ino) else d0.Entry(x, n))
    && d.IsFile(id.ino) && (forall i | i != id.ino :: d.Content(i) == d0.Content(i))
    && d.DirAt(SOURCES_PATH) == Some(sources)
    && d.Lstat(ROOT_PATH) == d0.Lstat(ROOT_PATH) && d.Lstat(SOURCES_PATH) == d0.Lstat(SOURCES_PATH)
  }

  /** The owned root and the owned sources directory. */
  method RequireSources(fs: FileSystem, storage: CollectionStorage) returns (error: Option<Thrown>)
    requires fs.Valid() && storage.sourcesIdentity.kind == DirectoryKind
    modifies fs`clock
    ensures fs.Valid() && fs.clock >= old(fs.clock)
    ensures error.None? ==>
      && fs.disk.Lstat(ROOT_PATH) == Some(storage.rootIdentity)
      && fs.disk.Lstat(SOURCES_PATH) == Some(storage.sourcesIdentity)
      && fs.disk.DirAt(SOURCES_PATH) == Some(storage.sourcesIdentity.ino)
    ensures
      && fs.Reliable(old(fs.clock)) && fs.disk.Lstat(ROOT_PATH) == Some(storage.rootIdentity)
      && fs.disk.Lstat(SOURCES_PATH) == Some(storage.sourcesIdentity)
      ==> error.None?
  {
    error := RequireOwned(fs, ROOT_PATH, storage.rootIdentity, SOURCE_IO);
    if error.Some? { return; }
    error := RequireOwned(fs, SOURCES_PATH, storage.sourcesIdentity, SOURCE_IO);
    if error.None? { LstatDirectory(fs.disk, SOURCES_PATH, storage.sourcesIdentity); }
  }

  /** Names below the sources directory leave the paths to it alone. */
  lemma SourcesStay(d: Disk, dir: Ino, name: Name, i: Ino)
    requires d.Valid() && d.IsDir(dir) && name != OUTPUT_ROOT && name != SOURCES
    ensures var r := d.Bind(dir, name, i);
      r.Lstat(ROOT_PATH) == d.Lstat(ROOT_PATH) && r.Lstat(SOURCES_PATH) == d.Lstat(SOURCES_PATH)
      && r.DirAt(SOURCES_PATH) == d.DirAt(SOURCES_PATH)
  {
    var r := d.Bind(dir, name, i);
    RootStays(d, dir, name, i);
    if d.Lookup(SOURCES_PATH).Some? {
      var s := d.Lookup(SOURCES_PATH).value;
      assert r.Lookup(SOURCES_PATH) == Some(s);
      assert r.KindOf(s) == d.KindOf(s);
      if s in d.nodes && d.nodes[s].Symlink? {
        assert r.KindOf(d.nodes[s].dest) == d.KindOf(d.nodes[s].dest);
      }
    }
  }

  lemma SourceCreated(h0: History, sources: Ino, name: Name, after: Disk)
    requires h0.disk.Valid() && name != OUTPUT_ROOT && name != SOURCES
    requires h0.disk.DirAt(SOURCES_PATH) == Some(sources)
    requires h0.disk.Create(SourcePath(name)) == Success(after)
    ensures var id := Identity(h0.disk.next, FileKind);
      && Retaining(h0, Then(h0, Step.Create(SourcePath(name)), after), sources, name, id)
      && OneMore(h0.disk, after, sources, name, id)
  {
    hide Disk.Valid, Disk.Lookup, Disk.Lstat;
    CreateFacts(h0.disk, SourcePath(name));
    CreatePathsStay(h0.disk, sources, name);
    ConfinedStep(h0, h0, {h0.disk.next}, {sources}, Step.Create(SourcePath(name)), after);
    NotedFirst(h0, Step.Create(SourcePath(name)), after);
    assert after == h0.disk.Allocate(File([])).Bind(sources, name, h0.disk.next);
  }

  lemma CreatePathsStay(d: Disk, sources: Ino, name: Name)
    requires d.Valid() && d.IsDir(sources) && name != OUTPUT_ROOT && name != SOURCES
    ensures d.Allocate(File([])).IsDir(sources)
    ensures var r := d.Allocate(File([])).Bind(sources, name, d.next);
      r.Lstat(ROOT_PATH) == d.Lstat(ROOT_PATH) && r.Lstat(SOURCES_PATH) == d.Lstat(SOURCES_PATH)
      && r.DirAt(SOURCES_PATH) == d.DirAt(SOURCES_PATH)
  {
    var a := d.Allocate(File([]));
    AllocateLookup(d, File([]), SOURCES_PATH);
    AllocateLookup(d, File([]), ROOT_PATH);
    LookupValid(d, SOURCES_PATH);
    LookupValid(d, ROOT_PATH);
    AllocateValid(d, File([]));
    SourcesStay(a, sources, name, d.next);
  }

  lemma SourceWritten(h0: History, h: History, sources: Ino, name: Name, id: Identity, bytes: Bytes, after: Disk)
    requires Retaining(h0, h, sources, name, id) && h.disk.IsFile(id.ino) && after == h.disk.Write(id.ino, bytes)
    ensures Retaining(h0, Then(h, Step.Write(id.ino), after), sources, name, id)
    ensures OneMore(h0.disk, h.disk, sources, name, id) ==> OneMore(h0.disk, after, sources, name, id)
  {
    ConfinedStep(h0, h, {id.ino}, {sources}, Step.Write(id.ino), after);
    NotedOther(h0, h, SourcePath(name), id, Step.Write(id.ino), after);
    WriteLookup(h.disk, id.ino, bytes, SOURCES_PATH);
    WriteLookup(h.disk, id.ino, bytes, ROOT_PATH);
    assert forall i :: after.KindOf(i) == h.disk.KindOf(i);
  }

  lemma SourceHook(h0: History, h: History, sources: Ino, name: Name, id: Identity, after: Disk)
    requires Retaining(h0, h, sources, name, id) && Admissible(h.disk, after)
    ensures Retaining(h0, Then(h, Environment, after), sources, name, id)
    ensures h.disk.IsFile(id.ino) ==> after.IsFile(id.ino)
  {
    ConfinedHook(h0, h, {id.ino}, {sources}, after);
    NotedOther(h0, h, SourcePath(name), id, Environment, after);
    if h.disk.IsFile(id.ino) { KindStays(h.disk, after, id.ino); }
  }

  lemma OneMorePaths(d0: Disk, d: Disk, sources: Ino, name: Name, id: Identity)
    requires OneMore(d0, d, sources, name, id) && id.kind == FileKind
    ensures d.Lstat(SourcePath(name)) == Some(id) && d.Follow(SourcePath(name)) == Some(id.ino)
  {}

  /** The sources directory holds exactly these bytes under this name. */
  ghost predicate SourceKept(d: Disk, sources: Ino, name: Name, ino: Ino, raw: Bytes) {
    && d.DirAt(SOURCES_PATH) == Some(sources)
    && d.Entry(sources, name) == Some(ino)
    && d.Content(ino) == Some(raw)
  }

  /** Root, sources, the source's own identity, and its bytes. */
  method VerifyRetained(fs: FileSystem, storage: CollectionStorage, name: Name, id: Identity, raw: Bytes)
    returns (error: Option<Thrown>)
    requires fs.Valid() && storage.sourcesIdentity.kind == DirectoryKind && id.kind == FileKind
    modifies fs`clock
    ensures fs.Valid() && fs.clock >= old(fs.clock)
    ensures error.None? ==> SourceKept(fs.disk, storage.sourcesIdentity.ino, name, id.ino, raw)
    ensures
      && fs.Calm() && fs.disk.Lstat(ROOT_PATH) == Some(storage.rootIdentity)
      && fs.disk.Lstat(SOURCES_PATH) == Some(storage.sourcesIdentity)
      && fs.disk.Lstat(SourcePath(name)) == Some(id) && fs.disk.Content(id.ino) == Some(raw)
      ==> error.None?
  {
    error := RequireSources(fs, storage);
    if error.Some? { return; }
    error := RequireOwned(fs, SourcePath(name), id, SOURCE_IO);
    if error.Some? { return; }
    var readBack := fs.ReadFile(SourcePath(name));
    if readBack != Some(raw) { error := Some(Coded(SOURCE_IO)); }
  }

  /** Write the raw bytes through the handle and verify them twice, with the
      hooks between. */
  method FillSource(fs: FileSystem, storage: CollectionStorage, name: Name, id: Identity, raw: Bytes, ghost h0: History)
    returns (error: Option<Thrown>)
    requires fs.Valid() && storage.sourcesIdentity.kind == DirectoryKind
    requires Retaining(h0, fs.history, storage.sourcesIdentity.ino, name, id) && fs.disk.IsFile(id.ino)
    modifies fs
    ensures fs.Valid() && fs.clock >= old(fs.clock)
    ensures Retaining(h0, fs.history, storage.sourcesIdentity.ino, name, id)
    ensures error.None? ==> SourceKept(fs.disk, storage.sourcesIdentity.ino, name, id.ino, raw)
    ensures fs.Passive() && OneMore(h0.disk, old(fs.disk), storage.sourcesIdentity.ino, name, id) ==>
              OneMore(h0.disk, fs.disk, storage.sourcesIdentity.ino, name, id)
    ensures
      && fs.Calm() && OneMore(h0.disk, old(fs.disk), storage.sourcesIdentity.ino, name, id)
      && h0.disk.Lstat(ROOT_PATH) == Some(storage.rootIdentity)
      && h0.disk.Lstat(SOURCES_PATH) == Some(storage.sourcesIdentity)
      ==> error.None?
  {
    hide Disk.Valid, CodeConfined, Disk.Lookup, OneMore, Noted, Sound, FileSystem.Played;
    ghost var sources := storage.sourcesIdentity.ino;
    ghost var h := fs.history;
    error := fs.Hook();                                                 // afterSourceOpen
    SourceHook(h0, h, sources, name, id, fs.disk);
    if error.Some? { return; }
    h := fs.history;
    var ok := fs.Write(id.ino, raw);
    ghost var some :| fs.disk == h.disk.Write(id.ino, some) && (ok ==> some == raw);
    SourceWritten(h0, h, sources, name, id, some, fs.disk);
    if !ok { return Some(Coded(SOURCE_IO)); }
    h := fs.history;
    error := fs.Hook();                                                 // afterSourceCommit
    SourceHook(h0, h, sources, name, id, fs.disk);
    if error.Some? { return; }
    if OneMore(h0.disk, fs.disk, sources, name, id) { Undisturbed(h0.disk, fs.disk, sources, name, id); }
    error := VerifyRetained(fs, storage, name, id, raw);
    if error.Some? { return; }
    h := fs.history;
    error := fs.Hook();                                                 // afterSourceVerify
    SourceHook(h0, h, sources, name, id, fs.disk);
    if error.Some? { return; }
    error := VerifyRetained(fs, storage, name, id, raw);
  }

  lemma Undisturbed(d0: Disk, d: Disk, sources: Ino, name: Name, id: Identity)
    requires OneMore(d0, d, sources, name, id) && id.kind == FileKind
    ensures d.Lstat(SourcePath(name)) == Some(id)
    ensures d.Lstat(ROOT_PATH) == d0.Lstat(ROOT_PATH) && d.Lstat(SOURCES_PATH) == d0.Lstat(SOURCES_PATH)
  {
    OneMorePaths(d0, d, sources, name, id);
  }

  /** Remove a source this run has created, while its name still names it. */
  method DiscardSource(fs: FileSystem, name: Name, id: Identity, ghost h0: History, ghost sources: Ino)
    requires fs.Valid() && CodeConfined(h0, fs.history, {id.ino}, {sources}) && id.kind == FileKind
    requires name != OUTPUT_ROOT && name != SOURCES
    modifies fs
    ensures fs.Valid() && fs.clock >= old(fs.clock)
    ensures CodeConfined(h0, fs.history, {id.ino}, {sources}) && Removing(old(fs.history), fs.history)
    ensures fs.Reliable(old(fs.clock)) ==> fs.disk.Lstat(SourcePath(name)) != Some(id)
    ensures fs.Reliable(old(fs.clock)) && OneMore(h0.disk, old(fs.disk), sources, name, id) ==>
              forall d, n :: fs.disk.Entry(d, n) == h0.disk.Entry(d, n)
  {
    hide Disk.Valid, CodeConfined, Removing, Sound, FileSystem.Played;
    ghost var d := fs.disk;
    if OneMore(h0.disk, d, sources, name, id) { OneMorePaths(h0.disk, d, sources, name, id); }
    RemoveOwned(fs, SourcePath(name), id, h0, {id.ino}, {sources});
    if d.Lstat(SourcePath(name)) == Some(id) {
      UnbindLookup(d, d.DirAt(SOURCES_PATH).value, name, SourcePath(name));
      UnbindLookup(d, d.DirAt(SOURCES_PATH).value, name, SOURCES_PATH);
    }
  }

  /** Byte-exact retention of a raw session under its deterministic name. */
  method RetainRawSource(fs: FileSystem, storage: CollectionStorage, attempt: nat, arm: ArmName, raw: Bytes)
    returns (error: Option<Thrown>, retained: Retained)
    requires fs.Valid() && Owns(fs.disk, storage) && attempt < 100
    modifies fs
    ensures fs.Valid() && fs.clock >= old(fs.clock)
    ensures retained == Retained(RawSourceName(attempt, arm), Identity(old(fs.disk.next), FileKind))
    // Only the new file is touched, and it is named only in the owned sources directory.
    ensures CodeConfined(old(fs.history), fs.history, {retained.identity.ino}, {storage.sourcesIdentity.ino})
    ensures Quiet(old(fs.history), fs.history, {SourcePath(retained.sourceName)})
    ensures fs.history == old(fs.history) || retained.identity.ino in Created(old(fs.history), fs.history)
    ensures error.None? ==>
      && |raw| <= SESSION_MAX_BYTES
      && SourceKept(fs.disk, storage.sourcesIdentity.ino, retained.sourceName, retained.identity.ino, raw)
      && Noted(old(fs.history), fs.history, SourcePath(retained.sourceName), retained.identity)
      && (fs.Passive() ==>
            OneMore(old(fs.disk), fs.disk, storage.sourcesIdentity.ino, retained.sourceName, retained.identity))
    // An oversized source is refused before the disk is looked at.
    ensures |raw| > SESSION_MAX_BYTES ==> error == Some(Coded(SOURCE_OVER_BOUND)) && fs.history == old(fs.history)
    // A failure leaves no partial source at its name: either nothing was done, or the handler ran.
    ensures error.Some? ==> fs.history == old(fs.history) || Failed(old(fs.history), fs.history)
    ensures error.Some? && (fs.history == old(fs.history) || HandledReliably(fs, old(fs.history), fs.history)) ==>
      && fs.disk.Lstat(SourcePath(retained.sourceName)) != Some(retained.identity)
      && (fs.Passive() ==> forall d, n :: fs.disk.Entry(d, n) == old(fs.disk).Entry(d, n))
    ensures
      && fs.Calm() && |raw| <= SESSION_MAX_BYTES
      && old(fs.disk).Lstat(ROOT_PATH) == Some(storage.rootIdentity)
      && old(fs.disk).Lstat(SOURCES_PATH) == Some(storage.sourcesIdentity)
      && old(fs.disk).Entry(storage.sourcesIdentity.ino, RawSourceName(attempt, arm)).None?
      ==> error.None?
  {
    hide Disk.Valid, CodeConfined, OneMore, SourceKept, Disk.Allocate, Noted, Removing, Failed, Quiet, Sound,
         FileSystem.Played;
    ghost var h0 := fs.history;
    ghost var sources := storage.sourcesIdentity.ino;
    var name, id := RawSourceName(attempt, arm), Identity(fs.disk.next, FileKind);
    retained := Retained(name, id);
    RawNameApart(attempt, arm);
    NotYetNamed(h0, SourcePath(name), {id.ino}, {sources});
    NothingYet(h0, {SourcePath(name)});
    if |raw| > SESSION_MAX_BYTES {
      return Some(Coded(SOURCE_OVER_BOUND)), retained;
    }
    error := RequireSources(fs, storage);
    if error.Some? { return; }
    var failed, _ := fs.Create(SourcePath(name));
    if failed.Some? {
      return Some(Coded(if failed == Some(EEXIST) then SOURCE_EXISTS else SOURCE_IO)), retained;
    }
    SourceCreated(h0, sources, name, fs.disk);
    error := FillSource(fs, storage, name, id, raw, h0);
    if error.Some? {
      ghost var h, at := fs.history, fs.clock;
      fs.Catch();
      CaughtConfined(h0, h, {id.ino}, {sources}, at);
      DiscardSource(fs, name, id, h0, sources);
      NotedHandled(h0, h, SourcePath(name), id, at, fs.history);
    } else {
      NotedQuiet(h0, fs.history, SourcePath(name), id);
    }
  }

  lemma {:induction false} NothingYet(h: History, paths: set<Path>)
    ensures Extends(h, h) && Quiet(h, h, paths) && forall p :: MadeAt(h, h, p).None?
  {}

  lemma {:induction false} NotedQuiet(h0: History, h: History, p: Path, id: Identity)
    requires Noted(h0, h, p, id)
    ensures Quiet(h0, h, {p}) && id.ino in Created(h0, h)
  {
    MadeCreated(h0, h, p);
  }

  lemma {:induction false} NotYetNamed(h: History, p: Path, own: set<Ino>, into: set<Ino>)
    requires h.disk.Valid()
    ensures h.disk.Lookup(p) != Some(h.disk.next) && CodeConfined(h, h, own, into)
  {
    LookupValid(h.disk, p);
  }

  /** Remove a retained source, while its name still names the file tracked at
      retention. */
  method RemoveOwnedRetainedSource(fs: FileSystem, storage: CollectionStorage, attempt: nat, arm: ArmName,
                                   retained: Retained)
    returns (error: Option<Thrown>, removed: bool)
    requires fs.Valid() && Owns(fs.disk, storage) && attempt < 100
    modifies fs
    ensures fs.Valid()
    ensures CodeConfined(old(fs.history), fs.history, {retained.identity.ino}, {})
    ensures Removing(old(fs.history), fs.history)
    ensures var sources := storage.sourcesIdentity.ino;
      if removed then
        && error.None? && retained.sourceName == RawSourceName(attempt, arm)
        && old(fs.disk).Entry(sources, retained.sourceName) == Some(retained.identity.ino)
        && old(fs.disk).DirAt(SOURCES_PATH) == Some(sources)
        && fs.disk == old(fs.disk).Unbind(sources, retained.sourceName)
      else fs.disk == old(fs.disk) && fs.history == old(fs.history)
    ensures
      && fs.Reliable(old(fs.clock)) && retained.sourceName == RawSourceName(attempt, arm)
      && retained.identity.kind == FileKind
      && old(fs.disk).Lstat(ROOT_PATH) == Some(storage.rootIdentity)
      && old(fs.disk).Lstat(SOURCES_PATH) == Some(storage.sourcesIdentity)
      && old(fs.disk).Lstat(SourcePath(retained.sourceName)) == Some(retained.identity)
      ==> removed
  {
    hide Sound, Disk.Valid, RawSourceName;
    removed := false;
    if retained.sourceName != RawSourceName(attempt, arm) { return Some(Coded(SOURCE_IO)), false; }
    error := RequireSources(fs, storage);
    if error.Some? { return; }
    var current := fs.Lstat(SourcePath(retained.sourceName));
    if current != Some(retained.identity) { return None, false; }
    ghost var h := fs.history;
    var failed := fs.Unlink(SourcePath(retained.sourceName));
    if failed.Some? { return Some(Coded(SOURCE_IO)), false; }
    ConfinedStep(h, h, {retained.identity.ino}, {}, fs.history.step, fs.disk);
    removed := true;
  }

  lemma RawNameApart(attempt: nat, arm: ArmName)
    ensures RawSourceName(attempt, arm) != OUTPUT_ROOT && RawSourceName(attempt, arm) != SOURCES
    ensures RawSourceName(attempt, arm) != RECORD
  {
    assert RawSourceName(attempt, arm)[0] == 'r';
  }
}
