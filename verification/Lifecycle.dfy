/** Exclusive initialization of the collection storage
    (commander-native-tool-v2-final-collect.ts), and what all storage operations
    share: single steps of a history, the owned-identity gate and owned removal. */
module Lifecycle {
  import opened Outcomes
  import opened FileSystem
  import opened RecordStore
  import opened Reliance

  // -------------------------------------------------------------------------
  // Histories, step by step
  // -------------------------------------------------------------------------

  lemma {:induction false} ConfinedHook(h0: History, h: History, own: set<Ino>, into: set<Ino>, after: Disk)
    requires CodeConfined(h0, h, own, into)
    ensures CodeConfined(h0, Then(h, Environment, after), own, into)
  {}

  lemma {:induction false} ConfinedStep(h0: History, h: History, own: set<Ino>, into: set<Ino>, step: Step, after: Disk)
    requires CodeConfined(h0, h, own, into) && Confined(h.disk, after, own, into)
    ensures CodeConfined(h0, Then(h, step, after), own, into)
  {}

  /** Only the name `name` of `dir` differs, and bytes of files stay. */
  ghost predicate EntriesDiffer(before: Disk, after: Disk, dir: Ino, name: Name) {
    && (forall d, n | !(d == dir && n == name) :: after.Entry(d, n) == before.Entry(d, n))
    && (forall i | before.Content(i).Some? :: after.Content(i) == before.Content(i))
  }

  lemma MkdirFacts(d: Disk, p: Path)
    requires d.Valid() && d.Mkdir(p).Success?
    ensures var r := d.Mkdir(p).value; var dir := d.DirAt(p.parent).value;
      && d.Entry(dir, p.name).None? && r.Entry(dir, p.name) == Some(d.next) && r.next == d.next + 1 && r.base == d.base
      && EntriesDiffer(d, r, dir, p.name)
      && r.Empty(d.next) && r.IsDir(dir) && r.KindOf(d.next) == DirectoryKind
      && Confined(d, r, {}, {dir})
  {
    var dir := d.DirAt(p.parent).value;
    NewEntryValid(d, dir, p.name, Dir(map[]));
    var a := d.Allocate(Dir(map[]));
    assert dir != d.next;
    assert a.Bind(dir, p.name, d.next).nodes[d.next] == Dir(map[]);
  }

  lemma CreateFacts(d: Disk, p: Path)
    requires d.Valid() && d.Create(p).Success?
    ensures var r := d.Create(p).value; var dir := d.DirAt(p.parent).value;
      && d.Entry(dir, p.name).None? && r.Entry(dir, p.name) == Some(d.next) && r.next == d.next + 1 && r.base == d.base
      && EntriesDiffer(d, r, dir, p.name)
      && r.IsFile(d.next) && r.IsDir(dir)
      && Confined(d, r, {}, {dir})
  {
    var dir := d.DirAt(p.parent).value;
    NewEntryValid(d, dir, p.name, File([]));
    assert dir != d.next;
  }

  /** No-follow owned-identity gate. */
  method RequireOwned(fs: FileSystem, p: Path, tracked: Identity, code: ErrorCode) returns (error: Option<Thrown>)
    requires fs.Valid()
    modifies fs`clock
    ensures fs.Valid() && fs.clock >= old(fs.clock)
    ensures error.None? ==> fs.disk.Lstat(p) == Some(tracked)
    ensures fs.Reliable(old(fs.clock)) && fs.disk.Lstat(p) == Some(tracked) ==> error.None?
  {
    var current := fs.Lstat(p);
    error := if current == Some(tracked) then None else Some(Coded(code));
  }

  /** Remove the entry at `p` only while it still is `tracked`, a directory
      only when empty; never forced. */
  method RemoveOwned(fs: FileSystem, p: Path, tracked: Identity, ghost h0: History, ghost own: set<Ino>,
                     ghost into: set<Ino>)
    requires fs.Valid() && p.Join? && tracked.ino in own
    requires CodeConfined(h0, fs.history, own, into)
    modifies fs
    ensures fs.Valid() && fs.clock >= old(fs.clock)
    ensures CodeConfined(h0, fs.history, own, into)
    ensures
      || fs.disk == old(fs.disk)
      || (old(fs.disk).Lstat(p) == Some(tracked) && old(fs.disk).DirAt(p.parent).Some?
          && fs.disk == old(fs.disk).Unbind(old(fs.disk).DirAt(p.parent).value, p.name))
    ensures Removing(old(fs.history), fs.history)
    ensures fs.Reliable(old(fs.clock)) && old(fs.disk).Lstat(p) == Some(tracked) ==>
      if tracked.kind == DirectoryKind && !old(fs.disk).Empty(tracked.ino) then fs.disk == old(fs.disk)
      else fs.disk == old(fs.disk).Unbind(old(fs.disk).DirAt(p.parent).value, p.name)
  {
    hide Sound, Disk.Valid, CodeConfined;
    ghost var h := fs.history;
    var current := fs.Lstat(p);
    if current == Some(tracked) {
      if tracked.kind == DirectoryKind {
        var _ := fs.Rmdir(p);
      } else {
        var _ := fs.Unlink(p);
      }
      if fs.history != h {
        assert fs.disk == h.disk.Unbind(h.disk.DirAt(p.parent).value, p.name);
        ConfinedStep(h0, h, own, into, fs.history.step, fs.disk);
      }
    }
  }

  // -------------------------------------------------------------------------
  // Exclusive initialization
  // -------------------------------------------------------------------------

  /** The entries one initialization has created so far. */
  datatype Made = Made(root: Option<Identity>, sources: Option<Identity>, record: Option<Identity>) {
    function Inos(): set<Ino> {
      (if root.Some? then {root.value.ino} else {})
      + (if sources.Some? then {sources.value.ino} else {})
      + (if record.Some? then {record.value.ino} else {})
    }

    function Slot(p: Path): Option<Ino> {
      if p == ROOT_PATH then InoOf(root) else if p == SOURCES_PATH then InoOf(sources) else InoOf(record)
    }

    predicate WellKinded() {
      && (root.Some? ==> root.value.kind == DirectoryKind)
      && (sources.Some? ==> root.Some? && sources.value.kind == DirectoryKind)
      && (record.Some? ==> sources.Some? && record.value.kind == FileKind)
      && (sources.Some? ==> sources.value.ino != root.value.ino)
      && (record.Some? ==> record.value.ino != root.value.ino && record.value.ino != sources.value.ino)
    }
  }

  const STORAGE_PATHS := {ROOT_PATH, SOURCES_PATH, RECORD_PATH}

  function InoOf(id: Option<Identity>): Option<Ino> {
    if id.Some? then Some(id.value.ino) else None
  }

  /** The disk is `d0` with exactly the entries `made` added. */
  ghost predicate Built(d0: Disk, d: Disk, made: Made) {
    && d.base == d0.base
    && (forall i | i in made.Inos() :: i >= d0.next)
    && (made.root.Some? ==> d.IsDir(made.root.value.ino) && d0.Entry(d0.base, OUTPUT_ROOT).None?)
    && (made.sources.Some? ==> d.IsDir(made.sources.value.ino))
    && (made.record.Some? ==> d.IsFile(made.record.value.ino))
    && forall x, n :: d.Entry(x, n) ==
         if made.root.Some? && x == d0.base && n == OUTPUT_ROOT then InoOf(made.root)
         else if made.root.Some? && x == made.root.value.ino then
           (if n == SOURCES then InoOf(made.sources) else if n == RECORD then InoOf(made.record) else None)
         else if made.sources.Some? && x == made.sources.value.ino then None
         else d0.Entry(x, n)
  }

  lemma BuiltPaths(d0: Disk, d: Disk, made: Made)
    requires d0.Valid() && d.Valid() && Built(d0, d, made) && made.WellKinded() && made.root.Some?
    ensures d.DirAt(Base) == Some(d.base)
    ensures d.Lstat(ROOT_PATH) == made.root && d.DirAt(ROOT_PATH) == InoOf(made.root)
    ensures d.Lstat(SOURCES_PATH) == made.sources && d.Lstat(RECORD_PATH) == made.record
  {
    assert d.DirAt(Base) == Some(d.base);
    LstatDirectory(d, ROOT_PATH, made.root.value);
  }

  lemma Unbuilt(d0: Disk, d: Disk, made: Made)
    requires d0.Valid() && d.Valid() && Built(d0, d, made) && made.WellKinded()
    ensures made.record.Some? ==> Built(d0, d.Unbind(made.root.value.ino, RECORD), made.(record := None))
    ensures made.record.None? && made.sources.Some? ==>
              d.Empty(made.sources.value.ino) && Built(d0, d.Unbind(made.root.value.ino, SOURCES), made.(sources := None))
    ensures made.sources.None? && made.root.Some? ==>
              d.Empty(made.root.value.ino) && Built(d0, d.Unbind(d.base, OUTPUT_ROOT), made.(root := None))
  {
    if made.record.Some? {
      var e := d.Unbind(made.root.value.ino, RECORD);
      assert forall i :: e.KindOf(i) == d.KindOf(i);
    } else if made.sources.Some? {
      EmptyDir(d, made.sources.value.ino);
      var e := d.Unbind(made.root.value.ino, SOURCES);
      assert forall i :: e.KindOf(i) == d.KindOf(i);
    } else if made.root.Some? {
      EmptyDir(d, made.root.value.ino);
    }
  }

  lemma EmptyDir(d: Disk, i: Ino)
    requires d.IsDir(i) && forall n :: d.Entry(i, n).None?
    ensures d.Empty(i)
  {
    forall n ensures n !in d.nodes[i].entries {
      assert d.Entry(i, n).None?;
    }
    assert d.nodes[i].entries == map[];
  }

  lemma BuiltNothing(d0: Disk, d: Disk)
    requires Built(d0, d, Made(None, None, None))
    ensures forall x, n :: d.Entry(x, n) == d0.Entry(x, n)
  {}

  /** Roll back what is still owned, children before the root. */
  method RollBack(fs: FileSystem, made: Made, ghost h0: History, ghost d0: Disk)
    requires fs.Valid() && d0.Valid() && made.WellKinded()
    requires CodeConfined(h0, fs.history, made.Inos(), {d0.base} + made.Inos())
    modifies fs
    ensures fs.Valid() && Removing(old(fs.history), fs.history)
    ensures CodeConfined(h0, fs.history, made.Inos(), {d0.base} + made.Inos())
    ensures fs.Reliable(old(fs.clock)) && Built(d0, old(fs.disk), made) ==>
              forall x, n :: fs.disk.Entry(x, n) == d0.Entry(x, n)
  {
    hide Built, Disk.Valid, Sound, Removing, CodeConfined, FileSystem.Played;
    ghost var own, into := made.Inos(), {d0.base} + made.Inos();
    ghost var exact := fs.Reliable(fs.clock) && Built(d0, fs.disk, made);
    ghost var start := fs.history;
    NothingRemoved(start);
    if made.record.Some? {
      if exact { BuiltPaths(d0, fs.disk, made); Unbuilt(d0, fs.disk, made); }
      ghost var h := fs.history;
      RemoveOwned(fs, RECORD_PATH, made.record.value, h0, own, into);
      RemovingTransitive(start, h, fs.history);
    }
    ghost var left := made.(record := None);
    assert exact ==> Built(d0, fs.disk, left);
    if made.sources.Some? {
      if exact { BuiltPaths(d0, fs.disk, left); Unbuilt(d0, fs.disk, left); }
      ghost var h := fs.history;
      RemoveOwned(fs, SOURCES_PATH, made.sources.value, h0, own, into);
      RemovingTransitive(start, h, fs.history);
    }
    left := left.(sources := None);
    assert exact ==> Built(d0, fs.disk, left);
    if made.root.Some? {
      if exact { BuiltPaths(d0, fs.disk, left); Unbuilt(d0, fs.disk, left); }
      ghost var h := fs.history;
      RemoveOwned(fs, ROOT_PATH, made.root.value, h0, own, into);
      RemovingTransitive(start, h, fs.history);
    }
    left := left.(root := None);
    assert exact ==> Built(d0, fs.disk, left);
    if exact { BuiltNothing(d0, fs.disk); }
  }

  lemma {:induction false} NothingRemoved(h: History)
    ensures Removing(h, h)
  {}

  /** `made` is what the history shows the program to have made. */
  ghost predicate Accounted(h0: History, h: History, made: Made) {
    && Extends(h0, h) && Quiet(h0, h, STORAGE_PATHS)
    && (forall p | p in STORAGE_PATHS :: MadeAt(h0, h, p) == made.Slot(p))
    && RecordOf(h0, h) == InoOf(made.record)
  }

  lemma {:induction false} AccountedOther(h0: History, h: History, made: Made, step: Step, after: Disk)
    requires Accounted(h0, h, made) && Working(h0, h) && (step == Environment || step.Write?)
    ensures Accounted(h0, Then(h, step, after), made) && Working(h0, Then(h, step, after))
  {
    OtherStep(h0, h, step, after, STORAGE_PATHS);
  }

  lemma {:induction false} AccountedMore(h0: History, h: History, made: Made, more: Made, step: Step, after: Disk)
    requires Accounted(h0, h, made) && Working(h0, h) && (step.Mkdir? || step.Create?) && step.path in STORAGE_PATHS
    requires step.Create? <==> step.path == RECORD_PATH
    requires forall p | p in STORAGE_PATHS :: more.Slot(p) == if p == step.path then Some(h.disk.next) else made.Slot(p)
    ensures Accounted(h0, Then(h, step, after), more) && Working(h0, Then(h, step, after))
  {
    CreateStep(h0, h, step, after, STORAGE_PATHS);
    assert made.Slot(RECORD_PATH) == InoOf(made.record) && more.Slot(RECORD_PATH) == InoOf(more.record);
  }

  /** What holds of an initialization that has created `made`. */
  ghost predicate Creating(h0: History, h: History, made: Made) {
    && Accounted(h0, h, made) && Working(h0, h)
    && made.WellKinded()
    && (forall i | i in made.Inos() :: h0.disk.next <= i < h.disk.next)
    && CodeConfined(h0, h, made.Inos(), {h0.disk.base} + made.Inos())
    && h.disk.base == h0.disk.base && h0.disk.next <= h.disk.next
  }

  lemma CreatingMore(h0: History, h: History, made: Made, more: Made, step: Step, dir: Ino, after: Disk)
    requires Creating(h0, h, made) && more.WellKinded() && (step.Mkdir? || step.Create?) && step.path in STORAGE_PATHS
    requires step.Create? <==> step.path == RECORD_PATH
    requires forall p | p in STORAGE_PATHS :: more.Slot(p) == if p == step.path then Some(h.disk.next) else made.Slot(p)
    requires made.Inos() <= more.Inos() && forall i | i in more.Inos() :: i in made.Inos() || i == h.disk.next
    requires dir in {h0.disk.base} + made.Inos() && Confined(h.disk, after, {}, {dir})
    requires after.next == h.disk.next + 1 && after.base == h.disk.base
    ensures Creating(h0, Then(h, step, after), more)
  {
    var own, into := more.Inos(), {h0.disk.base} + more.Inos();
    ConfinedMono(h0, h, made.Inos(), {h0.disk.base} + made.Inos(), own, into);
    ConfinedStep(h0, h, own, into, step, after);
    AccountedMore(h0, h, made, more, step, after);
  }

  lemma CreatingHook(h0: History, h: History, made: Made, after: Disk)
    requires Creating(h0, h, made) && Admissible(h.disk, after)
    ensures Creating(h0, Then(h, Environment, after), made)
  {
    ConfinedHook(h0, h, made.Inos(), {h0.disk.base} + made.Inos(), after);
    AccountedOther(h0, h, made, Environment, after);
  }

  lemma RootMade(h0: History, made: Made, after: Disk)
    requires h0.disk.Valid() && h0.disk.Mkdir(ROOT_PATH) == Success(after)
    requires made == Made(Some(Identity(h0.disk.next, DirectoryKind)), None, None)
    ensures Creating(h0, Then(h0, Step.Mkdir(ROOT_PATH), after), made) && Built(h0.disk, after, made)
  {
    MkdirFacts(h0.disk, ROOT_PATH);
    CreatingMore(h0, h0, Made(None, None, None), made, Step.Mkdir(ROOT_PATH), h0.disk.base, after);
    EmptyEntries(after, h0.disk.next);
  }

  lemma NothingMade(h0: History)
    requires h0.disk.Valid()
    ensures var none := Made(None, None, None); Creating(h0, h0, none) && Built(h0.disk, h0.disk, none)
    ensures h0.disk.Entry(h0.disk.base, OUTPUT_ROOT).None? ==> h0.disk.Mkdir(ROOT_PATH).Success?
  {}

  /** The exclusive output root. */
  method MakeRoot(fs: FileSystem, ghost h0: History) returns (error: Option<Thrown>, made: Made)
    requires fs.Valid() && fs.history == h0
    modifies fs
    ensures fs.Valid() && fs.clock >= old(fs.clock)
    ensures Creating(h0, fs.history, made) && made.sources.None? && made.record.None?
    ensures fs.Passive() ==> Built(h0.disk, fs.disk, made)
    ensures error.None? ==> made.root.Some? && fs.disk.Lstat(ROOT_PATH) == made.root
    ensures fs.Calm() && h0.disk.Entry(h0.disk.base, OUTPUT_ROOT).None? ==> error.None?
  {
    hide Sound, Built, CodeConfined, Disk.Valid, Accounted, Working, Wrote, FileSystem.Played;
    NothingMade(h0);
    made := Made(None, None, None);
    var id := Identity(fs.disk.next, DirectoryKind);
    var failed := fs.Mkdir(ROOT_PATH);
    if failed.Some? {
      return Some(Coded(if failed == Some(EEXIST) then EXISTING_OUTPUT else STORAGE_IO)), made;
    }
    made := Made(Some(id), None, None);
    RootMade(h0, made, fs.disk);
    ghost var h := fs.history;
    error := fs.Hook();                                                 // afterRootCreate
    CreatingHook(h0, h, made, fs.disk);
    if fs.Passive() { BuiltPaths(h0.disk, fs.disk, made); }
    if error.Some? { return; }
    error := RequireOwned(fs, ROOT_PATH, id, STORAGE_IO);
  }

  lemma EmptyEntries(d: Disk, i: Ino)
    requires d.Empty(i)
    ensures forall n :: d.Entry(i, n).None?
  {}

  lemma SourcesMade(h0: History, h: History, made: Made, more: Made, after: Disk)
    requires h0.disk.Valid() && h.disk.Valid() && Creating(h0, h, made)
    requires made.root.Some? && made.sources.None? && made.record.None?
    requires more == made.(sources := Some(Identity(h.disk.next, DirectoryKind)))
    requires h.disk.DirAt(ROOT_PATH) == InoOf(made.root) && h.disk.Mkdir(SOURCES_PATH) == Success(after)
    ensures Creating(h0, Then(h, Step.Mkdir(SOURCES_PATH), after), more)
    ensures Built(h0.disk, h.disk, made) ==> Built(h0.disk, after, more)
  {
    MkdirFacts(h.disk, SOURCES_PATH);
    CreatingMore(h0, h, made, more, Step.Mkdir(SOURCES_PATH), made.root.value.ino, after);
    EmptyEntries(after, h.disk.next);
    if Built(h0.disk, h.disk, made) {
      assert forall x, n | x == h.disk.next :: after.Entry(x, n).None?;
      assert after.IsDir(made.root.value.ino);
    }
  }

  lemma RecordMade(h0: History, h: History, made: Made, more: Made, after: Disk)
    requires h0.disk.Valid() && h.disk.Valid() && Creating(h0, h, made)
    requires made.sources.Some? && made.record.None?
    requires more == made.(record := Some(Identity(h.disk.next, FileKind)))
    requires h.disk.DirAt(ROOT_PATH) == InoOf(made.root) && h.disk.Create(RECORD_PATH) == Success(after)
    ensures Creating(h0, Then(h, Step.Create(RECORD_PATH), after), more)
    ensures after.IsFile(h.disk.next) && RecordSits(after, more)
    ensures Built(h0.disk, h.disk, made) ==> Built(h0.disk, after, more)
  {
    hide Disk.Valid, Disk.Create, Disk.DirAt, Creating, Confined, Built;
    CreateFacts(h.disk, RECORD_PATH);
    MadeRoot(h0, h, made);
    CreatingMore(h0, h, made, more, Step.Create(RECORD_PATH), made.root.value.ino, after);
    if Built(h0.disk, h.disk, made) {
      DirStays(h.disk, RECORD_PATH, made.root.value.ino);
      BuiltSources(h0.disk, h.disk, made);
      DirStays(h.disk, RECORD_PATH, made.sources.value.ino);
      BuiltRecord(h0.disk, h.disk, after, made, more);
    }
  }

  lemma MadeRoot(h0: History, h: History, made: Made)
    requires Creating(h0, h, made) && made.sources.Some? && h.disk.DirAt(ROOT_PATH) == InoOf(made.root)
    ensures made.root.Some? && h.disk.IsDir(made.root.value.ino) && made.WellKinded()
    ensures h.disk.base == h0.disk.base && h0.disk.next <= h.disk.next
    ensures made.root.value.ino < h.disk.next && made.sources.value.ino < h.disk.next
  {
    assert made.root.value.ino in made.Inos() && made.sources.value.ino in made.Inos();
  }

  lemma BuiltSources(d0: Disk, d: Disk, made: Made)
    requires Built(d0, d, made) && made.sources.Some?
    ensures d.IsDir(made.sources.value.ino)
  {}

  lemma BuiltRecord(d0: Disk, d: Disk, after: Disk, made: Made, more: Made)
    requires Built(d0, d, made) && made.root.Some? && made.sources.Some? && made.record.None?
    requires more == made.(record := Some(Identity(d.next, FileKind))) && d.next >= d0.next && after.base == d.base
    requires after.IsFile(d.next) && after.IsDir(made.root.value.ino) && after.IsDir(made.sources.value.ino)
    requires forall x, n ::
      after.Entry(x, n) == if x == made.root.value.ino && n == RECORD then Some(d.next) else d.Entry(x, n)
    ensures Built(d0, after, more)
  {}

  lemma DirStays(d: Disk, p: Path, i: Ino)
    requires d.Valid() && d.Create(p).Success? && d.IsDir(i)
    ensures d.Create(p).value.IsDir(i)
  {
    assert d.Create(p).value.KindOf(i) == d.KindOf(i) by {
      NewEntryValid(d, d.DirAt(p.parent).value, p.name, File([]));
    }
  }

  /** The exclusive sources directory under the owned root. */
  method MakeSources(fs: FileSystem, made: Made, ghost h0: History) returns (error: Option<Thrown>, more: Made)
    requires fs.Valid() && Creating(h0, fs.history, made) && h0.disk.Valid()
    requires made.root.Some? && made.sources.None? && made.record.None?
    requires fs.disk.Lstat(ROOT_PATH) == made.root
    modifies fs
    ensures fs.Valid() && fs.clock >= old(fs.clock)
    ensures Creating(h0, fs.history, more) && more.root == made.root && more.record.None?
    ensures fs.Passive() && Built(h0.disk, old(fs.disk), made) ==> Built(h0.disk, fs.disk, more)
    ensures error.None? ==> more.sources.Some?
    ensures error.None? ==> fs.disk.Lstat(ROOT_PATH) == more.root && fs.disk.Lstat(SOURCES_PATH) == more.sources
    ensures fs.Calm() && Built(h0.disk, old(fs.disk), made) ==> error.None?
  {
    hide Built, Disk.Valid, CodeConfined, Sound, Accounted, Working, Wrote, FileSystem.Played;
    more := made;
    LstatDirectory(fs.disk, ROOT_PATH, made.root.value);
    ghost var h := fs.history;
    if Built(h0.disk, fs.disk, made) { BuiltPaths(h0.disk, fs.disk, made); }
    var id := Identity(fs.disk.next, DirectoryKind);
    var failed := fs.Mkdir(SOURCES_PATH);
    if failed.Some? {
      return Some(Coded(if failed == Some(EEXIST) then EXISTING_OUTPUT else STORAGE_IO)), more;
    }
    more := made.(sources := Some(id));
    SourcesMade(h0, h, made, more, fs.disk);
    h := fs.history;
    error := fs.Hook();                                                 // afterSourcesCreate
    CreatingHook(h0, h, more, fs.disk);
    if Built(h0.disk, fs.disk, more) { BuiltPaths(h0.disk, fs.disk, more); }
    if error.Some? { return; }
    error := RequireOwned(fs, ROOT_PATH, made.root.value, STORAGE_IO);
    if error.Some? { return; }
    error := RequireOwned(fs, SOURCES_PATH, id, STORAGE_IO);
  }

  /** The record file is at its name in the owned root. */
  ghost predicate RecordSits(d: Disk, made: Made) {
    && made.root.Some? && made.record.Some?
    && d.Entry(made.root.value.ino, RECORD) == Some(made.record.value.ino) && d.IsFile(made.record.value.ino)
  }

  lemma AloofSits(before: Disk, after: Disk, made: Made)
    requires RecordSits(before, made) && made.sources.Some?
    requires Aloof(before, after, made.root.value.ino, made.sources.value.ino)
    ensures RecordSits(after, made)
    ensures after.Content(made.record.value.ino) == before.Content(made.record.value.ino)
  {}

  lemma WriteSits(d: Disk, made: Made, bytes: Bytes)
    requires RecordSits(d, made)
    ensures RecordSits(d.Write(made.record.value.ino, bytes), made)
  {}

  /** A hook after at most one step of the program. */
  lemma {:induction false} HookLast(h0: History, h: History, after: Disk, made: Made)
    requires h == h0 || (h.Then? && h.prev == h0)
    ensures Extends(h0, h) && Extends(h0, Then(h, Environment, after))
    ensures RecordSits(h.disk, made) && AloofTo(h0, Then(h, Environment, after), made) ==>
              RecordSits(after, made) && after.Content(made.record.value.ino) == h.disk.Content(made.record.value.ino)
  {
    if RecordSits(h.disk, made) && AloofTo(h0, Then(h, Environment, after), made) {
      assert Then(h, Environment, after) != h0 by {
        ExtendsLength(h0, h);
      }
      AloofSits(h.disk, after, made);
    }
  }

  ghost predicate AloofTo(h0: History, h: History, made: Made) {
    made.root.Some? && made.sources.Some? && AloofSince(h0, h, made.root.value.ino, made.sources.value.ino)
  }

  /** The exclusive record file under the owned root; it is still empty. */
  method OpenRecord(fs: FileSystem, made: Made, ghost h0: History) returns (error: Option<Thrown>, more: Made)
    requires fs.Valid() && Creating(h0, fs.history, made) && h0.disk.Valid()
    requires made.sources.Some? && made.record.None?
    requires fs.disk.Lstat(ROOT_PATH) == made.root
    modifies fs
    ensures fs.Valid() && fs.clock >= old(fs.clock)
    ensures Creating(h0, fs.history, more) && more.root == made.root && more.sources == made.sources
    ensures fs.Passive() && Built(h0.disk, old(fs.disk), made) ==> Built(h0.disk, fs.disk, more)
    ensures error.None? ==> more.record.Some?
    ensures more.record.Some? ==> fs.disk.IsFile(more.record.value.ino)
    ensures Extends(old(fs.history), fs.history)
    ensures error.None? && AloofTo(old(fs.history), fs.history, more) ==> RecordSits(fs.disk, more)
    ensures fs.Calm() && Built(h0.disk, old(fs.disk), made) ==> error.None?
  {
    hide Built, Disk.Valid, CodeConfined, RecordSits, AloofTo, Extends, Sound, Accounted, Working, Wrote,
         FileSystem.Played;
    more := made;
    LstatDirectory(fs.disk, ROOT_PATH, made.root.value);
    ghost var h := fs.history;
    ghost var start := h;
    HookLast(start, start, fs.disk, made);
    if Built(h0.disk, fs.disk, made) { BuiltPaths(h0.disk, fs.disk, made); }
    var failed, ino := fs.Create(RECORD_PATH);
    if failed.Some? {
      return Some(Coded(if failed == Some(EEXIST) then EXISTING_OUTPUT else RECORD_IO)), more;
    }
    more := made.(record := Some(Identity(ino, FileKind)));
    RecordMade(h0, h, made, more, fs.disk);
    h := fs.history;
    error := fs.Hook();                                                 // afterRecordOpen
    CreatingHook(h0, h, more, fs.disk);
    HookLast(start, h, fs.disk, more);
    KindStays(h.disk, fs.disk, ino);
  }

  lemma KindStays(before: Disk, after: Disk, i: Ino)
    requires Admissible(before, after) && before.IsFile(i)
    ensures after.IsFile(i)
  {
    assert after.KindOf(i) == before.KindOf(i);
  }

  lemma CreatingWrite(h0: History, h: History, made: Made, bytes: Bytes, after: Disk)
    requires Creating(h0, h, made) && made.record.Some? && h.disk.IsFile(made.record.value.ino)
    requires after == h.disk.Write(made.record.value.ino, bytes)
    ensures Creating(h0, Then(h, Step.Write(made.record.value.ino), after), made)
    ensures Built(h0.disk, h.disk, made) ==> Built(h0.disk, after, made)
  {
    ConfinedStep(h0, h, made.Inos(), {h0.disk.base} + made.Inos(), Step.Write(made.record.value.ino), after);
    AccountedOther(h0, h, made, Step.Write(made.record.value.ino), after);
    assert forall i :: after.KindOf(i) == h.disk.KindOf(i);
  }

  /** Write the canonical bytes through the handle and read them back. */
  method FillRecord(fs: FileSystem, bytes: Bytes, made: Made, ghost h0: History) returns (error: Option<Thrown>)
    requires fs.Valid() && Creating(h0, fs.history, made) && h0.disk.Valid()
    requires made.record.Some? && fs.disk.IsFile(made.record.value.ino)
    modifies fs
    ensures fs.Valid() && fs.clock >= old(fs.clock)
    ensures Creating(h0, fs.history, made)
    ensures fs.Passive() && Built(h0.disk, old(fs.disk), made) ==> Built(h0.disk, fs.disk, made)
    ensures error.None? ==>
      fs.disk.Follow(RECORD_PATH).Some? && fs.disk.Content(fs.disk.Follow(RECORD_PATH).value) == Some(bytes)
    ensures Extends(old(fs.history), fs.history)
    ensures error.None? ==> Wrote(old(fs.history), fs.history, made.record.value.ino, bytes)
    ensures error.None? && RecordSits(old(fs.disk), made) && AloofTo(old(fs.history), fs.history, made) ==>
              RecordSits(fs.disk, made) && fs.disk.Content(made.record.value.ino) == Some(bytes)
    ensures fs.Calm() && Built(h0.disk, old(fs.disk), made) ==> error.None?
  {
    hide Built, Disk.Valid, CodeConfined, RecordSits, AloofTo, Extends, Sound, Accounted, Working, Wrote,
         FileSystem.Played;
    ghost var h := fs.history;
    ghost var start := h;
    var ok := fs.Write(made.record.value.ino, bytes);
    ghost var some :| fs.disk == h.disk.Write(made.record.value.ino, some) && (ok ==> some == bytes);
    CreatingWrite(h0, h, made, some, fs.disk);
    if RecordSits(h.disk, made) { WriteSits(h.disk, made, some); }
    HookLast(start, fs.history, fs.disk, made);
    if !ok { return Some(Coded(RECORD_IO)); }
    WroteNow(start, made.record.value.ino, bytes, fs.disk);
    h := fs.history;
    error := fs.Hook();                                                 // afterRecordCommit
    WroteThen(start, h, made.record.value.ino, bytes, fs.disk);
    CreatingHook(h0, h, made, fs.disk);
    HookLast(start, h, fs.disk, made);
    if Built(h0.disk, fs.disk, made) { BuiltPaths(h0.disk, fs.disk, made); }
    if error.Some? { return; }
    var readBack := fs.ReadFile(RECORD_PATH);
    if readBack != Some(bytes) { error := Some(Coded(RECORD_IO)); }
  }

  /** Root, sources and record must all still be the owned entries. */
  method Revalidate(fs: FileSystem, made: Made, ghost h0: History) returns (error: Option<Thrown>)
    requires fs.Valid() && Creating(h0, fs.history, made) && h0.disk.Valid()
    requires made.record.Some?
    modifies fs
    ensures fs.Valid() && fs.clock >= old(fs.clock)
    ensures Creating(h0, fs.history, made)
    ensures fs.Passive() ==> fs.disk == old(fs.disk)
    ensures error.None? ==>
      && fs.disk.Lstat(ROOT_PATH) == made.root && fs.disk.Lstat(SOURCES_PATH) == made.sources
      && fs.disk.Lstat(RECORD_PATH) == made.record
    ensures Extends(old(fs.history), fs.history)
    ensures RecordSits(old(fs.disk), made) && AloofTo(old(fs.history), fs.history, made) ==>
              RecordSits(fs.disk, made) && fs.disk.Content(made.record.value.ino) == old(fs.disk).Content(made.record.value.ino)
    ensures fs.Calm() && Built(h0.disk, old(fs.disk), made) ==> error.None?
  {
    hide Built, Disk.Valid, CodeConfined, RecordSits, AloofTo, Extends, Sound, Accounted, Working, Wrote,
         FileSystem.Played;
    ghost var h := fs.history;
    error := fs.Hook();                                                 // afterRecordReadBack
    CreatingHook(h0, h, made, fs.disk);
    HookLast(h, h, fs.disk, made);
    if Built(h0.disk, fs.disk, made) { BuiltPaths(h0.disk, fs.disk, made); }
    if error.Some? { return; }
    error := RequireOwned(fs, ROOT_PATH, made.root.value, STORAGE_IO);
    if error.Some? { return; }
    error := RequireOwned(fs, SOURCES_PATH, made.sources.value, STORAGE_IO);
    if error.Some? { return; }
    error := RequireOwned(fs, RECORD_PATH, made.record.value, STORAGE_IO);
  }

  lemma {:induction false} CreatingExtends(h0: History, h: History, made: Made)
    requires Creating(h0, h, made)
    ensures Extends(h0, h)
  {
    ConfinedExtends(h0, h, made.Inos(), {h0.disk.base} + made.Inos());
  }

  lemma {:induction false} AloofPieces(h0: History, h1: History, h2: History, h3: History, h4: History, made: Made)
    requires Extends(h0, h1) && Extends(h1, h2) && Extends(h2, h3) && Extends(h3, h4) && AloofTo(h0, h4, made)
    ensures AloofTo(h1, h2, made) && AloofTo(h2, h3, made) && AloofTo(h3, h4, made)
  {
    var root, sources := made.root.value.ino, made.sources.value.ino;
    ExtendsTransitive(h0, h1, h2);
    ExtendsTransitive(h0, h2, h3);
    AloofSplit(h0, h3, h4, root, sources);
    AloofSplit(h0, h2, h3, root, sources);
    AloofSplit(h0, h1, h2, root, sources);
  }

  /** The guarded part of the initialization. */
  method CreateStorage(fs: FileSystem, bytes: Bytes, ghost h0: History) returns (error: Option<Thrown>, made: Made)
    requires fs.Valid() && fs.history == h0
    modifies fs
    ensures fs.Valid() && fs.clock >= old(fs.clock)
    ensures Creating(h0, fs.history, made)
    ensures fs.Passive() ==> Built(h0.disk, fs.disk, made)
    ensures error.None? ==>
      && made.record.Some?
      && fs.disk.Lstat(ROOT_PATH) == made.root && fs.disk.Lstat(SOURCES_PATH) == made.sources
      && fs.disk.Lstat(RECORD_PATH) == made.record
    ensures error.None? ==> Wrote(h0, fs.history, made.record.value.ino, bytes)
    ensures error.None? && fs.Passive() ==> fs.disk.Content(made.record.value.ino) == Some(bytes)
    ensures error.None? && AloofTo(h0, fs.history, made) ==>
              RecordSits(fs.disk, made) && fs.disk.Content(made.record.value.ino) == Some(bytes)
    ensures fs.Calm() && h0.disk.Entry(h0.disk.base, OUTPUT_ROOT).None? ==> error.None?
  {
    hide Built, Disk.Valid, CodeConfined, Sound, Accounted, Working, Wrote, FileSystem.Played;
    error, made := MakeRoot(fs, h0);
    if error.Some? { return; }
    error, made := MakeSources(fs, made, h0);
    if error.Some? { return; }
    ghost var h1 := fs.history;
    CreatingExtends(h0, h1, made);
    error, made := OpenRecord(fs, made, h0);
    if error.Some? { return; }
    ghost var h2 := fs.history;
    error := FillRecord(fs, bytes, made, h0);
    if error.Some? { return; }
    ghost var h3 := fs.history;
    if Built(h0.disk, fs.disk, made) { BuiltPaths(h0.disk, fs.disk, made); }
    CreatingExtends(h0, h2, made);
    WroteLater(h0, h2, h3, made.record.value.ino, bytes);
    error := Revalidate(fs, made, h0);
    ExtendsTransitive(h0, h2, h3);
    WroteLater(h0, h3, fs.history, made.record.value.ino, bytes);
    if AloofTo(h0, fs.history, made) { AloofPieces(h0, h1, h2, h3, fs.history, made); }
  }

  lemma {:induction false} CreatingCaught(h0: History, h: History, made: Made, at: nat)
    requires Creating(h0, h, made)
    ensures CodeConfined(h0, Then(h, Caught(at), h.disk), made.Inos(), {h0.disk.base} + made.Inos())
    ensures Accounted(h0, h, made) && Working(h0, h) && made.WellKinded()
      && forall i | i in made.Inos() :: i >= h0.disk.next
  {
    ConfinedStep(h0, h, made.Inos(), {h0.disk.base} + made.Inos(), Caught(at), h.disk);
  }

  lemma {:induction false} HandledAccount(h0: History, h: History, made: Made, at: nat, h2: History)
    requires Accounted(h0, h, made) && Working(h0, h) && Removing(Then(h, Caught(at), h.disk), h2)
    ensures Accounted(h0, h2, made) && Failed(h0, h2) && HandledAt(h0, h2) == Some(at)
  {
    hide Working, Removing, Failed, Extends, Quiet;
    HandlerMakesNothing(h0, h, at, h2, STORAGE_PATHS);
    FailedSince(h0, h, at, h2);
    HandlerRecord(h0, h, at, h2);
  }

  lemma {:induction false} HandlerRecord(h0: History, h: History, at: nat, h2: History)
    requires Extends(h0, h) && Removing(Then(h, Caught(at), h.disk), h2)
    ensures RecordOf(h0, h2) == RecordOf(h0, h)
  {
    ExtendsLength(h0, h);
    RemovingLength(Then(h, Caught(at), h.disk), h2);
    if h2 != Then(h, Caught(at), h.disk) { HandlerRecord(h0, h, at, h2.prev); }
  }

  /** Exclusive initialization of the storage with the initial record. */
  method InitializeCollectionStorage(fs: FileSystem, bytes: Bytes)
    returns (error: Option<Thrown>, storage: CollectionStorage?, ghost made: Made)
    requires fs.Valid()
    modifies fs
    ensures fs.Valid()
    ensures error.None? <==> storage != null
    // `made` is what it created, and nothing that existed before is touched.
    ensures Accounted(old(fs.history), fs.history, made) && made.WellKinded()
    ensures (forall i | i in made.Inos() :: i >= old(fs.disk.next))
    ensures CodeConfined(old(fs.history), fs.history, made.Inos(), {old(fs.disk.base)} + made.Inos())
    // Success: the three owned entries are in place under the tracked identities.
    ensures storage != null ==>
      && fresh(storage) && Owns(fs.disk, storage) && Working(old(fs.history), fs.history)
      && fs.disk.Lstat(ROOT_PATH) == Some(storage.rootIdentity)
      && fs.disk.Lstat(SOURCES_PATH) == Some(storage.sourcesIdentity)
      && fs.disk.Lstat(RECORD_PATH) == Some(storage.recordIdentity)
      && Wrote(old(fs.history), fs.history, storage.recordIdentity.ino, bytes)
      && (fs.Passive() ==>
            && Built(old(fs.disk), fs.disk, made)
            && fs.disk.Content(storage.recordIdentity.ino) == Some(bytes))
      && made == Made(Some(storage.rootIdentity), Some(storage.sourcesIdentity), Some(storage.recordIdentity))
    // An aloof environment leaves the record in place, byte for byte.
    ensures storage != null && AloofTo(old(fs.history), fs.history, made) ==>
              RecordSits(fs.disk, made) && fs.disk.Content(storage.recordIdentity.ino) == Some(bytes)
    // Failure: the handler removes only what was made; undisturbed, every directory is as it was.
    ensures storage == null ==> Failed(old(fs.history), fs.history)
    ensures storage == null && fs.Passive() && HandledReliably(fs, old(fs.history), fs.history) ==>
              forall d, n :: fs.disk.Entry(d, n) == old(fs.disk).Entry(d, n)
    ensures fs.Calm() && old(fs.disk).Entry(old(fs.disk).base, OUTPUT_ROOT).None? ==> storage != null
  {
    hide Built, Disk.Valid, CodeConfined, Sound, FileSystem.Played, Failed, Removing, Working, Accounted, AloofTo,
         RecordSits, Wrote;
    ghost var h0 := fs.history;
    var entries;
    error, entries := CreateStorage(fs, bytes, h0);
    made, storage := entries, null;
    if error.Some? {
      ghost var h := fs.history;
      fs.Catch();
      ghost var at := fs.clock;
      CreatingCaught(h0, h, made, at);
      RollBack(fs, entries, h0, h0.disk);
      HandledAccount(h0, h, made, at, fs.history);
    } else {
      storage := new CollectionStorage(entries.root.value, entries.sources.value, entries.record.value);
    }
  }
}

