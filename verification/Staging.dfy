/** Populating the staging directory: exclusive creation, one recorded entry at a
    time, reading back and the snapshot
    (commander-native-tool-benchmark-v2-prepare.ts). */
module Staging {
  import opened Outcomes
  import opened FileSystem
  import opened Reliance
  import opened Lifecycle
  import opened TreeRollback
  import opened Text
  import opened StagingTree
  import opened Ownership

  const STAGING_PREFIX: Name := ".nro-v2-prepare-staging-"
  const STAGING_CREATE_RETRIES: nat := 8
  const STAGING_SUFFIX_MAX_BYTES: nat := 64

  // -------------------------------------------------------------------------
  // What holds while the tree grows
  // -------------------------------------------------------------------------

  /** The run has made the staging directory `s` at `top` and entries below it,
      neither output, and no hook has run. */
  ghost predicate Account(h0: History, h: History, top: Name, s: Ino) {
    && Extends(h0, h) && OwnSteps(h0, h, false) && Working(h0, h) && !HookRan(h0, h)
    && (forall i | i in Claimed(h0, h) :: i >= h0.disk.next)
    && top !in {EVIDENCE, MANIFEST} && MadeAt(h0, h, Join(Base, top)) == Some(s)
    && MadeAt(h0, h, EVIDENCE_PATH).None? && MadeAt(h0, h, MANIFEST_PATH).None?
  }

  /** The places of the tree are those the history shows to have been made. */
  ghost predicate Ledger(h0: History, h: History, top: Name, s: Ino) {
    && (forall rel :: MadeAt(h0, h, Below(Join(Base, top), rel)).Some? <==> Walk(h.disk, s, rel).Some?)
    && (forall p | MadeAt(h0, h, p).Some? :: IsBelow(p, top))
  }

  ghost predicate IsBelow(p: Path, top: Name) {
    exists rel :: p == Below(Join(Base, top), rel)
  }

  /** The tree is what the items `done` describe, all of it the run's own, and
      `recorded` is true of it. */
  ghost predicate Growing(h0: History, h: History, top: Name, s: Ino, done: seq<Item>, recorded: seq<Owned>) {
    && Account(h0, h, top, s) && Ledger(h0, h, top, s)
    && Layout(h0.disk, h.disk, s, map[top := s]) && TreeIs(h.disk, s, done)
    && Mine(h.disk, s, Claimed(h0, h)) && Records(h.disk, s, recorded)
  }

  ghost predicate HasPlace(recorded: seq<Owned>, rel: Rel) {
    exists o :: o in recorded && o.rel == rel
  }

  /** What is recorded is what the history shows to have been inspected. */
  ghost predicate Notes(h0: History, h: History, top: Name, recorded: seq<Owned>) {
    forall rel :: Performed(h0, h, Inspected(Below(Join(Base, top), rel))) <==> HasPlace(recorded, rel)
  }

  /** So the record is complete exactly when everything made was inspected. */
  lemma {:induction false} CoveredIff(h0: History, h: History, top: Name, s: Ino, done: seq<Item>, recorded: seq<Owned>)
    requires Growing(h0, h, top, s, done, recorded) && Notes(h0, h, top, recorded)
    ensures Covered(h.disk, s, recorded) <==> AllInspected(h0, h)
  {
    hide Account, Layout, TreeIs, Mine, Walk, Below, MadeAt, Performed;
    if Covered(h.disk, s, recorded) {
      forall p | MadeAt(h0, h, p).Some? ensures Performed(h0, h, Inspected(p)) {
        assert IsBelow(p, top);
        var rel :| p == Below(Join(Base, top), rel);
        assert OwnedAt(h.disk, s, recorded, rel);
        assert HasPlace(recorded, rel);
      }
    }
    if AllInspected(h0, h) {
      forall rel | Walk(h.disk, s, rel).Some? ensures OwnedAt(h.disk, s, recorded, rel) {
        assert MadeAt(h0, h, Below(Join(Base, top), rel)).Some?;
        assert HasPlace(recorded, rel);
      }
    }
  }

  lemma {:induction false} BelowInjective(root: Path, a: Rel, b: Rel)
    requires Below(root, a) == Below(root, b)
    ensures a == b
  {
    BelowDepth(root, a);
    BelowDepth(root, b);
    if a != [] {
      BelowInjective(root, a[..|a| - 1], b[..|b| - 1]);
      assert a == a[..|a| - 1] + [a[|a| - 1]] && b == b[..|b| - 1] + [b[|b| - 1]];
    }
  }

  lemma {:induction false} BelowDepth(root: Path, rel: Rel)
    ensures Depth(Below(root, rel)) == Depth(root) + |rel|
  {
    if rel != [] { BelowDepth(root, rel[..|rel| - 1]); }
  }

  /** One place more. */
  lemma {:induction false} LedgerGrow(h0: History, h: History, h2: History, top: Name, s: Ino, at: Rel)
    requires Ledger(h0, h, top, s)
    requires forall rel :: Walk(h2.disk, s, rel).Some? <==> rel == at || Walk(h.disk, s, rel).Some?
    requires forall p :: MadeAt(h0, h2, p).Some? <==> p == Below(Join(Base, top), at) || MadeAt(h0, h, p).Some?
    ensures Ledger(h0, h2, top, s)
  {
    hide Walk, Below, MadeAt;
    forall rel ensures MadeAt(h0, h2, Below(Join(Base, top), rel)).Some? <==> Walk(h2.disk, s, rel).Some? {
      if Below(Join(Base, top), rel) == Below(Join(Base, top), at) { BelowInjective(Join(Base, top), rel, at); }
    }
  }

  /** Steps that are no inspection leave the notes as they are. */
  lemma {:induction false} NotesStay(h0: History, h: History, step: Step, after: Disk, top: Name, recorded: seq<Owned>)
    requires Extends(h0, h) && !step.Inspected? && Notes(h0, h, top, recorded)
    ensures Notes(h0, Then(h, step, after), top, recorded)
  {
    hide Below, HasPlace;
    ExtendsLength(h0, h);
  }

  lemma {:induction false} NotesPut(h0: History, h: History, top: Name, recorded: seq<Owned>, o: Owned)
    requires Extends(h0, h) && Notes(h0, h, top, recorded) && DistinctPlaces(recorded)
    ensures Notes(h0, Then(h, Inspected(Below(Join(Base, top), o.rel)), h.disk), top, Put(recorded, o))
  {
    hide Below, Put, DistinctPlaces;
    ExtendsLength(h0, h);
    PutMembers(recorded, o);
    var h2, more := Then(h, Inspected(Below(Join(Base, top), o.rel)), h.disk), Put(recorded, o);
    forall rel ensures Performed(h0, h2, Inspected(Below(Join(Base, top), rel))) <==> HasPlace(more, rel) {
      if Below(Join(Base, top), rel) == Below(Join(Base, top), o.rel) { BelowInjective(Join(Base, top), rel, o.rel); }
      if rel == o.rel {
        assert o in more;
      } else if HasPlace(recorded, rel) {
        var x :| x in recorded && x.rel == rel;
        assert x in more;
      }
    }
  }

  lemma {:induction false} AccountStart(h0: History, top: Name, after: Disk)
    requires top !in {EVIDENCE, MANIFEST} && Confined(h0.disk, after, {}, {h0.disk.base})
    ensures Account(h0, Then(h0, Step.Mkdir(Join(Base, top)), after), top, h0.disk.next)
    ensures Claimed(h0, Then(h0, Step.Mkdir(Join(Base, top)), after)) == {h0.disk.next}
  {
    var step := Step.Mkdir(Join(Base, top));
    NothingOwned(h0, false);
    CreateStep(h0, h0, step, after, {});
    OwnStep(h0, h0, false, step, after, {}, {h0.disk.base});
    assert MadeAt(h0, h0, EVIDENCE_PATH).None? && MadeAt(h0, h0, MANIFEST_PATH).None?;
  }

  lemma {:induction false} AccountCreate(h0: History, h: History, top: Name, s: Ino, step: Step, after: Disk, dir: Ino)
    requires Account(h0, h, top, s) && (step.Mkdir? || step.Create?) && step.path.Join? && step.path.parent.Join?
    requires Confined(h.disk, after, {}, {dir}) && dir in Claimed(h0, h) && h.disk.next >= h0.disk.next
    ensures Account(h0, Then(h, step, after), top, s)
    ensures Claimed(h0, Then(h, step, after)) == Claimed(h0, h) + {h.disk.next}
  {
    CreateStep(h0, h, step, after, {});
    OwnStep(h0, h, false, step, after, {}, {dir});
  }

  lemma {:induction false} AccountWrite(h0: History, h: History, top: Name, s: Ino, i: Ino, bytes: Bytes)
    requires Account(h0, h, top, s) && i in Claimed(h0, h) && h.disk.IsFile(i)
    ensures Account(h0, Then(h, Step.Write(i), h.disk.Write(i, bytes)), top, s)
    ensures Claimed(h0, Then(h, Step.Write(i), h.disk.Write(i, bytes))) == Claimed(h0, h)
  {
    OtherStep(h0, h, Step.Write(i), h.disk.Write(i, bytes), {});
    OwnStep(h0, h, false, Step.Write(i), h.disk.Write(i, bytes), {i}, {});
  }

  lemma {:induction false} AccountInspect(h0: History, h: History, top: Name, s: Ino, p: Path)
    requires Account(h0, h, top, s)
    ensures Account(h0, Then(h, Inspected(p), h.disk), top, s)
    ensures Claimed(h0, Then(h, Inspected(p), h.disk)) == Claimed(h0, h)
    ensures forall q :: MadeAt(h0, Then(h, Inspected(p), h.disk), q) == MadeAt(h0, h, q)
  {
    OtherStep(h0, h, Inspected(p), h.disk, {});
    OwnStep(h0, h, false, Inspected(p), h.disk, {}, {});
  }

  /** An entry of the tree is inspected and recorded. */
  lemma {:induction false} GrowingRecorded(h0: History, h: History, top: Name, s: Ino, done: seq<Item>,
                                           recorded: seq<Owned>, o: Owned)
    requires Growing(h0, h, top, s, done, recorded) && Notes(h0, h, top, recorded)
    requires Walk(h.disk, s, o.rel) == Some(o.ino) && o.isDir == h.disk.IsDir(o.ino)
    ensures var h2 := Then(h, Inspected(Below(Join(Base, top), o.rel)), h.disk);
      && Growing(h0, h2, top, s, done, Put(recorded, o)) && Notes(h0, h2, top, Put(recorded, o)) && !BrokeOff(h0, h2)
    ensures forall p :: OwnedAt(h.disk, s, Put(recorded, o), p) <==> p == o.rel || OwnedAt(h.disk, s, recorded, p)
  {
    hide Layout, TreeIs, Mine, Walk, Below, Claimed, MadeAt, Notes;
    AccountInspect(h0, h, top, s, Below(Join(Base, top), o.rel));
    RecordsPut(h.disk, s, recorded, o);
    NotesPut(h0, h, top, recorded, o);
  }

  lemma {:induction false} GrowingLookup(h0: History, h: History, top: Name, s: Ino, done: seq<Item>, recorded: seq<Owned>, rel: Rel)
    requires Growing(h0, h, top, s, done, recorded) && rel != []
    ensures h.disk.Lookup(Below(Join(Base, top), rel)) == Walk(h.disk, s, rel)
  {
    hide Layout, Walk, Below, Disk.Lookup, Ledger;
    TreeRoot(h.disk, s, done);
    TreeDirAt(h0.disk, h.disk, s, map[top := s], top, rel);
  }

  // -------------------------------------------------------------------------
  // The staging directory
  // -------------------------------------------------------------------------

  /** A staging candidate must be one safe path component. */
  predicate SafeSuffix(suffix: string) {
    && suffix != "" && suffix != "." && suffix != ".."
    && '/' !in suffix && '\\' !in suffix
    && (forall i | 0 <= i < |suffix| :: !IsControl(suffix[i]))
    && Utf8Bytes(suffix) <= STAGING_SUFFIX_MAX_BYTES
  }

  /** Among the first candidates one is free, and none before it is unsafe. */
  ghost predicate FreeAt(d: Disk, candidates: nat -> string, k: nat) {
    && k < STAGING_CREATE_RETRIES && (forall j: nat | j <= k :: SafeSuffix(candidates(j)))
    && d.Entry(d.base, STAGING_PREFIX + candidates(k)).None?
  }

  ghost predicate FreeCandidate(d: Disk, candidates: nat -> string) {
    exists k: nat :: FreeAt(d, candidates, k)
  }

  /** The exclusive staging directory: a candidate that is taken is left alone
      and the next one tried.  One that cannot be inspected once it is made is not
      held to be the run's. */
  method CreateStaging(fs: FileSystem, candidates: nat -> string) returns (error: Option<PrepareError>, top: Name,
                       s: Ino)
    requires fs.Valid()
    modifies fs
    ensures fs.Valid() && fs.clock >= old(fs.clock)
    ensures error.Some? ==>
      && error.value in {IO_ERROR, BASENAME_UNSAFE}
      && (fs.history == old(fs.history) || fs.history == Then(old(fs.history), Step.Mkdir(Join(Base, top)), fs.disk))
    ensures error.Some? && fs.history != old(fs.history) ==> error.value == IO_ERROR
    ensures error.None? ==>
      && fs.Smooth(old(fs.clock), fs.clock) && fs.history != old(fs.history)
      && fs.history == Then(Then(old(fs.history), Step.Mkdir(Join(Base, top)), fs.disk), Inspected(Join(Base, top)), fs.disk)
    ensures fs.history != old(fs.history) ==>
      && s == old(fs.disk).next && top !in {EVIDENCE, MANIFEST}
      && old(fs.disk).Mkdir(Join(Base, top)) == Success(fs.disk)
    ensures fs.Reliable(old(fs.clock)) && FreeCandidate(old(fs.disk), candidates) ==> error.None?
  {
    hide SafeSuffix, Disk.Valid, Sound, Disk.Mkdir, Disk.Lookup, FileSystem.Played, Admissible;
    top, s := "", fs.disk.next;
    ghost var k := if FreeCandidate(fs.disk, candidates) then FreeChoice(fs.disk, candidates) else 0;
    ghost var free := fs.Reliable(fs.clock) && FreeCandidate(fs.disk, candidates);
    ghost var d := fs.disk;
    for attempt := 0 to STAGING_CREATE_RETRIES
      invariant fs.Valid() && fs.clock >= old(fs.clock) && fs.Smooth(old(fs.clock), fs.clock)
      invariant fs.disk == d && fs.history == old(fs.history)
      invariant free ==> attempt <= k
    {
      var suffix := candidates(attempt);
      if !SafeSuffix(suffix) { return Some(BASENAME_UNSAFE), top, s; }
      top := STAGING_PREFIX + suffix;
      if free && attempt == k { FreeTop(fs.disk, top); }
      var failed := fs.Mkdir(Join(Base, top));
      if failed.None? {
        StagingName(suffix);
        NowThere(d, fs.disk, top);
        var id := fs.Inspect(Join(Base, top));
        if id.None? { return Some(IO_ERROR), top, s; }
        assert Length(fs.history) == Length(old(fs.history)) + 2;
        return None, top, s;
      }
      if failed != Some(EEXIST) {
        if free { TakenOnly(fs.disk, top); }
        return Some(IO_ERROR), top, s;
      }
    }
    return Some(IO_ERROR), top, s;
  }

  lemma NowThere(d: Disk, e: Disk, n: Name)
    requires d.Valid() && d.Mkdir(Join(Base, n)) == Success(e)
    ensures e.Lookup(Join(Base, n)).Some?
  {
    CreatedAt(d, e, Join(Base, n));
    BaseOld(d);
    BaseOld(e);
  }

  ghost function FreeChoice(d: Disk, candidates: nat -> string): (k: nat)
    requires FreeCandidate(d, candidates)
    ensures FreeAt(d, candidates, k)
  {
    var k: nat :| FreeAt(d, candidates, k);
    k
  }

  lemma FreeTop(d: Disk, n: Name)
    requires d.Valid() && d.Entry(d.base, n).None?
    ensures d.Mkdir(Join(Base, n)).Success? && d.Create(Join(Base, n)).Success?
  {
    BaseOld(d);
  }

  /** At the top of the run directory only a taken name is refused. */
  lemma TakenOnly(d: Disk, n: Name)
    requires d.Valid()
    ensures d.Mkdir(Join(Base, n)).Success? || d.Mkdir(Join(Base, n)) == Failure(EEXIST)
  {
    BaseOld(d);
  }

  lemma StagingName(suffix: string)
    ensures STAGING_PREFIX + suffix != EVIDENCE && STAGING_PREFIX + suffix != MANIFEST
  {
    assert (STAGING_PREFIX + suffix)[0] == '.' && EVIDENCE[0] == 'c' && MANIFEST[0] == 'c';
  }

  lemma {:induction false} StagingMade(h0: History, s: Ino, top: Name, after: Disk)
    requires h0.disk.Valid() && s == h0.disk.next && h0.disk.Mkdir(Join(Base, top)) == Success(after)
    requires top !in {EVIDENCE, MANIFEST}
    ensures Growing(h0, Then(h0, Step.Mkdir(Join(Base, top)), after), top, s, [], [Owned([], s, true)])
    ensures Covered(after, s, [Owned([], s, true)])
  {
    var d, h := h0.disk, Then(h0, Step.Mkdir(Join(Base, top)), after);
    BaseOld(d);
    CreatedAt(d, after, Join(Base, top));
    AccountStart(h0, top, after);
    forall rel ensures Walk(after, s, rel) == if rel == [] then Some(s) else None { LoneWalk(after, s, rel); }
    forall x: Ino, n: Name | x >= d.next ensures after.Entry(x, n).None? {
      assert d.Entry(x, n).None?;
    }
    assert OwnedAt(after, s, [Owned([], s, true)], []) by { assert Owned([], s, true) in [Owned([], s, true)]; }
    LoneLedger(h0, h, top, s);
  }

  lemma {:induction false} LoneLedger(h0: History, h: History, top: Name, s: Ino)
    requires h == Then(h0, Step.Mkdir(Join(Base, top)), h.disk)
    requires forall rel :: Walk(h.disk, s, rel) == if rel == [] then Some(s) else None
    ensures Ledger(h0, h, top, s)
  {
    hide Walk, Below;
    AtRoot(top);
    assert IsBelow(Join(Base, top), top);
    forall p ensures MadeAt(h0, h, p).Some? <==> p == Join(Base, top) {
      assert Length(h) == Length(h0) + 1 && MadeAt(h0, h.prev, p).None?;
    }
    forall rel ensures MadeAt(h0, h, Below(Join(Base, top), rel)).Some? <==> rel == [] {
      if Below(Join(Base, top), rel) == Join(Base, top) { BelowInjective(Join(Base, top), rel, []); }
    }
  }

  lemma AtRoot(top: Name)
    ensures Below(Join(Base, top), []) == Join(Base, top)
  {}

  /** The directory itself is recorded once it is inspected. */
  lemma {:induction false} StagingRecorded(h0: History, h: History, s: Ino, top: Name)
    requires h == Then(h0, Step.Mkdir(Join(Base, top)), h.disk)
    requires Growing(h0, h, top, s, [], [Owned([], s, true)])
    ensures var h2, tree := Then(h, Inspected(Join(Base, top)), h.disk), [Owned([], s, true)];
      Growing(h0, h2, top, s, [], tree) && Notes(h0, h2, top, tree) && !BrokeOff(h0, h2)
  {
    hide Layout, TreeIs, Mine, Walk, Claimed, Below, MadeAt, Records;
    var h2, tree := Then(h, Inspected(Join(Base, top)), h.disk), [Owned([], s, true)];
    AccountInspect(h0, h, top, s, Join(Base, top));
    AtRoot(top);
    assert tree[0] in tree && Length(h2) == Length(h) + 1 == Length(h0) + 2;
    forall rel ensures Performed(h0, h2, Inspected(Below(Join(Base, top), rel))) <==> rel == [] {
      if Below(Join(Base, top), rel) == Join(Base, top) { BelowInjective(Join(Base, top), rel, []); }
      assert !Performed(h0, h0, Inspected(Below(Join(Base, top), rel)));
    }
    assert forall rel :: HasPlace(tree, rel) <==> rel == [] by { assert HasPlace(tree, []); }
  }

  /** Until then nothing is. */
  lemma {:induction false} Uninspected(h0: History, h: History, top: Name)
    requires h == Then(h0, Step.Mkdir(Join(Base, top)), h.disk)
    ensures !AllInspected(h0, h) && BrokeOff(h0, h)
  {
    assert Length(h) == Length(h0) + 1;
    assert MadeAt(h0, h, Join(Base, top)).Some?;
    assert !Performed(h0, h0, Inspected(Join(Base, top)));
  }

  lemma {:induction false} LoneWalk(d: Disk, s: Ino, rel: Rel)
    requires forall k :: d.Entry(s, k).None?
    ensures Walk(d, s, rel) == if rel == [] then Some(s) else None
  {
    if rel != [] { LoneWalk(d, s, rel[..|rel| - 1]); }
  }

  // -------------------------------------------------------------------------
  // Its entries
  // -------------------------------------------------------------------------

  /** The item's parent is a directory of the tree without that name. */
  ghost predicate Buildable(d: Disk, s: Ino, item: Item) {
    && item.rel != [] && Walk(d, s, item.rel[..|item.rel| - 1]).Some?
    && d.IsDir(Walk(d, s, item.rel[..|item.rel| - 1]).value) && Walk(d, s, item.rel).None?
  }

  /** What is on the way to the place is a directory. */
  ghost predicate Passable(d: Disk, s: Ino, rel: Rel) {
    forall p | p <= rel && Walk(d, s, p).Some? :: d.IsDir(Walk(d, s, p).value)
  }

  /** A single item lies at the top or in a directory that comes before it, and at
      a place of its own; no file is in the way of directories. */
  ghost predicate ArrangedAt(tasks: seq<Task>, i: nat)
    requires i < |tasks|
  {
    var before, rel := Entries(tasks[..i]), tasks[i].Place();
    && rel != []
    && (if tasks[i].Single? then
          && (forall item | item in before :: item.rel != rel)
          && (|rel| == 1 || exists item :: item in before && item.content.None? && item.rel == rel[..|rel| - 1])
        else forall item | item in before && item.rel <= rel :: item.content.None?)
  }

  ghost predicate Arranged(tasks: seq<Task>) {
    forall i: nat | i < |tasks| :: ArrangedAt(tasks, i)
  }

  lemma {:induction false} ArrangedBuildable(d: Disk, s: Ino, tasks: seq<Task>, i: nat)
    requires i < |tasks| && ArrangedAt(tasks, i) && TreeIs(d, s, Entries(tasks[..i]))
    ensures if tasks[i].Single? then Buildable(d, s, tasks[i].item) else Passable(d, s, tasks[i].rel)
  {
    hide Walk, Entries;
    var before, rel := Entries(tasks[..i]), tasks[i].Place();
    AtTop(d, s);
    if tasks[i].Folders? {
      forall p | p <= rel && Walk(d, s, p).Some? ensures d.IsDir(Walk(d, s, p).value) {
        if p != [] {
          var item :| item in before && item.rel == p;
        }
      }
    } else if |rel| == 1 {
      assert rel[..|rel| - 1] == [];
    } else {
      var item :| item in before && item.content.None? && item.rel == rel[..|rel| - 1];
    }
  }

  lemma BuildableByPath(d0: Disk, d: Disk, s: Ino, top: Name, done: seq<Item>, item: Item)
    requires Layout(d0, d, s, map[top := s]) && TreeIs(d, s, done) && Buildable(d, s, item)
    ensures d.Mkdir(Below(Join(Base, top), item.rel)).Success? && d.Create(Below(Join(Base, top), item.rel)).Success?
  {
    hide Layout, TreeIs, Disk.Valid, Disk.Lookup, Disk.Follow;
    var up := item.rel[..|item.rel| - 1];
    LayoutBase(d0, d, s, map[top := s]);
    TreeRoot(d, s, done);
    TreeDirAt(d0, d, s, map[top := s], top, up);
    assert Below(Join(Base, top), item.rel) == Join(Below(Join(Base, top), up), item.rel[|item.rel| - 1]);
  }

  /** Creating the item's entry goes into a directory of the tree. */
  lemma {:induction false} StepInto(h0: History, h: History, step: Step, after: Disk, top: Name, s: Ino,
                                    done: seq<Item>, recorded: seq<Owned>, item: Item)
    requires Growing(h0, h, top, s, done, recorded) && item.rel != []
    requires step == Step.Mkdir(Below(Join(Base, top), item.rel))
      || step == Step.Create(Below(Join(Base, top), item.rel))
    requires if step.Mkdir? then h.disk.Mkdir(step.path) == Success(after) else h.disk.Create(step.path) == Success(after)
    ensures Account(h0, Then(h, step, after), top, s)
    ensures Claimed(h0, Then(h, step, after)) == Claimed(h0, h) + {h.disk.next}
  {
    hide Layout, TreeIs, Mine, Records, Disk.Valid, Walk, Disk.Mkdir, Disk.Create, Account, Claimed;
    var d, up := h.disk, item.rel[..|item.rel| - 1];
    var p := Below(Join(Base, top), item.rel);
    LayoutBase(h0.disk, d, s, map[top := s]);
    TreeRoot(d, s, done);
    CreatedAt(d, after, p);
    assert p == Join(Below(Join(Base, top), up), item.rel[|item.rel| - 1]);
    BelowTop(top, up);
    TreeDirAt(h0.disk, d, s, map[top := s], top, up);
    MineAt(d, s, Claimed(h0, h), up);
    AccountCreate(h0, h, top, s, step, after, d.DirAt(p.parent).value);
  }

  lemma {:induction false} BelowTop(top: Name, rel: Rel)
    ensures Below(Join(Base, top), rel).Join?
  {}

  /** From `h` by way of `c` the run has made the entry at `p`, with its bytes if it
      is a file. */
  ghost predicate Makes(h: History, c: History, h2: History, p: Path, item: Item) {
    && h.disk.Valid()
    && c == Then(h, if item.content.None? then Step.Mkdir(p) else Step.Create(p), c.disk)
    && (if item.content.None? then h.disk.Mkdir(p) == Success(c.disk) && h2 == c
        else
          && h.disk.Create(p) == Success(c.disk) && c.disk.IsFile(h.disk.next)
          && h2 == Then(c, Step.Write(h.disk.next), c.disk.Write(h.disk.next, item.content.value)))
  }

  /** Make one entry.  A failing write leaves a file with some of the bytes. */
  method MakeItem(fs: FileSystem, p: Path, item: Item)
    returns (error: Option<PrepareError>, ghost c: History, ghost made: Item)
    requires fs.Valid()
    modifies fs
    ensures fs.Valid() && fs.clock > old(fs.clock)
    ensures if error.Some? && error.value != Raw(WRITE) then fs.disk == old(fs.disk) && fs.history == old(fs.history)
            else Makes(old(fs.history), c, fs.history, p, made) && made.rel == item.rel
    ensures if error.None? then made == item && fs.Smooth(old(fs.clock), fs.clock)
            else fs.Smooth(old(fs.clock), fs.clock - 1)
    ensures
      && fs.Reliable(old(fs.clock))
      && (if item.content.None? then old(fs.disk).Mkdir(p).Success? else old(fs.disk).Create(p).Success?)
      ==> error.None?
  {
    hide Disk.Valid, Sound, Admissible, Disk.Mkdir, Disk.Create, FileSystem.Played;
    error, c, made := None, fs.history, item;
    var failed, ino;
    if item.content.None? {
      failed := fs.Mkdir(p);
    } else {
      failed, ino := fs.Create(p);
    }
    if failed.Some? {
      return Some(Raw(if item.content.None? then MKDIR else OPEN)), c, made;
    }
    c := fs.history;
    if item.content.Some? {
      var ok := fs.Write(ino, item.content.value);
      ghost var some :| fs.disk == c.disk.Write(ino, some) && (ok ==> some == item.content.value);
      made := item.(content := Some(some));
      if !ok { error := Some(Raw(WRITE)); }
    }
  }

  /** Of the places that are not recorded there are only some on the way to `rel`,
      at depths above `low` and up to `high`. */
  ghost predicate MissingOn(d: Disk, s: Ino, recorded: seq<Owned>, rel: Rel, low: nat, high: nat) {
    forall p | Walk(d, s, p).Some? && !OwnedAt(d, s, recorded, p) :: p <= rel && low < |p| <= high
  }

  lemma {:induction false} MissingPut(d: Disk, s: Ino, recorded: seq<Owned>, rel: Rel, low: nat, high: nat, o: Owned)
    requires MissingOn(d, s, recorded, rel, low, high) && low < high <= |rel| && o.rel == rel[..high]
    requires forall p :: OwnedAt(d, s, Put(recorded, o), p) <==> p == o.rel || OwnedAt(d, s, recorded, p)
    ensures MissingOn(d, s, Put(recorded, o), rel, low, high - 1)
  {
    hide Walk, OwnedAt, Put;
    assert forall p | p <= rel && |p| == high :: p == o.rel;
  }

  /** Only the entry just made can be missing besides. */
  ghost predicate MissingToo(d: Disk, e: Disk, s: Ino, recorded: seq<Owned>, rel: Rel) {
    forall p | Walk(e, s, p).Some? && !OwnedAt(e, s, recorded, p) ::
      p == rel || (Walk(d, s, p).Some? && !OwnedAt(d, s, recorded, p))
  }

  /** The entry has been made, with these bytes in it if it is a file: the tree has
      one item more, and the record lacks it. */
  lemma {:induction false} ItemMade(h0: History, h: History, c: History, h2: History, top: Name, s: Ino,
                                    done: seq<Item>, recorded: seq<Owned>, item: Item)
    requires Growing(h0, h, top, s, done, recorded) && Notes(h0, h, top, recorded) && item.rel != []
    requires Makes(h, c, h2, Below(Join(Base, top), item.rel), item)
    ensures Growing(h0, h2, top, s, done + [item], recorded) && Notes(h0, h2, top, recorded)
    ensures BrokeOff(h0, h2) && !Covered(h2.disk, s, recorded) && MissingToo(h.disk, h2.disk, s, recorded, item.rel)
    ensures forall p :: Walk(h2.disk, s, p).Some? <==> p == item.rel || Walk(h.disk, s, p).Some?
  {
    hide Layout, TreeIs, Mine, Records, Covered, Disk.Valid, Walk, Disk.Mkdir, Disk.Create, Account, Claimed,
         Disk.Lookup, Below, Ledger, Notes, MadeAt;
    StepInto(h0, h, c.step, c.disk, top, s, done, recorded, item);
    AccountExtends(h0, h, top, s);
    AccountExtends(h0, c, top, s);
    NotesStay(h0, h, c.step, c.disk, top, recorded);
    CreateStep(h0, h, c.step, c.disk, {});
    if item.content.Some? {
      AccountWrite(h0, c, top, s, h.disk.next, item.content.value);
      NotesStay(h0, c, h2.step, h2.disk, top, recorded);
      OtherStep(h0, c, h2.step, h2.disk, {});
    }
    StagedItem(h0.disk, h.disk, c.disk, h2.disk, s, top, Claimed(h0, h), done, item);
    RecordsGrow(h.disk, h2.disk, s, recorded, item.rel, h.disk.next);
    LedgerGrow(h0, h, h2, top, s, item.rel);
    MadeLast(h0, h, c, h2, Below(Join(Base, top), item.rel), item);
  }

  lemma {:induction false} AccountExtends(h0: History, h: History, top: Name, s: Ino)
    requires Account(h0, h, top, s)
    ensures Extends(h0, h)
  {}

  lemma {:induction false} MadeLast(h0: History, h: History, c: History, h2: History, p: Path, item: Item)
    requires Makes(h, c, h2, p, item) && Extends(h0, h)
    ensures BrokeOff(h0, h2)
  {
    ExtendsLength(h0, h);
  }

  /** Everything made is recorded unless a call has failed, and what was made last
      and not recorded is missing. */
  ghost predicate Current(fs: FileSystem, h0: History, h: History, s: Ino, recorded: seq<Owned>, from: nat, now: nat) {
    && from <= now
    && (BrokeOff(h0, h) ==> !Covered(h.disk, s, recorded))
    && (fs.Smooth(from, now) ==> Covered(h.disk, s, recorded))
  }

  /** The same when the last call has failed: what it left half done is missing. */
  ghost predicate Halted(fs: FileSystem, h0: History, h: History, s: Ino, recorded: seq<Owned>, from: nat, now: nat,
                         error: PrepareError) {
    && from < now
    && (BrokeOff(h0, h) ==> !Covered(h.disk, s, recorded))
    && (fs.Smooth(from, now - 1) ==>
          if BrokeOff(h0, h) then error in {Raw(WRITE), Raw(MKDIRS)} else Covered(h.disk, s, recorded))
    && (error == Raw(WRITE) ==> BrokeOff(h0, h))
  }

  lemma HaltedIdle(fs: FileSystem, h0: History, h: History, s: Ino, recorded: seq<Owned>, from: nat, at: nat, now: nat,
                   error: PrepareError)
    requires Current(fs, h0, h, s, recorded, from, at) && at < now && error != Raw(WRITE)
    ensures Halted(fs, h0, h, s, recorded, from, now, error)
  {
    hide Covered, BrokeOff;
  }

  /** Create one item and record what was created. */
  method StageItem(fs: FileSystem, top: Name, item: Item, recorded: seq<Owned>, ghost h0: History, ghost s: Ino,
                   ghost done: seq<Item>, ghost from: nat)
    returns (error: Option<PrepareError>, recorded': seq<Owned>, ghost done': seq<Item>)
    requires fs.Valid() && item.rel != [] && Growing(h0, fs.history, top, s, done, recorded)
    requires Notes(h0, fs.history, top, recorded) && Current(fs, h0, fs.history, s, recorded, from, fs.clock)
    modifies fs
    ensures fs.Valid() && fs.clock > old(fs.clock)
    ensures Growing(h0, fs.history, top, s, done', recorded') && Notes(h0, fs.history, top, recorded')
    ensures error.None? ==> done' == done + [item] && Current(fs, h0, fs.history, s, recorded', from, fs.clock)
    ensures error.Some? ==> Halted(fs, h0, fs.history, s, recorded', from, fs.clock, error.value)
    ensures fs.Reliable(old(fs.clock)) && Buildable(old(fs.disk), s, item) ==> error.None?
  {
    hide Growing, Disk.Valid, Sound, Walk, Buildable, Below, Disk.Lookup, Admissible, Disk.Mkdir, Disk.Create, Covered,
         FileSystem.Played, Makes, Notes, BrokeOff, MissingToo;
    var p := Below(Join(Base, top), item.rel);
    recorded', done' := recorded, done;
    ghost var h, at := fs.history, fs.clock;
    if Buildable(fs.disk, s, item) { GrowingBuildable(h0, h, top, s, done, recorded, item); }
    ghost var c, made;
    error, c, made := MakeItem(fs, p, item);
    if error.Some? && error.value != Raw(WRITE) {
      HaltedIdle(fs, h0, h, s, recorded, from, at, fs.clock, error.value);
      return;
    }
    ItemMade(h0, h, c, fs.history, top, s, done, recorded, made);
    done' := done + [made];
    if error.Some? { return; }
    GrowingThere(h0, fs.history, top, s, done', recorded, item);
    ghost var h2 := fs.history;
    var id := fs.Inspect(p);
    if id.Some? {
      recorded' := Put(recorded, Owned(item.rel, id.value.ino, id.value.kind == DirectoryKind));
      GrowingRecorded(h0, h2, top, s, done', recorded, Owned(item.rel, id.value.ino, id.value.kind == DirectoryKind));
      if Covered(h.disk, s, recorded) { NowCovered(h.disk, h2.disk, s, recorded, recorded', item.rel); }
    }
  }

  lemma {:induction false} NowCovered(d: Disk, e: Disk, s: Ino, recorded: seq<Owned>, recorded': seq<Owned>, rel: Rel)
    requires Covered(d, s, recorded) && MissingToo(d, e, s, recorded, rel)
    requires forall p :: OwnedAt(e, s, recorded', p) <==> p == rel || OwnedAt(e, s, recorded, p)
    ensures Covered(e, s, recorded')
  {
    hide Walk, OwnedAt;
  }

  lemma {:induction false} GrowingThere(h0: History, h: History, top: Name, s: Ino, done: seq<Item>, recorded: seq<Owned>, item: Item)
    requires Growing(h0, h, top, s, done, recorded) && item in done && item.rel != []
    ensures Walk(h.disk, s, item.rel).Some?
      && h.disk.Lookup(Below(Join(Base, top), item.rel)) == Walk(h.disk, s, item.rel)
    ensures item.content.None? ==> h.disk.IsDir(Walk(h.disk, s, item.rel).value)
  {
    hide Layout, Walk, Below, Disk.Lookup, Ledger, Account;
    GrowingLookup(h0, h, top, s, done, recorded, item.rel);
  }

  lemma GrowingBuildable(h0: History, h: History, top: Name, s: Ino, done: seq<Item>, recorded: seq<Owned>, item: Item)
    requires Growing(h0, h, top, s, done, recorded) && Buildable(h.disk, s, item)
    ensures h.disk.Mkdir(Below(Join(Base, top), item.rel)).Success?
    ensures h.disk.Create(Below(Join(Base, top), item.rel)).Success?
  {
    BuildableByPath(h0.disk, h.disk, s, top, done, item);
  }

  // -------------------------------------------------------------------------
  // Directories with those above them
  // -------------------------------------------------------------------------

  /** How `mkdir` goes below the tree's root. */
  lemma {:induction false} MkdirBelow(h0: History, h: History, top: Name, s: Ino, done: seq<Item>, recorded: seq<Owned>, rel: Rel)
    requires Growing(h0, h, top, s, done, recorded) && rel != []
    ensures h.disk.Valid()
    ensures var d, up := h.disk, Walk(h.disk, s, rel[..|rel| - 1]);
      var r := d.Mkdir(Below(Join(Base, top), rel));
      if up.None? || !d.IsDir(up.value) then r == Failure(ENOENT)
      else if Walk(d, s, rel).Some? then r == Failure(EEXIST)
      else r.Success?
  {
    hide Layout, TreeIs, Disk.Valid, Disk.Lookup, Disk.Follow, Ledger, Account;
    var up := rel[..|rel| - 1];
    LayoutBase(h0.disk, h.disk, s, map[top := s]);
    TreeRoot(h.disk, s, done);
    TreeDirAt(h0.disk, h.disk, s, map[top := s], top, up);
    assert Below(Join(Base, top), rel) == Join(Below(Join(Base, top), up), rel[|rel| - 1]);
  }

  /** Directories that are there may be listed once more. */
  lemma {:induction false} GrowingAgain(h0: History, h: History, top: Name, s: Ino, done: seq<Item>,
                                        recorded: seq<Owned>, rel: Rel)
    requires Growing(h0, h, top, s, done, recorded)
    requires Walk(h.disk, s, rel).Some? && h.disk.IsDir(Walk(h.disk, s, rel).value)
    ensures Growing(h0, h, top, s, done + FoldersTo(rel), recorded)
  {
    hide Layout, TreeIs, Walk, Mine, Records, Account, Ledger;
    FoldersAgain(h.disk, s, done, rel);
  }

  lemma {:induction false} FolderAgain(h0: History, h: History, top: Name, s: Ino, done: seq<Item>,
                                       recorded: seq<Owned>, rel: Rel)
    requires Growing(h0, h, top, s, done, recorded)
    requires Walk(h.disk, s, rel).Some? && h.disk.IsDir(Walk(h.disk, s, rel).value)
    ensures Growing(h0, h, top, s, done + [Folder(rel)], recorded)
  {
    hide Layout, TreeIs, Walk, Mine, Records, Account, Ledger;
    ListedAgain(h.disk, s, done, rel);
  }

  lemma {:induction false} LastFolder(done: seq<Item>, rel: Rel)
    requires rel != []
    ensures done + FoldersTo(rel) == done + FoldersTo(rel[..|rel| - 1]) + [Folder(rel)]
    ensures Folder(rel) in done + FoldersTo(rel)
  {
    var all := done + FoldersTo(rel);
    assert all == done + FoldersTo(rel[..|rel| - 1]) + [Folder(rel)];
    assert all[|all| - 1] == Folder(rel);
  }

  /** The directory at `rel` has been made. */
  lemma {:induction false} FolderMade(h0: History, h: History, h2: History, top: Name, s: Ino, done: seq<Item>,
                                      recorded: seq<Owned>, rel: Rel)
    requires Growing(h0, h, top, s, done, recorded) && Notes(h0, h, top, recorded) && rel != [] && h.disk.Valid()
    requires h2 == Then(h, Step.Mkdir(Below(Join(Base, top), rel)), h2.disk)
    requires h.disk.Mkdir(Below(Join(Base, top), rel)) == Success(h2.disk)
    ensures Growing(h0, h2, top, s, done + [Folder(rel)], recorded) && Notes(h0, h2, top, recorded)
    ensures BrokeOff(h0, h2) && !Covered(h2.disk, s, recorded) && MissingToo(h.disk, h2.disk, s, recorded, rel)
    ensures forall p | Walk(h2.disk, s, p).Some? && p != rel :: Walk(h.disk, s, p).Some?
  {
    hide Growing, Notes, Covered, BrokeOff, MissingToo, Walk, Disk.Mkdir, Below;
    ItemMade(h0, h, h2, h2, top, s, done, recorded, Folder(rel));
  }

  lemma {:induction false} MissingMore(d: Disk, e: Disk, s: Ino, recorded: seq<Owned>, up: Rel, rel: Rel)
    requires MissingOn(d, s, recorded, up, 0, |up|) && MissingToo(d, e, s, recorded, rel)
    requires up <= rel && rel != []
    ensures MissingOn(e, s, recorded, rel, 0, |rel|)
  {
    hide Walk, OwnedAt;
  }

  lemma {:induction false} MissingUp(d: Disk, s: Ino, recorded: seq<Owned>, up: Rel, rel: Rel)
    requires MissingOn(d, s, recorded, up, 0, |up|) && up <= rel
    ensures MissingOn(d, s, recorded, rel, 0, |rel|)
  {
    hide Walk, OwnedAt;
  }

  lemma {:induction false} NothingMissing(d: Disk, s: Ino, recorded: seq<Owned>, rel: Rel, low: nat, high: nat)
    ensures Covered(d, s, recorded) ==> MissingOn(d, s, recorded, rel, low, high)
    ensures MissingOn(d, s, recorded, rel, low, low) ==> Covered(d, s, recorded)
  {
    hide Walk, OwnedAt;
  }

  /** What is there is there through directories. */
  lemma {:induction false} WalkUp(d: Disk, s: Ino, rel: Rel)
    requires rel != [] && Walk(d, s, rel).Some?
    ensures Walk(d, s, rel[..|rel| - 1]).Some? && d.IsDir(Walk(d, s, rel[..|rel| - 1]).value)
  {}

  /** Since `h` at most the directory at `rel` has been made, and it is not recorded. */
  ghost predicate MadeOnly(h0: History, h: History, h2: History, s: Ino, recorded: seq<Owned>, rel: Rel) {
    h2 == h
    || (&& BrokeOff(h0, h2) && !Covered(h2.disk, s, recorded) && MissingToo(h.disk, h2.disk, s, recorded, rel)
        && forall p | Walk(h2.disk, s, p).Some? && p != rel :: Walk(h.disk, s, p).Some?)
  }

  ghost predicate DirectoryAt(d: Disk, s: Ino, rel: Rel) {
    Walk(d, s, rel).Some? && d.IsDir(Walk(d, s, rel).value)
  }

  /** One `mkdir`; a directory that is there already will do. */
  method MakeFolder(fs: FileSystem, top: Name, rel: Rel, ghost h0: History, ghost s: Ino, ghost done: seq<Item>,
                    ghost recorded: seq<Owned>)
    returns (failed: Option<Errno>)
    requires fs.Valid() && rel != [] && Growing(h0, fs.history, top, s, done, recorded)
    requires Notes(h0, fs.history, top, recorded)
    modifies fs
    ensures fs.Valid() && fs.clock > old(fs.clock)
    ensures Growing(h0, fs.history, top, s, if failed.None? then done + [Folder(rel)] else done, recorded)
    ensures Notes(h0, fs.history, top, recorded) && MadeOnly(h0, old(fs.history), fs.history, s, recorded, rel)
    ensures failed.Some? ==> fs.history == old(fs.history)
    ensures failed.None? ==> DirectoryAt(old(fs.disk), s, rel[..|rel| - 1])
    ensures failed == Some(ENOENT) ==> !DirectoryAt(old(fs.disk), s, rel[..|rel| - 1])
    ensures fs.Reliable(old(fs.clock)) && Passable(old(fs.disk), s, rel) ==>
              failed == if DirectoryAt(old(fs.disk), s, rel[..|rel| - 1]) then None else Some(ENOENT)
  {
    hide Growing, Disk.Valid, Sound, Walk, Below, Disk.Lookup, Admissible, Disk.Mkdir, Covered, FileSystem.Played,
         Notes, BrokeOff, MissingToo, Passable;
    var p := Below(Join(Base, top), rel);
    ghost var h := fs.history;
    MkdirBelow(h0, h, top, s, done, recorded, rel);
    if Walk(h.disk, s, rel).Some? { WalkUp(h.disk, s, rel); }
    if Passable(h.disk, s, rel) { PassableUp(h.disk, s, rel); }
    failed := fs.Mkdir(p);
    if failed.None? {
      FolderMade(h0, h, fs.history, top, s, done, recorded, rel);
    } else if failed == Some(EEXIST) {
      GrowingLookup(h0, h, top, s, done, recorded, rel);
      var id := fs.Lstat(p);
      if id.Some? && id.value.kind == DirectoryKind {
        FolderAgain(h0, h, top, s, done, recorded, rel);
        failed := None;
      }
    }
  }

  /** `mkdir` with `recursive`: the directory itself, or, where the one above is not
      there, that first.  A failure in between leaves what has been made. */
  method MakeFolders(fs: FileSystem, top: Name, rel: Rel, ghost h0: History, ghost s: Ino, ghost done: seq<Item>,
                     ghost recorded: seq<Owned>)
    returns (error: Option<PrepareError>, ghost done': seq<Item>)
    requires fs.Valid() && rel != [] && Growing(h0, fs.history, top, s, done, recorded)
    requires Notes(h0, fs.history, top, recorded)
    modifies fs
    decreases |rel|
    ensures fs.Valid() && fs.clock > old(fs.clock)
    ensures Growing(h0, fs.history, top, s, done', recorded) && Notes(h0, fs.history, top, recorded)
    ensures error.Some? ==> error == Some(Raw(MKDIRS))
    ensures error.None? ==> done' == done + FoldersTo(rel)
    // What has been made lies on the way, and none of it is recorded.
    ensures fs.history == old(fs.history) || (BrokeOff(h0, fs.history) && !Covered(fs.disk, s, recorded))
    ensures Covered(old(fs.disk), s, recorded) ==> MissingOn(fs.disk, s, recorded, rel, 0, |rel|)
    ensures forall p | Walk(fs.disk, s, p).Some? && Walk(old(fs.disk), s, p).None? :: p <= rel
    ensures fs.Reliable(old(fs.clock)) && Passable(old(fs.disk), s, rel) ==> error.None?
  {
    hide Growing, Disk.Valid, Sound, Walk, Admissible, Covered, FileSystem.Played, Notes, BrokeOff, MissingToo,
         MissingOn, FoldersTo, Passable;
    var up := rel[..|rel| - 1];
    ghost var h, d := fs.history, fs.disk;
    done' := done;
    NothingMissing(d, s, recorded, up, 0, |up|);
    if Passable(d, s, rel) { PassableUp(d, s, rel); }
    if DirectoryAt(d, s, up) {
      GrowingAgain(h0, h, top, s, done, recorded, up);
      done' := done + FoldersTo(up);
    }
    LastFolder(done, rel);
    var failed := MakeFolder(fs, top, rel, h0, s, done', recorded);
    if failed == Some(ENOENT) && |rel| > 1 {
      error, done' := MakeFolders(fs, top, up, h0, s, done, recorded);
      if Covered(d, s, recorded) { MissingUp(fs.disk, s, recorded, up, rel); }
      if error.Some? { return; }
      h := fs.history;
      LastFolder(done, up);
      GrowingThere(h0, h, top, s, done', recorded, Folder(up));
      if Passable(d, s, rel) { StillPassable(d, h.disk, s, up, rel); }
      failed := MakeFolder(fs, top, rel, h0, s, done', recorded);
    }
    if Covered(d, s, recorded) {
      if fs.history == h { MissingUp(fs.disk, s, recorded, up, rel); }
      else { MissingMore(h.disk, fs.disk, s, recorded, up, rel); }
    }
    if failed.Some? { return Some(Raw(MKDIRS)), done'; }
    return None, done' + [Folder(rel)];
  }

  /** What has been made above leaves the way open. */
  lemma {:induction false} StillPassable(d: Disk, e: Disk, s: Ino, up: Rel, rel: Rel)
    requires rel != [] && up == rel[..|rel| - 1] && !DirectoryAt(d, s, up) && DirectoryAt(e, s, up)
    requires forall p | Walk(e, s, p).Some? && Walk(d, s, p).None? :: p <= up
    ensures Passable(e, s, rel)
  {
    hide Walk;
    forall p | p <= rel && Walk(e, s, p).Some? ensures DirectoryAt(e, s, p) {
      if p == rel {
        if Walk(d, s, rel).Some? { WalkUp(d, s, rel); }
      } else if p != up {
        assert p <= up;
        DirectoryAbove(e, s, p, up);
      }
    }
  }

  lemma {:induction false} DirectoryAbove(d: Disk, s: Ino, up: Rel, rel: Rel)
    requires up < rel && Walk(d, s, rel).Some?
    ensures DirectoryAt(d, s, up)
  {
    WalkUp(d, s, rel);
    if up != rel[..|rel| - 1] {
      assert up < rel[..|rel| - 1];
      DirectoryAbove(d, s, up, rel[..|rel| - 1]);
    }
  }

  lemma {:induction false} PassableUp(d: Disk, s: Ino, rel: Rel)
    requires Passable(d, s, rel) && rel != []
    ensures Passable(d, s, rel[..|rel| - 1])
    ensures Walk(d, s, rel).Some? ==> d.IsDir(Walk(d, s, rel).value)
    ensures Walk(d, s, rel[..|rel| - 1]).Some? ==> d.IsDir(Walk(d, s, rel[..|rel| - 1]).value)
    ensures |rel| == 1 ==> Walk(d, s, rel[..|rel| - 1]) == Some(s)
  {
    var up := rel[..|rel| - 1];
    AtTop(d, s);
    assert up <= rel;
    if |rel| == 1 { assert up == []; }
    hide Walk;
  }

  /** Make a directory with those above it, and record each of them, the deepest
      first. */
  method StageFolders(fs: FileSystem, top: Name, rel: Rel, recorded: seq<Owned>, ghost h0: History, ghost s: Ino,
                      ghost done: seq<Item>, ghost from: nat)
    returns (error: Option<PrepareError>, recorded': seq<Owned>, ghost done': seq<Item>)
    requires fs.Valid() && rel != [] && Growing(h0, fs.history, top, s, done, recorded)
    requires Notes(h0, fs.history, top, recorded) && Current(fs, h0, fs.history, s, recorded, from, fs.clock)
    modifies fs
    ensures fs.Valid() && fs.clock > old(fs.clock)
    ensures Growing(h0, fs.history, top, s, done', recorded') && Notes(h0, fs.history, top, recorded')
    ensures error.None? ==> done' == done + FoldersTo(rel) && Current(fs, h0, fs.history, s, recorded', from, fs.clock)
    ensures error.Some? ==> Halted(fs, h0, fs.history, s, recorded', from, fs.clock, error.value)
    ensures fs.Reliable(old(fs.clock)) && Passable(old(fs.disk), s, rel) ==> error.None?
  {
    hide Growing, Disk.Valid, Sound, Walk, Below, Disk.Lookup, Admissible, Covered, FileSystem.Played, Notes, BrokeOff,
         MissingOn, FoldersTo, Passable, OwnedAt, Put;
    ghost var start, at := fs.history, fs.clock;
    ghost var whole := Covered(fs.disk, s, recorded);
    recorded' := recorded;
    error, done' := MakeFolders(fs, top, rel, h0, s, done, recorded);
    if error.Some? {
      if fs.history == start { HaltedIdle(fs, h0, start, s, recorded, from, at, fs.clock, error.value); }
      return;
    }
    ghost var h := fs.history;
    LastFolder(done, rel);
    GrowingThere(h0, h, top, s, done', recorded, Folder(rel));
    var depth: nat := |rel|;
    while depth > 0
      invariant fs.Valid() && fs.clock > old(fs.clock) && fs.disk == h.disk && depth <= |rel|
      invariant Growing(h0, fs.history, top, s, done', recorded') && Notes(h0, fs.history, top, recorded')
      invariant (fs.history == h && recorded' == recorded) || !BrokeOff(h0, fs.history)
      invariant whole && fs.Smooth(at, fs.clock) ==> MissingOn(fs.disk, s, recorded', rel, 0, depth)
    {
      var here := rel[..depth];
      ghost var g := fs.history;
      FolderOn(h.disk, s, rel, here);
      GrowingLookup(h0, g, top, s, done', recorded', here);
      var id := fs.Inspect(Below(Join(Base, top), here));
      if id.Some? {
        var o := Owned(here, id.value.ino, id.value.kind == DirectoryKind);
        GrowingRecorded(h0, g, top, s, done', recorded', o);
        if whole && fs.Smooth(at, fs.clock) { MissingPut(fs.disk, s, recorded', rel, 0, depth, o); }
        recorded' := Put(recorded', o);
      }
      depth := depth - 1;
    }
    NothingMissing(fs.disk, s, recorded', rel, 0, 0);
  }

  lemma {:induction false} FolderOn(d: Disk, s: Ino, rel: Rel, up: Rel)
    requires Walk(d, s, rel).Some? && up <= rel
    ensures Walk(d, s, up).Some?
  {
    hide Walk;
    WalkPrefix(d, s, up, rel);
  }

  /** One step of the population. */
  method StageTask(fs: FileSystem, top: Name, task: Task, recorded: seq<Owned>, ghost h0: History, ghost s: Ino,
                   ghost done: seq<Item>, ghost from: nat)
    returns (error: Option<PrepareError>, recorded': seq<Owned>, ghost done': seq<Item>)
    requires fs.Valid() && task.Place() != [] && Growing(h0, fs.history, top, s, done, recorded)
    requires Notes(h0, fs.history, top, recorded) && Current(fs, h0, fs.history, s, recorded, from, fs.clock)
    modifies fs
    ensures fs.Valid() && fs.clock > old(fs.clock)
    ensures Growing(h0, fs.history, top, s, done', recorded') && Notes(h0, fs.history, top, recorded')
    ensures error.None? ==> done' == done + task.Items() && Current(fs, h0, fs.history, s, recorded', from, fs.clock)
    ensures error.Some? ==> Halted(fs, h0, fs.history, s, recorded', from, fs.clock, error.value)
    ensures fs.Reliable(old(fs.clock))
            && (if task.Single? then Buildable(old(fs.disk), s, task.item) else Passable(old(fs.disk), s, task.rel)) ==>
              error.None?
  {
    hide Growing, Disk.Valid, Sound, Covered, FileSystem.Played, Notes, Current, Halted, Buildable, Passable;
    match task
    case Single(item) => error, recorded', done' := StageItem(fs, top, item, recorded, h0, s, done, from);
    case Folders(rel) => error, recorded', done' := StageFolders(fs, top, rel, recorded, h0, s, done, from);
  }

  /** Every step of the population in turn. */
  method Populate(fs: FileSystem, top: Name, s: Ino, tasks: seq<Task>, ghost h0: History, ghost from: nat)
    returns (error: Option<PrepareError>, recorded: seq<Owned>, ghost done: seq<Item>)
    requires fs.Valid() && forall task | task in tasks :: task.Place() != []
    requires Growing(h0, fs.history, top, s, [], [Owned([], s, true)])
    requires Notes(h0, fs.history, top, [Owned([], s, true)])
    requires Current(fs, h0, fs.history, s, [Owned([], s, true)], from, fs.clock)
    modifies fs
    ensures fs.Valid() && fs.clock >= old(fs.clock)
    ensures Growing(h0, fs.history, top, s, done, recorded) && Notes(h0, fs.history, top, recorded)
    ensures error.None? ==> done == Entries(tasks) && Current(fs, h0, fs.history, s, recorded, from, fs.clock)
    ensures error.Some? ==> Halted(fs, h0, fs.history, s, recorded, from, fs.clock, error.value)
    ensures fs.Reliable(old(fs.clock)) && Arranged(tasks) ==> error.None?
  {
    hide Growing, Disk.Valid, Sound, Walk, Covered, FileSystem.Played, Notes, Current, Halted, Buildable, Passable,
         ArrangedAt;
    recorded, done, error := [Owned([], s, true)], [], None;
    assert tasks[..0] == [];
    for i := 0 to |tasks|
      invariant fs.Valid() && fs.clock >= old(fs.clock) && error.None? && done == Entries(tasks[..i])
      invariant Growing(h0, fs.history, top, s, done, recorded) && Notes(h0, fs.history, top, recorded)
      invariant Current(fs, h0, fs.history, s, recorded, from, fs.clock)
    {
      assert tasks[..i + 1][..i] == tasks[..i];
      if Arranged(tasks) { GrowingArranged(h0, fs.history, top, s, recorded, tasks, i); }
      error, recorded, done := StageTask(fs, top, tasks[i], recorded, h0, s, done, from);
      if error.Some? { return; }
    }
    assert tasks[..|tasks|] == tasks;
  }

  lemma GrowingArranged(h0: History, h: History, top: Name, s: Ino, recorded: seq<Owned>, tasks: seq<Task>, i: nat)
    requires i < |tasks| && Growing(h0, h, top, s, Entries(tasks[..i]), recorded) && ArrangedAt(tasks, i)
    ensures if tasks[i].Single? then Buildable(h.disk, s, tasks[i].item) else Passable(h.disk, s, tasks[i].rel)
  {
    hide Account, Ledger, Layout, Mine, Records;
    ArrangedBuildable(h.disk, s, tasks, i);
  }

  // -------------------------------------------------------------------------
  // Reading back, and the snapshot
  // -------------------------------------------------------------------------

  /** The selected files below `root` have the bytes they should have. */
  ghost predicate FilesAre(d: Disk, root: Path, items: seq<Item>, committed: bool) {
    forall item | item in items && (if committed then item.fixture else item.verified) && item.content.Some? ::
      var p := Below(root, item.rel);
      d.Follow(p).Some? && d.Content(d.Follow(p).value) == item.content
  }

  /** Read the selected files back. */
  method VerifyFiles(fs: FileSystem, root: Path, items: seq<Item>, committed: bool)
    returns (error: Option<PrepareError>)
    requires fs.Valid()
    modifies fs`clock
    ensures fs.Valid() && fs.clock >= old(fs.clock)
    ensures error.None? ==> FilesAre(fs.disk, root, items, committed) && fs.Smooth(old(fs.clock), fs.clock)
    ensures error.Some? ==>
      error.value in {Raw(READ), STAGE_VERIFY} && fs.clock > old(fs.clock) && fs.Smooth(old(fs.clock), fs.clock - 1)
    ensures fs.Reliable(old(fs.clock)) && FilesAre(fs.disk, root, items, committed) ==> error.None?
  {
    hide Disk.Valid, Sound, Below, Disk.Lookup, Disk.Follow, FileSystem.Played;
    assert items[..0] == [];
    for i := 0 to |items|
      invariant fs.Valid() && fs.clock >= old(fs.clock) && fs.Smooth(old(fs.clock), fs.clock)
      invariant FilesAre(fs.disk, root, items[..i], committed)
    {
      assert items[..i + 1] == items[..i] + [items[i]];
      if (if committed then items[i].fixture else items[i].verified) && items[i].content.Some? {
        var bytes := fs.ReadFile(Below(root, items[i].rel));
        if bytes != items[i].content { return Some(if bytes.None? then Raw(READ) else STAGE_VERIFY); }
      }
    }
    assert items[..|items|] == items;
    error := None;
  }

  /** A tree in place reads back as its items. */
  lemma {:induction false} TreeReads(d0: Disk, d: Disk, s: Ino, names: map<Name, Ino>, top: Name, items: seq<Item>,
                                     committed: bool)
    requires Layout(d0, d, s, names) && top in names && names[top] == s && TreeIs(d, s, items)
    ensures FilesAre(d, Join(Base, top), items, committed)
  {
    hide Layout, Walk, Below;
    forall item | item in items && item.content.Some?
      ensures d.Follow(Below(Join(Base, top), item.rel)) == Walk(d, s, item.rel)
    {
      assert item.rel != [] by { AtTop(d, s); }
      TreeDirAt(d0, d, s, names, top, item.rel);
    }
  }

  function Deepest(items: seq<Item>): nat {
    if items == [] then 0
    else
      var rest, here := Deepest(items[..|items| - 1]), |items[|items| - 1].rel|;
      if here > rest then here else rest
  }

  lemma {:induction false} DeepestBounds(items: seq<Item>, item: Item)
    requires item in items
    ensures |item.rel| <= Deepest(items)
  {
    var before, last := items[..|items| - 1], items[|items| - 1];
    if item != last {
      assert items == before + [last];
      DeepestBounds(before, item);
    }
  }

  lemma {:induction false} TreeShallow(d: Disk, s: Ino, items: seq<Item>)
    requires TreeIs(d, s, items)
    ensures Shallow(d, s, Deepest(items) + 1)
  {
    hide Walk;
    forall rel | Walk(d, s, rel).Some? ensures |rel| < Deepest(items) + 1 {
      if rel != [] {
        var item :| item in items && item.rel == rel;
        DeepestBounds(items, item);
      }
    }
  }

  /** What the run still owns: the staging directory, the snapshot, the evidence
      directory and the manifest, as far as they were created. */
  datatype Holdings = Holdings(staging: Option<(Name, Ino)>, tree: seq<Owned>, evidence: Option<Ino>, manifest: Option<Ino>) {
    function Names(): map<Name, Ino> {
      (if staging.Some? then map[staging.value.0 := staging.value.1] else map[])
      + (if evidence.Some? then map[EVIDENCE := evidence.value] else map[])
      + (if manifest.Some? then map[MANIFEST := manifest.value] else map[])
    }

    function Inos(): set<Ino> {
      (if staging.Some? then {staging.value.1} else {})
      + (if evidence.Some? then {evidence.value} else {})
      + (if manifest.Some? then {manifest.value} else {})
      + (set o | o in tree :: o.ino)
    }
  }

  const NOTHING_HELD := Holdings(None, [], None, None)

  lemma {:induction false} GrowingInos(h0: History, h: History, top: Name, s: Ino, done: seq<Item>, tree: seq<Owned>)
    requires Growing(h0, h, top, s, done, tree)
    ensures Holdings(Some((top, s)), tree, None, None).Inos() <= Claimed(h0, h)
    ensures h.disk.base == h0.disk.base && h0.disk.next <= h.disk.next && h.disk.IsDir(s) && s >= h0.disk.next
  {
    AtTop(h.disk, s);
    MineAt(h.disk, s, Claimed(h0, h), []);
    forall o | o in tree ensures o.ino in Claimed(h0, h) { MineAt(h.disk, s, Claimed(h0, h), o.rel); }
  }

  /** Read what was staged back and take the snapshot. */
  method Confirm(fs: FileSystem, top: Name, s: Ino, items: seq<Item>, recorded: seq<Owned>, ghost h0: History)
    returns (error: Option<PrepareError>, tree: seq<Owned>)
    requires fs.Valid() && Growing(h0, fs.history, top, s, items, recorded)
    modifies fs`clock
    ensures fs.Valid() && fs.clock >= old(fs.clock)
    ensures error.Some? ==>
      tree == recorded && error.value != Raw(WRITE) && fs.clock > old(fs.clock)
    ensures error.None? ==> Growing(h0, fs.history, top, s, items, tree) && Covered(fs.disk, s, tree)
    ensures fs.Reliable(old(fs.clock)) ==> error.None?
  {
    hide Disk.Valid, Sound, FileSystem.Played, FilesAre, Growing, Covered, Captures, Shallow, Disk.Lookup,
         FileSystem.Smooth;
    tree := recorded;
    ghost var height := Deepest(items) + 1;
    GrowingReads(h0, fs.history, top, s, items, recorded);
    error := VerifyFiles(fs, Join(Base, top), items, false);
    if error.Some? { return; }
    var ok, snapshot := Capture(fs, Join(Base, top), [], s, height);
    if !ok { return Some(Raw(SCAN)), tree; }
    GrowingCaptured(h0, fs.history, top, s, items, recorded, snapshot);
    error, tree := None, snapshot;
  }

  lemma {:induction false} GrowingReads(h0: History, h: History, top: Name, s: Ino, items: seq<Item>,
                                        recorded: seq<Owned>)
    requires Growing(h0, h, top, s, items, recorded)
    ensures FilesAre(h.disk, Join(Base, top), items, false) && Shallow(h.disk, s, Deepest(items) + 1)
    ensures h.disk.Lookup(Join(Base, top)) == Some(s)
  {
    hide Layout, TreeIs, Mine, Records, Account, FilesAre, Shallow, Disk.Lookup;
    LayoutTop(h0.disk, h.disk, s, map[top := s], top);
    TreeReads(h0.disk, h.disk, s, map[top := s], top, items, false);
    TreeShallow(h.disk, s, items);
  }

  lemma GrowingCaptured(h0: History, h: History, top: Name, s: Ino, items: seq<Item>, recorded: seq<Owned>,
                        snapshot: seq<Owned>)
    requires Growing(h0, h, top, s, items, recorded) && Captures(h.disk, s, [], snapshot)
    ensures Growing(h0, h, top, s, items, snapshot) && Covered(h.disk, s, snapshot)
  {
    hide Layout, TreeIs, Mine, Records, Account, Captures, Covered;
    CapturedRecords(h.disk, s, snapshot);
  }

  /** What a failure in staging leaves to its handler: nothing; the staging
      directory, not held; or the tree so far, with what is recorded of it. */
  ghost predicate Unstaged(h0: History, h: History, top: Name, s: Ino, done: seq<Item>, tree: seq<Owned>,
                           held: Holdings) {
    if h == h0 then held == NOTHING_HELD
    else
      && Growing(h0, h, top, s, done, tree)
      && (held == NOTHING_HELD || held == Holdings(Some((top, s)), tree, None, None))
  }

  /** How far a run that was stopped by the call before `now` had got: when no call
      before had failed, everything it had made was inspected, unless that very
      call broke off. */
  ghost predicate Interrupted(fs: FileSystem, h0: History, h: History, from: nat, now: nat, error: PrepareError) {
    && (BrokeOff(h0, h) ==> !AllInspected(h0, h))
    && (fs.Smooth(from, now - 1) ==>
          if BrokeOff(h0, h) then error in {Raw(WRITE), Raw(MKDIRS), IO_ERROR} else AllInspected(h0, h))
    && (error == Raw(WRITE) ==> BrokeOff(h0, h))
  }

  lemma {:induction false} HaltedInterrupted(fs: FileSystem, h0: History, h: History, top: Name, s: Ino,
                                             done: seq<Item>, recorded: seq<Owned>, from: nat, now: nat,
                                             error: PrepareError)
    requires Growing(h0, h, top, s, done, recorded) && Notes(h0, h, top, recorded)
    requires Halted(fs, h0, h, s, recorded, from, now, error)
    ensures Interrupted(fs, h0, h, from, now, error)
    ensures Covered(h.disk, s, recorded) <==> AllInspected(h0, h)
  {
    hide Growing, Notes, Covered, BrokeOff, AllInspected;
    CoveredIff(h0, h, top, s, done, recorded);
  }

  /** Stage everything, read it back and take the snapshot. */
  method Stage(fs: FileSystem, candidates: nat -> string, tasks: seq<Task>, ghost h0: History)
    returns (error: Option<PrepareError>, top: Name, s: Ino, held: Holdings, ghost done: seq<Item>,
             ghost tree: seq<Owned>)
    requires fs.Valid() && fs.history == h0 && forall task | task in tasks :: task.Place() != []
    modifies fs
    ensures fs.Valid() && fs.clock >= old(fs.clock)
    ensures error.None? ==>
      && fs.history != h0 && held == Holdings(Some((top, s)), held.tree, None, None)
      && Growing(h0, fs.history, top, s, Entries(tasks), held.tree) && Covered(fs.disk, s, held.tree)
    // A failure: what is held is all of what was made exactly when all of that was inspected.
    ensures error.Some? ==>
      && Unstaged(h0, fs.history, top, s, done, tree, held)
      && (AllInspected(h0, fs.history) <==>
            fs.history == h0 || (held != NOTHING_HELD && Covered(fs.disk, s, tree)))
      && Interrupted(fs, h0, fs.history, old(fs.clock), fs.clock, error.value)
    ensures fs.Reliable(old(fs.clock)) && FreeCandidate(old(fs.disk), candidates) && Arranged(tasks) ==> error.None?
  {
    hide Disk.Valid, Sound, FileSystem.Played, Growing, Covered, FreeCandidate, Arranged, Disk.Mkdir, FileSystem.Smooth,
         Notes, BrokeOff, AllInspected, Halted, Entries;
    held, done := NOTHING_HELD, [];
    ghost var from := fs.clock;
    error, top, s := CreateStaging(fs, candidates);
    tree := [Owned([], s, true)];
    NothingMade(h0);
    if fs.history != h0 { StagingMade(h0, s, top, fs.disk); }
    if error.Some? {
      if fs.history != h0 {
        GrowingMoved(h0, fs.history, top, s, [], tree);
        Uninspected(h0, fs.history, top);
      }
      return;
    }
    StagingRecorded(h0, Then(h0, Step.Mkdir(Join(Base, top)), fs.disk), s, top);
    var recorded;
    error, recorded, done := Populate(fs, top, s, tasks, h0, from);
    GrowingMoved(h0, fs.history, top, s, done, recorded);
    held, tree := Holdings(Some((top, s)), recorded, None, None), recorded;
    if error.Some? {
      HaltedInterrupted(fs, h0, fs.history, top, s, done, recorded, from, fs.clock, error.value);
      return;
    }
    ghost var at := fs.clock;
    error, recorded := Confirm(fs, top, s, Entries(tasks), recorded, h0);
    held := held.(tree := recorded);
    if error.Some? {
      HaltedIdle(fs, h0, fs.history, s, recorded, from, at, fs.clock, error.value);
      HaltedInterrupted(fs, h0, fs.history, top, s, done, recorded, from, fs.clock, error.value);
    }
  }

  lemma {:induction false} NothingMade(h0: History)
    ensures AllInspected(h0, h0) && !BrokeOff(h0, h0)
  {
    assert forall p :: MadeAt(h0, h0, p).None?;
  }

  lemma GrowingMoved(h0: History, h: History, top: Name, s: Ino, done: seq<Item>, tree: seq<Owned>)
    requires Growing(h0, h, top, s, done, tree)
    ensures h != h0
  {}
}
