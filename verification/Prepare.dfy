/** Committing the staged evidence in two exclusive steps, and taking back only
    what is still owned (commander-native-tool-benchmark-v2-prepare.ts). */
module Prepare {
  import opened Outcomes
  import opened FileSystem
  import opened Reliance
  import opened Lifecycle
  import opened TreeRollback
  import opened StagingTree
  import opened Ownership
  import opened Staging

  // -------------------------------------------------------------------------
  // The run directory, undisturbed
  // -------------------------------------------------------------------------

  /** The run directory is laid out with `names`, the tree is the staged one, and
      the snapshot records it. */
  ghost predicate InOrder(d0: Disk, d: Disk, s: Ino, names: map<Name, Ino>, tree: seq<Owned>, items: seq<Item>) {
    Layout(d0, d, s, names) && TreeIs(d, s, items) && Records(d, s, tree) && Covered(d, s, tree)
  }

  /** The tree is untouched by what happens outside it. */
  lemma {:induction false} TreeStays(d: Disk, e: Disk, s: Ino, tree: seq<Owned>, items: seq<Item>)
    requires TreeIs(d, s, items) && Records(d, s, tree) && Covered(d, s, tree)
    requires forall rel :: Walk(e, s, rel) == Walk(d, s, rel)
    requires forall rel | Walk(d, s, rel).Some? ::
      var i := Walk(d, s, rel).value; e.KindOf(i) == d.KindOf(i) && e.Content(i) == d.Content(i)
    ensures TreeIs(e, s, items) && Records(e, s, tree) && Covered(e, s, tree)
  {
    hide Walk, Records, Covered;
    AtTop(d, s);
    assert e.KindOf(s) == d.KindOf(s);
    RecordsStay(d, e, s, tree);
    forall item | item in items
      ensures e.Content(Walk(e, s, item.rel).value) == item.content
      ensures item.content.None? ==> e.IsDir(Walk(e, s, item.rel).value)
    {
      var i := Walk(d, s, item.rel).value;
      assert e.KindOf(i) == d.KindOf(i);
    }
  }

  /** Places of the tree are existing inodes. */
  lemma {:induction false} TreeExists(d0: Disk, d: Disk, s: Ino, names: map<Name, Ino>, top: Name, rel: Rel)
    requires Layout(d0, d, s, names) && top in names && names[top] == s && d.IsDir(s)
    ensures s < d.next && (Walk(d, s, rel).Some? ==> Walk(d, s, rel).value < d.next)
  {
    LayoutRooted(d0, d, s, names, top);
    WalkExists(d, s, top, rel);
  }

  /** A new name in the run directory leaves the tree in order. */
  lemma {:induction false} MakeInOrder(d0: Disk, d: Disk, e: Disk, s: Ino, names: map<Name, Ino>, top: Name, n: Name,
                                       tree: seq<Owned>, items: seq<Item>)
    requires InOrder(d0, d, s, names, tree, items) && top in names && names[top] == s
    requires d.Mkdir(Join(Base, n)) == Success(e) || d.Create(Join(Base, n)) == Success(e)
    ensures n !in names && InOrder(d0, e, s, names[n := d.next], tree, items)
    ensures forall rel | Walk(e, s, rel).Some? :: Walk(e, s, rel).value != d.next
    ensures forall k :: e.Entry(d.next, k).None?
  {
    hide Layout, TreeIs, Records, Covered, Walk, Disk.Valid, Disk.Mkdir, Disk.Create;
    LayoutBase(d0, d, s, names);
    MakeTop(d0, d, e, s, names, n);
    CreatedAt(d, e, Join(Base, n));
    TreeRoot(d, s, items);
    forall rel | Walk(d, s, rel).Some? ensures Walk(d, s, rel).value < d.next { TreeExists(d0, d, s, names, top, rel); }
    TreeStays(d, e, s, tree, items);
    BaseOld(d);
  }

  lemma MoveInOrder(d0: Disk, d: Disk, e: Disk, s: Ino, names: map<Name, Ino>, from: Name, to: Name, tree: seq<Owned>,
                    items: seq<Item>)
    requires InOrder(d0, d, s, names, tree, items) && from in names && names[from] == s && from != to
    requires to in names && names[to] != s && d.Rename(Join(Base, from), Join(Base, to)) == Success(e)
    ensures InOrder(d0, e, s, (names - {from})[to := s], tree, items)
  {
    hide Layout, TreeIs, Records, Covered, Walk, Disk.Rename;
    MoveTop(d0, d, e, s, names, from, to);
    TreeStays(d, e, s, tree, items);
  }

  lemma {:induction false} WriteInOrder(d0: Disk, d: Disk, s: Ino, names: map<Name, Ino>, tree: seq<Owned>,
                                        items: seq<Item>, m: Ino, bytes: Bytes)
    requires InOrder(d0, d, s, names, tree, items) && d.IsFile(m)
    requires forall rel | Walk(d, s, rel).Some? :: Walk(d, s, rel).value != m
    ensures InOrder(d0, d.Write(m, bytes), s, names, tree, items)
    ensures forall rel :: Walk(d.Write(m, bytes), s, rel) == Walk(d, s, rel)
  {
    hide TreeIs, Records, Covered;
    var e := d.Write(m, bytes);
    WriteValid(d, m, bytes);
    BaseOld(d0);
    TopChange(d0, d, e, s, names, names);
    TreeStays(d, e, s, tree, items);
  }

  /** Neither output is there. */
  predicate OutputsAbsent(d: Disk) {
    d.Follow(EVIDENCE_PATH).None? && d.Follow(MANIFEST_PATH).None?
  }

  /** A name that was free and is not the run's is still free. */
  lemma LayoutAbsent(d0: Disk, d: Disk, s: Ino, names: map<Name, Ino>, n: Name)
    requires Layout(d0, d, s, names) && n !in names && d0.Follow(Join(Base, n)).None?
    ensures d.Follow(Join(Base, n)).None? && d.Entry(d.base, n).None?
  {
    LayoutTop(d0, d, s, names, n);
    BaseOld(d0);
    BaseOld(d);
    assert d0.Lookup(Join(Base, n)).None?;
  }

  // -------------------------------------------------------------------------
  // The account of the commits
  // -------------------------------------------------------------------------

  /** The run has worked on its own, and has made the staging directory `s` at
      `top`, `e` at the evidence name and `m` at the manifest name. */
  ghost predicate Keeping(h0: History, h: History, gaps: bool, top: Name, s: Ino, e: Option<Ino>, m: Option<Ino>) {
    && Extends(h0, h) && OwnSteps(h0, h, gaps) && Working(h0, h)
    && (!gaps ==> forall i | i in Claimed(h0, h) :: i >= h0.disk.next)
    && top !in {EVIDENCE, MANIFEST} && MadeAt(h0, h, Join(Base, top)) == Some(s)
    && MadeAt(h0, h, EVIDENCE_PATH) == e && MadeAt(h0, h, MANIFEST_PATH) == m
  }

  lemma KeepStaged(h0: History, h: History, gaps: bool, top: Name, s: Ino)
    requires Account(h0, h, top, s)
    ensures Keeping(h0, h, gaps, top, s, None, None)
  {
    if gaps { WithGaps(h0, h, false); }
  }

  lemma {:induction false} KeepHook(h0: History, h: History, gaps: bool, top: Name, s: Ino, e: Option<Ino>,
                                    m: Option<Ino>, after: Disk)
    requires Keeping(h0, h, gaps, top, s, e, m)
    ensures Keeping(h0, Then(h, Environment, after), gaps, top, s, e, m) && HookRan(h0, Then(h, Environment, after))
    ensures Claimed(h0, Then(h, Environment, after)) == Claimed(h0, h)
  {
    OwnPause(h0, h, gaps, Environment, after);
    OtherStep(h0, h, Environment, after, {});
  }

  /** Creating one of the outputs. */
  lemma {:induction false} KeepTop(h0: History, h: History, gaps: bool, top: Name, s: Ino, e: Option<Ino>,
                                   m: Option<Ino>, n: Name, step: Step, after: Disk)
    requires Keeping(h0, h, gaps, top, s, e, m) && h.disk.Valid() && h.disk.base == h0.disk.base
    requires h0.disk.next <= h.disk.next && n in {EVIDENCE, MANIFEST}
    requires if step.Mkdir? then h.disk.Mkdir(Join(Base, n)) == Success(after)
             else step.Create? && h.disk.Create(Join(Base, n)) == Success(after)
    requires step.path == Join(Base, n)
    ensures Keeping(h0, Then(h, step, after), gaps, top, s, if n == EVIDENCE then Some(h.disk.next) else e,
                    if n == MANIFEST then Some(h.disk.next) else m)
    ensures Claimed(h0, Then(h, step, after)) == Claimed(h0, h) + {h.disk.next}
    ensures HookRan(h0, Then(h, step, after)) <==> HookRan(h0, h)
  {
    hide Disk.Mkdir, Disk.Create, Disk.Valid, Confined, Claimed, HookRan;
    BaseOld(h.disk);
    CreatedAt(h.disk, after, Join(Base, n));
    CreateStep(h0, h, step, after, {});
    OwnStep(h0, h, gaps, step, after, {}, {h0.disk.base});
    assert EVIDENCE != MANIFEST by { assert |EVIDENCE| != |MANIFEST|; }
  }

  lemma {:induction false} KeepWrite(h0: History, h: History, gaps: bool, top: Name, s: Ino, e: Option<Ino>,
                                     m: Option<Ino>, i: Ino, bytes: Bytes)
    requires Keeping(h0, h, gaps, top, s, e, m) && i in Claimed(h0, h) && h.disk.IsFile(i)
    ensures var h2 := Then(h, Step.Write(i), h.disk.Write(i, bytes));
      Keeping(h0, h2, gaps, top, s, e, m) && Claimed(h0, h2) == Claimed(h0, h) && (HookRan(h0, h2) <==> HookRan(h0, h))
  {
    OtherStep(h0, h, Step.Write(i), h.disk.Write(i, bytes), {});
    OwnStep(h0, h, gaps, Step.Write(i), h.disk.Write(i, bytes), {i}, {});
  }

  /** The disk the run works on is the one it started on, later. */
  ghost predicate Later(d0: Disk, d: Disk) {
    d0.Valid() && d.Valid() && d.base == d0.base && d0.next <= d.next
  }

  lemma LaterStill(d0: Disk, d: Disk, e: Disk)
    requires Later(d0, d) && Admissible(d, e)
    ensures Later(d0, e)
  {}

  /** Refuse an output that is already there. */
  method AssertOutputAbsent(fs: FileSystem, p: Path) returns (error: Option<PrepareError>)
    requires fs.Valid()
    modifies fs`clock
    ensures fs.Valid() && fs.clock == old(fs.clock) + 1
    ensures error.None? ==> fs.disk.Follow(p).None? && fs.Smooth(old(fs.clock), fs.clock)
    ensures fs.Reliable(old(fs.clock)) && fs.disk.Follow(p).None? ==> error.None?
  {
    hide Disk.Valid, Sound, Disk.Follow, FileSystem.Played, FileSystem.Smooth;
    fs.SmoothOne(fs.clock);
    var there := fs.Exists(p);
    error := if there.Failure? then Some(IO_ERROR) else if there.value then Some(PrepareError.EXISTING_OUTPUT) else None;
  }

  lemma DirExists(d: Disk, i: Ino)
    requires d.Valid() && d.IsDir(i)
    ensures i < d.next
  {}

  lemma DirStaysDir(before: Disk, after: Disk, i: Ino)
    requires Admissible(before, after) && before.IsDir(i)
    ensures after.IsDir(i)
  {
    assert after.KindOf(i) == before.KindOf(i);
  }

  // -------------------------------------------------------------------------
  // Commit 1: the evidence directory
  // -------------------------------------------------------------------------

  /** What the undisturbed run directory looks like after a reservation. */
  function Reserved(top: Name, s: Ino, e: Option<Ino>): map<Name, Ino> {
    if e.Some? then map[top := s, EVIDENCE := e.value] else map[top := s]
  }

  /** The hook, and both outputs once more. */
  method Recheck(fs: FileSystem, ghost h0: History, ghost gaps: bool, ghost top: Name, ghost s: Ino,
                 ghost tree: seq<Owned>, ghost items: seq<Item>)
    returns (error: Option<PrepareError>)
    requires fs.Valid() && Keeping(h0, fs.history, gaps, top, s, None, None) && fs.disk.IsDir(s)
      && Later(h0.disk, fs.disk)
    modifies fs
    ensures fs.Valid() && fs.clock >= old(fs.clock) && fs.disk.IsDir(s) && Later(h0.disk, fs.disk)
    ensures Keeping(h0, fs.history, gaps, top, s, None, None) && HookRan(h0, fs.history)
    ensures Claimed(h0, fs.history) == Claimed(h0, old(fs.history))
    ensures fs.Passive() ==> fs.disk == old(fs.disk)
    ensures fs.Calm() && InOrder(h0.disk, fs.disk, s, map[top := s], tree, items) && OutputsAbsent(h0.disk) ==> error.None?
  {
    hide InOrder, Keeping, Disk.Valid, Sound, Walk, FileSystem.Played, Admissible, Disk.Follow, Claimed, HookRan, Later;
    ghost var h := fs.history;
    var thrown := fs.Hook();                                            // beforeEvidenceCommit
    KeepHook(h0, h, gaps, top, s, None, None, fs.disk);
    DirStaysDir(h.disk, fs.disk, s);
    LaterStill(h0.disk, h.disk, fs.disk);
    if InOrder(h0.disk, fs.disk, s, map[top := s], tree, items) && OutputsAbsent(h0.disk) {
      AbsentInOrder(h0, fs.history, gaps, top, s, map[top := s], tree, items, EVIDENCE);
      AbsentInOrder(h0, fs.history, gaps, top, s, map[top := s], tree, items, MANIFEST);
    }
    if thrown.Some? { return Some(HookThrew); }
    error := AssertOutputAbsent(fs, EVIDENCE_PATH);
    if error.Some? { return; }
    error := AssertOutputAbsent(fs, MANIFEST_PATH);
  }

  lemma AbsentInOrder(h0: History, h: History, gaps: bool, top: Name, s: Ino, names: map<Name, Ino>, tree: seq<Owned>,
                      items: seq<Item>, n: Name)
    requires Keeping(h0, h, gaps, top, s, None, None) && InOrder(h0.disk, h.disk, s, names, tree, items)
    requires OutputsAbsent(h0.disk) && n in {EVIDENCE, MANIFEST} && names == map[top := s]
    ensures h.disk.Follow(Join(Base, n)).None? && h.disk.Entry(h.disk.base, n).None?
  {
    LayoutAbsent(h0.disk, h.disk, s, names, n);
  }

  /** Re-check both outputs and reserve the evidence directory exclusively. */
  method Reserve(fs: FileSystem, ghost h0: History, ghost gaps: bool, ghost top: Name, ghost s: Ino,
                 ghost tree: seq<Owned>, ghost items: seq<Item>)
    returns (error: Option<PrepareError>, e: Option<Ino>)
    requires fs.Valid() && Keeping(h0, fs.history, gaps, top, s, None, None) && fs.disk.IsDir(s)
      && Later(h0.disk, fs.disk)
    modifies fs
    ensures fs.Valid() && fs.clock >= old(fs.clock) && fs.disk.IsDir(s) && Later(h0.disk, fs.disk)
    ensures Keeping(h0, fs.history, gaps, top, s, e, None) && HookRan(h0, fs.history)
    ensures Claimed(h0, fs.history) == Claimed(h0, old(fs.history)) + (if e.Some? then {e.value} else {})
    ensures e.Some? ==> e.value != s
    ensures error.None? <==> e.Some?
    ensures fs.Passive() && InOrder(h0.disk, old(fs.disk), s, map[top := s], tree, items) ==>
      && InOrder(h0.disk, fs.disk, s, Reserved(top, s, e), tree, items)
      && (e.Some? ==> fs.disk.IsDir(e.value) && forall k :: fs.disk.Entry(e.value, k).None?)
    ensures fs.Calm() && InOrder(h0.disk, old(fs.disk), s, map[top := s], tree, items) && OutputsAbsent(h0.disk) ==> error.None?
  {
    hide InOrder, Keeping, Disk.Valid, Sound, Disk.Mkdir, Walk, FileSystem.Played, Claimed, HookRan, Later, Admissible,
         OutputsAbsent;
    e := None;
    error := Recheck(fs, h0, gaps, top, s, tree, items);
    if error.Some? { return; }
    ghost var h := fs.history;
    ghost var ordered := InOrder(h0.disk, fs.disk, s, map[top := s], tree, items);
    if ordered && OutputsAbsent(h0.disk) {
      AbsentInOrder(h0, h, gaps, top, s, map[top := s], tree, items, EVIDENCE);
      FreeTop(fs.disk, EVIDENCE);
    }
    var id := fs.disk.next;
    var failed := fs.Mkdir(EVIDENCE_PATH);
    if failed.Some? { return Some(if failed == Some(EEXIST) then PrepareError.EXISTING_OUTPUT else Raw(MKDIR)), e; }
    e := Some(id);
    LaterParts(h0.disk, h.disk);
    LaterStill(h0.disk, h.disk, fs.disk);
    KeepTop(h0, h, gaps, top, s, None, None, EVIDENCE, fs.history.step, fs.disk);
    CreatedAt(h.disk, fs.disk, EVIDENCE_PATH);
    assert s < id by { DirExists(h.disk, s); }
    assert fs.disk.KindOf(s) == h.disk.KindOf(s);
    if ordered {
      KeepingTop(h0, h, gaps, top, s, None, None);
      MakeInOrder(h0.disk, h.disk, fs.disk, s, map[top := s], top, EVIDENCE, tree, items);
      assert map[top := s][EVIDENCE := id] == Reserved(top, s, e);
    }
  }

  lemma LaterParts(d0: Disk, d: Disk)
    requires Later(d0, d)
    ensures d0.Valid() && d.base == d0.base && d0.next <= d.next
  {}

  lemma {:induction false} KeepingTop(h0: History, h: History, gaps: bool, top: Name, s: Ino, e: Option<Ino>,
                                      m: Option<Ino>)
    requires Keeping(h0, h, gaps, top, s, e, m)
    ensures top !in {EVIDENCE, MANIFEST} && s in Claimed(h0, h) && (e.Some? ==> e.value in Claimed(h0, h))
    ensures m.Some? ==> m.value in Claimed(h0, h)
    ensures Extends(h0, h) && OwnSteps(h0, h, gaps) && Working(h0, h)
    ensures !gaps ==> forall i | i in Claimed(h0, h) :: i >= h0.disk.next
  {
    MadeClaimed(h0, h, Join(Base, top));
    MadeClaimed(h0, h, EVIDENCE_PATH);
    MadeClaimed(h0, h, MANIFEST_PATH);
  }

  lemma UnswappedInOrder(d0: Disk, d: Disk, top: Name, s: Ino, e: Ino, tree: seq<Owned>, items: seq<Item>)
    requires InOrder(d0, d, s, Reserved(top, s, Some(e)), tree, items) && top != EVIDENCE
    ensures !Swapped(d, top, s, e)
  {
    LayoutTop(d0, d, s, Reserved(top, s, Some(e)), top);
    LayoutTop(d0, d, s, Reserved(top, s, Some(e)), EVIDENCE);
  }

  /** The staged directory and the empty reserved one: the move succeeds. */
  lemma MoveReady(d0: Disk, d: Disk, top: Name, s: Ino, e: Ino, tree: seq<Owned>, items: seq<Item>)
    requires InOrder(d0, d, s, Reserved(top, s, Some(e)), tree, items) && top != EVIDENCE && s != e
    requires d.IsDir(e) && forall k :: d.Entry(e, k).None?
    ensures d.Rename(Join(Base, top), EVIDENCE_PATH).Success?
  {
    hide Walk, Records, Covered;
    LayoutTop(d0, d, s, Reserved(top, s, Some(e)), top);
    LayoutTop(d0, d, s, Reserved(top, s, Some(e)), EVIDENCE);
    TreeRoot(d, s, items);
    EmptyDir(d, e);
    BaseOld(d);
  }

  /** The move, whatever was at the two names. */
  lemma {:induction false} KeepMove(h0: History, h: History, gaps: bool, top: Name, s: Ino, e: Ino, after: Disk)
    requires Keeping(h0, h, gaps, top, s, Some(e), None) && Later(h0.disk, h.disk) && h.disk.IsDir(s) && s != e
    requires h.disk.Rename(Join(Base, top), EVIDENCE_PATH) == Success(after)
    requires gaps || !Swapped(h.disk, top, s, e)
    ensures var h2 := Then(h, Step.Rename(Join(Base, top), EVIDENCE_PATH), after);
      && Keeping(h0, h2, gaps, top, s, Some(e), None) && (HookRan(h0, h2) <==> HookRan(h0, h))
      && after.Follow(EVIDENCE_PATH).Some? && Claimed(h0, h2) == Claimed(h0, h) + {after.Follow(EVIDENCE_PATH).value}
    ensures !Swapped(h.disk, top, s, e) ==> after.Follow(EVIDENCE_PATH) == Some(s)
  {
    hide Confined, Claimed, HookRan, Disk.Valid, Disk.Rename, Swapped, Disk.Lookup, Disk.Follow, OwnSteps;
    var step := Step.Rename(Join(Base, top), EVIDENCE_PATH);
    KeepingTop(h0, h, gaps, top, s, Some(e), None);
    RenameStep(h0, h, Join(Base, top), EVIDENCE_PATH, after);
    if Swapped(h.disk, top, s, e) {
      FoundAfterMove(h.disk, after, top);
      assert SwapGap(h0, h, step);
      GapStep(h0, h, step, after);
    } else {
      MoveOwned(h.disk, after, top, s, e);
      OwnStep(h0, h, gaps, step, after, {s, e}, {h0.disk.base, s, e});
    }
  }

  /** Unswapped, the move is within the run's own two directories. */
  lemma MoveOwned(d: Disk, after: Disk, top: Name, s: Ino, e: Ino)
    requires d.Valid() && d.Rename(Join(Base, top), EVIDENCE_PATH) == Success(after) && !Swapped(d, top, s, e)
    requires top != EVIDENCE && s != e && d.IsDir(s)
    ensures Confined(d, after, {s, e}, {d.base, s, e}) && after.Follow(EVIDENCE_PATH) == Some(s)
  {
    BaseOld(d);
    RenameValid(d, Join(Base, top), EVIDENCE_PATH);
    BaseOld(after);
    RenamedTop(d, after, top, EVIDENCE, s);
    MoveConfinedIff(d, after, top, {s, e});
    assert {d.base} + {s, e} == {d.base, s, e};
    assert after.KindOf(s) == d.KindOf(s);
    assert after.Lookup(EVIDENCE_PATH) == Some(s);
  }

  lemma FoundAfterMove(d: Disk, after: Disk, top: Name)
    requires d.Valid() && d.Rename(Join(Base, top), EVIDENCE_PATH) == Success(after) && top != EVIDENCE
    ensures after.Follow(EVIDENCE_PATH).Some?
  {
    BaseOld(d);
    RenameValid(d, Join(Base, top), EVIDENCE_PATH);
    BaseOld(after);
    if d.Entry(d.base, top) != d.Entry(d.base, EVIDENCE) {
      RenamedTop(d, after, top, EVIDENCE, d.Entry(d.base, top).value);
    }
  }

  lemma MovedInOrder(d0: Disk, d: Disk, after: Disk, top: Name, s: Ino, e: Ino, tree: seq<Owned>, items: seq<Item>)
    requires InOrder(d0, d, s, Reserved(top, s, Some(e)), tree, items) && top != EVIDENCE && s != e
    requires d.Rename(Join(Base, top), EVIDENCE_PATH) == Success(after)
    ensures InOrder(d0, after, s, map[EVIDENCE := s], tree, items)
  {
    hide InOrder;
    MoveInOrder(d0, d, after, s, Reserved(top, s, Some(e)), top, EVIDENCE, tree, items);
    assert (Reserved(top, s, Some(e)) - {top})[EVIDENCE := s] == map[EVIDENCE := s];
  }

  /** Move the staged tree into the reserved directory.  There is no identity
      check between the hook and the move. */
  method Move(fs: FileSystem, top: Name, ghost s: Ino, ghost e: Ino, ghost h0: History, ghost gaps: bool,
              ghost tree: seq<Owned>, ghost items: seq<Item>)
    returns (error: Option<PrepareError>, moved: Option<Ino>)
    requires fs.Valid() && Keeping(h0, fs.history, gaps, top, s, Some(e), None) && s != e
    requires fs.disk.IsDir(s) && Later(h0.disk, fs.disk) && HookRan(h0, fs.history)
    requires gaps || (fs.Passive() && InOrder(h0.disk, fs.disk, s, Reserved(top, s, Some(e)), tree, items))
    modifies fs
    ensures fs.Valid() && fs.clock >= old(fs.clock) && Later(h0.disk, fs.disk)
    ensures error.None? <==> moved.Some?
    // The move touches only the run's own, or went through the gap that `Keeping` records.
    ensures Keeping(h0, fs.history, gaps, top, s, Some(e), None) && HookRan(h0, fs.history)
    ensures Claimed(h0, fs.history) == Claimed(h0, old(fs.history)) + (if moved.Some? then {moved.value} else {})
    ensures fs.Passive() && InOrder(h0.disk, old(fs.disk), s, Reserved(top, s, Some(e)), tree, items) ==>
      && moved in {None, Some(s)}
      && InOrder(h0.disk, fs.disk, s, if moved.Some? then map[EVIDENCE := s] else Reserved(top, s, Some(e)), tree, items)
      && (moved.None? ==> fs.disk == old(fs.disk))
    ensures
      && fs.Calm() && InOrder(h0.disk, old(fs.disk), s, Reserved(top, s, Some(e)), tree, items)
      && old(fs.disk).IsDir(e) && (forall k :: old(fs.disk).Entry(e, k).None?)
      ==> error.None?
  {
    hide InOrder, Keeping, Disk.Valid, Sound, Walk, Disk.Rename, Swapped, FileSystem.Played, Claimed, HookRan, Later,
         Admissible, Disk.Lookup, Disk.Follow;
    moved := None;
    ghost var h := fs.history;
    KeepingTop(h0, h, gaps, top, s, Some(e), None);
    var thrown := fs.Hook();                                            // afterEvidenceReserve
    KeepHook(h0, h, gaps, top, s, Some(e), None, fs.disk);
    DirStaysDir(h.disk, fs.disk, s);
    LaterStill(h0.disk, h.disk, fs.disk);
    if thrown.Some? { return Some(HookThrew), moved; }
    h := fs.history;
    ghost var ordered := InOrder(h0.disk, h.disk, s, Reserved(top, s, Some(e)), tree, items);
    if ordered {
      UnswappedInOrder(h0.disk, h.disk, top, s, e, tree, items);
      if h.disk.IsDir(e) && forall k :: h.disk.Entry(e, k).None? { MoveReady(h0.disk, h.disk, top, s, e, tree, items); }
    }
    var failed := fs.Rename(Join(Base, top), EVIDENCE_PATH);
    if failed.Some? {
      return Some(if failed.value in {EEXIST, ENOTEMPTY, ENOTDIR} then PrepareError.EXISTING_OUTPUT else Raw(RENAME)), None;
    }
    KeepMove(h0, h, gaps, top, s, e, fs.disk);
    LaterStill(h0.disk, h.disk, fs.disk);
    if ordered { MovedInOrder(h0.disk, h.disk, fs.disk, top, s, e, tree, items); }
    error, moved := None, fs.disk.Follow(EVIDENCE_PATH);
  }

  // -------------------------------------------------------------------------
  // Commit 2: the manifest
  // -------------------------------------------------------------------------

  function WithManifest(s: Ino, m: Option<Ino>): map<Name, Ino> {
    if m.Some? then map[EVIDENCE := s, MANIFEST := m.value] else map[EVIDENCE := s]
  }

  /** Inode `m` is not in the tree. */
  ghost predicate Apart(d: Disk, s: Ino, m: Ino) {
    forall rel | Walk(d, s, rel).Some? :: Walk(d, s, rel).value != m
  }

  /** Create the manifest exclusively; it is still empty. */
  method OpenManifest(fs: FileSystem, ghost h0: History, ghost gaps: bool, ghost top: Name, ghost s: Ino, ghost e: Ino,
                      ghost tree: seq<Owned>, ghost items: seq<Item>)
    returns (error: Option<PrepareError>, m: Option<Ino>)
    requires fs.Valid() && Keeping(h0, fs.history, gaps, top, s, Some(e), None) && Later(h0.disk, fs.disk)
    requires HookRan(h0, fs.history)
    modifies fs
    ensures fs.Valid() && fs.clock >= old(fs.clock) && Later(h0.disk, fs.disk)
    ensures Keeping(h0, fs.history, gaps, top, s, Some(e), m) && HookRan(h0, fs.history)
    ensures Claimed(h0, fs.history) == Claimed(h0, old(fs.history)) + (if m.Some? then {m.value} else {})
    ensures error.None? <==> m.Some?
    ensures m.Some? ==> fs.disk.IsFile(m.value)
    ensures fs.Passive() && InOrder(h0.disk, old(fs.disk), s, WithManifest(s, None), tree, items) ==>
      && InOrder(h0.disk, fs.disk, s, WithManifest(s, m), tree, items)
      && (m.Some? ==> Apart(fs.disk, s, m.value))
    ensures fs.Calm() && InOrder(h0.disk, old(fs.disk), s, WithManifest(s, None), tree, items) && OutputsAbsent(h0.disk) ==>
              error.None?
  {
    hide InOrder, Keeping, Disk.Valid, Sound, Walk, Disk.Create, FileSystem.Played, Claimed, HookRan, Later, Admissible,
         Disk.Follow, Disk.Lookup;
    m := None;
    ghost var h := fs.history;
    var thrown := fs.Hook();                                            // afterEvidenceCommit
    KeepHook(h0, h, gaps, top, s, Some(e), None, fs.disk);
    LaterStill(h0.disk, h.disk, fs.disk);
    if thrown.Some? { return Some(HookThrew), m; }
    ghost var ordered := InOrder(h0.disk, fs.disk, s, map[EVIDENCE := s], tree, items);
    if ordered && OutputsAbsent(h0.disk) { ManifestFree(h0.disk, fs.disk, s, tree, items); }
    error := AssertOutputAbsent(fs, MANIFEST_PATH);
    if error.Some? { return; }
    h := fs.history;
    var failed, ino := fs.Create(MANIFEST_PATH);
    if failed.Some? { return Some(if failed == Some(EEXIST) then PrepareError.EXISTING_OUTPUT else Raw(OPEN)), m; }
    m := Some(ino);
    LaterParts(h0.disk, h.disk);
    LaterStill(h0.disk, h.disk, fs.disk);
    KeepTop(h0, h, gaps, top, s, Some(e), None, MANIFEST, fs.history.step, fs.disk);
    if ordered {
      MakeInOrder(h0.disk, h.disk, fs.disk, s, map[EVIDENCE := s], EVIDENCE, MANIFEST, tree, items);
      assert map[EVIDENCE := s][MANIFEST := ino] == WithManifest(s, m);
    }
  }

  lemma ManifestFree(d0: Disk, d: Disk, s: Ino, tree: seq<Owned>, items: seq<Item>)
    requires InOrder(d0, d, s, map[EVIDENCE := s], tree, items) && OutputsAbsent(d0)
    ensures d.Follow(MANIFEST_PATH).None? && d.Create(MANIFEST_PATH).Success?
  {
    assert EVIDENCE != MANIFEST by { assert |EVIDENCE| != |MANIFEST|; }
    LayoutAbsent(d0, d, s, map[EVIDENCE := s], MANIFEST);
    FreeTop(d, MANIFEST);
  }

  /** What was committed reads back. */
  method VerifyCommitted(fs: FileSystem, bytes: Bytes, items: seq<Item>) returns (error: Option<PrepareError>)
    requires fs.Valid()
    modifies fs`clock
    ensures fs.Valid() && fs.clock >= old(fs.clock)
    ensures error.None? ==>
      && fs.disk.Follow(MANIFEST_PATH).Some? && fs.disk.Content(fs.disk.Follow(MANIFEST_PATH).value) == Some(bytes)
      && FilesAre(fs.disk, EVIDENCE_PATH, items, true)
    ensures
      && fs.Reliable(old(fs.clock))
      && fs.disk.Follow(MANIFEST_PATH).Some? && fs.disk.Content(fs.disk.Follow(MANIFEST_PATH).value) == Some(bytes)
      && FilesAre(fs.disk, EVIDENCE_PATH, items, true)
      ==> error.None?
  {
    hide Disk.Valid, Sound, FilesAre, FileSystem.Played, Disk.Follow;
    var written := fs.ReadFile(MANIFEST_PATH);
    if written != Some(bytes) { return Some(if written.None? then Raw(READ) else STAGE_VERIFY); }
    error := VerifyFiles(fs, EVIDENCE_PATH, items, true);
  }

  /** Write the manifest and verify what was committed. */
  method FillManifest(fs: FileSystem, m: Ino, bytes: Bytes, items: seq<Item>, ghost h0: History, ghost gaps: bool,
                      ghost top: Name, ghost s: Ino, ghost e: Ino, ghost tree: seq<Owned>)
    returns (error: Option<PrepareError>)
    requires fs.Valid() && Keeping(h0, fs.history, gaps, top, s, Some(e), Some(m)) && fs.disk.IsFile(m)
    requires Later(h0.disk, fs.disk) && HookRan(h0, fs.history)
    modifies fs
    ensures fs.Valid() && fs.clock >= old(fs.clock) && Later(h0.disk, fs.disk)
    ensures Keeping(h0, fs.history, gaps, top, s, Some(e), Some(m)) && HookRan(h0, fs.history) && fs.disk.IsFile(m)
    ensures Claimed(h0, fs.history) == Claimed(h0, old(fs.history))
    ensures error.None? ==>
      && fs.disk.Follow(MANIFEST_PATH).Some? && fs.disk.Content(fs.disk.Follow(MANIFEST_PATH).value) == Some(bytes)
      && FilesAre(fs.disk, EVIDENCE_PATH, items, true)
    ensures fs.Passive() && InOrder(h0.disk, old(fs.disk), s, WithManifest(s, Some(m)), tree, items)
            && Apart(old(fs.disk), s, m) ==>
      && InOrder(h0.disk, fs.disk, s, WithManifest(s, Some(m)), tree, items)
      && (error.None? ==> fs.disk.Content(m) == Some(bytes))
    ensures fs.Calm() && InOrder(h0.disk, old(fs.disk), s, WithManifest(s, Some(m)), tree, items)
            && Apart(old(fs.disk), s, m) ==>
              error.None?
  {
    hide InOrder, Keeping, Disk.Valid, Sound, Walk, FilesAre, FileSystem.Played, Claimed, HookRan, Later, Admissible,
         Disk.Follow, Disk.Lookup;
    ghost var h := fs.history;
    var thrown := fs.Hook();                                            // afterManifestOpen
    KeepHook(h0, h, gaps, top, s, Some(e), Some(m), fs.disk);
    LaterStill(h0.disk, h.disk, fs.disk);
    KindStays(h.disk, fs.disk, m);
    if thrown.Some? { return Some(HookThrew); }
    h := fs.history;
    ghost var ordered := && InOrder(h0.disk, h.disk, s, WithManifest(s, Some(m)), tree, items)
                         && Apart(h.disk, s, m);
    KeepingTop(h0, h, gaps, top, s, Some(e), Some(m));
    var ok := fs.Write(m, bytes);
    ghost var some :| fs.disk == h.disk.Write(m, some) && (ok ==> some == bytes);
    KeepWrite(h0, h, gaps, top, s, Some(e), Some(m), m, some);
    LaterStill(h0.disk, h.disk, fs.disk);
    if ordered { WriteInOrder(h0.disk, h.disk, s, WithManifest(s, Some(m)), tree, items, m, some); }
    if !ok { return Some(Raw(WRITE)); }
    h := fs.history;
    thrown := fs.Hook();                                                // afterManifestCommit
    KeepHook(h0, h, gaps, top, s, Some(e), Some(m), fs.disk);
    LaterStill(h0.disk, h.disk, fs.disk);
    KindStays(h.disk, fs.disk, m);
    if thrown.Some? { return Some(HookThrew); }
    if InOrder(h0.disk, fs.disk, s, WithManifest(s, Some(m)), tree, items) {
      CommittedReads(h0.disk, fs.disk, s, m, tree, items);
    }
    error := VerifyCommitted(fs, bytes, items);
  }

  lemma CommittedReads(d0: Disk, d: Disk, s: Ino, m: Ino, tree: seq<Owned>, items: seq<Item>)
    requires InOrder(d0, d, s, WithManifest(s, Some(m)), tree, items) && d.IsFile(m)
    ensures d.Lookup(MANIFEST_PATH) == Some(m) && d.Follow(MANIFEST_PATH) == Some(m)
    ensures d.Lookup(EVIDENCE_PATH) == Some(s) && FilesAre(d, EVIDENCE_PATH, items, true)
  {
    hide FilesAre;
    assert EVIDENCE != MANIFEST by { assert |EVIDENCE| != |MANIFEST|; }
    LayoutTop(d0, d, s, WithManifest(s, Some(m)), MANIFEST);
    LayoutTop(d0, d, s, WithManifest(s, Some(m)), EVIDENCE);
    TreeReads(d0, d, s, WithManifest(s, Some(m)), EVIDENCE, items, true);
  }

  // -------------------------------------------------------------------------
  // Taking back what is owned
  // -------------------------------------------------------------------------

  /** What is recorded is a faithful record wherever the run's directory sits. */
  lemma RecordedTree(d0: Disk, d: Disk, s: Ino, names: map<Name, Ino>, top: Name, tree: seq<Owned>)
    requires Layout(d0, d, s, names) && Records(d, s, tree) && top in names && names[top] == s && d.IsDir(s)
    ensures TreeOk(d, Join(Base, top), s, top, tree)
  {
    hide Disk.Valid, Walk;
    LayoutRooted(d0, d, s, names, top);
    forall o | o in tree ensures Recorded(d, s, o) { LayoutStraight(d0, d, s, names, o.rel); }
  }

  lemma {:induction false} LoneStraight(d: Disk, r: Ino, rel: Rel)
    requires d.IsDir(r) && forall k :: d.Entry(r, k).None?
    ensures Straight(d, r, rel) && Walk(d, r, rel) == if rel == [] then Some(r) else None
  {
    LoneWalk(d, r, rel);
    if rel != [] {
      LoneStraight(d, r, rel[..|rel| - 1]);
    }
  }

  /** Undisturbed, the directory `r` at `name` is the staged tree, owned
      throughout, or the empty reserved directory. */
  ghost predicate Removable(d0: Disk, d: Disk, s: Ino, names: map<Name, Ino>, name: Name, r: Ino, tree: seq<Owned>) {
    && Layout(d0, d, s, names) && name in names && names[name] == r
    && TreeOk(d, Join(Base, name), r, name, tree)
    && (r == s ==> forall rel | Walk(d, s, rel).Some? :: OwnedAt(d, s, tree, rel))
    && (r != s ==> forall k :: d.Entry(r, k).None?)
  }

  lemma PassedOver(d0: Disk, d: Disk, e: Disk, s: Ino, names: map<Name, Ino>, name: Name, r: Ino, tree: seq<Owned>)
    requires Removable(d0, d, s, names, name, r, tree) && Rooted(e, r, name) && Exact(d, e, r, tree)
      && Elsewhere(d, e, r)
    requires d.next == e.next
    ensures Layout(d0, e, s, names) && e.Empty(r) && (r == s ==> NewEmpty(d0, e))
    ensures forall x: Ino, k: Name | d.Entry(x, k).None? :: e.Entry(x, k).None?
  {
    hide Exact, Disk.Valid, OwnedAt, Walk;
    if r == s {
      TreeGone(d0, d, e, s, names, name, tree);
    } else {
      LayoutRooted(d0, d, s, names, name);
      forall x: Ino, k: Name ensures e.Entry(x, k) == d.Entry(x, k) {
        if e.Entry(x, k) != d.Entry(x, k) {
          var rel :| Walk(d, r, rel) == Some(x);
          LoneWalk(d, r, rel);
        }
      }
      EmptyDir(e, r);
      SameNames(d0, d, e, s, names);
    }
  }

  lemma SameNames(d0: Disk, d: Disk, e: Disk, s: Ino, names: map<Name, Ino>)
    requires Layout(d0, d, s, names) && e.Valid() && e.base == d.base && d.next == e.next
    requires forall x: Ino, k: Name :: e.Entry(x, k) == d.Entry(x, k)
    requires forall i | i in e.nodes && e.nodes[i].Symlink? :: i in d.nodes && d.nodes[i].Symlink?
    ensures Layout(d0, e, s, names)
  {
    BaseOld(d0);
    TopChange(d0, d, e, s, names, names);
  }

  /** Undisturbed, the staged tree is at `name`, and something in it is not
      recorded. */
  ghost predicate Stuck(d0: Disk, d: Disk, s: Ino, names: map<Name, Ino>, name: Name, tree: seq<Owned>) {
    && Layout(d0, d, s, names) && name in names && names[name] == s
    && TreeOk(d, Join(Base, name), s, name, tree) && OwnedAt(d, s, tree, []) && !Covered(d, s, tree)
  }

  /** What is not recorded keeps the directories above it. */
  lemma {:induction false} StuckStays(d0: Disk, d: Disk, e: Disk, s: Ino, names: map<Name, Ino>, name: Name,
                                      tree: seq<Owned>)
    requires Stuck(d0, d, s, names, name, tree) && Rooted(e, s, name) && Exact(d, e, s, tree)
    ensures e.Entry(e.base, name) == Some(s) && e.Rmdir(Join(Base, name)).Failure?
  {
    hide Exact, OwnedAt, Walk, Disk.Valid, TreeOk, Layout;
    var rel :| Walk(d, s, rel).Some? && !OwnedAt(d, s, tree, rel);
    assert rel != [];
    ForeignSurvives(d, e, s, tree, rel, rel);
    var n := rel[0];
    assert [] + [n] <= rel;
    WalkPrefix(e, s, [] + [n], rel);
    WalkStep(e, s, [], n);
    AtTop(e, s);
    RootedPath(e, s, name);
    BaseDir(e);
  }

  lemma BaseDir(d: Disk)
    requires d.Valid()
    ensures d.DirAt(Base) == Some(d.base)
  {
    BaseOld(d);
  }

  /** `rmdir` removes a directory, so the path named it and no link to it. */
  lemma {:induction false} RmdirConfined(g: History, h: History, after: Disk, own: set<Ino>, into: set<Ino>,
                                         name: Name, r: Ino)
    requires CodeConfined(g, h, own, into) && h.disk.Valid() && h.disk.Rmdir(Join(Base, name)) == Success(after)
      && r in own
    requires g.disk.Valid() && g.disk.Follow(Join(Base, name)) == Some(r)
    requires h.disk.Lookup(Join(Base, name)) in {None, g.disk.Lookup(Join(Base, name))}
    requires forall i :: h.disk.KindOf(i) == g.disk.KindOf(i)
    ensures CodeConfined(g, Then(h, Step.Rmdir(Join(Base, name)), after), own, into)
  {
    BaseOld(h.disk);
    var i := h.disk.Lookup(Join(Base, name)).value;
    assert h.disk.KindOf(i) == g.disk.KindOf(i);
    assert i == r;
    ConfinedStep(g, h, own, into, Step.Rmdir(Join(Base, name)), after);
  }

  /** Remove one owned tree with its root, while its path leads to the tracked
      directory.  When no call fails for a reason of its own, the whole of a
      recorded tree goes, and an incompletely recorded one stays. */
  method RollBackTree(fs: FileSystem, name: Name, r: Ino, tree: seq<Owned>, ghost h0: History, ghost gaps: bool,
                      ghost d0: Disk, ghost s: Ino, ghost names: map<Name, Ino>)
    requires fs.Valid() && OwnSteps(h0, fs.history, gaps) && r in Claimed(h0, fs.history)
    requires (forall o | o in tree :: o.ino in Claimed(h0, fs.history)) && fs.disk.base == h0.disk.base
    modifies fs
    ensures fs.Valid() && fs.clock >= old(fs.clock) && fs.disk.base == h0.disk.base
    ensures OwnSteps(h0, fs.history, gaps) && Removing(old(fs.history), fs.history)
    ensures fs.Reliable(old(fs.clock)) && Removable(d0, old(fs.disk), s, names, name, r, tree) ==>
              Layout(d0, fs.disk, s, names - {name}) && (r == s ==> NewEmpty(d0, fs.disk))
    ensures fs.Reliable(old(fs.clock)) && Stuck(d0, old(fs.disk), s, names, name, tree) && r == s ==>
              fs.disk.Entry(fs.disk.base, name) == Some(s)
  {
    hide Layout, Disk.Valid, Sound, Walk, CodeConfined, TreeOk, Exact, Elsewhere, OwnedAt, Disk.Rmdir, Admissible,
         Rooted, Disk.Lookup, Disk.Follow, Removable, Stuck, OwnSteps, Claimed, Removing, NewEmpty, FileSystem.Played;
    ghost var g, d := fs.history, fs.disk;
    ghost var own, into := Claimed(h0, g), {h0.disk.base} + Claimed(h0, g);
    var path := Join(Base, name);
    ghost var exact := fs.Reliable(fs.clock) && Removable(d0, d, s, names, name, r, tree);
    ghost var stuck := fs.Reliable(fs.clock) && Stuck(d0, d, s, names, name, tree) && r == s;
    if exact { RemovablePath(d0, d, s, names, name, r, tree); }
    if stuck { StuckPath(d0, d, s, names, name, tree); }
    NothingRemoved(g);
    NoStep(g, own, into);
    var now := fs.Stat(path);
    if now == Some(r) {
      RemoveOwnedTree(fs, path, tree, g, own, into, r, name);
      ghost var h := fs.history;
      if exact { Emptied(d0, d, fs.disk, s, names, name, r, tree); }
      if stuck { StuckStays(d0, d, fs.disk, s, names, name, tree); }
      var failed := fs.Rmdir(path);
      if failed.None? {
        RmdirConfined(g, h, fs.disk, own, into, name, r);
        OneRemoval(g, h, fs.history);
      }
    }
    OwnThrough(h0, g, fs.history, gaps, own, into);
    RemovingNames(g, fs.history);
  }

  lemma {:induction false} NoStep(h: History, own: set<Ino>, into: set<Ino>)
    ensures CodeConfined(h, h, own, into)
  {}

  lemma {:induction false} OneRemoval(g: History, h: History, h2: History)
    requires Removing(g, h) && h2.Then? && h2.prev == h && (h2.step.Unlink? || h2.step.Rmdir?)
    ensures Removing(g, h2)
  {}

  lemma RemovablePath(d0: Disk, d: Disk, s: Ino, names: map<Name, Ino>, name: Name, r: Ino, tree: seq<Owned>)
    requires Removable(d0, d, s, names, name, r, tree)
    ensures d.Follow(Join(Base, name)) == Some(r) && TreeOk(d, Join(Base, name), r, name, tree)
  {
    LayoutTop(d0, d, s, names, name);
  }

  lemma StuckPath(d0: Disk, d: Disk, s: Ino, names: map<Name, Ino>, name: Name, tree: seq<Owned>)
    requires Stuck(d0, d, s, names, name, tree)
    ensures d.Follow(Join(Base, name)) == Some(s) && TreeOk(d, Join(Base, name), s, name, tree)
    ensures d.Entry(d.base, name) == Some(s)
  {
    LayoutTop(d0, d, s, names, name);
  }

  /** The pass has emptied the directory, and it goes. */
  lemma Emptied(d0: Disk, d: Disk, e: Disk, s: Ino, names: map<Name, Ino>, name: Name, r: Ino, tree: seq<Owned>)
    requires Removable(d0, d, s, names, name, r, tree) && Rooted(e, r, name) && Exact(d, e, r, tree)
      && Elsewhere(d, e, r)
    requires d.next == e.next
    ensures e.IsDir(e.base) && e.Rmdir(Join(Base, name)) == Success(e.Unbind(e.base, name))
    ensures Layout(d0, e.Unbind(e.base, name), s, names - {name}) && (r == s ==> NewEmpty(d0, e.Unbind(e.base, name)))
  {
    hide Exact, Elsewhere, TreeOk, Rooted, Layout, Walk, Disk.Rmdir;
    PassedOver(d0, d, e, s, names, name, r, tree);
    assert name in names && names[name] == r;
    DropDir(d0, e, s, names, name, r);
  }

  lemma DropDir(d0: Disk, d: Disk, s: Ino, names: map<Name, Ino>, name: Name, r: Ino)
    requires Layout(d0, d, s, names) && name in names && names[name] == r && d.Empty(r)
    ensures d.IsDir(d.base) && d.Rmdir(Join(Base, name)) == Success(d.Unbind(d.base, name))
    ensures Layout(d0, d.Unbind(d.base, name), s, names - {name})
  {
    LayoutTop(d0, d, s, names, name);
    DropTop(d0, d, s, names, name);
    BaseOld(d);
  }

  /** Remove the manifest name while `stat` finds the owned file there. */
  method RollBackManifest(fs: FileSystem, m: Ino, ghost h0: History, ghost gaps: bool, ghost d0: Disk, ghost s: Ino,
                          ghost names: map<Name, Ino>)
    requires fs.Valid() && OwnSteps(h0, fs.history, gaps) && m in Claimed(h0, fs.history)
    requires MadeAt(h0, fs.history, MANIFEST_PATH) == Some(m) && fs.disk.base == h0.disk.base
    requires gaps || fs.disk.Entry(fs.disk.base, MANIFEST) in {None, Some(m)}
    modifies fs
    ensures fs.Valid() && fs.clock >= old(fs.clock)
    // What is removed is the run's own, or a link to it: the gap that `OwnSteps` names.
    ensures OwnSteps(h0, fs.history, gaps) && Removing(old(fs.history), fs.history)
    ensures fs.Reliable(old(fs.clock)) && Layout(d0, old(fs.disk), s, names) && MANIFEST in names
            && names[MANIFEST] == m && !old(fs.disk).IsDir(m) ==>
        Layout(d0, fs.disk, s, names - {MANIFEST}) && (NewEmpty(d0, old(fs.disk)) ==> NewEmpty(d0, fs.disk))
  {
    hide Layout, Disk.Valid, Sound, CodeConfined, Walk, OwnSteps, Claimed, Removing, FileSystem.Played, Gap, Confined,
         MadeAt;
    ghost var d, h := fs.disk, fs.history;
    NothingRemoved(h);
    if Layout(d0, d, s, names) && MANIFEST in names { LayoutTop(d0, d, s, names, MANIFEST); DropTop(d0, d, s, names, MANIFEST); }
    BaseOld(d);
    var now := fs.Stat(MANIFEST_PATH);
    if now == Some(m) {
      var failed := fs.Unlink(MANIFEST_PATH);
      if failed.None? {
        ManifestGone(d, fs.disk);
        OneRemoval(h, h, fs.history);
        if d.Lookup(MANIFEST_PATH) == Some(m) {
          ManifestConfined(d, fs.disk, m, h0.disk.base);
          OwnStep(h0, h, gaps, fs.history.step, fs.disk, {m}, {h0.disk.base, m});
        } else {
          ManifestLinked(h0, h, m);
          GapStep(h0, h, fs.history.step, fs.disk);
        }
      }
    }
  }

  lemma ManifestConfined(d: Disk, e: Disk, m: Ino, base: Ino)
    requires d.Valid() && d.Unlink(MANIFEST_PATH) == Success(e) && d.Lookup(MANIFEST_PATH) == Some(m) && base == d.base
    ensures Confined(d, e, {m}, {base, m})
  {
    ManifestGone(d, e);
    assert {d.base} + {m} == {base, m};
  }

  lemma {:induction false} ManifestLinked(h0: History, h: History, m: Ino)
    requires MadeAt(h0, h, MANIFEST_PATH) == Some(m)
    requires h.disk.Follow(MANIFEST_PATH) == Some(m) && h.disk.Lookup(MANIFEST_PATH) != Some(m)
    ensures Gap(h0, h, Step.Unlink(MANIFEST_PATH))
  {}

  lemma ManifestGone(d: Disk, e: Disk)
    requires d.Valid() && d.Unlink(MANIFEST_PATH) == Success(e)
    ensures e != d && e == d.Unbind(d.base, MANIFEST) && e.base == d.base
    ensures d.Lookup(MANIFEST_PATH).Some?
    ensures forall own: set<Ino> :: d.Lookup(MANIFEST_PATH).value in own ==> Confined(d, e, own, {d.base} + own)
  {
    BaseOld(d);
    assert d.Entry(d.base, MANIFEST).Some? && e.Entry(d.base, MANIFEST).None?;
  }

  /** Undisturbed, exactly what is held is there: the tree under the staging name
      with at most an empty reservation beside it, or under the evidence name
      with at most the manifest. */
  ghost predicate AllHeld(d0: Disk, d: Disk, s: Ino, held: Holdings, items: seq<Item>) {
    && InOrder(d0, d, s, held.Names(), held.tree, items)
    && (held.staging.Some? ==>
          && held.staging.value.1 == s && held.staging.value.0 !in {EVIDENCE, MANIFEST} && held.manifest.None?
          && (held.evidence.Some? ==>
                held.evidence.value != s && d.IsDir(held.evidence.value) && forall k :: d.Entry(held.evidence.value, k).None?))
    && (held.staging.None? ==> held.evidence == Some(s))
    && (held.manifest.Some? ==> !d.IsDir(held.manifest.value))
  }

  lemma HeldTree(d0: Disk, d: Disk, s: Ino, names: map<Name, Ino>, top: Name, tree: seq<Owned>, items: seq<Item>)
    requires InOrder(d0, d, s, names, tree, items) && top in names && names[top] == s
    ensures Removable(d0, d, s, names, top, s, tree)
    ensures DistinctPlaces(tree) && forall o | o in tree && o.rel == [] :: o.ino == s
  {
    TreeRoot(d, s, items);
    RecordedTree(d0, d, s, names, top, tree);
    AtTop(d, s);
  }

  lemma EmptyRemovable(d0: Disk, d: Disk, s: Ino, names: map<Name, Ino>, name: Name, e: Ino, tree: seq<Owned>)
    requires Layout(d0, d, s, names) && name in names && names[name] == e && e != s && d.IsDir(e)
    requires (forall k :: d.Entry(e, k).None?) && DistinctPlaces(tree) && forall o | o in tree && o.rel == [] :: o.ino == s
    ensures Removable(d0, d, s, names, name, e, tree)
  {
    LayoutRooted(d0, d, s, names, name);
    forall o | o in tree ensures Recorded(d, e, o) { LoneStraight(d, e, o.rel); }
  }

  /** Only the staging directory has been made, and what is recorded of it is true. */
  ghost predicate OnlyStaged(d0: Disk, d: Disk, s: Ino, held: Holdings) {
    && held.staging.Some? && held.staging.value.1 == s && held.evidence.None? && held.manifest.None?
    && Layout(d0, d, s, map[held.staging.value.0 := s]) && Records(d, s, held.tree) && d.IsDir(s)
  }

  lemma OnlyStagedCases(d0: Disk, d: Disk, s: Ino, held: Holdings)
    requires OnlyStaged(d0, d, s, held)
    ensures var names, top := map[held.staging.value.0 := s], held.staging.value.0;
      if Covered(d, s, held.tree) then Removable(d0, d, s, names, top, s, held.tree) else Stuck(d0, d, s, names, top, held.tree)
  {
    RecordedTree(d0, d, s, map[held.staging.value.0 := s], held.staging.value.0, held.tree);
  }

  /** No entry is different. */
  ghost predicate SameEntries(d: Disk, e: Disk) {
    forall x, n :: e.Entry(x, n) == d.Entry(x, n)
  }

  lemma BareLayout(d0: Disk, d: Disk, s: Ino)
    requires Layout(d0, d, s, map[]) && NewEmpty(d0, d)
    ensures SameEntries(d0, d)
  {}


  /** The failure handler: each thing only while it still is the run's own.  When
      no call fails for a reason of its own and everything held is where it was
      made, everything goes; an incompletely recorded staging directory stays. */
  method RollBack(fs: FileSystem, held: Holdings, ghost h0: History, ghost gaps: bool, ghost s: Ino,
                  ghost items: seq<Item>)
    requires fs.Valid() && OwnSteps(h0, fs.history, gaps) && held.Inos() <= Claimed(h0, fs.history)
    requires fs.disk.base == h0.disk.base
    requires held.manifest.Some? ==>
      && MadeAt(h0, fs.history, MANIFEST_PATH) == held.manifest
      && (gaps || fs.disk.Entry(fs.disk.base, MANIFEST) in {None, held.manifest})
    modifies fs
    ensures fs.Valid() && OwnSteps(h0, fs.history, gaps) && Removing(old(fs.history), fs.history)
    ensures held == NOTHING_HELD ==> fs.history == old(fs.history)
    ensures fs.Reliable(old(fs.clock)) && AllHeld(h0.disk, old(fs.disk), s, held, items) ==>
      SameEntries(h0.disk, fs.disk)
    ensures fs.Reliable(old(fs.clock)) && OnlyStaged(h0.disk, old(fs.disk), s, held) ==>
              if Covered(old(fs.disk), s, held.tree) then SameEntries(h0.disk, fs.disk)
              else fs.disk.Entry(fs.disk.base, held.staging.value.0) == Some(s)
  {
    hide Layout, Disk.Valid, Sound, CodeConfined, Walk, InOrder, Removable, Stuck, OwnSteps, Claimed, Removing,
         NewEmpty, Covered, Records, FileSystem.Played, MadeAt, SameEntries, OnlyStaged, AllHeld;
    ghost var start, d := fs.history, fs.disk;
    ghost var exact := fs.Reliable(fs.clock) && AllHeld(h0.disk, d, s, held, items);
    ghost var only := fs.Reliable(fs.clock) && OnlyStaged(h0.disk, d, s, held);
    ghost var names := held.Names();
    NothingRemoved(start);
    InosOf(held);
    OwnExtends(h0, start, gaps);
    if only { OnlyStagedCases(h0.disk, d, s, held); OnlyStagedNames(h0.disk, d, s, held); }
    if exact { HeldRemovable(h0.disk, d, s, held, items); }
    if held.staging.Some? {
      RollBackTree(fs, held.staging.value.0, held.staging.value.1, held.tree, h0, gaps, h0.disk, s, names);
      RemovingNames(start, fs.history);
      if exact && held.evidence.Some? { ReservedRemovable(h0.disk, d, fs.disk, s, held, items); }
      names := names - {held.staging.value.0};
      ClaimedRemoving(h0, start, fs.history);
    }
    if held.evidence.Some? {
      ghost var h := fs.history;
      RollBackTree(fs, EVIDENCE, held.evidence.value, held.tree, h0, gaps, h0.disk, s, names);
      RemovingNames(h, fs.history);
      NewEmptyStays(h0.disk, h.disk, fs.disk);
      RemovingTransitive(start, h, fs.history);
      ClaimedRemoving(h0, start, fs.history);
      names := names - {EVIDENCE};
    }
    if held.manifest.Some? {
      ghost var h := fs.history;
      RemovingNames(start, h);
      MadeRemoving(h0, start, h, MANIFEST_PATH);
      if exact { ManifestHeld(h0.disk, d, fs.disk, s, held, items); }
      RollBackManifest(fs, held.manifest.value, h0, gaps, h0.disk, s, names);
      RemovingTransitive(start, h, fs.history);
      names := names - {MANIFEST};
    }
    if exact || (only && Covered(d, s, held.tree)) {
      AllNamesGone(held);
      BareLayout(h0.disk, fs.disk, s);
    }
  }

  lemma NewEmptyStays(d0: Disk, d: Disk, e: Disk)
    requires forall x, n :: e.Entry(x, n) in {None, d.Entry(x, n)}
    ensures NewEmpty(d0, d) ==> NewEmpty(d0, e)
  {
    if NewEmpty(d0, d) {
      forall x: Ino, n: Name | x >= d0.next ensures e.Entry(x, n).None? { assert d.Entry(x, n).None?; }
    }
  }

  lemma InosOf(held: Holdings)
    ensures forall o | o in held.tree :: o.ino in held.Inos()
    ensures held.staging.Some? ==> held.staging.value.1 in held.Inos()
    ensures held.evidence.Some? ==> held.evidence.value in held.Inos()
    ensures held.manifest.Some? ==> held.manifest.value in held.Inos()
  {}

  lemma OnlyStagedNames(d0: Disk, d: Disk, s: Ino, held: Holdings)
    requires OnlyStaged(d0, d, s, held)
    ensures held.Names() == map[held.staging.value.0 := s]
    ensures held.staging.Some? && held.staging.value.1 == s && held.evidence.None? && held.manifest.None?
  {}

  lemma AllNamesGone(held: Holdings)
    ensures var a := if held.staging.Some? then held.Names() - {held.staging.value.0} else held.Names();
      var b := if held.evidence.Some? then a - {EVIDENCE} else a;
      (if held.manifest.Some? then b - {MANIFEST} else b) == map[]
  {}

  /** The first tree the handler comes to. */
  lemma HeldRemovable(d0: Disk, d: Disk, s: Ino, held: Holdings, items: seq<Item>)
    requires AllHeld(d0, d, s, held, items)
    ensures held.staging.Some? ==>
      && held.staging.value.1 == s
      && Removable(d0, d, s, held.Names(), held.staging.value.0, s, held.tree)
    ensures held.staging.None? ==> held.evidence == Some(s) && Removable(d0, d, s, held.Names(), EVIDENCE, s, held.tree)
    ensures held.staging.Some? ==> held.manifest.None? && held.staging.value.0 != EVIDENCE
  {
    hide Removable, InOrder;
    assert EVIDENCE != MANIFEST by { assert |EVIDENCE| != |MANIFEST|; }
    HeldTree(d0, d, s, held.Names(), if held.staging.Some? then held.staging.value.0 else EVIDENCE, held.tree, items);
  }

  /** The reserved directory beside it. */
  lemma ReservedRemovable(d0: Disk, d: Disk, e: Disk, s: Ino, held: Holdings, items: seq<Item>)
    requires AllHeld(d0, d, s, held, items) && held.staging.Some? && held.evidence.Some?
    requires Layout(d0, e, s, held.Names() - {held.staging.value.0})
    requires forall x, n :: e.Entry(x, n) in {None, d.Entry(x, n)}
    requires forall i :: e.KindOf(i) == d.KindOf(i)
    ensures held.evidence.value != s
    ensures Removable(d0, e, s, held.Names() - {held.staging.value.0}, EVIDENCE, held.evidence.value, held.tree)
  {
    hide Layout, Removable;
    HeldPlaces(d0, d, s, held, items);
    assert e.KindOf(held.evidence.value) == d.KindOf(held.evidence.value);
    forall k ensures e.Entry(held.evidence.value, k).None? { assert d.Entry(held.evidence.value, k).None?; }
    EmptyRemovable(d0, e, s, held.Names() - {held.staging.value.0}, EVIDENCE, held.evidence.value, held.tree);
  }

  lemma HeldPlaces(d0: Disk, d: Disk, s: Ino, held: Holdings, items: seq<Item>)
    requires AllHeld(d0, d, s, held, items)
    ensures DistinctPlaces(held.tree) && forall o | o in held.tree && o.rel == [] :: o.ino == s
  {
    AtTop(d, s);
  }

  lemma ManifestHeld(d0: Disk, d: Disk, e: Disk, s: Ino, held: Holdings, items: seq<Item>)
    requires AllHeld(d0, d, s, held, items) && held.manifest.Some?
    requires forall i :: e.KindOf(i) == d.KindOf(i)
    ensures !e.IsDir(held.manifest.value) && held.staging.None? && held.evidence == Some(s)
    ensures (held.Names() - {EVIDENCE}) == map[MANIFEST := held.manifest.value]
  {
    assert e.KindOf(held.manifest.value) == d.KindOf(held.manifest.value);
    assert EVIDENCE != MANIFEST by { assert |EVIDENCE| != |MANIFEST|; }
  }

  // -------------------------------------------------------------------------
  // The whole preparation
  // -------------------------------------------------------------------------

  lemma GrowingInOrder(h0: History, h: History, top: Name, s: Ino, items: seq<Item>, tree: seq<Owned>)
    requires Growing(h0, h, top, s, items, tree) && Covered(h.disk, s, tree)
    ensures InOrder(h0.disk, h.disk, s, map[top := s], tree, items) && Account(h0, h, top, s)
  {}

  lemma {:induction false} GrowingStaged(h0: History, h: History, top: Name, s: Ino, done: seq<Item>, tree: seq<Owned>)
    requires Growing(h0, h, top, s, done, tree)
    ensures OnlyStaged(h0.disk, h.disk, s, Holdings(Some((top, s)), tree, None, None))
    ensures OwnSteps(h0, h, false) && Extends(h0, h) && Working(h0, h) && !HookRan(h0, h) && h.disk.base == h0.disk.base
  {
    GrowingInos(h0, h, top, s, done, tree);
  }

  /** Reserve, then move the staged tree in. */
  method CommitTree(fs: FileSystem, top: Name, s: Ino, held: Holdings, ghost items: seq<Item>, ghost h0: History,
                    ghost gaps: bool)
    returns (error: Option<PrepareError>, held': Holdings, ghost e: Option<Ino>)
    requires fs.Valid() && Keeping(h0, fs.history, gaps, top, s, None, None) && gaps == !fs.Passive()
    requires held == Holdings(Some((top, s)), held.tree, None, None) && held.Inos() <= Claimed(h0, fs.history)
    requires InOrder(h0.disk, fs.disk, s, map[top := s], held.tree, items) && fs.disk.IsDir(s) && Later(h0.disk, fs.disk)
    modifies fs
    ensures fs.Valid() && fs.clock >= old(fs.clock) && Later(h0.disk, fs.disk)
    ensures Keeping(h0, fs.history, gaps, top, s, e, None) && HookRan(h0, fs.history)
    ensures held'.Inos() <= Claimed(h0, fs.history) && held'.manifest.None?
    ensures error.None? ==> held'.staging.None? && held'.evidence.Some? && e.Some?
    ensures fs.Passive() ==> AllHeld(h0.disk, fs.disk, s, held', items)
    ensures fs.Calm() && OutputsAbsent(h0.disk) ==> error.None?
  {
    hide InOrder, Keeping, Disk.Valid, Sound, Walk, FileSystem.Played, Claimed, HookRan, Later, OutputsAbsent, Reserved;
    held' := held;
    KeepingTop(h0, fs.history, gaps, top, s, None, None);
    assert held.Names() == Reserved(top, s, None) by { HeldNames(held, top, s, None); }
    var reserved;
    error, reserved := Reserve(fs, h0, gaps, top, s, held.tree, items);
    e := reserved;
    HeldNames(held, top, s, e);
    held' := held.(evidence := reserved);
    if error.Some? { return; }
    var moved;
    error, moved := Move(fs, top, s, e.value, h0, gaps, held.tree, items);
    if error.Some? { return; }
    held' := held.(staging := None, evidence := moved);
    assert moved == Some(s) ==> held'.Names() == map[EVIDENCE := s];
  }

  lemma HeldNames(held: Holdings, top: Name, s: Ino, e: Option<Ino>)
    requires held.staging == Some((top, s)) && held.manifest.None? && top != EVIDENCE
    ensures held.(evidence := e).Names() == Reserved(top, s, e) && Reserved(top, s, None) == map[top := s]
  {}

  /** What a successful preparation leaves in the run directory: the staged tree
      at the evidence name, the manifest at its name, and nothing else new. */
  ghost predicate Committed(d0: Disk, d: Disk, items: seq<Item>, bytes: Bytes) {
    && d.Lookup(EVIDENCE_PATH).Some? && d.Lookup(MANIFEST_PATH).Some?
    && (var s, m := d.Lookup(EVIDENCE_PATH).value, d.Lookup(MANIFEST_PATH).value;
        && Layout(d0, d, s, map[EVIDENCE := s, MANIFEST := m])
        && TreeIs(d, s, items) && d.Content(m) == Some(bytes))
  }

  lemma NowCommitted(d0: Disk, d: Disk, s: Ino, m: Ino, tree: seq<Owned>, items: seq<Item>, bytes: Bytes)
    requires InOrder(d0, d, s, WithManifest(s, Some(m)), tree, items) && d.Content(m) == Some(bytes)
    ensures Committed(d0, d, items, bytes)
  {
    CommittedReads(d0, d, s, m, tree, items);
  }

  /** The second commit: the manifest. */
  method CommitManifest(fs: FileSystem, held: Holdings, bytes: Bytes, items: seq<Item>, ghost h0: History,
                        ghost gaps: bool, ghost top: Name, ghost s: Ino, ghost e: Ino)
    returns (error: Option<PrepareError>, held': Holdings)
    requires fs.Valid() && Keeping(h0, fs.history, gaps, top, s, Some(e), None) && HookRan(h0, fs.history)
    requires held.Inos() <= Claimed(h0, fs.history) && held.staging.None? && held.manifest.None?
      && Later(h0.disk, fs.disk)
    modifies fs
    ensures fs.Valid() && fs.clock >= old(fs.clock) && Later(h0.disk, fs.disk)
    ensures Keeping(h0, fs.history, gaps, top, s, Some(e), held'.manifest) && HookRan(h0, fs.history)
    ensures held'.Inos() <= Claimed(h0, fs.history)
    ensures error.None? ==>
      && fs.disk.Follow(MANIFEST_PATH).Some? && fs.disk.Content(fs.disk.Follow(MANIFEST_PATH).value) == Some(bytes)
      && FilesAre(fs.disk, EVIDENCE_PATH, items, true)
    ensures fs.Passive() && AllHeld(h0.disk, old(fs.disk), s, held, items) ==>
      && AllHeld(h0.disk, fs.disk, s, held', items)
      && (error.None? ==> Committed(h0.disk, fs.disk, items, bytes))
    ensures fs.Calm() && AllHeld(h0.disk, old(fs.disk), s, held, items) && OutputsAbsent(h0.disk) ==> error.None?
  {
    hide InOrder, Keeping, Disk.Valid, Sound, Walk, FilesAre, FileSystem.Played, Claimed, HookRan, Later, OutputsAbsent,
         Committed, Disk.Follow, Disk.Lookup;
    held' := held;
    if held.evidence == Some(s) { assert held.Names() == WithManifest(s, None); }
    var m;
    error, m := OpenManifest(fs, h0, gaps, top, s, e, held.tree, items);
    held' := held.(manifest := m);
    if held.evidence == Some(s) { assert held'.Names() == WithManifest(s, m); }
    if error.Some? { return; }
    error := FillManifest(fs, m.value, bytes, items, h0, gaps, top, s, e, held.tree);
    if error.None? && InOrder(h0.disk, fs.disk, s, WithManifest(s, m), held.tree, items)
      && fs.disk.Content(m.value) == Some(bytes) {
      NowCommitted(h0.disk, fs.disk, s, m.value, held.tree, items, bytes);
    }
  }

  /** Both commits. */
  method CommitEvidence(fs: FileSystem, top: Name, s: Ino, held: Holdings, bytes: Bytes, items: seq<Item>,
                        ghost h0: History, ghost gaps: bool)
    returns (error: Option<PrepareError>, held': Holdings)
    requires fs.Valid() && Keeping(h0, fs.history, gaps, top, s, None, None) && gaps == !fs.Passive()
    requires held == Holdings(Some((top, s)), held.tree, None, None) && held.Inos() <= Claimed(h0, fs.history)
    requires InOrder(h0.disk, fs.disk, s, map[top := s], held.tree, items) && fs.disk.IsDir(s) && Later(h0.disk, fs.disk)
    modifies fs
    ensures fs.Valid() && fs.clock >= old(fs.clock) && Later(h0.disk, fs.disk)
    ensures exists e :: Keeping(h0, fs.history, gaps, top, s, e, held'.manifest)
    ensures HookRan(h0, fs.history) && held'.Inos() <= Claimed(h0, fs.history)
    ensures fs.Passive() ==> AllHeld(h0.disk, fs.disk, s, held', items)
    ensures error.None? ==>
      && fs.disk.Follow(MANIFEST_PATH).Some? && fs.disk.Content(fs.disk.Follow(MANIFEST_PATH).value) == Some(bytes)
      && FilesAre(fs.disk, EVIDENCE_PATH, items, true)
    ensures error.None? && fs.Passive() ==> Committed(h0.disk, fs.disk, items, bytes)
    ensures fs.Calm() && OutputsAbsent(h0.disk) ==> error.None?
  {
    hide InOrder, Keeping, Disk.Valid, Sound, Walk, FilesAre, AllHeld, Committed, FileSystem.Played, Claimed, HookRan,
         Later, OutputsAbsent, Disk.Follow;
    ghost var e;
    error, held', e := CommitTree(fs, top, s, held, items, h0, gaps);
    if error.None? {
      error, held' := CommitManifest(fs, held', bytes, items, h0, gaps, top, s, e.value);
    }
  }

  /** Of the entries that were there none is different; of the names that were
      free at most one is taken, by a staging directory this run has made. */
  ghost predicate AtMostStaging(h0: History, h: History) {
    forall x: Ino, n: Name | x < h0.disk.next && h.disk.Entry(x, n) != h0.disk.Entry(x, n) ::
      && x == h0.disk.base && h0.disk.Entry(x, n).None? && n !in {EVIDENCE, MANIFEST}
      && h.disk.Entry(x, n) == MadeAt(h0, h, Join(Base, n))
  }

  /** The handler after a failure in staging. */
  lemma {:induction false} StagingLeft(h0: History, h: History, at: nat, h2: History, top: Name, s: Ino,
                                       done: seq<Item>, tree: seq<Owned>)
    requires Growing(h0, h, top, s, done, tree) && Removing(Then(h, Caught(at), h.disk), h2) && Sound(h2)
    requires OwnSteps(h0, h2, false)
    ensures AtMostStaging(h0, h2)
    ensures h2.disk.Entry(h2.disk.base, top) == Some(s) ==> !SameEntries(h0.disk, h2.disk)
  {
    hide Walk, TreeIs, Records, Mine, Disk.Valid, Sound, OwnSteps, Claimed, Removing;
    var hc := Then(h, Caught(at), h.disk);
    GrowingStaged(h0, h, top, s, done, tree);
    RemovingNames(hc, h2);
    RemovedOwn(h0, h, at, h2);
    HandlerMakesNothing(h0, h, at, h2, {});
    forall x: Ino, n: Name | x < h0.disk.next && h2.disk.Entry(x, n) != h0.disk.Entry(x, n)
      ensures x == h0.disk.base && h0.disk.Entry(x, n).None? && n == top && h2.disk.Entry(x, n) == Some(s)
    {
      if h2.disk.Entry(x, n).None? {
        assert h.disk.Entry(x, n).value in Claimed(h0, h);
        LayoutOld(h0.disk, h.disk, s, top, x, n);
      } else {
        assert h2.disk.Entry(x, n) == h.disk.Entry(x, n);
      }
    }
    BaseOld(h0.disk);
  }

  /** What was there before the run has an inode from before the run. */
  lemma LayoutOld(d0: Disk, d: Disk, s: Ino, top: Name, x: Ino, n: Name)
    requires Layout(d0, d, s, map[top := s]) && x < d0.next && d0.Entry(x, n).Some?
    ensures d.Entry(x, n) == d0.Entry(x, n) && d0.Entry(x, n).value < d0.next
  {
    assert d0.Entry(x, n).value in d0.nodes;
  }

  /** The handler takes away only names of what the run has claimed. */
  lemma {:induction false} RemovedOwn(h0: History, h: History, at: nat, h2: History)
    requires OwnSteps(h0, h2, false) && Extends(h0, h) && Removing(Then(h, Caught(at), h.disk), h2) && Sound(h2)
    ensures forall x, n | h.disk.Entry(x, n).Some? && h2.disk.Entry(x, n) != h.disk.Entry(x, n) ::
              h2.disk.Entry(x, n).None? && h.disk.Entry(x, n).value in Claimed(h0, h)
  {
    var hc := Then(h, Caught(at), h.disk);
    if h2 != hc {
      ExtendsLength(h0, h);
      RemovingLength(hc, h2.prev);
      RemovedOwn(h0, h, at, h2.prev);
      assert Extends(h0, hc) && Claimed(h0, hc) == Claimed(h0, h);
      ClaimedRemoving(h0, hc, h2.prev);
      RemovalStep(h2.prev.disk, h2.step, h2.disk);
    }
  }

  /** The failure, with its handler.  `h` is where the work stopped. */
  method Fail(fs: FileSystem, held: Holdings, ghost h0: History, ghost gaps: bool, ghost s: Ino, ghost items: seq<Item>)
    requires fs.Valid() && OwnSteps(h0, fs.history, gaps) && held.Inos() <= Claimed(h0, fs.history)
    requires fs.disk.base == h0.disk.base && Working(h0, fs.history)
    requires held.manifest.Some? ==>
      && MadeAt(h0, fs.history, MANIFEST_PATH) == held.manifest
      && (gaps || fs.disk.Entry(fs.disk.base, MANIFEST) in {None, held.manifest})
    modifies fs
    ensures fs.Valid() && OwnSteps(h0, fs.history, gaps) && Failed(h0, fs.history)
    ensures HandledAt(h0, fs.history) == Some(old(fs.clock)) && Claimed(h0, fs.history) == Claimed(h0, old(fs.history))
    ensures HookRan(h0, fs.history) <==> HookRan(h0, old(fs.history))
    ensures Removing(Then(old(fs.history), Caught(old(fs.clock)), old(fs.disk)), fs.history)
    ensures held == NOTHING_HELD ==> fs.disk == old(fs.disk)
    ensures fs.Reliable(old(fs.clock)) && AllHeld(h0.disk, old(fs.disk), s, held, items) ==>
      SameEntries(h0.disk, fs.disk)
    ensures fs.Reliable(old(fs.clock)) && OnlyStaged(h0.disk, old(fs.disk), s, held) ==>
              if Covered(old(fs.disk), s, held.tree) then SameEntries(h0.disk, fs.disk)
              else fs.disk.Entry(fs.disk.base, held.staging.value.0) == Some(s)
  {
    hide Disk.Valid, Sound, OwnSteps, Claimed, Removing, Working, Failed, HandledAt, HookRan, MadeAt, SameEntries,
         OnlyStaged, AllHeld, Covered, FileSystem.Played, Extends;
    ghost var h, at := fs.history, fs.clock;
    OwnExtends(h0, h, gaps);
    CaughtMade(h0, h, at, MANIFEST_PATH);
    OwnPause(h0, h, gaps, Caught(at), h.disk);
    fs.Catch();
    ghost var hc := fs.history;
    RollBack(fs, held, h0, gaps, s, items);
    FailedSince(h0, h, at, fs.history);
    HandlerHooks(h0, h, at, fs.history);
    OwnExtends(h0, hc, gaps);
    ClaimedRemoving(h0, hc, fs.history);
  }

  lemma {:induction false} CaughtMade(h0: History, h: History, at: nat, p: Path)
    requires Extends(h0, h)
    ensures MadeAt(h0, Then(h, Caught(at), h.disk), p) == MadeAt(h0, h, p)
  {
    OtherStep(h0, h, Caught(at), h.disk, {});
  }

  /** Under a passive environment the manifest's name holds the manifest. */
  lemma ManifestUnaliased(d0: Disk, d: Disk, s: Ino, held: Holdings, items: seq<Item>)
    requires AllHeld(d0, d, s, held, items) && held.manifest.Some?
    ensures d.Entry(d.base, MANIFEST) == held.manifest
  {
    LayoutTop(d0, d, s, held.Names(), MANIFEST);
  }

  lemma {:induction false} KeepingNew(h0: History, h: History, gaps: bool, top: Name, s: Ino, e: Option<Ino>,
                                      m: Option<Ino>)
    requires Keeping(h0, h, gaps, top, s, e, m)
    ensures OwnSteps(h0, h, gaps) && Working(h0, h) && Extends(h0, h) && MadeAt(h0, h, MANIFEST_PATH) == m
    ensures !gaps ==> forall i | i in Claimed(h0, h) :: i >= h0.disk.next
  {}

  lemma {:induction false} Nothing(h0: History, h: History)
    requires h == h0
    ensures OwnSteps(h0, h, false) && Claimed(h0, h) == {} && Working(h0, h) && !HookRan(h0, h)
      && NOTHING_HELD.Inos() == {}
  {
    NothingOwned(h0, false);
  }

  lemma {:induction false} StagedClaims(h0: History, h: History, top: Name, s: Ino, done: seq<Item>, tree: seq<Owned>)
    requires Growing(h0, h, top, s, done, tree)
    ensures forall i | i in Claimed(h0, h) :: i >= h0.disk.next
  {}

  lemma SameAtMost(h0: History, h: History)
    requires h.disk == h0.disk
    ensures AtMostStaging(h0, h) && SameEntries(h0.disk, h.disk)
  {}

  /** A failure in staging: the handler, and what it leaves. */
  method FailStaging(fs: FileSystem, held: Holdings, ghost h0: History, ghost top: Name, ghost s: Ino,
                     ghost done: seq<Item>, ghost tree: seq<Owned>)
    requires fs.Valid() && Unstaged(h0, fs.history, top, s, done, tree, held)
    modifies fs
    ensures fs.Valid() && OwnSteps(h0, fs.history, false)
      && (forall i | i in Claimed(h0, fs.history) :: i >= h0.disk.next)
    ensures Failed(h0, fs.history) && !HookRan(h0, fs.history) && HandledAt(h0, fs.history) == Some(old(fs.clock))
    ensures AtMostStaging(h0, fs.history)
    ensures AllInspected(h0, fs.history) <==> AllInspected(h0, old(fs.history))
    ensures BrokeOff(h0, fs.history) <==> BrokeOff(h0, old(fs.history))
    ensures fs.Reliable(old(fs.clock)) ==>
              (SameEntries(h0.disk, fs.disk) <==>
                 old(fs.history) == h0 || (held != NOTHING_HELD && Covered(old(fs.disk), s, tree)))
  {
    hide Disk.Valid, Sound, OwnSteps, Claimed, Removing, Working, Failed, HandledAt, HookRan, MadeAt, SameEntries,
         OnlyStaged, AllHeld, Covered, FileSystem.Played, Growing, AtMostStaging, Extends, AllInspected, BrokeOff;
    ghost var h, at := fs.history, fs.clock;
    if h == h0 {
      Nothing(h0, h);
    } else {
      GrowingStaged(h0, h, top, s, done, tree);
      GrowingInos(h0, h, top, s, done, tree);
      StagedClaims(h0, h, top, s, done, tree);
    }
    NoneHeld();
    Fail(fs, held, h0, false, s, []);
    HandlerInspectsNothing(h0, h, at, fs.history);
    if h == h0 {
      SameAtMost(h0, fs.history);
    } else {
      StagingLeft(h0, h, at, fs.history, top, s, done, tree);
      if held == NOTHING_HELD { StagingThere(h0, h, top, s, done, tree); }
    }
  }

  lemma NoneHeld()
    ensures NOTHING_HELD.Inos() == {}
  {}

  lemma StagingThere(h0: History, h: History, top: Name, s: Ino, done: seq<Item>, tree: seq<Owned>)
    requires Growing(h0, h, top, s, done, tree)
    ensures h.disk.Entry(h.disk.base, top) == Some(s)
  {
    LayoutTop(h0.disk, h.disk, s, map[top := s], top);
  }

  /** The preparation.

      Whatever the environment does and whatever fails, every step touches only
      what the run holds to be its own, or goes through one of the two gaps that
      `OwnSteps` names; a passive environment opens none.  A failure runs the
      handler, once, and a failure in staging leaves at most the staging
      directory.  When no call fails in the handler for a reason of its own, an
      undisturbed failure leaves every directory as it was; in staging, exactly
      when everything made was also inspected, and so was unless the failing call
      broke off half-way or an earlier one had failed unnoticed. */
  method PrepareEvidence(fs: FileSystem, candidates: nat -> string, tasks: seq<Task>, bytes: Bytes)
    returns (error: Option<PrepareError>)
    requires fs.Valid() && forall task | task in tasks :: task.Place() != []
    modifies fs
    ensures fs.Valid()
    ensures OwnSteps(old(fs.history), fs.history, true)
    ensures fs.Passive() || !HookRan(old(fs.history), fs.history) ==>
      && CodeConfined(old(fs.history), fs.history, Claimed(old(fs.history), fs.history),
                      {old(fs.disk).base} + Claimed(old(fs.history), fs.history))
      && (forall i | i in Claimed(old(fs.history), fs.history) :: i >= old(fs.disk).next)
    // A normal return: the manifest and the fixture files read back as staged.
    ensures error.None? ==>
      && fs.disk.Follow(MANIFEST_PATH).Some? && fs.disk.Content(fs.disk.Follow(MANIFEST_PATH).value) == Some(bytes)
      && FilesAre(fs.disk, EVIDENCE_PATH, Entries(tasks), true)
    ensures error.None? && fs.Passive() ==> Committed(old(fs.disk), fs.disk, Entries(tasks), bytes)
    // A failure: nothing was done, or the handler ran once and only removed.
    ensures error.Some? ==> fs.history == old(fs.history) || Failed(old(fs.history), fs.history)
    // In staging, which no hook interrupts: at most the staging directory is left, and nothing is exactly when
    // everything made was inspected.
    ensures error.Some? && !HookRan(old(fs.history), fs.history) ==>
      && AtMostStaging(old(fs.history), fs.history)
      && (HandledReliably(fs, old(fs.history), fs.history) ==>
            (SameEntries(old(fs.disk), fs.disk) <==> AllInspected(old(fs.history), fs.history)))
      && (HandledAt(old(fs.history), fs.history).Some? ==>
            Interrupted(fs, old(fs.history), fs.history, old(fs.clock),
                        HandledAt(old(fs.history), fs.history).value, error.value))
    // After it, undisturbed: all or nothing.
    ensures error.Some? && HookRan(old(fs.history), fs.history) && fs.Passive()
            && HandledReliably(fs, old(fs.history), fs.history) ==>
              SameEntries(old(fs.disk), fs.disk)
    // When nothing goes wrong it succeeds.
    ensures fs.Calm() && OutputsAbsent(old(fs.disk)) && FreeCandidate(old(fs.disk), candidates) && Arranged(tasks) ==>
              error.None?
  {
    hide Layout, InOrder, OwnSteps, Claimed, Disk.Valid, Sound, Walk, FilesAre, AllHeld, Committed, Disk.Lookup,
         Growing, Covered, HookRan, HandledAt, Failed, AtMostStaging, SameEntries, CodeConfined, FileSystem.Played,
         FileSystem.Smooth, FreeCandidate, Arranged, Keeping, Working, MadeAt, Later, Account, Extends, Disk.Follow,
         Holdings.Inos, AllInspected, BrokeOff, Interrupted, Unstaged, Entries;
    ghost var h0, gaps, from := fs.history, !fs.Passive(), fs.clock;
    Nothing(h0, h0);
    WithGaps(h0, h0, false);
    OwnConfined(h0, h0, {});
    SameAtMost(h0, h0);
    NeverHandled(h0);
    error := AssertOutputAbsent(fs, EVIDENCE_PATH);
    if error.Some? { return; }
    error := AssertOutputAbsent(fs, MANIFEST_PATH);
    if error.Some? { return; }
    ghost var via := fs.clock;
    var top, s, held;
    ghost var done, tree;
    error, top, s, held, done, tree := Stage(fs, candidates, tasks, h0);
    if error.Some? {
      ghost var h, at := fs.history, fs.clock;
      FailStaging(fs, held, h0, top, s, done, tree);
      InterruptedLater(fs, h0, h, fs.history, from, via, at, error.value);
      WithGaps(h0, fs.history, false);
      OwnConfined(h0, fs.history, Claimed(h0, fs.history));
      return;
    }
    error := FinishEvidence(fs, top, s, held, bytes, Entries(tasks), h0);
  }

  /** The calls before staging, and the handler after it. */
  lemma {:induction false} InterruptedLater(fs: FileSystem, h0: History, h: History, h2: History, from: nat, via: nat, now: nat,
                         error: PrepareError)
    requires Interrupted(fs, h0, h, via, now, error) && from <= via
    requires (AllInspected(h0, h2) <==> AllInspected(h0, h)) && (BrokeOff(h0, h2) <==> BrokeOff(h0, h))
    ensures Interrupted(fs, h0, h2, from, now, error)
  {
    hide AllInspected, BrokeOff;
  }

  lemma {:induction false} NeverHandled(h: History)
    ensures HandledAt(h, h).None?
  {}

  /** From verified staging to the end. */
  method FinishEvidence(fs: FileSystem, top: Name, s: Ino, held: Holdings, bytes: Bytes, items: seq<Item>,
                        ghost h0: History)
    returns (error: Option<PrepareError>)
    requires fs.Valid() && Growing(h0, fs.history, top, s, items, held.tree) && Covered(fs.disk, s, held.tree)
    requires held == Holdings(Some((top, s)), held.tree, None, None)
    modifies fs
    ensures fs.Valid() && OwnSteps(h0, fs.history, true) && HookRan(h0, fs.history)
    ensures fs.Passive() ==>
      && CodeConfined(h0, fs.history, Claimed(h0, fs.history), {h0.disk.base} + Claimed(h0, fs.history))
      && (forall i | i in Claimed(h0, fs.history) :: i >= h0.disk.next)
    ensures error.None? ==>
      && fs.disk.Follow(MANIFEST_PATH).Some? && fs.disk.Content(fs.disk.Follow(MANIFEST_PATH).value) == Some(bytes)
      && FilesAre(fs.disk, EVIDENCE_PATH, items, true)
    ensures error.None? && fs.Passive() ==> Committed(h0.disk, fs.disk, items, bytes)
    ensures error.Some? ==> Failed(h0, fs.history)
    ensures error.Some? && fs.Passive() && HandledReliably(fs, h0, fs.history) ==> SameEntries(h0.disk, fs.disk)
    ensures fs.Calm() && OutputsAbsent(h0.disk) ==> error.None?
  {
    hide Layout, InOrder, OwnSteps, Claimed, Disk.Valid, Sound, Walk, FilesAre, AllHeld, Committed, Disk.Lookup,
         Growing, Covered, HookRan, HandledAt, Failed, SameEntries, CodeConfined, FileSystem.Played, Keeping, Working,
         MadeAt, Later, Account, Extends, Disk.Follow, Holdings.Inos, OutputsAbsent;
    ghost var gaps := !fs.Passive();
    GrowingInOrder(h0, fs.history, top, s, items, held.tree);
    GrowingInos(h0, fs.history, top, s, items, held.tree);
    GrowingLater(h0, fs.history, top, s, items, held.tree);
    KeepStaged(h0, fs.history, gaps, top, s);
    var holds;
    error, holds := CommitEvidence(fs, top, s, held, bytes, items, h0, gaps);
    ghost var e :| Keeping(h0, fs.history, gaps, top, s, e, holds.manifest);
    KeepingNew(h0, fs.history, gaps, top, s, e, holds.manifest);
    LaterParts(h0.disk, fs.disk);
    if error.Some? {
      if !gaps && holds.manifest.Some? { ManifestUnaliased(h0.disk, fs.disk, s, holds, items); }
      Fail(fs, holds, h0, gaps, s, items);
    }
    WithGaps(h0, fs.history, gaps);
    if !gaps { OwnConfined(h0, fs.history, Claimed(h0, fs.history)); }
  }

  lemma GrowingLater(h0: History, h: History, top: Name, s: Ino, done: seq<Item>, tree: seq<Owned>)
    requires Growing(h0, h, top, s, done, tree)
    ensures Later(h0.disk, h.disk)
  {}
}
