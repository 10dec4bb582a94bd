/** A run of the preparation that fails in staging and cannot take back what it
    has made (commander-native-tool-benchmark-v2-prepare.ts). */
module LeftoverRuns {
  import opened Outcomes
  import opened FileSystem
  import opened Reliance
  import opened Lifecycle
  import opened StagingTree
  import opened GapRuns
  import opened Prepare

  const SESSIONS: Name := "sessions"

  /** The staging directory holds the empty `sessions`. */
  function HalfMade(top: Name): Disk {
    Disk(map[0 := Dir(map[top := 1]), 1 := Dir(map[SESSIONS := 2]), 2 := EMPTY], 0, 3)
  }

  /** The staging directory is made and recorded.  Then `sessions` and a session's
      directory in it are to be made with one call; it makes the first, and fails
      before the second and before either is recorded.  The handler removes
      nothing: `sessions` is not recorded, and the staging directory not empty. */
  function HalfRun(top: Name): History {
    var path := Join(Base, top);
    var recorded := Then(Then(Start(START), Step.Mkdir(path), Staged(top)), Inspected(path), Staged(top));
    Then(Then(recorded, Step.Mkdir(Join(path, SESSIONS)), HalfMade(top)), Caught(7), HalfMade(top))
  }

  lemma HalfDisks(top: Name)
    requires StagingName(top)
    ensures START.Valid() && START.Mkdir(Join(Base, top)) == Success(Staged(top)) && Admissible(START, Staged(top))
    ensures Staged(top).Valid() && Staged(top).Lookup(Join(Base, top)) == Some(1) && START.Entry(0, top).None?
    ensures Staged(top).Mkdir(Join(Join(Base, top), SESSIONS)) == Success(HalfMade(top))
    ensures Admissible(Staged(top), HalfMade(top))
    ensures HalfMade(top).Valid() && HalfMade(top).Entry(0, top) == Some(1)
    ensures HalfMade(top).Rmdir(Join(Base, top)) == Failure(ENOTEMPTY)
  {
    hide Disk.Valid, Admissible, Disk.Mkdir, Disk.Lookup, Disk.Rmdir, TopOk, HalfMade;
    StagedOk(top);
    TopMkdir(map[], map[], 1, top);
    assert map[][top := 1] == map[top := 1] && map[][1 := EMPTY] == map[1 := EMPTY];
    TopValid(map[top := 1], map[1 := EMPTY], 2);
    TopDirectory(Staged(top), top, 1);
    HalfDisk(top);
  }

  lemma StagedOk(top: Name)
    ensures TopOk(map[], map[], 1) && TopOk(map[top := 1], map[1 := EMPTY], 2)
  {}

  lemma TopDirectory(d: Disk, top: Name, i: Ino)
    requires d.DirAt(Base) == Some(0) && d.Entry(0, top) == Some(i) && d.IsDir(i)
    ensures d.Lookup(Join(Base, top)) == Some(i) && d.DirAt(Join(Base, top)) == Some(i)
  {}

  lemma HalfDisk(top: Name)
    requires Staged(top).Valid() && Staged(top).DirAt(Join(Base, top)) == Some(1)
    ensures Staged(top).Mkdir(Join(Join(Base, top), SESSIONS)) == Success(HalfMade(top))
    ensures Admissible(Staged(top), HalfMade(top))
    ensures HalfMade(top).Valid() && HalfMade(top).Entry(0, top) == Some(1)
    ensures HalfMade(top).Rmdir(Join(Base, top)) == Failure(ENOTEMPTY)
  {
    hide Disk.Valid, Admissible, Disk.Lookup, Disk.Follow, Disk.DirAt;
    var d, e := Staged(top), HalfMade(top);
    assert d.nodes[1] == EMPTY && d.Entry(1, SESSIONS).None?;
    NewEntryValid(d, 1, SESSIONS, EMPTY);
    assert d.Allocate(EMPTY).Bind(1, SESSIONS, 2).nodes == e.nodes;
    assert d.Allocate(EMPTY).Bind(1, SESSIONS, 2) == e;
    HalfFull(top);
    BaseDir(e);
  }

  lemma HalfFull(top: Name)
    ensures HalfMade(top).Entry(0, top) == Some(1) && HalfMade(top).IsDir(1) && !HalfMade(top).Empty(1)
  {
    assert SESSIONS in HalfMade(top).nodes[1].entries;
  }

  lemma Unmoved(d: Disk)
    requires d.Valid()
    ensures Admissible(d, d)
  {}

  /** So the staging directory is left. */
  lemma {:induction false} HalfRunLeaves(top: Name)
    requires StagingName(top)
    ensures var h0, h := Start(START), HalfRun(top);
      && Sound(h) && Failed(h0, h) && !HookRan(h0, h)
      && BrokeOff(h0, h) && !AllInspected(h0, h) && AtMostStaging(h0, h)
      && h.disk.Rmdir(Join(Base, top)).Failure? && !SameEntries(h0.disk, h.disk)
  {
    hide Disk.Valid, Disk.Mkdir, Disk.Lookup, Disk.Rmdir, Admissible, Staged, HalfMade, MadeAt;
    HalfDisks(top);
    NamesApart();
    var h0, path, at := Start(START), Join(Base, top), Join(Join(Base, top), SESSIONS);
    var h1 := Then(h0, Step.Mkdir(path), Staged(top));
    var h2 := Then(h1, Inspected(path), Staged(top));
    var h3 := Then(h2, Step.Mkdir(at), HalfMade(top));
    HalfSteps(h0, h1, h2, h3, path, at);
    Unmoved(Staged(top));
    Unmoved(HalfMade(top));
    assert Sound(h0) && Sound(h1) && Sound(h2) && Sound(h3);
    HandlerInspectsNothing(h0, h3, 7, HalfRun(top));
    HandlerMakesNothing(h0, h3, 7, HalfRun(top), {});
    FailedSince(h0, h3, 7, HalfRun(top));
    HandlerHooks(h0, h3, 7, HalfRun(top));
    forall x: Ino, n: Name | x < 1 && HalfMade(top).Entry(x, n) != START.Entry(x, n) ensures x == 0 && n == top {
      HalfChange(top, x, n);
    }
  }

  lemma HalfChange(top: Name, x: Ino, n: Name)
    requires x < 1 && HalfMade(top).Entry(x, n) != START.Entry(x, n)
    ensures x == 0 && n == top
  {}

  /** What the history shows to have been made and inspected. */
  lemma {:induction false} HalfSteps(h0: History, h1: History, h2: History, h3: History, path: Path, at: Path)
    requires h0.Start? && h1 == Then(h0, Step.Mkdir(path), h1.disk) && h2 == Then(h1, Inspected(path), h2.disk)
    requires h3 == Then(h2, Step.Mkdir(at), h3.disk) && path != at && h0.disk.next == 1
    ensures Extends(h0, h3) && Working(h0, h3) && !HookRan(h0, h3) && BrokeOff(h0, h3) && !AllInspected(h0, h3)
    ensures MadeAt(h0, h3, path) == Some(1)
  {
    assert MadeAt(h0, h0, path).None? && Extends(h0, h0) && Working(h0, h0) && !HookRan(h0, h0);
    CreateStep(h0, h0, h1.step, h1.disk, {});
    OtherStep(h0, h1, h2.step, h2.disk, {});
    CreateStep(h0, h2, h3.step, h3.disk, {});
    assert !Performed(h0, h0, Inspected(at)) && !Performed(h0, h1, Inspected(at)) && !Performed(h0, h2, Inspected(at));
    assert MadeAt(h0, h3, at).Some? && !Performed(h0, h3, Inspected(at));
  }
}
