/** Two runs of the preparation in which the environment uses a gap, step by step,
    so that something foreign is lost
    (commander-native-tool-benchmark-v2-prepare.ts). */
module GapRuns {
  import opened Outcomes
  import opened FileSystem
  import opened Reliance
  import opened StagingTree
  import opened Ownership

  const ASIDE: Name := "aside"

  /** A disk whose run directory, inode 0, has these entries. */
  function Top(entries: map<Name, Ino>, rest: map<Ino, Node>, next: Ino): Disk {
    Disk(rest[0 := Dir(entries)], 0, next)
  }

  const EMPTY: Node := Dir(map[])

  ghost predicate StagingName(top: Name) {
    top !in {EVIDENCE, MANIFEST, ASIDE}
  }

  /** Names lead to existing inodes other than the run directory, each has one
      name, and only the run directory has entries. */
  ghost predicate TopOk(entries: map<Name, Ino>, rest: map<Ino, Node>, next: Ino) {
    && 0 < next && 0 !in rest && (forall i | i in rest :: i < next && (rest[i].Dir? ==> rest[i] == EMPTY))
    && (forall i | i in rest && rest[i].Symlink? :: rest[i].dest in rest)
    && (forall n | n in entries :: entries[n] in rest)
    && (forall n, m | n in entries && m in entries && entries[n] == entries[m] :: n == m)
  }

  lemma TopValid(entries: map<Name, Ino>, rest: map<Ino, Node>, next: Ino)
    requires TopOk(entries, rest, next)
    ensures var d := Top(entries, rest, next);
      && d.Valid() && d.DirAt(Base) == Some(0) && d.IsDir(0)
      && (forall x, n :: d.Entry(x, n) == if x == 0 && n in entries then Some(entries[n]) else None)
  {
    var d := Top(entries, rest, next);
    assert d.nodes[0] == Dir(entries);
    forall x, n ensures d.Entry(x, n) == if x == 0 && n in entries then Some(entries[n]) else None {
      if x != 0 && x in rest && rest[x].Dir? { assert d.nodes[x] == EMPTY; }
    }
    assert d.Follow(Base) == Some(0);
  }

  lemma TopMkdir(entries: map<Name, Ino>, rest: map<Ino, Node>, next: Ino, n: Name)
    requires TopOk(entries, rest, next) && n !in entries
    ensures var d, e := Top(entries, rest, next), Top(entries[n := next], rest[next := EMPTY], next + 1);
      d.Valid() && d.Mkdir(Join(Base, n)) == Success(e) && Admissible(d, e)
      && TopOk(entries[n := next], rest[next := EMPTY], next + 1)
  {
    hide Disk.Valid;
    TopValid(entries, rest, next);
    var d, e := Top(entries, rest, next), Top(entries[n := next], rest[next := EMPTY], next + 1);
    NewEntryValid(d, 0, n, EMPTY);
    assert d.Allocate(EMPTY).Bind(0, n, next).nodes == e.nodes;
  }

  lemma TopCreate(entries: map<Name, Ino>, rest: map<Ino, Node>, next: Ino, n: Name)
    requires TopOk(entries, rest, next) && n !in entries
    ensures var d, e := Top(entries, rest, next), Top(entries[n := next], rest[next := File([])], next + 1);
      d.Valid() && d.Create(Join(Base, n)) == Success(e) && Admissible(d, e)
      && TopOk(entries[n := next], rest[next := File([])], next + 1)
  {
    hide Disk.Valid;
    TopValid(entries, rest, next);
    var d, e := Top(entries, rest, next), Top(entries[n := next], rest[next := File([])], next + 1);
    NewEntryValid(d, 0, n, File([]));
    assert d.Allocate(File([])).Bind(0, n, next).nodes == e.nodes;
  }

  /** One empty directory over another. */
  lemma TopRename(entries: map<Name, Ino>, rest: map<Ino, Node>, next: Ino, from: Name, to: Name)
    requires TopOk(entries, rest, next) && from in entries && to in entries && from != to
    requires rest[entries[from]] == EMPTY && rest[entries[to]] == EMPTY
    ensures var d, e := Top(entries, rest, next), Top((entries - {from})[to := entries[from]], rest, next);
      && d.Valid() && d.Rename(Join(Base, from), Join(Base, to)) == Success(e) && Admissible(d, e)
      && TopOk((entries - {from})[to := entries[from]], rest, next) && e.Follow(Join(Base, to)) == Some(entries[from])
  {
    hide Disk.Valid;
    TopValid(entries, rest, next);
    var d, e := Top(entries, rest, next), Top((entries - {from})[to := entries[from]], rest, next);
    assert entries[from] != 0 && entries[to] != 0;
    assert d.nodes[entries[to]] == EMPTY && d.nodes[entries[from]] == EMPTY && d.Empty(entries[to]);
    assert d.Unbind(0, from).Bind(0, to, entries[from]).nodes == e.nodes;
    RenameValid(d, Join(Base, from), Join(Base, to));
    TopValid((entries - {from})[to := entries[from]], rest, next);
    assert e.Lookup(Join(Base, to)) == Some(entries[from]) && e.nodes[entries[from]] == EMPTY;
  }

  /** An empty directory, a file or a link loses its name. */
  lemma TopRemove(entries: map<Name, Ino>, rest: map<Ino, Node>, next: Ino, n: Name)
    requires TopOk(entries, rest, next) && n in entries
    ensures var d, e := Top(entries, rest, next), Top(entries - {n}, rest, next);
      && d.Valid() && Admissible(d, e) && TopOk(entries - {n}, rest, next)
      && (if rest[entries[n]].Dir? then d.Rmdir(Join(Base, n)) == Success(e) else d.Unlink(Join(Base, n)) == Success(e))
  {
    TopValid(entries, rest, next);
    var d, e := Top(entries, rest, next), Top(entries - {n}, rest, next);
    assert entries[n] != 0 && d.nodes[entries[n]] == rest[entries[n]];
    assert d.Unbind(0, n).nodes == e.nodes;
    UnbindValid(d, 0, n);
  }

  /** Names may come and go as long as inodes keep their kinds. */
  lemma TopAdmissible(entries: map<Name, Ino>, rest: map<Ino, Node>, next: Ino, entries': map<Name, Ino>,
                      rest': map<Ino, Node>, next': Ino)
    requires TopOk(entries, rest, next) && TopOk(entries', rest', next') && next <= next'
    requires forall i | i in rest :: i in rest' && rest'[i] == rest[i]
    requires forall i | i in rest' && i < next :: i in rest
    ensures Admissible(Top(entries, rest, next), Top(entries', rest', next'))
  {
    TopValid(entries', rest', next');
    hide Disk.Valid;
    var d, e := Top(entries, rest, next), Top(entries', rest', next');
    forall i | i in d.nodes ensures i in e.nodes && e.KindOf(i) == d.KindOf(i) {
      if i != 0 { assert d.nodes[i] == rest[i] && e.nodes[i] == rest'[i]; }
    }
  }

  lemma NamesApart()
    ensures EVIDENCE != MANIFEST && EVIDENCE != ASIDE && MANIFEST != ASIDE
  {
    assert |EVIDENCE| != |MANIFEST|;
    assert EVIDENCE[0] == 'c' && MANIFEST[0] == 'c' && ASIDE[0] == 'a';
  }

  // -------------------------------------------------------------------------
  // One step more
  // -------------------------------------------------------------------------

  /** What a run has done so far, in one place. */
  ghost predicate Done(h0: History, h: History, claimed: set<Ino>, staged: Path, e: Option<Ino>, m: Option<Ino>) {
    && Sound(h) && Extends(h0, h) && Claimed(h0, h) == claimed && MadeAt(h0, h, staged) == Some(1)
    && MadeAt(h0, h, EVIDENCE_PATH) == e && MadeAt(h0, h, MANIFEST_PATH) == m
  }

  lemma {:induction false} DoneThen(h0: History, h: History, claimed: set<Ino>, staged: Path, e: Option<Ino>,
                                    m: Option<Ino>, step: Step, after: Disk)
    requires Done(h0, h, claimed, staged, e, m) && Lawful(h.disk, step, after) && Admissible(h.disk, after)
    requires staged !in {EVIDENCE_PATH, MANIFEST_PATH} && EVIDENCE != MANIFEST
    requires step.Mkdir? || step.Create? ==> step.path in {EVIDENCE_PATH, MANIFEST_PATH}
    ensures Done(h0, Then(h, step, after),
                 claimed + (if step.Mkdir? || step.Create? then {h.disk.next} else {})
                 + (if step.Rename? && after.Follow(step.target).Some? then {after.Follow(step.target).value} else {}),
                 staged,
                 if (step.Mkdir? || step.Create?) && step.path == EVIDENCE_PATH then Some(h.disk.next) else e,
                 if (step.Mkdir? || step.Create?) && step.path == MANIFEST_PATH then Some(h.disk.next) else m)
    ensures Working(h0, h) && !step.Caught? && !step.Unlink? && !step.Rmdir? ==> Working(h0, Then(h, step, after))
    ensures Working(h0, h) && step.Caught? ==> Failed(h0, Then(h, step, after))
    ensures Failed(h0, h) && (step.Unlink? || step.Rmdir?) ==> Failed(h0, Then(h, step, after))
  {
    hide Lawful, Admissible;
    ExtendsLength(h0, h);
  }

  // -------------------------------------------------------------------------
  // Up to the reservation
  // -------------------------------------------------------------------------

  const START := Top(map[], map[], 1)

  function Staged(top: Name): Disk {
    Top(map[top := 1], map[1 := EMPTY], 2)
  }

  function ReservedToo(top: Name): Disk {
    Top(map[top := 1, EVIDENCE := 2], map[1 := EMPTY, 2 := EMPTY], 3)
  }

  /** Nothing to stage: the staging directory, the first hook, the reservation. */
  function UpToReservation(top: Name): History {
    var path := Join(Base, top);
    var recorded := Then(Then(Start(START), Step.Mkdir(path), Staged(top)), Inspected(path), Staged(top));
    Then(Then(recorded, Environment, Staged(top)), Step.Mkdir(EVIDENCE_PATH), ReservedToo(top))
  }

  lemma Reservation(top: Name)
    requires StagingName(top)
    ensures var h0, h := Start(START), UpToReservation(top);
      Done(h0, h, {1, 2}, Join(Base, top), Some(2), None) && Working(h0, h)
    ensures ReservedToo(top).Valid() && UpToReservation(top).disk == ReservedToo(top)
  {
    NamesApart();
    TopMkdir(map[], map[], 1, top);
    assert map[][top := 1] == map[top := 1] && map[][1 := EMPTY] == map[1 := EMPTY];
    TopMkdir(map[top := 1], map[1 := EMPTY], 2, EVIDENCE);
    assert map[top := 1][EVIDENCE := 2] == map[top := 1, EVIDENCE := 2];
    assert map[1 := EMPTY][2 := EMPTY] == map[1 := EMPTY, 2 := EMPTY];
    TopValid(map[top := 1], map[1 := EMPTY], 2);
    TopValid(map[top := 1, EVIDENCE := 2], map[1 := EMPTY, 2 := EMPTY], 3);
    ReservationSteps(top, START, Staged(top), ReservedToo(top));
  }

  lemma {:induction false} ReservationSteps(top: Name, a: Disk, b: Disk, c: Disk)
    requires StagingName(top) && a.Valid() && a.next == 1 && b.next == 2 && EVIDENCE != MANIFEST && b.Valid()
    requires a.Mkdir(Join(Base, top)) == Success(b) && b.Mkdir(EVIDENCE_PATH) == Success(c)
    requires Admissible(a, b) && Admissible(b, c) && b.Lookup(Join(Base, top)).Some?
    ensures var h0 := Start(a);
      var recorded := Then(Then(h0, Step.Mkdir(Join(Base, top)), b), Inspected(Join(Base, top)), b);
      var h := Then(Then(recorded, Environment, b), Step.Mkdir(EVIDENCE_PATH), c);
      Done(h0, h, {1, 2}, Join(Base, top), Some(2), None) && Working(h0, h)
  {
    hide Disk.Mkdir, Disk.Valid, Disk.Lookup;
    var h0 := Start(a);
    var h1 := Then(h0, Step.Mkdir(Join(Base, top)), b);
    assert Sound(h0) && Working(h0, h0) && Extends(h0, h0) && Length(h1) == 1;
    assert Claimed(h0, h0) == {} && MadeAt(h0, h0, MANIFEST_PATH) == None && MadeAt(h0, h0, EVIDENCE_PATH) == None;
    assert Sound(h1) && Working(h0, h1) && Extends(h0, h1) && Claimed(h0, h1) == {1};
    assert Done(h0, h1, {1}, Join(Base, top), None, None);
    DoneThen(h0, h1, {1}, Join(Base, top), None, None, Inspected(Join(Base, top)), b);
    var h2 := Then(h1, Inspected(Join(Base, top)), b);
    DoneThen(h0, h2, {1}, Join(Base, top), None, None, Environment, b);
    DoneThen(h0, Then(h2, Environment, b), {1}, Join(Base, top), None, None, Step.Mkdir(EVIDENCE_PATH), c);
    assert {1} + {2} == {1, 2};
  }

  // -------------------------------------------------------------------------
  // The swap at the reservation's hook
  // -------------------------------------------------------------------------

  /** The environment has put an empty directory of its own, inode 3, in the place
      of the reserved one. */
  function SwappedDisk(top: Name): Disk {
    Top(map[top := 1, EVIDENCE := 3, ASIDE := 2], map[1 := EMPTY, 2 := EMPTY, 3 := EMPTY], 4)
  }

  function SwapMoved(): Disk {
    Top(map[EVIDENCE := 1, ASIDE := 2], map[1 := EMPTY, 2 := EMPTY, 3 := EMPTY], 4)
  }

  function SwapRun(top: Name): History {
    Then(Then(UpToReservation(top), Environment, SwappedDisk(top)), Step.Rename(Join(Base, top), EVIDENCE_PATH), SwapMoved())
  }

  lemma SwapDisks(top: Name)
    requires StagingName(top)
    ensures var d, e := SwappedDisk(top), SwapMoved();
      && d.Valid() && Admissible(ReservedToo(top), d) && Admissible(d, e)
      && d.Rename(Join(Base, top), EVIDENCE_PATH) == Success(e) && Swapped(d, top, 1, 2)
      && d.Entry(0, EVIDENCE) == Some(3) && e.Entry(0, EVIDENCE) == Some(1) && (forall x, n :: e.Entry(x, n) != Some(3))
  {
    hide TopOk, Admissible, Disk.Valid, Disk.Rename;
    SwapOk(top);
    NamesApart();
    TopAdmissible(map[top := 1, EVIDENCE := 2], map[1 := EMPTY, 2 := EMPTY], 3, map[top := 1, EVIDENCE := 3, ASIDE := 2],
                  map[1 := EMPTY, 2 := EMPTY, 3 := EMPTY], 4);
    var rest := map[1 := EMPTY, 2 := EMPTY, 3 := EMPTY];
    var entries := map[top := 1, EVIDENCE := 3, ASIDE := 2];
    TopRename(entries, rest, 4, top, EVIDENCE);
    assert (entries - {top})[EVIDENCE := 1] == map[EVIDENCE := 1, ASIDE := 2];
    TopValid(entries, rest, 4);
    TopValid(map[EVIDENCE := 1, ASIDE := 2], rest, 4);
  }

  lemma SwapOk(top: Name)
    requires StagingName(top)
    ensures TopOk(map[top := 1, EVIDENCE := 3, ASIDE := 2], map[1 := EMPTY, 2 := EMPTY, 3 := EMPTY], 4)
    ensures TopOk(map[EVIDENCE := 1, ASIDE := 2], map[1 := EMPTY, 2 := EMPTY, 3 := EMPTY], 4)
    ensures TopOk(map[top := 1, EVIDENCE := 2], map[1 := EMPTY, 2 := EMPTY], 3)
  {
    NamesApart();
  }

  /** The move through the gap: the foreign directory loses its name. */
  lemma SwapRunLoses(top: Name)
    requires StagingName(top)
    ensures var h0, h := Start(START), SwapRun(top);
      && Sound(h) && SwapGap(h0, h.prev, h.step)
      && 3 !in Claimed(h0, h.prev) && h.prev.disk.Entry(0, EVIDENCE) == Some(3)
      && (forall x, n :: h.disk.Entry(x, n) != Some(3))
      && !Confined(h.prev.disk, h.disk, Claimed(h0, h.prev), {0} + Claimed(h0, h.prev))
  {
    hide Top, UpToReservation, SwappedDisk, SwapMoved, Swapped, Disk.Valid, Sound, Claimed, MadeAt;
    NamesApart();
    Reservation(top);
    SwapDisks(top);
    var h0, r := Start(START), UpToReservation(top);
    DoneThen(h0, r, {1, 2}, Join(Base, top), Some(2), None, Environment, SwappedDisk(top));
    var s := Then(r, Environment, SwappedDisk(top));
    DoneThen(h0, s, {1, 2}, Join(Base, top), Some(2), None, Step.Rename(Join(Base, top), EVIDENCE_PATH), SwapMoved());
  }

  // -------------------------------------------------------------------------
  // The link in the manifest's place
  // -------------------------------------------------------------------------

  function MovedDisk(): Disk {
    Top(map[EVIDENCE := 1], map[1 := EMPTY, 2 := EMPTY], 3)
  }

  function Opened(): Disk {
    Top(map[EVIDENCE := 1, MANIFEST := 3], map[1 := EMPTY, 2 := EMPTY, 3 := File([])], 4)
  }

  /** The environment has moved the manifest aside and put a link of its own,
      inode 4, in its place. */
  function Linked(): Disk {
    Top(map[EVIDENCE := 1, MANIFEST := 4, ASIDE := 3], map[1 := EMPTY, 2 := EMPTY, 3 := File([]), 4 := Symlink(3)], 5)
  }

  function EvidenceGone(): Disk {
    Top(map[MANIFEST := 4, ASIDE := 3], map[1 := EMPTY, 2 := EMPTY, 3 := File([]), 4 := Symlink(3)], 5)
  }

  function LinkGone(): Disk {
    Top(map[ASIDE := 3], map[1 := EMPTY, 2 := EMPTY, 3 := File([]), 4 := Symlink(3)], 5)
  }

  /** The move, the manifest, and the hook after it has been opened. */
  function UpToLink(top: Name): History {
    var hooked := Then(UpToReservation(top), Environment, ReservedToo(top));
    var moved := Then(hooked, Step.Rename(Join(Base, top), EVIDENCE_PATH), MovedDisk());
    Then(Then(Then(moved, Environment, MovedDisk()), Step.Create(MANIFEST_PATH), Opened()), Environment, Linked())
  }

  /** The hook throws; the handler takes back the evidence and then the manifest. */
  function LinkRun(top: Name): History {
    var caught := Then(UpToLink(top), Caught(15), Linked());
    Then(Then(caught, Step.Rmdir(EVIDENCE_PATH), EvidenceGone()), Step.Unlink(MANIFEST_PATH), LinkGone())
  }

  lemma LinkOk(top: Name)
    requires StagingName(top)
    ensures TopOk(map[top := 1, EVIDENCE := 2], map[1 := EMPTY, 2 := EMPTY], 3)
    ensures TopOk(map[EVIDENCE := 1], map[1 := EMPTY, 2 := EMPTY], 3)
  {
    NamesApart();
  }

  lemma LinkDisks(top: Name)
    requires StagingName(top)
    ensures ReservedToo(top).Valid() && ReservedToo(top).Rename(Join(Base, top), EVIDENCE_PATH) == Success(MovedDisk())
    ensures MovedDisk().Valid() && Admissible(ReservedToo(top), MovedDisk())
      && Admissible(ReservedToo(top), ReservedToo(top))
    ensures MovedDisk().Follow(EVIDENCE_PATH) == Some(1) && MovedDisk().next == 3
      && Admissible(MovedDisk(), MovedDisk())
    ensures MovedDisk().Create(MANIFEST_PATH) == Success(Opened()) && Admissible(MovedDisk(), Opened())
  {
    hide TopOk, Admissible, Disk.Valid, Disk.Rename, Disk.Create, Disk.Follow;
    LinkOk(top);
    NamesApart();
    var before, after, rest := map[top := 1, EVIDENCE := 2], map[EVIDENCE := 1], map[1 := EMPTY, 2 := EMPTY];
    TopRename(before, rest, 3, top, EVIDENCE);
    assert (before - {top})[EVIDENCE := 1] == after;
    TopCreate(after, rest, 3, MANIFEST);
    assert after[MANIFEST := 3] == map[EVIDENCE := 1, MANIFEST := 3];
    assert rest[3 := File([])] == map[1 := EMPTY, 2 := EMPTY, 3 := File([])];
    TopAdmissible(before, rest, 3, before, rest, 3);
    TopAdmissible(after, rest, 3, after, rest, 3);
  }

  const FULL := map[1 := EMPTY, 2 := EMPTY, 3 := File([]), 4 := Symlink(3)]

  lemma LinkedOk()
    ensures TopOk(map[EVIDENCE := 1, MANIFEST := 4, ASIDE := 3], FULL, 5)
    ensures TopOk(map[EVIDENCE := 1, MANIFEST := 3], map[1 := EMPTY, 2 := EMPTY, 3 := File([])], 4)
  {
    NamesApart();
  }

  lemma LinkedDisks()
    ensures Opened().Valid() && Linked().Valid() && Admissible(Opened(), Linked()) && Admissible(Linked(), Linked())
  {
    hide TopOk, Admissible, Disk.Valid;
    LinkedOk();
    var before, after := map[EVIDENCE := 1, MANIFEST := 3], map[EVIDENCE := 1, MANIFEST := 4, ASIDE := 3];
    TopValid(before, map[1 := EMPTY, 2 := EMPTY, 3 := File([])], 4);
    TopValid(after, FULL, 5);
    TopAdmissible(before, map[1 := EMPTY, 2 := EMPTY, 3 := File([])], 4, after, FULL, 5);
    TopAdmissible(after, FULL, 5, after, FULL, 5);
  }

  lemma HandlerDisks()
    ensures Linked().Rmdir(EVIDENCE_PATH) == Success(EvidenceGone()) && Admissible(Linked(), EvidenceGone())
    ensures EvidenceGone().Valid()
    ensures EvidenceGone().Unlink(MANIFEST_PATH) == Success(LinkGone()) && Admissible(EvidenceGone(), LinkGone())
    ensures EvidenceGone().Lookup(MANIFEST_PATH) == Some(4) && EvidenceGone().Follow(MANIFEST_PATH) == Some(3)
    ensures EvidenceGone().Entry(0, MANIFEST) == Some(4) && forall x, n :: LinkGone().Entry(x, n) != Some(4)
  {
    hide TopOk, Disk.Valid, Disk.Rmdir, Disk.Unlink, Admissible;
    LinkedOk();
    NamesApart();
    var a, b, c := map[EVIDENCE := 1, MANIFEST := 4, ASIDE := 3], map[MANIFEST := 4, ASIDE := 3], map[ASIDE := 3];
    assert a - {EVIDENCE} == b && b - {MANIFEST} == c;
    TopRemove(a, FULL, 5, EVIDENCE);
    TopRemove(b, FULL, 5, MANIFEST);
    TopValid(b, FULL, 5);
    TopValid(c, FULL, 5);
    assert Top(b, FULL, 5).nodes[4] == Symlink(3);
  }

  /** Up to the throwing hook. */
  lemma LinkWork(top: Name)
    requires StagingName(top)
    ensures Done(Start(START), UpToLink(top), {1, 2, 3}, Join(Base, top), Some(2), Some(3))
      && Working(Start(START), UpToLink(top))
    ensures UpToLink(top).disk == Linked()
  {
    hide Top, UpToReservation, ReservedToo, MovedDisk, Opened, Linked, Sound, Claimed, MadeAt, Disk.Valid, Done,
         Working, Admissible, Disk.Rename, Disk.Create, Disk.Follow, Disk.Rmdir, Disk.Unlink;
    NamesApart();
    Reservation(top);
    LinkDisks(top);
    LinkedDisks();
    LinkSteps(Start(START), UpToReservation(top), top, MovedDisk(), Opened(), Linked());
  }

  lemma {:induction false} LinkSteps(h0: History, r: History, top: Name, x: Disk, y: Disk, z: Disk)
    requires StagingName(top) && Done(h0, r, {1, 2}, Join(Base, top), Some(2), None) && Working(h0, r)
      && EVIDENCE != MANIFEST
    requires r.disk.Valid() && x.Valid() && y.Valid() && x.next == 3 && x.Follow(EVIDENCE_PATH) == Some(1)
    requires r.disk.Rename(Join(Base, top), EVIDENCE_PATH) == Success(x) && x.Create(MANIFEST_PATH) == Success(y)
    requires Admissible(r.disk, r.disk) && Admissible(r.disk, x) && Admissible(x, x) && Admissible(x, y)
      && Admissible(y, z)
    ensures var moved := Then(Then(r, Environment, r.disk), Step.Rename(Join(Base, top), EVIDENCE_PATH), x);
      var h := Then(Then(Then(moved, Environment, x), Step.Create(MANIFEST_PATH), y), Environment, z);
      Done(h0, h, {1, 2, 3}, Join(Base, top), Some(2), Some(3)) && Working(h0, h)
  {
    hide Sound, Claimed, MadeAt, Disk.Valid, Done, Working, Admissible, Disk.Rename, Disk.Create, Disk.Follow;
    var staged := Join(Base, top);
    DoneThen(h0, r, {1, 2}, staged, Some(2), None, Environment, r.disk);
    var a := Then(r, Environment, r.disk);
    DoneThen(h0, a, {1, 2}, staged, Some(2), None, Step.Rename(staged, EVIDENCE_PATH), x);
    var b := Then(a, Step.Rename(staged, EVIDENCE_PATH), x);
    assert {1, 2} + {} + {1} == {1, 2};
    assert Done(h0, b, {1, 2}, staged, Some(2), None);
    DoneThen(h0, b, {1, 2}, staged, Some(2), None, Environment, x);
    var c := Then(b, Environment, x);
    DoneThen(h0, c, {1, 2}, staged, Some(2), None, Step.Create(MANIFEST_PATH), y);
    var d := Then(c, Step.Create(MANIFEST_PATH), y);
    assert {1, 2} + {3} + {} == {1, 2, 3} && EVIDENCE_PATH != MANIFEST_PATH;
    assert Done(h0, d, {1, 2, 3}, staged, Some(2), Some(3));
    DoneThen(h0, d, {1, 2, 3}, staged, Some(2), Some(3), Environment, z);
  }

  /** The removal through the gap: the foreign link loses its name. */
  lemma LinkRunLoses(top: Name)
    requires StagingName(top)
    ensures var h0, h := Start(START), LinkRun(top);
      && Sound(h) && Failed(h0, h) && LinkGap(h0, h.prev, h.step)
      && 4 !in Claimed(h0, h.prev) && h.prev.disk.Entry(0, MANIFEST) == Some(4)
      && (forall x, n :: h.disk.Entry(x, n) != Some(4))
      && !Confined(h.prev.disk, h.disk, Claimed(h0, h.prev), {0} + Claimed(h0, h.prev))
  {
    hide Top, UpToLink, Linked, EvidenceGone, LinkGone, Sound, Claimed, MadeAt, Disk.Valid, Working, Failed,
         Disk.Lookup, Disk.Follow;
    NamesApart();
    LinkWork(top);
    LinkedDisks();
    HandlerDisks();
    var h0, staged, w := Start(START), Join(Base, top), UpToLink(top);
    DoneThen(h0, w, {1, 2, 3}, staged, Some(2), Some(3), Caught(15), Linked());
    var f := Then(w, Caught(15), Linked());
    DoneThen(h0, f, {1, 2, 3}, staged, Some(2), Some(3), Step.Rmdir(EVIDENCE_PATH), EvidenceGone());
    var g := Then(f, Step.Rmdir(EVIDENCE_PATH), EvidenceGone());
    DoneThen(h0, g, {1, 2, 3}, staged, Some(2), Some(3), Step.Unlink(MANIFEST_PATH), LinkGone());
  }
}
