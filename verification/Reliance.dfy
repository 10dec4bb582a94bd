/** What a history shows the program to have done and kept, and what it may rely
    on when the environment leaves the collection alone. */
module Reliance {
  import opened Outcomes
  import opened FileSystem

  /** `h` continues `h0`. */
  ghost predicate Extends(h0: History, h: History) {
    h != h0 ==> h.Then? && Extends(h0, h.prev)
  }

  // -------------------------------------------------------------------------
  // What the program has made
  // -------------------------------------------------------------------------

  /** The inodes the program has created since `h0`. */
  ghost function Created(h0: History, h: History): set<Ino> {
    if h == h0 || h.Start? then {}
    else Created(h0, h.prev) + (if h.step.Mkdir? || h.step.Create? then {h.prev.disk.next} else {})
  }

  /** The inode the program last created at path `p` since `h0`. */
  ghost function MadeAt(h0: History, h: History, p: Path): Option<Ino> {
    if h == h0 || h.Start? then None
    else if h.step == Step.Mkdir(p) || h.step == Step.Create(p) then Some(h.prev.disk.next)
    else MadeAt(h0, h.prev, p)
  }

  /** Since `h0` the program has created entries at `paths` only, and has given no
      existing inode another name. */
  ghost predicate Quiet(h0: History, h: History, paths: set<Path>) {
    h != h0 ==>
      && h.Then?
      && Quiet(h0, h.prev, paths)
      && (h.step.Mkdir? || h.step.Create? ==> h.step.path in paths)
      && !h.step.Link? && !h.step.Rename?
  }

  /** Since `h0` the program has written these bytes to file `i`. */
  ghost predicate Wrote(h0: History, h: History, i: Ino, bytes: Bytes) {
    h != h0 && h.Then? && ((h.step == Step.Write(i) && h.disk.Content(i) == Some(bytes)) || Wrote(h0, h.prev, i, bytes))
  }

  /** The number of the first call of the failure handler, if it has started. */
  ghost function HandledAt(h0: History, h: History): Option<nat> {
    if h == h0 || h.Start? then None
    else if h.step.Caught? then Some(h.step.at)
    else HandledAt(h0, h.prev)
  }

  /** The failure handler has started, and no call fails in it for a reason of its
      own. */
  ghost predicate HandledReliably(fs: FileSystem, h0: History, h: History) {
    HandledAt(h0, h).Some? && fs.Reliable(HandledAt(h0, h).value)
  }

  /** No failure handler has started, and the program has removed nothing. */
  ghost predicate Working(h0: History, h: History) {
    h != h0 ==> h.Then? && !h.step.Caught? && !h.step.Unlink? && !h.step.Rmdir? && Working(h0, h.prev)
  }

  /** The program has only removed names. */
  ghost predicate Removing(h0: History, h: History) {
    h != h0 ==> h.Then? && (h.step.Unlink? || h.step.Rmdir?) && Removing(h0, h.prev)
  }

  /** The program worked, then its failure handler started, and since then it has
      only removed names. */
  ghost predicate Failed(h0: History, h: History) {
    && h != h0 && h.Then?
    && (if h.step.Caught? then Working(h0, h.prev) else (h.step.Unlink? || h.step.Rmdir?) && Failed(h0, h.prev))
  }

  /** Some hook has run since `h0`. */
  ghost predicate HookRan(h0: History, h: History) {
    h != h0 && h.Then? && (h.step == Environment || HookRan(h0, h.prev))
  }

  /** The program has taken down the identity of everything it has made. */
  ghost predicate AllInspected(h0: History, h: History) {
    forall p | MadeAt(h0, h, p).Some? :: Performed(h0, h, Inspected(p))
  }

  /** The last thing the program did before its failure handler was to make or
      fill something. */
  ghost predicate BrokeOff(h0: History, h: History) {
    && h != h0 && h.Then?
    && (if h.step.Caught? || h.step.Unlink? || h.step.Rmdir? then BrokeOff(h0, h.prev)
        else h.step.Mkdir? || h.step.Create? || h.step.Write?)
  }

  /** Since `h1` only hooks have run, and none has touched the disk. */
  ghost predicate Still(h1: History, h: History) {
    h != h1 ==> h.Then? && h.step == Environment && h.disk == h.prev.disk && Still(h1, h.prev)
  }

  lemma {:induction false} StillHook(h1: History, h: History, after: Disk)
    ensures Still(h1, h1)
    ensures Still(h1, h) && after == h.disk ==> Still(h1, Then(h, Environment, after))
  {}

  lemma {:induction false} CreatedSplit(h0: History, h1: History, h2: History)
    requires Extends(h0, h1) && Extends(h1, h2)
    ensures Created(h0, h2) == Created(h0, h1) + Created(h1, h2)
  {
    if h2 != h1 {
      ExtendsLength(h0, h1);
      ExtendsLength(h1, h2.prev);
      CreatedSplit(h0, h1, h2.prev);
    }
  }

  /** What is created is new, and stays in existence. */
  lemma {:induction false} CreatedNew(h0: History, h: History)
    requires Extends(h0, h) && Sound(h)
    ensures h0.disk.next <= h.disk.next && forall i | i in Created(h0, h) :: h0.disk.next <= i < h.disk.next
  {
    if h != h0 {
      CreatedNew(h0, h.prev);
      if h.step.Mkdir? || h.step.Create? { CreationNext(h.prev.disk, h.step, h.disk); }
    }
  }

  lemma CreationNext(before: Disk, step: Step, after: Disk)
    requires Lawful(before, step, after) && (step.Mkdir? || step.Create?)
    ensures after.next == before.next + 1
  {}

  lemma {:induction false} MadeCreated(h0: History, h: History, p: Path)
    ensures MadeAt(h0, h, p).Some? ==> MadeAt(h0, h, p).value in Created(h0, h)
  {
    if h != h0 && h.Then? { MadeCreated(h0, h.prev, p); }
  }

  lemma {:induction false} MadeSplit(h0: History, h1: History, h2: History, p: Path)
    requires Extends(h0, h1) && Extends(h1, h2)
    ensures MadeAt(h0, h2, p) == if MadeAt(h1, h2, p).Some? then MadeAt(h1, h2, p) else MadeAt(h0, h1, p)
  {
    if h2 != h1 {
      ExtendsLength(h0, h1);
      ExtendsLength(h1, h2.prev);
      MadeSplit(h0, h1, h2.prev, p);
    }
  }

  lemma {:induction false} QuietExtends(h0: History, h: History, paths: set<Path>)
    requires Quiet(h0, h, paths)
    ensures Extends(h0, h)
  {
    if h != h0 { QuietExtends(h0, h.prev, paths); }
  }

  lemma {:induction false} QuietMono(h0: History, h: History, paths: set<Path>, more: set<Path>)
    requires Quiet(h0, h, paths) && paths <= more
    ensures Quiet(h0, h, more)
  {
    if h != h0 { QuietMono(h0, h.prev, paths, more); }
  }

  lemma {:induction false} QuietTransitive(h0: History, h1: History, h2: History, paths: set<Path>)
    requires Quiet(h0, h1, paths) && Quiet(h1, h2, paths)
    ensures Quiet(h0, h2, paths)
  {
    if h1 != h2 && h2 != h0 { QuietTransitive(h0, h1, h2.prev, paths); }
  }

  lemma {:induction false} QuietMade(h0: History, h: History, paths: set<Path>, p: Path)
    requires Quiet(h0, h, paths) && p !in paths
    ensures MadeAt(h0, h, p) == None
  {
    if h != h0 { QuietMade(h0, h.prev, paths, p); }
  }

  lemma {:induction false} WroteNow(h: History, i: Ino, bytes: Bytes, after: Disk)
    requires after.Content(i) == Some(bytes)
    ensures Wrote(h, Then(h, Step.Write(i), after), i, bytes)
  {
    assert Length(Then(h, Step.Write(i), after)) == Length(h) + 1;
  }

  lemma {:induction false} WroteThen(h0: History, h: History, i: Ino, bytes: Bytes, after: Disk)
    requires Wrote(h0, h, i, bytes) && Extends(h0, h)
    ensures Wrote(h0, Then(h, Environment, after), i, bytes)
  {
    ExtendsLength(h0, h);
  }

  lemma {:induction false} WroteLater(h0: History, h1: History, h2: History, i: Ino, bytes: Bytes)
    requires Extends(h0, h1) && Extends(h1, h2) && (Wrote(h0, h1, i, bytes) || Wrote(h1, h2, i, bytes))
    ensures Wrote(h0, h2, i, bytes)
  {
    if h2 != h1 {
      ExtendsLength(h0, h1);
      ExtendsLength(h1, h2.prev);
      if h2.step == Step.Write(i) && h2.disk.Content(i) == Some(bytes) {
      } else {
        WroteLater(h0, h1, h2.prev, i, bytes);
      }
    }
  }

  lemma {:induction false} RemovingQuiet(h0: History, h: History)
    requires Removing(h0, h)
    ensures Quiet(h0, h, {})
  {
    if h != h0 { RemovingQuiet(h0, h.prev); }
  }

  lemma {:induction false} MadeRemoving(h0: History, g: History, h: History, p: Path)
    requires Extends(h0, g) && Removing(g, h)
    ensures MadeAt(h0, h, p) == MadeAt(h0, g, p) && Extends(h0, h)
  {
    if h != g {
      ExtendsLength(h0, g);
      RemovingLength(g, h.prev);
      MadeRemoving(h0, g, h.prev, p);
    }
  }

  /** A handler that only removes names completes a failure. */
  lemma {:induction false} FailedSince(h0: History, h: History, at: nat, h2: History)
    requires Extends(h0, h) && Working(h0, h) && Removing(Then(h, Caught(at), h.disk), h2)
    ensures Failed(h0, h2) && HandledAt(h0, h2) == Some(at) && Extends(h0, h2)
  {
    ExtendsLength(h0, h);
    RemovingLength(Then(h, Caught(at), h.disk), h2);
    if h2 != Then(h, Caught(at), h.disk) { FailedSince(h0, h, at, h2.prev); }
  }

  /** Work before the work that failed makes no difference. */
  lemma {:induction false} FailedEarlier(h0: History, h1: History, h2: History)
    requires Extends(h0, h1) && Working(h0, h1) && Failed(h1, h2)
    ensures Failed(h0, h2) && HandledAt(h0, h2) == HandledAt(h1, h2)
  {
    FailedExtends(h1, h2);
    ExtendsLength(h0, h1);
    ExtendsLength(h1, h2.prev);
    if h2.step.Caught? { WorkingEarlier(h0, h1, h2.prev); } else { FailedEarlier(h0, h1, h2.prev); }
  }

  lemma {:induction false} FailedExtends(h0: History, h: History)
    requires Failed(h0, h)
    ensures Extends(h0, h) && h.Then? && Extends(h0, h.prev)
  {
    if h.step.Caught? { WorkingExtends(h0, h.prev); } else { FailedExtends(h0, h.prev); }
  }

  lemma {:induction false} WorkingExtends(h0: History, h: History)
    requires Working(h0, h)
    ensures Extends(h0, h)
  {
    if h != h0 { WorkingExtends(h0, h.prev); }
  }

  lemma {:induction false} WorkingEarlier(h0: History, h1: History, h2: History)
    requires Working(h0, h1) && Working(h1, h2)
    ensures Working(h0, h2)
  {
    if h2 != h1 && h2 != h0 { WorkingEarlier(h0, h1, h2.prev); }
  }

  lemma {:induction false} RemovingLength(h0: History, h: History)
    requires Removing(h0, h)
    ensures Length(h0) <= Length(h)
  {
    if h != h0 { RemovingLength(h0, h.prev); }
  }

  lemma {:induction false} RemovingTransitive(h0: History, h1: History, h2: History)
    requires Removing(h0, h1) && Removing(h1, h2)
    ensures Removing(h0, h2)
  {
    if h1 != h2 && h2 != h0 { RemovingTransitive(h0, h1, h2.prev); }
  }

  /** A failure handler makes nothing. */
  lemma {:induction false} HandlerMakesNothing(h0: History, h: History, at: nat, h2: History, paths: set<Path>)
    requires Extends(h0, h) && Removing(Then(h, Caught(at), h.disk), h2)
    ensures Extends(h0, h2) && Created(h0, h2) == Created(h0, h) && forall p :: MadeAt(h0, h2, p) == MadeAt(h0, h, p)
    ensures Quiet(h0, h, paths) ==> Quiet(h0, h2, paths)
  {
    ExtendsLength(h0, h);
    RemovingLength(Then(h, Caught(at), h.disk), h2);
    if h2 != Then(h, Caught(at), h.disk) { HandlerMakesNothing(h0, h, at, h2.prev, paths); }
  }

  /** Nor does it inspect anything for the record. */
  lemma {:induction false} HandlerInspectsNothing(h0: History, h: History, at: nat, h2: History)
    requires Extends(h0, h) && Removing(Then(h, Caught(at), h.disk), h2)
    ensures forall p :: Performed(h0, h2, Inspected(p)) <==> Performed(h0, h, Inspected(p))
    ensures AllInspected(h0, h2) <==> AllInspected(h0, h)
    ensures BrokeOff(h0, h2) <==> BrokeOff(h0, h)
  {
    HandlerMakesNothing(h0, h, at, h2, {});
    ExtendsLength(h0, h);
    RemovingLength(Then(h, Caught(at), h.disk), h2);
    if h2 != Then(h, Caught(at), h.disk) {
      HandlerMakesNothing(h0, h, at, h2.prev, {});
      HandlerInspectsNothing(h0, h, at, h2.prev);
    }
  }

  /** Hooks and the program's other steps keep the account. */
  lemma {:induction false} OtherStep(h0: History, h: History, step: Step, after: Disk, paths: set<Path>)
    requires Extends(h0, h) && !step.Mkdir? && !step.Create? && !step.Link? && !step.Rename?
    ensures var h2 := Then(h, step, after);
      && Extends(h0, h2) && Length(h2) == Length(h) + 1
      && Created(h0, h2) == Created(h0, h) && (forall p :: MadeAt(h0, h2, p) == MadeAt(h0, h, p))
      && (Quiet(h0, h, paths) ==> Quiet(h0, h2, paths))
      && (Working(h0, h) && !step.Caught? && !step.Unlink? && !step.Rmdir? ==> Working(h0, h2))
      && (HookRan(h0, h2) <==> HookRan(h0, h) || step == Environment)
  {
    ExtendsLength(h0, h);
  }

  lemma {:induction false} CreateStep(h0: History, h: History, step: Step, after: Disk, paths: set<Path>)
    requires Extends(h0, h) && (step.Mkdir? || step.Create?)
    ensures var h2 := Then(h, step, after);
      && Extends(h0, h2) && Created(h0, h2) == Created(h0, h) + {h.disk.next}
      && (forall p :: MadeAt(h0, h2, p) == if p == step.path then Some(h.disk.next) else MadeAt(h0, h, p))
      && (Quiet(h0, h, paths) && step.path in paths ==> Quiet(h0, h2, paths))
      && (Working(h0, h) ==> Working(h0, h2))
      && (HookRan(h0, h2) <==> HookRan(h0, h))
  {
    ExtendsLength(h0, h);
  }

  lemma {:induction false} RenameStep(h0: History, h: History, source: Path, target: Path, after: Disk)
    requires Extends(h0, h)
    ensures var h2 := Then(h, Step.Rename(source, target), after);
      && Extends(h0, h2) && Created(h0, h2) == Created(h0, h) && (forall p :: MadeAt(h0, h2, p) == MadeAt(h0, h, p))
      && (Working(h0, h) ==> Working(h0, h2)) && (HookRan(h0, h2) <==> HookRan(h0, h))
  {
    ExtendsLength(h0, h);
  }

  /** Removals take names away and do nothing else. */
  lemma {:induction false} RemovingNames(h0: History, h: History)
    requires Removing(h0, h) && Sound(h)
    ensures h.disk.base == h0.disk.base && h.disk.next == h0.disk.next
    ensures forall x, n :: h.disk.Entry(x, n) in {None, h0.disk.Entry(x, n)}
    ensures forall i :: h.disk.KindOf(i) == h0.disk.KindOf(i) && h.disk.Content(i) == h0.disk.Content(i)
  {
    if h != h0 {
      RemovingNames(h0, h.prev);
      RemovalStep(h.prev.disk, h.step, h.disk);
    }
  }

  lemma RemovalStep(d: Disk, step: Step, e: Disk)
    requires Lawful(d, step, e) && (step.Unlink? || step.Rmdir?)
    ensures e.base == d.base && e.next == d.next && forall x, n :: e.Entry(x, n) in {None, d.Entry(x, n)}
    ensures forall i :: e.KindOf(i) == d.KindOf(i) && e.Content(i) == d.Content(i)
  {}

  lemma {:induction false} HandlerHooks(h0: History, h: History, at: nat, h2: History)
    requires Extends(h0, h) && Removing(Then(h, Caught(at), h.disk), h2)
    ensures HookRan(h0, h2) <==> HookRan(h0, h)
  {
    ExtendsLength(h0, h);
    RemovingLength(Then(h, Caught(at), h.disk), h2);
    if h2 != Then(h, Caught(at), h.disk) { HandlerHooks(h0, h, at, h2.prev); }
  }

  // -------------------------------------------------------------------------
  // What the program leaves alone
  // -------------------------------------------------------------------------

  /** A step that takes away or redirects only names of inodes in `own` and names
      inside directories in `own`, changes the bytes only of files in `own`, and
      gives out new names only in the directories `into`. */
  ghost predicate Careful(before: Disk, after: Disk, own: set<Ino>, into: set<Ino>) {
    && (forall d, n | before.Entry(d, n).Some? && after.Entry(d, n) != before.Entry(d, n) ::
          before.Entry(d, n).value in own || d in own)
    && (forall d, n | after.Entry(d, n).Some? && after.Entry(d, n) != before.Entry(d, n) :: d in into)
    && (forall i | before.Content(i).Some? && after.Content(i) != before.Content(i) :: i in own)
  }

  ghost predicate CarefulSince(h0: History, h: History, own: set<Ino>, into: set<Ino>) {
    h != h0 ==>
      && h.Then?
      && CarefulSince(h0, h.prev, own, into)
      && (h.step != Environment ==> Careful(h.prev.disk, h.disk, own, into))
  }

  /** Every step since `h0` was careful with what the program has not created. */
  ghost predicate Respectful(h0: History, h: History) {
    CarefulSince(h0, h, Created(h0, h), {h0.disk.base} + Created(h0, h))
  }

  lemma {:induction false} ConfinedCareful(h0: History, h: History, own: set<Ino>, into: set<Ino>)
    requires CodeConfined(h0, h, own, into)
    ensures CarefulSince(h0, h, own, into)
  {
    if h != h0 { ConfinedCareful(h0, h.prev, own, into); }
  }

  lemma {:induction false} CarefulMono(
      h0: History, h: History, own: set<Ino>, into: set<Ino>, own': set<Ino>, into': set<Ino>)
    requires CarefulSince(h0, h, own, into) && own <= own' && into <= into'
    ensures CarefulSince(h0, h, own', into')
  {
    if h != h0 { CarefulMono(h0, h.prev, own, into, own', into'); }
  }

  lemma {:induction false} CarefulTransitive(h0: History, h1: History, h2: History, own: set<Ino>, into: set<Ino>)
    requires CarefulSince(h0, h1, own, into) && CarefulSince(h1, h2, own, into)
    ensures CarefulSince(h0, h2, own, into)
  {
    if h1 != h2 && h2 != h0 { CarefulTransitive(h0, h1, h2.prev, own, into); }
  }

  lemma {:induction false} RespectfulThrough(h0: History, h1: History, h2: History, own: set<Ino>, into: set<Ino>)
    requires Respectful(h0, h1) && CarefulSince(h1, h2, own, into) && Extends(h0, h1) && Extends(h1, h2)
    requires own <= Created(h0, h2) && into <= {h0.disk.base} + Created(h0, h2)
    ensures Respectful(h0, h2)
  {
    CreatedSplit(h0, h1, h2);
    var all := Created(h0, h2);
    CarefulMono(h0, h1, Created(h0, h1), {h0.disk.base} + Created(h0, h1), all, {h0.disk.base} + all);
    CarefulMono(h1, h2, own, into, all, {h0.disk.base} + all);
    CarefulTransitive(h0, h1, h2, all, {h0.disk.base} + all);
  }

  // -------------------------------------------------------------------------
  // What the program keeps
  // -------------------------------------------------------------------------

  /** No step of the program takes the name `name` of `dir` away from inode `i`,
      nor changes the bytes of `i`. */
  ghost predicate NameKept(h0: History, h: History, dir: Ino, name: Name, i: Ino) {
    h != h0 ==>
      && h.Then?
      && NameKept(h0, h.prev, dir, name, i)
      && (h.step != Environment ==>
            && (h.prev.disk.Entry(dir, name) == Some(i) ==> h.disk.Entry(dir, name) == Some(i))
            && (h.prev.disk.Content(i).Some? ==> h.disk.Content(i) == h.prev.disk.Content(i)))
  }

  /** The environment leaves the files named in these two directories alone: it
      neither unlinks nor edits them.  Anything else it may do. */
  ghost predicate Aloof(before: Disk, after: Disk, root: Ino, sources: Ino) {
    forall dir, n | (dir == root || dir == sources) && before.Entry(dir, n).Some? && before.IsFile(before.Entry(dir, n).value) ::
      && after.Entry(dir, n) == before.Entry(dir, n)
      && after.Content(before.Entry(dir, n).value) == before.Content(before.Entry(dir, n).value)
  }

  ghost predicate AloofSince(h0: History, h: History, root: Ino, sources: Ino) {
    h != h0 ==>
      && h.Then?
      && AloofSince(h0, h.prev, root, sources)
      && (h.step == Environment ==> Aloof(h.prev.disk, h.disk, root, sources))
  }

  lemma {:induction false} ExtendsLength(h0: History, h: History)
    requires Extends(h0, h)
    ensures Length(h0) <= Length(h)
  {
    if h != h0 { ExtendsLength(h0, h.prev); }
  }

  lemma {:induction false} ExtendsTransitive(h0: History, h1: History, h2: History)
    requires Extends(h0, h1) && Extends(h1, h2)
    ensures Extends(h0, h2)
  {
    if h2 != h1 { ExtendsTransitive(h0, h1, h2.prev); }
  }

  lemma {:induction false} ConfinedExtends(h0: History, h: History, own: set<Ino>, into: set<Ino>)
    requires CodeConfined(h0, h, own, into)
    ensures Extends(h0, h)
  {
    if h != h0 { ConfinedExtends(h0, h.prev, own, into); }
  }

  lemma {:induction false} KeptExtends(h0: History, h: History, dir: Ino, name: Name, i: Ino)
    requires NameKept(h0, h, dir, name, i)
    ensures Extends(h0, h)
  {
    if h != h0 { KeptExtends(h0, h.prev, dir, name, i); }
  }

  /** What is not among its own inodes a confined run keeps. */
  lemma {:induction false} ConfinedKept(h0: History, h: History, own: set<Ino>, into: set<Ino>, dir: Ino, name: Name,
                                        i: Ino)
    requires CodeConfined(h0, h, own, into) && i !in own
    ensures NameKept(h0, h, dir, name, i)
  {
    if h != h0 { ConfinedKept(h0, h.prev, own, into, dir, name, i); }
  }

  lemma {:induction false} KeptTransitive(h0: History, h1: History, h2: History, dir: Ino, name: Name, i: Ino)
    requires NameKept(h0, h1, dir, name, i) && NameKept(h1, h2, dir, name, i)
    ensures NameKept(h0, h2, dir, name, i)
  {
    if h2 != h1 && h2 != h0 { KeptTransitive(h0, h1, h2.prev, dir, name, i); }
  }

  lemma {:induction false} AloofSplit(h0: History, h1: History, h2: History, root: Ino, sources: Ino)
    requires Extends(h0, h1) && Extends(h1, h2) && AloofSince(h0, h2, root, sources)
    ensures AloofSince(h0, h1, root, sources) && AloofSince(h1, h2, root, sources)
  {
    if h2 != h1 {
      ExtendsLength(h0, h1);
      ExtendsLength(h1, h2.prev);
      AloofSplit(h0, h1, h2.prev, root, sources);
    }
  }

  /** A file in one of the two directories stays there, byte for byte, while the
      environment is aloof and the program keeps it. */
  lemma {:induction false} AloofKept(h0: History, h: History, root: Ino, sources: Ino, dir: Ino, name: Name, i: Ino)
    requires dir == root || dir == sources
    requires NameKept(h0, h, dir, name, i) && AloofSince(h0, h, root, sources)
    requires h0.disk.Entry(dir, name) == Some(i) && h0.disk.Content(i).Some?
    ensures h.disk.Entry(dir, name) == Some(i) && h.disk.Content(i) == h0.disk.Content(i)
  {
    if h != h0 { AloofKept(h0, h.prev, root, sources, dir, name, i); }
  }
}
