/** What one preparation may call its own, and the two gaps through which it can
    touch more (commander-native-tool-benchmark-v2-prepare.ts). */
module Ownership {
  import opened Outcomes
  import opened FileSystem
  import opened Reliance
  import opened Lifecycle
  import opened StagingTree

  /** The inodes the run holds to be its own: those it has created, and what it
      found at the name it moved the staged tree to. */
  ghost function Claimed(h0: History, h: History): set<Ino> {
    if h == h0 || h.Start? then {}
    else
      Claimed(h0, h.prev)
      + (if h.step.Mkdir? || h.step.Create? then {h.prev.disk.next} else {})
      + (if h.step.Rename? && h.disk.Follow(h.step.target).Some? then {h.disk.Follow(h.step.target).value} else {})
  }

  /** At the move, the staging name leads to something else than the staged
      tree, or the evidence name to another directory than the reserved one. */
  ghost predicate Swapped(d: Disk, top: Name, s: Ino, e: Ino) {
    && d.Rename(Join(Base, top), EVIDENCE_PATH).Success?
    && !(d.Entry(d.base, top) == Some(s) && d.Entry(d.base, EVIDENCE) in {None, Some(e)})
  }

  /** A swap at the reservation's hook: the run moves what is at the staging name
      over what is at the evidence name, and one of them is not what it made. */
  ghost predicate SwapGap(h0: History, h: History, step: Step) {
    && step.Rename? && step.source.Join? && step.source.parent == Base && step.target == EVIDENCE_PATH
    && MadeAt(h0, h, step.source).Some? && MadeAt(h0, h, EVIDENCE_PATH).Some?
    && Swapped(h.disk, step.source.name, MadeAt(h0, h, step.source).value, MadeAt(h0, h, EVIDENCE_PATH).value)
  }

  /** A link in the manifest's place: the run removes a name that leads to the
      manifest it made, and is not that manifest's own name. */
  ghost predicate LinkGap(h0: History, h: History, step: Step) {
    && step == Step.Unlink(MANIFEST_PATH) && MadeAt(h0, h, MANIFEST_PATH).Some?
    && h.disk.Follow(MANIFEST_PATH) == MadeAt(h0, h, MANIFEST_PATH)
    && h.disk.Lookup(MANIFEST_PATH) != MadeAt(h0, h, MANIFEST_PATH)
  }

  ghost predicate Gap(h0: History, h: History, step: Step) {
    SwapGap(h0, h, step) || LinkGap(h0, h, step)
  }

  /** Every step of the run since `h0` touched only what it held to be its own at
      that time, or, with `gaps`, went through one of the two. */
  ghost predicate OwnSteps(h0: History, h: History, gaps: bool) {
    h != h0 ==>
      && h.Then?
      && OwnSteps(h0, h.prev, gaps)
      && (h.step != Environment ==>
            || Confined(h.prev.disk, h.disk, Claimed(h0, h.prev), {h0.disk.base} + Claimed(h0, h.prev))
            || (gaps && Gap(h0, h.prev, h.step)))
  }

  lemma {:induction false} NothingOwned(h: History, gaps: bool)
    ensures OwnSteps(h, h, gaps) && Claimed(h, h) == {} && Extends(h, h)
  {}

  lemma {:induction false} OwnExtends(h0: History, h: History, gaps: bool)
    requires OwnSteps(h0, h, gaps)
    ensures Extends(h0, h)
  {
    if h != h0 { OwnExtends(h0, h.prev, gaps); }
  }

  lemma {:induction false} WithGaps(h0: History, h: History, gaps: bool)
    requires OwnSteps(h0, h, gaps)
    ensures OwnSteps(h0, h, true)
  {
    if h != h0 { WithGaps(h0, h.prev, gaps); }
  }

  /** Hooks, and the start of the handler. */
  lemma {:induction false} OwnPause(h0: History, h: History, gaps: bool, step: Step, after: Disk)
    requires OwnSteps(h0, h, gaps) && (step == Environment || (step.Caught? && after == h.disk))
    ensures OwnSteps(h0, Then(h, step, after), gaps) && Claimed(h0, Then(h, step, after)) == Claimed(h0, h)
  {
    OwnExtends(h0, h, gaps);
    ExtendsLength(h0, h);
  }

  /** A step within what is the run's own. */
  lemma {:induction false} OwnStep(h0: History, h: History, gaps: bool, step: Step, after: Disk, own: set<Ino>,
                                   into: set<Ino>)
    requires OwnSteps(h0, h, gaps) && Confined(h.disk, after, own, into)
    requires own <= Claimed(h0, h) && into <= {h0.disk.base} + Claimed(h0, h)
    ensures OwnSteps(h0, Then(h, step, after), gaps)
    ensures Claimed(h0, Then(h, step, after)) ==
              Claimed(h0, h)
              + (if step.Mkdir? || step.Create? then {h.disk.next} else {})
              + (if step.Rename? && after.Follow(step.target).Some? then {after.Follow(step.target).value} else {})
  {
    OwnExtends(h0, h, gaps);
    ExtendsLength(h0, h);
  }

  /** A step through a gap. */
  lemma {:induction false} GapStep(h0: History, h: History, step: Step, after: Disk)
    requires OwnSteps(h0, h, true) && Gap(h0, h, step)
    ensures OwnSteps(h0, Then(h, step, after), true)
    ensures Claimed(h0, Then(h, step, after)) ==
              Claimed(h0, h)
              + (if step.Rename? && after.Follow(step.target).Some? then {after.Follow(step.target).value} else {})
  {
    OwnExtends(h0, h, true);
    ExtendsLength(h0, h);
  }

  lemma {:induction false} ClaimedGrows(h0: History, g: History, h: History)
    requires Extends(h0, g) && Extends(g, h)
    ensures Claimed(h0, g) <= Claimed(h0, h)
  {
    if h != g {
      ExtendsLength(h0, g);
      ExtendsLength(g, h.prev);
      ClaimedGrows(h0, g, h.prev);
    }
  }

  /** Removals leave what is claimed. */
  lemma {:induction false} ClaimedRemoving(h0: History, g: History, h: History)
    requires Extends(h0, g) && Removing(g, h)
    ensures Claimed(h0, h) == Claimed(h0, g)
  {
    if h != g {
      ExtendsLength(h0, g);
      RemovingLength(g, h.prev);
      ClaimedRemoving(h0, g, h.prev);
    }
  }

  /** Steps that are confined to what the run owned when they began. */
  lemma {:induction false} OwnThrough(h0: History, g: History, h: History, gaps: bool, own: set<Ino>, into: set<Ino>)
    requires OwnSteps(h0, g, gaps) && CodeConfined(g, h, own, into)
    requires own <= Claimed(h0, g) && into <= {h0.disk.base} + Claimed(h0, g)
    ensures OwnSteps(h0, h, gaps)
  {
    if h != g {
      OwnThrough(h0, g, h.prev, gaps, own, into);
      OwnExtends(h0, g, gaps);
      ConfinedExtends(g, h.prev, own, into);
      ClaimedGrows(h0, g, h.prev);
      if h.step != Environment {
        OwnStep(h0, h.prev, gaps, h.step, h.disk, own, into);
      } else {
        OwnPause(h0, h.prev, gaps, h.step, h.disk);
      }
    }
  }

  /** Without gaps the whole run is confined to what it has claimed by its end. */
  lemma {:induction false} OwnConfined(h0: History, h: History, all: set<Ino>)
    requires OwnSteps(h0, h, false) && Claimed(h0, h) <= all
    ensures CodeConfined(h0, h, all, {h0.disk.base} + all)
  {
    if h != h0 { OwnConfined(h0, h.prev, all); }
  }

  /** What the run created it claims. */
  lemma {:induction false} MadeClaimed(h0: History, h: History, p: Path)
    ensures MadeAt(h0, h, p).Some? ==> MadeAt(h0, h, p).value in Claimed(h0, h)
  {
    if h != h0 && h.Then? { MadeClaimed(h0, h.prev, p); }
  }

  // -------------------------------------------------------------------------
  // The gaps, exactly
  // -------------------------------------------------------------------------

  /** The move renames whatever is at the staging name over whatever is at the
      evidence name.  It touches only the run's own inodes exactly when both are
      its own (or the evidence name is free). */
  lemma MoveConfinedIff(d: Disk, e: Disk, top: Name, own: set<Ino>)
    requires d.Valid() && d.Rename(Join(Base, top), EVIDENCE_PATH) == Success(e) && top != EVIDENCE
    requires d.Entry(d.base, top) != d.Entry(d.base, EVIDENCE)
    ensures d.Entry(d.base, top).Some?
    ensures Confined(d, e, own, {d.base} + own) <==>
      && d.Entry(d.base, top).value in own
      && (d.Entry(d.base, EVIDENCE).Some? ==> d.Entry(d.base, EVIDENCE).value in own)
  {
    BaseOld(d);
    RenamedTop(d, e, top, EVIDENCE, d.Entry(d.base, top).value);
    if Confined(d, e, own, {d.base} + own) {
      assert e.Entry(d.base, top) != d.Entry(d.base, top);
      assert e.Entry(d.base, EVIDENCE) == d.Entry(d.base, top);
    }
  }

  /** The manifest name is taken away when `stat` finds the owned file there.
      `stat` follows a symbolic link and the removal does not, so the name
      removed is the run's own exactly when it is no link. */
  lemma ManifestConfinedIff(d: Disk, e: Disk, m: Ino, own: set<Ino>)
    requires d.Valid() && d.Follow(MANIFEST_PATH) == Some(m) && m in own && d.Unlink(MANIFEST_PATH) == Success(e)
    requires forall i | i in own && i in d.nodes :: !d.nodes[i].Symlink?
    ensures Confined(d, e, own, {d.base} + own) <==> d.Lookup(MANIFEST_PATH) == Some(m)
  {
    BaseOld(d);
    var i := d.Lookup(MANIFEST_PATH).value;
    assert d.Entry(d.base, MANIFEST) == Some(i) && e.Entry(d.base, MANIFEST).None?;
    assert i in d.nodes;
  }
}
