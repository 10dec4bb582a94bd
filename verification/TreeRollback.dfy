/** Identity snapshots of a staged tree, and the deepest-first removal of what
    is still owned (commander-native-tool-benchmark-v2-prepare.ts). */
module TreeRollback {
  import opened Outcomes
  import opened FileSystem
  import opened Reliance
  import opened Lifecycle

  /** A place below the tree's root, as the names that lead to it. */
  type Rel = seq<Name>

  /** The identity recorded for one entry of the tree. */
  datatype Owned = Owned(rel: Rel, ino: Ino, isDir: bool)

  function Below(root: Path, rel: Rel): Path {
    if rel == [] then root else Join(Below(root, rel[..|rel| - 1]), rel[|rel| - 1])
  }

  /** Where the names lead from directory `r`, entry by entry. */
  function Walk(d: Disk, r: Ino, rel: Rel): Option<Ino> {
    if rel == [] then Some(r)
    else
      match Walk(d, r, rel[..|rel| - 1])
      case None => None
      case Some(x) => d.Entry(x, rel[|rel| - 1])
  }

  /** The place holds the entry that was recorded there. */
  ghost predicate OwnedAt(d: Disk, r: Ino, tree: seq<Owned>, rel: Rel) {
    exists o | o in tree :: o.rel == rel && Walk(d, r, rel) == Some(o.ino)
  }

  // -------------------------------------------------------------------------
  // Places are unique
  // -------------------------------------------------------------------------

  lemma {:induction false} WalkStep(d: Disk, r: Ino, rel: Rel, n: Name)
    ensures Walk(d, r, rel + [n]) == if Walk(d, r, rel).None? then None else d.Entry(Walk(d, r, rel).value, n)
  {
    assert (rel + [n])[..|rel|] == rel;
  }

  /** The root of a tree that has a name in the run directory is not inside itself. */
  lemma {:induction false} RootOnlyAtTop(d: Disk, r: Ino, top: Name, rel: Rel)
    requires d.Valid() && d.Entry(d.base, top) == Some(r) && d.IsDir(r)
    ensures Walk(d, r, rel) != Some(d.base)
    ensures Walk(d, r, rel) == Some(r) ==> rel == []
  {
    if rel != [] {
      RootOnlyAtTop(d, r, top, rel[..|rel| - 1]);
    }
  }

  /** A directory has one place in the tree. */
  lemma {:induction false} OnePlace(d: Disk, r: Ino, top: Name, p: Rel, q: Rel)
    requires d.Valid() && d.Entry(d.base, top) == Some(r) && d.IsDir(r)
    requires Walk(d, r, p).Some? && Walk(d, r, p) == Walk(d, r, q) && d.IsDir(Walk(d, r, p).value)
    ensures p == q
  {
    RootOnlyAtTop(d, r, top, p);
    RootOnlyAtTop(d, r, top, q);
    if p != [] && q != [] {
      var x, y := Walk(d, r, p[..|p| - 1]).value, Walk(d, r, q[..|q| - 1]).value;
      assert d.Entry(x, p[|p| - 1]) == d.Entry(y, q[|q| - 1]);
      OnePlace(d, r, top, p[..|p| - 1], q[..|q| - 1]);
      assert p == p[..|p| - 1] + [p[|p| - 1]] && q == q[..|q| - 1] + [q[|q| - 1]];
    }
  }

  lemma PrefixCases(a: Rel, b: Rel)
    requires b != []
    ensures a <= b <==> a == b || a <= b[..|b| - 1]
  {
    assert b == b[..|b| - 1] + [b[|b| - 1]];
  }

  /** Taking away the name at one place changes only what lies at or below it. */
  lemma {:induction false} UnbindWalk(d: Disk, r: Ino, top: Name, gone: Rel, rel: Rel)
    requires d.Valid() && d.Entry(d.base, top) == Some(r) && d.IsDir(r)
    requires gone != [] && Walk(d, r, gone).Some?
    ensures Walk(d, r, gone[..|gone| - 1]).Some? && d.IsDir(Walk(d, r, gone[..|gone| - 1]).value)
    ensures var after := d.Unbind(Walk(d, r, gone[..|gone| - 1]).value, gone[|gone| - 1]);
      Walk(after, r, rel) == if gone <= rel then None else Walk(d, r, rel)
  {
    var x, n := Walk(d, r, gone[..|gone| - 1]).value, gone[|gone| - 1];
    if rel != [] {
      var up, m := rel[..|rel| - 1], rel[|rel| - 1];
      UnbindWalk(d, r, top, gone, up);
      PrefixCases(gone, rel);
      assert rel == up + [m] && gone == gone[..|gone| - 1] + [n];
      if !(gone <= up) && Walk(d, r, up) == Some(x) {
        OnePlace(d, r, top, up, gone[..|gone| - 1]);
        assert m == n <==> gone == rel;
      }
    }
  }

  // -------------------------------------------------------------------------
  // Paths
  // -------------------------------------------------------------------------

  /** No directory on the way to a recorded place is a symbolic link. */
  ghost predicate Straight(d: Disk, r: Ino, rel: Rel) {
    rel != [] ==>
      && Straight(d, r, rel[..|rel| - 1])
      && (Walk(d, r, rel[..|rel| - 1]).Some? && Walk(d, r, rel[..|rel| - 1]).value in d.nodes ==>
            !d.nodes[Walk(d, r, rel[..|rel| - 1]).value].Symlink?)
  }

  /** Then the path names what the names lead to. */
  lemma {:induction false} StraightLookup(d: Disk, root: Path, r: Ino, rel: Rel)
    requires d.DirAt(root) == Some(r) && Straight(d, r, rel)
    ensures rel != [] ==> d.Lookup(Below(root, rel)) == Walk(d, r, rel)
    ensures rel != [] && Walk(d, r, rel).Some? ==>
      d.DirAt(Below(root, rel[..|rel| - 1])) == Walk(d, r, rel[..|rel| - 1])
  {
    if rel != [] {
      var up := rel[..|rel| - 1];
      StraightLookup(d, root, r, up);
      assert Below(root, rel) == Join(Below(root, up), rel[|rel| - 1]);
      var p := Below(root, up);
      if up == [] {
        assert d.DirAt(p) == Walk(d, r, up);
      } else if d.Lookup(p).Some? {
        var x := d.Lookup(p).value;
        assert Walk(d, r, up) == Some(x);
        assert d.DirAt(p) == if d.IsDir(x) then Some(x) else None;
      } else {
        assert d.DirAt(p).None?;
      }
      assert d.Lookup(Join(p, rel[|rel| - 1])) == Walk(d, r, rel);
    }
  }

  // -------------------------------------------------------------------------
  // The deepest-first pass
  // -------------------------------------------------------------------------

  predicate DeepestFirst(tree: seq<Owned>) {
    forall i, j | 0 <= i < j < |tree| :: |tree[i].rel| >= |tree[j].rel|
  }

  predicate DistinctPlaces(tree: seq<Owned>) {
    forall i, j | 0 <= i < j < |tree| :: tree[i].rel != tree[j].rel
  }

  /** Put one entry before the first that is not deeper. */
  function InsertByDepth(sorted: seq<Owned>, o: Owned): seq<Owned> {
    if sorted == [] || |o.rel| >= |sorted[0].rel| then [o] + sorted
    else [sorted[0]] + InsertByDepth(sorted[1..], o)
  }

  function SortByDepth(tree: seq<Owned>): seq<Owned> {
    if tree == [] then [] else InsertByDepth(SortByDepth(tree[1..]), tree[0])
  }

  lemma {:induction false} InsertAdds(sorted: seq<Owned>, o: Owned)
    ensures multiset(InsertByDepth(sorted, o)) == multiset(sorted) + multiset{o}
    ensures forall x :: x in InsertByDepth(sorted, o) <==> x == o || x in sorted
  {
    if sorted != [] && |o.rel| < |sorted[0].rel| {
      InsertAdds(sorted[1..], o);
      assert sorted == [sorted[0]] + sorted[1..];
    }
  }

  lemma {:induction false} InsertSorted(sorted: seq<Owned>, o: Owned)
    requires DeepestFirst(sorted)
    ensures DeepestFirst(InsertByDepth(sorted, o))
  {
    if sorted != [] && |o.rel| < |sorted[0].rel| {
      var r := InsertByDepth(sorted[1..], o);
      InsertSorted(sorted[1..], o);
      InsertAdds(sorted[1..], o);
      forall i | 0 <= i < |r| ensures |sorted[0].rel| >= |r[i].rel| {
        assert r[i] in r;
      }
    }
  }

  /** Sorting reorders the entries, the deepest first. */
  lemma {:induction false} SortByDepthSorts(tree: seq<Owned>)
    ensures DeepestFirst(SortByDepth(tree)) && multiset(SortByDepth(tree)) == multiset(tree)
    ensures forall o :: o in SortByDepth(tree) <==> o in tree
  {
    if tree != [] {
      SortByDepthSorts(tree[1..]);
      InsertSorted(SortByDepth(tree[1..]), tree[0]);
      InsertAdds(SortByDepth(tree[1..]), tree[0]);
      assert tree == [tree[0]] + tree[1..];
    }
  }

  lemma {:induction false} SortKeepsPlaces(tree: seq<Owned>)
    requires DistinctPlaces(tree)
    ensures DistinctPlaces(SortByDepth(tree))
  {
    if tree != [] {
      var rest := tree[1..];
      SortKeepsPlaces(rest);
      SortByDepthSorts(rest);
      InsertKeepsPlaces(SortByDepth(rest), tree[0]);
    }
  }

  lemma {:induction false} InsertKeepsPlaces(sorted: seq<Owned>, o: Owned)
    requires DistinctPlaces(sorted) && forall x | x in sorted :: x.rel != o.rel
    ensures DistinctPlaces(InsertByDepth(sorted, o))
    ensures forall x :: x in InsertByDepth(sorted, o) <==> x == o || x in sorted
  {
    if sorted == [] || |o.rel| >= |sorted[0].rel| {
    } else {
      InsertKeepsPlaces(sorted[1..], o);
      var r := InsertByDepth(sorted[1..], o);
      forall i | 0 <= i < |r| ensures sorted[0].rel != r[i].rel {
        assert r[i] in r;
      }
    }
  }

  /** The tree's root is a directory that has the name `top` in the run directory. */
  ghost predicate Rooted(d: Disk, r: Ino, top: Name) {
    d.Valid() && d.Entry(d.base, top) == Some(r) && d.IsDir(r)
  }

  /** One step of the pass: an entry still at its place goes, a directory only
      when it is empty. */
  function SweepStep(d: Disk, r: Ino, o: Owned): Disk {
    if o.rel == [] || Walk(d, r, o.rel) != Some(o.ino) then d
    else
      var x := Walk(d, r, o.rel[..|o.rel| - 1]).value;
      if !d.IsDir(x) || (d.IsDir(o.ino) && !d.Empty(o.ino)) then d
      else d.Unbind(x, o.rel[|o.rel| - 1])
  }

  /** The whole pass. */
  function Sweep(d: Disk, r: Ino, tree: seq<Owned>): Disk {
    if tree == [] then d
    else SweepStep(Sweep(d, r, tree[..|tree| - 1]), r, tree[|tree| - 1])
  }

  /** Something at or below the place is not owned. */
  ghost predicate Held(d: Disk, r: Ino, tree: seq<Owned>, rel: Rel) {
    Walk(d, r, rel).Some? && exists below :: rel <= below && Walk(d, r, below).Some? && !OwnedAt(d, r, tree, below)
  }

  /** What is left of the tree is exactly what is not owned, and the directories
      above it. */
  ghost predicate Exact(before: Disk, after: Disk, r: Ino, tree: seq<Owned>) {
    forall rel | rel != [] ::
      Walk(after, r, rel) == if Held(before, r, tree, rel) then Walk(before, r, rel) else None
  }

  lemma {:induction false} WalkPrefix(d: Disk, r: Ino, up: Rel, rel: Rel)
    requires up <= rel && Walk(d, r, rel).Some?
    ensures Walk(d, r, up).Some?
  {
    if up != rel {
      assert up <= rel[..|rel| - 1];
      WalkPrefix(d, r, up, rel[..|rel| - 1]);
    } else {
      assert up == rel;
    }
  }

  /** Whether the extra entry counts as owned. */
  lemma {:induction false} OwnedMore(d: Disk, r: Ino, tree: seq<Owned>, o: Owned, rel: Rel)
    ensures OwnedAt(d, r, tree + [o], rel) <==> OwnedAt(d, r, tree, rel) || (o.rel == rel && Walk(d, r, rel) == Some(o.ino))
  {
    if OwnedAt(d, r, tree, rel) {
      var p :| p in tree && p.rel == rel && Walk(d, r, rel) == Some(p.ino);
      assert p in tree + [o];
    }
    if o.rel == rel && Walk(d, r, rel) == Some(o.ino) { assert o in tree + [o]; }
  }

  lemma HeldMono(d: Disk, r: Ino, tree: seq<Owned>, o: Owned, rel: Rel)
    requires Held(d, r, tree + [o], rel)
    ensures Held(d, r, tree, rel)
  {
    var below :| rel <= below && Walk(d, r, below).Some? && !OwnedAt(d, r, tree + [o], below);
    OwnedMore(d, r, tree, o, below);
  }

  lemma {:induction false} HeldBy(d: Disk, r: Ino, tree: seq<Owned>, rel: Rel, below: Rel)
    requires rel <= below && Walk(d, r, below).Some? && !OwnedAt(d, r, tree, below)
    ensures Held(d, r, tree, rel)
  {
    WalkPrefix(d, r, rel, below);
  }

  /** An entry not at its place, when the pass comes to it, makes no difference. */
  lemma {:induction false} MissingExact(d0: Disk, d: Disk, r: Ino, done: seq<Owned>, o: Owned)
    requires Exact(d0, d, r, done) && DistinctPlaces(done + [o])
    requires o.rel == [] || Walk(d, r, o.rel) != Some(o.ino)
    ensures Exact(d0, d, r, done + [o])
  {
    forall rel | rel != [] ensures Held(d0, r, done + [o], rel) <==> Held(d0, r, done, rel) {
      if Held(d0, r, done + [o], rel) { HeldMono(d0, r, done, o, rel); }
      if Held(d0, r, done, rel) {
        var below :| rel <= below && Walk(d0, r, below).Some? && !OwnedAt(d0, r, done, below);
        OwnedMore(d0, r, done, o, below);
        if OwnedAt(d0, r, done + [o], below) { HeldBy(d0, r, done, o.rel, o.rel); }
        HeldBy(d0, r, done + [o], rel, below);
      }
    }
  }

  /** Nor does a directory that something still lies in. */
  lemma {:induction false} FullExact(d0: Disk, d: Disk, r: Ino, done: seq<Owned>, o: Owned, m: Name)
    requires Exact(d0, d, r, done) && o.rel != [] && Walk(d, r, o.rel) == Some(o.ino) && d.Entry(o.ino, m).Some?
    ensures Exact(d0, d, r, done + [o])
  {
    var child := o.rel + [m];
    WalkStep(d, r, o.rel, m);
    assert Held(d0, r, done, child);
    var survivor :| child <= survivor && Walk(d0, r, survivor).Some? && !OwnedAt(d0, r, done, survivor);
    OwnedMore(d0, r, done, o, survivor);
    forall rel | rel != [] ensures Held(d0, r, done + [o], rel) <==> Held(d0, r, done, rel) {
      if Held(d0, r, done + [o], rel) { HeldMono(d0, r, done, o, rel); }
      if Held(d0, r, done, rel) {
        var below :| rel <= below && Walk(d0, r, below).Some? && !OwnedAt(d0, r, done, below);
        OwnedMore(d0, r, done, o, below);
        if OwnedAt(d0, r, done + [o], below) {
          assert rel <= o.rel <= survivor;
          HeldBy(d0, r, done + [o], rel, survivor);
        } else {
          HeldBy(d0, r, done + [o], rel, below);
        }
      }
    }
  }

  /** An entry at its place with nothing beneath it goes. */
  lemma {:induction false} GoneExact(d0: Disk, d: Disk, r: Ino, top: Name, done: seq<Owned>, o: Owned)
    requires Rooted(d, r, top) && Exact(d0, d, r, done) && DistinctPlaces(done + [o]) && DeepestFirst(done + [o])
    requires o.rel != [] && Walk(d, r, o.rel) == Some(o.ino) && forall m :: d.Entry(o.ino, m).None?
    ensures Walk(d, r, o.rel[..|o.rel| - 1]).Some? && d.IsDir(Walk(d, r, o.rel[..|o.rel| - 1]).value)
    ensures Exact(d0, d.Unbind(Walk(d, r, o.rel[..|o.rel| - 1]).value, o.rel[|o.rel| - 1]), r, done + [o])
  {
    hide Held, Walk, OwnedAt, DeepestFirst, DistinctPlaces;
    UnbindWalk(d, r, top, o.rel, o.rel);
    var after := d.Unbind(Walk(d, r, o.rel[..|o.rel| - 1]).value, o.rel[|o.rel| - 1]);
    assert Walk(d0, r, o.rel) == Some(o.ino);
    forall rel | rel != []
      ensures Walk(after, r, rel) == if Held(d0, r, done + [o], rel) then Walk(d0, r, rel) else None
    {
      UnbindWalk(d, r, top, o.rel, rel);
      if o.rel <= rel {
        if Held(d0, r, done + [o], rel) { NothingBeneath(d0, d, r, done, o, rel); }
      } else {
        if Held(d0, r, done + [o], rel) { HeldMono(d0, r, done, o, rel); }
        if Held(d0, r, done, rel) { AncestorHeld(d0, r, done, o, rel); }
      }
    }
  }

  lemma {:induction false} NothingBeneath(d0: Disk, d: Disk, r: Ino, done: seq<Owned>, o: Owned, rel: Rel)
    requires Exact(d0, d, r, done) && o.rel != [] && o.rel <= rel
    requires Walk(d, r, o.rel) == Some(o.ino) == Walk(d0, r, o.rel) && forall m :: d.Entry(o.ino, m).None?
    ensures !Held(d0, r, done + [o], rel)
  {
    forall below | rel <= below && Walk(d0, r, below).Some? ensures OwnedAt(d0, r, done + [o], below) {
      OwnedMore(d0, r, done, o, below);
      if below != o.rel && !OwnedAt(d0, r, done, below) { ChildHeld(d0, d, r, done, o.rel, o.ino, below); }
    }
  }

  lemma {:induction false} ChildHeld(d0: Disk, d: Disk, r: Ino, done: seq<Owned>, rel: Rel, i: Ino, below: Rel)
    requires Exact(d0, d, r, done) && Walk(d, r, rel) == Some(i)
    requires rel <= below && rel != below && Walk(d0, r, below).Some? && !OwnedAt(d0, r, done, below)
    ensures exists m :: d.Entry(i, m).Some?
  {
    hide Walk, OwnedAt;
    var m := below[|rel|];
    assert rel + [m] <= below;
    HeldBy(d0, r, done, rel + [m], below);
    WalkPrefix(d0, r, rel + [m], below);
    WalkStep(d, r, rel, m);
  }

  /** A shallower place is not among those the pass has come to. */
  lemma AncestorHeld(d0: Disk, r: Ino, done: seq<Owned>, o: Owned, rel: Rel)
    requires Held(d0, r, done, rel) && !(o.rel <= rel) && DeepestFirst(done + [o])
    ensures Held(d0, r, done + [o], rel)
  {
    var below :| rel <= below && Walk(d0, r, below).Some? && !OwnedAt(d0, r, done, below);
    OwnedMore(d0, r, done, o, below);
    if OwnedAt(d0, r, done + [o], below) {
      assert |rel| < |o.rel|;
      var all := done + [o];
      assert all[|done|] == o;
      forall p | p in all ensures |p.rel| >= |o.rel| {
        var i :| 0 <= i < |all| && all[i] == p;
      }
      HeldBy(d0, r, done + [o], rel, rel);
    } else {
      HeldBy(d0, r, done + [o], rel, below);
    }
  }

  /** Nothing outside the tree changes, names only go, and what has gone is
      empty; no bytes and no kinds change. */
  ghost predicate Elsewhere(before: Disk, after: Disk, r: Ino) {
    && after.base == before.base
    && (forall x: Ino, n: Name | after.Entry(x, n) != before.Entry(x, n) ::
          after.Entry(x, n).None? && exists rel :: Walk(before, r, rel) == Some(x))
    && (forall rel, n | Walk(before, r, rel).Some? && Walk(after, r, rel).None? ::
          after.Entry(Walk(before, r, rel).value, n).None?)
    && (forall i :: after.Content(i) == before.Content(i) && after.KindOf(i) == before.KindOf(i))
    && (forall i | i in after.nodes :: i in before.nodes && (after.nodes[i].Symlink? ==> before.nodes[i].Symlink?))
  }

  lemma SweepStepRooted(d: Disk, r: Ino, top: Name, o: Owned)
    requires Rooted(d, r, top)
    ensures Rooted(SweepStep(d, r, o), r, top)
  {
    var after := SweepStep(d, r, o);
    if after != d {
      var x, n := Walk(d, r, o.rel[..|o.rel| - 1]).value, o.rel[|o.rel| - 1];
      RootOnlyAtTop(d, r, top, o.rel[..|o.rel| - 1]);
      UnbindValid(d, x, n);
      assert after.KindOf(r) == d.KindOf(r);
    }
  }

  lemma SweepStepExact(d0: Disk, d: Disk, r: Ino, top: Name, done: seq<Owned>, o: Owned)
    requires Rooted(d, r, top) && Exact(d0, d, r, done) && DistinctPlaces(done + [o]) && DeepestFirst(done + [o])
    ensures Exact(d0, SweepStep(d, r, o), r, done + [o])
  {
    hide Exact, Rooted, DistinctPlaces, DeepestFirst, Disk.Valid;
    if o.rel == [] || Walk(d, r, o.rel) != Some(o.ino) {
      MissingExact(d0, d, r, done, o);
    } else if m :| d.Entry(o.ino, m).Some? {
      FullExact(d0, d, r, done, o, m);
    } else {
      GoneExact(d0, d, r, top, done, o);
      if d.IsDir(o.ino) { EmptyDir(d, o.ino); }
    }
  }

  /** The pass leaves exactly what is held by something foreign. */
  lemma {:induction false} SweepExact(d: Disk, r: Ino, top: Name, tree: seq<Owned>)
    requires Rooted(d, r, top) && DistinctPlaces(tree) && DeepestFirst(tree)
    ensures var after := Sweep(d, r, tree); Rooted(after, r, top) && Exact(d, after, r, tree)
  {
    if tree == [] {
      forall rel | rel != [] ensures Held(d, r, [], rel) <==> Walk(d, r, rel).Some? {
        if Walk(d, r, rel).Some? { assert !OwnedAt(d, r, [], rel); }
      }
    } else {
      var done, o := tree[..|tree| - 1], tree[|tree| - 1];
      assert tree == done + [o];
      SweepExact(d, r, top, done);
      SweepStepExact(d, Sweep(d, r, done), r, top, done, o);
      SweepStepRooted(Sweep(d, r, done), r, top, o);
    }
  }

  lemma {:induction false} SweepElsewhere(d: Disk, r: Ino, top: Name, tree: seq<Owned>)
    requires Rooted(d, r, top) && DistinctPlaces(tree) && DeepestFirst(tree)
    ensures Elsewhere(d, Sweep(d, r, tree), r)
  {
    hide Rooted, Disk.Valid, Elsewhere;
    if tree == [] {
      NothingElsewhere(d, r);
    } else {
      var done, o := tree[..|tree| - 1], tree[|tree| - 1];
      assert tree == done + [o];
      SweepElsewhere(d, r, top, done);
      SweepExact(d, r, top, done);
      StepElsewhere(d, Sweep(d, r, done), r, top, done, o);
    }
  }

  lemma NothingElsewhere(d: Disk, r: Ino)
    ensures Elsewhere(d, d, r)
  {}

  lemma StepElsewhere(before: Disk, d: Disk, r: Ino, top: Name, done: seq<Owned>, o: Owned)
    requires Rooted(d, r, top) && Exact(before, d, r, done) && Elsewhere(before, d, r)
    ensures Elsewhere(before, SweepStep(d, r, o), r)
  {
    hide Exact, Disk.Valid, Walk;
    var after := SweepStep(d, r, o);
    if after != d {
      var up := o.rel[..|o.rel| - 1];
      UnbindWalk(d, r, top, o.rel, o.rel);
      StillThere(before, d, r, done, up);
      forall x: Ino, n: Name | after.Entry(x, n) != before.Entry(x, n)
        ensures after.Entry(x, n).None? && exists rel :: Walk(before, r, rel) == Some(x)
      {
        if x == Walk(d, r, up).value { assert Walk(before, r, up) == Some(x); }
      }
      forall rel, n | Walk(before, r, rel).Some? && Walk(after, r, rel).None?
        ensures after.Entry(Walk(before, r, rel).value, n).None?
      {
        if Walk(d, r, rel).Some? {
          StillThere(before, d, r, done, rel);
          UnbindWalk(d, r, top, o.rel, rel);
          NothingUnder(d, r, o, rel, n);
        }
      }
    }
  }

  lemma {:induction false} StepTakesLeaf(d: Disk, r: Ino, o: Owned)
    requires SweepStep(d, r, o) != d
    ensures o.rel != [] && Walk(d, r, o.rel) == Some(o.ino) && forall m :: d.Entry(o.ino, m).None?
  {}

  /** What the step takes away had nothing in it. */
  lemma {:induction false} NothingUnder(d: Disk, r: Ino, o: Owned, rel: Rel, n: Name)
    requires SweepStep(d, r, o) != d && o.rel <= rel && Walk(d, r, rel).Some?
    ensures d.Entry(Walk(d, r, rel).value, n).None?
  {
    hide Walk, SweepStep;
    StepTakesLeaf(d, r, o);
    if rel != o.rel {
      var m := rel[|o.rel|];
      assert o.rel + [m] <= rel;
      WalkPrefix(d, r, o.rel + [m], rel);
      WalkStep(d, r, o.rel, m);
      assert false;
    }
  }

  lemma {:induction false} StillThere(before: Disk, after: Disk, r: Ino, tree: seq<Owned>, rel: Rel)
    requires Exact(before, after, r, tree) && Walk(after, r, rel).Some?
    ensures Walk(before, r, rel) == Walk(after, r, rel)
  {}

  /** A tree that is owned throughout goes down to its root, and what was in it
      ends empty too. */
  lemma {:induction false} WhollyOwnedGoes(before: Disk, after: Disk, r: Ino, top: Name, tree: seq<Owned>)
    requires Exact(before, after, r, tree) && Rooted(after, r, top) && Elsewhere(before, after, r)
    requires forall rel | rel != [] && Walk(before, r, rel).Some? :: OwnedAt(before, r, tree, rel)
    ensures after.Empty(r)
    ensures forall rel, n | Walk(before, r, rel).Some? :: after.Entry(Walk(before, r, rel).value, n).None?
  {
    hide Disk.Valid, OwnedAt;
    forall n ensures after.Entry(r, n).None? {
      var rel: Rel := [n];
      assert rel == [] + [n];
      WalkStep(after, r, [], n);
      NotHeld(before, r, tree, rel);
      assert Walk(after, r, rel) == None;
    }
    EmptyDir(after, r);
    forall rel, n | Walk(before, r, rel).Some? ensures after.Entry(Walk(before, r, rel).value, n).None? {
      if rel == [] {
        assert Walk(before, r, []) == Some(r) by { AtTop(before, r); }
      } else {
        NotHeld(before, r, tree, rel);
        assert Walk(after, r, rel) == None;
      }
    }
  }

  lemma {:induction false} AtTop(d: Disk, r: Ino)
    ensures Walk(d, r, []) == Some(r)
  {}

  lemma {:induction false} NotHeld(d: Disk, r: Ino, tree: seq<Owned>, rel: Rel)
    requires rel != [] && forall p | p != [] && Walk(d, r, p).Some? :: OwnedAt(d, r, tree, p)
    ensures !Held(d, r, tree, rel)
  {
    hide Walk, OwnedAt;
  }

  /** A foreign entry survives, and so does every directory above it. */
  lemma {:induction false} ForeignSurvives(before: Disk, after: Disk, r: Ino, tree: seq<Owned>, rel: Rel, up: Rel)
    requires Exact(before, after, r, tree) && up <= rel
    requires Walk(before, r, rel).Some? && !OwnedAt(before, r, tree, rel)
    ensures Walk(after, r, up) == Walk(before, r, up)
  {
    if up != [] { HeldBy(before, r, tree, up, rel); }
  }

  /** An owned entry survives only as a directory that something survives in. */
  lemma {:induction false} OwnedSurvivesOnlyAbove(before: Disk, after: Disk, r: Ino, tree: seq<Owned>, rel: Rel)
    requires Exact(before, after, r, tree) && rel != [] && OwnedAt(before, r, tree, rel) && Walk(after, r, rel).Some?
    ensures after.IsDir(Walk(after, r, rel).value) && !after.Empty(Walk(after, r, rel).value)
  {
    hide Walk, OwnedAt, Exact;
    assert Held(before, r, tree, rel) by { StillHeld(before, after, r, tree, rel); }
    var below :| rel <= below && Walk(before, r, below).Some? && !OwnedAt(before, r, tree, below);
    assert below != rel;
    var m := below[|rel|];
    var child := rel + [m];
    assert child <= below;
    WalkPrefix(before, r, child, below);
    ForeignSurvives(before, after, r, tree, below, child);
    WalkStep(after, r, rel, m);
  }

  lemma {:induction false} StillHeld(before: Disk, after: Disk, r: Ino, tree: seq<Owned>, rel: Rel)
    requires Exact(before, after, r, tree) && rel != [] && Walk(after, r, rel).Some?
    ensures Held(before, r, tree, rel)
  {}

  // -------------------------------------------------------------------------
  // The pass over the live filesystem
  // -------------------------------------------------------------------------

  /** What an entry's record needs for the pass to see it as the record does: no
      symbolic link on the way, and the kind it was recorded with. */
  ghost predicate Recorded(d: Disk, r: Ino, o: Owned) {
    && Straight(d, r, o.rel)
    && (Walk(d, r, o.rel) == Some(o.ino) ==> o.isDir == d.IsDir(o.ino))
  }

  ghost predicate TreeOk(d: Disk, root: Path, r: Ino, top: Name, tree: seq<Owned>) {
    && root == Join(Base, top) && Rooted(d, r, top) && DistinctPlaces(tree)
    && forall o | o in tree :: Recorded(d, r, o)
  }

  lemma RootedPath(d: Disk, r: Ino, top: Name)
    requires Rooted(d, r, top)
    ensures d.DirAt(Join(Base, top)) == Some(r)
  {
    assert d.Follow(Base) == Some(d.base) && d.DirAt(Base) == Some(d.base);
    assert d.Lookup(Join(Base, top)) == Some(r);
    assert d.Follow(Join(Base, top)) == Some(r);
  }

  /** What is recorded stays so when the tree shrinks. */
  lemma {:induction false} ShrunkStraight(before: Disk, after: Disk, r: Ino, rel: Rel)
    requires Straight(before, r, rel)
    requires forall p :: Walk(after, r, p) == None || Walk(after, r, p) == Walk(before, r, p)
    requires forall i | i in after.nodes :: i in before.nodes && (after.nodes[i].Symlink? ==> before.nodes[i].Symlink?)
    ensures Straight(after, r, rel)
  {
    if rel != [] { ShrunkStraight(before, after, r, rel[..|rel| - 1]); }
  }

  lemma {:induction false} SweepStepShrinks(d: Disk, r: Ino, top: Name, o: Owned, p: Rel)
    requires Rooted(d, r, top)
    ensures Walk(SweepStep(d, r, o), r, p) == None || Walk(SweepStep(d, r, o), r, p) == Walk(d, r, p)
  {
    if SweepStep(d, r, o) != d { UnbindWalk(d, r, top, o.rel, p); }
  }

  lemma SweepStepOk(d: Disk, root: Path, r: Ino, top: Name, tree: seq<Owned>, o: Owned)
    requires TreeOk(d, root, r, top, tree)
    ensures TreeOk(SweepStep(d, r, o), root, r, top, tree)
  {
    hide Walk, Straight, DistinctPlaces, Rooted;
    var after := SweepStep(d, r, o);
    SweepStepRooted(d, r, top, o);
    forall p ensures Walk(after, r, p) == None || Walk(after, r, p) == Walk(d, r, p) {
      SweepStepShrinks(d, r, top, o, p);
    }
    SweepStepKinds(d, r, o);
    forall x | x in tree ensures Recorded(after, r, x) {
      ShrunkStraight(d, after, r, x.rel);
    }
  }

  lemma SweepStepKinds(d: Disk, r: Ino, o: Owned)
    ensures var after := SweepStep(d, r, o);
      && (forall i | i in after.nodes :: i in d.nodes && (after.nodes[i].Symlink? ==> d.nodes[i].Symlink?))
      && (forall i :: after.IsDir(i) == d.IsDir(i))
  {}

  /** The step is what `lstat`, the comparison and the removal do. */
  lemma {:induction false} StepByPath(d: Disk, root: Path, r: Ino, top: Name, o: Owned)
    requires root == Join(Base, top) && Rooted(d, r, top) && Recorded(d, r, o) && o.rel != []
    ensures d.Lookup(Below(root, o.rel)) == Walk(d, r, o.rel)
    ensures Walk(d, r, o.rel) == Some(o.ino) ==>
      if o.isDir then d.Rmdir(Below(root, o.rel)) == (if d.Empty(o.ino) then Success(SweepStep(d, r, o)) else Failure(ENOTEMPTY))
                      && (!d.Empty(o.ino) ==> SweepStep(d, r, o) == d)
      else d.Unlink(Below(root, o.rel)) == Success(SweepStep(d, r, o))
  {
    hide Disk.Valid;
    RootedPath(d, r, top);
    StraightLookup(d, root, r, o.rel);
    assert Below(root, o.rel) == Join(Below(root, o.rel[..|o.rel| - 1]), o.rel[|o.rel| - 1]);
  }

  /** One iteration: anything that goes wrong leaves the entry. */
  method RemoveEntry(fs: FileSystem, root: Path, o: Owned, ghost h0: History, ghost own: set<Ino>,
                     ghost into: set<Ino>, ghost r: Ino, ghost top: Name)
    requires fs.Valid() && o.rel != [] && o.ino in own && CodeConfined(h0, fs.history, own, into)
    modifies fs
    ensures fs.Valid() && fs.clock >= old(fs.clock) && CodeConfined(h0, fs.history, own, into)
    ensures Removing(old(fs.history), fs.history)
    ensures fs.disk.base == old(fs.disk).base && fs.disk.next == old(fs.disk).next
    ensures fs.disk.Lookup(root) in {None, old(fs.disk).Lookup(root)}
    ensures forall i :: fs.disk.KindOf(i) == old(fs.disk).KindOf(i)
    ensures
      && fs.Reliable(old(fs.clock)) && root == Join(Base, top)
      && Rooted(old(fs.disk), r, top) && Recorded(old(fs.disk), r, o)
      ==> fs.disk == SweepStep(old(fs.disk), r, o)
  {
    hide Disk.Valid, Sound, CodeConfined, Recorded, SweepStep, Walk, Rooted, FileSystem.Played, Disk.Lookup, Disk.Rmdir,
         Disk.Unlink, Disk.KindOf, Admissible, Removing;
    ghost var h := fs.history;
    var full := Below(root, o.rel);
    NothingRemoved(h);
    assert full == Join(Below(root, o.rel[..|o.rel| - 1]), o.rel[|o.rel| - 1]);
    if root == Join(Base, top) && Rooted(fs.disk, r, top) && Recorded(fs.disk, r, o) {
      StepByPath(fs.disk, root, r, top, o);
      if Walk(fs.disk, r, o.rel) != Some(o.ino) { SkippedStep(fs.disk, r, o); }
    }
    var current := fs.Lstat(full);
    if current.Some? && current.value.ino == o.ino {
      var failed;
      if o.isDir {
        failed := fs.Rmdir(full);
      } else {
        failed := fs.Unlink(full);
      }
      if failed.None? { RemovedEntry(h0, h, fs.history, own, into, full, root, o.ino); }
    }
  }

  /** An entry of an own inode has lost its name. */
  lemma {:induction false} RemovedEntry(h0: History, h: History, h2: History, own: set<Ino>, into: set<Ino>, full: Path,
                                        root: Path, i: Ino)
    requires CodeConfined(h0, h, own, into) && h.disk.Valid() && h.disk.Lookup(full) == Some(i) && i in own
    requires
      || (h2 == Then(h, Step.Rmdir(full), h2.disk) && h.disk.Rmdir(full) == Success(h2.disk))
      || (h2 == Then(h, Step.Unlink(full), h2.disk) && h.disk.Unlink(full) == Success(h2.disk))
    ensures CodeConfined(h0, h2, own, into) && Removing(h, h2)
    ensures h2.disk.base == h.disk.base && h2.disk.next == h.disk.next
    ensures h2.disk.Lookup(root) in {None, h.disk.Lookup(root)}
    ensures forall j :: h2.disk.KindOf(j) == h.disk.KindOf(j)
  {
    hide Disk.Valid, CodeConfined;
    ConfinedStep(h0, h, own, into, h2.step, h2.disk);
    UnbindLookup(h.disk, h.disk.DirAt(full.parent).value, full.name, root);
  }

  lemma {:induction false} SkippedStep(d: Disk, r: Ino, o: Owned)
    requires Walk(d, r, o.rel) != Some(o.ino)
    ensures SweepStep(d, r, o) == d
  {}

  /** Identity-verified removal of an owned tree, the root excepted.  Whatever
      the disk looks like, only entries with a recorded inode go.  When no call
      fails for a reason of its own, exactly the owned part goes. */
  method RemoveOwnedTree(fs: FileSystem, root: Path, tree: seq<Owned>, ghost h0: History, ghost own: set<Ino>,
                         ghost into: set<Ino>, ghost r: Ino, ghost top: Name)
    requires fs.Valid() && CodeConfined(h0, fs.history, own, into) && forall o | o in tree :: o.ino in own
    modifies fs
    ensures fs.Valid() && fs.clock >= old(fs.clock) && CodeConfined(h0, fs.history, own, into)
    ensures Removing(old(fs.history), fs.history)
    ensures fs.disk.base == old(fs.disk).base && fs.disk.next == old(fs.disk).next
    ensures fs.disk.Lookup(root) in {None, old(fs.disk).Lookup(root)}
    ensures forall i :: fs.disk.KindOf(i) == old(fs.disk).KindOf(i)
    ensures fs.Reliable(old(fs.clock)) && TreeOk(old(fs.disk), root, r, top, tree) ==>
      && Rooted(fs.disk, r, top) && Exact(old(fs.disk), fs.disk, r, tree) && Elsewhere(old(fs.disk), fs.disk, r)
  {
    hide Disk.Valid, Sound, CodeConfined, Recorded, SweepStep, Walk, Rooted, Exact, Elsewhere, Removing,
         FileSystem.Played;
    ghost var start := fs.history;
    NothingRemoved(start);
    var rels := SortByDepth(tree);
    SortByDepthSorts(tree);
    ghost var d := fs.disk;
    ghost var exact := fs.Reliable(fs.clock) && TreeOk(d, root, r, top, tree);
    assert rels[..0] == [];
    for i := 0 to |rels|
      invariant fs.Valid() && fs.clock >= old(fs.clock) && CodeConfined(h0, fs.history, own, into)
      invariant Removing(start, fs.history)
      invariant fs.disk.base == d.base && fs.disk.next == d.next && fs.disk.Lookup(root) in {None, d.Lookup(root)}
      invariant forall j :: fs.disk.KindOf(j) == d.KindOf(j)
      invariant exact ==> TreeOk(fs.disk, root, r, top, tree) && fs.disk == Sweep(d, r, rels[..i])
    {
      assert rels[..i + 1] == rels[..i] + [rels[i]];
      if exact { SweepStepOk(fs.disk, root, r, top, tree, rels[i]); SweepMore(d, r, rels[..i], rels[i]); }
      if rels[i].rel != [] {
        assert rels[i] in rels;
        ghost var h := fs.history;
        RemoveEntry(fs, root, rels[i], h0, own, into, r, top);
        RemovingTransitive(start, h, fs.history);
      }
    }
    assert rels[..|rels|] == rels;
    if exact {
      SortKeepsPlaces(tree);
      SweepExact(d, r, top, rels);
      SweepElsewhere(d, r, top, rels);
      SameOwned(d, fs.disk, r, rels, tree);
    }
  }

  lemma {:induction false} SweepMore(d: Disk, r: Ino, done: seq<Owned>, o: Owned)
    ensures Sweep(d, r, done + [o]) == SweepStep(Sweep(d, r, done), r, o)
    ensures o.rel == [] ==> SweepStep(Sweep(d, r, done), r, o) == Sweep(d, r, done)
  {
    assert (done + [o])[..|done + [o]| - 1] == done;
  }

  /** Only which entries are recorded matters, not their order. */
  lemma SameOwned(before: Disk, after: Disk, r: Ino, a: seq<Owned>, b: seq<Owned>)
    requires Exact(before, after, r, a) && forall o :: o in a <==> o in b
    ensures Exact(before, after, r, b)
  {
    forall rel ensures OwnedAt(before, r, a, rel) <==> OwnedAt(before, r, b, rel) {}
    forall rel ensures Held(before, r, a, rel) <==> Held(before, r, b, rel) {}
  }

  // -------------------------------------------------------------------------
  // Taking the snapshot
  // -------------------------------------------------------------------------

  /** `tree` records exactly what lies at or below `dir`, whose place is `at`,
      under the names `names` of `dir`. */
  ghost predicate CapturesUnder(d: Disk, dir: Ino, at: Rel, tree: seq<Owned>, names: set<Name>) {
    && DistinctPlaces(tree)
    && (forall o | o in tree ::
          && at <= o.rel && Walk(d, dir, o.rel[|at|..]) == Some(o.ino) && o.isDir == d.IsDir(o.ino)
          && (o.rel != at ==> o.rel[|at|] in names))
    && (forall rel | Walk(d, dir, rel).Some? && (rel != [] ==> rel[0] in names) ::
          exists o | o in tree :: o.rel == at + rel && Walk(d, dir, rel) == Some(o.ino))
  }

  ghost predicate Captures(d: Disk, dir: Ino, at: Rel, tree: seq<Owned>) {
    CapturesUnder(d, dir, at, tree, if d.IsDir(dir) then d.nodes[dir].entries.Keys else {})
  }

  /** Nothing lies `height` or more names below `i`. */
  ghost predicate Shallow(d: Disk, i: Ino, height: nat) {
    forall rel | Walk(d, i, rel).Some? :: |rel| < height
  }

  /** From a child, the names after the first lead on. */
  lemma {:induction false} WalkChild(d: Disk, dir: Ino, n: Name, rel: Rel)
    ensures Walk(d, dir, [n] + rel) == if d.Entry(dir, n).None? then None else Walk(d, d.Entry(dir, n).value, rel)
  {
    var all := [n] + rel;
    if rel == [] {
      assert all == [n] && all[..0] == [];
      assert Walk(d, dir, all) == d.Entry(dir, n);
    } else {
      WalkChild(d, dir, n, rel[..|rel| - 1]);
      assert all[..|all| - 1] == [n] + rel[..|rel| - 1];
    }
  }

  lemma ShallowChild(d: Disk, dir: Ino, n: Name, height: nat)
    requires Shallow(d, dir, height) && d.Entry(dir, n).Some?
    ensures height > 0 && Shallow(d, d.Entry(dir, n).value, height - 1)
  {
    assert Walk(d, dir, []).Some?;
    forall rel | Walk(d, d.Entry(dir, n).value, rel).Some? ensures |rel| < height - 1 {
      WalkChild(d, dir, n, rel);
      assert |[n] + rel| < height;
    }
  }

  lemma CapturesRoot(d: Disk, dir: Ino, at: Rel)
    ensures CapturesUnder(d, dir, at, [Owned(at, dir, d.IsDir(dir))], {})
  {
    var tree := [Owned(at, dir, d.IsDir(dir))];
    assert at[|at|..] == [];
    forall rel | Walk(d, dir, rel).Some? && (rel != [] ==> rel[0] in {})
      ensures exists o | o in tree :: o.rel == at + rel && Walk(d, dir, rel) == Some(o.ino)
    {
      assert rel == [] && at + rel == at && tree[0] in tree;
    }
  }

  /** A child's snapshot completes what lies under its name. */
  lemma CapturesMore(d: Disk, dir: Ino, at: Rel, tree: seq<Owned>, names: set<Name>, n: Name, sub: seq<Owned>)
    requires CapturesUnder(d, dir, at, tree, names) && n !in names
    requires d.Entry(dir, n).Some? && Captures(d, d.Entry(dir, n).value, at + [n], sub)
    ensures CapturesUnder(d, dir, at, tree + sub, names + {n})
  {
    hide Walk;
    var child, all := d.Entry(dir, n).value, tree + sub;
    forall o | o in sub
      ensures at <= o.rel && o.rel != at && o.rel[|at|] == n && Walk(d, dir, o.rel[|at|..]) == Some(o.ino)
    {
      WalkChild(d, dir, n, o.rel[|at| + 1..]);
      assert o.rel[|at|..] == [n] + o.rel[|at| + 1..];
    }
    forall i, j | 0 <= i < j < |all| ensures all[i].rel != all[j].rel {
      if i < |tree| <= j {
        assert all[i] == tree[i] && all[j] == sub[j - |tree|];
        assert tree[i] in tree && sub[j - |tree|] in sub;
      } else if |tree| <= i {
        assert all[i] == sub[i - |tree|] && all[j] == sub[j - |tree|];
      }
    }
    forall rel | Walk(d, dir, rel).Some? && (rel != [] ==> rel[0] in names + {n})
      ensures exists o | o in all :: o.rel == at + rel && Walk(d, dir, rel) == Some(o.ino)
    {
      if rel != [] && rel[0] == n {
        CapturedBelow(d, dir, at, n, sub, rel);
      } else {
        var o :| o in tree && o.rel == at + rel && Walk(d, dir, rel) == Some(o.ino);
        assert o in all;
      }
    }
  }

  lemma {:induction false} CapturedBelow(d: Disk, dir: Ino, at: Rel, n: Name, sub: seq<Owned>, rel: Rel)
    requires d.Entry(dir, n).Some? && Captures(d, d.Entry(dir, n).value, at + [n], sub)
    requires rel != [] && rel[0] == n && Walk(d, dir, rel).Some?
    ensures exists o | o in sub :: o.rel == at + rel && Walk(d, dir, rel) == Some(o.ino)
  {
    hide Walk, CapturesUnder;
    var child, rest := d.Entry(dir, n).value, rel[1..];
    assert rel == [n] + rest;
    WalkChild(d, dir, n, rest);
    var o := CapturedOne(d, child, at + [n], sub, rest);
    assert at + [n] + rest == at + rel;
  }

  /** Every place below is recorded. */
  lemma CapturedOne(d: Disk, dir: Ino, at: Rel, tree: seq<Owned>, rel: Rel) returns (o: Owned)
    requires Captures(d, dir, at, tree) && Walk(d, dir, rel).Some?
    ensures o in tree && o.rel == at + rel && Walk(d, dir, rel) == Some(o.ino)
  {
    hide Walk, DistinctPlaces;
    if rel != [] {
      WalkChild(d, dir, rel[0], rel[1..]);
      assert rel == [rel[0]] + rel[1..];
    }
    o :| o in tree && o.rel == at + rel && Walk(d, dir, rel) == Some(o.ino);
  }

  lemma {:induction false} ChildPath(d: Disk, path: Path, i: Ino, n: Name)
    requires d.DirAt(path) == Some(i)
    ensures d.IsDir(i) && d.Lookup(Join(path, n)) == d.Entry(i, n)
  {}

  /** Record the entry at `path` and, if it is a directory, everything in it. */
  method Capture(fs: FileSystem, path: Path, at: Rel, ghost i: Ino, ghost height: nat)
    returns (ok: bool, tree: seq<Owned>)
    requires fs.Valid() && fs.disk.Lookup(path) == Some(i) && Shallow(fs.disk, i, height)
    modifies fs`clock
    decreases height
    ensures fs.Valid() && fs.clock >= old(fs.clock)
    ensures ok ==> Captures(fs.disk, i, at, tree)
    // It fails at the first call that fails for a reason of its own.
    ensures if ok then fs.Smooth(old(fs.clock), fs.clock)
            else fs.clock > old(fs.clock) && fs.Smooth(old(fs.clock), fs.clock - 1) && fs.faulty(fs.clock - 1)
  {
    hide Disk.Valid, Sound, CapturesUnder, Walk, Shallow, FileSystem.Played, Disk.DirAt, Disk.Follow,
         FileSystem.Smooth, DistinctPlaces;
    ghost var from := fs.clock;
    fs.SmoothOne(from);
    tree := [];
    var id := fs.Lstat(path);
    if id.None? { return false, tree; }
    tree := [Owned(at, id.value.ino, id.value.kind == DirectoryKind)];
    ok := true;
    CapturesRoot(fs.disk, i, at);
    if id.value.kind != DirectoryKind { return; }
    LstatDirectory(fs.disk, path, id.value);
    fs.SmoothOne(fs.clock);
    var names := fs.ReadDir(path);
    if names.None? { return false, tree; }
    fs.SmoothOn(from, from + 1, fs.clock);
    var left := names.value;
    assert names.value - left == {};
    while left != {}
      invariant fs.Valid() && fs.clock >= old(fs.clock) && ok
      invariant left <= names.value == fs.disk.nodes[i].entries.Keys
      invariant fs.Smooth(from, fs.clock)
      invariant CapturesUnder(fs.disk, i, at, tree, names.value - left)
    {
      var n :| n in left;
      ShallowChild(fs.disk, i, n, height);
      ChildPath(fs.disk, path, i, n);
      var sub;
      ghost var via := fs.clock;
      ok, sub := Capture(fs, Join(path, n), at + [n], fs.disk.Entry(i, n).value, height - 1);
      fs.SmoothOn(from, via, if ok then fs.clock else fs.clock - 1);
      if !ok { return; }
      CapturesMore(fs.disk, i, at, tree, names.value - left, n, sub);
      tree := tree + sub;
      assert names.value - left + {n} == names.value - (left - {n});
      left := left - {n};
    }
    assert names.value - left == names.value;
  }

  /** A tree just captured is owned throughout. */
  lemma {:induction false} CapturedOwned(d: Disk, r: Ino, tree: seq<Owned>)
    requires Captures(d, r, [], tree)
    ensures DistinctPlaces(tree)
    ensures forall rel | Walk(d, r, rel).Some? :: OwnedAt(d, r, tree, rel)
    ensures forall o | o in tree :: Walk(d, r, o.rel) == Some(o.ino) && o.isDir == d.IsDir(o.ino)
  {
    forall rel | Walk(d, r, rel).Some? ensures OwnedAt(d, r, tree, rel) {
      var o := CapturedOne(d, r, [], tree, rel);
      assert [] + rel == rel;
    }
    forall o | o in tree ensures Walk(d, r, o.rel) == Some(o.ino) {
      assert o.rel[0..] == o.rel;
    }
  }
}
