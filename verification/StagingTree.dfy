/** The run directory while evidence is prepared: what it looks like when nothing
    disturbs it, and how the staged tree grows
    (commander-native-tool-benchmark-v2-prepare.ts). */
module StagingTree {
  import opened Outcomes
  import opened FileSystem
  import opened Reliance
  import opened Lifecycle
  import opened TreeRollback
  import opened Text

  const EVIDENCE: Name := "commander-native-tool-benchmark-v2"
  const MANIFEST: Name := "commander-native-tool-benchmark-v2-manifest.json"
  const EVIDENCE_PATH := Join(Base, EVIDENCE)
  const MANIFEST_PATH := Join(Base, MANIFEST)

  /** The call a failure of the file system itself names. */
  datatype Syscall = MKDIR | MKDIRS | OPEN | WRITE | READ | RENAME | SCAN

  datatype PrepareError =
    | EXISTING_OUTPUT | IO_ERROR | STAGE_VERIFY | BASENAME_UNSAFE | HookThrew
    | Raw(call: Syscall)

  /** One entry to stage: a directory, or a file with its bytes.  `verified`
      files are read back before the commit, `fixture` files after it. */
  datatype Item = Item(rel: Rel, content: Option<Bytes>, verified: bool, fixture: bool)

  function Folder(rel: Rel): Item {
    Item(rel, None, false, false)
  }

  /** The directories on the way to a place, and the one at it. */
  function FoldersTo(rel: Rel): seq<Item> {
    if rel == [] then [] else FoldersTo(rel[..|rel| - 1]) + [Folder(rel)]
  }

  /** One step of the population: an entry of its own, or a directory with
      whatever directories are missing above it. */
  datatype Task = Single(item: Item) | Folders(rel: Rel) {
    function Place(): Rel {
      if Single? then item.rel else rel
    }

    function Items(): seq<Item> {
      if Single? then [item] else FoldersTo(rel)
    }
  }

  function Entries(tasks: seq<Task>): seq<Item> {
    if tasks == [] then [] else Entries(tasks[..|tasks| - 1]) + tasks[|tasks| - 1].Items()
  }

  // -------------------------------------------------------------------------
  // The run directory while evidence is prepared
  // -------------------------------------------------------------------------

  /** Undisturbed, the disk is `d0` with the names `names` added to the run
      directory, and new directories that all lie in the tree below `s`. */
  ghost predicate Layout(d0: Disk, d: Disk, s: Ino, names: map<Name, Ino>) {
    && d0.Valid() && d.Valid() && d.base == d0.base && d0.next <= d.next && d0.next <= s
    && (forall n | n in names :: d0.Entry(d0.base, n).None? && names[n] >= d0.next)
    && (forall x: Ino, n: Name | x < d0.next ::
          d.Entry(x, n) == if x == d0.base && n in names then Some(names[n]) else d0.Entry(x, n))
    && (forall x: Ino, n: Name | x >= d0.next && d.Entry(x, n).Some? ::
          d.Entry(x, n).value >= d0.next && exists rel :: Walk(d, s, rel) == Some(x))
    && (forall i | i >= d0.next && i in d.nodes :: !d.nodes[i].Symlink?)
  }

  lemma BaseOld(d: Disk)
    requires d.Valid()
    ensures d.base < d.next && d.DirAt(Base) == Some(d.base)
  {
    assert d.Follow(Base) == Some(d.base);
  }

  /** Places in the tree are new inodes. */
  lemma {:induction false} WalkNew(d0: Disk, d: Disk, s: Ino, names: map<Name, Ino>, rel: Rel)
    requires Layout(d0, d, s, names)
    ensures Walk(d, s, rel).Some? ==> Walk(d, s, rel).value >= d0.next
  {
    if rel != [] { WalkNew(d0, d, s, names, rel[..|rel| - 1]); }
  }

  /** The tree does not see the run directory. */
  lemma {:induction false} WalkSame(d: Disk, e: Disk, s: Ino, low: Ino, rel: Rel)
    requires s >= low && forall x: Ino, n: Name | x >= low :: e.Entry(x, n) == d.Entry(x, n)
    requires forall x: Ino, n: Name | x >= low && d.Entry(x, n).Some? :: d.Entry(x, n).value >= low
    ensures Walk(e, s, rel) == Walk(d, s, rel)
    ensures Walk(d, s, rel).Some? ==> Walk(d, s, rel).value >= low
  {
    if rel != [] { WalkSame(d, e, s, low, rel[..|rel| - 1]); }
  }

  /** A change of names in the run directory alone. */
  lemma {:induction false} TopChange(d0: Disk, d: Disk, e: Disk, s: Ino, names: map<Name, Ino>, names': map<Name, Ino>)
    requires Layout(d0, d, s, names) && e.Valid() && e.base == d.base && d.next <= e.next
    requires forall n | n in names' :: d0.Entry(d0.base, n).None? && names'[n] >= d0.next
    requires forall x: Ino, n: Name | x != d.base :: e.Entry(x, n) == d.Entry(x, n)
    requires forall n :: e.Entry(d.base, n) == if n in names' then Some(names'[n]) else d0.Entry(d.base, n)
    requires forall i | i in e.nodes && e.nodes[i].Symlink? :: i in d.nodes && d.nodes[i].Symlink?
    ensures Layout(d0, e, s, names')
    ensures forall rel :: Walk(e, s, rel) == Walk(d, s, rel)
  {
    BaseOld(d0);
    forall rel ensures Walk(e, s, rel) == Walk(d, s, rel) { WalkSame(d, e, s, d0.next, rel); }
    forall x: Ino, n: Name | x >= d0.next && e.Entry(x, n).Some? ensures exists rel :: Walk(e, s, rel) == Some(x) {
      var rel :| Walk(d, s, rel) == Some(x);
      assert Walk(e, s, rel) == Some(x);
    }
  }

  lemma LayoutTop(d0: Disk, d: Disk, s: Ino, names: map<Name, Ino>, n: Name)
    requires Layout(d0, d, s, names)
    ensures d.Lookup(Join(Base, n)) == (if n in names then Some(names[n]) else d0.Entry(d0.base, n))
    ensures d.Entry(d.base, n) == (if n in names then Some(names[n]) else d0.Entry(d0.base, n))
    ensures n in names ==> d.Follow(Join(Base, n)) == Some(names[n])
  {
    BaseOld(d0);
    BaseOld(d);
  }

  /** A new directory or file at the top. */
  lemma {:induction false} MakeTop(d0: Disk, d: Disk, e: Disk, s: Ino, names: map<Name, Ino>, n: Name)
    requires Layout(d0, d, s, names)
    requires d.Mkdir(Join(Base, n)) == Success(e) || d.Create(Join(Base, n)) == Success(e)
    ensures Layout(d0, e, s, names[n := d.next]) && n !in names && d0.Entry(d0.base, n).None?
    ensures forall rel :: Walk(e, s, rel) == Walk(d, s, rel)
  {
    hide Layout, Disk.Valid;
    LayoutTop(d0, d, s, names, n);
    LayoutBase(d0, d, s, names);
    MadeAtTop(d, e, n);
    forall k ensures e.Entry(d.base, k) == if k in names[n := d.next] then Some(names[n := d.next][k]) else d0.Entry(d.base, k) {
      LayoutTop(d0, d, s, names, k);
    }
    TopChange(d0, d, e, s, names, names[n := d.next]);
  }

  lemma MadeAtTop(d: Disk, e: Disk, n: Name)
    requires d.Valid() && (d.Mkdir(Join(Base, n)) == Success(e) || d.Create(Join(Base, n)) == Success(e))
    ensures e.Valid() && e.base == d.base && e.next == d.next + 1 && d.Entry(d.base, n).None?
    ensures forall x: Ino, k: Name :: e.Entry(x, k) == if x == d.base && k == n then Some(d.next) else d.Entry(x, k)
    ensures forall i | i in e.nodes && e.nodes[i].Symlink? :: i in d.nodes && d.nodes[i].Symlink?
  {
    BaseOld(d);
    if d.Mkdir(Join(Base, n)) == Success(e) {
      MkdirFacts(d, Join(Base, n));
      NewEntryValid(d, d.base, n, Dir(map[]));
      FreshEmpty(d, e, n);
    } else {
      CreateFacts(d, Join(Base, n));
      NewEntryValid(d, d.base, n, File([]));
    }
  }

  lemma FreshEmpty(d: Disk, e: Disk, n: Name)
    requires d.Valid() && d.Mkdir(Join(Base, n)) == Success(e)
    ensures forall k :: e.Entry(d.next, k) == d.Entry(d.next, k)
  {
    MkdirFacts(d, Join(Base, n));
    EmptyEntries(e, d.next);
  }

  lemma LayoutBase(d0: Disk, d: Disk, s: Ino, names: map<Name, Ino>)
    requires Layout(d0, d, s, names)
    ensures d0.Valid() && d.Valid() && d.base == d0.base && d0.next <= d.next && d0.next <= s
    ensures forall n | n in names :: d0.Entry(d0.base, n).None? && names[n] >= d0.next
  {}

  lemma RenamedTop(d: Disk, e: Disk, from: Name, to: Name, s: Ino)
    requires d.Valid() && d.Entry(d.base, from) == Some(s) && d.Entry(d.base, to) != Some(s)
    requires d.Rename(Join(Base, from), Join(Base, to)) == Success(e)
    ensures e.Valid() && e.base == d.base && e.next == d.next
    ensures forall x: Ino, k: Name ::
      e.Entry(x, k) == if x == d.base && k == to then Some(s) else if x == d.base && k == from then None else d.Entry(x, k)
    ensures forall i :: e.Content(i) == d.Content(i) && e.KindOf(i) == d.KindOf(i)
    ensures forall i | i in e.nodes && e.nodes[i].Symlink? :: i in d.nodes && d.nodes[i].Symlink?
  {
    hide Disk.Valid;
    BaseOld(d);
    RenameValid(d, Join(Base, from), Join(Base, to));
    assert e == d.Unbind(d.base, from).Bind(d.base, to, s);
  }

  /** The staged tree takes the place of the empty reserved directory. */
  lemma {:induction false} MoveTop(d0: Disk, d: Disk, e: Disk, s: Ino, names: map<Name, Ino>, from: Name, to: Name)
    requires Layout(d0, d, s, names) && from in names && names[from] == s && from != to
    requires to in names && names[to] != s && d.Rename(Join(Base, from), Join(Base, to)) == Success(e)
    ensures Layout(d0, e, s, (names - {from})[to := s])
    ensures forall rel :: Walk(e, s, rel) == Walk(d, s, rel)
    ensures forall i :: e.Content(i) == d.Content(i) && e.KindOf(i) == d.KindOf(i)
  {
    hide Layout, Disk.Valid;
    LayoutTop(d0, d, s, names, from);
    LayoutTop(d0, d, s, names, to);
    LayoutBase(d0, d, s, names);
    BaseOld(d);
    RenamedTop(d, e, from, to, s);
    var names' := (names - {from})[to := s];
    forall k ensures e.Entry(d.base, k) == if k in names' then Some(names'[k]) else d0.Entry(d.base, k) {
      LayoutTop(d0, d, s, names, k);
    }
    TopChange(d0, d, e, s, names, names');
  }

  /** Taking a name away at the top. */
  lemma {:induction false} DropTop(d0: Disk, d: Disk, s: Ino, names: map<Name, Ino>, n: Name)
    requires Layout(d0, d, s, names) && n in names
    ensures d.IsDir(d.base) && Layout(d0, d.Unbind(d.base, n), s, names - {n})
    ensures forall rel :: Walk(d.Unbind(d.base, n), s, rel) == Walk(d, s, rel)
  {
    hide Layout, Disk.Valid;
    LayoutBase(d0, d, s, names);
    BaseOld(d);
    UnbindValid(d, d.base, n);
    var e := d.Unbind(d.base, n);
    forall k ensures e.Entry(d.base, k) == if k in names - {n} then Some((names - {n})[k]) else d0.Entry(d.base, k) {
      LayoutTop(d0, d, s, names, k);
    }
    TopChange(d0, d, e, s, names, names - {n});
  }

  /** No new directory has anything in it. */
  ghost predicate NewEmpty(d0: Disk, d: Disk) {
    forall x: Ino, n: Name | x >= d0.next :: d.Entry(x, n).None?
  }

  /** Nothing is left of the tree, and the rest is as it was. */
  lemma {:induction false} TreeGone(d0: Disk, d: Disk, e: Disk, s: Ino, names: map<Name, Ino>, top: Name,
                                    tree: seq<Owned>)
    requires Layout(d0, d, s, names) && Elsewhere(d, e, s) && Exact(d, e, s, tree) && Rooted(e, s, top)
      && d.next <= e.next
    requires forall rel | Walk(d, s, rel).Some? :: OwnedAt(d, s, tree, rel)
    requires forall i | i in e.nodes && e.nodes[i].Symlink? :: i in d.nodes && d.nodes[i].Symlink?
    ensures Layout(d0, e, s, names) && e.Empty(s) && NewEmpty(d0, e)
  {
    hide Exact, OwnedAt, Disk.Valid, Walk;
    WhollyOwnedGoes(d, e, s, top, tree);
    forall x: Ino, n: Name ensures e.Entry(x, n) == if x >= d0.next then None else d.Entry(x, n) {
      if x >= d0.next && d.Entry(x, n).Some? {
        var rel :| Walk(d, s, rel) == Some(x);
        assert e.Entry(Walk(d, s, rel).value, n).None?;
      }
      if x < d0.next && e.Entry(x, n) != d.Entry(x, n) {
        var rel :| Walk(d, s, rel) == Some(x);
        WalkNew(d0, d, s, names, rel);
      }
    }
  }

  // -------------------------------------------------------------------------
  // Building the tree
  // -------------------------------------------------------------------------

  /** The tree is what the first items describe. */
  ghost predicate TreeIs(d: Disk, s: Ino, items: seq<Item>) {
    && d.IsDir(s)
    && (forall rel | rel != [] && Walk(d, s, rel).Some? :: exists item | item in items :: item.rel == rel)
    && (forall item | item in items ::
          Walk(d, s, item.rel).Some? && d.Content(Walk(d, s, item.rel).value) == item.content
          && (item.content.None? ==> d.IsDir(Walk(d, s, item.rel).value)))
  }

  lemma LastSplit(rel: Rel, up: Rel, n: Name)
    requires rel != []
    ensures rel == up + [n] <==> rel[..|rel| - 1] == up && rel[|rel| - 1] == n
  {
    assert rel == rel[..|rel| - 1] + [rel[|rel| - 1]];
  }

  /** A new entry `i` named `n` in the directory at place `up`. */
  lemma {:induction false} GrowWalk(d: Disk, e: Disk, s: Ino, top: Name, up: Rel, n: Name, i: Ino, rel: Rel)
    requires Rooted(d, s, top) && s != i && forall k :: d.Entry(i, k).None?
    requires Walk(d, s, up).Some? && Walk(d, s, up).value != i && d.IsDir(Walk(d, s, up).value)
    requires d.Entry(Walk(d, s, up).value, n).None?
    requires forall x: Ino, k: Name ::
      e.Entry(x, k) == if x == Walk(d, s, up).value && k == n then Some(i) else d.Entry(x, k)
    ensures Walk(e, s, rel) == if rel == up + [n] then Some(i) else Walk(d, s, rel)
  {
    hide Disk.Valid;
    if rel != [] {
      var before, last := rel[..|rel| - 1], rel[|rel| - 1];
      GrowWalk(d, e, s, top, up, n, i, before);
      LastSplit(rel, up, n);
      if before == up + [n] {
        WalkStep(d, s, up, n);
      } else if Walk(d, s, before) == Walk(d, s, up) {
        OnePlace(d, s, top, before, up);
      }
    }
  }

  lemma {:induction false} LayoutStraight(d0: Disk, d: Disk, s: Ino, names: map<Name, Ino>, rel: Rel)
    requires Layout(d0, d, s, names)
    ensures Straight(d, s, rel)
  {
    if rel != [] {
      LayoutStraight(d0, d, s, names, rel[..|rel| - 1]);
      WalkNew(d0, d, s, names, rel[..|rel| - 1]);
    }
  }

  lemma LayoutRooted(d0: Disk, d: Disk, s: Ino, names: map<Name, Ino>, top: Name)
    requires Layout(d0, d, s, names) && top in names && d.IsDir(names[top])
    ensures Rooted(d, names[top], top) && d.DirAt(Join(Base, top)) == Some(names[top])
  {
    LayoutTop(d0, d, s, names, top);
    RootedPath(d, names[top], top);
  }

  /** The directory a path below the tree's root leads to. */
  lemma {:induction false} TreeDirAt(d0: Disk, d: Disk, s: Ino, names: map<Name, Ino>, top: Name, up: Rel)
    requires Layout(d0, d, s, names) && top in names && names[top] == s && d.IsDir(s)
    ensures d.DirAt(Below(Join(Base, top), up)) ==
              if Walk(d, s, up).Some? && d.IsDir(Walk(d, s, up).value) then Walk(d, s, up) else None
    ensures up != [] ==> d.Lookup(Below(Join(Base, top), up)) == Walk(d, s, up)
  {
    LayoutRooted(d0, d, s, names, top);
    LayoutStraight(d0, d, s, names, up);
    StraightLookup(d, Join(Base, top), s, up);
    WalkNew(d0, d, s, names, up);
    if up != [] {
      var p := Below(Join(Base, top), up);
      assert d.Follow(p) == Walk(d, s, up);
    } else {
      assert Below(Join(Base, top), up) == Join(Base, top);
    }
  }

  lemma {:induction false} GrowLayout(d0: Disk, d: Disk, e: Disk, s: Ino, names: map<Name, Ino>, top: Name, up: Rel,
                                      n: Name, i: Ino)
    requires Layout(d0, d, s, names) && Rooted(d, s, top) && i == d.next && e.Valid() && e.base == d.base
      && d.next <= e.next
    requires Walk(d, s, up).Some? && d.IsDir(Walk(d, s, up).value) && d.Entry(Walk(d, s, up).value, n).None?
    requires forall x: Ino, k: Name ::
      e.Entry(x, k) == if x == Walk(d, s, up).value && k == n then Some(i) else d.Entry(x, k)
    requires forall j | j in e.nodes && e.nodes[j].Symlink? :: j in d.nodes && d.nodes[j].Symlink?
    ensures Layout(d0, e, s, names)
    ensures forall rel :: Walk(e, s, rel) == if rel == up + [n] then Some(i) else Walk(d, s, rel)
  {
    hide Walk, Straight;
    var x := Walk(d, s, up).value;
    assert x != i && s != i && forall k :: d.Entry(i, k).None?;
    forall rel ensures Walk(e, s, rel) == if rel == up + [n] then Some(i) else Walk(d, s, rel) {
      GrowWalk(d, e, s, top, up, n, i, rel);
    }
    WalkNew(d0, d, s, names, up);
    forall x': Ino, k: Name | x' >= d0.next && e.Entry(x', k).Some?
      ensures e.Entry(x', k).value >= d0.next && exists rel :: Walk(e, s, rel) == Some(x')
    {
      GrowReach(d0, d, e, s, names, up, n, i, x', k);
    }
  }

  lemma {:induction false} GrowReach(d0: Disk, d: Disk, e: Disk, s: Ino, names: map<Name, Ino>, up: Rel, n: Name,
                                     i: Ino, x: Ino, k: Name)
    requires Layout(d0, d, s, names) && i >= d0.next && Walk(d, s, up).Some? && d.Entry(Walk(d, s, up).value, n).None?
    requires e.Entry(x, k) == if x == Walk(d, s, up).value && k == n then Some(i) else d.Entry(x, k)
    requires forall rel :: Walk(e, s, rel) == if rel == up + [n] then Some(i) else Walk(d, s, rel)
    requires x >= d0.next && e.Entry(x, k).Some?
    ensures e.Entry(x, k).value >= d0.next && exists rel :: Walk(e, s, rel) == Some(x)
  {
    hide Walk, Disk.Valid;
    WalkStep(d, s, up, n);
    assert |up| != |up + [n]|;
    if x == Walk(d, s, up).value && k == n {
      assert Walk(e, s, up) == Some(x);
    } else {
      assert d.Entry(x, k).Some?;
      var rel :| Walk(d, s, rel) == Some(x);
      assert Walk(e, s, rel) == Some(x);
    }
  }

  /** The tree with one item more. */
  lemma {:induction false} GrowItems(d: Disk, e: Disk, s: Ino, items: seq<Item>, item: Item, i: Ino)
    requires TreeIs(d, s, items) && Walk(d, s, item.rel).None? && item.rel != []
    requires forall rel :: Walk(e, s, rel) == if rel == item.rel then Some(i) else Walk(d, s, rel)
    requires forall j | j != i :: e.Content(j) == d.Content(j) && e.KindOf(j) == d.KindOf(j)
    requires e.Content(i) == item.content && (item.content.None? ==> e.IsDir(i))
    requires s != i && forall rel | Walk(d, s, rel).Some? :: Walk(d, s, rel).value != i
    ensures TreeIs(e, s, items + [item])
  {
    hide Walk;
    var all := items + [item];
    assert item in all;
    forall rel | rel != [] && Walk(e, s, rel).Some? ensures exists it | it in all :: it.rel == rel {
      if rel != item.rel {
        var it :| it in items && it.rel == rel;
        assert it in all;
      }
    }
    assert e.KindOf(s) == d.KindOf(s);
    forall it | it in all
      ensures Walk(e, s, it.rel).Some? && e.Content(Walk(e, s, it.rel).value) == it.content
      ensures it.content.None? ==> e.IsDir(Walk(e, s, it.rel).value)
    {
      if it in items {
        var j := Walk(d, s, it.rel).value;
        assert e.KindOf(j) == d.KindOf(j);
      }
    }
  }

  /** A directory of the tree may be listed again. */
  lemma {:induction false} ListedAgain(d: Disk, s: Ino, items: seq<Item>, rel: Rel)
    requires TreeIs(d, s, items) && Walk(d, s, rel).Some? && d.IsDir(Walk(d, s, rel).value)
    ensures TreeIs(d, s, items + [Folder(rel)])
  {
    hide Walk;
    var all := items + [Folder(rel)];
    forall p | p != [] && Walk(d, s, p).Some? ensures exists item | item in all :: item.rel == p {
      var item :| item in items && item.rel == p;
      assert item in all;
    }
  }

  lemma {:induction false} FoldersAgain(d: Disk, s: Ino, items: seq<Item>, rel: Rel)
    requires TreeIs(d, s, items) && Walk(d, s, rel).Some? && d.IsDir(Walk(d, s, rel).value)
    ensures TreeIs(d, s, items + FoldersTo(rel))
  {
    if rel == [] {
      assert items + FoldersTo(rel) == items;
    } else {
      var up := rel[..|rel| - 1];
      assert d.Entry(Walk(d, s, up).value, rel[|rel| - 1]).Some?;
      FoldersAgain(d, s, items, up);
      ListedAgain(d, s, items + FoldersTo(up), rel);
      assert items + FoldersTo(rel) == items + FoldersTo(up) + [Folder(rel)];
    }
  }

  /** Every entry of the tree was made by this run. */
  ghost predicate Mine(d: Disk, s: Ino, made: set<Ino>) {
    forall rel | Walk(d, s, rel).Some? :: Walk(d, s, rel).value in made
  }

  /** What creating an entry at path `p` does, whether directory or file. */
  lemma CreatedAt(d: Disk, e: Disk, p: Path)
    requires d.Valid() && (d.Mkdir(p) == Success(e) || d.Create(p) == Success(e))
    ensures p.Join? && d.DirAt(p.parent).Some? && d.Entry(d.DirAt(p.parent).value, p.name).None?
    ensures d.IsDir(d.DirAt(p.parent).value)
    ensures e.Valid() && e.base == d.base && e.next == d.next + 1
    ensures forall x: Ino, k: Name ::
      e.Entry(x, k) == if x == d.DirAt(p.parent).value && k == p.name then Some(d.next) else d.Entry(x, k)
    ensures forall j | j in e.nodes && e.nodes[j].Symlink? :: j in d.nodes && d.nodes[j].Symlink?
    ensures forall j | j != d.next :: e.Content(j) == d.Content(j) && e.KindOf(j) == d.KindOf(j)
    ensures forall k :: d.Entry(d.next, k).None?
    ensures d.Mkdir(p) == Success(e) ==> e.IsDir(d.next) && e.Content(d.next).None?
    ensures d.Create(p) == Success(e) ==> e.Content(d.next) == Some([])
    ensures Confined(d, e, {}, {d.DirAt(p.parent).value})
  {
    var dir := d.DirAt(p.parent).value;
    if d.Mkdir(p) == Success(e) {
      MkdirFacts(d, p);
      NewEntryValid(d, dir, p.name, Dir(map[]));
      EmptyEntries(e, d.next);
      assert e == d.Allocate(Dir(map[])).Bind(dir, p.name, d.next);
    } else {
      CreateFacts(d, p);
      NewEntryValid(d, dir, p.name, File([]));
      assert e == d.Allocate(File([])).Bind(dir, p.name, d.next);
    }
  }

  /** Staging one item below the tree's root. */
  lemma {:induction false} StagedItem(d0: Disk, d: Disk, c: Disk, e: Disk, s: Ino, top: Name, made: set<Ino>,
                                      items: seq<Item>, item: Item)
    requires Layout(d0, d, s, map[top := s]) && TreeIs(d, s, items) && Mine(d, s, made) && item.rel != []
    requires var p := Below(Join(Base, top), item.rel);
      if item.content.None? then d.Mkdir(p) == Success(c) && e == c
      else d.Create(p) == Success(c) && e == c.Write(d.next, item.content.value)
    ensures Layout(d0, e, s, map[top := s]) && TreeIs(e, s, items + [item]) && Mine(e, s, made + {d.next})
    ensures d.DirAt(Below(Join(Base, top), item.rel).parent).Some?
    ensures d.DirAt(Below(Join(Base, top), item.rel).parent).value in made
    ensures Walk(d, s, item.rel).None?
    ensures forall rel :: Walk(e, s, rel) == if rel == item.rel then Some(d.next) else Walk(d, s, rel)
    ensures forall rel | Walk(d, s, rel).Some? ::
      Walk(d, s, rel).value != d.next && e.KindOf(Walk(d, s, rel).value) == d.KindOf(Walk(d, s, rel).value)
  {
    hide Layout, TreeIs, Walk, Disk.Valid, Straight, Mine, Disk.Mkdir, Disk.Create, Disk.Lookup, Rooted;
    var names, up, n, i := map[top := s], item.rel[..|item.rel| - 1], item.rel[|item.rel| - 1], d.next;
    var p := Below(Join(Base, top), item.rel);
    assert p == Join(Below(Join(Base, top), up), n);
    assert item.rel == up + [n];
    LayoutBase(d0, d, s, names);
    TreeRoot(d, s, items);
    CreatedAt(d, c, p);
    TreeDirAt(d0, d, s, names, top, up);
    LayoutRooted(d0, d, s, names, top);
    if item.content.Some? { WriteValid(c, i, item.content.value); }
    GrowLayout(d0, d, e, s, names, top, up, n, i);
    WalkStep(d, s, up, n);
    forall rel | Walk(d, s, rel).Some? ensures Walk(d, s, rel).value != i { WalkExists(d, s, top, rel); }
    WalkExists(d, s, top, []);
    GrowItems(d, e, s, items, item, i);
    MineMore(d, e, s, made, item.rel, i);
    assert Walk(d, s, up).value in made by { MineAt(d, s, made, up); }
  }

  lemma {:induction false} MineMore(d: Disk, e: Disk, s: Ino, made: set<Ino>, at: Rel, i: Ino)
    requires Mine(d, s, made) && forall rel :: Walk(e, s, rel) == if rel == at then Some(i) else Walk(d, s, rel)
    ensures Mine(e, s, made + {i})
  {
    hide Walk;
  }

  lemma {:induction false} MineAt(d: Disk, s: Ino, made: set<Ino>, rel: Rel)
    requires Mine(d, s, made) && Walk(d, s, rel).Some?
    ensures Walk(d, s, rel).value in made
  {}

  lemma TreeRoot(d: Disk, s: Ino, items: seq<Item>)
    requires TreeIs(d, s, items)
    ensures d.IsDir(s)
  {}

  lemma {:induction false} WalkExists(d: Disk, s: Ino, top: Name, rel: Rel)
    requires Rooted(d, s, top)
    ensures Walk(d, s, []) == Some(s) && s < d.next
    ensures Walk(d, s, rel).Some? ==> Walk(d, s, rel).value < d.next
  {}

  // -------------------------------------------------------------------------
  // Records of the tree
  // -------------------------------------------------------------------------

  /** Each recorded entry is at its place, with the kind it was recorded with, and
      the root is recorded. */
  ghost predicate Records(d: Disk, s: Ino, tree: seq<Owned>) {
    && DistinctPlaces(tree) && OwnedAt(d, s, tree, [])
    && forall o | o in tree :: Walk(d, s, o.rel) == Some(o.ino) && o.isDir == d.IsDir(o.ino)
  }

  /** Every place of the tree is recorded. */
  ghost predicate Covered(d: Disk, s: Ino, tree: seq<Owned>) {
    forall rel | Walk(d, s, rel).Some? :: OwnedAt(d, s, tree, rel)
  }

  /** A new entry makes the record incomplete. */
  lemma {:induction false} RecordsGrow(d: Disk, e: Disk, s: Ino, tree: seq<Owned>, rel: Rel, i: Ino)
    requires Records(d, s, tree) && Walk(d, s, rel).None?
    requires forall p :: Walk(e, s, p) == if p == rel then Some(i) else Walk(d, s, p)
    requires forall p | Walk(d, s, p).Some? :: e.KindOf(Walk(d, s, p).value) == d.KindOf(Walk(d, s, p).value)
    ensures Records(e, s, tree) && !Covered(e, s, tree)
  {
    hide Walk;
    AtTop(d, s);
    forall x | x in tree ensures Walk(e, s, x.rel) == Some(x.ino) && x.isDir == e.IsDir(x.ino) {
      assert e.KindOf(x.ino) == d.KindOf(x.ino);
    }
    assert !OwnedAt(e, s, tree, rel);
  }

  /** Record an entry, in the place of what was recorded there before. */
  function Put(tree: seq<Owned>, o: Owned): seq<Owned> {
    if tree == [] || tree[0].rel == o.rel then [o] + (if tree == [] then [] else tree[1..])
    else [tree[0]] + Put(tree[1..], o)
  }

  lemma {:induction false} PutMembers(tree: seq<Owned>, o: Owned)
    requires DistinctPlaces(tree)
    ensures DistinctPlaces(Put(tree, o))
    ensures forall x :: x in Put(tree, o) <==> x == o || (x in tree && x.rel != o.rel)
  {
    if tree != [] {
      var rest := tree[1..];
      assert tree == [tree[0]] + rest;
      assert forall x | x in rest :: x.rel != tree[0].rel;
      if tree[0].rel != o.rel {
        PutMembers(rest, o);
        var more := Put(rest, o);
        forall j | 0 <= j < |more| ensures tree[0].rel != more[j].rel { assert more[j] in more; }
      } else {
        forall j | 0 <= j < |rest| ensures o.rel != rest[j].rel { assert rest[j] in rest; }
      }
    }
  }

  /** A true record stays one, and has the entry's place too. */
  lemma {:induction false} RecordsPut(d: Disk, s: Ino, tree: seq<Owned>, o: Owned)
    requires Records(d, s, tree) && Walk(d, s, o.rel) == Some(o.ino) && o.isDir == d.IsDir(o.ino)
    ensures Records(d, s, Put(tree, o))
    ensures forall p :: OwnedAt(d, s, Put(tree, o), p) <==> p == o.rel || OwnedAt(d, s, tree, p)
  {
    hide Walk, Put, DistinctPlaces;
    PutMembers(tree, o);
    var more := Put(tree, o);
    forall p ensures OwnedAt(d, s, more, p) <==> p == o.rel || OwnedAt(d, s, tree, p) {
      if p == o.rel {
        assert o in more;
      } else if OwnedAt(d, s, tree, p) {
        var x :| x in tree && x.rel == p && Walk(d, s, p) == Some(x.ino);
        assert x in more;
      }
    }
  }

  /** What a snapshot captures is recorded, all of it. */
  lemma {:induction false} CapturedRecords(d: Disk, s: Ino, tree: seq<Owned>)
    requires Captures(d, s, [], tree)
    ensures Records(d, s, tree) && Covered(d, s, tree)
  {
    CapturedOwned(d, s, tree);
    AtTop(d, s);
  }

  /** Records do not see what happens outside the tree. */
  lemma {:induction false} RecordsStay(d: Disk, e: Disk, s: Ino, tree: seq<Owned>)
    requires Records(d, s, tree) && forall rel :: Walk(e, s, rel) == Walk(d, s, rel)
    requires forall rel | Walk(d, s, rel).Some? :: e.KindOf(Walk(d, s, rel).value) == d.KindOf(Walk(d, s, rel).value)
    ensures Records(e, s, tree) && (Covered(e, s, tree) <==> Covered(d, s, tree))
  {
    hide Walk, DistinctPlaces;
    forall o | o in tree ensures o.isDir == e.IsDir(o.ino) { assert e.KindOf(o.ino) == d.KindOf(o.ino); }
    forall rel ensures OwnedAt(e, s, tree, rel) <==> OwnedAt(d, s, tree, rel) {}
  }
}
