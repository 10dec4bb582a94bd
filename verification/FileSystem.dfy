/** The filesystem under the run directory, as the scripts see it through
    Node's `fs`: inodes that are never reused, directories that map names to
    inodes, and the calls `link`, `unlink`, `mkdir`, `rmdir`, `rename` and
    exclusive create with the meaning POSIX.1-2017 gives them.  Whatever else
    runs on the machine is an adversary that may act at the scripts' hooks. */
module FileSystem {
  import opened Outcomes

  type Name = string

  /** An inode number, standing for the pair of device and inode number. */
  type Ino = nat

  newtype Byte = x: int | 0 <= x < 256
  type Bytes = seq<Byte>

  /** `dest` is the inode a symbolic link leads to at this moment. */
  datatype Node = File(bytes: Bytes) | Dir(entries: map<Name, Ino>) | Symlink(dest: Ino) | Special

  datatype Kind = FileKind | DirectoryKind | OtherKind

  datatype Identity = Identity(ino: Ino, kind: Kind)

  /** A path below the run directory: `Base` is the run directory itself. */
  datatype Path = Base | Join(parent: Path, name: Name)

  function Depth(p: Path): nat {
    match p
    case Base => 0
    case Join(q, _) => Depth(q) + 1
  }

  /** Inodes at or above `next` have never existed. */
  datatype Disk = Disk(nodes: map<Ino, Node>, base: Ino, next: Ino) {

    predicate IsDir(i: Ino) {
      i in nodes && nodes[i].Dir?
    }

    predicate IsFile(i: Ino) {
      i in nodes && nodes[i].File?
    }

    /** What directory `dir` binds `name` to. */
    function Entry(dir: Ino, name: Name): Option<Ino> {
      if IsDir(dir) && name in nodes[dir].entries then Some(nodes[dir].entries[name]) else None
    }

    predicate Empty(dir: Ino) {
      IsDir(dir) && nodes[dir].entries == map[]
    }

    function Content(i: Ino): Option<Bytes> {
      if IsFile(i) then Some(nodes[i].bytes) else None
    }

    function KindOf(i: Ino): Kind {
      if IsFile(i) then FileKind else if IsDir(i) then DirectoryKind else OtherKind
    }

    /** The inode a path names, without following a final symbolic link. */
    function Lookup(p: Path): Option<Ino>
      decreases p, 0
    {
      match p
      case Base => Some(base)
      case Join(q, n) =>
        match DirAt(q)
        case None => None
        case Some(dir) => Entry(dir, n)
    }

    /** The inode a path names once a final symbolic link is followed. */
    function Follow(p: Path): Option<Ino>
      decreases p, 1
    {
      match Lookup(p)
      case None => None
      case Some(i) =>
        if i in nodes && nodes[i].Symlink? then
          Some(nodes[i].dest)
        else Some(i)
    }

    /** The directory a path leads to. */
    function DirAt(p: Path): Option<Ino>
      decreases p, 2
    {
      match Follow(p)
      case None => None
      case Some(i) => if IsDir(i) then Some(i) else None
    }

    /** `lstat`: the identity of the entry itself. */
    function Lstat(p: Path): Option<Identity> {
      match Lookup(p)
      case None => None
      case Some(i) => Some(Identity(i, KindOf(i)))
    }

    /** Names lead to existing inodes, and a directory has at most one name. */
    ghost predicate Valid() {
      && IsDir(base)
      && (forall i | i in nodes :: i < next && (nodes[i].Symlink? ==> nodes[i].dest in nodes))
      && (forall d, n | Entry(d, n).Some? :: Entry(d, n).value in nodes && Entry(d, n).value != base)
      && (forall d, n, e, m | Entry(d, n).Some? && Entry(d, n) == Entry(e, m) && IsDir(Entry(d, n).value) ::
            d == e && n == m)
    }

    /** Give the absent name `name` of directory `dir` to inode `i`. */
    function Bind(dir: Ino, name: Name, i: Ino): (r: Disk)
      requires IsDir(dir)
      ensures forall d, n :: r.Entry(d, n) == if d == dir && n == name then Some(i) else Entry(d, n)
      ensures forall j :: r.Content(j) == Content(j) && r.KindOf(j) == KindOf(j)
    {
      this.(nodes := nodes[dir := Dir(nodes[dir].entries[name := i])])
    }

    /** Take the name `name` away from directory `dir`. */
    function Unbind(dir: Ino, name: Name): (r: Disk)
      requires IsDir(dir)
      ensures forall d, n :: r.Entry(d, n) == if d == dir && n == name then None else Entry(d, n)
      ensures forall j :: r.Content(j) == Content(j) && r.KindOf(j) == KindOf(j)
    {
      this.(nodes := nodes[dir := Dir(nodes[dir].entries - {name})])
    }

    /** A new inode, the number `next`, that no name leads to yet. */
    function Allocate(node: Node): (r: Disk)
      requires Valid()
      requires node.Dir? ==> node.entries == map[]
      requires !node.Symlink?
      ensures r.next == next + 1 && r.base == base && next in r.nodes && r.nodes[next] == node
      ensures forall d, n :: r.Entry(d, n) == Entry(d, n)
      ensures forall j | j != next :: r.Content(j) == Content(j) && r.KindOf(j) == KindOf(j)
    {
      this.(nodes := nodes[next := node], next := next + 1)
    }

    function Mkdir(p: Path): Result<Disk, Errno>
      requires Valid()
    {
      if p.Base? then Failure(EEXIST) else
      match DirAt(p.parent)
      case None => Failure(ENOENT)
      case Some(dir) =>
        if Entry(dir, p.name).Some? then Failure(EEXIST)
        else Success(Allocate(Dir(map[])).Bind(dir, p.name, next))
    }

    /** `open` with the flags `wx`: the new file is empty. */
    function Create(p: Path): Result<Disk, Errno>
      requires Valid()
    {
      if p.Base? then Failure(EEXIST) else
      match DirAt(p.parent)
      case None => Failure(ENOENT)
      case Some(dir) =>
        if Entry(dir, p.name).Some? then Failure(EEXIST)
        else Success(Allocate(File([])).Bind(dir, p.name, next))
    }

    /** Replace the bytes of an open file. */
    function Write(i: Ino, bytes: Bytes): (r: Disk)
      requires IsFile(i)
      ensures forall d, n :: r.Entry(d, n) == Entry(d, n)
      ensures forall j :: r.KindOf(j) == KindOf(j)
      ensures forall j :: r.Content(j) == if j == i then Some(bytes) else Content(j)
    {
      this.(nodes := nodes[i := File(bytes)])
    }

    /** `link` never replaces an existing name and never links a directory. */
    function Link(source: Path, target: Path): Result<Disk, Errno> {
      match Lookup(source)
      case None => Failure(ENOENT)
      case Some(i) =>
        if target.Base? then Failure(EEXIST) else
        match DirAt(target.parent)
        case None => Failure(ENOENT)
        case Some(dir) =>
          if Entry(dir, target.name).Some? then Failure(EEXIST)
          else if IsDir(i) then Failure(EPERM)
          else Success(Bind(dir, target.name, i))
    }

    function Unlink(p: Path): Result<Disk, Errno> {
      if p.Base? then Failure(EPERM) else
      match DirAt(p.parent)
      case None => Failure(ENOENT)
      case Some(dir) =>
        match Entry(dir, p.name)
        case None => Failure(ENOENT)
        case Some(i) => if IsDir(i) then Failure(EPERM) else Success(Unbind(dir, p.name))
    }

    /** `rmdir` removes an empty directory only. */
    function Rmdir(p: Path): Result<Disk, Errno> {
      if p.Base? then Failure(EPERM) else
      match DirAt(p.parent)
      case None => Failure(ENOENT)
      case Some(dir) =>
        match Entry(dir, p.name)
        case None => Failure(ENOENT)
        case Some(i) =>
          if !IsDir(i) then Failure(ENOTDIR)
          else if !Empty(i) then Failure(ENOTEMPTY)
          else Success(Unbind(dir, p.name))
    }

    /** `rename` of a directory: a directory at the new name is replaced, but
        only when it is empty. */
    function Rename(source: Path, target: Path): Result<Disk, Errno> {
      if source.Base? || target.Base? then Failure(EPERM) else
      match (DirAt(source.parent), DirAt(target.parent))
      case (Some(from), Some(to)) =>
        (match Entry(from, source.name)
         case None => Failure(ENOENT)
         case Some(i) =>
           match Entry(to, target.name)
           case None => Success(Unbind(from, source.name).Bind(to, target.name, i))
           case Some(j) =>
             if i == j then Success(this)
             else if !IsDir(i) && IsDir(j) then Failure(EISDIR)
             else if IsDir(i) && !IsDir(j) then Failure(ENOTDIR)
             else if IsDir(j) && !Empty(j) then Failure(ENOTEMPTY)
             else Success(Unbind(from, source.name).Bind(to, target.name, i)))
      case _ => Failure(ENOENT)
    }
  }

  datatype Errno = EEXIST | ENOENT | ENOTDIR | EISDIR | ENOTEMPTY | EPERM | EIO

  /** What the outside world may do between two states: anything, except that
      an inode keeps its kind and a new inode gets a number never used. */
  ghost predicate Admissible(before: Disk, after: Disk) {
    && after.Valid()
    && after.base == before.base
    && before.next <= after.next
    && (forall i | i in before.nodes :: i in after.nodes && after.KindOf(i) == before.KindOf(i))
    && (forall i | i in after.nodes && i < before.next :: i in before.nodes)
  }

  lemma AdmissibleTransitive(a: Disk, b: Disk, c: Disk)
    requires Admissible(a, b) && Admissible(b, c)
    ensures Admissible(a, c)
  {}

  // -------------------------------------------------------------------------
  // Histories
  // -------------------------------------------------------------------------

  /** `Caught` marks the moment a failure handler starts: the call that comes
      next has number `at`.  `Inspected` is an `lstat` that told the identity of
      the entry at a path. */
  datatype Step =
    | Environment
    | Caught(at: nat)
    | Inspected(path: Path)
    | Mkdir(path: Path)
    | Create(path: Path)
    | Write(ino: Ino)
    | Link(source: Path, target: Path)
    | Unlink(path: Path)
    | Rmdir(path: Path)
    | Rename(source: Path, target: Path)

  /** Every state the disk went through, and the step that led to it. */
  datatype History = Start(disk: Disk) | Then(prev: History, step: Step, disk: Disk)

  function Length(h: History): nat {
    match h
    case Start(_) => 0
    case Then(prev, _, _) => Length(prev) + 1
  }

  /** A step that takes away or redirects only names of inodes in `own`,
      changes the bytes only of files in `own`, and gives out new names only
      in the directories `into`. */
  ghost predicate Confined(before: Disk, after: Disk, own: set<Ino>, into: set<Ino>) {
    && (forall d, n | before.Entry(d, n).Some? && after.Entry(d, n) != before.Entry(d, n) ::
          before.Entry(d, n).value in own)
    && (forall d, n | after.Entry(d, n).Some? && after.Entry(d, n) != before.Entry(d, n) :: d in into)
    && (forall i | before.Content(i).Some? && after.Content(i) != before.Content(i) :: i in own)
  }

  /** Since `h0`, every step of the program was confined in this way. */
  ghost predicate CodeConfined(h0: History, h: History, own: set<Ino>, into: set<Ino>) {
    h != h0 ==>
      && h.Then?
      && CodeConfined(h0, h.prev, own, into)
      && (h.step != Environment ==> Confined(h.prev.disk, h.disk, own, into))
  }

  /** Since `h0`, the program has performed step `s`. */
  ghost predicate Performed(h0: History, h: History, s: Step) {
    h != h0 && h.Then? && (h.step == s || Performed(h0, h.prev, s))
  }

  /** What a step of the program does is what its call does. */
  ghost predicate Lawful(before: Disk, step: Step, after: Disk) {
    before.Valid() &&
    match step
    case Environment => true
    case Caught(_) => after == before
    case Inspected(p) => after == before && before.Lookup(p).Some?
    case Mkdir(p) => before.Mkdir(p) == Success(after)
    case Create(p) => before.Create(p) == Success(after)
    case Write(i) => before.IsFile(i) && exists bytes :: after == before.Write(i, bytes)
    case Link(p, q) => before.Link(p, q) == Success(after)
    case Unlink(p) => before.Unlink(p) == Success(after)
    case Rmdir(p) => before.Rmdir(p) == Success(after)
    case Rename(p, q) => before.Rename(p, q) == Success(after)
  }

  /** Every step was admissible, and the program's were lawful. */
  ghost predicate Sound(h: History) {
    h.Then? ==> Sound(h.prev) && Admissible(h.prev.disk, h.disk) && Lawful(h.prev.disk, h.step, h.disk)
  }

  lemma {:induction false} SoundAdmissible(h0: History, h: History, own: set<Ino>, into: set<Ino>)
    requires Sound(h) && h0.disk.Valid() && CodeConfined(h0, h, own, into)
    ensures Admissible(h0.disk, h.disk)
  {
    if h != h0 {
      SoundAdmissible(h0, h.prev, own, into);
      AdmissibleTransitive(h0.disk, h.prev.disk, h.disk);
    }
  }

  lemma {:induction false} ConfinedMono(
      h0: History, h: History, own: set<Ino>, into: set<Ino>, own': set<Ino>, into': set<Ino>)
    requires CodeConfined(h0, h, own, into) && own <= own' && into <= into'
    ensures CodeConfined(h0, h, own', into')
  {
    if h != h0 { ConfinedMono(h0, h.prev, own, into, own', into'); }
  }

  /** A run only ever makes its history longer. */
  lemma {:induction false} ConfinedLength(h0: History, h: History, own: set<Ino>, into: set<Ino>)
    requires CodeConfined(h0, h, own, into)
    ensures Length(h0) <= Length(h)
  {
    if h != h0 { ConfinedLength(h0, h.prev, own, into); }
  }

  lemma {:induction false} ConfinedTransitive(h0: History, h1: History, h2: History, own: set<Ino>, into: set<Ino>)
    requires CodeConfined(h0, h1, own, into) && CodeConfined(h1, h2, own, into)
    ensures CodeConfined(h0, h2, own, into)
  {
    if h1 != h2 && h2 != h0 { ConfinedTransitive(h0, h1, h2.prev, own, into); }
  }

  // -------------------------------------------------------------------------
  // Each call keeps the disk well formed
  // -------------------------------------------------------------------------

  lemma AllocateValid(d: Disk, node: Node)
    requires d.Valid() && (node.Dir? ==> node.entries == map[]) && !node.Symlink?
    ensures d.Allocate(node).Valid() && Admissible(d, d.Allocate(node))
  {
    var r := d.Allocate(node);
    assert r.IsDir(r.base);
    forall x, n, e, m | r.Entry(x, n).Some? && r.Entry(x, n) == r.Entry(e, m) && r.IsDir(r.Entry(x, n).value)
      ensures x == e && n == m
    {
      assert d.Entry(x, n).value in d.nodes;
      assert d.IsDir(d.Entry(x, n).value);
    }
  }

  /** Naming an inode that is no directory, or a directory without a name. */
  lemma BindValid(d: Disk, dir: Ino, name: Name, i: Ino)
    requires d.Valid() && d.IsDir(dir) && i in d.nodes && i != d.base
    requires d.IsDir(i) ==> forall e, n | d.Entry(e, n) == Some(i) :: e == dir && n == name
    ensures d.Bind(dir, name, i).Valid() && Admissible(d, d.Bind(dir, name, i))
  {
    var r := d.Bind(dir, name, i);
    assert forall j :: r.IsDir(j) == d.IsDir(j);
    forall x, n, e, m | r.Entry(x, n).Some? && r.Entry(x, n) == r.Entry(e, m) && r.IsDir(r.Entry(x, n).value)
      ensures x == e && n == m
    {
      assert d.IsDir(r.Entry(x, n).value);
    }
  }

  lemma UnbindValid(d: Disk, dir: Ino, name: Name)
    requires d.Valid() && d.IsDir(dir)
    ensures d.Unbind(dir, name).Valid() && Admissible(d, d.Unbind(dir, name))
  {
    var r := d.Unbind(dir, name);
    assert forall j :: r.IsDir(j) == d.IsDir(j);
    forall x, n, e, m | r.Entry(x, n).Some? && r.Entry(x, n) == r.Entry(e, m) && r.IsDir(r.Entry(x, n).value)
      ensures x == e && n == m
    {
      assert d.Entry(x, n) == d.Entry(e, m);
    }
  }

  lemma WriteValid(d: Disk, i: Ino, bytes: Bytes)
    requires d.Valid() && d.IsFile(i)
    ensures d.Write(i, bytes).Valid() && Admissible(d, d.Write(i, bytes))
  {
    var r := d.Write(i, bytes);
    assert forall j :: r.IsDir(j) == d.IsDir(j);
    forall x, n, e, m | r.Entry(x, n).Some? && r.Entry(x, n) == r.Entry(e, m) && r.IsDir(r.Entry(x, n).value)
      ensures x == e && n == m
    {
      assert d.Entry(x, n) == d.Entry(e, m);
    }
  }

  lemma NewEntryValid(d: Disk, dir: Ino, name: Name, node: Node)
    requires d.Valid() && d.IsDir(dir) && (node.Dir? ==> node.entries == map[]) && !node.Symlink?
    ensures d.Allocate(node).IsDir(dir)
    ensures var r := d.Allocate(node).Bind(dir, name, d.next); r.Valid() && Admissible(d, r)
  {
    AllocateValid(d, node);
    var a := d.Allocate(node);
    assert d.next !in d.nodes;
    forall e, n ensures a.Entry(e, n) != Some(d.next) {
      assert d.Entry(e, n).Some? ==> d.Entry(e, n).value in d.nodes;
    }
    BindValid(a, dir, name, d.next);
    AdmissibleTransitive(d, a, a.Bind(dir, name, d.next));
  }

  /** Moving an inode from one name to another. */
  lemma RebindValid(d: Disk, from: Ino, oldName: Name, to: Ino, newName: Name, i: Ino)
    requires d.Valid() && d.IsDir(from) && d.IsDir(to) && d.Entry(from, oldName) == Some(i)
    ensures d.Unbind(from, oldName).IsDir(to)
    ensures var r := d.Unbind(from, oldName).Bind(to, newName, i); r.Valid() && Admissible(d, r)
  {
    UnbindValid(d, from, oldName);
    var u := d.Unbind(from, oldName);
    assert u.KindOf(i) == d.KindOf(i) && u.KindOf(to) == d.KindOf(to);
    assert i in d.nodes && i != d.base;
    forall e, n ensures u.IsDir(i) ==> u.Entry(e, n) != Some(i) {
      assert u.Entry(e, n).Some? ==> d.Entry(e, n) == u.Entry(e, n);
    }
    BindValid(u, to, newName, i);
    AdmissibleTransitive(d, u, u.Bind(to, newName, i));
  }

  lemma RenameValid(d: Disk, source: Path, target: Path)
    requires d.Valid() && d.Rename(source, target).Success?
    ensures d.Rename(source, target).value.Valid() && Admissible(d, d.Rename(source, target).value)
  {
    var from, to := d.DirAt(source.parent).value, d.DirAt(target.parent).value;
    var i := d.Entry(from, source.name).value;
    if d.Entry(to, target.name) != Some(i) {
      RebindValid(d, from, source.name, to, target.name, i);
    }
  }

  /** What a path names exists, and only `Base` names the run directory. */
  lemma {:induction false} LookupValid(d: Disk, p: Path)
    requires d.Valid()
    ensures d.Lookup(p).Some? ==> d.Lookup(p).value in d.nodes && (d.Lookup(p).value == d.base <==> p.Base?)
  {
    if p.Join? && d.Lookup(p).Some? {
      assert d.Entry(d.DirAt(p.parent).value, p.name).Some?;
    }
  }

  /** Taking a name away never makes a path lead elsewhere: it leads where it
      led, or nowhere. */
  lemma {:induction false} UnbindLookup(d: Disk, dir: Ino, name: Name, p: Path)
    requires d.IsDir(dir)
    ensures var r := d.Unbind(dir, name); r.Lookup(p) == None || r.Lookup(p) == d.Lookup(p)
    ensures var r := d.Unbind(dir, name); r.Follow(p) == None || r.Follow(p) == d.Follow(p)
    ensures var r := d.Unbind(dir, name); r.DirAt(p) == None || r.DirAt(p) == d.DirAt(p)
  {
    if p.Join? { UnbindLookup(d, dir, name, p.parent); }
    var r := d.Unbind(dir, name);
    forall i | r.IsDir(i) ensures d.IsDir(i) {
      assert r.KindOf(i) == d.KindOf(i);
    }
  }

  /** New inodes and new bytes leave every path where it leads. */
  lemma {:induction false} AllocateLookup(d: Disk, node: Node, p: Path)
    requires d.Valid() && (node.Dir? ==> node.entries == map[]) && !node.Symlink?
    ensures d.Allocate(node).Lookup(p) == d.Lookup(p)
    ensures d.Allocate(node).Follow(p) == d.Follow(p)
    ensures d.Allocate(node).DirAt(p) == d.DirAt(p)
  {
    if p.Join? { AllocateLookup(d, node, p.parent); }
    LookupValid(d, p);
  }

  lemma {:induction false} WriteLookup(d: Disk, i: Ino, bytes: Bytes, p: Path)
    requires d.IsFile(i)
    ensures d.Write(i, bytes).Lookup(p) == d.Lookup(p)
    ensures d.Write(i, bytes).Follow(p) == d.Follow(p)
    ensures d.Write(i, bytes).DirAt(p) == d.DirAt(p)
  {
    if p.Join? { WriteLookup(d, i, bytes, p.parent); }
    assert forall j :: d.Write(i, bytes).KindOf(j) == d.KindOf(j);
  }

  /** A directory whose identity was just confirmed is the one its path leads to. */
  lemma {:induction false} LstatDirectory(d: Disk, p: Path, id: Identity)
    requires d.Lstat(p) == Some(id) && id.kind == DirectoryKind
    ensures d.DirAt(p) == Some(id.ino)
  {}

  // -------------------------------------------------------------------------
  // The live filesystem
  // -------------------------------------------------------------------------

  /** What a hook does: it leaves some disk behind and may throw. */
  datatype HookOutcome = HookOutcome(disk: Disk, thrown: Option<Thrown>)

  /** The disk as the calls see it.  `environment` is the adversary at the hooks:
      its n-th move may depend on the whole disk.  `runner` is the process a
      collection attempt starts, given the directory it is to write in.  `faulty`
      says which calls fail for a reason of their own (EIO, EACCES, ...), and
      `partial` how many bytes a failing write still wrote. */
  class FileSystem {
    var disk: Disk
    var clock: nat
    ghost var history: History
    const environment: (nat, Disk) -> HookOutcome
    const runner: (nat, Path, Disk) -> HookOutcome
    const faulty: nat -> bool
    const partial: nat -> nat

    ghost predicate Valid()
      reads this
    {
      && disk.Valid()
      && history.disk == disk
      && Sound(history)
      && Played(history, clock)
      && (forall n, d: Disk :: d.Valid() ==> Admissible(d, environment(n, d).disk))
      && (forall n, p, d: Disk :: d.Valid() ==> Admissible(d, runner(n, p, d).disk))
    }

    /** Every step was made by a call before the one with number `now`: each took
        at least one call, and between those before a failure handler and those
        in it stands the number the handler started at.  A step that is not the
        program's is a move of this environment, or of this runner. */
    ghost predicate Played(h: History, now: nat) {
      h.Then? ==>
        if h.step.Caught? then h.step.at <= now && Played(h.prev, h.step.at)
        else
          && now > 0 && Played(h.prev, now - 1)
          && (h.step == Environment ==>
                || (exists n | 0 <= n < now :: h.disk == environment(n, h.prev.disk).disk)
                || (exists n, p | 0 <= n < now :: h.disk == runner(n, p, h.prev.disk).disk))
    }

    /** Calls that make no step. */
    lemma {:induction false} PlayedOn(h: History, now: nat, later: nat)
      requires Played(h, now) && now <= later
      ensures Played(h, later)
    {
      if h.Then? && !h.step.Caught? { PlayedOn(h.prev, now - 1, later - 1); }
    }

    constructor (disk: Disk, environment: (nat, Disk) -> HookOutcome, runner: (nat, Path, Disk) -> HookOutcome,
                 faulty: nat -> bool, partial: nat -> nat)
      requires disk.Valid()
      requires forall n, d: Disk :: d.Valid() ==> Admissible(d, environment(n, d).disk)
      requires forall n, p, d: Disk :: d.Valid() ==> Admissible(d, runner(n, p, d).disk)
      ensures Valid() && this.disk == disk && history == Start(disk)
      ensures this.environment == environment && this.runner == runner && this.faulty == faulty
    {
      this.disk, this.clock, this.history := disk, 0, Start(disk);
      this.environment, this.runner, this.faulty, this.partial := environment, runner, faulty, partial;
    }

    /** From now on no call fails for a reason of its own. */
    ghost predicate Reliable(since: nat) {
      forall n | n >= since :: !faulty(n)
    }

    /** No call with a number in this range fails for a reason of its own. */
    ghost predicate Smooth(from: int, to: int) {
      forall n: nat | from <= n < to :: !faulty(n)
    }

    lemma SmoothOn(from: int, via: int, to: int)
      requires Smooth(from, via) && Smooth(via, to)
      ensures Smooth(from, to)
    {}

    lemma SmoothOne(at: nat)
      ensures Smooth(at, at) && (Smooth(at, at + 1) <==> !faulty(at))
    {}

    /** Hooks never touch the disk; they may still throw. */
    ghost predicate Passive() {
      forall n, d :: environment(n, d).disk == d
    }

    /** Nothing goes wrong: no call fails for a reason of its own, and hooks
        neither touch the disk nor throw. */
    ghost predicate Calm() {
      && (forall n :: !faulty(n))
      && (forall n, d :: environment(n, d) == HookOutcome(d, None))
    }

    /** A hook runs: the environment may do anything admissible. */
    method Hook() returns (thrown: Option<Thrown>)
      requires Valid()
      modifies this
      ensures Valid() && clock == old(clock) + 1
      ensures history == Then(old(history), Environment, disk) && Admissible(old(disk), disk)
      ensures Passive() ==> disk == old(disk)
      ensures Calm() ==> disk == old(disk) && thrown.None?
    {
      var outcome := environment(clock, disk);
      disk, thrown, clock := outcome.disk, outcome.thrown, clock + 1;
      history := Then(history, Environment, disk);
    }

    /** The attempt process runs; it is given the directory `p`. */
    method Run(p: Path) returns (thrown: Option<Thrown>)
      requires Valid()
      modifies this
      ensures Valid() && clock == old(clock) + 1
      ensures history == Then(old(history), Environment, disk) && Admissible(old(disk), disk)
      ensures disk == runner(old(clock), p, old(disk)).disk && thrown == runner(old(clock), p, old(disk)).thrown
    {
      var outcome := runner(clock, p, disk);
      disk, thrown, clock := outcome.disk, outcome.thrown, clock + 1;
      history := Then(history, Environment, disk);
    }

    /** A failure handler starts. */
    ghost method Catch()
      requires Valid()
      modifies this`history
      ensures Valid() && history == Then(old(history), Caught(clock), disk)
    {
      history := Then(history, Caught(clock), disk);
    }

    method Lstat(p: Path) returns (id: Option<Identity>)
      requires Valid()
      modifies this`clock
      ensures Valid() && clock == old(clock) + 1
      ensures id == if faulty(old(clock)) then None else disk.Lstat(p)
    {
      id := if faulty(clock) then None else disk.Lstat(p);
      PlayedOn(history, clock, clock + 1);
      clock := clock + 1;
    }

    /** `lstat` that the program keeps the outcome of. */
    method Inspect(p: Path) returns (id: Option<Identity>)
      requires Valid()
      modifies this
      ensures Valid() && clock == old(clock) + 1 && disk == old(disk)
      ensures id == if faulty(old(clock)) then None else disk.Lstat(p)
      ensures history == if id.Some? then Then(old(history), Inspected(p), disk) else old(history)
    {
      id := if faulty(clock) then None else disk.Lstat(p);
      PlayedOn(history, clock, clock + 1);
      clock := clock + 1;
      if id.Some? { history := Then(history, Inspected(p), disk); }
    }

    /** `lstat` of a regular file, with its size in bytes. */
    method LstatFile(p: Path) returns (info: Option<(Identity, nat)>)
      requires Valid()
      modifies this`clock
      ensures Valid() && clock == old(clock) + 1
      ensures info.Some? ==>
        && disk.Lstat(p) == Some(info.value.0)
        && (info.value.0.kind == FileKind ==>
              disk.IsFile(info.value.0.ino) && info.value.1 == |disk.Content(info.value.0.ino).value|)
      ensures !faulty(old(clock)) ==> (info.Some? <==> disk.Lstat(p).Some?)
    {
      info := if faulty(clock) || disk.Lstat(p).None? then None
              else
                var id := disk.Lstat(p).value;
                Some((id, if disk.IsFile(id.ino) then |disk.Content(id.ino).value| else 0));
      PlayedOn(history, clock, clock + 1);
      clock := clock + 1;
    }

    /** `stat` follows a final symbolic link. */
    method Stat(p: Path) returns (ino: Option<Ino>)
      requires Valid()
      modifies this`clock
      ensures Valid() && clock == old(clock) + 1
      ensures ino == None || ino == disk.Follow(p)
      ensures !faulty(old(clock)) ==> ino == disk.Follow(p)
    {
      ino := if faulty(clock) then None else disk.Follow(p);
      PlayedOn(history, clock, clock + 1);
      clock := clock + 1;
    }

    /** `stat` used to tell whether anything is there: only ENOENT means absent. */
    method Exists(p: Path) returns (r: Result<bool, Errno>)
      requires Valid()
      modifies this`clock
      ensures Valid() && clock == old(clock) + 1
      ensures r.Success? ==> r.value == disk.Follow(p).Some?
      ensures faulty(old(clock)) <==> r.Failure?
    {
      r := if faulty(clock) then Failure(EIO) else Success(disk.Follow(p).Some?);
      PlayedOn(history, clock, clock + 1);
      clock := clock + 1;
    }

    method ReadFile(p: Path) returns (bytes: Option<Bytes>)
      requires Valid()
      modifies this`clock
      ensures Valid() && clock == old(clock) + 1
      ensures bytes.Some? ==> disk.Follow(p).Some? && disk.Content(disk.Follow(p).value) == bytes
      ensures faulty(old(clock)) ==> bytes.None?
      ensures !faulty(old(clock)) && disk.Follow(p).Some? ==> bytes == disk.Content(disk.Follow(p).value)
    {
      bytes := if faulty(clock) || disk.Follow(p).None? then None else disk.Content(disk.Follow(p).value);
      PlayedOn(history, clock, clock + 1);
      clock := clock + 1;
    }

    /** The names in the directory a path leads to. */
    method ReadDir(p: Path) returns (names: Option<set<Name>>)
      requires Valid()
      modifies this`clock
      ensures Valid() && clock == old(clock) + 1
      ensures names.Some? ==> disk.DirAt(p).Some? && names.value == disk.nodes[disk.DirAt(p).value].entries.Keys
      ensures names.Some? <==> !faulty(old(clock)) && disk.DirAt(p).Some?
    {
      names := if faulty(clock) || disk.DirAt(p).None? then None
               else Some(disk.nodes[disk.DirAt(p).value].entries.Keys);
      PlayedOn(history, clock, clock + 1);
      clock := clock + 1;
    }

    /** Read through an open handle. */
    method Read(i: Ino) returns (bytes: Option<Bytes>)
      requires Valid()
      modifies this`clock
      ensures Valid() && clock == old(clock) + 1
      ensures bytes.Some? ==> bytes == disk.Content(i)
      ensures !faulty(old(clock)) ==> bytes == disk.Content(i)
    {
      bytes := if faulty(clock) then None else disk.Content(i);
      PlayedOn(history, clock, clock + 1);
      clock := clock + 1;
    }

    method Create(p: Path) returns (error: Option<Errno>, ino: Ino)
      requires Valid()
      modifies this
      ensures Valid() && clock == old(clock) + 1
      ensures error.None? ==>
        && old(disk).Create(p) == Success(disk)
        && history == Then(old(history), Step.Create(p), disk)
        && ino == old(disk).next && disk.Content(ino) == Some([])
      ensures error.Some? ==> disk == old(disk) && history == old(history)
      ensures error.Some? && error.value != EIO ==> old(disk).Create(p) == Failure(error.value)
      ensures error.None? <==> !faulty(old(clock)) && old(disk).Create(p).Success?
      ensures Admissible(old(disk), disk)
    {
      ino := disk.next;
      PlayedOn(history, clock, clock + 1);
      if faulty(clock) {
        error, clock := Some(EIO), clock + 1;
        return;
      }
      clock := clock + 1;
      match disk.Create(p)
      case Failure(e) => error := Some(e);
      case Success(after) =>
        NewEntryValid(disk, disk.DirAt(p.parent).value, p.name, File([]));
        disk, error := after, None;
        history := Then(history, Step.Create(p), disk);
    }

    method Mkdir(p: Path) returns (error: Option<Errno>)
      requires Valid()
      modifies this
      ensures Valid() && clock == old(clock) + 1
      ensures error.None? ==>
        && old(disk).Mkdir(p) == Success(disk)
        && history == Then(old(history), Step.Mkdir(p), disk)
      ensures error.Some? ==> disk == old(disk) && history == old(history)
      ensures error.Some? && error.value != EIO ==> old(disk).Mkdir(p) == Failure(error.value)
      ensures error.None? <==> !faulty(old(clock)) && old(disk).Mkdir(p).Success?
      ensures error.Some? ==> if faulty(old(clock)) then error.value == EIO else old(disk).Mkdir(p) == Failure(error.value)
      ensures Admissible(old(disk), disk)
    {
      PlayedOn(history, clock, clock + 1);
      if faulty(clock) {
        error, clock := Some(EIO), clock + 1;
        return;
      }
      clock := clock + 1;
      match disk.Mkdir(p)
      case Failure(e) => error := Some(e);
      case Success(after) =>
        NewEntryValid(disk, disk.DirAt(p.parent).value, p.name, Dir(map[]));
        disk, error := after, None;
        history := Then(history, Step.Mkdir(p), disk);
    }

    /** Write through an open handle; a failing write may still have written
        some of the bytes. */
    method Write(i: Ino, bytes: Bytes) returns (ok: bool)
      requires Valid() && disk.IsFile(i)
      modifies this
      ensures Valid() && clock == old(clock) + 1
      ensures history == Then(old(history), Step.Write(i), disk)
      ensures exists some :: disk == old(disk).Write(i, some)
      ensures ok ==> disk == old(disk).Write(i, bytes)
      ensures ok <==> !faulty(old(clock))
      ensures Admissible(old(disk), disk)
    {
      ok := !faulty(clock);
      var some := if ok || partial(clock) > |bytes| then bytes else bytes[..partial(clock)];
      WriteValid(disk, i, some);
      disk, clock := disk.Write(i, some), clock + 1;
      history := Then(history, Step.Write(i), disk);
    }

    method Link(source: Path, target: Path) returns (error: Option<Errno>)
      requires Valid()
      modifies this
      ensures Valid() && clock == old(clock) + 1
      ensures error.None? ==>
        && old(disk).Link(source, target) == Success(disk)
        && history == Then(old(history), Step.Link(source, target), disk)
      ensures error.Some? ==> disk == old(disk) && history == old(history)
      ensures error.Some? && error.value != EIO ==> old(disk).Link(source, target) == Failure(error.value)
      ensures !faulty(old(clock)) ==> (error.None? <==> old(disk).Link(source, target).Success?)
      ensures Admissible(old(disk), disk)
    {
      PlayedOn(history, clock, clock + 1);
      if faulty(clock) {
        error, clock := Some(EIO), clock + 1;
        return;
      }
      clock := clock + 1;
      match disk.Link(source, target)
      case Failure(e) => error := Some(e);
      case Success(after) =>
        LookupValid(disk, source);
        BindValid(disk, disk.DirAt(target.parent).value, target.name, disk.Lookup(source).value);
        disk, error := after, None;
        history := Then(history, Step.Link(source, target), disk);
    }

    method Unlink(p: Path) returns (error: Option<Errno>)
      requires Valid()
      modifies this
      ensures Valid() && clock == old(clock) + 1
      ensures error.None? ==>
        && old(disk).Unlink(p) == Success(disk)
        && history == Then(old(history), Step.Unlink(p), disk)
      ensures error.Some? ==> disk == old(disk) && history == old(history)
      ensures error.Some? && error.value != EIO ==> old(disk).Unlink(p) == Failure(error.value)
      ensures !faulty(old(clock)) ==> (error.None? <==> old(disk).Unlink(p).Success?)
      ensures Admissible(old(disk), disk)
    {
      PlayedOn(history, clock, clock + 1);
      if faulty(clock) {
        error, clock := Some(EIO), clock + 1;
        return;
      }
      clock := clock + 1;
      match disk.Unlink(p)
      case Failure(e) => error := Some(e);
      case Success(after) =>
        UnbindValid(disk, disk.DirAt(p.parent).value, p.name);
        disk, error := after, None;
        history := Then(history, Step.Unlink(p), disk);
    }

    method Rmdir(p: Path) returns (error: Option<Errno>)
      requires Valid()
      modifies this
      ensures Valid() && clock == old(clock) + 1
      ensures error.None? ==>
        && old(disk).Rmdir(p) == Success(disk)
        && history == Then(old(history), Step.Rmdir(p), disk)
      ensures error.Some? ==> disk == old(disk) && history == old(history)
      ensures error.Some? && error.value != EIO ==> old(disk).Rmdir(p) == Failure(error.value)
      ensures !faulty(old(clock)) ==> (error.None? <==> old(disk).Rmdir(p).Success?)
      ensures Admissible(old(disk), disk)
    {
      PlayedOn(history, clock, clock + 1);
      if faulty(clock) {
        error, clock := Some(EIO), clock + 1;
        return;
      }
      clock := clock + 1;
      match disk.Rmdir(p)
      case Failure(e) => error := Some(e);
      case Success(after) =>
        UnbindValid(disk, disk.DirAt(p.parent).value, p.name);
        disk, error := after, None;
        history := Then(history, Step.Rmdir(p), disk);
    }

    method Rename(source: Path, target: Path) returns (error: Option<Errno>)
      requires Valid()
      modifies this
      ensures Valid() && clock == old(clock) + 1
      ensures error.None? ==>
        && old(disk).Rename(source, target) == Success(disk)
        && history == Then(old(history), Step.Rename(source, target), disk)
      ensures error.Some? ==> disk == old(disk) && history == old(history)
      ensures error.Some? && error.value != EIO ==> old(disk).Rename(source, target) == Failure(error.value)
      ensures !faulty(old(clock)) ==> (error.None? <==> old(disk).Rename(source, target).Success?)
      ensures Admissible(old(disk), disk)
    {
      hide Disk.Rename, Disk.Valid;
      PlayedOn(history, clock, clock + 1);
      if faulty(clock) {
        error, clock := Some(EIO), clock + 1;
        return;
      }
      clock := clock + 1;
      match disk.Rename(source, target)
      case Failure(e) => error := Some(e);
      case Success(after) =>
        RenameValid(disk, source, target);
        disk, error := after, None;
        history := Then(history, Step.Rename(source, target), disk);
    }
  }
}
