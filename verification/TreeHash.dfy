/** The hash of a fixture tree (commander-native-tool-benchmark.ts). */
module TreeHash {
  import opened Outcomes
  import opened Text
  import opened Sequences

  const FIXTURE_MAX_BYTES: nat := 64 * 1024 * 1024
  const FIXTURE_MAX_FILES: nat := 10000

  /** A directory entry; `Special` is neither file, directory nor symlink. */
  datatype Entry = Entry(name: string, node: Node)

  datatype Node = File(size: nat, sha: string) | Dir(entries: seq<Entry>) | Symlink | Special

  /** A file found: its relative path and the hash of its bytes. */
  datatype Row = Row(rel: string, sha: string)

  datatype HashError = FIXTURE_UNSAFE | OVER_BOUND

  // -------------------------------------------------------------------------
  // What a tree holds
  // -------------------------------------------------------------------------

  function RelOf(prefix: string, name: string): string {
    if prefix == "" then name else prefix + "/" + name
  }

  function RowsAt(e: Entry, prefix: string): seq<Row>
    decreases e
  {
    match e.node
    case File(_, sha) => [Row(RelOf(prefix, e.name), sha)]
    case Dir(entries) => Rows(entries, RelOf(prefix, e.name))
    case _ => []
  }

  /** The files of a listing, in its order. */
  function Rows(entries: seq<Entry>, prefix: string): seq<Row>
    decreases entries
  {
    if entries == [] then [] else RowsAt(entries[0], prefix) + Rows(entries[1..], prefix)
  }

  function SizeAt(e: Entry): nat
    decreases e
  {
    match e.node
    case File(size, _) => size
    case Dir(entries) => Size(entries)
    case _ => 0
  }

  function Size(entries: seq<Entry>): nat
    decreases entries
  {
    if entries == [] then 0 else SizeAt(entries[0]) + Size(entries[1..])
  }

  predicate RelOk(rel: string) {
    Utf8Bytes(rel) <= PATH_MAX_BYTES && forall i | 0 <= i < |rel| :: !IsControl(rel[i])
  }

  predicate CleanAt(e: Entry, prefix: string)
    decreases e
  {
    && RelOk(RelOf(prefix, e.name))
    && match e.node
       case File(_, _) => true
       case Dir(entries) => Clean(entries, RelOf(prefix, e.name))
       case _ => false
  }

  /** Bounded printable paths, and nothing but files and directories. */
  predicate Clean(entries: seq<Entry>, prefix: string)
    decreases entries
  {
    forall e | e in entries :: CleanAt(e, prefix)
  }

  /** What the walk accepts. */
  predicate Acceptable(entries: seq<Entry>) {
    Clean(entries, "") && |Rows(entries, "")| <= FIXTURE_MAX_FILES && Size(entries) <= FIXTURE_MAX_BYTES
  }

  // -------------------------------------------------------------------------
  // Listings in another order
  // -------------------------------------------------------------------------

  lemma {:induction false} RowsConcat(a: seq<Entry>, b: seq<Entry>, prefix: string)
    ensures Rows(a + b, prefix) == Rows(a, prefix) + Rows(b, prefix)
  {
    hide RowsAt;
    if a == [] {
      assert a + b == b;
    } else {
      RowsConcat(a[1..], b, prefix);
      assert (a + b)[1..] == a[1..] + b;
    }
  }

  lemma {:induction false} SizeConcat(a: seq<Entry>, b: seq<Entry>)
    ensures Size(a + b) == Size(a) + Size(b)
  {
    hide SizeAt;
    if a == [] {
      assert a + b == b;
    } else {
      SizeConcat(a[1..], b);
      assert (a + b)[1..] == a[1..] + b;
    }
  }

  lemma {:induction false} RowsOne(e: Entry, prefix: string)
    ensures Rows([e], prefix) == RowsAt(e, prefix) && Size([e]) == SizeAt(e)
  {
    assert [e][1..] == [];
  }

  /** A listing's order does not change what it holds, how large it is, or
      whether it is clean. */
  lemma {:induction false} RowsPermuted(a: seq<Entry>, b: seq<Entry>, prefix: string)
    requires multiset(a) == multiset(b)
    ensures multiset(Rows(a, prefix)) == multiset(Rows(b, prefix))
  {
    hide RowsAt;
    if a == [] {
      SameSize(a, b);
    } else {
      var pre, post := Without(a, b);
      RowsPermuted(a[1..], pre + post, prefix);
      RowsConcat(pre, post, prefix);
      RowsConcat(pre, [a[0]] + post, prefix);
      RowsConcat([a[0]], post, prefix);
      RowsOne(a[0], prefix);
      hide Rows;
    }
  }

  lemma {:induction false} SizePermuted(a: seq<Entry>, b: seq<Entry>, prefix: string)
    requires multiset(a) == multiset(b)
    ensures Size(a) == Size(b) && (Clean(a, prefix) <==> Clean(b, prefix))
  {
    SameMembers(a, b);
    hide SizeAt, CleanAt;
    if a == [] {
      SameSize(a, b);
    } else {
      var pre, post := Without(a, b);
      SizePermuted(a[1..], pre + post, prefix);
      SizeConcat(pre, post);
      SizeConcat(pre, [a[0]] + post);
      SizeConcat([a[0]], post);
      RowsOne(a[0], prefix);
    }
  }

  // -------------------------------------------------------------------------
  // The walk
  // -------------------------------------------------------------------------

  /** A character's place in the order of UTF-16 code units. */
  function Rank(c: char): nat {
    var n := c as int;
    if n < 0x10000 then n * 0x10000 else (0xd800 + (n - 0x10000) / 0x400) * 0x10000 + 0xdc00 + (n - 0x10000) % 0x400
  }

  /** `a < b` on strings. */
  predicate Less(a: string, b: string) {
    b != "" && (a == "" || Rank(a[0]) < Rank(b[0]) || (a[0] == b[0] && Less(a[1..], b[1..])))
  }

  lemma RankInjective(c: char, d: char)
    ensures Rank(c) == Rank(d) <==> c == d
  {
    if Rank(c) == Rank(d) {
      var m, n := c as int, d as int;
      if m >= 0x10000 && n >= 0x10000 {
        assert (m - 0x10000) / 0x400 == (n - 0x10000) / 0x400 && (m - 0x10000) % 0x400 == (n - 0x10000) % 0x400;
      }
    }
  }

  lemma {:induction false} Total(a: string, b: string)
    ensures Less(a, b) || a == b || Less(b, a)
    ensures !(Less(a, b) && Less(b, a)) && !Less(a, a)
  {
    if a != "" {
      Total(a[1..], a[1..]);
      if b != "" {
        RankInjective(a[0], b[0]);
        Total(a[1..], b[1..]);
        assert a == [a[0]] + a[1..] && b == [b[0]] + b[1..];
      }
    }
  }

  lemma {:induction false} Transitive(a: string, b: string, c: string)
    requires Less(a, b) && Less(b, c)
    ensures Less(a, c)
  {
    if a != "" && a[0] == b[0] == c[0] { Transitive(a[1..], b[1..], c[1..]); }
  }

  function InsertEntry(s: seq<Entry>, e: Entry): (r: seq<Entry>)
    ensures multiset(r) == multiset(s) + multiset{e}
  {
    if s == [] then [e]
    else
      assert s == [s[0]] + s[1..];
      if Less(e.name, s[0].name) then [e] + s else [s[0]] + InsertEntry(s[1..], e)
  }

  /** `names.sort(...)`. */
  function SortEntries(s: seq<Entry>): (r: seq<Entry>)
    ensures multiset(r) == multiset(s)
  {
    if s == [] then []
    else
      assert s == s[..|s| - 1] + [s[|s| - 1]];
      InsertEntry(SortEntries(s[..|s| - 1]), s[|s| - 1])
  }

  /** `after` is `before` with `more` added, in some order. */
  ghost predicate Grown(before: seq<Row>, more: seq<Row>, after: seq<Row>) {
    multiset(after) == multiset(before) + multiset(more) && |after| == |before| + |more|
  }

  lemma GrownTwice(before: seq<Row>, a: seq<Row>, mid: seq<Row>, b: seq<Row>, after: seq<Row>)
    requires Grown(before, a, mid) && Grown(mid, b, after)
    ensures Grown(before, a + b, after)
  {}

  lemma GrownPermuted(before: seq<Row>, a: seq<Row>, b: seq<Row>, after: seq<Row>)
    requires Grown(before, a, after) && multiset(a) == multiset(b)
    ensures Grown(before, b, after)
  {
    SameSize(a, b);
  }

  lemma GrownNot(rows: seq<Row>, x: Row)
    ensures Grown(rows, [], rows) && Grown(rows, [x], rows + [x])
  {}

  /** The recursive walk: it adds the files below `entries` to `rows`. */
  method Walk(entries: seq<Entry>, prefix: string, rows: seq<Row>, totalBytes: nat)
    returns (r: Result<(seq<Row>, nat), HashError>)
    requires |rows| <= FIXTURE_MAX_FILES && totalBytes <= FIXTURE_MAX_BYTES
    ensures r.Success? <==>
      && Clean(entries, prefix)
      && |rows| + |Rows(entries, prefix)| <= FIXTURE_MAX_FILES && totalBytes + Size(entries) <= FIXTURE_MAX_BYTES
    ensures r.Success? ==> Grown(rows, Rows(entries, prefix), r.value.0) && r.value.1 == totalBytes + Size(entries)
    decreases entries
  {
    var names := SortEntries(entries);
    SameMembers(names, entries);
    RowsPermuted(names, entries, prefix);
    SizePermuted(names, entries, prefix);
    SameSize(Rows(names, prefix), Rows(entries, prefix));
    NoRows(prefix);
    GrownNot(rows, Row("", ""));
    var all, total: nat := rows, totalBytes;
    assert names[..0] == [];
    hide RelOk, Rows, Size, Clean, CleanAt, RowsAt, SizeAt, Grown;
    for i := 0 to |names|
      invariant Grown(rows, Rows(names[..i], prefix), all)
      invariant |all| == |rows| + |Rows(names[..i], prefix)| <= FIXTURE_MAX_FILES
      invariant total == totalBytes + Size(names[..i]) <= FIXTURE_MAX_BYTES
      invariant Clean(names[..i], prefix)
    {
      assert names[i] in entries;
      WalkStep(names, i, prefix);
      var more :- WalkEntry(names[i], prefix, all, total);
      GrownTwice(rows, Rows(names[..i], prefix), all, RowsAt(names[i], prefix), more.0);
      GrownLength(all, RowsAt(names[i], prefix), more.0);
      all, total := more.0, more.1;
    }
    assert names[..|names|] == names;
    GrownPermuted(rows, Rows(names, prefix), Rows(entries, prefix), all);
    return Success((all, total));
  }

  lemma {:induction false} NoRows(prefix: string)
    ensures Rows([], prefix) == [] && Size([]) == 0 && Clean([], prefix)
  {}

  lemma GrownLength(before: seq<Row>, more: seq<Row>, after: seq<Row>)
    requires Grown(before, more, after)
    ensures |after| == |before| + |more|
  {}

  method WalkEntry(e: Entry, prefix: string, rows: seq<Row>, totalBytes: nat)
    returns (r: Result<(seq<Row>, nat), HashError>)
    requires |rows| <= FIXTURE_MAX_FILES && totalBytes <= FIXTURE_MAX_BYTES
    ensures r.Success? <==>
      && CleanAt(e, prefix)
      && |rows| + |RowsAt(e, prefix)| <= FIXTURE_MAX_FILES && totalBytes + SizeAt(e) <= FIXTURE_MAX_BYTES
    ensures r.Success? ==> Grown(rows, RowsAt(e, prefix), r.value.0) && r.value.1 == totalBytes + SizeAt(e)
    decreases e
  {
    hide RelOk, Grown;
    var rel := RelOf(prefix, e.name);
    if !RelOk(rel) {
      return Failure(if Utf8Bytes(rel) > PATH_MAX_BYTES then OVER_BOUND else FIXTURE_UNSAFE);
    }
    match e.node {
      case Symlink => return Failure(FIXTURE_UNSAFE);
      case Special => return Failure(FIXTURE_UNSAFE);
      case Dir(below) =>
        r := Walk(below, rel, rows, totalBytes);
      case File(size, sha) =>
        if |rows| >= FIXTURE_MAX_FILES { return Failure(OVER_BOUND); }
        if size > FIXTURE_MAX_BYTES - totalBytes { return Failure(OVER_BOUND); }
        GrownNot(rows, Row(rel, sha));
        return Success((rows + [Row(rel, sha)], totalBytes + size));
    }
  }

  /** What one more entry adds; no later entry takes anything away. */
  lemma {:induction false} WalkStep(names: seq<Entry>, i: nat, prefix: string)
    requires i < |names|
    ensures Rows(names[..i + 1], prefix) == Rows(names[..i], prefix) + RowsAt(names[i], prefix)
    ensures Size(names[..i + 1]) == Size(names[..i]) + SizeAt(names[i])
    ensures Clean(names[..i + 1], prefix) <==> Clean(names[..i], prefix) && CleanAt(names[i], prefix)
    ensures Clean(names, prefix) ==> CleanAt(names[i], prefix)
    ensures |Rows(names[..i + 1], prefix)| <= |Rows(names, prefix)| && Size(names[..i + 1]) <= Size(names)
  {
    assert names[..i + 1] == names[..i] + [names[i]];
    assert names == names[..i + 1] + names[i + 1..];
    assert names[i] in names;
    hide Rows, RowsAt, Size, SizeAt, CleanAt;
    RowsConcat(names[..i], [names[i]], prefix);
    SizeConcat(names[..i], [names[i]]);
    RowsOne(names[i], prefix);
    RowsConcat(names[..i + 1], names[i + 1..], prefix);
    SizeConcat(names[..i + 1], names[i + 1..]);
  }

  // -------------------------------------------------------------------------
  // The preimage
  // -------------------------------------------------------------------------

  predicate Ascending(rows: seq<Row>) {
    forall i, j | 0 <= i < j < |rows| :: Less(rows[i].rel, rows[j].rel) || rows[i].rel == rows[j].rel
  }

  function InsertRow(s: seq<Row>, x: Row): seq<Row> {
    if s == [] || Less(x.rel, s[0].rel) then [x] + s else [s[0]] + InsertRow(s[1..], x)
  }

  lemma {:induction false} InsertRowAdds(s: seq<Row>, x: Row)
    ensures multiset(InsertRow(s, x)) == multiset(s) + multiset{x}
  {
    if s != [] && !Less(x.rel, s[0].rel) {
      InsertRowAdds(s[1..], x);
      assert s == [s[0]] + s[1..];
    }
  }

  lemma {:induction false} InsertRowAscends(s: seq<Row>, x: Row)
    requires Ascending(s)
    ensures Ascending(InsertRow(s, x))
  {
    if s == [] {
    } else if Less(x.rel, s[0].rel) {
      forall j | 0 <= j < |s| ensures Less(x.rel, s[j].rel) {
        if j > 0 && s[0].rel != s[j].rel { Transitive(x.rel, s[0].rel, s[j].rel); }
      }
    } else {
      var rest := InsertRow(s[1..], x);
      InsertRowAscends(s[1..], x);
      InsertRowAdds(s[1..], x);
      Total(x.rel, s[0].rel);
      forall i | 0 <= i < |rest| ensures Less(s[0].rel, rest[i].rel) || s[0].rel == rest[i].rel {
        assert rest[i] in multiset(s[1..]) + multiset{x};
      }
    }
  }

  /** `rows.sort(...)` by path. */
  function SortRows(rows: seq<Row>): (r: seq<Row>)
    ensures Ascending(r) && multiset(r) == multiset(rows)
  {
    if rows == [] then []
    else
      var n := |rows| - 1;
      var r := SortRows(rows[..n]);
      InsertRowAdds(r, rows[n]);
      InsertRowAscends(r, rows[n]);
      assert rows == rows[..n] + [rows[n]];
      InsertRow(r, rows[n])
  }

  function RowText(r: Row): string {
    r.rel + ":" + r.sha + "\n"
  }

  function Joined(rows: seq<Row>): string {
    if rows == [] then "" else RowText(rows[0]) + Joined(rows[1..])
  }

  method FixtureManifestHash(entries: seq<Entry>, digest: string -> string)
    returns (r: Result<(string, seq<string>, nat), HashError>)
    ensures r.Success? <==> Acceptable(entries)
    ensures r.Success? ==> r.value.2 == Size(entries)
    ensures r.Success? ==> exists rows: seq<Row> ::
      && multiset(rows) == multiset(Rows(entries, "")) && Ascending(rows)
      && r.value.0 == digest(Joined(rows)) && r.value.1 == seq(|rows|, i requires 0 <= i < |rows| => rows[i].rel)
  {
    var walked :- Walk(entries, "", [], 0);
    var rows := SortRows(walked.0);
    return Success((digest(Joined(rows)), seq(|rows|, i requires 0 <= i < |rows| => rows[i].rel), walked.1));
  }

  // -------------------------------------------------------------------------
  // Canonical and injective
  // -------------------------------------------------------------------------

  /** What a file system lists: distinct non-empty names without slashes. */
  predicate Listed(entries: seq<Entry>)
    decreases entries
  {
    && (forall e | e in entries :: e.name != "" && '/' !in e.name && (e.node.Dir? ==> Listed(e.node.entries)))
    && (forall i, j | 0 <= i < j < |entries| :: entries[i].name != entries[j].name)
  }

  /** A path at or below another. */
  predicate Under(rel: string, base: string) {
    rel == base || base + "/" <= rel
  }

  lemma UnderTwice(rel: string, base: string, name: string)
    requires Under(rel, base + "/" + name)
    ensures Under(rel, base)
  {
    var below := base + "/" + name;
    assert rel[..|below|] == below;
    assert base + "/" == below[..|base| + 1] == rel[..|base| + 1];
  }

  lemma {:induction false} RowsUnder(e: Entry, prefix: string)
    requires e.name != "" && (e.node.Dir? ==> Listed(e.node.entries))
    ensures forall r | r in RowsAt(e, prefix) :: Under(r.rel, RelOf(prefix, e.name))
    decreases e
  {
    if e.node.Dir? { RowsBelow(e.node.entries, RelOf(prefix, e.name)); }
  }

  lemma {:induction false} RowsBelow(entries: seq<Entry>, base: string)
    requires Listed(entries) && base != ""
    ensures forall r | r in Rows(entries, base) :: Under(r.rel, base)
    decreases entries
  {
    if entries != [] {
      ListedRest(entries);
      RowsUnder(entries[0], base);
      RowsBelow(entries[1..], base);
      hide RowsAt, Under;
      forall r | r in RowsAt(entries[0], base) ensures Under(r.rel, base) { UnderTwice(r.rel, base, entries[0].name); }
    }
  }

  lemma {:induction false} ListedRest(entries: seq<Entry>)
    requires Listed(entries) && entries != []
    ensures Listed(entries[1..])
    ensures var e := entries[0]; e.name != "" && '/' !in e.name && (e.node.Dir? ==> Listed(e.node.entries))
    ensures forall e | e in entries[1..] :: e in entries && e.name != entries[0].name
  {}

  /** What precedes the first `c`. */
  function UpTo(s: string, c: char): string {
    if s == "" || s[0] == c then "" else [s[0]] + UpTo(s[1..], c)
  }

  lemma {:induction false} UpToFirst(w: string, c: char, rest: string)
    requires c !in w
    ensures UpTo(w, c) == w && UpTo(w + [c] + rest, c) == w
  {
    if w != "" {
      UpToFirst(w[1..], c, rest);
      assert (w + [c] + rest)[1..] == w[1..] + [c] + rest;
      assert w == [w[0]] + w[1..];
    }
  }

  /** The name is the first segment after the prefix. */
  lemma FirstSegment(rel: string, prefix: string, name: string)
    requires '/' !in name && Under(rel, RelOf(prefix, name))
    ensures var n := if prefix == "" then 0 else |prefix| + 1; n <= |rel| && UpTo(rel[n..], '/') == name
  {
    var n := if prefix == "" then 0 else |prefix| + 1;
    var x := RelOf(prefix, name);
    assert x[n..] == name && rel[..|x|] == x;
    UpToFirst(name, '/', if rel == x then "" else rel[|x| + 1..]);
    if rel != x {
      assert rel == x + "/" + rel[|x| + 1..];
      assert rel[n..] == name + ['/'] + rel[|x| + 1..];
    }
  }

  /** No path is under two names of one listing. */
  lemma Apart(rel: string, prefix: string, a: string, b: string)
    requires '/' !in a && '/' !in b && Under(rel, RelOf(prefix, a)) && Under(rel, RelOf(prefix, b))
    ensures a == b
  {
    FirstSegment(rel, prefix, a);
    FirstSegment(rel, prefix, b);
  }

  predicate DistinctRels(rows: seq<Row>) {
    forall i, j | 0 <= i < j < |rows| :: rows[i].rel != rows[j].rel
  }

  lemma DistinctConcat(a: seq<Row>, b: seq<Row>)
    requires DistinctRels(a) && DistinctRels(b)
    requires forall r, q | r in a && q in b :: r.rel != q.rel
    ensures DistinctRels(a + b)
  {}

  lemma {:induction false} RowsDistinct(entries: seq<Entry>, prefix: string)
    requires Listed(entries)
    ensures DistinctRels(Rows(entries, prefix))
    decreases entries
  {
    if entries != [] {
      var e, rest := entries[0], entries[1..];
      ListedRest(entries);
      RowsDistinct(rest, prefix);
      assert DistinctRels(RowsAt(e, prefix)) by {
        if e.node.Dir? { RowsDistinct(e.node.entries, RelOf(prefix, e.name)); }
      }
      RowsUnder(e, prefix);
      NamesBelow(rest, prefix);
      hide RowsAt, Under, DistinctRels, RelOf, Listed;
      forall r, q | r in RowsAt(e, prefix) && q in Rows(rest, prefix) ensures r.rel != q.rel {
        var x :| x in rest && Under(q.rel, RelOf(prefix, x.name));
        if r.rel == q.rel { Apart(r.rel, prefix, e.name, x.name); }
      }
      DistinctConcat(RowsAt(e, prefix), Rows(rest, prefix));
    }
  }

  lemma {:induction false} NamesBelow(entries: seq<Entry>, prefix: string)
    requires Listed(entries)
    ensures forall r | r in Rows(entries, prefix) :: exists e | e in entries :: '/' !in e.name && Under(r.rel, RelOf(prefix, e.name))
  {
    if entries != [] {
      ListedRest(entries);
      RowsUnder(entries[0], prefix);
      NamesBelow(entries[1..], prefix);
      hide RowsAt, Under, RelOf, Listed;
      forall r | r in Rows(entries, prefix) ensures exists e | e in entries :: '/' !in e.name && Under(r.rel, RelOf(prefix, e.name)) {
        if r in RowsAt(entries[0], prefix) {
          assert entries[0] in entries;
        } else {
          var e :| e in entries[1..] && '/' !in e.name && Under(r.rel, RelOf(prefix, e.name));
          assert e in entries;
        }
      }
    }
  }

  lemma {:induction false} RowsClean(entries: seq<Entry>, prefix: string)
    requires Clean(entries, prefix)
    ensures forall r | r in Rows(entries, prefix) :: RelOk(r.rel)
    decreases entries
  {
    hide RelOk;
    if entries != [] {
      var e := entries[0];
      assert CleanAt(e, prefix);
      RowsClean(entries[1..], prefix);
      if e.node.Dir? { RowsClean(e.node.entries, RelOf(prefix, e.name)); }
    }
  }

  /** A printable path and a digest of 64 characters that are no newline. */
  predicate RowOk(r: Row) {
    '\n' !in r.rel && |r.sha| == 64 && '\n' !in r.sha
  }

  /** A line starts no other line. */
  lemma LinesAlign(a: Row, b: Row, x: string, y: string)
    requires RowOk(a) && RowOk(b) && RowText(a) + x == RowText(b) + y
    ensures a == b && x == y
  {
    var s, t := a.rel + ":" + a.sha, b.rel + ":" + b.sha;
    UpToFirst(s, '\n', x);
    UpToFirst(t, '\n', y);
    assert RowText(a) + x == s + ['\n'] + x && RowText(b) + y == t + ['\n'] + y;
    assert (s + ['\n'] + x)[|s| + 1..] == x && (t + ['\n'] + y)[|t| + 1..] == y;
    assert s[..|s| - 65] == a.rel && t[..|t| - 65] == b.rel;
    assert s[|s| - 64..] == a.sha && t[|t| - 64..] == b.sha;
  }

  lemma {:induction false} JoinedInjective(a: seq<Row>, b: seq<Row>)
    requires (forall r | r in a :: RowOk(r)) && (forall r | r in b :: RowOk(r))
    requires Joined(a) == Joined(b)
    ensures a == b
  {
    hide RowText, RowOk;
    if a != [] && b != [] {
      LinesAlign(a[0], b[0], Joined(a[1..]), Joined(b[1..]));
      JoinedInjective(a[1..], b[1..]);
      assert a == [a[0]] + a[1..] && b == [b[0]] + b[1..];
    } else {
      NonEmptyLines(a);
      NonEmptyLines(b);
    }
  }

  lemma {:induction false} NonEmptyLines(rows: seq<Row>)
    ensures Joined(rows) == "" <==> rows == []
  {}

  /** Sorting leaves one arrangement of rows with distinct paths. */
  lemma {:induction false} OneArrangement(a: seq<Row>, b: seq<Row>)
    requires Ascending(a) && DistinctRels(a) && Ascending(b) && DistinctRels(b)
    requires forall r :: r in a <==> r in b
    ensures a == b
  {
    hide Less;
    if a != [] { assert a[0] in a; }
    if b != [] { assert b[0] in b; }
    if a != [] {
      assert a[0] in b;
      var j :| 0 <= j < |b| && b[j] == a[0];
      assert b[0] in a;
      var i :| 0 <= i < |a| && a[i] == b[0];
      Total(a[0].rel, b[0].rel);
      assert a[0] == b[0];
      forall r ensures r in a[1..] <==> r in b[1..] {
        RestMember(a, r);
        RestMember(b, r);
      }
      OneArrangement(a[1..], b[1..]);
      assert a == [a[0]] + a[1..] && b == [b[0]] + b[1..];
    }
  }

  lemma RestMember(a: seq<Row>, r: Row)
    requires a != [] && DistinctRels(a)
    ensures r in a[1..] <==> r in a && r != a[0]
  {
    if r in a && r != a[0] {
      var i :| 0 <= i < |a| && a[i] == r;
      assert a[1..][i - 1] == r;
    }
  }

  lemma {:induction false} DistinctPermuted(a: seq<Row>, b: seq<Row>)
    requires multiset(a) == multiset(b) && DistinctRels(a)
    ensures DistinctRels(b)
    decreases |b|
  {
    if b != [] {
      var pre, post := Without(b, a);
      assert forall i | 0 <= i < |pre + post| :: (pre + post)[i] == a[if i < |pre| then i else i + 1];
      assert a[|pre|] == b[0];
      DistinctPermuted(pre + post, b[1..]);
      SameMembers(pre + post, b[1..]);
      forall j | 0 <= j < |b| - 1 ensures b[0].rel != b[1..][j].rel {
        assert b[1..][j] in pre + post;
      }
    }
  }

  /** Two accepted trees have the same preimage exactly when they hold the same
      files under the same paths: the order of listings plays no part, and no
      path or digest can pass for another. */
  lemma {:induction false} PreimageIff(x: seq<Entry>, y: seq<Entry>, a: seq<Row>, b: seq<Row>)
    requires Acceptable(x) && Listed(x) && Acceptable(y) && Listed(y)
    requires forall r | r in Rows(x, "") + Rows(y, "") :: |r.sha| == 64 && '\n' !in r.sha
    requires multiset(a) == multiset(Rows(x, "")) && Ascending(a) && multiset(b) == multiset(Rows(y, ""))
      && Ascending(b)
    ensures Joined(a) == Joined(b) <==> forall r :: r in Rows(x, "") <==> r in Rows(y, "")
  {
    RowsClean(x, "");
    RowsClean(y, "");
    RowsDistinct(x, "");
    RowsDistinct(y, "");
    hide Rows, Ascending, DistinctRels, Joined, Utf8Bytes;
    SameMembers(a, Rows(x, ""));
    SameMembers(b, Rows(y, ""));
    DistinctPermuted(Rows(x, ""), a);
    DistinctPermuted(Rows(y, ""), b);
    if Joined(a) == Joined(b) {
      AllRowsOk(Rows(x, ""), a);
      AllRowsOk(Rows(y, ""), b);
      JoinedInjective(a, b);
    }
    if forall r :: r in Rows(x, "") <==> r in Rows(y, "") {
      OneArrangement(a, b);
    }
  }

  lemma AllRowsOk(rows: seq<Row>, a: seq<Row>)
    requires forall r | r in rows :: RelOk(r.rel) && |r.sha| == 64 && '\n' !in r.sha
    requires forall r | r in a :: r in rows
    ensures forall r | r in a :: RowOk(r)
  {
    hide Utf8Bytes;
  }
}
