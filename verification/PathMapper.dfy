/** Anonymized paths that keep their overlaps (delegation-history-fixture.ts). */
module PathMapper {
  import opened Outcomes
  import opened Text
  import opened Fields

  // -------------------------------------------------------------------------
  // Sorted distinct strings
  // -------------------------------------------------------------------------

  /** The order of UTF-8 bytes, which is that of code points. */
  predicate Before(a: string, b: string) {
    b != "" && (a == "" || a[0] < b[0] || (a[0] == b[0] && Before(a[1..], b[1..])))
  }

  lemma {:induction false} BeforeTotal(a: string, b: string)
    ensures Before(a, b) || a == b || Before(b, a)
    ensures !(Before(a, b) && Before(b, a)) && !Before(a, a)
  {
    if a != "" {
      BeforeTotal(a[1..], a[1..]);
      if b != "" {
        BeforeTotal(a[1..], b[1..]);
        assert a == [a[0]] + a[1..] && b == [b[0]] + b[1..];
      }
    }
  }

  lemma {:induction false} BeforeTransitive(a: string, b: string, c: string)
    requires Before(a, b) && Before(b, c)
    ensures Before(a, c)
  {
    if a != "" && a[0] == b[0] == c[0] { BeforeTransitive(a[1..], b[1..], c[1..]); }
  }

  predicate Ascending(s: seq<string>) {
    forall i, j | 0 <= i < j < |s| :: Before(s[i], s[j])
  }

  function InsertNew(s: seq<string>, x: string): seq<string> {
    if s == [] || Before(x, s[0]) then [x] + s
    else if s[0] == x then s
    else [s[0]] + InsertNew(s[1..], x)
  }

  lemma {:induction false} InsertedOnce(s: seq<string>, x: string)
    requires Ascending(s)
    ensures Ascending(InsertNew(s, x)) && forall y :: y in InsertNew(s, x) <==> y in s || y == x
  {
    if s == [] {
    } else if Before(x, s[0]) {
      forall j | 0 <= j < |s| ensures Before(x, s[j]) {
        if j > 0 { BeforeTransitive(x, s[0], s[j]); }
      }
    } else if s[0] != x {
      var rest := InsertNew(s[1..], x);
      InsertedOnce(s[1..], x);
      BeforeTotal(x, s[0]);
      assert s == [s[0]] + s[1..];
      forall j | 0 <= j < |rest| ensures Before(s[0], rest[j]) { assert rest[j] in s[1..] || rest[j] == x; }
    }
  }

  /** `[...new Set(values)].sort(byteCompare)`. */
  function ByteSorted(values: seq<string>): (r: seq<string>)
    ensures Ascending(r) && forall x :: x in r <==> x in values
  {
    if values == [] then []
    else
      var n := |values| - 1;
      InsertedOnce(ByteSorted(values[..n]), values[n]);
      assert values == values[..n] + [values[n]];
      InsertNew(ByteSorted(values[..n]), values[n])
  }

  lemma AscendingDistinct(s: seq<string>, i: nat, j: nat)
    requires Ascending(s) && i < |s| && j < |s| && s[i] == s[j]
    ensures i == j
  {
    BeforeTotal(s[i], s[i]);
  }

  // -------------------------------------------------------------------------
  // Segments
  // -------------------------------------------------------------------------

  function JoinSlash(pieces: seq<string>): string {
    if pieces == [] then ""
    else if |pieces| == 1 then pieces[0]
    else pieces[0] + "/" + JoinSlash(pieces[1..])
  }

  lemma {:induction false} SplitFirst(w: string, rest: string)
    requires '/' !in w
    ensures SlashPieces(w + "/" + rest) == [w] + SlashPieces(rest)
  {
    var p := w + "/" + rest;
    if w == "" {
      assert p[1..] == rest;
    } else {
      SplitFirst(w[1..], rest);
      assert p[1..] == w[1..] + "/" + rest;
      assert [w[0]] + w[1..] == w;
    }
  }

  lemma {:induction false} SplitWhole(w: string)
    requires '/' !in w
    ensures SlashPieces(w) == [w]
  {
    if w != "" {
      SplitWhole(w[1..]);
      assert [w[0]] + w[1..] == w;
    }
  }

  /** Joined pieces come apart again. */
  lemma {:induction false} SplitJoined(pieces: seq<string>)
    requires pieces != [] && forall w | w in pieces :: '/' !in w
    ensures SlashPieces(JoinSlash(pieces)) == pieces
  {
    if |pieces| == 1 {
      SplitWhole(pieces[0]);
    } else {
      SplitJoined(pieces[1..]);
      SplitFirst(pieces[0], JoinSlash(pieces[1..]));
      assert pieces == [pieces[0]] + pieces[1..];
    }
  }

  /** An empty piece in front. */
  lemma {:induction false} JoinSlashFirst(pieces: seq<string>)
    requires pieces != []
    ensures JoinSlash([""] + pieces) == "/" + JoinSlash(pieces)
  {
    assert ([""] + pieces)[1..] == pieces;
  }

  /** A character more in the first piece. */
  lemma {:induction false} JoinCharFirst(c: char, pieces: seq<string>)
    requires pieces != []
    ensures JoinSlash([[c] + pieces[0]] + pieces[1..]) == [c] + JoinSlash(pieces)
  {
    assert ([[c] + pieces[0]] + pieces[1..])[1..] == pieces[1..];
    if |pieces| > 1 {
      assert [c] + pieces[0] + "/" + JoinSlash(pieces[1..]) == [c] + (pieces[0] + "/" + JoinSlash(pieces[1..]));
    }
  }

  lemma {:induction false} PiecesPlain(p: string)
    ensures forall w | w in SlashPieces(p) :: '/' !in w
  {
    if p != "" {
      PiecesPlain(p[1..]);
      var r := SlashPieces(p[1..]);
      assert forall w | w in r[1..] :: w in r;
      assert '/' !in r[0] by { assert r[0] in r; }
    }
  }

  lemma {:induction false} JoinSplit(p: string)
    ensures JoinSlash(SlashPieces(p)) == p && forall w | w in SlashPieces(p) :: '/' !in w
  {
    hide JoinSlash;
    PiecesPlain(p);
    if p == "" {
      JoinEmpty();
    } else {
      JoinSplit(p[1..]);
      var r := SlashPieces(p[1..]);
      assert p == [p[0]] + p[1..];
      if p[0] == '/' { JoinSlashFirst(r); } else { JoinCharFirst(p[0], r); }
    }
  }

  lemma JoinEmpty()
    ensures JoinSlash([""]) == ""
  {}

  /** At a path or beneath it. */
  predicate Under(p: string, q: string) {
    p == q || q + "/" <= p
  }

  lemma {:induction false} JoinPrefix(a: seq<string>, b: seq<string>)
    requires a != [] && b != []
    ensures JoinSlash(a + b) == JoinSlash(a) + "/" + JoinSlash(b)
  {
    if |a| == 1 {
      assert (a + b)[1..] == b;
    } else {
      JoinPrefix(a[1..], b);
      assert (a + b)[1..] == a[1..] + b;
    }
  }

  /** A path is under another when its segments begin with the other's. */
  lemma {:induction false} UnderIff(p: string, q: string)
    ensures Under(p, q) <==> SlashPieces(q) <= SlashPieces(p)
  {
    var a, b := SlashPieces(p), SlashPieces(q);
    JoinSplit(p);
    JoinSplit(q);
    if b <= a && b != a {
      var rest := a[|b|..];
      assert a == b + rest;
      JoinPrefix(b, rest);
    }
    if q + "/" <= p {
      var rest := p[|q| + 1..];
      assert p == q + "/" + rest;
      JoinSplit(rest);
      JoinPrefix(b, SlashPieces(rest));
      assert forall w | w in b + SlashPieces(rest) :: '/' !in w;
      SplitJoined(b + SlashPieces(rest));
    }
  }

  // -------------------------------------------------------------------------
  // Tokens
  // -------------------------------------------------------------------------

  /** `padStart(n, "0")`. */
  function PadStart(s: string, n: nat): (r: string)
    requires Digits(s)
    ensures Digits(r)
    decreases n - |s|
  {
    if |s| >= n then s else PadStart("0" + s, n)
  }

  lemma {:induction false} LeadingZero(s: string)
    requires Digits(s)
    ensures Value("0" + s) == Value(s)
  {
    if s == "" {
      assert "0"[..0] == "";
    } else {
      LeadingZero(s[..|s| - 1]);
      assert ("0" + s)[..|s|] == "0" + s[..|s| - 1];
    }
  }

  lemma {:induction false} PaddedValue(s: string, n: nat)
    requires Digits(s)
    ensures Value(PadStart(s, n)) == Value(s)
    decreases n - |s|
  {
    if |s| < n {
      PaddedValue("0" + s, n);
      LeadingZero(s);
    }
  }

  function Token(index: nat): string {
    "s" + PadStart(Decimal(index + 1), 4)
  }

  lemma TokenValue(i: nat)
    ensures Token(i) != "" && Digits(Token(i)[1..]) && Value(Token(i)[1..]) == i + 1
  {
    hide Value, PadStart, Decimal;
    var number := PadStart(Decimal(i + 1), 4);
    assert Token(i)[1..] == number;
    PaddedValue(Decimal(i + 1), 4);
    DecimalValue(i + 1);
  }

  lemma TokenInjective(i: nat, j: nat)
    requires Token(i) == Token(j)
    ensures i == j
  {
    hide *;
    TokenValue(i);
    TokenValue(j);
  }

  lemma TokenChars(i: nat)
    ensures Token(i) != "" && '/' !in Token(i) && '*' !in Token(i)
  {}

  // -------------------------------------------------------------------------
  // The mapper
  // -------------------------------------------------------------------------

  function Suffix(path: string): string {
    if EndsWith(path, "/**") then "/**" else if EndsWith(path, "/") then "/" else ""
  }

  function Base(path: string): string {
    path[..|path| - |Suffix(path)|]
  }

  lemma BaseAndSuffix(path: string)
    ensures path == Base(path) + Suffix(path)
  {}

  predicate Plain(segment: string) {
    segment != "" && segment != "**"
  }

  function PlainOnes(pieces: seq<string>): (r: seq<string>)
    ensures forall x :: x in r <==> x in pieces && Plain(x)
  {
    if pieces == [] then []
    else
      assert pieces == [pieces[0]] + pieces[1..];
      (if Plain(pieces[0]) then [pieces[0]] else []) + PlainOnes(pieces[1..])
  }

  function AllSegments(paths: seq<string>): (r: seq<string>)
    ensures forall x :: x in r <==> Plain(x) && exists p | p in paths :: x in SlashPieces(Base(p))
  {
    if paths == [] then []
    else
      assert paths == [paths[0]] + paths[1..];
      PlainOnes(SlashPieces(Base(paths[0]))) + AllSegments(paths[1..])
  }

  /** The segment table: a segment's token is that of its place. */
  function Segments(paths: seq<string>): (r: seq<string>)
    ensures Ascending(r) && forall x :: x in r <==> Plain(x) && exists p | p in paths :: x in SlashPieces(Base(p))
  {
    ByteSorted(AllSegments(paths))
  }

  function IndexOf(segments: seq<string>, x: string): (i: nat)
    requires x in segments
    ensures i < |segments| && segments[i] == x
  {
    if segments[0] == x then 0 else
      assert segments == [segments[0]] + segments[1..];
      1 + IndexOf(segments[1..], x)
  }

  function MapSegments(segments: seq<string>, pieces: seq<string>): (r: Option<seq<string>>)
    ensures r.Some? <==> forall x | x in pieces :: x in segments
    ensures r.Some? ==> |r.value| == |pieces| && forall i | 0 <= i < |pieces| :: r.value[i] == Token(IndexOf(segments, pieces[i]))
  {
    if pieces == [] then Some([])
    else
      assert pieces == [pieces[0]] + pieces[1..];
      if pieces[0] !in segments then None
      else
        var rest := MapSegments(segments, pieces[1..]);
        if rest.None? then None else Some([Token(IndexOf(segments, pieces[0]))] + rest.value)
  }

  /** `None` when a segment has no token. */
  function Map(segments: seq<string>, path: string): Option<string> {
    var mapped := MapSegments(segments, SlashPieces(Base(path)));
    if mapped.None? then None else Some(JoinSlash(mapped.value) + Suffix(path))
  }

  /** A path the mapper was built from is mapped exactly when its segments are
      neither empty nor wildcards. */
  lemma MappedIff(paths: seq<string>, path: string)
    requires path in paths
    ensures Map(Segments(paths), path).Some? <==> forall x | x in SlashPieces(Base(path)) :: Plain(x)
  {
    hide SlashPieces, Base, Plain;
  }

  ghost predicate Mapped(segments: seq<string>, path: string, image: string) {
    Map(segments, path) == Some(image)
  }

  /** The image has the tokens for segments, and the path's own suffix. */
  lemma {:induction false} ImageParts(segments: seq<string>, path: string, image: string)
    requires Mapped(segments, path, image)
    ensures Suffix(image) == Suffix(path)
    ensures Some(SlashPieces(Base(image))) == MapSegments(segments, SlashPieces(Base(path)))
  {
    hide Token, IndexOf;
    var tokens := MapSegments(segments, SlashPieces(Base(path))).value;
    TokensPlain(segments, SlashPieces(Base(path)));
    SplitJoined(tokens);
    JoinedEnd(tokens);
    SuffixOf(JoinSlash(tokens), Suffix(path));
  }

  lemma {:induction false} TokensPlain(segments: seq<string>, pieces: seq<string>)
    requires MapSegments(segments, pieces).Some?
    ensures forall t | t in MapSegments(segments, pieces).value :: t != "" && '/' !in t && '*' !in t
  {
    hide Token;
    var tokens := MapSegments(segments, pieces).value;
    forall t | t in tokens ensures t != "" && '/' !in t && '*' !in t {
      var i :| 0 <= i < |tokens| && tokens[i] == t;
      TokenChars(IndexOf(segments, pieces[i]));
    }
  }

  lemma {:induction false} JoinedEnd(tokens: seq<string>)
    requires tokens != [] && forall t | t in tokens :: t != "" && '/' !in t && '*' !in t
    ensures var s := JoinSlash(tokens); s != "" && s[|s| - 1] != '/' && s[|s| - 1] != '*'
  {
    if |tokens| == 1 {
      assert tokens[0] in tokens;
      assert tokens[0][|tokens[0]| - 1] in tokens[0];
    } else {
      JoinedEnd(tokens[1..]);
    }
  }

  lemma SuffixOf(base: string, suffix: string)
    requires base != "" && base[|base| - 1] != '/' && base[|base| - 1] != '*' && suffix in {"", "/", "/**"}
    ensures Suffix(base + suffix) == suffix && Base(base + suffix) == base
  {
    var p := base + suffix;
    EndsAlike(p, "/**");
    EndsAlike(p, "/");
    assert p[|base|..] == suffix && p[..|base|] == base;
    if suffix == "" { assert p == base; }
  }

  lemma EndsAlike(p: string, suffix: string)
    requires suffix != ""
    ensures EndsWith(p, suffix) ==> p[|p| - 1] == suffix[|suffix| - 1]
  {
    if EndsWith(p, suffix) { assert p[|p| - |suffix|..][|suffix| - 1] == suffix[|suffix| - 1]; }
  }

  lemma {:induction false} SameIndex(segments: seq<string>, x: string, y: string)
    requires x in segments && y in segments && Token(IndexOf(segments, x)) == Token(IndexOf(segments, y))
    ensures x == y
  {
    TokenInjective(IndexOf(segments, x), IndexOf(segments, y));
  }

  /** Segment lists are prefixes of one another when their tokens are. */
  lemma {:induction false} MapPrefix(segments: seq<string>, a: seq<string>, b: seq<string>)
    requires MapSegments(segments, a).Some? && MapSegments(segments, b).Some?
    ensures b <= a <==> MapSegments(segments, b).value <= MapSegments(segments, a).value
  {
    hide Token, IndexOf;
    var x, y := MapSegments(segments, a).value, MapSegments(segments, b).value;
    if y <= x {
      forall i | 0 <= i < |b| ensures b[i] == a[i] {
        assert y[i] == x[i];
        SameIndex(segments, b[i], a[i]);
      }
    }
    if b <= a {
      forall i | 0 <= i < |b| ensures y[i] == x[i] { assert b[i] == a[i]; }
    }
  }

  /** A path lies at or beneath another exactly when its image does. */
  lemma OverlapKept(segments: seq<string>, p: string, q: string, p': string, q': string)
    requires Mapped(segments, p, p') && Mapped(segments, q, q')
    ensures Under(Base(p), Base(q)) <==> Under(Base(p'), Base(q'))
  {
    hide SlashPieces, Base, MapSegments, Under;
    ImageParts(segments, p, p');
    ImageParts(segments, q, q');
    UnderIff(Base(p), Base(q));
    UnderIff(Base(p'), Base(q'));
    MapPrefix(segments, SlashPieces(Base(p)), SlashPieces(Base(q)));
  }

  /** Distinct paths have distinct images. */
  lemma MapInjective(segments: seq<string>, p: string, q: string, image: string)
    requires Mapped(segments, p, image) && Mapped(segments, q, image)
    ensures p == q
  {
    hide SlashPieces, Base, MapSegments, Suffix;
    ImageParts(segments, p, image);
    ImageParts(segments, q, image);
    var a, b := SlashPieces(Base(p)), SlashPieces(Base(q));
    MapPrefix(segments, a, b);
    MapPrefix(segments, b, a);
    assert a <= b && b <= a && |a| == |b|;
    assert a == b;
    JoinSplit(Base(p));
    JoinSplit(Base(q));
    BaseAndSuffix(p);
    BaseAndSuffix(q);
  }

  /** The images of a list. */
  function Images(segments: seq<string>, paths: seq<string>): (r: Option<seq<string>>)
    ensures r.Some? <==> forall p | p in paths :: Map(segments, p).Some?
    ensures r.Some? ==> |r.value| == |paths| && forall i | 0 <= i < |paths| :: Mapped(segments, paths[i], r.value[i])
  {
    if paths == [] then Some([])
    else
      assert paths == [paths[0]] + paths[1..];
      var image := Map(segments, paths[0]);
      var rest := Images(segments, paths[1..]);
      if image.None? || rest.None? then None else Some([image.value] + rest.value)
  }

  function MapList(segments: seq<string>, paths: seq<string>): Option<seq<string>> {
    var images := Images(segments, paths);
    if images.None? then None else Some(ByteSorted(images.value))
  }

  /** Mapping a list merges no two distinct paths. */
  lemma MapListMergesNone(segments: seq<string>, paths: seq<string>)
    requires MapList(segments, paths).Some?
    ensures var images := MapList(segments, paths).value;
      && Ascending(images)
      && (forall x :: x in images <==> exists p | p in paths :: Mapped(segments, p, x))
      && |images| == |Distinct(paths)|
  {
    var mapped, images := Images(segments, paths).value, MapList(segments, paths).value;
    hide Map, Mapped;
    forall x ensures x in images <==> exists p | p in paths :: Mapped(segments, p, x) {
      if x in images {
        var i :| 0 <= i < |mapped| && mapped[i] == x;
        assert paths[i] in paths && Mapped(segments, paths[i], x);
      }
      if p :| p in paths && Mapped(segments, p, x) {
        var i :| 0 <= i < |paths| && paths[i] == p;
        SameImage(segments, p, x, mapped[i]);
        assert mapped[i] in images;
      }
    }
    MembersSize(images);
    ImageSize(segments, Distinct(paths));
    MembersAre(segments, images, paths);
  }

  function Distinct(paths: seq<string>): set<string> {
    set p | p in paths
  }

  function ImageSet(segments: seq<string>, paths: set<string>): set<string>
    requires forall p | p in paths :: Map(segments, p).Some?
  {
    set p | p in paths :: Map(segments, p).value
  }

  lemma MembersAre(segments: seq<string>, images: seq<string>, paths: seq<string>)
    requires forall p | p in paths :: Map(segments, p).Some?
    requires forall x :: x in images <==> exists p | p in paths :: Mapped(segments, p, x)
    ensures Distinct(images) == ImageSet(segments, Distinct(paths))
  {
    hide Map;
    forall x ensures x in Distinct(images) <==> x in ImageSet(segments, Distinct(paths)) {
      if x in Distinct(images) {
        var p :| p in paths && Mapped(segments, p, x);
        assert p in Distinct(paths);
      }
      if x in ImageSet(segments, Distinct(paths)) {
        var p :| p in Distinct(paths) && Map(segments, p).value == x;
        assert p in paths && Mapped(segments, p, x);
      }
    }
  }

  /** Distinct paths have as many images. */
  lemma {:induction false} ImageSize(segments: seq<string>, paths: set<string>)
    requires forall p | p in paths :: Map(segments, p).Some?
    ensures |ImageSet(segments, paths)| == |paths|
  {
    hide Map;
    if paths != {} {
      var p :| p in paths;
      var less, x := paths - {p}, Map(segments, p).value;
      ImageSize(segments, less);
      if x in ImageSet(segments, less) {
        var q :| q in less && Map(segments, q).value == x;
        MapInjective(segments, p, q, x);
      }
      assert ImageSet(segments, paths) == ImageSet(segments, less) + {x};
    }
  }

  lemma {:induction false} MembersSize(s: seq<string>)
    requires Ascending(s)
    ensures |Distinct(s)| == |s|
  {
    hide Before;
    if s != [] {
      var rest := s[1..];
      MembersSize(rest);
      RestOf(s, s[0]);
      assert s == [s[0]] + rest;
      assert Distinct(s) == Distinct(rest) + {s[0]};
    }
  }

  lemma SameImage(segments: seq<string>, p: string, x: string, y: string)
    requires Mapped(segments, p, x) && Mapped(segments, p, y)
    ensures x == y
  {}

  lemma RestOf(images: seq<string>, y: string)
    requires images != [] && Ascending(images)
    ensures y in images[1..] <==> y in images && y != images[0]
  {
    if y in images[1..] && y == images[0] {
      var i :| 0 <= i < |images| - 1 && images[1..][i] == y;
      AscendingDistinct(images, 0, i + 1);
    }
    if y in images && y != images[0] {
      var i :| 0 <= i < |images| && images[i] == y;
      assert images[1..][i - 1] == y;
    }
  }
}
