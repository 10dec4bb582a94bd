/** The manifest assembled from a preflighted record, and exactly when the
    strict parser accepts it (commander-native-tool-benchmark-v2-prepare.ts). */
module Assembly {
  import opened Outcomes
  import opened Text
  import opened Interleave
  import opened Fields
  import opened Records
  import opened SessionShape
  import opened Manifest
  import opened SourceNames
  import opened Preflight
  import M = Manifest
  import C = Classifier

  /** Where the evidence copy of a source is kept, relative to the runs root. */
  function EvidencePath(kind: EntryKind, tag: C.Tag): string {
    Joined(EVIDENCE_DIR_NAME, if kind.Session? then "sessions" else "attempts", tag.name, tag.basename)
  }

  function Joined(a: string, b: string, c: string, d: string): string {
    a + "/" + (b + "/" + (c + "/" + d))
  }

  function ManifestSessions(runs: seq<C.RunFacts>): seq<ManifestSession> {
    seq(|runs|, i requires 0 <= i < |runs| =>
      ManifestSession(runs[i].tag.name, runs[i].tag.arm, runs[i].orderIndex, EvidencePath(Session, runs[i].tag), runs[i].tag.rawSha256))
  }

  function ManifestAttempts(attempts: seq<C.AttemptFacts>): seq<ManifestAttempt> {
    seq(|attempts|, i requires 0 <= i < |attempts| =>
      ManifestAttempt(attempts[i].tag.name, attempts[i].tag.arm, EvidencePath(Attempt, attempts[i].tag), attempts[i].tag.rawSha256,
        attempts[i].promptSha256, attempts[i].category))
  }

  function Assemble(record: CollectionRecord, runs: seq<C.RunFacts>, attempts: seq<C.AttemptFacts>,
                    p: Protocol): Manifest {
    Manifest(BENCHMARK_SCHEMA_VERSION, FROZEN_VERSION, FROZEN_DOC, record.phase, record.milestonePromptSha256, p.environment,
      Fixture(EVIDENCE_DIR_NAME + "/" + FIXTURE_DIR_NAME, record.fixtureManifestSha256), record.nonTreatmentSha256,
      Rubric(record.rubricSha256, p.rubricChecks), ManifestSessions(runs), ManifestAttempts(attempts))
  }

  // -------------------------------------------------------------------------
  // Base names
  // -------------------------------------------------------------------------

  predicate EndsAs(pieces: seq<string>, end: seq<string>) {
    |pieces| >= |end| && pieces[|pieces| - |end|..] == end
  }

  /** One more piece, or one piece longer, in front. */
  lemma OneMorePiece(piece: string, pieces: seq<string>, end: seq<string>)
    requires EndsAs(pieces, end)
    ensures EndsAs([piece] + pieces, end)
    ensures |pieces| > |end| ==> EndsAs([piece] + pieces[1..], end)
  {
    var k := |pieces| - |end|;
    assert ([piece] + pieces)[k + 1..] == pieces[k..];
    if k > 0 { assert ([piece] + pieces[1..])[k..] == pieces[k..]; }
  }

  /** Pieces before a separator stay, pieces after it stay. */
  lemma {:induction false} PiecesAfter(pre: string, s: string)
    requires pre == "" || IsSeparator(pre[|pre| - 1])
    ensures EndsAs(Pieces(pre + s), Pieces(s))
    ensures pre != "" ==> |Pieces(pre + s)| > |Pieces(s)|
  {
    hide EndsAs;
    if pre == "" {
      assert pre + s == s;
      EndsSame(Pieces(s));
    } else {
      PiecesAfter(pre[1..], s);
      assert (pre + s)[1..] == pre[1..] + s;
      var rest := Pieces(pre[1..] + s);
      OneMorePiece("", rest, Pieces(s));
      OneMorePiece([pre[0]] + rest[0], rest, Pieces(s));
    }
  }

  lemma EndInside(pieces: seq<string>, end: seq<string>)
    requires EndsAs(pieces, end)
    ensures forall x | x in end :: x in pieces
  {
    forall x | x in end ensures x in pieces {
      var i :| 0 <= i < |end| && end[i] == x;
      assert pieces[|pieces| - |end| + i] == x;
    }
  }

  lemma EndsSame(pieces: seq<string>)
    ensures EndsAs(pieces, pieces)
  {
    assert pieces[0..] == pieces;
  }

  lemma {:induction false} BaseAfter(pre: string, s: string)
    requires pre == "" || IsSeparator(pre[|pre| - 1])
    ensures BaseName(pre + s) == BaseName(s)
  {
    if s == "" {
      assert pre + s == pre;
    } else {
      BaseAfter(pre, s[..|s| - 1]);
      assert (pre + s)[..|pre + s| - 1] == pre + s[..|s| - 1];
    }
  }

  lemma {:induction false} SlashSplit(p: string) returns (pre: string)
    ensures p == pre + SlashBase(p) && (pre == "" || pre[|pre| - 1] == '/')
    ensures '/' !in SlashBase(p)
  {
    if p == "" || p[|p| - 1] == '/' {
      pre := p;
    } else {
      pre := SlashSplit(p[..|p| - 1]);
      assert p == p[..|p| - 1] + [p[|p| - 1]];
    }
  }

  lemma {:induction false} OneSlashPiece(s: string)
    requires '/' !in s
    ensures SlashPieces(s) == [s]
  {
    if s != "" {
      OneSlashPiece(s[1..]);
      assert s == [s[0]] + s[1..];
    }
  }

  /** What a safe declared path's last slash segment keeps. */
  lemma {:induction false} SlashBaseSafe(p: string)
    requires Fields.PathOk(p)
    ensures var b := SlashBase(p);
      && b != "" && b != "." && 0 as char !in b && ".." !in Pieces(b)
      && SlashPieces(b) == [b] && BaseName(b) == BaseName(p)
  {
    hide Pieces, SlashPieces, BaseName, SlashBase, EndsAs;
    var b := SlashBase(p);
    var pre := SlashSplit(p);
    PiecesAfter(pre, b);
    EndInside(Pieces(p), Pieces(b));
    BaseAfter(pre, b);
    OneSlashPiece(b);
    assert 0 as char !in b;
    if b == "" || b == "." { DotBase(); }
  }

  lemma DotBase()
    ensures BaseName("") == "" && BaseName(".") == "."
  {
    assert "."[..0] == "";
  }

  // -------------------------------------------------------------------------
  // Evidence paths
  // -------------------------------------------------------------------------

  lemma {:induction false} JoinedPieces(a: string, b: string, c: string, d: string)
    requires WordChars(a) && WordChars(b) && WordChars(c)
    ensures Pieces(Joined(a, b, c, d)) == [a, b, c] + Pieces(d)
    ensures SlashPieces(Joined(a, b, c, d)) == [a, b, c] + SlashPieces(d)
    ensures BaseName(Joined(a, b, c, d)) == BaseName(d)
  {
    hide Pieces, SlashPieces, BaseName, WordChars;
    SplitAtSlash(c, d);
    SplitAtSlash(b, c + "/" + d);
    SplitAtSlash(a, b + "/" + (c + "/" + d));
    var pre := a + "/" + (b + "/" + (c + "/"));
    assert Joined(a, b, c, d) == pre + d && pre[|pre| - 1] == '/';
    BaseAfter(pre, d);
  }

  lemma JoinedChars(a: string, b: string, c: string, d: string)
    requires WordChars(a) && WordChars(b) && WordChars(c) && 0 as char !in d
    ensures 0 as char !in Joined(a, b, c, d)
  {
    NoNul(a);
    NoNul(b);
    NoNul(c);
    hide WordChars;
    assert 0 as char !in "/";
    assert 0 as char !in c + "/" + d;
    assert 0 as char !in b + "/" + (c + "/" + d);
  }

  lemma {:induction false} LetterStart(p: string)
    requires |p| >= 2 && IsLetter(p[0]) && IsLetter(p[1]) && 0 as char !in p && ".." !in Pieces(p)
    ensures SafeRelative(p)
  {
    hide Pieces;
  }

  lemma JoinedStart(a: string, b: string, c: string, d: string)
    requires |a| >= 2
    ensures var p := Joined(a, b, c, d); |p| >= 2 && p[0] == a[0] && p[1] == a[1]
  {
  }

  lemma {:induction false} JoinedSafe(a: string, b: string, c: string, d: string)
    requires WordChars(a) && WordChars(b) && WordChars(c) && |a| >= 3 && IsLetter(a[0]) && IsLetter(a[1])
    requires b !in {"", ".", ".."} && c !in {"", ".", ".."}
    requires d != "" && d != "." && ".." !in Pieces(d) && SlashPieces(d) == [d] && 0 as char !in d
    ensures SafeRelative(Joined(a, b, c, d)) && Resolve(Joined(a, b, c, d)) == [a, b, c, d]
  {
    hide *;
    var p := Joined(a, b, c, d);
    JoinedPieces(a, b, c, d);
    JoinedChars(a, b, c, d);
    JoinedStart(a, b, c, d);
    assert ".." !in [a, b, c];
    LetterStart(p);
    NamedFour(a, b, c, d);
    ResolveIs(p, [a, b, c, d]);
  }

  lemma {:induction false} ResolveIs(p: string, parts: seq<string>)
    requires SlashPieces(p) == parts && Named(parts) == parts
    ensures Resolve(p) == parts
  {}

  predicate IsLetter(c: char) {
    'a' <= c <= 'z'
  }

  lemma NoNul(s: string)
    requires WordChars(s)
    ensures 0 as char !in s
  {}

  lemma NamedFour(a: string, b: string, c: string, d: string)
    requires a !in {"", "."} && b !in {"", "."} && c !in {"", "."} && d !in {"", "."}
    ensures Named([a, b, c, d]) == [a, b, c, d]
  {
    assert [a, b, c, d][1..] == [b, c, d] && [b, c, d][1..] == [c, d] && [c, d][1..] == [d] && [d][1..] == [];
    assert Named([d]) == [d];
    assert Named([c, d]) == [c, d];
  }

  predicate NameWord(s: string) {
    WordChars(s) && SafeWord(s, "._-", 64) && s !in {"", ".", ".."}
  }

  /** Only its length can make an evidence path unacceptable. */
  lemma {:induction false} EvidencePathOk(kind: EntryKind, tag: C.Tag, declared: string)
    requires NameWord(tag.name) && Fields.PathOk(declared) && tag.basename == SlashBase(declared)
    ensures Fields.PathOk(EvidencePath(kind, tag)) <==> Utf8Bytes(EvidencePath(kind, tag)) <= PATH_MAX_BYTES
    ensures Resolve(EvidencePath(kind, tag)) ==
              [EVIDENCE_DIR_NAME, if kind.Session? then "sessions" else "attempts", tag.name, tag.basename]
  {
    SlashBaseSafe(declared);
    NamedEvidence(EVIDENCE_DIR_NAME, if kind.Session? then "sessions" else "attempts", tag);
  }

  lemma RootWord()
    ensures WordChars(EVIDENCE_DIR_NAME) && |EVIDENCE_DIR_NAME| >= 3
    ensures IsLetter(EVIDENCE_DIR_NAME[0]) && IsLetter(EVIDENCE_DIR_NAME[1])
  {}

  lemma FolderWords()
    ensures WordChars("sessions") && WordChars("attempts")
    ensures "sessions" !in {"", ".", ".."} && "attempts" !in {"", ".", ".."}
  {}

  lemma NamedEvidence(root: string, folder: string, tag: C.Tag)
    requires NameWord(tag.name) && root == EVIDENCE_DIR_NAME && folder in {"sessions", "attempts"}
    requires var b := tag.basename;
      && b != "" && b != "." && 0 as char !in b && ".." !in Pieces(b) && SlashPieces(b) == [b]
      && SafeWord(BaseName(b), "._-", 128)
    ensures var p := Joined(root, folder, tag.name, tag.basename);
      (Fields.PathOk(p) <==> Utf8Bytes(p) <= PATH_MAX_BYTES) && Resolve(p) == [root, folder, tag.name, tag.basename]
  {
    hide Pieces, SlashPieces, BaseName, Fields.PathOk, Resolve, Utf8Bytes, SafeWord, WordChars;
    RootWord();
    FolderWords();
    JoinedOk(root, folder, tag.name, tag.basename);
  }

  lemma {:induction false} JoinedOk(a: string, b: string, c: string, d: string)
    requires WordChars(a) && WordChars(b) && |a| >= 3 && IsLetter(a[0]) && IsLetter(a[1]) && NameWord(c)
    requires b !in {"", ".", ".."}
    requires d != "" && d != "." && ".." !in Pieces(d) && SlashPieces(d) == [d] && 0 as char !in d
      && SafeWord(BaseName(d), "._-", 128)
    ensures var p := Joined(a, b, c, d);
      (Fields.PathOk(p) <==> Utf8Bytes(p) <= PATH_MAX_BYTES) && Resolve(p) == [a, b, c, d]
  {
    hide Pieces, SlashPieces, WordChars, SafeWord, SafeRelative, Resolve, Utf8Bytes, BaseName, Joined;
    JoinedSafe(a, b, c, d);
    JoinedPieces(a, b, c, d);
    JoinedStart(a, b, c, d);
  }

  lemma LabelWord(arm: ArmName, n: nat)
    requires n <= 99
    ensures NameWord(SessionLabel(arm, n))
  {
    TwoDigitsLength(n);
    var a, d := ArmText(arm), TwoDigits(n);
    assert WordChars(a) && WordChars("-") && WordChars(d);
  }

  lemma {:induction false} DecimalLength(n: nat)
    ensures n < 100 ==> |Decimal(n)| <= 2
  {
    if 10 <= n < 100 { assert |Decimal(n / 10)| == 1; }
  }

  lemma AttemptWord(n: nat)
    requires n < 100
    ensures NameWord(AttemptLabel(n))
  {
    DecimalLength(n);
    assert WordChars("attempt-") && WordChars(Decimal(n));
  }

  // -------------------------------------------------------------------------
  // The shape of the assembled lists
  // -------------------------------------------------------------------------

  /** A tag's declared path is one of a sound record's. */
  predicate Declared(entries: seq<CollectionEntry>, tag: C.Tag) {
    exists e | e in entries :: EntryOk(e) && tag.basename == SlashBase(e.path) && tag.rawSha256 == e.expectedSessionSha256
  }

  predicate SessionTagOk(entries: seq<CollectionEntry>, tags: seq<C.Tag>, i: nat, phase: Phase)
    requires i < |tags|
  {
    && Declared(entries, tags[i]) && tags[i].name == SessionLabel(tags[i].arm, ArmTags(tags[..i], tags[i].arm) + 1)
    && (phase == Final ==> tags[i].arm == AbbaArmAt(i + 1))
  }

  lemma {:induction false} SessionTagsMeaning(entries: seq<CollectionEntry>, phase: Phase)
    requires Chronicle(entries, phase)
    ensures forall i | 0 <= i < |SessionTags(entries)| :: SessionTagOk(entries, SessionTags(entries), i, phase)
  {
    if entries != [] {
      var before, last := entries[..|entries| - 1], entries[|entries| - 1];
      assert entries == before + [last] && EntryOk(last) && InTurn(phase, Sessions(before), last.arm);
      SessionTagsMeaning(before, phase);
      hide *;
      TagsGrow(before, last);
      forall i | 0 <= i < |SessionTags(entries)| ensures SessionTagOk(entries, SessionTags(entries), i, phase) {
        SessionTagMore(before, last, i, phase);
      }
    }
  }

  lemma {:induction false} SessionTagMore(before: seq<CollectionEntry>, last: CollectionEntry, i: nat, phase: Phase)
    requires EntryOk(last) && InTurn(phase, Sessions(before), last.arm) && i < |SessionTags(before + [last])|
    requires i < |SessionTags(before)| ==> SessionTagOk(before, SessionTags(before), i, phase)
    ensures SessionTagOk(before + [last], SessionTags(before + [last]), i, phase)
  {
    TagsGrow(before, last);
    if i < |SessionTags(before)| {
      hide *;
      OldTagOk(before, last, SessionTags(before), SessionTags(before + [last]), i, phase);
    } else {
      LastTag(before, last, phase);
      hide *;
      assert SessionTags(before + [last])[..i] == SessionTags(before);
      LastTagOk(before, last, phase);
    }
  }

  lemma OldTagOk(before: seq<CollectionEntry>, last: CollectionEntry, less: seq<C.Tag>, more: seq<C.Tag>, i: nat,
                 phase: Phase)
    requires i < |less| <= |more| && more[..|less|] == less && SessionTagOk(before, less, i, phase)
    ensures SessionTagOk(before + [last], more, i, phase)
  {
    hide ArmTags, Declared, SessionLabel, AbbaArmAt;
    assert more[..i] == less[..i] && more[i] == less[i];
    DeclaredMore(before, last, less[i]);
  }

  lemma {:induction false} LastTag(before: seq<CollectionEntry>, last: CollectionEntry, phase: Phase)
    requires EntryOk(last) && InTurn(phase, Sessions(before), last.arm)
    ensures var tag := NextSession(before, last);
      && Declared(before + [last], tag) && tag.name == SessionLabel(tag.arm, ArmTags(SessionTags(before), tag.arm) + 1)
      && (phase == Final ==> tag.arm == AbbaArmAt(|SessionTags(before)| + 1))
  {
    hide SessionTags, ArmTags, EntryOk, SlashBase, SessionLabel, AbbaArmAt;
    LastDeclared(before, last, NextSession(before, last));
  }

  lemma {:induction false} LastTagOk(before: seq<CollectionEntry>, last: CollectionEntry, phase: Phase)
    requires var tag := NextSession(before, last);
      && Declared(before + [last], tag) && tag.name == SessionLabel(tag.arm, ArmTags(SessionTags(before), tag.arm) + 1)
      && (phase == Final ==> tag.arm == AbbaArmAt(|SessionTags(before)| + 1))
    requires SessionTags(before + [last]) == SessionTags(before) + [NextSession(before, last)]
    ensures SessionTagOk(before + [last], SessionTags(before + [last]), |SessionTags(before)|, phase)
  {
    hide NextSession, Declared, SessionLabel, ArmTags, SessionTags, AbbaArmAt;
    assert SessionTags(before + [last])[..|SessionTags(before)|] == SessionTags(before);
  }

  lemma DeclaredMore(before: seq<CollectionEntry>, last: CollectionEntry, tag: C.Tag)
    requires Declared(before, tag)
    ensures Declared(before + [last], tag)
  {
    var e :| e in before && EntryOk(e) && tag.basename == SlashBase(e.path) && tag.rawSha256 == e.expectedSessionSha256;
    assert e in before + [last];
  }

  lemma LastDeclared(before: seq<CollectionEntry>, last: CollectionEntry, tag: C.Tag)
    requires EntryOk(last) && tag.basename == SlashBase(last.path) && tag.rawSha256 == last.expectedSessionSha256
    ensures Declared(before + [last], tag)
  {
    assert last in before + [last];
  }

  predicate AttemptTagOk(entries: seq<CollectionEntry>, tags: seq<C.Tag>, i: nat)
    requires i < |tags|
  {
    Declared(entries, tags[i]) && tags[i].name == AttemptLabel(i + 1)
  }

  lemma {:induction false} AttemptTagsMeaning(entries: seq<CollectionEntry>, phase: Phase)
    requires Chronicle(entries, phase)
    ensures forall i | 0 <= i < |AttemptTags(entries)| :: AttemptTagOk(entries, AttemptTags(entries), i)
  {
    if entries != [] {
      var before, last := entries[..|entries| - 1], entries[|entries| - 1];
      assert entries == before + [last] && EntryOk(last);
      AttemptTagsMeaning(before, phase);
      hide *;
      TagsGrow(before, last);
      forall i | 0 <= i < |AttemptTags(entries)| ensures AttemptTagOk(entries, AttemptTags(entries), i) {
        AttemptTagMore(before, last, i);
      }
    }
  }

  lemma {:induction false} AttemptTagMore(before: seq<CollectionEntry>, last: CollectionEntry, i: nat)
    requires EntryOk(last) && i < |AttemptTags(before + [last])|
    requires i < |AttemptTags(before)| ==> AttemptTagOk(before, AttemptTags(before), i)
    ensures AttemptTagOk(before + [last], AttemptTags(before + [last]), i)
  {
    hide *;
    TagsGrow(before, last);
    if i < |AttemptTags(before)| {
      OldAttemptOk(before, last, AttemptTags(before), AttemptTags(before + [last]), i);
    } else {
      AttemptDeclared(before, last);
      LastAttemptOk(before, last);
    }
  }

  lemma OldAttemptOk(before: seq<CollectionEntry>, last: CollectionEntry, less: seq<C.Tag>, more: seq<C.Tag>, i: nat)
    requires i < |less| <= |more| && more[..|less|] == less && AttemptTagOk(before, less, i)
    ensures AttemptTagOk(before + [last], more, i)
  {
    hide Declared, AttemptLabel;
    assert more[i] == less[i];
    DeclaredMore(before, last, less[i]);
  }

  lemma {:induction false} LastAttemptOk(before: seq<CollectionEntry>, last: CollectionEntry)
    requires Declared(before + [last], NextAttempt(before, last))
    requires NextAttempt(before, last).name == AttemptLabel(|AttemptTags(before)| + 1)
    requires AttemptTags(before + [last]) == AttemptTags(before) + [NextAttempt(before, last)]
    ensures AttemptTagOk(before + [last], AttemptTags(before + [last]), |AttemptTags(before)|)
  {
    hide NextAttempt, Declared, AttemptLabel, AttemptTags;
  }

  lemma {:induction false} AttemptDeclared(before: seq<CollectionEntry>, last: CollectionEntry)
    requires EntryOk(last)
    ensures Declared(before + [last], NextAttempt(before, last))
    ensures NextAttempt(before, last).name == AttemptLabel(|AttemptTags(before)| + 1)
  {
    LastDeclared(before, last, NextAttempt(before, last));
  }

  predicate TagsInTurn(runs: seq<C.RunFacts>, tags: seq<C.Tag>) {
    && |runs| == |tags| <= 99
    && forall i | 0 <= i < |tags| ::
      && runs[i].tag == tags[i] && runs[i].orderIndex == i + 1
      && tags[i].name == SessionLabel(tags[i].arm, ArmTags(tags[..i], tags[i].arm) + 1)
  }

  lemma TurnSplit(runs: seq<C.RunFacts>, tags: seq<C.Tag>)
    requires TagsInTurn(runs, tags)
    ensures |runs| == |tags| <= 99
    ensures runs != [] ==>
      var n := |runs| - 1;
      && TagsInTurn(runs[..n], tags[..n]) && runs[n].tag == tags[n] && runs[n].orderIndex == n + 1
      && tags[n].name == SessionLabel(tags[n].arm, ArmTags(tags[..n], tags[n].arm) + 1)
  {
    hide SessionLabel, ArmTags;
    if runs != [] {
      var n := |runs| - 1;
      forall i | 0 <= i < n ensures tags[..n][..i] == tags[..i] {}
    }
  }

  /** Sessions are labelled in turn. */
  lemma {:induction false} SessionsLabelled(runs: seq<C.RunFacts>, tags: seq<C.Tag>)
    requires TagsInTurn(runs, tags)
    ensures Labelled(ManifestSessions(runs)) && LastOrder(ManifestSessions(runs)) == |runs|
    ensures forall arm :: ArmCount(ManifestSessions(runs), arm) == ArmTags(tags, arm) <= |tags|
  {
    hide *;
    var n := |runs|;
    TurnSplit(runs, tags);
    ManifestSplit(runs);
    if n > 0 {
      var less, lessTags := runs[..n - 1], tags[..n - 1];
      SessionsLabelled(less, lessTags);
      var before, last := ManifestSessions(less), ManifestSessions(runs)[n - 1];
      assert tags == lessTags + [tags[n - 1]];
      OneMoreSession(before, last);
      ArmTagsMore(lessTags, tags[n - 1]);
      LabelRoundTrip(last.name, last.arm, ArmCount(before, last.arm) + 1);
    } else {
      StartLabelled();
      NoTags();
    }
  }

  lemma NoTags()
    ensures forall arm :: ArmTags([], arm) == 0
  {}

  lemma ManifestSplit(runs: seq<C.RunFacts>)
    ensures |ManifestSessions(runs)| == |runs|
    ensures runs != [] ==> ManifestSessions(runs) != []
    ensures runs != [] ==>
      var n := |runs| - 1; var last := ManifestSessions(runs)[n];
      && ManifestSessions(runs) == ManifestSessions(runs[..n]) + [last]
      && last.arm == runs[n].tag.arm && last.name == runs[n].tag.name && last.orderIndex == runs[n].orderIndex
  {
    hide EvidencePath;
  }

  /** A label names an arm and a number not above the arm's count. */
  lemma {:induction false} LabelsBelow(ms: seq<ManifestSession>, i: nat)
    requires Labelled(ms) && i < |ms|
    ensures ParseLabel(ms[i].name).Some?
    ensures var (arm, n) := ParseLabel(ms[i].name).value; n <= ArmCount(ms, arm)
  {
    hide ParseLabel;
    if i < |ms| - 1 { LabelsBelow(ms[..|ms| - 1], i); }
  }

  /** The name is the third segment of the evidence path. */
  predicate NamedInPath(path: string, name: string) {
    |Resolve(path)| == 4 && Resolve(path)[1] == "sessions" && Resolve(path)[2] == name
  }

  predicate AttemptInPath(path: string, name: string) {
    |Resolve(path)| == 4 && Resolve(path)[1] == "attempts" && Resolve(path)[2] == name
  }

  predicate AllSessionsOk(ms: seq<ManifestSession>) {
    forall i | 0 <= i < |ms| :: SessionOk(ms[i])
  }

  predicate AllAttemptsOk(ms: seq<ManifestAttempt>, phase: Phase) {
    forall i | 0 <= i < |ms| :: AttemptOk(ms[i], phase)
  }

  lemma {:induction false} SessionsDistinct(ms: seq<ManifestSession>, taken: set<seq<string>>)
    requires Labelled(ms) && forall x | x in taken :: |x| < 4
    requires forall i | 0 <= i < |ms| :: NamedInPath(ms[i].path, ms[i].name)
    ensures SessionsOk(ms, taken) <==> AllSessionsOk(ms)
  {
    if ms == [] { return; }
    var n := |ms| - 1;
    var before, last := ms[..n], ms[n];
    assert ms == before + [last];
    assert forall i | 0 <= i < n :: before[i] == ms[i];
    hide *;
    OneMoreSession(before, last);
    SessionsDistinct(before, taken);
    SessionAdded(before, last, taken);
    FreshPath(before, last, taken);
    SessionsSplit(before, last);
  }

  lemma SessionsSplit(before: seq<ManifestSession>, last: ManifestSession)
    ensures AllSessionsOk(before + [last]) <==> AllSessionsOk(before) && SessionOk(last)
  {
    hide SessionOk;
    var more := before + [last];
    assert more[|before|] == last && forall i | 0 <= i < |before| :: more[i] == before[i];
  }

  lemma AttemptsSplit(before: seq<ManifestAttempt>, last: ManifestAttempt, phase: Phase)
    ensures AllAttemptsOk(before + [last], phase) <==> AllAttemptsOk(before, phase) && AttemptOk(last, phase)
  {
    hide AttemptOk;
    var more := before + [last];
    assert more[|before|] == last && forall i | 0 <= i < |before| :: more[i] == before[i];
  }

  lemma {:induction false} FreshPath(before: seq<ManifestSession>, last: ManifestSession, taken: set<seq<string>>)
    requires Labelled(before + [last]) && forall x | x in taken :: |x| < 4
    requires NamedInPath(last.path, last.name)
      && forall i | 0 <= i < |before| :: NamedInPath(before[i].path, before[i].name)
    ensures last.name !in SessionNames(before) && Resolve(last.path) !in taken + SessionPaths(before)
  {
    OneMoreSession(before, last);
    hide ParseLabel, Labelled, Resolve, ArmCount;
    forall i | 0 <= i < |before| ensures before[i].name != last.name && Resolve(before[i].path) != Resolve(last.path) {
      LabelsBelow(before, i);
      assert NamedInPath(before[i].path, before[i].name);
    }
  }

  lemma {:induction false} AttemptsDistinct(ms: seq<ManifestAttempt>, taken: set<seq<string>>, phase: Phase)
    requires Gapless(ms)
    requires forall x | x in taken :: |x| < 4 || x[1] == "sessions"
    requires forall i | 0 <= i < |ms| :: AttemptInPath(ms[i].path, ms[i].name)
    ensures AttemptsListed(ms, taken, phase) <==> AllAttemptsOk(ms, phase)
  {
    if ms == [] { return; }
    hide *;
    var n := |ms| - 1;
    var before, last := ms[..n], ms[n];
    assert ms == before + [last];
    assert forall i | 0 <= i < n :: before[i] == ms[i];
    GaplessSplit(before, last);
    AttemptsDistinct(before, taken, phase);
    AttemptAdded(before, last, taken, phase);
    FreshAttempt(before, last, taken);
    AttemptsSplit(before, last, phase);
  }

  lemma GaplessSplit(before: seq<ManifestAttempt>, last: ManifestAttempt)
    requires Gapless(before + [last])
    ensures Gapless(before) && last.name == AttemptLabel(|before| + 1)
  {
    hide AttemptLabel;
    var more := before + [last];
    assert forall i | 0 <= i < |before| :: more[i] == before[i];
    assert more[|before|] == last;
  }

  lemma FreshAttempt(before: seq<ManifestAttempt>, last: ManifestAttempt, taken: set<seq<string>>)
    requires Gapless(before) && last.name == AttemptLabel(|before| + 1)
    requires forall x | x in taken :: |x| < 4 || x[1] == "sessions"
    requires AttemptInPath(last.path, last.name)
      && forall i | 0 <= i < |before| :: AttemptInPath(before[i].path, before[i].name)
    ensures Resolve(last.path) !in taken + AttemptPaths(before)
  {
    hide Resolve, AttemptLabel;
    forall i | 0 <= i < |before| ensures Resolve(before[i].path) != Resolve(last.path) {
      assert AttemptInPath(before[i].path, before[i].name);
      if before[i].name == last.name { AttemptLabelInjective(i + 1, |before| + 1); }
    }
    assert "sessions"[0] != "attempts"[0];
  }

  // -------------------------------------------------------------------------
  // Acceptance
  // -------------------------------------------------------------------------

  predicate Short(path: string) {
    Utf8Bytes(path) <= PATH_MAX_BYTES
  }

  /** Every evidence path is within the cap on declared paths. */
  predicate EvidenceFits(runs: seq<C.RunFacts>, attempts: seq<C.AttemptFacts>) {
    SessionsFit(runs) && AttemptsFit(attempts)
  }

  predicate SessionsFit(runs: seq<C.RunFacts>) {
    forall i | 0 <= i < |runs| :: Short(EvidencePath(Session, runs[i].tag))
  }

  predicate AttemptsFit(attempts: seq<C.AttemptFacts>) {
    forall i | 0 <= i < |attempts| :: Short(EvidencePath(Attempt, attempts[i].tag))
  }

  predicate SessionsPlaced(ms: seq<ManifestSession>) {
    forall i | 0 <= i < |ms| :: NamedInPath(ms[i].path, ms[i].name)
  }

  predicate AttemptsPlaced(ms: seq<ManifestAttempt>) {
    forall i | 0 <= i < |ms| :: AttemptInPath(ms[i].path, ms[i].name)
  }

  lemma SessionEvidence(entries: seq<CollectionEntry>, run: C.RunFacts)
    requires Declared(entries, run.tag) && NameWord(run.tag.name) && 1 <= run.orderIndex <= ORDER_INDEX_MAX
    ensures var ms := ManifestSessions([run])[0];
      NamedInPath(ms.path, ms.name) && (SessionOk(ms) <==> Short(EvidencePath(Session, run.tag)))
  {
    var e :| e in entries && EntryOk(e) && run.tag.basename == SlashBase(e.path) && run.tag.rawSha256 == e.expectedSessionSha256;
    EvidencePathOk(Session, run.tag, e.path);
    hide Fields.PathOk, SlashBase, Utf8Bytes, Resolve, EvidencePath, SafeWord, WordChars, Sha256Hex;
  }

  lemma AttemptEvidence(entries: seq<CollectionEntry>, a: C.AttemptFacts, phase: Phase)
    requires Declared(entries, a.tag) && NameWord(a.tag.name) && AttemptReported(a, phase)
    ensures var ms := ManifestAttempts([a])[0];
      AttemptInPath(ms.path, ms.name) && (AttemptOk(ms, phase) <==> Short(EvidencePath(Attempt, a.tag)))
  {
    var e :| e in entries && EntryOk(e) && a.tag.basename == SlashBase(e.path) && a.tag.rawSha256 == e.expectedSessionSha256;
    EvidencePathOk(Attempt, a.tag, e.path);
    hide Fields.PathOk, SlashBase, Utf8Bytes, Resolve, EvidencePath, SafeWord, WordChars, Sha256Hex;
  }

  /** A prompt hash is one, and a final attempt has an invalid category. */
  predicate AttemptReported(a: C.AttemptFacts, phase: Phase) {
    && (a.promptSha256.Some? ==> Sha256Hex(a.promptSha256.value))
    && (phase == Final ==> a.category != Unclassified)
  }

  ghost predicate SessionsSit(entries: seq<CollectionEntry>, runs: seq<C.RunFacts>) {
    && |runs| == |SessionTags(entries)|
    && forall i | 0 <= i < |runs| :: runs[i].tag == SessionTags(entries)[i] && runs[i].orderIndex == i + 1
  }

  lemma {:induction false} SessionsAssembled(entries: seq<CollectionEntry>, phase: Phase, runs: seq<C.RunFacts>,
                                             runsPerArm: nat)
    requires Chronicle(entries, phase) && |entries| <= MAX_PAID_ATTEMPTS && SessionsSit(entries, runs)
    requires phase == Final ==> |runs| == 2 * runsPerArm
    ensures var ms := ManifestSessions(runs);
      && ShapeOk(ms, phase, runsPerArm)
      && SessionsPlaced(ms)
      && (AllSessionsOk(ms) <==> SessionsFit(runs))
  {
    hide *;
    RunsLabelled(entries, phase, runs);
    ManifestSplit(runs);
    forall i | 0 <= i < |runs|
      ensures var ms := ManifestSessions(runs)[i];
        && NamedInPath(ms.path, ms.name) && (SessionOk(ms) <==> Short(EvidencePath(Session, runs[i].tag)))
        && (phase == Final ==> ms.arm == AbbaArmAt(i + 1))
    {
      SessionAt(entries, phase, runs, i);
    }
    ShapeFollows(ManifestSessions(runs), phase, runsPerArm);
    AllSessionsMeans(runs);
  }

  lemma AllSessionsMeans(runs: seq<C.RunFacts>)
    ensures var ms := ManifestSessions(runs);
      && (AllSessionsOk(ms) <==> forall i | 0 <= i < |ms| :: SessionOk(ms[i]))
      && (SessionsPlaced(ms) <==> forall i | 0 <= i < |ms| :: NamedInPath(ms[i].path, ms[i].name))
    ensures SessionsFit(runs) <==> forall i | 0 <= i < |runs| :: Short(EvidencePath(Session, runs[i].tag))
  {
    hide ManifestSessions, SessionOk, NamedInPath, Short, EvidencePath;
  }

  lemma {:induction false} ShapeFollows(ms: seq<ManifestSession>, phase: Phase, runsPerArm: nat)
    requires Labelled(ms) && LastOrder(ms) == |ms|
    requires phase == Final ==> |ms| == 2 * runsPerArm && forall i | 0 <= i < |ms| :: ms[i].arm == AbbaArmAt(i + 1)
    ensures ShapeOk(ms, phase, runsPerArm)
  {
    hide AbbaArmAt, Labelled, Canonical;
    if phase == Final { CanonicalIff(ms, runsPerArm); }
    if ms != [] { NoGaps(ms, 0); }
  }

  lemma {:induction false} RunsLabelled(entries: seq<CollectionEntry>, phase: Phase, runs: seq<C.RunFacts>)
    requires Chronicle(entries, phase) && |entries| <= MAX_PAID_ATTEMPTS && SessionsSit(entries, runs)
    ensures Labelled(ManifestSessions(runs)) && LastOrder(ManifestSessions(runs)) == |runs|
  {
    SessionTagsMeaning(entries, phase);
    hide *;
    SessionTagNames(entries, SessionTags(entries), phase, runs);
    SessionsLabelled(runs, SessionTags(entries));
  }

  lemma {:induction false} SessionTagNames(entries: seq<CollectionEntry>, tags: seq<C.Tag>, phase: Phase,
                                           runs: seq<C.RunFacts>)
    requires |entries| <= MAX_PAID_ATTEMPTS && SessionsSit(entries, runs) && tags == SessionTags(entries)
    requires forall i | 0 <= i < |tags| :: SessionTagOk(entries, tags, i, phase)
    ensures TagsInTurn(runs, tags)
  {
    hide SessionTags, Declared, SessionLabel, ArmTags, AbbaArmAt;
    forall i | 0 <= i < |tags| ensures tags[i].name == SessionLabel(tags[i].arm, ArmTags(tags[..i], tags[i].arm) + 1) {
      assert SessionTagOk(entries, tags, i, phase);
    }
  }

  lemma {:induction false} SessionAt(entries: seq<CollectionEntry>, phase: Phase, runs: seq<C.RunFacts>, i: nat)
    requires Chronicle(entries, phase) && |entries| <= MAX_PAID_ATTEMPTS && SessionsSit(entries, runs)
    requires i < |runs|
    ensures var ms := ManifestSessions(runs)[i];
      && NamedInPath(ms.path, ms.name) && (SessionOk(ms) <==> Short(EvidencePath(Session, runs[i].tag)))
      && (phase == Final ==> ms.arm == AbbaArmAt(i + 1))
  {
    SessionTagsMeaning(entries, phase);
    hide Chronicle, SessionTags, SlashBase, EvidencePath, SessionLabel, NameWord, NamedInPath, SessionOk, Short,
         Declared, AbbaArmAt, ArmTags;
    var tags := SessionTags(entries);
    assert SessionTagOk(entries, tags, i, phase);
    TagWord(entries, tags, i, phase);
    SessionEvidence(entries, runs[i]);
    assert ManifestSessions(runs)[i] == ManifestSessions([runs[i]])[0];
  }

  lemma {:induction false} ArmTagsBelow(tags: seq<C.Tag>, arm: ArmName)
    ensures ArmTags(tags, arm) <= |tags|
  {
    if tags != [] { ArmTagsBelow(tags[..|tags| - 1], arm); }
  }

  lemma TagWord(entries: seq<CollectionEntry>, tags: seq<C.Tag>, i: nat, phase: Phase)
    requires i < |tags| <= 99 && SessionTagOk(entries, tags, i, phase)
    ensures NameWord(tags[i].name)
  {
    ArmTagsBelow(tags[..i], tags[i].arm);
    LabelWord(tags[i].arm, ArmTags(tags[..i], tags[i].arm) + 1);
  }

  ghost predicate AttemptsSit(entries: seq<CollectionEntry>, phase: Phase, attempts: seq<C.AttemptFacts>) {
    && |attempts| == |AttemptTags(entries)|
    && forall i | 0 <= i < |attempts| :: attempts[i].tag == AttemptTags(entries)[i] && AttemptReported(attempts[i], phase)
  }

  lemma {:induction false} AttemptsAssembled(entries: seq<CollectionEntry>, phase: Phase, attempts: seq<C.AttemptFacts>)
    requires Chronicle(entries, phase) && |entries| <= MAX_PAID_ATTEMPTS && AttemptsSit(entries, phase, attempts)
    ensures var ms := ManifestAttempts(attempts);
      && Gapless(ms)
      && AttemptsPlaced(ms)
      && (AllAttemptsOk(ms, phase) <==> AttemptsFit(attempts))
  {
    hide *;
    AttemptsLength(attempts);
    forall i | 0 <= i < |attempts|
      ensures var ms := ManifestAttempts(attempts)[i];
        && ms.name == AttemptLabel(i + 1)
        && AttemptInPath(ms.path, ms.name) && (AttemptOk(ms, phase) <==> Short(EvidencePath(Attempt, attempts[i].tag)))
    {
      AttemptAt(entries, phase, attempts, i);
    }
    AllAttemptsMeans(attempts, phase);
  }

  lemma AttemptsLength(attempts: seq<C.AttemptFacts>)
    ensures |ManifestAttempts(attempts)| == |attempts|
  {}

  lemma AllAttemptsMeans(attempts: seq<C.AttemptFacts>, phase: Phase)
    ensures var ms := ManifestAttempts(attempts);
      && (AllAttemptsOk(ms, phase) <==> forall i | 0 <= i < |ms| :: AttemptOk(ms[i], phase))
      && (Gapless(ms) <==> forall i | 0 <= i < |ms| :: ms[i].name == AttemptLabel(i + 1))
      && (AttemptsPlaced(ms) <==> forall i | 0 <= i < |ms| :: AttemptInPath(ms[i].path, ms[i].name))
    ensures AttemptsFit(attempts) <==> forall i | 0 <= i < |attempts| :: Short(EvidencePath(Attempt, attempts[i].tag))
  {
    hide ManifestAttempts, AttemptOk, AttemptInPath, Short, EvidencePath, AttemptLabel;
  }

  lemma {:induction false} AttemptAt(entries: seq<CollectionEntry>, phase: Phase, attempts: seq<C.AttemptFacts>, i: nat)
    requires Chronicle(entries, phase) && |entries| <= MAX_PAID_ATTEMPTS && AttemptsSit(entries, phase, attempts)
    requires i < |attempts|
    ensures var ms := ManifestAttempts(attempts)[i];
      && ms.name == AttemptLabel(i + 1)
      && AttemptInPath(ms.path, ms.name) && (AttemptOk(ms, phase) <==> Short(EvidencePath(Attempt, attempts[i].tag)))
  {
    AttemptTagAt(entries, phase, attempts, i);
    hide *;
    AttemptWord(i + 1);
    AttemptEvidence(entries, attempts[i], phase);
    AttemptSplit(attempts, i);
  }

  lemma AttemptSplit(attempts: seq<C.AttemptFacts>, i: nat)
    requires i < |attempts|
    ensures ManifestAttempts(attempts)[i] == ManifestAttempts([attempts[i]])[0]
    ensures ManifestAttempts(attempts)[i].name == attempts[i].tag.name
  {
    hide EvidencePath;
  }

  lemma {:induction false} AttemptTagAt(entries: seq<CollectionEntry>, phase: Phase, attempts: seq<C.AttemptFacts>,
                                        i: nat)
    requires Chronicle(entries, phase) && |entries| <= MAX_PAID_ATTEMPTS && AttemptsSit(entries, phase, attempts)
    requires i < |attempts|
    ensures i < MAX_PAID_ATTEMPTS && AttemptReported(attempts[i], phase)
    ensures Declared(entries, attempts[i].tag) && attempts[i].tag.name == AttemptLabel(i + 1)
  {
    AttemptTagsMeaning(entries, phase);
    hide AttemptReported, Chronicle, AttemptTags, AttemptLabel, Declared;
    assert attempts[i].tag == AttemptTags(entries)[i] && AttemptTagOk(entries, AttemptTags(entries), i);
  }

  lemma FixturePath()
    ensures var path := EVIDENCE_DIR_NAME + "/" + FIXTURE_DIR_NAME;
      path != "" && Utf8Bytes(path) <= PATH_MAX_BYTES && SafeRelative(path) && |Resolve(path)| < 4
  {
    var path := EVIDENCE_DIR_NAME + "/" + FIXTURE_DIR_NAME;
    assert WordChars(EVIDENCE_DIR_NAME) && WordChars(FIXTURE_DIR_NAME);
    assert IsLetter(EVIDENCE_DIR_NAME[0]) && IsLetter(EVIDENCE_DIR_NAME[1]);
    FixtureOf(EVIDENCE_DIR_NAME, FIXTURE_DIR_NAME);
  }

  lemma FixtureOf(a: string, b: string)
    requires WordChars(a) && WordChars(b) && 2 <= |a| <= 40 && |b| <= 20 && IsLetter(a[0]) && IsLetter(a[1])
      && b != ".."
    ensures var path := a + "/" + b;
      path != "" && Utf8Bytes(path) <= PATH_MAX_BYTES && SafeRelative(path) && |Resolve(path)| < 4
  {
    SplitAtSlash(a, b);
    WordPieces(b);
    NoNul(a);
    NoNul(b);
    hide WordChars, Pieces, SlashPieces;
    var path := a + "/" + b;
    assert path[0] == a[0] && path[1] == a[1];
    assert 0 as char !in path;
    LetterStart(path);
    NamedShorter([a, b]);
  }

  lemma {:induction false} NamedShorter(parts: seq<string>)
    ensures |Named(parts)| <= |parts|
  {
    if parts != [] { NamedShorter(parts[1..]); }
  }

  /** The manifest prepared from a record the strict parser accepts, in the
      final phase a completed one, is accepted by the strict manifest parser
      exactly when its evidence paths are within the cap. */
  lemma AssembledIff(record: CollectionRecord, runs: seq<C.RunFacts>, attempts: seq<C.AttemptFacts>, p: Protocol)
    requires AcceptableRecord(record, p) && CohortComplete(record, p) && p.runsPerArm > 0
    requires FrozenChecksOk(p.rubricChecks)
    requires Tagged(record.entries, runs, attempts)
    requires forall a | a in attempts :: AttemptReported(a, record.phase)
    ensures AcceptableManifest(Assemble(record, runs, attempts, p), p) <==> EvidenceFits(runs, attempts)
  {
    var m := Assemble(record, runs, attempts, p);
    var fixture := {Resolve(m.fixture.path)};
    RecordMeans(record, runs, attempts, p);
    HeaderPinned(record, runs, attempts, p);
    FixtureTwo(record, runs, attempts, p);
    hide *;
    ManifestSplit(runs);
    AttemptsLength(attempts);
    SessionsAssembled(record.entries, record.phase, runs, p.runsPerArm);
    AttemptsAssembled(record.entries, record.phase, attempts);
    ListsIff(m, p);
    Accepted(m, p);
    Fits(runs, attempts);
  }

  lemma ListsIff(m: Manifest, p: Protocol)
    requires ShapeOk(m.sessions, m.phase, p.runsPerArm) && Gapless(m.attempts) && |Resolve(m.fixture.path)| < 4
    requires SessionsPlaced(m.sessions) && AttemptsPlaced(m.attempts)
    ensures var fixture := {Resolve(m.fixture.path)};
      && (SessionsOk(m.sessions, fixture) <==> AllSessionsOk(m.sessions))
      && (AttemptsListed(m.attempts, fixture + SessionPaths(m.sessions), m.phase) <==> AllAttemptsOk(m.attempts, m.phase))
  {
    ShapeLabelled(m.sessions, m.phase, p.runsPerArm);
    hide Resolve, ShapeOk, Gapless, SessionsOk, AllSessionsOk, AttemptsListed, AllAttemptsOk, NamedInPath,
         AttemptInPath, Labelled, SessionPaths;
    var fixture := {Resolve(m.fixture.path)};
    SessionsDistinct(m.sessions, fixture);
    SessionPathsNamed(m.sessions);
    AttemptsDistinct(m.attempts, fixture + SessionPaths(m.sessions), m.phase);
  }

  lemma FixtureTwo(record: CollectionRecord, runs: seq<C.RunFacts>, attempts: seq<C.AttemptFacts>, p: Protocol)
    ensures var m := Assemble(record, runs, attempts, p);
      && |Resolve(m.fixture.path)| < 4 && m.sessions == ManifestSessions(runs)
      && m.attempts == ManifestAttempts(attempts)
      && m.phase == record.phase
  {
    FixturePath();
  }

  lemma RecordMeans(record: CollectionRecord, runs: seq<C.RunFacts>, attempts: seq<C.AttemptFacts>, p: Protocol)
    requires AcceptableRecord(record, p) && CohortComplete(record, p) && p.runsPerArm > 0
    requires Tagged(record.entries, runs, attempts) && forall a | a in attempts :: AttemptReported(a, record.phase)
    ensures Records.PinnedHeader(record, p) && Chronicle(record.entries, record.phase)
    ensures 0 < |runs| && |runs| + |attempts| == |record.entries| <= MAX_PAID_ATTEMPTS
    ensures record.phase == Final ==> |runs| == 2 * p.runsPerArm
    ensures SessionsSit(record.entries, runs) && AttemptsSit(record.entries, record.phase, attempts)
  {
    Sits(record, runs, attempts);
    hide Chronicle, Records.PinnedHeader, Tagged, AttemptReported, Sessions, SessionsSit, AttemptsSit;
  }

  lemma Sits(record: CollectionRecord, runs: seq<C.RunFacts>, attempts: seq<C.AttemptFacts>)
    requires Tagged(record.entries, runs, attempts) && forall a | a in attempts :: AttemptReported(a, record.phase)
    ensures SessionsSit(record.entries, runs) && AttemptsSit(record.entries, record.phase, attempts)
    ensures |runs| == Sessions(record.entries) && |runs| + |attempts| == |record.entries|
  {
    hide *;
    TagCount(record.entries, runs, attempts);
    SitsUnfolded(record, runs, attempts);
  }

  lemma SitsUnfolded(record: CollectionRecord, runs: seq<C.RunFacts>, attempts: seq<C.AttemptFacts>)
    requires Tagged(record.entries, runs, attempts) && forall a | a in attempts :: AttemptReported(a, record.phase)
    ensures SessionsSit(record.entries, runs) && AttemptsSit(record.entries, record.phase, attempts)
  {
    hide AttemptReported, SessionTags, AttemptTags;
    forall i | 0 <= i < |attempts| ensures AttemptReported(attempts[i], record.phase) { assert attempts[i] in attempts; }
  }

  lemma Accepted(m: Manifest, p: Protocol)
    requires M.PinnedHeader(m, p) && m.sessions != [] && |m.sessions| + |m.attempts| <= MAX_PAID_ATTEMPTS
    requires Gapless(m.attempts) && ShapeOk(m.sessions, m.phase, p.runsPerArm)
    ensures AcceptableManifest(m, p) <==>
      && SessionsOk(m.sessions, {Resolve(m.fixture.path)})
      && AttemptsListed(m.attempts, {Resolve(m.fixture.path)} + SessionPaths(m.sessions), m.phase)
  {
    hide M.PinnedHeader, SessionsOk, AttemptsListed, Gapless, ShapeOk, Resolve, SessionPaths;
  }

  lemma Fits(runs: seq<C.RunFacts>, attempts: seq<C.AttemptFacts>)
    ensures EvidenceFits(runs, attempts) <==> SessionsFit(runs) && AttemptsFit(attempts)
  {}

  lemma SessionPathsNamed(ms: seq<ManifestSession>)
    requires forall i | 0 <= i < |ms| :: NamedInPath(ms[i].path, ms[i].name)
    ensures forall x | x in SessionPaths(ms) :: |x| == 4 && x[1] == "sessions"
  {
    hide Resolve;
  }

  lemma {:induction false} ShapeLabelled(ms: seq<ManifestSession>, phase: Phase, runsPerArm: nat)
    requires ShapeOk(ms, phase, runsPerArm)
    ensures Labelled(ms)
  {
    if phase == Final { CanonicalIff(ms, runsPerArm); }
  }

  lemma HeaderPinned(record: CollectionRecord, runs: seq<C.RunFacts>, attempts: seq<C.AttemptFacts>, p: Protocol)
    requires Records.PinnedHeader(record, p) && FrozenChecksOk(p.rubricChecks)
    ensures M.PinnedHeader(Assemble(record, runs, attempts, p), p)
  {
    FixturePath();
    hide SafeRelative, Utf8Bytes, EnvironmentOk, Sha256Hex, FrozenChecksOk;
  }

  // -------------------------------------------------------------------------
  // When the evidence paths fit
  // -------------------------------------------------------------------------

  lemma {:induction false} SlashBaseOf(pre: string, s: string)
    requires '/' !in s && (pre == "" || pre[|pre| - 1] == '/')
    ensures SlashBase(pre + s) == s
  {
    if s == "" {
      assert pre + s == pre;
    } else {
      SlashBaseOf(pre, s[..|s| - 1]);
      assert (pre + s)[..|pre + s| - 1] == pre + s[..|s| - 1];
    }
  }

  /** The path the collector declares for a source. */
  predicate Collected(e: CollectionEntry) {
    exists attempt: nat, arm | attempt < 100 :: e.path == SourceRelativePath(RawSourceName(attempt, arm))
  }

  lemma CollectedBase(e: CollectionEntry)
    requires Collected(e)
    ensures |SlashBase(e.path)| <= 22
  {
    var attempt: nat, arm :| attempt < 100 && e.path == SourceRelativePath(RawSourceName(attempt, arm));
    hide RawSourceName;
    RawNameWord(attempt, arm);
    var name := RawSourceName(attempt, arm);
    WordHasNoSlash(name);
    SlashBaseOf("sources/", name);
  }

  lemma WordHasNoSlash(s: string)
    requires WordChars(s)
    ensures '/' !in s
  {}

  lemma JoinedLength(a: string, b: string, c: string, d: string)
    ensures |Joined(a, b, c, d)| == |a| + |b| + |c| + |d| + 3
  {}

  lemma {:induction false} JoinedBytes(a: string, b: string, c: string, d: string)
    ensures Utf8Bytes(Joined(a, b, c, d)) == Utf8Bytes(a) + Utf8Bytes(b) + Utf8Bytes(c) + Utf8Bytes(d) + 3
  {
    hide Utf8Bytes;
    SlashBytes(c, d);
    SlashBytes(b, c + "/" + d);
    SlashBytes(a, b + "/" + (c + "/" + d));
  }

  lemma {:induction false} SlashBytes(s: string, t: string)
    ensures Utf8Bytes(s + "/" + t) == Utf8Bytes(s) + Utf8Bytes(t) + 1
  {
    Utf8Concat(s + "/", t);
    Utf8Concat(s, "/");
    assert "/"[1..] == "";
  }

  /** The cap on one name of ordinary file systems, in bytes. */
  const NAME_MAX_BYTES: nat := 255

  /** The name `basename` gives a declared source fits in a directory. */
  predicate NameSized(e: CollectionEntry) {
    Utf8Bytes(SlashBase(e.path)) <= NAME_MAX_BYTES
  }

  predicate AllNameSized(entries: seq<CollectionEntry>) {
    forall e | e in entries :: NameSized(e)
  }

  lemma CollectedSized(entries: seq<CollectionEntry>)
    requires AllCollected(entries)
    ensures AllNameSized(entries)
  {
    hide Collected;
    forall e | e in entries ensures NameSized(e) { CollectedBase(e); }
  }

  lemma ShortTag(entries: seq<CollectionEntry>, kind: EntryKind, tag: C.Tag)
    requires Declared(entries, tag) && |tag.name| <= 20 && AllNameSized(entries)
    ensures Short(EvidencePath(kind, tag))
  {
    hide SlashBase, Joined, EntryOk, Utf8Bytes;
    var e :| e in entries && EntryOk(e) && tag.basename == SlashBase(e.path) && tag.rawSha256 == e.expectedSessionSha256;
    assert NameSized(e);
    JoinedBytes(EVIDENCE_DIR_NAME, if kind.Session? then "sessions" else "attempts", tag.name, tag.basename);
    assert |EVIDENCE_DIR_NAME| == 34;
  }

  lemma LabelLength(arm: ArmName, n: nat)
    requires n <= 99
    ensures |SessionLabel(arm, n)| <= 20 && |AttemptLabel(n)| <= 20
  {
    TwoDigitsLength(n);
    DecimalLength(n);
  }

  predicate AllCollected(entries: seq<CollectionEntry>) {
    forall e | e in entries :: Collected(e)
  }

  lemma ShortSession(entries: seq<CollectionEntry>, tags: seq<C.Tag>, i: nat, phase: Phase)
    requires i < |tags| <= MAX_PAID_ATTEMPTS && SessionTagOk(entries, tags, i, phase) && AllNameSized(entries)
    ensures Short(EvidencePath(Session, tags[i]))
  {
    hide NameSized, SessionLabel, EvidencePath, Short, ArmTags, Declared;
    ArmTagsBelow(tags[..i], tags[i].arm);
    LabelLength(tags[i].arm, ArmTags(tags[..i], tags[i].arm) + 1);
    ShortTag(entries, Session, tags[i]);
  }

  lemma ShortAttempt(entries: seq<CollectionEntry>, tag: C.Tag, n: nat)
    requires n <= MAX_PAID_ATTEMPTS && Declared(entries, tag) && tag.name == AttemptLabel(n) && AllNameSized(entries)
    ensures Short(EvidencePath(Attempt, tag))
  {
    hide NameSized, AttemptLabel, EvidencePath, Short, Declared;
    LabelLength(Control, n);
    ShortTag(entries, Attempt, tag);
  }

  /** A source whose name fits in a directory gets an evidence path that fits: for
      such records preparation never fails for the length of a path. */
  lemma {:induction false} NamedFits(entries: seq<CollectionEntry>, phase: Phase, runs: seq<C.RunFacts>,
                                     attempts: seq<C.AttemptFacts>)
    requires Chronicle(entries, phase) && |entries| <= MAX_PAID_ATTEMPTS && Tagged(entries, runs, attempts)
    requires AllNameSized(entries)
    ensures EvidenceFits(runs, attempts)
  {
    NamedSessionsFit(entries, phase, runs, attempts);
    NamedAttemptsFit(entries, phase, runs, attempts);
  }

  /** Every record the strict parser accepts, in the final phase a completed one,
      is prepared into an accepted manifest when its sources' names fit in a
      directory. */
  lemma NamedRecordAccepted(record: CollectionRecord, runs: seq<C.RunFacts>, attempts: seq<C.AttemptFacts>, p: Protocol)
    requires AcceptableRecord(record, p) && CohortComplete(record, p) && p.runsPerArm > 0
    requires FrozenChecksOk(p.rubricChecks)
    requires Tagged(record.entries, runs, attempts)
    requires forall a | a in attempts :: AttemptReported(a, record.phase)
    requires AllNameSized(record.entries)
    ensures AcceptableManifest(Assemble(record, runs, attempts, p), p)
  {
    hide AcceptableManifest, EvidenceFits, Tagged, AllNameSized, AttemptReported, FrozenChecksOk, Records.PinnedHeader;
    NamedFits(record.entries, record.phase, runs, attempts);
    AssembledIff(record, runs, attempts, p);
  }

  /** Every record the collector writes is such a record. */
  lemma {:induction false} CollectedFits(entries: seq<CollectionEntry>, phase: Phase, runs: seq<C.RunFacts>,
                                         attempts: seq<C.AttemptFacts>)
    requires Chronicle(entries, phase) && |entries| <= MAX_PAID_ATTEMPTS && Tagged(entries, runs, attempts)
    requires AllCollected(entries)
    ensures EvidenceFits(runs, attempts)
  {
    CollectedSized(entries);
    hide *;
    NamedFits(entries, phase, runs, attempts);
  }

  lemma {:induction false} NamedSessionsFit(entries: seq<CollectionEntry>, phase: Phase, runs: seq<C.RunFacts>,
                                            attempts: seq<C.AttemptFacts>)
    requires Chronicle(entries, phase) && |entries| <= MAX_PAID_ATTEMPTS && Tagged(entries, runs, attempts)
    requires AllNameSized(entries)
    ensures SessionsFit(runs)
  {
    var tags := SessionTags(entries);
    SessionTagsMeaning(entries, phase);
    hide Chronicle, AllNameSized, SessionTags, AttemptTags, EvidencePath, Short, SessionTagOk;
    forall i | 0 <= i < |runs| ensures Short(EvidencePath(Session, runs[i].tag)) {
      assert runs[i].tag == tags[i];
      ShortSession(entries, tags, i, phase);
    }
  }

  lemma {:induction false} NamedAttemptsFit(entries: seq<CollectionEntry>, phase: Phase, runs: seq<C.RunFacts>,
                                            attempts: seq<C.AttemptFacts>)
    requires Chronicle(entries, phase) && |entries| <= MAX_PAID_ATTEMPTS && Tagged(entries, runs, attempts)
    requires AllNameSized(entries)
    ensures AttemptsFit(attempts)
  {
    var tags := AttemptTags(entries);
    AttemptTagsMeaning(entries, phase);
    hide Chronicle, AllNameSized, SessionTags, AttemptTags, EvidencePath, Short, Declared, AttemptLabel;
    forall i | 0 <= i < |attempts| ensures Short(EvidencePath(Attempt, attempts[i].tag)) {
      assert attempts[i].tag == tags[i] && AttemptTagOk(entries, tags, i);
      ShortAttempt(entries, tags[i], i + 1);
    }
  }

  lemma {:induction false} DerivedReported(entries: seq<CollectionEntry>, sources: seq<Source>, runs: seq<C.RunFacts>,
                                           attempts: seq<C.AttemptFacts>, phase: Phase, pins: C.Pins, tools: C.Tools)
    requires |entries| == |sources| && Derived(entries, sources, runs, attempts, pins, tools)
    requires forall i | 0 <= i < |entries| :: Confirms(entries[i], sources[i], phase, pins, tools)
    requires forall s :: Sha256Hex(tools.digest(s))
    ensures forall a | a in attempts :: AttemptReported(a, phase)
  {
    hide Sha256Hex, C.FinallyValid, C.Analyzable, C.SessionSound, C.RunFactsAre, C.AttemptFactsAre, C.StrictlyInvalid,
         AttemptReported;
    if entries != [] {
      var n := |entries| - 1;
      assert Confirms(entries[n], sources[n], phase, pins, tools);
      if entries[n].kind.Session? {
        DerivedReported(entries[..n], sources[..n], runs[..|runs| - 1], attempts, phase, pins, tools);
      } else {
        var last := attempts[|attempts| - 1];
        DerivedReported(entries[..n], sources[..n], runs, attempts[..|attempts| - 1], phase, pins, tools);
        OneReported(last, sources[n].lines.value, phase, pins, tools);
        assert attempts == attempts[..|attempts| - 1] + [last];
      }
    }
  }

  lemma OneReported(a: C.AttemptFacts, lines: seq<Json>, phase: Phase, pins: C.Pins, tools: C.Tools)
    requires C.AttemptFactsAre(a, lines, pins, tools) && (phase == Final ==> C.StrictlyInvalid(lines, pins, tools))
    requires forall s :: Sha256Hex(tools.digest(s))
    ensures AttemptReported(a, phase)
  {
    hide Sha256Hex, C.SessionSound, C.Leading, C.TerminalIs, C.FirstSeen, C.LevelOf, C.PromptOf;
  }

  /** From a completed record of the collector to an accepted manifest: sources
      that classify as they did when collected are never refused later. */
  lemma {:induction false} CollectedRecordPrepares(record: CollectionRecord, sources: seq<Source>,
                                                   runs: seq<C.RunFacts>, attempts: seq<C.AttemptFacts>, p: Protocol,
                                                   pins: C.Pins, tools: C.Tools)
    requires AcceptableRecord(record, p) && CohortComplete(record, p) && p.runsPerArm > 0
      && FrozenChecksOk(p.rubricChecks)
    requires AllCollected(record.entries)
    requires |sources| == |record.entries| && AllConfirm(record.entries, sources, record.phase, pins, tools)
    requires Tagged(record.entries, runs, attempts) && Derived(record.entries, sources, runs, attempts, pins, tools)
    requires forall s :: Sha256Hex(tools.digest(s))
    ensures AcceptableManifest(Assemble(record, runs, attempts, p), p)
  {
    assert Chronicle(record.entries, record.phase) && |record.entries| <= MAX_PAID_ATTEMPTS;
    ConfirmedEach(record.entries, sources, record.phase, pins, tools);
    hide *;
    DerivedReported(record.entries, sources, runs, attempts, record.phase, pins, tools);
    CollectedFits(record.entries, record.phase, runs, attempts);
    AssembledIff(record, runs, attempts, p);
  }

  lemma ConfirmedEach(entries: seq<CollectionEntry>, sources: seq<Source>, phase: Phase, pins: C.Pins, tools: C.Tools)
    requires |entries| == |sources| && AllConfirm(entries, sources, phase, pins, tools)
    ensures forall i | 0 <= i < |entries| :: Confirms(entries[i], sources[i], phase, pins, tools)
  {
    hide Confirms;
  }

  lemma {:induction false} PiecesChars(p: string)
    requires '.' !in p
    ensures ".." !in Pieces(p)
  {
    if p != "" {
      PiecesChars(p[1..]);
      if !IsSeparator(p[0]) {
        var r := Pieces(p[1..]);
        assert ([p[0]] + r[0])[0] != '.';
        assert forall i | 1 <= i < |r| :: Pieces(p)[i] == r[i];
      }
    }
  }

  function Repeat(c: char, n: nat): string {
    seq(n, _ => c)
  }

  /** A declared path of one long name: 480 letters, a backslash, and `x`. */
  const LONG_PATH: string := Repeat('a', 480) + "\\x"

  /** A development record with that one session. */
  function LongRecord(header: CollectionRecord, sha: string): CollectionRecord {
    header.(entries := [CollectionEntry(Session, Control, LONG_PATH, sha)])
  }

  /** A record the strict parser accepts although no manifest can be prepared from
      it: a backslash separates segments for the parser's own file-name check, but
      not for `basename`, so the evidence path repeats the whole name.  It takes a
      file system that allows names of more than 255 bytes. */
  lemma BackslashRecordRefused(p: Protocol, header: CollectionRecord, sha: string, run: C.RunFacts)
    requires Records.PinnedHeader(header, p) && header.phase == Dev && Sha256Hex(sha)
    requires p.runsPerArm > 0 && FrozenChecksOk(p.rubricChecks)
    requires Tagged(LongRecord(header, sha).entries, [run], [])
    ensures AcceptableRecord(LongRecord(header, sha), p) && !AllNameSized(LongRecord(header, sha).entries)
    ensures !AcceptableManifest(Assemble(LongRecord(header, sha), [run], [], p), p)
  {
    hide AcceptableManifest, FrozenChecksOk, Sha256Hex, Utf8Bytes, SlashBase, EvidencePath, Fields.PathOk,
         Records.PinnedHeader, Resolve, Tagged, SessionTags, AttemptTags;
    var record, e := LongRecord(header, sha), CollectionEntry(Session, Control, LONG_PATH, sha);
    LongPath();
    LongChronicle(e);
    HeaderKept(p, header, sha);
    LongTag(e, run);
    assert e in record.entries && !NameSized(e);
    AssembledIff(record, [run], [], p);
    assert [run][0] == run;
  }

  lemma HeaderKept(p: Protocol, header: CollectionRecord, sha: string)
    requires Records.PinnedHeader(header, p)
    ensures Records.PinnedHeader(LongRecord(header, sha), p)
  {}

  lemma LongChronicle(e: CollectionEntry)
    requires EntryOk(e) && e.kind.Session?
    ensures Chronicle([e], Dev) && Sessions([e]) == 1
  {
    hide EntryOk, Resolve;
    assert [] + [e] == [e];
    Extended([], e, Dev);
  }

  /** The path itself is acceptable, its evidence path is not. */
  lemma LongPath()
    ensures Fields.PathOk(LONG_PATH) && SlashBase(LONG_PATH) == LONG_PATH && Utf8Bytes(LONG_PATH) == 482
  {
    var folder := Repeat('a', 480);
    assert WordChars(folder);
    LongFolder(folder);
    SlashBaseOf("", folder + "\\x");
    assert "" + (folder + "\\x") == folder + "\\x";
    WordBytes(folder);
    Utf8Concat(folder, "\\x");
    BaseOfX();
  }

  lemma LongTag(e: CollectionEntry, run: C.RunFacts)
    requires e.kind.Session? && SlashBase(e.path) == e.path && Utf8Bytes(e.path) == 482 && Tagged([e], [run], [])
    ensures !Short(EvidencePath(Session, run.tag))
  {
    hide Utf8Bytes, SlashBase;
    assert [e][..0] == [];
    assert SessionTags([e])[0].basename == e.path;
    JoinedBytes(EVIDENCE_DIR_NAME, "sessions", run.tag.name, run.tag.basename);
    assert |EVIDENCE_DIR_NAME| == 34;
  }

  lemma LongFolder(folder: string)
    requires WordChars(folder) && '.' !in folder && |folder| == 480 && IsLetter(folder[0]) && IsLetter(folder[1])
    ensures Fields.PathOk(folder + "\\x")
  {
    var path := folder + "\\x";
    WordBytes(folder);
    NoNul(folder);
    Utf8Concat(folder, "\\x");
    BaseAfter(folder + "\\", "x");
    assert path == folder + "\\" + "x";
    BaseOfX();
    PiecesChars(path);
    assert path[0] == folder[0] && path[1] == folder[1];
    hide Pieces, WordChars, BaseName, Utf8Bytes;
    LetterStart(path);
  }

  lemma BaseOfX()
    ensures BaseName("x") == "x" && Utf8Bytes("\\x") == 2
  {
    assert "x"[..0] == "" && "\\x"[1..] == "x" && "x"[1..] == "";
  }
}
