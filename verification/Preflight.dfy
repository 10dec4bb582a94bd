/** The preflight of a completed collection record: every declared source is
    inspected, hashed and classified again, and gets its label
    (commander-native-tool-benchmark-v2-prepare.ts). */
module Preflight {
  import opened Outcomes
  import opened Text
  import opened Interleave
  import opened Fields
  import opened Records
  import opened SessionShape
  import opened Manifest
  import opened SourceNames
  import C = Classifier

  const EVIDENCE_DIR_NAME := "commander-native-tool-benchmark-v2"
  const FIXTURE_DIR_NAME := "fixture"

  /** What inspecting and reading a declared path gives: an error, or the real
      path, the hash of the bytes, and their lines unless they are no JSONL. */
  datatype Source =
    | Unusable(code: PreflightError)
    | Usable(realPath: string, rawSha256: string, lines: Option<seq<Json>>)

  datatype PreflightError =
    | PATH_UNSAFE | SOURCE_UNREADABLE | SOURCE_NOT_REGULAR | SOURCE_OVER_BOUND | IO_ERROR
    | DUPLICATE_SOURCE | SOURCE_HASH_MISMATCH | MALFORMED_JSONL | COHORT_COUNT | NotConfirmed(error: C.SessionError)

  /** The last segment by slashes, as `basename` of `node:path` finds it when
      the path does not end in one. */
  function SlashBase(p: string): string {
    if p == "" || p[|p| - 1] == '/' then "" else SlashBase(p[..|p| - 1]) + [p[|p| - 1]]
  }

  // -------------------------------------------------------------------------
  // Labels
  // -------------------------------------------------------------------------

  function ArmTags(tags: seq<C.Tag>, arm: ArmName): nat {
    if tags == [] then 0
    else ArmTags(tags[..|tags| - 1], arm) + (if tags[|tags| - 1].arm == arm then 1 else 0)
  }

  /** How the sessions of a record are named: by arm and occurrence. */
  function SessionTags(entries: seq<CollectionEntry>): (tags: seq<C.Tag>)
    ensures |tags| == Sessions(entries)
  {
    if entries == [] then []
    else
      var before, last := SessionTags(entries[..|entries| - 1]), entries[|entries| - 1];
      if last.kind.Session?
      then before + [C.Tag(SessionLabel(last.arm, ArmTags(before, last.arm) + 1), last.arm, SlashBase(last.path), last.expectedSessionSha256)]
      else before
  }

  /** And its attempts: by occurrence. */
  function AttemptTags(entries: seq<CollectionEntry>): (tags: seq<C.Tag>)
    ensures |tags| + Sessions(entries) == |entries|
  {
    if entries == [] then []
    else
      var before, last := AttemptTags(entries[..|entries| - 1]), entries[|entries| - 1];
      if last.kind.Attempt?
      then before + [C.Tag(AttemptLabel(|before| + 1), last.arm, SlashBase(last.path), last.expectedSessionSha256)]
      else before
  }

  // -------------------------------------------------------------------------
  // Derivation
  // -------------------------------------------------------------------------

  /** The source of an entry is what was declared, and classifies as declared. */
  ghost predicate Confirms(e: CollectionEntry, s: Source, phase: Phase, pins: C.Pins, tools: C.Tools) {
    && s.Usable? && s.rawSha256 == e.expectedSessionSha256 && s.lines.Some?
    && match (e.kind, phase)
       case (Session, Final) => C.FinallyValid(s.lines.value, pins, tools)
       case (Session, Dev) => C.Analyzable(s.lines.value, tools)
       case (Attempt, Final) => C.StrictlyInvalid(s.lines.value, pins, tools)
       case (Attempt, Dev) => C.SessionSound(s.lines.value, false)
  }

  ghost predicate AllConfirm(entries: seq<CollectionEntry>, sources: seq<Source>, phase: Phase, pins: C.Pins,
                             tools: C.Tools)
    requires |entries| == |sources|
  {
    && (forall i | 0 <= i < |entries| :: Confirms(entries[i], sources[i], phase, pins, tools))
    && (forall i, j | 0 <= i < j < |entries| && sources[i].Usable? && sources[j].Usable? :: sources[i].realPath != sources[j].realPath)
  }

  /** The facts are those of the sources, in order. */
  ghost predicate Derived(entries: seq<CollectionEntry>, sources: seq<Source>, sessions: seq<C.RunFacts>,
                          attempts: seq<C.AttemptFacts>, pins: C.Pins, tools: C.Tools)
    requires |entries| == |sources|
  {
    if entries == [] then sessions == [] && attempts == []
    else
      var n := |entries| - 1;
      && sources[n].Usable? && sources[n].lines.Some?
      && if entries[n].kind.Session? then
           && |sessions| > 0 && C.RunFactsAre(sessions[|sessions| - 1], sources[n].lines.value, pins, tools)
           && Derived(entries[..n], sources[..n], sessions[..|sessions| - 1], attempts, pins, tools)
         else
           && |attempts| > 0 && C.AttemptFactsAre(attempts[|attempts| - 1], sources[n].lines.value, pins, tools)
           && Derived(entries[..n], sources[..n], sessions, attempts[..|attempts| - 1], pins, tools)
  }

  ghost predicate Tagged(entries: seq<CollectionEntry>, sessions: seq<C.RunFacts>, attempts: seq<C.AttemptFacts>) {
    && |sessions| == |SessionTags(entries)| && |attempts| == |AttemptTags(entries)|
    && (forall i | 0 <= i < |sessions| :: sessions[i].tag == SessionTags(entries)[i] && sessions[i].orderIndex == i + 1)
    && (forall i | 0 <= i < |attempts| :: attempts[i].tag == AttemptTags(entries)[i])
  }

  ghost predicate CohortComplete(record: CollectionRecord, p: Protocol) {
    record.phase == Final ==> Sessions(record.entries) == 2 * p.runsPerArm
  }

  method PreflightCollection(record: CollectionRecord, sources: seq<Source>, p: Protocol, pins: C.Pins, tools: C.Tools)
    returns (r: Result<(seq<C.RunFacts>, seq<C.AttemptFacts>), PreflightError>)
    requires |sources| == |record.entries|
    ensures r.Success? <==> AllConfirm(record.entries, sources, record.phase, pins, tools) && CohortComplete(record, p)
    ensures r.Success? ==>
      && Tagged(record.entries, r.value.0, r.value.1)
      && Derived(record.entries, sources, r.value.0, r.value.1, pins, tools)
  {
    hide SessionTags, AttemptTags, ArmTags, Derived, Sessions, Tagged, C.FinallyValid, C.Analyzable, C.SessionSound,
      C.StrictlyInvalid, C.RunFactsAre, C.AttemptFactsAre, SessionLabel, AttemptLabel, SlashBase, Confirms;
    var entries := record.entries;
    var sessions: seq<C.RunFacts>, attempts: seq<C.AttemptFacts> := [], [];
    var seenRealPaths: set<string> := {};
    var armOccurrence: map<ArmName, nat> := map[];
    var sessionPosition, attemptNumber := 0, 0;
    NothingYet(pins, tools);
    assert entries[..0] == [] && sources[..0] == [];
    for i := 0 to |entries|
      invariant AllConfirm(entries[..i], sources[..i], record.phase, pins, tools)
      invariant Tagged(entries[..i], sessions, attempts)
      invariant Derived(entries[..i], sources[..i], sessions, attempts, pins, tools)
      invariant sessionPosition == |sessions| && attemptNumber == |attempts|
      invariant forall arm :: (if arm in armOccurrence then armOccurrence[arm] else 0) == ArmTags(SessionTags(entries[..i]), arm)
      invariant forall x :: x in seenRealPaths <==> exists j | 0 <= j < i :: sources[j].Usable? && sources[j].realPath == x
    {
      var entry := entries[i];
      assert entries[..i + 1] == entries[..i] + [entry] && sources[..i + 1] == sources[..i] + [sources[i]];
      TagsMore(entries[..i], entry, sessions, attempts);
      ConfirmsMeans(entry, sources[i], record.phase, pins, tools);
      var name;
      if entry.kind.Session? {
        sessionPosition := sessionPosition + 1;
        var n := (if entry.arm in armOccurrence then armOccurrence[entry.arm] else 0) + 1;
        armOccurrence := armOccurrence[entry.arm := n];
        name := SessionLabel(entry.arm, n);
      } else {
        attemptNumber := attemptNumber + 1;
        name := AttemptLabel(attemptNumber);
      }
      var safeName := SlashBase(entry.path);
      if sources[i].Unusable? { return Failure(sources[i].code); }
      if sources[i].realPath in seenRealPaths { return Failure(DUPLICATE_SOURCE); }
      seenRealPaths := seenRealPaths + {sources[i].realPath};
      if sources[i].rawSha256 != entry.expectedSessionSha256 { return Failure(SOURCE_HASH_MISMATCH); }
      if sources[i].lines.None? { return Failure(PreflightError.MALFORMED_JSONL); }
      var tag := C.Tag(name, entry.arm, safeName, sources[i].rawSha256);
      if entry.kind.Session? {
        var run := C.ComputeRunFacts(tag, sessionPosition, sources[i].lines.value, pins, record.phase == Final, tools);
        if run.Failure? { return Failure(NotConfirmed(run.error)); }
        SessionDerived(entries[..i], entry, sources[..i], sources[i], sessions, attempts, run.value, pins, tools);
        sessions := sessions + [run.value];
      } else {
        var attempt := C.DeriveAttemptFacts(tag, sources[i].lines.value, pins, record.phase == Final, tools);
        if attempt.Failure? { return Failure(NotConfirmed(attempt.error)); }
        AttemptDerived(entries[..i], entry, sources[..i], sources[i], sessions, attempts, attempt.value, pins, tools);
        attempts := attempts + [attempt.value];
      }
    }
    assert entries[..|entries|] == entries && sources[..|entries|] == sources;
    TagCount(entries, sessions, attempts);
    if record.phase == Final && |sessions| != 2 * p.runsPerArm { return Failure(PreflightError.COHORT_COUNT); }
    return Success((sessions, attempts));
  }

  lemma {:induction false} NothingYet(pins: C.Pins, tools: C.Tools)
    ensures Tagged([], [], []) && Derived([], [], [], [], pins, tools)
    ensures forall arm :: ArmTags(SessionTags([]), arm) == 0
  {}

  lemma ConfirmsMeans(e: CollectionEntry, s: Source, phase: Phase, pins: C.Pins, tools: C.Tools)
    ensures Confirms(e, s, phase, pins, tools) <==>
      && s.Usable? && s.rawSha256 == e.expectedSessionSha256 && s.lines.Some?
      && (e.kind.Session? ==>
            if phase == Final then C.FinallyValid(s.lines.value, pins, tools) else C.Analyzable(s.lines.value, tools))
      && (e.kind.Attempt? ==>
            if phase == Final then C.StrictlyInvalid(s.lines.value, pins, tools)
            else C.SessionSound(s.lines.value, false))
  {}

  lemma {:induction false} TagCount(entries: seq<CollectionEntry>, sessions: seq<C.RunFacts>,
                                    attempts: seq<C.AttemptFacts>)
    requires Tagged(entries, sessions, attempts)
    ensures |sessions| == Sessions(entries) && |attempts| == |entries| - Sessions(entries)
  {}

  lemma {:induction false} ArmTagsMore(tags: seq<C.Tag>, tag: C.Tag)
    ensures forall arm :: ArmTags(tags + [tag], arm) == ArmTags(tags, arm) + (if tag.arm == arm then 1 else 0)
  {
    assert (tags + [tag])[..|tags|] == tags;
  }

  function NextSession(before: seq<CollectionEntry>, e: CollectionEntry): C.Tag {
    C.Tag(SessionLabel(e.arm, ArmTags(SessionTags(before), e.arm) + 1), e.arm, SlashBase(e.path), e.expectedSessionSha256)
  }

  function NextAttempt(before: seq<CollectionEntry>, e: CollectionEntry): C.Tag {
    C.Tag(AttemptLabel(|AttemptTags(before)| + 1), e.arm, SlashBase(e.path), e.expectedSessionSha256)
  }

  lemma {:induction false} TagsGrow(before: seq<CollectionEntry>, e: CollectionEntry)
    ensures SessionTags(before + [e]) == SessionTags(before) + (if e.kind.Session? then [NextSession(before, e)] else [])
    ensures AttemptTags(before + [e]) == AttemptTags(before) + (if e.kind.Attempt? then [NextAttempt(before, e)] else [])
  {
    assert (before + [e])[..|before|] == before;
  }

  lemma {:induction false} TagsMore(before: seq<CollectionEntry>, e: CollectionEntry, sessions: seq<C.RunFacts>,
                                    attempts: seq<C.AttemptFacts>)
    requires Tagged(before, sessions, attempts)
    ensures forall arm :: ArmTags(SessionTags(before + [e]), arm) ==
              ArmTags(SessionTags(before), arm) + (if e.kind.Session? && e.arm == arm then 1 else 0)
    ensures |AttemptTags(before)| == |attempts|
    ensures forall f: C.RunFacts :: e.kind.Session? && f.tag == NextSession(before, e) && f.orderIndex == |sessions| + 1 ==>
              Tagged(before + [e], sessions + [f], attempts)
    ensures forall f: C.AttemptFacts :: e.kind.Attempt? && f.tag == NextAttempt(before, e) ==>
              Tagged(before + [e], sessions, attempts + [f])
  {
    hide NextSession, NextAttempt, ArmTags, SessionTags, AttemptTags;
    TagsGrow(before, e);
    ArmTagsMore(SessionTags(before), NextSession(before, e));
    NextArm(before, e);
    assert e.kind.Attempt? ==> SessionTags(before + [e]) == SessionTags(before);
    assert e.kind.Session? ==> AttemptTags(before + [e]) == AttemptTags(before);
  }

  lemma NextArm(before: seq<CollectionEntry>, e: CollectionEntry)
    ensures NextSession(before, e).arm == e.arm
  {}

  lemma {:induction false} SessionDerived(before: seq<CollectionEntry>, e: CollectionEntry, sources: seq<Source>,
                                          s: Source, sessions: seq<C.RunFacts>, attempts: seq<C.AttemptFacts>,
                                          f: C.RunFacts, pins: C.Pins, tools: C.Tools)
    requires |before| == |sources| && Derived(before, sources, sessions, attempts, pins, tools) && e.kind.Session?
    requires s.Usable? && s.lines.Some? && C.RunFactsAre(f, s.lines.value, pins, tools)
    ensures Derived(before + [e], sources + [s], sessions + [f], attempts, pins, tools)
  {
    hide C.RunFactsAre, C.AttemptFactsAre;
    assert (before + [e])[..|before|] == before && (sources + [s])[..|sources|] == sources;
    assert (sessions + [f])[..|sessions|] == sessions;
  }

  lemma {:induction false} AttemptDerived(before: seq<CollectionEntry>, e: CollectionEntry, sources: seq<Source>,
                                          s: Source, sessions: seq<C.RunFacts>, attempts: seq<C.AttemptFacts>,
                                          f: C.AttemptFacts, pins: C.Pins, tools: C.Tools)
    requires |before| == |sources| && Derived(before, sources, sessions, attempts, pins, tools) && e.kind.Attempt?
    requires s.Usable? && s.lines.Some? && C.AttemptFactsAre(f, s.lines.value, pins, tools)
    ensures Derived(before + [e], sources + [s], sessions, attempts + [f], pins, tools)
  {
    hide C.RunFactsAre, C.AttemptFactsAre;
    assert (before + [e])[..|before|] == before && (sources + [s])[..|sources|] == sources;
    assert (attempts + [f])[..|attempts|] == attempts;
  }
}
