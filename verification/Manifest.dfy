/** The strict manifest (commander-native-tool-benchmark-v2.ts). */
module Manifest {
  import opened Outcomes
  import opened Text
  import opened Interleave
  import opened Fields
  import opened SessionShape

  datatype Category =
    | PromptMismatch | EnvDrift | CompactionPresent | Aborted | Errored | Nonterminal
    | Unclassified                                                      // dev phase only

  datatype ManifestAttempt = ManifestAttempt(
    name: string, arm: ArmName, path: string, expectedSessionSha256: string,
    promptSha256: Option<string>, category: Category)

  datatype Fixture = Fixture(path: string, manifestSha256: string)

  datatype Rubric = Rubric(sha256: string, checks: seq<RubricCheck>)

  datatype Manifest = Manifest(
    schemaVersion: int, protocolVersion: int, protocolDoc: string, phase: Phase, milestonePromptSha256: string,
    environment: Environment, fixture: Fixture, nonTreatmentSha256: string, rubric: Rubric,
    sessions: seq<ManifestSession>, attempts: seq<ManifestAttempt>)

  const BENCHMARK_SCHEMA_VERSION := 2
  const ORDER_INDEX_MAX := 1000
  const RUBRIC_PATTERN_MAX_BYTES := 512

  // -------------------------------------------------------------------------
  // Serialization
  // -------------------------------------------------------------------------

  function CategoryText(c: Category): string {
    match c
    case PromptMismatch => "prompt_mismatch"
    case EnvDrift => "env_drift"
    case CompactionPresent => "compaction_present"
    case Aborted => "aborted"
    case Errored => "errored"
    case Nonterminal => "nonterminal"
    case Unclassified => "unclassified"
  }

  function CheckToJson(c: RubricCheck): Json {
    Obj(map["id" := Str(c.id), "pattern" := Str(c.pattern)])
  }

  function ChecksToJson(checks: seq<RubricCheck>): seq<Json> {
    seq(|checks|, i requires 0 <= i < |checks| => CheckToJson(checks[i]))
  }

  function FixtureToJson(f: Fixture): Json {
    Obj(map["path" := Str(f.path), "manifest_sha256" := Str(f.manifestSha256)])
  }

  function RubricToJson(r: Rubric): Json {
    Obj(map["sha256" := Str(r.sha256), "checks" := Arr(ChecksToJson(r.checks))])
  }

  function SessionToJson(s: ManifestSession): Json {
    Obj(map["label" := Str(s.name), "arm" := ArmJson(s.arm), "order_index" := Num(s.orderIndex as real),
            "path" := Str(s.path), "expected_session_sha256" := Str(s.expectedSessionSha256)])
  }

  function SessionsToJson(sessions: seq<ManifestSession>): seq<Json> {
    seq(|sessions|, i requires 0 <= i < |sessions| => SessionToJson(sessions[i]))
  }

  function PromptJson(prompt: Option<string>): Json {
    if prompt.None? then Null else Str(prompt.value)
  }

  function AttemptToJson(a: ManifestAttempt): Json {
    Obj(map["label" := Str(a.name), "arm" := ArmJson(a.arm), "path" := Str(a.path),
            "expected_session_sha256" := Str(a.expectedSessionSha256), "prompt_sha256" := PromptJson(a.promptSha256),
            "category" := Str(CategoryText(a.category))])
  }

  function AttemptsToJson(attempts: seq<ManifestAttempt>): seq<Json> {
    seq(|attempts|, i requires 0 <= i < |attempts| => AttemptToJson(attempts[i]))
  }

  function ManifestToJson(m: Manifest): Json {
    Obj(map["schema_version" := Num(m.schemaVersion as real), "protocol_version" := Num(m.protocolVersion as real),
            "protocol_doc" := Str(m.protocolDoc), "phase" := PhaseJson(m.phase),
            "milestone_prompt_sha256" := Str(m.milestonePromptSha256), "environment" := EnvironmentToJson(m.environment),
            "fixture" := FixtureToJson(m.fixture), "non_treatment_sha256" := Str(m.nonTreatmentSha256),
            "rubric" := RubricToJson(m.rubric), "sessions" := Arr(SessionsToJson(m.sessions)),
            "attempts" := Arr(AttemptsToJson(m.attempts))])
  }

  // -------------------------------------------------------------------------
  // What an acceptable manifest is
  // -------------------------------------------------------------------------

  function SessionPaths(sessions: seq<ManifestSession>): set<seq<string>> {
    set i | 0 <= i < |sessions| :: Resolve(sessions[i].path)
  }

  function SessionNames(sessions: seq<ManifestSession>): set<string> {
    set i | 0 <= i < |sessions| :: sessions[i].name
  }

  predicate SessionOk(s: ManifestSession) {
    && SafeWord(s.name, "._-", 64) && 1 <= s.orderIndex <= ORDER_INDEX_MAX
    && PathOk(s.path) && Sha256Hex(s.expectedSessionSha256)
  }

  /** Session after session; `taken` are the paths declared before them. */
  predicate SessionsOk(sessions: seq<ManifestSession>, taken: set<seq<string>>) {
    sessions == [] ||
      var before, last := sessions[..|sessions| - 1], sessions[|sessions| - 1];
      && SessionsOk(before, taken)
      && SessionOk(last) && last.name !in SessionNames(before)
      && Resolve(last.path) !in taken + SessionPaths(before)
  }

  function AttemptPaths(attempts: seq<ManifestAttempt>): set<seq<string>> {
    set i | 0 <= i < |attempts| :: Resolve(attempts[i].path)
  }

  function AttemptLabel(n: nat): string {
    "attempt-" + Decimal(n)
  }

  predicate AttemptOk(a: ManifestAttempt, phase: Phase) {
    && PathOk(a.path) && Sha256Hex(a.expectedSessionSha256)
    && (a.promptSha256.Some? ==> Sha256Hex(a.promptSha256.value))
    && (phase == Final ==> a.category != Unclassified)
  }

  /** Attempt after attempt; `taken` are the paths declared before them. */
  predicate AttemptsListed(attempts: seq<ManifestAttempt>, taken: set<seq<string>>, phase: Phase) {
    attempts == [] ||
      var before, last := attempts[..|attempts| - 1], attempts[|attempts| - 1];
      && AttemptsListed(before, taken, phase)
      && AttemptOk(last, phase) && Resolve(last.path) !in taken + AttemptPaths(before)
  }

  /** Named without gaps from attempt-1. */
  predicate Gapless(attempts: seq<ManifestAttempt>) {
    forall i | 0 <= i < |attempts| :: attempts[i].name == AttemptLabel(i + 1)
  }

  predicate CheckOk(c: RubricCheck) {
    SafeWord(c.id, "._-", 64) && c.pattern != "" && Utf8Bytes(c.pattern) <= RUBRIC_PATTERN_MAX_BYTES
  }

  /** The frozen checks are themselves well formed and have distinct ids. */
  predicate FrozenChecksOk(checks: seq<RubricCheck>) {
    && (forall i | 0 <= i < |checks| :: CheckOk(checks[i]))
    && (forall i, j | 0 <= i < j < |checks| :: checks[i].id != checks[j].id)
  }

  predicate FixtureOk(f: Fixture) {
    f.path != "" && Utf8Bytes(f.path) <= PATH_MAX_BYTES && SafeRelative(f.path) && Sha256Hex(f.manifestSha256)
  }

  predicate PinnedFields(m: Manifest, p: Protocol) {
    && m.schemaVersion == BENCHMARK_SCHEMA_VERSION && m.protocolVersion == FROZEN_VERSION
    && m.protocolDoc == FROZEN_DOC
    && p.milestonePromptSha256 == Some(m.milestonePromptSha256) && Sha256Hex(m.milestonePromptSha256)
    && m.environment == p.environment && EnvironmentOk(m.environment)
    && FixtureOk(m.fixture) && p.fixtureManifestSha256 == Some(m.fixture.manifestSha256)
    && p.nonTreatmentSha256 == Some(m.nonTreatmentSha256) && Sha256Hex(m.nonTreatmentSha256)
    && p.rubricSha256 == Some(m.rubric.sha256) && Sha256Hex(m.rubric.sha256)
  }

  predicate PinnedHeader(m: Manifest, p: Protocol) {
    PinnedFields(m, p) && m.rubric.checks == p.rubricChecks && FrozenChecksOk(m.rubric.checks)
  }

  ghost predicate ShapeOk(sessions: seq<ManifestSession>, phase: Phase, runsPerArm: nat) {
    if phase == Final then Canonical(sessions, runsPerArm) && runsPerArm <= 99
    else Labelled(sessions) && (sessions != [] ==> sessions[0].orderIndex == 1)
  }

  ghost predicate AcceptableManifest(m: Manifest, p: Protocol) {
    && PinnedHeader(m, p)
    && m.sessions != [] && SessionsOk(m.sessions, {Resolve(m.fixture.path)})
    && |m.attempts| <= MAX_PAID_ATTEMPTS
    && (m.phase == Final ==> |m.sessions| + |m.attempts| <= MAX_PAID_ATTEMPTS)
    && AttemptsListed(m.attempts, {Resolve(m.fixture.path)} + SessionPaths(m.sessions), m.phase)
    && Gapless(m.attempts)
    && ShapeOk(m.sessions, m.phase, p.runsPerArm)
  }

  // -------------------------------------------------------------------------
  // Sessions
  // -------------------------------------------------------------------------

  function ParseOrder(v: Option<Json>): Parsed<int> {
    if v.Some? && v.value.Num? && v.value.number == v.value.number.Floor as real
       && 1 <= v.value.number.Floor <= ORDER_INDEX_MAX
    then Success(v.value.number.Floor)
    else Failure(INVALID_ENTRY)
  }

  /** `raw` is the serialization of `s`, and `s` may come next. */
  ghost predicate SessionFits(raw: Json, names: set<string>, taken: set<seq<string>>, s: ManifestSession) {
    raw == SessionToJson(s) && SessionOk(s) && s.name !in names && Resolve(s.path) !in taken
  }

  method ParseSession(raw: Json, names: set<string>, taken: set<seq<string>>) returns (r: Parsed<ManifestSession>)
    ensures r.Success? ==> SessionFits(raw, names, taken, r.value)
    ensures r.Failure? ==> forall s :: !SessionFits(raw, names, taken, s)
  {
    hide SafeWord, SafeRelative, Resolve, Sha256Hex;
    var e :- AsObject(raw, INVALID_RECORD);
    var _ :- RequireKeys(e, {"label", "arm", "order_index", "path", "expected_session_sha256"});
    var name :- ParseText(Field(e, "label"), LABEL_UNSAFE);
    if !SafeWord(name, "._-", 64) { return Failure(LABEL_UNSAFE); }
    if name in names { return Failure(DUPLICATE_LABEL); }
    var arm :- ParseArm(Field(e, "arm"));
    var order :- ParseOrder(Field(e, "order_index"));
    var path :- ParsePath(Field(e, "path"));
    if Resolve(path) in taken { return Failure(DUPLICATE_PATH); }
    var sha :- ParseSha256(Field(e, "expected_session_sha256"));
    r := Success(ManifestSession(name, arm, order, path, sha));
    assert e == SessionToJson(r.value).fields;
  }

  lemma SessionToJsonInjective(a: ManifestSession, b: ManifestSession)
    requires SessionToJson(a) == SessionToJson(b)
    ensures a == b
  {
    var x, y := SessionToJson(a).fields, SessionToJson(b).fields;
    assert x["label"] == y["label"] && x["arm"] == y["arm"] && x["path"] == y["path"];
    assert x["order_index"] == y["order_index"] && x["expected_session_sha256"] == y["expected_session_sha256"];
    assert (a.orderIndex as real).Floor == (b.orderIndex as real).Floor;
  }

  lemma SessionsToJsonInjective(a: seq<ManifestSession>, b: seq<ManifestSession>)
    requires SessionsToJson(a) == SessionsToJson(b)
    ensures a == b
  {
    assert |SessionsToJson(a)| == |a| && |SessionsToJson(b)| == |b|;
    forall i | 0 <= i < |a| ensures a[i] == b[i] {
      assert SessionsToJson(a)[i] == SessionsToJson(b)[i];
      SessionToJsonInjective(a[i], b[i]);
    }
  }

  lemma {:induction false} SessionAdded(before: seq<ManifestSession>, s: ManifestSession, taken: set<seq<string>>)
    ensures SessionsToJson(before + [s]) == SessionsToJson(before) + [SessionToJson(s)]
    ensures SessionPaths(before + [s]) == SessionPaths(before) + {Resolve(s.path)}
    ensures SessionNames(before + [s]) == SessionNames(before) + {s.name}
    ensures SessionsOk(before + [s], taken) <==>
              && SessionsOk(before, taken) && SessionOk(s) && s.name !in SessionNames(before)
              && Resolve(s.path) !in taken + SessionPaths(before)
  {
    hide Resolve, SessionOk;
    var more := before + [s];
    assert more[..|more| - 1] == before && more[|before|] == s;
    forall i | 0 <= i < |before| ensures Resolve(before[i].path) in SessionPaths(more) && before[i].name in SessionNames(more) {
      assert more[i] == before[i];
      assert Resolve(more[i].path) in SessionPaths(more) && more[i].name in SessionNames(more);
    }
    assert Resolve(more[|before|].path) in SessionPaths(more) && more[|before|].name in SessionNames(more);
  }

  lemma {:induction false} SessionsPrefix(sessions: seq<ManifestSession>, taken: set<seq<string>>, k: nat)
    requires SessionsOk(sessions, taken) && k <= |sessions|
    ensures SessionsOk(sessions[..k], taken)
  {
    if k < |sessions| {
      SessionsPrefix(sessions[..|sessions| - 1], taken, k);
      assert sessions[..|sessions| - 1][..k] == sessions[..k];
    } else {
      assert sessions[..k] == sessions;
    }
  }

  /** If the next session cannot be parsed after `done`, no list serializes to `items`. */
  lemma {:induction false} SessionRejected(items: seq<Json>, all: seq<ManifestSession>, done: seq<ManifestSession>,
                                           taken: set<seq<string>>)
    requires items == SessionsToJson(all) && SessionsOk(all, taken)
    requires |done| < |items| && items[..|done|] == SessionsToJson(done)
    ensures |done| < |all|
    ensures SessionFits(items[|done|], SessionNames(done), taken + SessionPaths(done), all[|done|])
  {
    hide SessionsOk, SessionOk, Resolve;
    var n := |done|;
    assert SessionsToJson(all[..n]) == SessionsToJson(done);
    SessionsToJsonInjective(all[..n], done);
    SessionsPrefix(all, taken, n + 1);
    assert all[..n + 1] == done + [all[n]];
    SessionAdded(done, all[n], taken);
  }

  method ParseSessions(items: seq<Json>, taken: set<seq<string>>)
    returns (r: Parsed<seq<ManifestSession>>, seenPaths: set<seq<string>>)
    ensures r.Success? ==>
      items == SessionsToJson(r.value) && SessionsOk(r.value, taken) && seenPaths == taken + SessionPaths(r.value)
    ensures forall all :: items == SessionsToJson(all) && SessionsOk(all, taken) ==> r == Success(all)
  {
    hide SessionsOk, SessionPaths, SessionNames, SessionsToJson, SessionToJson, SessionOk, Resolve;
    var sessions: seq<ManifestSession> := [];
    var seenLabels: set<string> := {};
    seenPaths := taken;
    NoSessions(taken);
    assert items[..0] == [];
    for i := 0 to |items|
      invariant |sessions| == i && items[..i] == SessionsToJson(sessions) && SessionsOk(sessions, taken)
      invariant seenLabels == SessionNames(sessions) && seenPaths == taken + SessionPaths(sessions)
    {
      var parsed := ParseSession(items[i], seenLabels, seenPaths);
      if parsed.Failure? {
        forall all ensures !(items == SessionsToJson(all) && SessionsOk(all, taken)) {
          if items == SessionsToJson(all) && SessionsOk(all, taken) { SessionRejected(items, all, sessions, taken); }
        }
        return Failure(parsed.error), seenPaths;
      }
      SessionAdded(sessions, parsed.value, taken);
      sessions := sessions + [parsed.value];
      seenLabels := seenLabels + {parsed.value.name};
      seenPaths := seenPaths + {Resolve(parsed.value.path)};
      assert items[..i + 1] == items[..i] + [items[i]];
    }
    r := Success(sessions);
    assert items[..|items|] == items;
    forall all | items == SessionsToJson(all) ensures all == sessions {
      SessionsToJsonInjective(all, sessions);
    }
  }

  lemma {:induction false} NoSessions(taken: set<seq<string>>)
    ensures SessionsOk([], taken) && SessionPaths([]) == {} && SessionNames([]) == {} && SessionsToJson([]) == []
  {}

  // -------------------------------------------------------------------------
  // Attempts
  // -------------------------------------------------------------------------

  function ParsePrompt(v: Option<Json>): Parsed<Option<string>> {
    if v == Some(Null) then Success(None)
    else
      var sha :- ParseSha256(v);
      Success(Some(sha))
  }

  function ParseCategory(v: Option<Json>, phase: Phase): Parsed<Category> {
    if v == Some(Str("prompt_mismatch")) then Success(PromptMismatch)
    else if v == Some(Str("env_drift")) then Success(EnvDrift)
    else if v == Some(Str("compaction_present")) then Success(CompactionPresent)
    else if v == Some(Str("aborted")) then Success(Aborted)
    else if v == Some(Str("errored")) then Success(Errored)
    else if v == Some(Str("nonterminal")) then Success(Nonterminal)
    else if v == Some(Str("unclassified")) && phase == Dev then Success(Unclassified)
    else Failure(INVALID_CATEGORY)
  }

  lemma CategoryRoundTrip(v: Option<Json>, phase: Phase, c: Category)
    ensures ParseCategory(v, phase) == Success(c) <==>
              v == Some(Str(CategoryText(c))) && (phase == Final ==> c != Unclassified)
  {
    assert CategoryText(c)[0] == (match c case PromptMismatch => 'p' case EnvDrift => 'e' case CompactionPresent => 'c'
                                  case Aborted => 'a' case Errored => 'e' case Nonterminal => 'n' case Unclassified => 'u');
    assert |CategoryText(EnvDrift)| == 9 && |CategoryText(Errored)| == 7;
  }

  predicate AttemptLabelShape(name: string) {
    |name| > 8 && name[..8] == "attempt-" && Digits(name[8..])
  }

  ghost predicate AttemptFits(raw: Json, taken: set<seq<string>>, phase: Phase, a: ManifestAttempt) {
    raw == AttemptToJson(a) && AttemptOk(a, phase) && AttemptLabelShape(a.name) && Resolve(a.path) !in taken
  }

  method ParseAttempt(raw: Json, names: set<string>, taken: set<seq<string>>, phase: Phase)
    returns (r: Parsed<ManifestAttempt>)
    ensures r.Success? ==> AttemptFits(raw, taken, phase, r.value) && r.value.name !in names
    ensures r.Failure? ==> forall a :: AttemptFits(raw, taken, phase, a) ==> a.name in names
  {
    hide SafeWord, SafeRelative, Resolve, Sha256Hex, CategoryText, ParseCategory, AttemptLabelShape;
    var e :- AsObject(raw, INVALID_RECORD);
    var _ :- RequireKeys(e, {"label", "arm", "path", "expected_session_sha256", "prompt_sha256", "category"});
    var name :- ParseText(Field(e, "label"), LABEL_UNSAFE);
    if !AttemptLabelShape(name) { return Failure(LABEL_UNSAFE); }
    if name in names { return Failure(DUPLICATE_LABEL); }
    var arm :- ParseArm(Field(e, "arm"));
    var path :- ParsePath(Field(e, "path"));
    if Resolve(path) in taken { return Failure(DUPLICATE_PATH); }
    var sha :- ParseSha256(Field(e, "expected_session_sha256"));
    var prompt :- ParsePrompt(Field(e, "prompt_sha256"));
    forall c { CategoryRoundTrip(Field(e, "category"), phase, c); }
    var category :- ParseCategory(Field(e, "category"), phase);
    r := Success(ManifestAttempt(name, arm, path, sha, prompt, category));
    assert e == AttemptToJson(r.value).fields;
  }

  lemma AttemptToJsonInjective(a: ManifestAttempt, b: ManifestAttempt)
    requires AttemptToJson(a) == AttemptToJson(b)
    ensures a == b
  {
    var x, y := AttemptToJson(a).fields, AttemptToJson(b).fields;
    assert x["label"] == y["label"] && x["arm"] == y["arm"] && x["path"] == y["path"];
    assert x["expected_session_sha256"] == y["expected_session_sha256"];
    assert x["prompt_sha256"] == y["prompt_sha256"] && x["category"] == y["category"];
    CategoryRoundTrip(Some(x["category"]), Dev, a.category);
    CategoryRoundTrip(Some(x["category"]), Dev, b.category);
  }

  lemma AttemptsToJsonInjective(a: seq<ManifestAttempt>, b: seq<ManifestAttempt>)
    requires AttemptsToJson(a) == AttemptsToJson(b)
    ensures a == b
  {
    assert |AttemptsToJson(a)| == |a| && |AttemptsToJson(b)| == |b|;
    forall i | 0 <= i < |a| ensures a[i] == b[i] {
      assert AttemptsToJson(a)[i] == AttemptsToJson(b)[i];
      AttemptToJsonInjective(a[i], b[i]);
    }
  }

  function AttemptNames(attempts: seq<ManifestAttempt>): set<string> {
    set i | 0 <= i < |attempts| :: attempts[i].name
  }

  lemma {:induction false} AttemptAdded(before: seq<ManifestAttempt>, a: ManifestAttempt, taken: set<seq<string>>,
                                        phase: Phase)
    ensures AttemptsToJson(before + [a]) == AttemptsToJson(before) + [AttemptToJson(a)]
    ensures AttemptPaths(before + [a]) == AttemptPaths(before) + {Resolve(a.path)}
    ensures AttemptNames(before + [a]) == AttemptNames(before) + {a.name}
    ensures AttemptsListed(before + [a], taken, phase) <==>
              AttemptsListed(before, taken, phase) && AttemptOk(a, phase) && Resolve(a.path) !in taken + AttemptPaths(before)
  {
    hide Resolve, AttemptOk;
    var more := before + [a];
    assert more[..|more| - 1] == before && more[|before|] == a;
    forall i | 0 <= i < |before| ensures Resolve(before[i].path) in AttemptPaths(more) && before[i].name in AttemptNames(more) {
      assert more[i] == before[i];
      assert Resolve(more[i].path) in AttemptPaths(more) && more[i].name in AttemptNames(more);
    }
    assert Resolve(more[|before|].path) in AttemptPaths(more) && more[|before|].name in AttemptNames(more);
  }

  lemma {:induction false} AttemptsPrefix(attempts: seq<ManifestAttempt>, taken: set<seq<string>>, phase: Phase, k: nat)
    requires AttemptsListed(attempts, taken, phase) && k <= |attempts|
    ensures AttemptsListed(attempts[..k], taken, phase)
  {
    if k < |attempts| {
      AttemptsPrefix(attempts[..|attempts| - 1], taken, phase, k);
      assert attempts[..|attempts| - 1][..k] == attempts[..k];
    } else {
      assert attempts[..k] == attempts;
    }
  }

  lemma AttemptLabelInjective(a: nat, b: nat)
    requires AttemptLabel(a) == AttemptLabel(b)
    ensures a == b
  {
    assert AttemptLabel(a)[8..] == Decimal(a) && AttemptLabel(b)[8..] == Decimal(b);
    DecimalValue(a);
    DecimalValue(b);
  }

  /** If the next attempt cannot be parsed after `done`, no list of gapless
      attempts serializes to `items`. */
  lemma {:induction false} AttemptRejected(items: seq<Json>, all: seq<ManifestAttempt>, done: seq<ManifestAttempt>,
                                           taken: set<seq<string>>, phase: Phase)
    requires items == AttemptsToJson(all) && AttemptsListed(all, taken, phase) && Gapless(all)
    requires |done| < |items| && items[..|done|] == AttemptsToJson(done)
    ensures |done| < |all| && AttemptFits(items[|done|], taken + AttemptPaths(done), phase, all[|done|])
    ensures all[|done|].name !in AttemptNames(done)
  {
    hide Decimal, AttemptsListed;
    var n := |done|;
    assert AttemptsToJson(all[..n]) == AttemptsToJson(done);
    AttemptsToJsonInjective(all[..n], done);
    AttemptsPrefix(all, taken, phase, n + 1);
    assert all[..n + 1] == done + [all[n]];
    AttemptAdded(done, all[n], taken, phase);
    assert all[n].name[8..] == Decimal(n + 1);
    forall i | 0 <= i < n ensures done[i].name != all[n].name {
      assert done[i] == all[i];
      if done[i].name == all[n].name { AttemptLabelInjective(i + 1, n + 1); }
    }
  }

  method ParseAttempts(items: seq<Json>, taken: set<seq<string>>, phase: Phase)
    returns (r: Parsed<seq<ManifestAttempt>>)
    ensures r.Success? ==> items == AttemptsToJson(r.value) && AttemptsListed(r.value, taken, phase) && Gapless(r.value)
    ensures forall all :: items == AttemptsToJson(all) && AttemptsListed(all, taken, phase) && Gapless(all) ==> r == Success(all)
  {
    hide AttemptsListed, AttemptPaths, AttemptNames, AttemptsToJson, AttemptToJson, AttemptOk, Resolve,
         AttemptLabelShape, AttemptLabel;
    var attempts: seq<ManifestAttempt> := [];
    var seenLabels: set<string> := {};
    var seenPaths := taken;
    NoAttempts(taken, phase);
    assert items[..0] == [];
    for i := 0 to |items|
      invariant |attempts| == i && items[..i] == AttemptsToJson(attempts) && AttemptsListed(attempts, taken, phase)
      invariant seenLabels == AttemptNames(attempts) && seenPaths == taken + AttemptPaths(attempts)
    {
      var parsed := ParseAttempt(items[i], seenLabels, seenPaths, phase);
      if parsed.Failure? {
        forall all ensures !(items == AttemptsToJson(all) && AttemptsListed(all, taken, phase) && Gapless(all)) {
          if items == AttemptsToJson(all) && AttemptsListed(all, taken, phase) && Gapless(all) {
            AttemptRejected(items, all, attempts, taken, phase);
          }
        }
        return Failure(parsed.error);
      }
      AttemptAdded(attempts, parsed.value, taken, phase);
      attempts := attempts + [parsed.value];
      seenLabels := seenLabels + {parsed.value.name};
      seenPaths := seenPaths + {Resolve(parsed.value.path)};
      assert items[..i + 1] == items[..i] + [items[i]];
    }
    assert items[..|items|] == items;
    forall all | items == AttemptsToJson(all) ensures all == attempts {
      AttemptsToJsonInjective(all, attempts);
    }
    for i := 0 to |attempts|
      invariant forall j | 0 <= j < i :: attempts[j].name == AttemptLabel(j + 1)
    {
      if attempts[i].name != AttemptLabel(i + 1) { return Failure(RecordError.ATTEMPT_LABELS); }
    }
    r := Success(attempts);
  }

  lemma {:induction false} NoAttempts(taken: set<seq<string>>, phase: Phase)
    ensures AttemptsListed([], taken, phase) && AttemptPaths([]) == {} && AttemptNames([]) == {}
      && AttemptsToJson([]) == []
  {}

  // -------------------------------------------------------------------------
  // The rubric, the fixture and the header
  // -------------------------------------------------------------------------

  /** The rubric must be exactly the frozen checks in their order. */
  method ParseChecks(v: Option<Json>, frozen: seq<RubricCheck>) returns (r: Parsed<seq<RubricCheck>>)
    ensures r.Success? ==> r.value == frozen && v == Some(Arr(ChecksToJson(frozen))) && FrozenChecksOk(frozen)
    ensures v == Some(Arr(ChecksToJson(frozen))) && FrozenChecksOk(frozen) ==> r.Success?
  {
    var items :- AsArray(v, RUBRIC_INVALID);
    if |items| != |frozen| { return Failure(RUBRIC_MISMATCH); }
    var checks: seq<RubricCheck> := [];
    var seen: set<string> := {};
    for i := 0 to |items|
      invariant checks == frozen[..i]
      invariant forall j | 0 <= j < i :: items[j] == CheckToJson(frozen[j]) && CheckOk(frozen[j])
      invariant seen == set j | 0 <= j < i :: frozen[j].id
      invariant forall j, k | 0 <= j < k < i :: frozen[j].id != frozen[k].id
    {
      var check :- ParseCheck(items[i], frozen[i], seen);
      checks := checks + [check];
      seen := seen + {check.id};
    }
    assert items == ChecksToJson(frozen);
    return Success(checks);
  }

  function ParseCheck(raw: Json, frozen: RubricCheck, seen: set<string>): (r: Parsed<RubricCheck>)
    ensures r.Success? <==> raw == CheckToJson(frozen) && CheckOk(frozen) && frozen.id !in seen
    ensures r.Success? ==> r.value == frozen
  {
    var c :- AsObject(raw, RUBRIC_INVALID);
    var _ :- RequireKeys(c, {"id", "pattern"});
    var id :- ParseText(Field(c, "id"), RUBRIC_INVALID);
    if !SafeWord(id, "._-", 64) then Failure(RUBRIC_INVALID)
    else if id in seen then Failure(RUBRIC_INVALID)
    else if id != frozen.id then Failure(RUBRIC_MISMATCH) else
    var pattern :- ParseText(Field(c, "pattern"), RUBRIC_INVALID);
    if pattern == "" || Utf8Bytes(pattern) > RUBRIC_PATTERN_MAX_BYTES then Failure(RUBRIC_INVALID)
    else if pattern != frozen.pattern then Failure(RUBRIC_MISMATCH)
    else
      assert CheckToJson(frozen).fields == map["id" := Str(id), "pattern" := Str(pattern)];
      assert raw == CheckToJson(frozen) ==> c == CheckToJson(frozen).fields;
      assert c == CheckToJson(frozen).fields;
      Success(RubricCheck(id, pattern))
  }

  function ParseFixture(v: Option<Json>, pin: Option<string>): Parsed<Fixture> {
    var f :- if v.Some? then AsObject(v.value, INVALID_RECORD) else Failure(INVALID_RECORD);
    var _ :- RequireKeys(f, {"path", "manifest_sha256"});
    var path :- ParseText(Field(f, "path"), INVALID_ENTRY);
    if path == "" then Failure(INVALID_ENTRY)
    else if Utf8Bytes(path) > PATH_MAX_BYTES then Failure(OVER_BOUND)
    else if !SafeRelative(path) then Failure(PATH_UNSAFE) else
    var sha :- ParsePinned(Field(f, "manifest_sha256"), pin);
    Success(Fixture(path, sha))
  }

  lemma FixtureRoundTrip(v: Option<Json>, pin: Option<string>, f: Fixture)
    ensures ParseFixture(v, pin) == Success(f) <==>
              v == Some(FixtureToJson(f)) && FixtureOk(f) && pin == Some(f.manifestSha256)
  {
    hide SafeRelative, Sha256Hex, Utf8Bytes;
    if ParseFixture(v, pin) == Success(f) { assert v.value.fields == FixtureToJson(f).fields; }
  }

  /** The rubric's hash, and its checks not yet looked at. */
  function ParseRubric(v: Option<Json>, pin: Option<string>): Parsed<(string, Option<Json>)> {
    var r :- if v.Some? then AsObject(v.value, RUBRIC_INVALID) else Failure(RUBRIC_INVALID);
    var _ :- RequireKeys(r, {"sha256", "checks"});
    var sha :- ParsePinned(Field(r, "sha256"), pin);
    Success((sha, Field(r, "checks")))
  }

  lemma RubricRoundTrip(v: Option<Json>, pin: Option<string>, r: Rubric)
    ensures ParseRubric(v, pin) == Success((r.sha256, Some(Arr(ChecksToJson(r.checks))))) <==>
              v == Some(RubricToJson(r)) && Sha256Hex(r.sha256) && pin == Some(r.sha256)
  {
    hide ChecksToJson, Sha256Hex;
    if ParseRubric(v, pin) == Success((r.sha256, Some(Arr(ChecksToJson(r.checks))))) {
      assert v.value.fields == RubricToJson(r).fields;
    }
  }

  const MANIFEST_KEYS: set<string> := {
    "schema_version", "protocol_version", "protocol_doc", "phase", "milestone_prompt_sha256", "environment", "fixture",
    "non_treatment_sha256", "rubric", "sessions", "attempts"}

  /** Everything before the rubric's checks. */
  function ParseHeader(root: map<string, Json>, p: Protocol): Parsed<(Manifest, Option<Json>)> {
    var _ :- RequireExactly(Field(root, "schema_version"), Num(2.0), SCHEMA_VERSION);
    var _ :- RequireExactly(Field(root, "protocol_version"), Num(2.0), RecordError.PROTOCOL_VERSION);
    var _ :- RequireExactly(Field(root, "protocol_doc"), Str(FROZEN_DOC), RecordError.PROTOCOL_DOC);
    var phase :- ParsePhase(Field(root, "phase"));
    var milestone :- ParsePinned(Field(root, "milestone_prompt_sha256"), p.milestonePromptSha256);
    var environment :- ParsePinnedEnvironment(Field(root, "environment"), p.environment);
    var fixture :- ParseFixture(Field(root, "fixture"), p.fixtureManifestSha256);
    var nonTreatment :- ParsePinned(Field(root, "non_treatment_sha256"), p.nonTreatmentSha256);
    var rubric :- ParseRubric(Field(root, "rubric"), p.rubricSha256);
    Success((Manifest(BENCHMARK_SCHEMA_VERSION, FROZEN_VERSION, FROZEN_DOC, phase, milestone, environment, fixture,
                      nonTreatment, Rubric(rubric.0, []), [], []), rubric.1))
  }

  function HeaderOf(m: Manifest): Manifest {
    m.(rubric := Rubric(m.rubric.sha256, []), sessions := [], attempts := [])
  }

  /** The header fields of `root` are those of `m`. */
  ghost predicate HeaderIs(root: map<string, Json>, m: Manifest) {
    && Field(root, "schema_version") == Some(Num(m.schemaVersion as real))
    && Field(root, "protocol_version") == Some(Num(m.protocolVersion as real))
    && Field(root, "protocol_doc") == Some(Str(m.protocolDoc))
    && Field(root, "phase") == Some(PhaseJson(m.phase))
    && Field(root, "milestone_prompt_sha256") == Some(Str(m.milestonePromptSha256))
    && Field(root, "environment") == Some(EnvironmentToJson(m.environment))
    && Field(root, "fixture") == Some(FixtureToJson(m.fixture))
    && Field(root, "non_treatment_sha256") == Some(Str(m.nonTreatmentSha256))
    && Field(root, "rubric") == Some(RubricToJson(m.rubric))
  }

  lemma HeaderRoundTrip(root: map<string, Json>, p: Protocol, m: Manifest)
    ensures ParseHeader(root, p) == Success((HeaderOf(m), Some(Arr(ChecksToJson(m.rubric.checks))))) <==>
              HeaderIs(root, m) && PinnedFields(m, p)
  {
    hide EnvironmentOk, EnvironmentToJson, ParseEnvironment, Sha256Hex, ParseFixture, FixtureToJson, FixtureOk,
         ParseRubric, RubricToJson, ChecksToJson;
    EnvironmentRoundTrip(Field(root, "environment"), m.environment);
    FixtureRoundTrip(Field(root, "fixture"), p.fixtureManifestSha256, m.fixture);
    RubricRoundTrip(Field(root, "rubric"), p.rubricSha256, m.rubric);
  }

  lemma ManifestFields(root: map<string, Json>, m: Manifest)
    ensures Obj(root) == ManifestToJson(m) <==>
              && root.Keys <= MANIFEST_KEYS && HeaderIs(root, m)
              && Field(root, "sessions") == Some(Arr(SessionsToJson(m.sessions)))
              && Field(root, "attempts") == Some(Arr(AttemptsToJson(m.attempts)))
  {
    hide EnvironmentToJson, FixtureToJson, RubricToJson, SessionsToJson, AttemptsToJson;
    var fields := ManifestToJson(m).fields;
    assert fields.Keys == MANIFEST_KEYS;
    if root.Keys <= MANIFEST_KEYS && HeaderIs(root, m)
       && Field(root, "sessions") == Some(Arr(SessionsToJson(m.sessions)))
       && Field(root, "attempts") == Some(Arr(AttemptsToJson(m.attempts)))
    {
      assert root.Keys == MANIFEST_KEYS;
      assert root == fields;
    }
  }

  /** The header and the rubric's checks. */
  method ParseManifestHeader(root: map<string, Json>, p: Protocol) returns (r: Parsed<Manifest>)
    ensures r.Success? ==>
      HeaderIs(root, r.value) && PinnedHeader(r.value, p) && r.value.sessions == [] && r.value.attempts == []
    ensures forall m :: HeaderIs(root, m) && PinnedHeader(m, p) ==> r == Success(m.(sessions := [], attempts := []))
  {
    hide ParseHeader, HeaderIs, PinnedFields, FrozenChecksOk, ChecksToJson;
    forall m { HeaderRoundTrip(root, p, m); }
    BareHeader(root, p);
    var header :- ParseHeader(root, p);
    var checks :- ParseChecks(header.1, p.rubricChecks);
    r := Success(header.0.(rubric := Rubric(header.0.rubric.sha256, checks)));
    assert HeaderOf(r.value) == header.0;
  }

  lemma BareHeader(root: map<string, Json>, p: Protocol)
    ensures ParseHeader(root, p).Success? ==> ParseHeader(root, p).value.0 == HeaderOf(ParseHeader(root, p).value.0)
  {}

  lemma ManifestsAreObjects()
    ensures forall m :: ManifestToJson(m).Obj?
  {}

  /** The strict parser accepts exactly the serializations of acceptable
      manifests, and returns the manifest that was serialized. */
  method ParseManifest(raw: Json, p: Protocol) returns (r: Parsed<Manifest>)
    ensures r.Success? ==> raw == ManifestToJson(r.value) && AcceptableManifest(r.value, p)
    ensures forall m :: raw == ManifestToJson(m) && AcceptableManifest(m, p) ==> r == Success(m)
  {
    hide ManifestToJson, HeaderIs, PinnedHeader, SessionsOk, AttemptsListed, Gapless, Canonical, Labelled, Resolve,
         SessionPaths;
    ManifestsAreObjects();
    var root :- AsObject(raw, INVALID_RECORD);
    forall m { ManifestFields(root, m); }
    var _ :- RequireKeys(root, MANIFEST_KEYS);
    var header :- ParseManifestHeader(root, p);
    var sessionItems :- AsArray(Field(root, "sessions"), INVALID_RECORD);
    var parsed, seenPaths := ParseSessions(sessionItems, {Resolve(header.fixture.path)});
    if parsed.Failure? { return Failure(parsed.error); }
    var sessions := parsed.value;
    if |sessions| < 1 { return Failure(COHORT_COUNT); }
    var attemptItems :- AsArray(Field(root, "attempts"), INVALID_RECORD);
    if |attemptItems| > MAX_PAID_ATTEMPTS { return Failure(OVER_BOUND); }
    if header.phase == Final && |sessions| + |attemptItems| > MAX_PAID_ATTEMPTS { return Failure(OVER_BOUND); }
    var attempts :- ParseAttempts(attemptItems, seenPaths, header.phase);
    var _ :- ValidateSessionShape(sessions, header.phase, p.runsPerArm);
    r := Success(header.(sessions := sessions, attempts := attempts));
    HeaderOnly(root, header, r.value, p);
  }

  lemma HeaderOnly(root: map<string, Json>, a: Manifest, b: Manifest, p: Protocol)
    requires b == a.(sessions := b.sessions, attempts := b.attempts)
    ensures HeaderIs(root, a) <==> HeaderIs(root, b)
    ensures PinnedHeader(a, p) <==> PinnedHeader(b, p)
  {}
}
