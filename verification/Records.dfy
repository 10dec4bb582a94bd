/** The strict chronological collection record (commander-native-tool-benchmark-v2.ts). */
module Records {
  import opened Outcomes
  import opened Interleave
  import opened Fields

  datatype EntryKind = Session | Attempt

  datatype CollectionEntry = CollectionEntry(kind: EntryKind, arm: ArmName, path: string, expectedSessionSha256: string)

  datatype CollectionRecord = CollectionRecord(
    schemaVersion: int,
    protocolVersion: int,
    protocolDoc: string,
    phase: Phase,
    milestonePromptSha256: string,
    fixtureManifestSha256: string,
    nonTreatmentSha256: string,
    rubricSha256: string,
    environment: Environment,
    entries: seq<CollectionEntry>)

  const COLLECTION_SCHEMA_VERSION := 2
  const COLLECTION_ENTRY_CAP := MAX_PAID_ATTEMPTS

  // -------------------------------------------------------------------------
  // Serialization
  // -------------------------------------------------------------------------

  function KindJson(kind: EntryKind): Json {
    match kind
    case Session => Str("session")
    case Attempt => Str("attempt")
  }

  function EntryToJson(e: CollectionEntry): Json {
    Obj(map["kind" := KindJson(e.kind), "arm" := ArmJson(e.arm), "path" := Str(e.path),
            "expected_session_sha256" := Str(e.expectedSessionSha256)])
  }

  function EntriesToJson(entries: seq<CollectionEntry>): seq<Json> {
    seq(|entries|, i requires 0 <= i < |entries| => EntryToJson(entries[i]))
  }

  function RecordToJson(r: CollectionRecord): Json {
    Obj(map["schema_version" := Num(r.schemaVersion as real), "protocol_version" := Num(r.protocolVersion as real),
            "protocol_doc" := Str(r.protocolDoc), "phase" := PhaseJson(r.phase),
            "milestone_prompt_sha256" := Str(r.milestonePromptSha256),
            "fixture_manifest_sha256" := Str(r.fixtureManifestSha256),
            "non_treatment_sha256" := Str(r.nonTreatmentSha256), "rubric_sha256" := Str(r.rubricSha256),
            "environment" := EnvironmentToJson(r.environment), "entries" := Arr(EntriesToJson(r.entries))])
  }

  // -------------------------------------------------------------------------
  // What a truthful chronological record is
  // -------------------------------------------------------------------------

  /** How many entries fill an ABBA position. */
  function Sessions(entries: seq<CollectionEntry>): (n: nat)
    ensures n <= |entries|
  {
    if entries == [] then 0
    else Sessions(entries[..|entries| - 1]) + (if entries[|entries| - 1].kind.Session? then 1 else 0)
  }

  function ResolvedPaths(entries: seq<CollectionEntry>): set<seq<string>> {
    set i | 0 <= i < |entries| :: Resolve(entries[i].path)
  }

  predicate EntryOk(e: CollectionEntry) {
    PathOk(e.path) && Sha256Hex(e.expectedSessionSha256)
  }

  /** In a final record an entry takes the arm of the next position not yet
      filled, and none follows the last position. */
  predicate InTurn(phase: Phase, position: nat, arm: ArmName) {
    phase == Final ==> position < TOTAL_VALID_RUNS && arm == AbbaArmAt(position + 1)
  }

  /** Entry after entry. */
  predicate Chronicle(entries: seq<CollectionEntry>, phase: Phase) {
    entries == [] ||
      var before, last := entries[..|entries| - 1], entries[|entries| - 1];
      && Chronicle(before, phase)
      && EntryOk(last)
      && Resolve(last.path) !in ResolvedPaths(before)
      && InTurn(phase, Sessions(before), last.arm)
  }

  predicate PinnedHeader(r: CollectionRecord, p: Protocol) {
    && r.schemaVersion == COLLECTION_SCHEMA_VERSION && r.protocolVersion == FROZEN_VERSION
    && r.protocolDoc == FROZEN_DOC
    && p.milestonePromptSha256 == Some(r.milestonePromptSha256) && Sha256Hex(r.milestonePromptSha256)
    && p.fixtureManifestSha256 == Some(r.fixtureManifestSha256) && Sha256Hex(r.fixtureManifestSha256)
    && p.nonTreatmentSha256 == Some(r.nonTreatmentSha256) && Sha256Hex(r.nonTreatmentSha256)
    && p.rubricSha256 == Some(r.rubricSha256) && Sha256Hex(r.rubricSha256)
    && r.environment == p.environment && EnvironmentOk(r.environment)
  }

  predicate AcceptableRecord(r: CollectionRecord, p: Protocol) {
    && PinnedHeader(r, p)
    && |r.entries| <= COLLECTION_ENTRY_CAP
    && Chronicle(r.entries, r.phase)
    && (r.phase == Dev ==> Sessions(r.entries) > 0)
  }

  /** What one more entry does to a chronicle. */
  lemma {:induction false} Extended(entries: seq<CollectionEntry>, e: CollectionEntry, phase: Phase)
    ensures EntriesToJson(entries + [e]) == EntriesToJson(entries) + [EntryToJson(e)]
    ensures Sessions(entries + [e]) == Sessions(entries) + (if e.kind.Session? then 1 else 0)
    ensures ResolvedPaths(entries + [e]) == ResolvedPaths(entries) + {Resolve(e.path)}
    ensures Chronicle(entries + [e], phase) <==>
              && Chronicle(entries, phase) && EntryOk(e) && Resolve(e.path) !in ResolvedPaths(entries)
              && InTurn(phase, Sessions(entries), e.arm)
  {
    var more := entries + [e];
    assert more[..|more| - 1] == entries && more[|more| - 1] == e;
    assert forall i | 0 <= i < |entries| :: more[i] == entries[i];
    assert Resolve(more[|entries|].path) in ResolvedPaths(more);
    forall i | 0 <= i < |entries| ensures Resolve(entries[i].path) in ResolvedPaths(more) {
      assert Resolve(more[i].path) in ResolvedPaths(more);
    }
  }

  /** The same, entry by entry and not step by step. */
  ghost predicate Chronological(entries: seq<CollectionEntry>, phase: Phase) {
    && (forall i | 0 <= i < |entries| :: EntryOk(entries[i]))
    && (forall i, j | 0 <= i < j < |entries| :: Resolve(entries[i].path) != Resolve(entries[j].path))
    && (forall i | 0 <= i < |entries| :: InTurn(phase, Sessions(entries[..i]), entries[i].arm))
  }

  lemma {:induction false} ChronicleMeaning(entries: seq<CollectionEntry>, phase: Phase)
    ensures Chronicle(entries, phase) <==> Chronological(entries, phase)
  {
    if entries != [] {
      hide *;
      var before, last := entries[..|entries| - 1], entries[|entries| - 1];
      ChronicleMeaning(before, phase);
      assert entries == before + [last];
      Extended(before, last, phase);
      ChronologicalStep(before, last, phase);
    } else {
      assert Chronological(entries, phase) && Chronicle(entries, phase);
    }
  }

  lemma {:induction false} ChronologicalStep(before: seq<CollectionEntry>, last: CollectionEntry, phase: Phase)
    ensures Chronological(before + [last], phase) <==>
              && Chronological(before, phase) && EntryOk(last) && Resolve(last.path) !in ResolvedPaths(before)
              && InTurn(phase, Sessions(before), last.arm)
  {
    hide Sessions, EntryOk, InTurn, Resolve;
    var more, n := before + [last], |before|;
    assert more[n] == last && more[..n] == before;
    assert forall i | 0 <= i < n :: more[i] == before[i] && more[..i] == before[..i];
    if Chronological(more, phase) {
      assert InTurn(phase, Sessions(more[..n]), more[n].arm);
      forall i | 0 <= i < n ensures InTurn(phase, Sessions(before[..i]), before[i].arm) {
        assert InTurn(phase, Sessions(more[..i]), more[i].arm);
      }
      forall i | 0 <= i < n ensures EntryOk(before[i]) && Resolve(before[i].path) != Resolve(last.path) {
        assert EntryOk(more[i]) && Resolve(more[i].path) != Resolve(more[n].path);
      }
    }
  }

  /** A final record never holds more than the frozen number of sessions. */
  lemma {:induction false} SessionsBounded(entries: seq<CollectionEntry>)
    requires Chronicle(entries, Final)
    ensures Sessions(entries) <= TOTAL_VALID_RUNS
  {
    if entries != [] { SessionsBounded(entries[..|entries| - 1]); }
  }

  // -------------------------------------------------------------------------
  // Parsing
  // -------------------------------------------------------------------------

  function ParseKind(v: Option<Json>): Parsed<EntryKind> {
    if v == Some(Str("session")) then Success(Session)
    else if v == Some(Str("attempt")) then Success(Attempt)
    else Failure(INVALID_ENTRY)
  }

  /** `raw` is the serialization of `e`, and `e` may come next. */
  ghost predicate Fits(raw: Json, phase: Phase, seenPaths: set<seq<string>>, position: nat, e: CollectionEntry) {
    raw == EntryToJson(e) && EntryOk(e) && Resolve(e.path) !in seenPaths && InTurn(phase, position, e.arm)
  }

  /** One entry, given the paths already seen and the position reached. */
  method ParseEntry(raw: Json, phase: Phase, seenPaths: set<seq<string>>, position: nat)
    returns (r: Parsed<CollectionEntry>)
    ensures r.Success? ==> Fits(raw, phase, seenPaths, position, r.value)
    ensures r.Failure? ==> forall e :: !Fits(raw, phase, seenPaths, position, e)
  {
    hide SafeWord, SafeRelative, Resolve, Sha256Hex;
    var e :- AsObject(raw, INVALID_RECORD);
    var _ :- RequireKeys(e, {"kind", "arm", "path", "expected_session_sha256"});
    var kind :- ParseKind(Field(e, "kind"));
    var arm :- ParseArm(Field(e, "arm"));
    var path :- ParsePath(Field(e, "path"));
    if Resolve(path) in seenPaths { return Failure(DUPLICATE_PATH); }
    var sha :- ParseSha256(Field(e, "expected_session_sha256"));
    if phase == Final {
      if position >= TOTAL_VALID_RUNS { return Failure(COHORT_COUNT); }
      if arm != AbbaArmAt(position + 1) { return Failure(ARM_MISMATCH); }
    }
    r := Success(CollectionEntry(kind, arm, path, sha));
    assert e == EntryToJson(r.value).fields;
  }

  /** The entry list: a loop over the paths seen and the position reached. */
  method ParseEntries(items: seq<Json>, phase: Phase) returns (r: Parsed<seq<CollectionEntry>>)
    ensures r.Success? ==> items == EntriesToJson(r.value) && Chronicle(r.value, phase)
    ensures forall es :: items == EntriesToJson(es) && Chronicle(es, phase) ==> r == Success(es)
  {
    hide Chronicle, ResolvedPaths, Sessions, EntriesToJson, EntryToJson, Fits;
    var entries: seq<CollectionEntry> := [];
    var seenPaths: set<seq<string>> := {};
    var position := 0;
    EmptyChronicle(phase);
    assert items[..0] == [];
    for i := 0 to |items|
      invariant |entries| == i && items[..i] == EntriesToJson(entries)
      invariant Chronicle(entries, phase)
      invariant seenPaths == ResolvedPaths(entries) && position == Sessions(entries)
    {
      var parsed := ParseEntry(items[i], phase, seenPaths, position);
      if parsed.Failure? {
        forall es ensures !(items == EntriesToJson(es) && Chronicle(es, phase)) {
          if items == EntriesToJson(es) && Chronicle(es, phase) { Rejected(items, es, entries, phase); }
        }
        return Failure(parsed.error);
      }
      FitsExtends(items[i], phase, entries, parsed.value);
      seenPaths := seenPaths + {Resolve(parsed.value.path)};
      if parsed.value.kind.Session? { position := position + 1; }
      entries := entries + [parsed.value];
      assert items[..i + 1] == items[..i] + [items[i]];
    }
    r := Success(entries);
    assert items[..|items|] == items;
    forall es | items == EntriesToJson(es) ensures es == entries {
      EntriesToJsonInjective(es, entries);
    }
  }

  lemma {:induction false} EmptyChronicle(phase: Phase)
    ensures Chronicle([], phase) && ResolvedPaths([]) == {} && Sessions([]) == 0 && EntriesToJson([]) == []
  {}

  lemma {:induction false} FitsExtends(raw: Json, phase: Phase, entries: seq<CollectionEntry>, e: CollectionEntry)
    requires Chronicle(entries, phase) && Fits(raw, phase, ResolvedPaths(entries), Sessions(entries), e)
    ensures Chronicle(entries + [e], phase) && EntriesToJson(entries + [e]) == EntriesToJson(entries) + [raw]
    ensures ResolvedPaths(entries + [e]) == ResolvedPaths(entries) + {Resolve(e.path)}
    ensures Sessions(entries + [e]) == Sessions(entries) + (if e.kind.Session? then 1 else 0)
  {
    Extended(entries, e, phase);
  }

  lemma EntryToJsonInjective(a: CollectionEntry, b: CollectionEntry)
    requires EntryToJson(a) == EntryToJson(b)
    ensures a == b
  {
    var x, y := EntryToJson(a).fields, EntryToJson(b).fields;
    assert x["kind"] == y["kind"] && x["arm"] == y["arm"] && x["path"] == y["path"];
    assert x["expected_session_sha256"] == y["expected_session_sha256"];
  }

  lemma EntriesToJsonInjective(a: seq<CollectionEntry>, b: seq<CollectionEntry>)
    requires EntriesToJson(a) == EntriesToJson(b)
    ensures a == b
  {
    assert |EntriesToJson(a)| == |a| && |EntriesToJson(b)| == |b|;
    forall i | 0 <= i < |a| ensures a[i] == b[i] {
      assert EntriesToJson(a)[i] == EntriesToJson(b)[i];
      EntryToJsonInjective(a[i], b[i]);
    }
  }

  /** If the next entry cannot be parsed after `done`, no list serializes to `items`. */
  lemma {:induction false} Rejected(items: seq<Json>, es: seq<CollectionEntry>, done: seq<CollectionEntry>,
                                    phase: Phase)
    requires items == EntriesToJson(es) && Chronicle(es, phase)
    requires |done| < |items| && items[..|done|] == EntriesToJson(done)
    ensures |done| < |es| && Fits(items[|done|], phase, ResolvedPaths(done), Sessions(done), es[|done|])
  {
    var n := |done|;
    assert EntriesToJson(es[..n]) == EntriesToJson(done);
    EntriesToJsonInjective(es[..n], done);
    ChronicleMeaning(es, phase);
    assert InTurn(phase, Sessions(es[..n]), es[n].arm);
  }

  const RECORD_KEYS: set<string> := {
    "schema_version", "protocol_version", "protocol_doc", "phase", "milestone_prompt_sha256", "fixture_manifest_sha256",
    "non_treatment_sha256", "rubric_sha256", "environment", "entries"}

  /** Everything before the entries. */
  function ParseHeader(root: map<string, Json>, p: Protocol): Parsed<CollectionRecord> {
    var _ :- RequireExactly(Field(root, "schema_version"), Num(2.0), SCHEMA_VERSION);
    var _ :- RequireExactly(Field(root, "protocol_version"), Num(2.0), RecordError.PROTOCOL_VERSION);
    var _ :- RequireExactly(Field(root, "protocol_doc"), Str(FROZEN_DOC), RecordError.PROTOCOL_DOC);
    var phase :- ParsePhase(Field(root, "phase"));
    var milestone :- ParsePinned(Field(root, "milestone_prompt_sha256"), p.milestonePromptSha256);
    var fixture :- ParsePinned(Field(root, "fixture_manifest_sha256"), p.fixtureManifestSha256);
    var nonTreatment :- ParsePinned(Field(root, "non_treatment_sha256"), p.nonTreatmentSha256);
    var rubric :- ParsePinned(Field(root, "rubric_sha256"), p.rubricSha256);
    var environment :- ParsePinnedEnvironment(Field(root, "environment"), p.environment);
    Success(CollectionRecord(COLLECTION_SCHEMA_VERSION, FROZEN_VERSION, FROZEN_DOC, phase, milestone, fixture,
                             nonTreatment, rubric, environment, []))
  }

  /** The header fields of `root` are those of `r`. */
  ghost predicate HeaderIs(root: map<string, Json>, r: CollectionRecord) {
    && Field(root, "schema_version") == Some(Num(r.schemaVersion as real))
    && Field(root, "protocol_version") == Some(Num(r.protocolVersion as real))
    && Field(root, "protocol_doc") == Some(Str(r.protocolDoc))
    && Field(root, "phase") == Some(PhaseJson(r.phase))
    && Field(root, "milestone_prompt_sha256") == Some(Str(r.milestonePromptSha256))
    && Field(root, "fixture_manifest_sha256") == Some(Str(r.fixtureManifestSha256))
    && Field(root, "non_treatment_sha256") == Some(Str(r.nonTreatmentSha256))
    && Field(root, "rubric_sha256") == Some(Str(r.rubricSha256))
    && Field(root, "environment") == Some(EnvironmentToJson(r.environment))
  }

  lemma HeaderRoundTrip(root: map<string, Json>, p: Protocol, r: CollectionRecord)
    ensures ParseHeader(root, p) == Success(r.(entries := [])) <==> HeaderIs(root, r) && PinnedHeader(r, p)
  {
    hide EnvironmentOk, EnvironmentToJson, ParseEnvironment, Sha256Hex;
    EnvironmentRoundTrip(Field(root, "environment"), r.environment);
  }

  /** A record's JSON is its header and its entries, and nothing else. */
  lemma RecordFields(root: map<string, Json>, r: CollectionRecord)
    ensures Obj(root) == RecordToJson(r) <==>
              root.Keys <= RECORD_KEYS && HeaderIs(root, r) && Field(root, "entries") == Some(Arr(EntriesToJson(r.entries)))
  {
    hide EnvironmentToJson, EntriesToJson;
    var fields := RecordToJson(r).fields;
    assert fields.Keys == RECORD_KEYS;
    if root.Keys <= RECORD_KEYS && HeaderIs(root, r) && Field(root, "entries") == Some(Arr(EntriesToJson(r.entries))) {
      assert root.Keys == RECORD_KEYS;
      assert root == fields;
    }
  }

  lemma RecordToJsonInjective(a: CollectionRecord, b: CollectionRecord)
    requires RecordToJson(a) == RecordToJson(b)
    ensures a == b
  {
    hide RecordToJson, EntriesToJson, EnvironmentToJson;
    RecordsAreObjects();
    var root := RecordToJson(a).fields;
    RecordFields(root, a);
    RecordFields(root, b);
    EnvironmentToJsonInjective(a.environment, b.environment);
    EntriesToJsonInjective(a.entries, b.entries);
    assert (a.schemaVersion as real).Floor == (b.schemaVersion as real).Floor;
    assert (a.protocolVersion as real).Floor == (b.protocolVersion as real).Floor;
  }

  lemma HeaderHasNoEntries(root: map<string, Json>, p: Protocol)
    ensures ParseHeader(root, p).Success? ==> ParseHeader(root, p).value.entries == []
  {}

  lemma RecordsAreObjects()
    ensures forall r :: RecordToJson(r).Obj?
  {}

  /** The strict parser accepts exactly the serializations of acceptable
      records, and returns the record that was serialized. */
  method ParseCollectionRecord(raw: Json, p: Protocol) returns (r: Parsed<CollectionRecord>)
    ensures r.Success? ==> raw == RecordToJson(r.value) && AcceptableRecord(r.value, p)
    ensures forall rec :: raw == RecordToJson(rec) && AcceptableRecord(rec, p) ==> r == Success(rec)
  {
    hide RecordToJson, ParseHeader, HeaderIs, PinnedHeader, Chronicle, Sessions;
    RecordsAreObjects();
    var root :- AsObject(raw, INVALID_RECORD);
    forall rec { RecordFields(root, rec); }
    forall rec { HeaderRoundTrip(root, p, rec); }
    HeaderHasNoEntries(root, p);
    EmptyChronicle(Dev);
    var _ :- RequireKeys(root, RECORD_KEYS);
    var header :- ParseHeader(root, p);
    var items :- AsArray(Field(root, "entries"), INVALID_RECORD);
    if header.phase == Dev && |items| < 1 { return Failure(COHORT_COUNT); }
    if |items| > COLLECTION_ENTRY_CAP { return Failure(OVER_BOUND); }
    var entries :- ParseEntries(items, header.phase);
    if header.phase == Dev && Sessions(entries) == 0 { return Failure(COHORT_COUNT); }
    r := Success(header.(entries := entries));
  }
}
