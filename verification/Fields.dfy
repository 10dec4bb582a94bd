/** JSON values and the strict field checks shared by the record and the
    manifest parser (commander-native-tool-benchmark-v2.ts,
    commander-native-tool-benchmark.ts). */
module Fields {
  import opened Outcomes
  import opened Interleave
  import opened Text

  /** What `JSON.parse` yields: keys are unordered and unique. */
  datatype Json =
    | Null
    | Bool(flag: bool)
    | Num(number: real)
    | Str(text: string)
    | Arr(items: seq<Json>)
    | Obj(fields: map<string, Json>)

  datatype RecordError =
    | INVALID_RECORD | UNKNOWN_KEY | SCHEMA_VERSION | PROTOCOL_VERSION | PROTOCOL_DOC | INVALID_PHASE
    | INVALID_ENTRY | PIN_MISMATCH | PROTOCOL_NOT_FROZEN | ENV_UNSAFE | ENV_MISMATCH | RUBRIC_INVALID
    | RUBRIC_MISMATCH | HASH_UNSAFE | OVER_BOUND | LABEL_UNSAFE | LABEL_MISMATCH | PATH_UNSAFE
    | BASENAME_UNSAFE | DUPLICATE_PATH | DUPLICATE_LABEL | ORDER_MISMATCH | ARM_MISMATCH | COHORT_COUNT
    | ATTEMPT_LABELS | INVALID_CATEGORY

  type Parsed<T> = Result<T, RecordError>

  datatype Phase = Dev | Final

  datatype Environment = Environment(modelKey: string, thinkingLevel: string, piVersion: string, nodeVersion: string)

  datatype RubricCheck = RubricCheck(id: string, pattern: string)

  /** The frozen protocol; a pin may still be unresolved. */
  datatype Protocol = Protocol(
    milestonePromptSha256: Option<string>,
    environment: Environment,
    fixtureManifestSha256: Option<string>,
    nonTreatmentSha256: Option<string>,
    rubricSha256: Option<string>,
    rubricChecks: seq<RubricCheck>,
    runsPerArm: nat)

  // -------------------------------------------------------------------------
  // Bounded safe strings
  // -------------------------------------------------------------------------

  predicate AlphaNumeric(c: char) {
    'a' <= c <= 'z' || 'A' <= c <= 'Z' || '0' <= c <= '9'
  }

  /** An alphanumeric character, then alphanumerics and `extra`, at most `max` in all. */
  predicate SafeWord(s: string, extra: string, max: nat) {
    && 1 <= |s| <= max && AlphaNumeric(s[0])
    && forall i | 0 <= i < |s| :: AlphaNumeric(s[i]) || s[i] in extra
  }

  predicate SafeLevel(s: string) {
    1 <= |s| <= 32 && forall i | 0 <= i < |s| :: AlphaNumeric(s[i]) || s[i] in "._-"
  }

  predicate Sha256Hex(s: string) {
    |s| == 64 && forall i | 0 <= i < |s| :: '0' <= s[i] <= '9' || 'a' <= s[i] <= 'f'
  }

  // -------------------------------------------------------------------------
  // Relative paths
  // -------------------------------------------------------------------------

  predicate IsSeparator(c: char) {
    c == '/' || c == '\\'
  }

  /** What follows the last separator. */
  function BaseName(p: string): string {
    if p == "" then "" else if IsSeparator(p[|p| - 1]) then "" else BaseName(p[..|p| - 1]) + [p[|p| - 1]]
  }

  /** The pieces between separators of either kind. */
  function Pieces(p: string): (r: seq<string>)
    ensures |r| > 0
  {
    if p == "" then [""]
    else if IsSeparator(p[0]) then [""] + Pieces(p[1..])
    else var r := Pieces(p[1..]); [[p[0]] + r[0]] + r[1..]
  }

  /** The pieces between slashes. */
  function SlashPieces(p: string): (r: seq<string>)
    ensures |r| > 0
  {
    if p == "" then [""]
    else if p[0] == '/' then [""] + SlashPieces(p[1..])
    else var r := SlashPieces(p[1..]); [[p[0]] + r[0]] + r[1..]
  }

  function Named(pieces: seq<string>): seq<string> {
    if pieces == [] then []
    else if pieces[0] == "" || pieces[0] == "." then Named(pieces[1..])
    else [pieces[0]] + Named(pieces[1..])
  }

  /** Where a safe relative path leads below the base directory; `resolve`
      drops empty and `.` segments, and a safe path has no `..`. */
  function Resolve(p: string): seq<string> {
    Named(SlashPieces(p))
  }

  predicate DrivePath(p: string) {
    |p| >= 3 && ('a' <= p[0] <= 'z' || 'A' <= p[0] <= 'Z') && p[1] == ':' && IsSeparator(p[2])
  }

  predicate SafeRelative(p: string) {
    && !("/" <= p) && !DrivePath(p) && !("\\\\" <= p)
    && 0 as char !in p && ".." !in Pieces(p)
  }

  predicate PathOk(p: string) {
    p != "" && Utf8Bytes(p) <= PATH_MAX_BYTES && SafeWord(BaseName(p), "._-", 128) && SafeRelative(p)
  }

  // -------------------------------------------------------------------------
  // Field checks
  // -------------------------------------------------------------------------

  function Field(fields: map<string, Json>, key: string): Option<Json> {
    if key in fields then Some(fields[key]) else None
  }

  function AsObject(v: Json, error: RecordError): Parsed<map<string, Json>> {
    if v.Obj? then Success(v.fields) else Failure(error)
  }

  function AsArray(v: Option<Json>, error: RecordError): Parsed<seq<Json>> {
    if v.Some? && v.value.Arr? then Success(v.value.items) else Failure(error)
  }

  function RequireKeys(fields: map<string, Json>, allowed: set<string>): Parsed<()> {
    if fields.Keys <= allowed then Success(()) else Failure(UNKNOWN_KEY)
  }

  function RequireExactly(v: Option<Json>, expected: Json, error: RecordError): Parsed<()> {
    if v == Some(expected) then Success(()) else Failure(error)
  }

  function ParseSha256(v: Option<Json>): Parsed<string> {
    if v.Some? && v.value.Str? && Sha256Hex(v.value.text) then Success(v.value.text) else Failure(HASH_UNSAFE)
  }

  function RequirePin(declared: string, pin: Option<string>): Parsed<()> {
    if pin.None? then Failure(PROTOCOL_NOT_FROZEN)
    else if declared != pin.value then Failure(PIN_MISMATCH)
    else Success(())
  }

  /** A declared hash that must be the frozen pin. */
  function ParsePinned(v: Option<Json>, pin: Option<string>): Parsed<string> {
    var declared :- ParseSha256(v);
    var _ :- RequirePin(declared, pin);
    Success(declared)
  }

  function ArmJson(arm: ArmName): Json {
    Str(ArmText(arm))
  }

  function ParseArm(v: Option<Json>): Parsed<ArmName> {
    if v == Some(Str("control")) then Success(Control)
    else if v == Some(Str("treatment")) then Success(Treatment)
    else Failure(INVALID_ENTRY)
  }

  function PhaseJson(phase: Phase): Json {
    match phase
    case Dev => Str("dev")
    case Final => Str("final")
  }

  function ParsePhase(v: Option<Json>): Parsed<Phase> {
    if v == Some(Str("dev")) then Success(Dev)
    else if v == Some(Str("final")) then Success(Final)
    else Failure(INVALID_PHASE)
  }

  function ParsePath(v: Option<Json>): Parsed<string> {
    if v.None? || !v.value.Str? || v.value.text == "" then Failure(INVALID_ENTRY)
    else if Utf8Bytes(v.value.text) > PATH_MAX_BYTES then Failure(OVER_BOUND)
    else if !SafeWord(BaseName(v.value.text), "._-", 128) then Failure(BASENAME_UNSAFE)
    else if !SafeRelative(v.value.text) then Failure(PATH_UNSAFE)
    else Success(v.value.text)
  }

  // -------------------------------------------------------------------------
  // The pinned environment
  // -------------------------------------------------------------------------

  predicate EnvironmentOk(e: Environment) {
    && SafeWord(e.modelKey, "._/-", 96) && SafeLevel(e.thinkingLevel)
    && SafeWord(e.piVersion, "._-", 32) && SafeWord(e.nodeVersion, "._-", 32)
  }

  function EnvironmentToJson(e: Environment): Json {
    Obj(map["model_key" := Str(e.modelKey), "thinking_level" := Str(e.thinkingLevel),
            "pi_version" := Str(e.piVersion), "node_version" := Str(e.nodeVersion)])
  }

  function ParseText(v: Option<Json>, error: RecordError): Parsed<string> {
    if v.Some? && v.value.Str? then Success(v.value.text) else Failure(error)
  }

  function ParseEnvironment(v: Option<Json>): Parsed<Environment> {
    var e :- if v.Some? then AsObject(v.value, INVALID_RECORD) else Failure(INVALID_RECORD);
    var _ :- RequireKeys(e, {"model_key", "thinking_level", "pi_version", "node_version"});
    var modelKey :- ParseText(Field(e, "model_key"), ENV_UNSAFE);
    if !SafeWord(modelKey, "._/-", 96) then Failure(ENV_UNSAFE) else
    var thinkingLevel :- ParseText(Field(e, "thinking_level"), ENV_UNSAFE);
    if !SafeLevel(thinkingLevel) then Failure(ENV_UNSAFE) else
    var piVersion :- ParseText(Field(e, "pi_version"), ENV_UNSAFE);
    if !SafeWord(piVersion, "._-", 32) then Failure(ENV_UNSAFE) else
    var nodeVersion :- ParseText(Field(e, "node_version"), ENV_UNSAFE);
    if !SafeWord(nodeVersion, "._-", 32) then Failure(ENV_UNSAFE) else
    Success(Environment(modelKey, thinkingLevel, piVersion, nodeVersion))
  }

  function ParsePinnedEnvironment(v: Option<Json>, pinned: Environment): Parsed<Environment> {
    var e :- ParseEnvironment(v);
    if e == pinned then Success(e) else Failure(ENV_MISMATCH)
  }

  /** The environment parser accepts exactly the serialized environments. */
  lemma EnvironmentRoundTrip(v: Option<Json>, e: Environment)
    ensures ParseEnvironment(v) == Success(e) <==> v == Some(EnvironmentToJson(e)) && EnvironmentOk(e)
  {
    if ParseEnvironment(v) == Success(e) {
      assert v.value.fields == EnvironmentToJson(e).fields;
    }
  }

  lemma EnvironmentToJsonInjective(a: Environment, b: Environment)
    requires EnvironmentToJson(a) == EnvironmentToJson(b)
    ensures a == b
  {
    var x, y := EnvironmentToJson(a).fields, EnvironmentToJson(b).fields;
    assert x["model_key"] == y["model_key"] && x["thinking_level"] == y["thinking_level"];
    assert x["pi_version"] == y["pi_version"] && x["node_version"] == y["node_version"];
  }
}
