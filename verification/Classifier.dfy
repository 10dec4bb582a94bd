/** From the entries of a session to the verdict on it
    (commander-native-tool-benchmark.ts, commander-native-tool-benchmark-v2.ts,
    commander-native-tool-v2-final-collect.ts). */
module Classifier {
  import opened Outcomes
  import opened Interleave
  import opened Fields
  import opened Manifest
  import P = Pagination

  const MAX_USAGE_FACT := 100000000000.0

  datatype SessionError =
    | MALFORMED_JSONL | INVALID_FACTS | MISSING_ASSISTANT_USAGE | MISSING_USER_MESSAGE | MISSING_PROMPT_TEXT
    | PROMPT_MISMATCH | MODEL_MISMATCH | MISSING_THINKING_LEVEL | THINKING_MISMATCH | COMPACTION_PRESENT
    | ABORTED | ERRORED | NOT_TERMINAL_STOP | ATTEMPT_NOT_INVALID | Policy(code: P.PolicyError)

  type Checked<T> = Result<T, SessionError>

  /** What is pinned: the prompt's hash and the environment. */
  datatype Pins = Pins(promptSha256: string, environment: Environment)

  /** Code that is not modelled here. */
  datatype Tools = Tools(
    digest: string -> string,
    compactions: seq<Json> -> nat,
    resultText: Json -> string,
    marker: string -> P.Marker)

  /** How a source was named and placed; no verdict depends on it. */
  datatype Tag = Tag(name: string, arm: ArmName, basename: string, rawSha256: string)

  // -------------------------------------------------------------------------
  // Entries
  // -------------------------------------------------------------------------

  function Get(e: Json, key: string): Option<Json> {
    if e.Obj? then Field(e.fields, key) else None
  }

  function TextAt(e: Json, key: string): Option<string> {
    var v := Get(e, key);
    if v.Some? && v.value.Str? then Some(v.value.text) else None
  }

  predicate IsRecord(e: Json) { e.Obj? }

  predicate IsMessage(e: Json) { TextAt(e, "type") == Some("message") }

  predicate IsCompaction(e: Json) { TextAt(e, "type") == Some("compaction") }

  predicate HasMessage(e: Json) {
    IsMessage(e) && Get(e, "message").Some? && Get(e, "message").value.Obj?
  }

  function Message(e: Json): Json
    requires HasMessage(e)
  {
    Get(e, "message").value
  }

  predicate IsUser(e: Json) { HasMessage(e) && TextAt(Message(e), "role") == Some("user") }

  predicate IsAssistant(e: Json) { HasMessage(e) && TextAt(Message(e), "role") == Some("assistant") }

  function LastWhere(entries: seq<Json>, p: Json -> bool): Option<Json> {
    if entries == [] then None
    else if p(entries[|entries| - 1]) then Some(entries[|entries| - 1])
    else LastWhere(entries[..|entries| - 1], p)
  }

  function CountWhere(entries: seq<Json>, p: Json -> bool): nat {
    if entries == [] then 0
    else CountWhere(entries[..|entries| - 1], p) + (if p(entries[|entries| - 1]) then 1 else 0)
  }

  predicate Any(entries: seq<Json>, p: Json -> bool) {
    exists e | e in entries :: p(e)
  }

  lemma Prefix(entries: seq<Json>, i: nat)
    requires i < |entries|
    ensures entries[..i + 1] == entries[..i] + [entries[i]] && entries[..i + 1][..i] == entries[..i]
  {}

  /** The last entry of a kind is one after which there is no other. */
  lemma {:induction false} LastWhereMeaning(entries: seq<Json>, p: Json -> bool, e: Json)
    ensures LastWhere(entries, p) == Some(e) <==>
              exists i | 0 <= i < |entries| :: entries[i] == e && p(e) && forall j | i < j < |entries| :: !p(entries[j])
    ensures LastWhere(entries, p).None? <==> !Any(entries, p)
  {
    if entries != [] {
      var n := |entries| - 1;
      var before := entries[..n];
      LastWhereMeaning(before, p, e);
      assert entries == before + [entries[n]];
      if LastWhere(before, p) == Some(e) && !p(entries[n]) {
        var i :| 0 <= i < n && before[i] == e && p(e) && forall j | i < j < n :: !p(before[j]);
        assert entries[i] == e && forall j | i < j < |entries| :: !p(entries[j]);
      }
      if i :| 0 <= i < |entries| && entries[i] == e && p(e) && forall j | i < j < |entries| :: !p(entries[j]) {
        if i < n { assert before[i] == e && forall j | i < j < n :: !p(before[j]); }
      }
      if p(entries[n]) { assert entries[n] in entries; }
    }
  }

  // -------------------------------------------------------------------------
  // Validation
  // -------------------------------------------------------------------------

  predicate UsageNumberOk(usage: map<string, Json>, key: string, integer: bool) {
    key in usage ==>
      && usage[key].Num? && 0.0 <= usage[key].number <= MAX_USAGE_FACT
      && (integer ==> usage[key].number == usage[key].number.Floor as real)
  }

  predicate UsageOk(usage: Json) {
    && usage.Obj?
    && (forall key | key in ["input", "output", "cacheRead", "cacheWrite"] :: UsageNumberOk(usage.fields, key, true))
    && ("cost" in usage.fields ==>
          usage.fields["cost"].Obj? && UsageNumberOk(usage.fields["cost"].fields, "total", false))
  }

  function ValidateUsage(usage: Json): (r: Checked<()>)
    ensures r.Success? <==> UsageOk(usage)
  {
    if !usage.Obj? then Failure(INVALID_FACTS)
    else if !UsageNumberOk(usage.fields, "input", true) || !UsageNumberOk(usage.fields, "output", true)
      || !UsageNumberOk(usage.fields, "cacheRead", true) || !UsageNumberOk(usage.fields, "cacheWrite", true)
    then Failure(INVALID_FACTS)
    else if "cost" !in usage.fields then Success(())
    else if !usage.fields["cost"].Obj? then Failure(INVALID_FACTS)
    else if !UsageNumberOk(usage.fields["cost"].fields, "total", false) then Failure(INVALID_FACTS)
    else Success(())
  }

  /** Usage is sound wherever it is recorded, and every answer records it. */
  predicate EntrySound(e: Json) {
    && (IsMessage(e) ==> HasMessage(e))
    && (HasMessage(e) && !IsUser(e) && Get(Message(e), "usage").Some? ==> UsageOk(Get(Message(e), "usage").value))
    && (IsAssistant(e) ==> Get(Message(e), "usage").Some?)
    && (TextAt(e, "type") in {Some("compaction"), Some("branch_summary")} && Get(e, "usage").Some? ==>
          UsageOk(Get(e, "usage").value))
  }

  predicate SessionSound(entries: seq<Json>, requireAssistant: bool) {
    && (forall e | e in entries :: EntrySound(e))
    && (requireAssistant ==> Any(entries, IsUser) && Any(entries, IsAssistant))
  }

  function ValidateEntry(e: Json): (r: Checked<()>)
    ensures r.Success? <==> EntrySound(e)
  {
    if !e.Obj? then Success(())
    else if !IsMessage(e) then
      if (IsCompaction(e) || TextAt(e, "type") == Some("branch_summary")) && Get(e, "usage").Some?
      then ValidateUsage(Get(e, "usage").value)
      else Success(())
    else if !HasMessage(e) then Failure(MALFORMED_JSONL)
    else if IsUser(e) then Success(())
    else
      var usage := Get(Message(e), "usage");
      var _ :- if usage.Some? then ValidateUsage(usage.value) else Success(());
      if IsAssistant(e) && usage.None? then Failure(MISSING_ASSISTANT_USAGE) else Success(())
  }

  method ValidateEntries(entries: seq<Json>, requireAssistant: bool) returns (r: Checked<()>)
    ensures r.Success? <==> SessionSound(entries, requireAssistant)
  {
    hide EntrySound, ValidateEntry;
    var userCount: nat, assistantCount: nat := 0, 0;
    for i := 0 to |entries|
      invariant forall e | e in entries[..i] :: EntrySound(e)
      invariant userCount > 0 <==> Any(entries[..i], IsUser)
      invariant assistantCount > 0 <==> Any(entries[..i], IsAssistant)
    {
      hide Any, IsUser, IsAssistant;
      var e := entries[i];
      Prefix(entries, i);
      OneMore(entries[..i], e);
      var _ :- ValidateEntry(e);
      if IsUser(e) { userCount := userCount + 1; }
      if IsAssistant(e) { assistantCount := assistantCount + 1; }
    }
    assert entries[..|entries|] == entries;
    if requireAssistant && userCount == 0 { return Failure(MISSING_USER_MESSAGE); }
    if requireAssistant && assistantCount == 0 { return Failure(MISSING_ASSISTANT_USAGE); }
    return Success(());
  }

  lemma {:induction false} OneMore(before: seq<Json>, e: Json)
    ensures forall p: Json -> bool :: Any(before + [e], p) <==> Any(before, p) || p(e)
    ensures forall p: Json -> bool :: CountWhere(before + [e], p) == CountWhere(before, p) + (if p(e) then 1 else 0)
    ensures forall p: Json -> bool :: LastWhere(before + [e], p) == if p(e) then Some(e) else LastWhere(before, p)
  {
    var more := before + [e];
    assert more[..|more| - 1] == before;
    forall p: Json -> bool ensures Any(more, p) <==> Any(before, p) || p(e) {
      if Any(before, p) {
        var x :| x in before && p(x);
        assert x in more;
      }
      assert e in more;
    }
  }

  // -------------------------------------------------------------------------
  // The prompt
  // -------------------------------------------------------------------------

  function FirstWhere(entries: seq<Json>, p: Json -> bool): Option<Json> {
    if entries == [] then None else if p(entries[0]) then Some(entries[0]) else FirstWhere(entries[1..], p)
  }

  predicate IsTextPart(item: Json) {
    TextAt(item, "type") == Some("text") && TextAt(item, "text").Some?
  }

  function TextParts(items: seq<Json>): string {
    if items == [] then ""
    else TextParts(items[..|items| - 1]) +
         (if IsTextPart(items[|items| - 1]) then TextAt(items[|items| - 1], "text").value else "")
  }

  /** The text of a message. */
  function ContentText(content: Option<Json>): string {
    if content.None? then ""
    else match content.value
      case Str(text) => text
      case Arr(items) => TextParts(items)
      case _ => ""
  }

  /** The text of the first user message, if there is one. */
  function PromptOf(entries: seq<Json>): Option<string> {
    var first := FirstWhere(entries, IsUser);
    if first.None? then None else
      assert IsUser(first.value) by { FirstIs(entries, IsUser); }
      Some(ContentText(Get(Message(first.value), "content")))
  }

  lemma {:induction false} FirstIs(entries: seq<Json>, p: Json -> bool)
    ensures FirstWhere(entries, p).Some? <==> Any(entries, p)
    ensures FirstWhere(entries, p).Some? ==> p(FirstWhere(entries, p).value)
  {
    if entries != [] {
      FirstIs(entries[1..], p);
      assert entries == [entries[0]] + entries[1..];
    }
  }

  method ExtractPromptText(entries: seq<Json>) returns (r: Checked<string>)
    ensures r == if PromptOf(entries).Some? then Success(PromptOf(entries).value) else Failure(MISSING_USER_MESSAGE)
  {
    for i := 0 to |entries|
      invariant PromptOf(entries) == PromptOf(entries[i..])
    {
      var e := entries[i];
      assert entries[i..][1..] == entries[i + 1..];
      if !IsUser(e) { continue; }
      var content := Get(Message(e), "content");
      if content.None? { return Success(""); }
      if content.value.Str? { return Success(content.value.text); }
      if content.value.Arr? {
        var text := JoinParts(content.value.items);
        return Success(text);
      }
      return Success("");
    }
    return Failure(MISSING_USER_MESSAGE);
  }

  method JoinParts(items: seq<Json>) returns (text: string)
    ensures text == TextParts(items)
  {
    text := "";
    for i := 0 to |items|
      invariant text == TextParts(items[..i])
    {
      Prefix(items, i);
      if IsTextPart(items[i]) { text := text + TextAt(items[i], "text").value; }
    }
    assert items[..|items|] == items;
  }

  // -------------------------------------------------------------------------
  // Terminal facts
  // -------------------------------------------------------------------------

  const KNOWN_STOP_REASONS := {"stop", "length", "toolUse", "error", "aborted"}
  const KNOWN_ENTRY_TYPES :=
    {"session", "session_info", "model_change", "thinking_level_change", "message", "compaction", "branch_summary", "custom"}
  const KNOWN_MESSAGE_ROLES := {"user", "assistant", "toolResult"}

  datatype Terminal = Terminal(
    messageCount: nat, assistantMessageCount: nat, compactionCount: nat, lastEntryType: Option<string>,
    lastMessageRole: Option<string>, lastAssistantStopReason: Option<string>,
    terminalStop: bool, aborted: bool, errored: bool)

  /** Only known identities are reported. */
  function Bounded(text: Option<string>, known: set<string>): Option<string> {
    if text.Some? && text.value in known then text else None
  }

  function LastType(entries: seq<Json>): Option<string> {
    var last := LastWhere(entries, IsRecord);
    if last.None? then None else Bounded(TextAt(last.value, "type"), KNOWN_ENTRY_TYPES)
  }

  function LastRole(entries: seq<Json>): Option<string> {
    var last := LastWhere(entries, HasMessage);
    if last.None? || !HasMessage(last.value) then None
    else Bounded(TextAt(Message(last.value), "role"), KNOWN_MESSAGE_ROLES)
  }

  function LastStop(entries: seq<Json>): Option<string> {
    var last := LastWhere(entries, IsAssistant);
    if last.None? || !IsAssistant(last.value) then None
    else Bounded(TextAt(Message(last.value), "stopReason"), KNOWN_STOP_REASONS)
  }

  /** The last message is an answer that stopped by itself. */
  predicate StopsCleanly(entries: seq<Json>) {
    var last := LastWhere(entries, HasMessage);
    last.Some? && IsAssistant(last.value) && TextAt(Message(last.value), "stopReason") == Some("stop")
  }

  lemma {:induction false} LastHolds(entries: seq<Json>, p: Json -> bool)
    ensures LastWhere(entries, p).Some? ==> p(LastWhere(entries, p).value)
  {
    if entries != [] { LastHolds(entries[..|entries| - 1], p); }
  }

  /** When the last message is an answer it is the last answer. */
  lemma {:induction false} LastAnswer(entries: seq<Json>)
    requires LastWhere(entries, HasMessage).Some? && IsAssistant(LastWhere(entries, HasMessage).value)
    ensures LastWhere(entries, IsAssistant) == LastWhere(entries, HasMessage)
  {
    if !HasMessage(entries[|entries| - 1]) { LastAnswer(entries[..|entries| - 1]); }
  }

  /** What the one pass reports. */
  ghost predicate TerminalIs(t: Terminal, entries: seq<Json>) {
    && t.messageCount == CountWhere(entries, IsMessage)
    && t.assistantMessageCount == CountWhere(entries, IsAssistant)
    && t.compactionCount == CountWhere(entries, IsCompaction)
    && t.lastEntryType == LastType(entries)
    && t.lastMessageRole == LastRole(entries)
    && t.lastAssistantStopReason == LastStop(entries)
    && (t.terminalStop <==> StopsCleanly(entries))
    && (t.aborted <==> LastStop(entries) == Some("aborted"))
    && (t.errored <==> LastStop(entries) == Some("error"))
  }

  /** What one more entry makes of the facts. */
  lemma {:induction false} TerminalStep(before: seq<Json>, e: Json)
    ensures var more := before + [e];
      && CountWhere(more, IsMessage) == CountWhere(before, IsMessage) + (if IsMessage(e) then 1 else 0)
      && CountWhere(more, IsAssistant) == CountWhere(before, IsAssistant) + (if IsAssistant(e) then 1 else 0)
      && CountWhere(more, IsCompaction) == CountWhere(before, IsCompaction) + (if IsCompaction(e) then 1 else 0)
      && LastType(more) == (if IsRecord(e) then Bounded(TextAt(e, "type"), KNOWN_ENTRY_TYPES) else LastType(before))
      && LastRole(more) == (if HasMessage(e) then Bounded(TextAt(Message(e), "role"), KNOWN_MESSAGE_ROLES) else LastRole(before))
      && LastStop(more) ==
           (if IsAssistant(e) then Bounded(TextAt(Message(e), "stopReason"), KNOWN_STOP_REASONS) else LastStop(before))
  {
    hide LastWhere, CountWhere, Bounded, TextAt;
    OneMore(before, e);
  }

  method TerminalStateOf(entries: seq<Json>) returns (t: Terminal)
    ensures TerminalIs(t, entries)
  {
    var messageCount: nat, assistantMessageCount: nat, compactionCount: nat := 0, 0, 0;
    var lastEntryType, lastMessageRole, lastAssistantStopReason := None, None, None;
    for i := 0 to |entries|
      invariant messageCount == CountWhere(entries[..i], IsMessage)
      invariant assistantMessageCount == CountWhere(entries[..i], IsAssistant)
      invariant compactionCount == CountWhere(entries[..i], IsCompaction)
      invariant lastEntryType == LastType(entries[..i])
      invariant lastMessageRole == LastRole(entries[..i])
      invariant lastAssistantStopReason == LastStop(entries[..i])
    {
      hide LastType, LastRole, LastStop, CountWhere, Bounded;
      var e := entries[i];
      Prefix(entries, i);
      TerminalStep(entries[..i], e);
      if !e.Obj? { continue; }
      var entryType := TextAt(e, "type");
      lastEntryType := Bounded(entryType, KNOWN_ENTRY_TYPES);
      if entryType == Some("compaction") { compactionCount := compactionCount + 1; }
      if entryType != Some("message") { continue; }
      messageCount := messageCount + 1;
      if !HasMessage(e) { continue; }
      var role := TextAt(Message(e), "role");
      lastMessageRole := Bounded(role, KNOWN_MESSAGE_ROLES);
      if role == Some("assistant") {
        assistantMessageCount := assistantMessageCount + 1;
        lastAssistantStopReason := Bounded(TextAt(Message(e), "stopReason"), KNOWN_STOP_REASONS);
      }
    }
    assert entries[..|entries|] == entries;
    LastHolds(entries, HasMessage);
    StopIsTerminal(entries);
    t := Terminal(messageCount, assistantMessageCount, compactionCount, lastEntryType, lastMessageRole,
      lastAssistantStopReason, lastMessageRole == Some("assistant") && lastAssistantStopReason == Some("stop"),
      lastAssistantStopReason == Some("aborted"), lastAssistantStopReason == Some("error"));
  }

  lemma StopIsTerminal(entries: seq<Json>)
    ensures LastRole(entries) == Some("assistant") && LastStop(entries) == Some("stop") <==> StopsCleanly(entries)
  {
    LastHolds(entries, HasMessage);
    var last := LastWhere(entries, HasMessage);
    if last.Some? && IsAssistant(last.value) { LastAnswer(entries); }
  }

  // -------------------------------------------------------------------------
  // The environment
  // -------------------------------------------------------------------------

  predicate RecordsLevel(e: Json) {
    TextAt(e, "type") == Some("thinking_level_change") && TextAt(e, "thinkingLevel").Some?
    && TextAt(e, "thinkingLevel").value != ""
  }

  function OrElse(text: Option<string>, other: string): string {
    if text.Some? then text.value else other
  }

  /** Which model answered. */
  function KeyOf(e: Json): string
    requires IsAssistant(e)
  {
    var m := Message(e);
    OrElse(TextAt(m, "provider"), "unknown") + "/" + OrElse(TextAt(m, "responseModel"), OrElse(TextAt(m, "model"), "unknown"))
  }

  /** The thinking level recorded last. */
  function LevelOf(entries: seq<Json>): Option<string> {
    var last := LastWhere(entries, RecordsLevel);
    if last.None? then None else TextAt(last.value, "thinkingLevel")
  }

  /** The keys seen, each where it is first seen. */
  function FirstSeen(entries: seq<Json>): seq<string> {
    if entries == [] then []
    else
      var before, e := FirstSeen(entries[..|entries| - 1]), entries[|entries| - 1];
      if IsAssistant(e) && KeyOf(e) !in before then before + [KeyOf(e)] else before
  }

  lemma {:induction false} FirstSeenMembers(entries: seq<Json>)
    ensures forall k :: k in FirstSeen(entries) <==> exists e | e in entries :: IsAssistant(e) && KeyOf(e) == k
    ensures forall i, j | 0 <= i < j < |FirstSeen(entries)| :: FirstSeen(entries)[i] != FirstSeen(entries)[j]
  {
    if entries != [] {
      var before, e := entries[..|entries| - 1], entries[|entries| - 1];
      FirstSeenMembers(before);
      assert entries == before + [e];
      forall k ensures k in FirstSeen(entries) <==> exists x | x in entries :: IsAssistant(x) && KeyOf(x) == k {
        if IsAssistant(e) && KeyOf(e) == k { assert e in entries; }
        if x :| x in before && IsAssistant(x) && KeyOf(x) == k { assert x in entries; }
      }
    }
  }

  method ScanEnvironment(entries: seq<Json>) returns (keys: seq<string>, level: Option<string>)
    ensures keys == FirstSeen(entries) && level == LevelOf(entries)
  {
    keys, level := [], None;
    var seen: set<string> := {};
    for i := 0 to |entries|
      invariant keys == FirstSeen(entries[..i]) && level == LevelOf(entries[..i])
      invariant forall k :: k in seen <==> k in keys
    {
      hide LastWhere;
      var e := entries[i];
      Prefix(entries, i);
      OneMore(entries[..i], e);
      if IsMessage(e) {
        if !HasMessage(e) { continue; }
        if IsAssistant(e) {
          var key := KeyOf(e);
          if key !in seen {
            seen := seen + {key};
            keys := keys + [key];
          }
        }
      } else if TextAt(e, "type") == Some("thinking_level_change") {
        var given := TextAt(e, "thinkingLevel");
        if given.Some? && given.value != "" { level := given; }
      }
    }
    assert entries[..|entries|] == entries;
  }

  // -------------------------------------------------------------------------
  // Reads
  // -------------------------------------------------------------------------

  predicate IsInteger(v: Option<Json>) {
    v.Some? && v.value.Num? && v.value.number == v.value.number.Floor as real
  }

  function ItemOf(item: Json): P.Item {
    if TextAt(item, "type") != Some("toolCall") || TextAt(item, "name") != Some("read") then P.OtherItem
    else
      var args := Get(item, "arguments");
      P.ReadCall(TextAt(item, "id"),
        if args.None? || !args.value.Obj? then None
        else Some(P.Args(TextAt(args.value, "path"),
          IsInteger(Get(args.value, "offset")) || IsInteger(Get(args.value, "limit")))))
  }

  /** An entry as the pagination pass reads it. */
  function ReadOf(e: Json, tools: Tools): P.Entry {
    if !HasMessage(e) then P.OtherEntry
    else
      var m := Message(e);
      if IsAssistant(e) then
        var content := Get(m, "content");
        if content.None? || !content.value.Arr? then P.OtherEntry
        else P.Assistant(seq(|content.value.items|, i requires 0 <= i < |content.value.items| => ItemOf(content.value.items[i])))
      else if TextAt(m, "role") == Some("toolResult") && TextAt(m, "toolName") == Some("read") then
        P.ReadResult(TextAt(m, "toolCallId"), Get(m, "isError") == Some(Bool(true)), tools.resultText(m))
      else P.OtherEntry
  }

  function TraceOf(entries: seq<Json>, tools: Tools): seq<P.Entry> {
    seq(|entries|, i requires 0 <= i < |entries| => ReadOf(entries[i], tools))
  }

  // -------------------------------------------------------------------------
  // Validity and the invalid categories
  // -------------------------------------------------------------------------

  predicate Answers(entries: seq<Json>, modelKey: string) {
    forall e | e in entries && IsAssistant(e) :: KeyOf(e) == modelKey
  }

  predicate Analyzable(entries: seq<Json>, tools: Tools) {
    && SessionSound(entries, true)
    && PromptOf(entries).Some? && PromptOf(entries).value != ""
    && P.Accepted(TraceOf(entries, tools), tools.marker)
  }

  /** The frozen prompt, one pinned model, the pinned thinking level, no
      compaction, and a clean stop. */
  predicate FinallyValid(entries: seq<Json>, pins: Pins, tools: Tools) {
    && Analyzable(entries, tools)
    && tools.digest(PromptOf(entries).value) == pins.promptSha256
    && Answers(entries, pins.environment.modelKey)
    && LevelOf(entries) == Some(pins.environment.thinkingLevel)
    && tools.compactions(entries) == 0
    && StopsCleanly(entries)
  }

  /** An invalid category applies by itself. */
  predicate Applies(c: Category, entries: seq<Json>, pins: Pins, tools: Tools) {
    match c
    case PromptMismatch => PromptOf(entries).Some? && tools.digest(PromptOf(entries).value) != pins.promptSha256
    case EnvDrift =>
      || !Answers(entries, pins.environment.modelKey)
      || (LevelOf(entries).Some? && LevelOf(entries).value != pins.environment.thinkingLevel)
    case CompactionPresent => tools.compactions(entries) != 0
    case Aborted => LastStop(entries) == Some("aborted")
    case Errored => LastStop(entries) == Some("error")
    case Nonterminal => !StopsCleanly(entries)
    case Unclassified => false
  }

  const PRIORITY := [PromptMismatch, EnvDrift, CompactionPresent, Aborted, Errored, Nonterminal]

  /** `c` is the first category of the frozen priority that applies;
      `Unclassified` when none does. */
  ghost predicate Leading(c: Category, entries: seq<Json>, pins: Pins, tools: Tools) {
    if c == Unclassified then forall d | d in PRIORITY :: !Applies(d, entries, pins, tools)
    else exists i | 0 <= i < |PRIORITY| ::
        && PRIORITY[i] == c && Applies(c, entries, pins, tools)
        && forall j | 0 <= j < i :: !Applies(PRIORITY[j], entries, pins, tools)
  }

  /** What strict derivation accepts. */
  ghost predicate StrictlyInvalid(entries: seq<Json>, pins: Pins, tools: Tools) {
    SessionSound(entries, false) && !Leading(Unclassified, entries, pins, tools)
  }

  datatype RunFacts = RunFacts(
    tag: Tag, orderIndex: nat, promptSha256: string, promptMatches: bool, compactions: nat,
    modelKeys: seq<string>, thinkingLevel: Option<string>, terminal: Terminal, pagination: P.Facts)

  ghost predicate RunFactsAre(f: RunFacts, entries: seq<Json>, pins: Pins, tools: Tools) {
    && PromptOf(entries).Some? && f.promptSha256 == tools.digest(PromptOf(entries).value)
    && (f.promptMatches <==> f.promptSha256 == pins.promptSha256)
    && f.compactions == tools.compactions(entries)
    && f.modelKeys == FirstSeen(entries) && f.thinkingLevel == LevelOf(entries)
    && TerminalIs(f.terminal, entries)
    && P.FactsOf(TraceOf(entries, tools), tools.marker, f.pagination)
  }

  method ComputeRunFacts(tag: Tag, orderIndex: nat, entries: seq<Json>, pins: Pins, enforceValidity: bool, tools: Tools)
    returns (r: Checked<RunFacts>)
    ensures r.Success? <==> if enforceValidity then FinallyValid(entries, pins, tools) else Analyzable(entries, tools)
    ensures r.Success? ==>
      r.value.tag == tag && r.value.orderIndex == orderIndex && RunFactsAre(r.value, entries, pins, tools)
  {
    hide SessionSound, PromptOf, P.Accepted, P.FactsOf, LevelOf, LastWhere, CountWhere, TraceOf, FirstSeen;
    var _ :- ValidateEntries(entries, true);
    var promptText :- ExtractPromptText(entries);
    if promptText == "" { return Failure(MISSING_PROMPT_TEXT); }
    var promptSha256 := tools.digest(promptText);
    if enforceValidity && promptSha256 != pins.promptSha256 { return Failure(PROMPT_MISMATCH); }
    var modelKeys, thinkingLevel := ScanEnvironment(entries);
    KeysPinned(entries, pins.environment.modelKey);
    if enforceValidity {
      SoundHasAnswer(entries);
      if modelKeys == [] { return Failure(MODEL_MISMATCH); }
      if exists k | k in modelKeys :: k != pins.environment.modelKey { return Failure(MODEL_MISMATCH); }
      if thinkingLevel.None? { return Failure(MISSING_THINKING_LEVEL); }
      if thinkingLevel.value != pins.environment.thinkingLevel { return Failure(THINKING_MISMATCH); }
    }
    var compactions := tools.compactions(entries);
    if enforceValidity && compactions != 0 { return Failure(COMPACTION_PRESENT); }
    var terminal := TerminalStateOf(entries);
    StopIsTerminal(entries);
    if enforceValidity {
      if terminal.aborted { return Failure(ABORTED); }
      if terminal.errored { return Failure(ERRORED); }
      if !terminal.terminalStop { return Failure(NOT_TERMINAL_STOP); }
    }
    var pagination := P.ComputePagination(TraceOf(entries, tools), tools.marker);
    if pagination.Failure? { return Failure(Policy(pagination.error)); }
    return Success(RunFacts(tag, orderIndex, promptSha256, promptSha256 == pins.promptSha256, compactions,
      modelKeys, thinkingLevel, terminal, pagination.value));
  }

  lemma {:induction false} SoundHasAnswer(entries: seq<Json>)
    requires SessionSound(entries, true)
    ensures FirstSeen(entries) != []
  {
    FirstSeenMembers(entries);
    var e :| e in entries && IsAssistant(e);
    assert KeyOf(e) in FirstSeen(entries);
  }

  lemma {:induction false} KeysPinned(entries: seq<Json>, modelKey: string)
    ensures Answers(entries, modelKey) <==> forall k | k in FirstSeen(entries) :: k == modelKey
  {
    FirstSeenMembers(entries);
    if !Answers(entries, modelKey) {
      var e :| e in entries && IsAssistant(e) && KeyOf(e) != modelKey;
      assert KeyOf(e) in FirstSeen(entries);
    }
  }

  datatype AttemptFacts = AttemptFacts(
    tag: Tag, promptSha256: Option<string>, category: Category, compactions: nat,
    modelKeys: seq<string>, thinkingLevel: Option<string>, terminal: Terminal)

  ghost predicate AttemptFactsAre(f: AttemptFacts, entries: seq<Json>, pins: Pins, tools: Tools) {
    && f.promptSha256 == (if PromptOf(entries).Some? then Some(tools.digest(PromptOf(entries).value)) else None)
    && Leading(f.category, entries, pins, tools)
    && f.compactions == tools.compactions(entries)
    && f.modelKeys == FirstSeen(entries) && f.thinkingLevel == LevelOf(entries)
    && TerminalIs(f.terminal, entries)
  }

  method DeriveAttemptFacts(tag: Tag, entries: seq<Json>, pins: Pins, strict: bool, tools: Tools)
    returns (r: Checked<AttemptFacts>)
    ensures r.Success? <==> if strict then StrictlyInvalid(entries, pins, tools) else SessionSound(entries, false)
    ensures r.Success? ==> r.value.tag == tag && AttemptFactsAre(r.value, entries, pins, tools)
    ensures strict && SessionSound(entries, false) && r.Failure? ==> r.error == ATTEMPT_NOT_INVALID
  {
    hide SessionSound, PromptOf, LevelOf, LastWhere, CountWhere, FirstSeen, Leading;
    var _ :- ValidateEntries(entries, false);
    var prompt := ExtractPromptText(entries);
    var promptSha256 := if prompt.Success? then Some(tools.digest(prompt.value)) else None;
    var modelKeys, thinkingLevel := ScanEnvironment(entries);
    var terminal := TerminalStateOf(entries);
    var compactions := tools.compactions(entries);
    KeysPinned(entries, pins.environment.modelKey);
    LeadingByOrder(entries, pins, tools);
    var category;
    if promptSha256.Some? && promptSha256.value != pins.promptSha256 {
      category := PromptMismatch;
    } else if (exists k | k in modelKeys :: k != pins.environment.modelKey)
      || (thinkingLevel.Some? && thinkingLevel.value != pins.environment.thinkingLevel) {
      category := EnvDrift;
    } else if compactions != 0 {
      category := CompactionPresent;
    } else if terminal.aborted {
      category := Aborted;
    } else if terminal.errored {
      category := Errored;
    } else if !terminal.terminalStop {
      category := Nonterminal;
    } else if strict {
      return Failure(ATTEMPT_NOT_INVALID);
    } else {
      category := Unclassified;
    }
    return Success(AttemptFacts(tag, promptSha256, category, compactions, modelKeys, thinkingLevel, terminal));
  }

  /** One category leads, and which one is decided by the order. */
  lemma LeadingByOrder(entries: seq<Json>, pins: Pins, tools: Tools)
    ensures forall c :: Leading(c, entries, pins, tools) <==>
      c == (if Applies(PromptMismatch, entries, pins, tools) then PromptMismatch
            else if Applies(EnvDrift, entries, pins, tools) then EnvDrift
            else if Applies(CompactionPresent, entries, pins, tools) then CompactionPresent
            else if Applies(Aborted, entries, pins, tools) then Aborted
            else if Applies(Errored, entries, pins, tools) then Errored
            else if Applies(Nonterminal, entries, pins, tools) then Nonterminal
            else Unclassified)
  {
    hide Applies;
    forall i | 0 <= i < |PRIORITY| ensures PRIORITY[i] in PRIORITY && PRIORITY[i] != Unclassified {}
    assert PRIORITY[0] == PromptMismatch && PRIORITY[1] == EnvDrift && PRIORITY[2] == CompactionPresent;
    assert PRIORITY[3] == Aborted && PRIORITY[4] == Errored && PRIORITY[5] == Nonterminal;
  }

  // -------------------------------------------------------------------------
  // The collector's verdict
  // -------------------------------------------------------------------------

  datatype Verdict =
    | Valid(facts: RunFacts)
    | Invalid(attempt: AttemptFacts)
    | Unrepresentable

  /** `entries` is `None` when the raw bytes are no JSONL; the exit code and the
      timeout are only echoed. */
  method ClassifyFinalSession(entries: Option<seq<Json>>, tag: Tag, exitCode: Option<int>, timedOut: bool,
                              promptPin: Option<string>, environment: Environment, tools: Tools)
    returns (verdict: Verdict, diagnostic: (Option<int>, bool))
    ensures diagnostic == (exitCode, timedOut)
    ensures promptPin.None? || entries.None? ==> verdict == Unrepresentable
    ensures promptPin.Some? && entries.Some? ==>
      var pins := Pins(promptPin.value, environment);
      && (verdict.Valid? <==> FinallyValid(entries.value, pins, tools))
      && (verdict.Valid? ==> RunFactsAre(verdict.facts, entries.value, pins, tools))
      && (verdict.Invalid? <==> StrictlyInvalid(entries.value, pins, tools))
      && (verdict.Invalid? ==> AttemptFactsAre(verdict.attempt, entries.value, pins, tools))
  {
    hide FinallyValid, SessionSound, AttemptFactsAre, RunFactsAre, Leading;
    diagnostic := (exitCode, timedOut);
    if promptPin.None? || entries.None? { return Unrepresentable, diagnostic; }
    var pins := Pins(promptPin.value, environment);
    ValidNotInvalid(entries.value, pins, tools);
    LeadingByOrder(entries.value, pins, tools);
    var attempt := DeriveAttemptFacts(tag, entries.value, pins, false, tools);
    if attempt.Failure? {
      ValidIsSound(entries.value, pins, tools);
      return Unrepresentable, diagnostic;
    }
    CategoryLeads(attempt.value, entries.value, pins, tools);
    if attempt.value.category != Unclassified { return Invalid(attempt.value), diagnostic; }
    var run := ComputeRunFacts(tag, 1, entries.value, pins, true, tools);
    if run.Failure? { return Unrepresentable, diagnostic; }
    return Valid(run.value), diagnostic;
  }

  lemma CategoryLeads(f: AttemptFacts, entries: seq<Json>, pins: Pins, tools: Tools)
    requires AttemptFactsAre(f, entries, pins, tools)
    ensures Leading(f.category, entries, pins, tools)
  {}

  lemma ValidIsSound(entries: seq<Json>, pins: Pins, tools: Tools)
    ensures FinallyValid(entries, pins, tools) ==> SessionSound(entries, false)
  {}

  /** No session is both: an attempt cannot hide a valid run. */
  lemma ValidNotInvalid(entries: seq<Json>, pins: Pins, tools: Tools)
    ensures !(FinallyValid(entries, pins, tools) && StrictlyInvalid(entries, pins, tools))
  {
    StopIsTerminal(entries);
    LeadingByOrder(entries, pins, tools);
  }

  /** Exactly when a session no category applies to is valid; else it is
      unrepresentable. */
  lemma UnclassifiedIffValid(entries: seq<Json>, pins: Pins, tools: Tools)
    requires SessionSound(entries, false) && Leading(Unclassified, entries, pins, tools)
    ensures FinallyValid(entries, pins, tools) <==>
      && Any(entries, IsUser) && PromptOf(entries) != Some("") && Any(entries, IsAssistant)
      && LevelOf(entries).Some?
      && P.Accepted(TraceOf(entries, tools), tools.marker)
  {
    LeadingByOrder(entries, pins, tools);
    FirstIs(entries, IsUser);
  }
}
