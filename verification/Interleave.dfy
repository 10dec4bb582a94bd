/** The two arms, the fixed ABBA plan, and the names made from them
    (commander-native-tool-benchmark-v2.ts, commander-native-tool-v2-final-collect.ts). */
module Interleave {
  import opened Text

  datatype ArmName = Control | Treatment

  const FROZEN_VERSION := 2
  const FROZEN_DOC := "docs/baselines/commander-native-tool-benchmark-protocol-v2.md"
  const TOTAL_VALID_RUNS: nat := 40
  const MAX_PAID_ATTEMPTS: nat := 60
  const RUNS_PER_ARM: nat := 20

  function ArmText(arm: ArmName): string {
    match arm
    case Control => "control"
    case Treatment => "treatment"
  }

  /** Arm at a 1-based collection position. */
  function AbbaArmAt(position: nat): ArmName
    requires position >= 1
  {
    var r := (position - 1) % 4;
    if r == 0 || r == 3 then Control else Treatment
  }

  function SessionLabel(arm: ArmName, n: nat): string {
    ArmText(arm) + "-" + TwoDigits(n)
  }

  function RawSourceName(attempt: nat, arm: ArmName): string {
    "raw-" + TwoDigits(attempt) + "-" + ArmText(arm) + ".jsonl"
  }

  function AttemptSessionDirName(attempt: nat): string {
    ".attempt-" + TwoDigits(attempt) + "-session"
  }

  lemma TwoDigitsInjective(a: nat, b: nat)
    requires TwoDigits(a) == TwoDigits(b)
    ensures a == b
  {
    TwoDigitsValue(a);
    TwoDigitsValue(b);
  }

  lemma SameMiddle(p: string, d: string, t: string, e: string, u: string)
    requires |d| == |e| && p + d + t == p + e + u
    ensures d == e && t == u
  {
    var l, r := p + d + t, p + e + u;
    assert l[|p|..|p| + |d|] == d && r[|p|..|p| + |e|] == e;
    assert l[|p| + |d|..] == t && r[|p| + |e|..] == u;
  }

  /** Two attempts never share a source name, nor a session directory. */
  lemma NamesDistinct(a: nat, x: ArmName, b: nat, y: ArmName)
    requires a < 100 && b < 100
    ensures RawSourceName(a, x) == RawSourceName(b, y) <==> a == b && x == y
    ensures AttemptSessionDirName(a) == AttemptSessionDirName(b) <==> a == b
  {
    TwoDigitsLength(a);
    TwoDigitsLength(b);
    hide TwoDigits;
    SourceNamesDistinct(a, x, b, y);
    if AttemptSessionDirName(a) == AttemptSessionDirName(b) {
      SameMiddle(".attempt-", TwoDigits(a), "-session", TwoDigits(b), "-session");
      TwoDigitsInjective(a, b);
    }
  }

  lemma SourceNamesDistinct(a: nat, x: ArmName, b: nat, y: ArmName)
    requires |TwoDigits(a)| == |TwoDigits(b)|
    ensures RawSourceName(a, x) == RawSourceName(b, y) ==> a == b && x == y
  {
    hide TwoDigits;
    var d, e := TwoDigits(a), TwoDigits(b);
    var t, u := "-" + ArmText(x) + ".jsonl", "-" + ArmText(y) + ".jsonl";
    assert RawSourceName(a, x) == "raw-" + d + t && RawSourceName(b, y) == "raw-" + e + u;
    if RawSourceName(a, x) == RawSourceName(b, y) {
      SameMiddle("raw-", d, t, e, u);
      TwoDigitsInjective(a, b);
      assert t[1] == ArmText(x)[0] && u[1] == ArmText(y)[0];
    }
  }
}
