/** The caps on printed output (commander-native-tool-benchmark-v2-analyze.ts,
    commander-native-tool-benchmark-v2-prepare.ts). */
module Caps {
  import opened Text
  import opened Outcomes

  const HUMAN_MAX_BYTES: nat := 64 * 1024
  const HUMAN_MAX_LINES: nat := 240

  // -------------------------------------------------------------------------
  // Truncation
  // -------------------------------------------------------------------------

  /** `r` is the longest prefix within the cap. */
  ghost predicate Truncated(text: string, maxBytes: nat, r: string) {
    && r <= text && Utf8Bytes(r) <= maxBytes
    && forall k | |r| < k <= |text| :: Utf8Bytes(text[..k]) > maxBytes
  }

  lemma PrefixBytes(text: string, k: nat)
    requires k < |text|
    ensures Utf8Bytes(text[..k + 1]) == Utf8Bytes(text[..k]) + CharBytes(text[k])
  {
    assert text[..k + 1] == text[..k] + [text[k]];
    Utf8Concat(text[..k], [text[k]]);
    assert [text[k]][1..] == "";
  }

  lemma {:induction false} PrefixMonotone(text: string, j: nat, k: nat)
    requires j <= k <= |text|
    ensures Utf8Bytes(text[..j]) <= Utf8Bytes(text[..k])
  {
    if j < k {
      PrefixMonotone(text, j, k - 1);
      PrefixBytes(text, k - 1);
    }
  }

  method TruncateUtf8(text: string, maxBytes: nat) returns (r: string)
    ensures Truncated(text, maxBytes, r)
  {
    var used, out := 0, "";
    for i := 0 to |text|
      invariant out == text[..i] && used == Utf8Bytes(out) <= maxBytes
    {
      var bytes := CharBytes(text[i]);
      PrefixBytes(text, i);
      if used + bytes > maxBytes {
        forall k | i < k <= |text| ensures Utf8Bytes(text[..k]) > maxBytes { PrefixMonotone(text, i + 1, k); }
        return out;
      }
      used := used + bytes;
      out := out + [text[i]];
    }
    assert text[..|text|] == text;
    return text;
  }

  // -------------------------------------------------------------------------
  // Joined lines
  // -------------------------------------------------------------------------

  function Join(lines: seq<string>): string {
    if lines == [] then ""
    else if |lines| == 1 then lines[0]
    else Join(lines[..|lines| - 1]) + "\n" + lines[|lines| - 1]
  }

  function Bytes(lines: seq<string>): nat {
    Utf8Bytes(Join(lines))
  }

  lemma {:induction false} BytesMore(lines: seq<string>, line: string)
    ensures Bytes(lines + [line]) == Bytes(lines) + (if lines == [] then 0 else 1) + Utf8Bytes(line)
  {
    var more := lines + [line];
    assert more[..|more| - 1] == lines;
    if lines != [] {
      Utf8Concat(Join(lines) + "\n", line);
      Utf8Concat(Join(lines), "\n");
      assert "\n"[1..] == "";
    }
  }

  predicate Fits(lines: seq<string>, maxLines: nat, maxBytes: nat) {
    |lines| <= maxLines && Bytes(lines) <= maxBytes
  }

  lemma {:induction false} FitsShorter(lines: seq<string>, k: nat, maxLines: nat, maxBytes: nat)
    requires Fits(lines, maxLines, maxBytes) && k <= |lines|
    ensures Fits(lines[..k], maxLines, maxBytes)
  {
    if k < |lines| {
      var before := lines[..|lines| - 1];
      assert lines == before + [lines[|lines| - 1]];
      BytesMore(before, lines[|lines| - 1]);
      FitsShorter(before, k, maxLines, maxBytes);
      assert before[..k] == lines[..k];
    } else {
      assert lines[..k] == lines;
    }
  }

  // -------------------------------------------------------------------------
  // Caps
  // -------------------------------------------------------------------------

  /** A cap as given: `None` is not finite. */
  function Safe(cap: Option<real>): nat {
    if cap.None? || cap.value.Floor < 0 then 0 else cap.value.Floor
  }

  /** The first line, which alone is too much, cut to leave room for the marker. */
  ghost predicate FirstCut(line: string, marker: string, maxLines: nat, maxBytes: nat, out: seq<string>) {
    if maxLines >= 2 && Utf8Bytes(marker) + 1 <= maxBytes then
      exists prefix :: Truncated(line, maxBytes - Utf8Bytes(marker) - 1, prefix) &&
        out == if prefix == "" then [marker] else [prefix, marker]
    else out == [marker]
  }

  /** The longest list of lines, shorter than the `n` that were kept, that the
      marker fits behind. */
  ghost predicate Dropped(lines: seq<string>, n: nat, marker: string, maxBytes: nat, out: seq<string>)
    requires n <= |lines|
  {
    exists k | 0 <= k < n ::
      && out == lines[..k] + [marker] && Bytes(out) <= maxBytes
      && forall j | k < j < n :: Bytes(lines[..j] + [marker]) > maxBytes
  }

  /** What capping yields: the lines if they fit, else a marked part of them. */
  ghost predicate Capped(lines: seq<string>, marker: string, maxLines: nat, maxBytes: nat, out: seq<string>) {
    if Fits(lines, maxLines, maxBytes) then out == lines
    else exists n | 0 <= n < |lines| ::
      && Fits(lines[..n], maxLines, maxBytes) && !Fits(lines[..n + 1], maxLines, maxBytes)
      && if n == 0 then FirstCut(lines[0], marker, maxLines, maxBytes, out) else Dropped(lines, n, marker, maxBytes, out)
  }

  /** `text` is the marker line for these caps before truncation. */
  method ApplyCaps(lines: seq<string>, maxLines: Option<real>, maxBytes: Option<real>, text: string)
    returns (out: seq<string>)
    ensures Safe(maxLines) == 0 || Safe(maxBytes) == 0 ==> out == []
    ensures Safe(maxLines) > 0 && Safe(maxBytes) > 0 ==>
      exists marker :: Truncated(text, Safe(maxBytes), marker) && Capped(lines, marker, Safe(maxLines), Safe(maxBytes), out)
    ensures Fits(out, Safe(maxLines), Safe(maxBytes))
  {
    var safeLines, safeBytes := Safe(maxLines), Safe(maxBytes);
    if safeLines == 0 || safeBytes == 0 {
      return [];
    }
    var marker := TruncateUtf8(text, safeBytes);
    out := Cap(lines, marker, safeLines, safeBytes);
  }

  method Cap(lines: seq<string>, marker: string, safeLines: nat, safeBytes: nat) returns (out: seq<string>)
    requires safeLines > 0 && safeBytes > 0 && Utf8Bytes(marker) <= safeBytes
    ensures Capped(lines, marker, safeLines, safeBytes, out) && Fits(out, safeLines, safeBytes)
  {
    hide Join, Utf8Bytes, Truncated;
    var markerBytes := Utf8Bytes(marker);
    var total := 0;
    out := [];
    NoBytes();
    for i := 0 to |lines|
      invariant out == lines[..i] && total == Bytes(out) && Fits(out, safeLines, safeBytes)
    {
      var line := lines[i];
      var lineBytes := Utf8Bytes(line);
      var sepBytes := if |out| > 0 then 1 else 0;
      BytesMore(out, line);
      assert lines[..i + 1] == out + [line];
      if |out| + 1 > safeLines || total + sepBytes + lineBytes > safeBytes {
        assert !Fits(lines[..i + 1], safeLines, safeBytes);
        if Fits(lines, safeLines, safeBytes) { FitsShorter(lines, i + 1, safeLines, safeBytes); }
        if out == [] {
          out := CutFirst(line, marker, safeLines, safeBytes);
        } else {
          out := DropTrailing(lines, i, total, marker, safeLines, safeBytes);
        }
        return;
      }
      out := out + [line];
      total := total + sepBytes + lineBytes;
    }
    assert lines[..|lines|] == lines;
  }

  lemma NoBytes()
    ensures Bytes([]) == 0
  {}

  lemma {:induction false} OneLine(line: string)
    ensures Bytes([line]) == Utf8Bytes(line)
  {
    BytesMore([], line);
    NoBytes();
    assert [] + [line] == [line];
  }

  method CutFirst(line: string, marker: string, safeLines: nat, safeBytes: nat) returns (out: seq<string>)
    requires safeLines > 0 && Utf8Bytes(marker) <= safeBytes
    ensures FirstCut(line, marker, safeLines, safeBytes, out) && Fits(out, safeLines, safeBytes)
  {
    hide Join, Utf8Bytes;
    OneLine(marker);
    var markerBytes := Utf8Bytes(marker);
    if safeLines >= 2 && markerBytes + 1 <= safeBytes {
      var prefix := TruncateUtf8(line, safeBytes - markerBytes - 1);
      OneLine(prefix);
      BytesMore([prefix], marker);
      assert [prefix] + [marker] == [prefix, marker];
      return if |prefix| > 0 then [prefix, marker] else [marker];
    }
    return [marker];
  }

  method DropTrailing(lines: seq<string>, n: nat, total: nat, marker: string, safeLines: nat,
                      safeBytes: nat) returns (out: seq<string>)
    requires 0 < n <= |lines| && Fits(lines[..n], safeLines, safeBytes) && total == Bytes(lines[..n])
    requires Utf8Bytes(marker) <= safeBytes
    ensures Dropped(lines, n, marker, safeBytes, out) && Fits(out, safeLines, safeBytes)
  {
    hide Join, Utf8Bytes;
    var kept, markerBytes := lines[..n], Utf8Bytes(marker);
    var keptBytes := total;
    var k := n;
    NoBytes();
    while k > 0
      invariant 0 <= k <= n && keptBytes == Bytes(lines[..k])
      invariant forall j | k <= j < n :: Bytes(lines[..j] + [marker]) > safeBytes
      invariant k > 0 || n == 0
    {
      assert lines[..k] == lines[..k - 1] + [kept[k - 1]];
      BytesMore(lines[..k - 1], kept[k - 1]);
      BytesMore(lines[..k - 1], marker);
      keptBytes := keptBytes - (Utf8Bytes(kept[k - 1]) + if k > 1 then 1 else 0);
      var candidateBytes := keptBytes + markerBytes + if k > 1 then 1 else 0;
      if candidateBytes <= safeBytes {
        assert kept[..k - 1] == lines[..k - 1];
        return kept[..k - 1] + [marker];
      }
      k := k - 1;
    }
    assert false;
    return [marker];
  }

  // -------------------------------------------------------------------------
  // What is emitted
  // -------------------------------------------------------------------------

  /** Every line followed by a newline. */
  function Emitted(lines: seq<string>): string {
    if lines == [] then "" else Emitted(lines[..|lines| - 1]) + lines[|lines| - 1] + "\n"
  }

  lemma {:induction false} EmittedIsJoined(lines: seq<string>)
    ensures Emitted(lines) == if lines == [] then "" else Join(lines) + "\n"
  {
    if |lines| > 1 {
      EmittedIsJoined(lines[..|lines| - 1]);
    } else if |lines| == 1 {
      assert lines[..0] == [];
      assert Emitted(lines) == "" + lines[0] + "\n" == lines[0] + "\n";
    }
  }

  /** The prepare summary is within the cap with its final newline. */
  method RenderSummary(lines: seq<string>, text: string) returns (out: seq<string>)
    ensures |out| <= HUMAN_MAX_LINES && Utf8Bytes(Emitted(out)) <= HUMAN_MAX_BYTES
    ensures Fits(lines, HUMAN_MAX_LINES, HUMAN_MAX_BYTES - 1) ==> out == lines
  {
    var lineCap, byteCap := Some(HUMAN_MAX_LINES as real), Some((HUMAN_MAX_BYTES - 1) as real);
    assert Safe(lineCap) == HUMAN_MAX_LINES && Safe(byteCap) == HUMAN_MAX_BYTES - 1;
    out := ApplyCaps(lines, lineCap, byteCap, text);
    EmittedIsJoined(out);
    Utf8Concat(Join(out), "\n");
    assert Utf8Bytes("\n") == 1 by { assert "\n"[1..] == ""; }
  }
}
