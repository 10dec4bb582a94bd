/** The frozen session shape: per-arm labels, increasing order, and in the
    final phase the one ABBA arrangement (commander-native-tool-benchmark-v2.ts). */
module SessionShape {
  import opened Outcomes
  import opened Text
  import opened Interleave
  import opened Fields

  datatype ManifestSession = ManifestSession(
    name: string, arm: ArmName, orderIndex: int, path: string, expectedSessionSha256: string)

  // -------------------------------------------------------------------------
  // Labels
  // -------------------------------------------------------------------------

  /** A session label: the arm, a dash, and exactly two digits. */
  function ParseLabel(name: string): Option<(ArmName, nat)> {
    var cut := if |name| >= 3 then |name| - 3 else 0;
    if |name| < 3 || name[cut] != '-' || !Digits(name[cut + 1..]) then None
    else if name[..cut] == "control" then Some((Control, Value(name[cut + 1..])))
    else if name[..cut] == "treatment" then Some((Treatment, Value(name[cut + 1..])))
    else None
  }

  /** Labels of at most 99 are read back as they were written, and no other
      string reads as such a label. */
  lemma LabelRoundTrip(name: string, arm: ArmName, n: nat)
    ensures ParseLabel(name) == Some((arm, n)) <==> n <= 99 && name == SessionLabel(arm, n)
  {
    if n <= 99 && name == SessionLabel(arm, n) { ParseWritten(arm, n); }
    if ParseLabel(name) == Some((arm, n)) { WriteParsed(name, arm, n); }
  }

  lemma ParseWritten(arm: ArmName, n: nat)
    requires n <= 99
    ensures ParseLabel(SessionLabel(arm, n)) == Some((arm, n))
  {
    hide TwoDigits, Value;
    var name := SessionLabel(arm, n);
    TwoDigitsLength(n);
    TwoDigitsValue(n);
    assert name[|name| - 2..] == TwoDigits(n) && name[..|name| - 3] == ArmText(arm);
    assert "control"[0] != "treatment"[0];
  }

  lemma WriteParsed(name: string, arm: ArmName, n: nat)
    requires ParseLabel(name) == Some((arm, n))
    ensures n <= 99 && name == SessionLabel(arm, n)
  {
    hide TwoDigits, Value;
    var d := name[|name| - 2..];
    TwoDigitStrings(d);
    assert name == name[..|name| - 3] + "-" + d;
  }

  lemma OneDigit(c: char)
    requires '0' <= c <= '9'
    ensures "0123456789"[c as int - '0' as int] == c
    ensures Digits([c]) && Value([c]) == c as int - '0' as int && Decimal(Value([c])) == [c]
  {
    assert [c][..0] == "";
    assert "0123456789"[c as int - '0' as int] == c;
  }

  lemma {:induction false} TwoDigitValue(d: string)
    requires Digits(d) && |d| == 2
    ensures '0' <= d[0] <= '9' && '0' <= d[1] <= '9'
    ensures Value(d) == 10 * (d[0] as int - '0' as int) + (d[1] as int - '0' as int)
  {
    OneDigit(d[0]);
    assert d[..1] == [d[0]];
  }

  lemma {:induction false} TwoDigitDecimal(tens: nat, ones: nat)
    requires 1 <= tens < 10 && ones < 10
    ensures Decimal(10 * tens + ones) == ["0123456789"[tens], "0123456789"[ones]]
  {
    var n := 10 * tens + ones;
    assert n / 10 == tens && n % 10 == ones;
    assert Decimal(tens) == ["0123456789"[tens]];
  }

  lemma {:induction false} TwoDigitStrings(d: string)
    requires Digits(d) && |d| == 2
    ensures Value(d) <= 99 && TwoDigits(Value(d)) == d
  {
    hide Value, Decimal, Digits;
    TwoDigitValue(d);
    OneDigit(d[0]);
    OneDigit(d[1]);
    var tens, ones := d[0] as int - '0' as int, d[1] as int - '0' as int;
    if tens > 0 {
      TwoDigitDecimal(tens, ones);
      assert TwoDigits(Value(d)) == [d[0], d[1]] == d;
    } else {
      assert TwoDigits(Value(d)) == "0" + [d[1]] == d;
    }
  }

  // -------------------------------------------------------------------------
  // The ABBA plan
  // -------------------------------------------------------------------------

  /** The position of the n-th session of an arm. */
  function AbbaPosition(arm: ArmName, n: nat): nat
    requires n >= 1
  {
    if arm.Control? <==> n % 2 == 1 then 2 * n - 1 else 2 * n
  }

  /** Positions and numbered sessions of the arms correspond one to one. */
  lemma AbbaBijection(arm: ArmName, n: nat, position: nat)
    requires n >= 1 && position >= 1
    ensures AbbaPosition(arm, n) == position <==> AbbaArmAt(position) == arm && n == (position + 1) / 2
  {
    if arm.Control? <==> n % 2 == 1 {
      assert AbbaPosition(arm, n) == 2 * n - 1;
    }
    var k := n / 2;
    assert n == 2 * k || n == 2 * k + 1;
  }

  function AbbaPositions(arm: ArmName, runsPerArm: nat): seq<nat> {
    seq(runsPerArm, n requires 0 <= n < runsPerArm => AbbaPosition(arm, n + 1))
  }

  /** How many of the first k positions belong to an arm. */
  function Held(arm: ArmName, k: nat): nat {
    k / 2 + (if k % 2 == 1 && AbbaArmAt(k) == arm then 1 else 0)
  }

  /** Each pair of positions holds both arms. */
  lemma HeldStep(arm: ArmName, k: nat)
    requires k > 0
    ensures Held(arm, k) == Held(arm, k - 1) + (if AbbaArmAt(k) == arm then 1 else 0)
    ensures AbbaArmAt(k) == arm ==> AbbaPosition(arm, Held(arm, k)) == k
  {
    var m, r := (k - 1) / 4, (k - 1) % 4 + 1;
    ArmInBlock(m, r);
    if r > 1 { ArmInBlock(m, r - 1); }
    hide AbbaArmAt;
    assert k == 4 * m + r;
    if r == 1 {
      assert k / 2 == 2 * m && (k - 1) / 2 == 2 * m;
    } else if r == 2 {
      assert k / 2 == 2 * m + 1 && (k - 1) / 2 == 2 * m;
    } else if r == 3 {
      assert k / 2 == 2 * m + 1 && (k - 1) / 2 == 2 * m + 1;
    } else {
      assert k / 2 == 2 * m + 2 && (k - 1) / 2 == 2 * m + 1;
    }
  }

  lemma ArmInBlock(m: nat, r: nat)
    requires 1 <= r <= 4
    ensures AbbaArmAt(4 * m + r) == if r == 1 || r == 4 then Control else Treatment
  {
    assert (4 * m + r - 1) % 4 == r - 1;
  }

  /** The 1-based positions of an arm, found by trying them all. */
  method AbbaPositionsOf(arm: ArmName, runsPerArm: nat) returns (out: seq<nat>)
    ensures out == AbbaPositions(arm, runsPerArm)
  {
    out := [];
    var i := 1;
    assert Held(arm, 0) == 0 && Held(arm, 2 * runsPerArm) == runsPerArm;
    while i <= 2 * runsPerArm
      invariant 1 <= i <= 2 * runsPerArm + 1
      invariant out == AbbaPositions(arm, Held(arm, i - 1))
    {
      hide AbbaArmAt, Held, AbbaPosition;
      HeldStep(arm, i);
      if AbbaArmAt(i) == arm { out := out + [i]; }
      i := i + 1;
    }
  }

  // -------------------------------------------------------------------------
  // The shape
  // -------------------------------------------------------------------------

  function ArmCount(sessions: seq<ManifestSession>, arm: ArmName): nat {
    if sessions == [] then 0
    else ArmCount(sessions[..|sessions| - 1], arm) + (if sessions[|sessions| - 1].arm == arm then 1 else 0)
  }

  function LastOrder(sessions: seq<ManifestSession>): int {
    if sessions == [] then 0 else sessions[|sessions| - 1].orderIndex
  }

  /** Session after session: its label names its arm and how many of the arm
      there are by now, and its order exceeds the one before. */
  predicate Labelled(sessions: seq<ManifestSession>) {
    sessions == [] ||
      var before, last := sessions[..|sessions| - 1], sessions[|sessions| - 1];
      && Labelled(before)
      && ParseLabel(last.name) == Some((last.arm, ArmCount(before, last.arm) + 1))
      && last.orderIndex > LastOrder(before)
  }

  /** The one final arrangement. */
  ghost predicate Canonical(sessions: seq<ManifestSession>, runsPerArm: nat) {
    && |sessions| == 2 * runsPerArm
    && forall i | 0 <= i < |sessions| ::
         && sessions[i].orderIndex == i + 1
         && sessions[i].arm == AbbaArmAt(i + 1)
         && sessions[i].name == SessionLabel(AbbaArmAt(i + 1), (i + 2) / 2)
  }

  function Orders(sessions: seq<ManifestSession>): set<int> {
    set i | 0 <= i < |sessions| :: sessions[i].orderIndex
  }

  datatype Tally = Tally(control: nat, treatment: nat, orders: set<int>)

  ghost predicate TallyOf(t: Tally, sessions: seq<ManifestSession>) {
    && t.control == ArmCount(sessions, Control) && t.treatment == ArmCount(sessions, Treatment)
    && t.orders == Orders(sessions) && |t.orders| == |sessions|
  }

  lemma {:induction false} OneMoreSession(before: seq<ManifestSession>, last: ManifestSession)
    ensures forall arm :: ArmCount(before + [last], arm) == ArmCount(before, arm) + (if last.arm == arm then 1 else 0)
    ensures LastOrder(before + [last]) == last.orderIndex
    ensures Orders(before + [last]) == Orders(before) + {last.orderIndex}
    ensures Labelled(before + [last]) <==>
              && Labelled(before) && ParseLabel(last.name) == Some((last.arm, ArmCount(before, last.arm) + 1))
              && last.orderIndex > LastOrder(before)
  {
    var more := before + [last];
    assert more[..|more| - 1] == before && more[|before|] == last;
    assert forall i | 0 <= i < |before| :: more[i] == before[i];
    forall o | o in Orders(before) + {last.orderIndex} ensures o in Orders(more) {
      assert more[|before|].orderIndex == last.orderIndex;
      if o in Orders(before) {
        var i :| 0 <= i < |before| && before[i].orderIndex == o;
        assert more[i].orderIndex == o;
      }
    }
  }

  lemma {:induction false} OrdersBelowLast(sessions: seq<ManifestSession>)
    requires Labelled(sessions)
    ensures forall o | o in Orders(sessions) :: 1 <= o <= LastOrder(sessions)
    ensures LastOrder(sessions) >= |sessions|
  {
    if sessions != [] {
      var before, last := sessions[..|sessions| - 1], sessions[|sessions| - 1];
      OrdersBelowLast(before);
      assert sessions == before + [last];
      OneMoreSession(before, last);
    }
  }

  lemma {:induction false} PrefixLabelled(sessions: seq<ManifestSession>, k: nat)
    requires Labelled(sessions) && k <= |sessions|
    ensures Labelled(sessions[..k])
  {
    if k < |sessions| {
      var before := sessions[..|sessions| - 1];
      PrefixLabelled(before, k);
      assert sessions[..k] == before[..k];
    } else {
      assert sessions[..k] == sessions;
    }
  }

  /** The first pass over the sessions. */
  method TallyLabels(sessions: seq<ManifestSession>) returns (r: Parsed<Tally>)
    ensures r.Success? <==> Labelled(sessions)
    ensures r.Success? ==> TallyOf(r.value, sessions)
  {
    hide ParseLabel, ArmCount, Labelled, Orders, LastOrder;
    var byArm: map<ArmName, nat> := map[];
    var seenOrder: set<int> := {};
    var lastOrder := 0;
    StartLabelled();
    assert sessions[..0] == [];
    for i := 0 to |sessions|
      invariant Labelled(sessions[..i]) && lastOrder == LastOrder(sessions[..i])
      invariant forall arm :: (if arm in byArm then byArm[arm] else 0) == ArmCount(sessions[..i], arm)
      invariant seenOrder == Orders(sessions[..i]) && |seenOrder| == i
    {
      var s := sessions[i];
      assert sessions[..i + 1] == sessions[..i] + [s];
      OneMoreSession(sessions[..i], s);
      if Labelled(sessions) { PrefixLabelled(sessions, i + 1); }
      OrdersBelowLast(sessions[..i]);
      var m := ParseLabel(s.name);
      if m.None? { return Failure(RecordError.LABEL_MISMATCH); }
      if m.value.0 != s.arm { return Failure(RecordError.LABEL_MISMATCH); }
      var occurrence := (if s.arm in byArm then byArm[s.arm] else 0) + 1;
      if m.value.1 != occurrence { return Failure(RecordError.LABEL_MISMATCH); }
      LabelRoundTrip(s.name, s.arm, m.value.1);
      if m.value.1 > 99 { return Failure(RecordError.LABEL_MISMATCH); }
      byArm := byArm[s.arm := occurrence];
      if s.orderIndex in seenOrder { return Failure(RecordError.ORDER_MISMATCH); }
      seenOrder := seenOrder + {s.orderIndex};
      if s.orderIndex <= lastOrder { return Failure(RecordError.ORDER_MISMATCH); }
      lastOrder := s.orderIndex;
    }
    assert sessions[..|sessions|] == sessions;
    return Success(Tally(if Control in byArm then byArm[Control] else 0,
                         if Treatment in byArm then byArm[Treatment] else 0, seenOrder));
  }

  lemma StartLabelled()
    ensures Labelled([]) && LastOrder([]) == 0 && Orders([]) == {} && forall arm :: ArmCount([], arm) == 0
  {}

  /** Without gaps up to `2 * runsPerArm`, the i-th session has order i. */
  lemma {:induction false} NoGaps(sessions: seq<ManifestSession>, k: nat)
    requires Labelled(sessions) && k < |sessions| && LastOrder(sessions) <= |sessions|
    ensures sessions[k].orderIndex == k + 1
  {
    var before, last := sessions[..|sessions| - 1], sessions[|sessions| - 1];
    OrdersBelowLast(before);
    if k < |before| { NoGaps(before, k); }
  }

  /** How many sessions of an arm the first k positions hold. */
  lemma {:induction false} CanonicalCounts(sessions: seq<ManifestSession>, arm: ArmName)
    requires forall i | 0 <= i < |sessions| :: sessions[i].arm == AbbaArmAt(i + 1)
    ensures var k := |sessions|;
      ArmCount(sessions, arm) == Held(arm, k)
  {
    var k := |sessions|;
    if k > 0 {
      CanonicalCounts(sessions[..k - 1], arm);
      assert sessions[k - 1].arm == AbbaArmAt(k);
      HeldStep(arm, k);
      hide AbbaArmAt, Held;
    }
  }

  /** The next canonical session is numbered by its position. */
  lemma {:induction false} CountBefore(before: seq<ManifestSession>)
    requires forall i | 0 <= i < |before| :: before[i].arm == AbbaArmAt(i + 1)
    ensures ArmCount(before, AbbaArmAt(|before| + 1)) + 1 == (|before| + 2) / 2
  {
    hide ArmCount;
    var k := |before|;
    CanonicalCounts(before, AbbaArmAt(k + 1));
    var m := k / 4;
    assert k == 4 * m || k == 4 * m + 1 || k == 4 * m + 2 || k == 4 * m + 3;
  }

  lemma {:induction false} CanonicalLabelled(sessions: seq<ManifestSession>, k: nat)
    requires forall i | 0 <= i < |sessions| ::
      && sessions[i].orderIndex == i + 1 && sessions[i].arm == AbbaArmAt(i + 1)
      && sessions[i].name == SessionLabel(AbbaArmAt(i + 1), (i + 2) / 2)
    requires k <= |sessions| <= 198
    ensures Labelled(sessions[..k])
  {
    hide ArmCount, Labelled, AbbaArmAt, SessionLabel, ParseLabel;
    if k > 0 {
      CanonicalLabelled(sessions, k - 1);
      var before, last := sessions[..k - 1], sessions[k - 1];
      assert sessions[..k] == before + [last];
      OneMoreSession(before, last);
      CountBefore(before);
      LabelRoundTrip(last.name, last.arm, (k + 1) / 2);
    } else {
      StartLabelled();
      assert sessions[..k] == [];
    }
  }

  /** Labels and orders leave the final phase one degree of freedom, the arms. */
  lemma {:induction false} CanonicalIff(sessions: seq<ManifestSession>, runsPerArm: nat)
    requires |sessions| == 2 * runsPerArm
    ensures Canonical(sessions, runsPerArm) && runsPerArm <= 99 <==>
              && Labelled(sessions) && LastOrder(sessions) <= |sessions|
              && forall i | 0 <= i < |sessions| :: sessions[i].arm == AbbaArmAt(i + 1)
  {
    if Canonical(sessions, runsPerArm) && runsPerArm <= 99 {
      CanonicalLabelled(sessions, |sessions|);
      assert sessions[..|sessions|] == sessions;
    }
    if Labelled(sessions) && LastOrder(sessions) <= |sessions|
       && forall i | 0 <= i < |sessions| :: sessions[i].arm == AbbaArmAt(i + 1)
    {
      forall i | 0 <= i < |sessions|
        ensures sessions[i].orderIndex == i + 1 && (i + 2) / 2 <= 99
                && sessions[i].name == SessionLabel(AbbaArmAt(i + 1), (i + 2) / 2)
      {
        NoGaps(sessions, i);
        NumberedByPosition(sessions, i);
      }
      if runsPerArm > 0 { assert (2 * runsPerArm - 1 + 2) / 2 == runsPerArm; }
    }
  }

  lemma {:induction false} NumberedByPosition(sessions: seq<ManifestSession>, i: nat)
    requires Labelled(sessions) && i < |sessions|
    requires forall j | 0 <= j <= i :: sessions[j].arm == AbbaArmAt(j + 1)
    ensures ParseLabel(sessions[i].name) == Some((AbbaArmAt(i + 1), (i + 2) / 2))
    ensures (i + 2) / 2 <= 99 && sessions[i].name == SessionLabel(AbbaArmAt(i + 1), (i + 2) / 2)
  {
    hide ArmCount, Labelled, AbbaArmAt, SessionLabel, ParseLabel;
    PrefixLabelled(sessions, i + 1);
    var before, last := sessions[..i], sessions[i];
    assert sessions[..i + 1] == before + [last];
    OneMoreSession(before, last);
    CountBefore(before);
    LabelRoundTrip(last.name, last.arm, (i + 2) / 2);
  }

  /** Which arm, and which of its sessions, each position belongs to. */
  method PositionMaps(runsPerArm: nat) returns (positionArm: map<int, ArmName>, positionNumber: map<int, nat>)
    ensures forall p :: p in positionArm <==> 1 <= p <= 2 * runsPerArm
    ensures positionNumber.Keys == positionArm.Keys
    ensures forall p | p in positionArm :: positionArm[p] == AbbaArmAt(p) && positionNumber[p] == (p + 1) / 2
  {
    var controlPositions := AbbaPositionsOf(Control, runsPerArm);
    var treatmentPositions := AbbaPositionsOf(Treatment, runsPerArm);
    positionArm, positionNumber := map[], map[];
    for n := 1 to runsPerArm + 1
      invariant forall p :: p in positionArm <==> 1 <= p <= 2 * (n - 1)
      invariant positionNumber.Keys == positionArm.Keys
      invariant forall p | p in positionArm :: positionArm[p] == AbbaArmAt(p) && positionNumber[p] == (p + 1) / 2
    {
      var cp, tp := controlPositions[n - 1], treatmentPositions[n - 1];
      AbbaBijection(Control, n, cp);
      AbbaBijection(Treatment, n, tp);
      positionArm, positionNumber := positionArm[cp := Control], positionNumber[cp := n];
      positionArm, positionNumber := positionArm[tp := Treatment], positionNumber[tp := n];
      assert {cp, tp} == {2 * n - 1, 2 * n};
    }
  }

  /** The final arrangement, checked session by session against the maps. */
  method CheckPositions(sessions: seq<ManifestSession>, runsPerArm: nat) returns (r: Parsed<()>)
    requires Labelled(sessions) && |sessions| == 2 * runsPerArm && LastOrder(sessions) <= |sessions|
    ensures r.Success? <==> Canonical(sessions, runsPerArm) && runsPerArm <= 99
  {
    hide Labelled, Canonical, AbbaArmAt, SessionLabel, ParseLabel;
    var positionArm, positionNumber := PositionMaps(runsPerArm);
    CanonicalIff(sessions, runsPerArm);
    for i := 0 to |sessions|
      invariant forall j | 0 <= j < i :: sessions[j].arm == AbbaArmAt(j + 1)
    {
      var s := sessions[i];
      NoGaps(sessions, i);
      if s.orderIndex !in positionArm { return Failure(RecordError.ORDER_MISMATCH); }
      if s.arm != positionArm[s.orderIndex] { return Failure(RecordError.ARM_MISMATCH); }
      var m := ParseLabel(s.name);
      // Once the arm is right the number is too, so this never fails.
      if s.arm == AbbaArmAt(i + 1) { NumberedByPosition(sessions, i); }
      if m.None? || m.value.1 != positionNumber[s.orderIndex] { return Failure(RecordError.ORDER_MISMATCH); }
    }
    return Success(());
  }

  function OneTo(n: nat): set<int> {
    if n == 0 then {} else OneTo(n - 1) + {n}
  }

  lemma {:induction false} OneToMembers(n: nat)
    ensures forall o :: o in OneTo(n) <==> 1 <= o <= n
  {
    if n > 0 { OneToMembers(n - 1); }
  }

  /** The orders seen are exactly 1 to n. */
  lemma {:induction false} ExpectedOrders(sessions: seq<ManifestSession>)
    requires Labelled(sessions)
    ensures Orders(sessions) == OneTo(|sessions|) <==> LastOrder(sessions) <= |sessions|
  {
    OrdersBelowLast(sessions);
    OneToMembers(|sessions|);
    if LastOrder(sessions) <= |sessions| {
      forall o | 1 <= o <= |sessions| ensures o in Orders(sessions) { NoGaps(sessions, o - 1); }
    } else {
      assert sessions[|sessions| - 1].orderIndex in Orders(sessions);
    }
  }

  lemma {:induction false} CountsTotal(sessions: seq<ManifestSession>)
    ensures ArmCount(sessions, Control) + ArmCount(sessions, Treatment) == |sessions|
  {
    if sessions != [] { CountsTotal(sessions[..|sessions| - 1]); }
  }

  /** The session shape.  In the final phase exactly one arrangement passes, and
      for more than 99 runs an arm none does, as labels have two digits. */
  method ValidateSessionShape(sessions: seq<ManifestSession>, phase: Phase, runsPerArm: nat) returns (r: Parsed<()>)
    ensures phase == Final ==> (r.Success? <==> Canonical(sessions, runsPerArm) && runsPerArm <= 99)
    ensures phase == Dev ==>
              (r.Success? <==> Labelled(sessions) && (sessions != [] ==> sessions[0].orderIndex == 1))
  {
    hide Labelled, ArmCount, Orders;
    var tally := TallyLabels(sessions);
    if |sessions| == 2 * runsPerArm { CanonicalIff(sessions, runsPerArm); }
    if tally.Failure? { return Failure(tally.error); }
    if sessions != [] && sessions[0].orderIndex != 1 { return Failure(RecordError.ORDER_MISMATCH); }
    if phase == Final {
      if |sessions| != 2 * runsPerArm || tally.value.control != runsPerArm || tally.value.treatment != runsPerArm {
        if Canonical(sessions, runsPerArm) {
          CanonicalCounts(sessions, Control);
          CanonicalCounts(sessions, Treatment);
        }
        return Failure(RecordError.COHORT_COUNT);
      }
      ExpectedOrders(sessions);
      if tally.value.orders != OneTo(2 * runsPerArm) { return Failure(RecordError.ORDER_MISMATCH); }
      var checked := CheckPositions(sessions, runsPerArm);
      return checked;
    }
    return Success(());
  }
}
