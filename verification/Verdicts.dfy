/** Order statistics of the runs and the four adoption verdicts
    (commander-native-tool-benchmark-v2.ts). */
module Verdicts {
  import opened Outcomes
  import opened Fields
  import opened Sequences

  /** A run's figures that verdicts look at. */
  datatype Run = Run(requests: nat, gross: nat, successfulTextBytes: nat)

  datatype Status = Achieved | Missed | NotMeasured

  datatype Verdict = Verdict(control: Option<real>, treatment: Option<real>, ratio: Option<real>, status: Status)

  const BYTES_MEDIAN_REDUCTION_MIN_PCT: nat := 50
  const GROSS_MEDIAN_REDUCTION_MIN_PCT: nat := 20
  const GROSS_P90_MAX_CONTROL_PCT: nat := 105

  // -------------------------------------------------------------------------
  // Sorting and order statistics
  // -------------------------------------------------------------------------

  predicate Sorted(s: seq<nat>) {
    forall i, j | 0 <= i < j < |s| :: s[i] <= s[j]
  }

  function Insert(s: seq<nat>, x: nat): seq<nat> {
    if s == [] || x <= s[0] then [x] + s else [s[0]] + Insert(s[1..], x)
  }

  lemma {:induction false} InsertAdds(s: seq<nat>, x: nat)
    ensures multiset(Insert(s, x)) == multiset(s) + multiset{x}
  {
    if s != [] && x > s[0] {
      InsertAdds(s[1..], x);
      assert s == [s[0]] + s[1..];
    }
  }

  lemma {:induction false} InsertSorted(s: seq<nat>, x: nat)
    requires Sorted(s)
    ensures Sorted(Insert(s, x))
  {
    if s != [] && x > s[0] {
      var rest := Insert(s[1..], x);
      InsertSorted(s[1..], x);
      InsertAdds(s[1..], x);
      forall i | 0 <= i < |rest| ensures s[0] <= rest[i] {
        assert rest[i] in multiset(s[1..]) + multiset{x};
      }
    }
  }

  lemma {:induction false} LastInserted(values: seq<nat>, r: seq<nat>)
    requires values != [] && Sorted(r) && multiset(r) == multiset(values[..|values| - 1])
    ensures var s := Insert(r, values[|values| - 1]);
      Sorted(s) && multiset(s) == multiset(values) && |s| == |values|
  {
    hide Insert, Sorted;
    var n := |values| - 1;
    InsertSorted(r, values[n]);
    InsertAdds(r, values[n]);
    assert values == values[..n] + [values[n]];
    SameSize(Insert(r, values[n]), values);
  }

  /** What `sort((a, b) => a - b)` yields. */
  function Sort(values: seq<nat>): (r: seq<nat>)
    ensures Sorted(r) && multiset(r) == multiset(values) && |r| == |values|
  {
    if values == [] then []
    else
      var n := |values| - 1;
      var r := Sort(values[..n]);
      LastInserted(values, r);
      Insert(r, values[n])
  }

  /** How many values are at or below `w`. */
  function AtMost(values: seq<nat>, w: int): (n: nat)
    ensures n <= |values|
  {
    if values == [] then 0 else AtMost(values[1..], w) + (if values[0] <= w then 1 else 0)
  }

  lemma {:induction false} AtMostConcat(a: seq<nat>, b: seq<nat>, w: int)
    ensures AtMost(a + b, w) == AtMost(a, w) + AtMost(b, w)
  {
    if a == [] {
      assert a + b == b;
    } else {
      AtMostConcat(a[1..], b, w);
      assert (a + b)[1..] == a[1..] + b;
    }
  }

  /** Rearranging does not change the count. */
  lemma {:induction false} AtMostPermuted(a: seq<nat>, b: seq<nat>, w: int)
    requires multiset(a) == multiset(b)
    ensures AtMost(a, w) == AtMost(b, w)
  {
    if a == [] {
      SameSize(a, b);
    } else {
      var pre, post := Without(a, b);
      AtMostPermuted(a[1..], pre + post, w);
      AtMostConcat(pre, post, w);
      AtMostConcat(pre, [a[0]] + post, w);
      assert ([a[0]] + post)[1..] == post;
    }
  }

  /** In a sorted list the k-th value is at most `w` exactly when more than k
      values are. */
  lemma {:induction false} SortedCount(s: seq<nat>, k: nat, w: int)
    requires Sorted(s) && k < |s|
    ensures s[k] <= w <==> AtMost(s, w) > k
  {
    if k == 0 {
      if s[0] > w { NoneBelow(s, w); }
    } else {
      SortedCount(s[1..], k - 1, w);
      if s[0] > w { NoneBelow(s, w); }
    }
  }

  lemma {:induction false} NoneBelow(s: seq<nat>, w: int)
    requires forall i | 0 <= i < |s| :: s[i] > w
    ensures AtMost(s, w) == 0
  {
    if s != [] { NoneBelow(s[1..], w); }
  }

  /** The k-th order statistic, by counting in the unsorted list. */
  lemma {:induction false} OrderStatistic(values: seq<nat>, k: nat, w: int)
    requires k < |values|
    ensures Sort(values)[k] <= w <==> AtMost(values, w) > k
  {
    SortedCount(Sort(values), k, w);
    AtMostPermuted(Sort(values), values, w);
  }

  /** Sorting forgets the order. */
  lemma {:induction false} SortPermuted(a: seq<nat>, b: seq<nat>)
    requires multiset(a) == multiset(b)
    ensures Sort(a) == Sort(b)
  {
    SameSize(a, b);
    forall k | 0 <= k < |a| ensures Sort(a)[k] == Sort(b)[k] {
      OrderStatistic(a, k, Sort(b)[k]);
      OrderStatistic(b, k, Sort(b)[k]);
      OrderStatistic(a, k, Sort(a)[k]);
      OrderStatistic(b, k, Sort(a)[k]);
      AtMostPermuted(a, b, Sort(a)[k]);
      AtMostPermuted(a, b, Sort(b)[k]);
    }
  }

  /** No value is above its counterpart. */
  predicate Below(a: seq<nat>, b: seq<nat>) {
    |a| == |b| && forall i | 0 <= i < |a| :: a[i] <= b[i]
  }

  lemma {:induction false} AtMostMonotone(a: seq<nat>, b: seq<nat>, w: int)
    requires Below(a, b)
    ensures AtMost(a, w) >= AtMost(b, w)
  {
    if a != [] { AtMostMonotone(a[1..], b[1..], w); }
  }

  /** Lowering values lowers every order statistic, or keeps it. */
  lemma {:induction false} SortMonotone(a: seq<nat>, b: seq<nat>)
    requires Below(a, b)
    ensures Below(Sort(a), Sort(b))
  {
    forall k | 0 <= k < |a| ensures Sort(a)[k] <= Sort(b)[k] {
      OrderStatistic(b, k, Sort(b)[k]);
      AtMostMonotone(a, b, Sort(b)[k]);
      OrderStatistic(a, k, Sort(b)[k]);
    }
  }

  function MedianOf(sorted: seq<nat>): Option<real> {
    if sorted == [] then None
    else
      var mid := |sorted| / 2;
      if |sorted| % 2 == 1 then Some(sorted[mid] as real) else Some((sorted[mid - 1] + sorted[mid]) as real / 2.0)
  }

  /** The sum of the two middle values. */
  function MiddleTwoSum(sorted: seq<nat>): Option<nat> {
    if sorted == [] then None
    else
      var mid := |sorted| / 2;
      if |sorted| % 2 == 1 then Some(2 * sorted[mid]) else Some(sorted[mid - 1] + sorted[mid])
  }

  lemma MedianIsHalf(sorted: seq<nat>)
    ensures MedianOf(sorted).Some? <==> MiddleTwoSum(sorted).Some?
    ensures sorted != [] ==> 2.0 * MedianOf(sorted).value == MiddleTwoSum(sorted).value as real
  {}

  lemma MiddleMonotone(a: seq<nat>, b: seq<nat>)
    requires Below(a, b) && a != []
    ensures MiddleTwoSum(a).value <= MiddleTwoSum(b).value
  {}

  /** `Math.ceil(0.9 * n)`. */
  function Rank90(n: nat): nat {
    (9 * n + 9) / 10
  }

  function NearestRankP90(sorted: seq<nat>): (r: Option<nat>)
    ensures r.Some? <==> sorted != []
  {
    if sorted == [] then None else Some(sorted[Rank90(|sorted|) - 1])
  }

  /** Of all numbers, the 90th percentile is the least with at least nine
      tenths of the runs at or below it. */
  lemma {:induction false} P90Least(values: seq<nat>, w: int)
    requires values != []
    ensures 10 * AtMost(values, w) >= 9 * |values| <==> NearestRankP90(Sort(values)).value <= w
  {
    OrderStatistic(values, Rank90(|values|) - 1, w);
  }

  /** The middle values: the least with at least half of the runs at or below
      it, and the least with more than half. */
  lemma {:induction false} MiddleHalves(values: seq<nat>, w: int)
    requires values != []
    ensures var low, high := Sort(values)[(|values| - 1) / 2], Sort(values)[|values| / 2];
      && MiddleTwoSum(Sort(values)) == Some(low + high)
      && (2 * AtMost(values, w) >= |values| <==> low <= w)
      && (2 * AtMost(values, w) > |values| <==> high <= w)
  {
    hide Sort, AtMost;
    OrderStatistic(values, (|values| - 1) / 2, w);
    OrderStatistic(values, |values| / 2, w);
  }

  // -------------------------------------------------------------------------
  // Verdicts
  // -------------------------------------------------------------------------

  function MedianReductionVerdict(basis1000: nat, control: seq<nat>, treatment: seq<nat>): Verdict {
    var controlSum, treatmentSum := MiddleTwoSum(control), MiddleTwoSum(treatment);
    var controlMedian, treatmentMedian := MedianOf(control), MedianOf(treatment);
    if controlSum.None? || treatmentSum.None? then Verdict(controlMedian, treatmentMedian, None, NotMeasured)
    else
      var c, t := controlSum.value, treatmentSum.value;
      if c == 0 then Verdict(controlMedian, treatmentMedian, None, NotMeasured)
      else Verdict(controlMedian, treatmentMedian, Some((c - t) as real / c as real),
                   if (c - t) * 1000 >= basis1000 * c then Achieved else Missed)
  }

  function P90Verdict(control: seq<nat>, treatment: seq<nat>): Verdict {
    var cP90, tP90 := NearestRankP90(control), NearestRankP90(treatment);
    if cP90.None? || tP90.None? then Verdict(ToReal(cP90), ToReal(tP90), None, NotMeasured)
    else if cP90.value == 0 then Verdict(ToReal(cP90), ToReal(tP90), None, NotMeasured)
    else Verdict(ToReal(cP90), ToReal(tP90), Some(tP90.value as real / cP90.value as real),
                 if 100 * tP90.value <= GROSS_P90_MAX_CONTROL_PCT * cP90.value then Achieved else Missed)
  }

  function ToReal(n: Option<nat>): Option<real> {
    if n.None? then None else Some(n.value as real)
  }

  function Figures(runs: seq<Run>, figure: Run -> nat): (r: seq<nat>)
    ensures |r| == |runs|
  {
    seq(|runs|, i requires 0 <= i < |runs| => figure(runs[i]))
  }

  function Bytes(runs: seq<Run>): seq<nat> { Figures(runs, (r: Run) => r.successfulTextBytes) }

  function Gross(runs: seq<Run>): seq<nat> { Figures(runs, (r: Run) => r.gross) }

  function Requests(runs: seq<Run>): seq<nat> { Figures(runs, (r: Run) => r.requests) }

  const UNMEASURED := Verdict(None, None, None, NotMeasured)

  /** The verdicts on bytes, gross tokens, requests and the gross tail. */
  function ComputeVerdicts(controlRuns: seq<Run>, treatmentRuns: seq<Run>, phase: Phase): seq<Verdict> {
    if phase != Final then [UNMEASURED, UNMEASURED, UNMEASURED, UNMEASURED]
    else
      [MedianReductionVerdict(BYTES_MEDIAN_REDUCTION_MIN_PCT * 10, Sort(Bytes(controlRuns)), Sort(Bytes(treatmentRuns))),
       MedianReductionVerdict(GROSS_MEDIAN_REDUCTION_MIN_PCT * 10, Sort(Gross(controlRuns)), Sort(Gross(treatmentRuns))),
       MedianReductionVerdict(0, Sort(Requests(controlRuns)), Sort(Requests(treatmentRuns))),
       P90Verdict(Sort(Gross(controlRuns)), Sort(Gross(treatmentRuns)))]
  }

  /** The integer test is the rational threshold on the medians. */
  lemma MedianVerdictMeaning(basis1000: nat, control: seq<nat>, treatment: seq<nat>)
    ensures var v := MedianReductionVerdict(basis1000, control, treatment);
      && (v.status == NotMeasured <==> control == [] || treatment == [] || v.control == Some(0.0))
      && (v.status != NotMeasured ==>
            && v.control.Some? && v.treatment.Some? && v.control.value > 0.0
            && v.ratio == Some((v.control.value - v.treatment.value) / v.control.value)
            && (v.status == Achieved <==> v.ratio.value >= basis1000 as real / 1000.0))
  {
    MedianIsHalf(control);
    MedianIsHalf(treatment);
    var c, t := MiddleTwoSum(control), MiddleTwoSum(treatment);
    if c.Some? && t.Some? && c.value > 0 {
      Ratio(c.value, t.value, MedianOf(control).value, MedianOf(treatment).value);
      Threshold(c.value as int - t.value as int, c.value, basis1000);
    }
  }

  lemma Ratio(c: nat, t: nat, cm: real, tm: real)
    requires c > 0 && 2.0 * cm == c as real && 2.0 * tm == t as real
    ensures cm > 0.0 && (c - t) as real / c as real == (cm - tm) / cm
  {
    assert (c - t) as real == 2.0 * (cm - tm);
    SameQuotient(cm - tm, cm);
  }

  lemma SameQuotient(a: real, b: real)
    requires b > 0.0
    ensures (2.0 * a) / (2.0 * b) == a / b
  {
    var q := a / b;
    assert q * b == a;
    assert q * (2.0 * b) == 2.0 * a;
  }

  lemma Threshold(d: int, c: nat, basis1000: nat)
    requires c > 0
    ensures d * 1000 >= basis1000 * c <==> d as real / c as real >= basis1000 as real / 1000.0
  {
    var q, b := d as real / c as real, basis1000 as real / 1000.0;
    assert q * c as real == d as real;
    assert b * 1000.0 == basis1000 as real;
    assert (basis1000 * c) as real == basis1000 as real * c as real;
    assert (basis1000 * c) as real == 1000.0 * (b * c as real);
    if q >= b { assert q * c as real >= b * c as real; } else { assert q * c as real < b * c as real; }
  }

  lemma P90VerdictMeaning(control: seq<nat>, treatment: seq<nat>)
    ensures var v := P90Verdict(control, treatment);
      && (v.status == NotMeasured <==> control == [] || treatment == [] || v.control == Some(0.0))
      && (v.status != NotMeasured ==>
            && v.control.Some? && v.treatment.Some? && v.control.value > 0.0
            && v.ratio == Some(v.treatment.value / v.control.value)
            && (v.status == Achieved <==> v.treatment.value <= 1.05 * v.control.value))
  {}

  lemma ReductionIff(c: real, t: real, b: real)
    requires c > 0.0
    ensures (c - t) / c >= b <==> t <= (1.0 - b) * c
  {
    var q := (c - t) / c;
    assert q * c == c - t;
    if q >= b { assert q * c >= b * c; } else { assert q * c < b * c; }
  }

  /** A verdict on medians, with the reduction it asks for. */
  predicate Asks(v: Verdict, c: real, t: real, bound: real) {
    v.control == Some(c) && v.treatment == Some(t) && v.status ==
      if c == 0.0 then NotMeasured else if t <= bound * c then Achieved else Missed
  }

  lemma MedianAsks(basis1000: nat, control: seq<nat>, treatment: seq<nat>)
    requires control != [] && treatment != []
    ensures Asks(MedianReductionVerdict(basis1000, control, treatment), MedianOf(control).value, MedianOf(treatment).value,
                 1.0 - basis1000 as real / 1000.0)
  {
    MedianVerdictMeaning(basis1000, control, treatment);
    var c, t := MedianOf(control).value, MedianOf(treatment).value;
    if c > 0.0 { ReductionIff(c, t, basis1000 as real / 1000.0); }
    MedianIsHalf(control);
  }

  /** The four frozen thresholds: half the bytes, four fifths of the gross
      tokens, no more requests, and a tail of at most 105 percent; development
      runs and empty arms are never measured. */
  lemma FrozenThresholds(control: seq<Run>, treatment: seq<Run>, phase: Phase)
    ensures var v := ComputeVerdicts(control, treatment, phase);
      && |v| == 4
      && (if phase != Final || control == [] || treatment == [] then forall k | 0 <= k < 4 :: v[k].status == NotMeasured
          else
            (var c, t := Sort(Gross(control)), Sort(Gross(treatment));
             && Asks(v[0], MedianOf(Sort(Bytes(control))).value, MedianOf(Sort(Bytes(treatment))).value, 0.5)
             && Asks(v[1], MedianOf(c).value, MedianOf(t).value, 0.8)
             && Asks(v[2], MedianOf(Sort(Requests(control))).value, MedianOf(Sort(Requests(treatment))).value, 1.0)
             && Asks(v[3], NearestRankP90(c).value as real, NearestRankP90(t).value as real, 1.05)))
  {
    hide Sort, MedianReductionVerdict, MedianOf, Figures;
    if phase == Final {
      P90VerdictMeaning(Sort(Gross(control)), Sort(Gross(treatment)));
      if control != [] && treatment != [] {
        MedianAsks(500, Sort(Bytes(control)), Sort(Bytes(treatment)));
        MedianAsks(200, Sort(Gross(control)), Sort(Gross(treatment)));
        MedianAsks(0, Sort(Requests(control)), Sort(Requests(treatment)));
      } else {
        MedianVerdictMeaning(500, Sort(Bytes(control)), Sort(Bytes(treatment)));
        MedianVerdictMeaning(200, Sort(Gross(control)), Sort(Gross(treatment)));
        MedianVerdictMeaning(0, Sort(Requests(control)), Sort(Requests(treatment)));
      }
    }
  }

  // -------------------------------------------------------------------------
  // What verdicts do not depend on, and how they move
  // -------------------------------------------------------------------------

  lemma {:induction false} FiguresPermuted(a: seq<Run>, b: seq<Run>, figure: Run -> nat)
    requires multiset(a) == multiset(b)
    ensures multiset(Figures(a, figure)) == multiset(Figures(b, figure))
  {
    if a == [] {
      SameSize(a, b);
    } else {
      var pre, post := Without(a, b);
      FiguresPermuted(a[1..], pre + post, figure);
      assert Figures(a, figure) == [figure(a[0])] + Figures(a[1..], figure);
      assert Figures(b, figure) == Figures(pre, figure) + ([figure(a[0])] + Figures(post, figure));
      assert Figures(pre + post, figure) == Figures(pre, figure) + Figures(post, figure);
    }
  }

  lemma SortedFigures(a: seq<Run>, b: seq<Run>)
    requires multiset(a) == multiset(b)
    ensures Sort(Bytes(a)) == Sort(Bytes(b)) && Sort(Gross(a)) == Sort(Gross(b))
      && Sort(Requests(a)) == Sort(Requests(b))
  {
    hide Sort, Figures;
    FiguresPermuted(a, b, (r: Run) => r.successfulTextBytes);
    FiguresPermuted(a, b, (r: Run) => r.gross);
    FiguresPermuted(a, b, (r: Run) => r.requests);
    SortPermuted(Bytes(a), Bytes(b));
    SortPermuted(Gross(a), Gross(b));
    SortPermuted(Requests(a), Requests(b));
  }

  /** The order of the runs is irrelevant. */
  lemma VerdictsOrderFree(control: seq<Run>, control': seq<Run>, treatment: seq<Run>, treatment': seq<Run>,
                          phase: Phase)
    requires multiset(control) == multiset(control') && multiset(treatment) == multiset(treatment')
    ensures ComputeVerdicts(control, treatment, phase) == ComputeVerdicts(control', treatment', phase)
  {
    hide MedianReductionVerdict, P90Verdict, Sort, Bytes, Gross, Requests;
    SortedFigures(control, control');
    SortedFigures(treatment, treatment');
  }

  lemma {:induction false} MedianVerdictMonotone(basis1000: nat, control: seq<nat>, control': seq<nat>,
                                                 treatment: seq<nat>, treatment': seq<nat>)
    requires basis1000 <= 1000 && Below(control, control') && Below(treatment', treatment)
    requires MedianReductionVerdict(basis1000, Sort(control), Sort(treatment)).status == Achieved
    ensures MedianReductionVerdict(basis1000, Sort(control'), Sort(treatment')).status == Achieved
  {
    hide Sort;
    SortMonotone(control, control');
    SortMonotone(treatment', treatment);
    MiddleMonotone(Sort(control), Sort(control'));
    MiddleMonotone(Sort(treatment'), Sort(treatment));
    hide MiddleTwoSum, MedianOf, Below;
    StillAchieved(basis1000, MiddleTwoSum(Sort(control)).value, MiddleTwoSum(Sort(control')).value,
                  MiddleTwoSum(Sort(treatment)).value, MiddleTwoSum(Sort(treatment')).value);
  }

  lemma StillAchieved(basis1000: nat, c: nat, c': nat, t: nat, t': nat)
    requires basis1000 <= 1000 && c <= c' && t' <= t && (c - t) * 1000 >= basis1000 * c
    ensures (c' - t') * 1000 >= basis1000 * c'
  {
    var k := 1000 - basis1000;
    assert k * c <= k * c';
    assert k * c == 1000 * c - basis1000 * c && k * c' == 1000 * c' - basis1000 * c';
  }

  lemma {:induction false} P90VerdictMonotone(control: seq<nat>, control': seq<nat>, treatment: seq<nat>,
                                              treatment': seq<nat>)
    requires Below(control, control') && Below(treatment', treatment)
    requires P90Verdict(Sort(control), Sort(treatment)).status == Achieved
    ensures P90Verdict(Sort(control'), Sort(treatment')).status == Achieved
  {
    hide Sort;
    SortMonotone(control, control');
    SortMonotone(treatment', treatment);
    RankMonotone(Sort(control), Sort(control'));
    RankMonotone(Sort(treatment'), Sort(treatment));
    hide NearestRankP90, Below;
  }

  lemma RankMonotone(a: seq<nat>, b: seq<nat>)
    requires Below(a, b) && a != []
    ensures NearestRankP90(a).value <= NearestRankP90(b).value
  {}

  predicate RunsBelow(a: seq<Run>, b: seq<Run>) {
    && |a| == |b|
    && forall i | 0 <= i < |a| ::
         a[i].requests <= b[i].requests && a[i].gross <= b[i].gross && a[i].successfulTextBytes <= b[i].successfulTextBytes
  }

  /** Lowering treatment runs and raising control runs loses no verdict. */
  lemma VerdictsMonotone(control: seq<Run>, control': seq<Run>, treatment: seq<Run>, treatment': seq<Run>,
                         phase: Phase, k: nat)
    requires RunsBelow(control, control') && RunsBelow(treatment', treatment) && k < 4
    requires ComputeVerdicts(control, treatment, phase)[k].status == Achieved
    ensures ComputeVerdicts(control', treatment', phase)[k].status == Achieved
  {
    hide MedianReductionVerdict, P90Verdict, Sort;
    if k == 0 {
      MedianVerdictMonotone(BYTES_MEDIAN_REDUCTION_MIN_PCT * 10, Bytes(control), Bytes(control'), Bytes(treatment),
                            Bytes(treatment'));
    } else if k == 1 {
      MedianVerdictMonotone(GROSS_MEDIAN_REDUCTION_MIN_PCT * 10, Gross(control), Gross(control'), Gross(treatment),
                            Gross(treatment'));
    } else if k == 2 {
      MedianVerdictMonotone(0, Requests(control), Requests(control'), Requests(treatment), Requests(treatment'));
    } else {
      P90VerdictMonotone(Gross(control), Gross(control'), Gross(treatment), Gross(treatment'));
    }
  }
}
