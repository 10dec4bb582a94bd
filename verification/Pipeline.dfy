/** From a complete collection to the manifest: what the collector accepted is
    never refused by the preparation. */
module Pipeline {
  import opened Outcomes
  import opened Interleave
  import opened FileSystem
  import opened Fields
  import opened Records
  import opened Manifest
  import opened Preflight
  import opened Assembly
  import C = Classifier
  import K = Collector

  /** The loop's verdicts are those of the final classification; `parse` gives
      the lines of raw bytes, if they are JSONL. */
  ghost predicate ClassifiedBy(plan: K.Plan, parse: Bytes -> Option<seq<Json>>, pins: C.Pins, tools: C.Tools) {
    forall b, arm ::
      && (plan.classify(b, arm) == K.Valid <==> parse(b).Some? && C.FinallyValid(parse(b).value, pins, tools))
      && (plan.classify(b, arm) == K.Invalid <==> parse(b).Some? && C.StrictlyInvalid(parse(b).value, pins, tools))
  }

  /** What the preparation reads when every retained source is as it was
      retained. */
  function SourcesOf(st: K.State, plan: K.Plan, parse: Bytes -> Option<seq<Json>>): seq<Source> {
    seq(|st.kept|, k requires 0 <= k < |st.kept| =>
      Usable(st.kept[k].name, plan.digest(st.kept[k].raw), parse(st.kept[k].raw)))
  }

  /** Every source the collector kept classifies again as it was recorded. */
  lemma {:induction false} KeptConfirm(st: K.State, plan: K.Plan, parse: Bytes -> Option<seq<Json>>, pins: C.Pins,
                                       tools: C.Tools)
    requires K.Listed(st, plan) && |st.kept| <= MAX_PAID_ATTEMPTS && ClassifiedBy(plan, parse, pins, tools)
    ensures AllConfirm(st.record.entries, SourcesOf(st, plan, parse), Final, pins, tools)
    ensures AllCollected(st.record.entries)
  {
    hide C.FinallyValid, C.StrictlyInvalid, RawSourceName, C.Analyzable, C.SessionSound;
    var entries, sources := st.record.entries, SourcesOf(st, plan, parse);
    forall k | 0 <= k < |entries| ensures Confirms(entries[k], sources[k], Final, pins, tools) && Collected(entries[k]) {
      var verdict := plan.classify(st.kept[k].raw, entries[k].arm);
      assert st.kept[k].name == RawSourceName(k + 1, entries[k].arm);
    }
    forall i, j | 0 <= i < j < |entries| ensures sources[i].realPath != sources[j].realPath {
      assert st.kept[i].name == RawSourceName(i + 1, entries[i].arm);
      assert st.kept[j].name == RawSourceName(j + 1, entries[j].arm);
      NamesDistinct(i + 1, entries[i].arm, j + 1, entries[j].arm);
    }
  }

  /** Whatever state a finished collection with all valid runs holds, its
      sources pass the preflight, and the manifest assembled from what the
      preflight derives is accepted by the strict parser. */
  lemma {:induction false} CompleteRunPrepares(h0: History, h: History, st: K.State, plan: K.Plan, names: set<Name>,
                                               parse: Bytes -> Option<seq<Json>>, pins: C.Pins, tools: C.Tools)
    requires K.Holds(h0, h, st, plan, names) && Sessions(st.record.entries) == TOTAL_VALID_RUNS
    requires plan.protocol.runsPerArm == RUNS_PER_ARM && FrozenChecksOk(plan.protocol.rubricChecks)
    requires ClassifiedBy(plan, parse, pins, tools) && forall s :: Sha256Hex(tools.digest(s))
    ensures var record, sources := st.record, SourcesOf(st, plan, parse);
      && |sources| == |record.entries|
      && AllConfirm(record.entries, sources, record.phase, pins, tools) && CohortComplete(record, plan.protocol)
      && forall runs, attempts ::
        Tagged(record.entries, runs, attempts) && Derived(record.entries, sources, runs, attempts, pins, tools) ==>
          AcceptableManifest(Assemble(record, runs, attempts, plan.protocol), plan.protocol)
  {
    var record, sources := st.record, SourcesOf(st, plan, parse);
    RecordOf(h0, h, st, plan, names);
    KeptConfirm(st, plan, parse, pins, tools);
    assert |sources| == |record.entries|;
    hide *;
    forall runs, attempts
      | Tagged(record.entries, runs, attempts) && Derived(record.entries, sources, runs, attempts, pins, tools)
      ensures AcceptableManifest(Assemble(record, runs, attempts, plan.protocol), plan.protocol)
    {
      CollectedRecordPrepares(record, sources, runs, attempts, plan.protocol, pins, tools);
    }
  }

  lemma {:induction false} RecordOf(h0: History, h: History, st: K.State, plan: K.Plan, names: set<Name>)
    requires K.Holds(h0, h, st, plan, names) && Sessions(st.record.entries) == TOTAL_VALID_RUNS
    requires plan.protocol.runsPerArm == RUNS_PER_ARM
    ensures AcceptableRecord(st.record, plan.protocol) && st.record.phase == Final
      && CohortComplete(st.record, plan.protocol)
    ensures K.Listed(st, plan) && |st.kept| == |st.record.entries| <= MAX_PAID_ATTEMPTS
  {
    hide Chronicle, Records.PinnedHeader, K.OnDisk, K.Preserved;
  }
}
