/** Attribution of read results to read calls by exact id, and the pagination
    facts derived from it (commander-native-tool-benchmark-v2-policy.ts). */
module Pagination {
  import opened Outcomes
  import opened Text

  const ID_MAX_BYTES: nat := 512

  /** One content item of an assistant message; `partial` says that offset or
      limit is an integer.  What is `None` is missing or no string or object. */
  datatype Item = OtherItem | ReadCall(id: Option<string>, args: Option<Args>)

  datatype Args = Args(path: Option<string>, partial: bool)

  /** One session entry, as far as reads are concerned. */
  datatype Entry =
    | OtherEntry
    | Assistant(items: seq<Item>)
    | ReadResult(id: Option<string>, isError: bool, text: string)

  /** What the facts line in a result's text says. */
  datatype Marker = Absent | Preview | Complete | Malformed

  datatype PolicyError =
    | INVALID_CALL_ID | DUPLICATE_CALL_ID | INVALID_CALL_PATH
    | INVALID_RESULT_ID | UNKNOWN_RESULT_ID | RESULT_ALREADY_CONSUMED | FACTS_MALFORMED

  datatype Facts = Facts(
    previewResults: nat, previewBytes: nat, continuationReads: nat, continuationBytes: nat,
    obligations: nat, obligationsPaginated: nat, reachedComplete: nat, unpaginatedPreviews: int, misuse: bool,
    orphanReadCalls: nat, errorReadResults: nat)

  // -------------------------------------------------------------------------
  // What the trace says
  // -------------------------------------------------------------------------

  predicate IdOk(id: Option<string>) {
    id.Some? && id.value != "" && Utf8Bytes(id.value) <= ID_MAX_BYTES
  }

  predicate PathOk(path: Option<string>) {
    && path.Some? && path.value != "" && Utf8Bytes(path.value) <= PATH_MAX_BYTES
    && forall i | 0 <= i < |path.value| :: !IsControl(path.value[i])
  }

  predicate CallOk(item: Item) {
    item.ReadCall? ==> IdOk(item.id) && item.args.Some? && PathOk(item.args.value.path)
  }

  /** A read call as found in the trace: where, on which path, and whether it
      asks for a part. */
  datatype Call = Call(path: string, partial: bool, index: nat)

  /** The read call with this id among the first `k` items of entry `index`. */
  function FindIn(items: seq<Item>, k: nat, id: string, index: nat): Option<Call>
    requires k <= |items|
  {
    if k == 0 then None
    else if items[k - 1].ReadCall? && items[k - 1].id == Some(id) && CallOk(items[k - 1])
    then Some(Call(items[k - 1].args.value.path.value, items[k - 1].args.value.partial, index))
    else FindIn(items, k - 1, id, index)
  }

  /** The read call with this id before entry `n`. */
  function FindCall(trace: seq<Entry>, n: nat, id: string): Option<Call>
    requires n <= |trace|
  {
    if n == 0 then None
    else if trace[n - 1].Assistant? && FindIn(trace[n - 1].items, |trace[n - 1].items|, id, n - 1).Some?
    then FindIn(trace[n - 1].items, |trace[n - 1].items|, id, n - 1)
    else FindCall(trace, n - 1, id)
  }

  /** A result before entry `n` has used the id up. */
  predicate Consumed(trace: seq<Entry>, n: nat, id: string)
    requires n <= |trace|
  {
    exists j | 0 <= j < n :: trace[j].ReadResult? && trace[j].id == Some(id)
  }

  predicate EntryAccepted(trace: seq<Entry>, marker: string -> Marker, i: nat)
    requires i < |trace|
  {
    match trace[i]
    case OtherEntry => true
    case Assistant(items) =>
      forall k | 0 <= k < |items| && items[k].ReadCall? ::
        && CallOk(items[k])
        && FindCall(trace, i, items[k].id.value).None? && FindIn(items, k, items[k].id.value, i).None?
    case ReadResult(id, isError, text) =>
      && IdOk(id) && FindCall(trace, i, id.value).Some? && !Consumed(trace, i, id.value)
      && (!isError ==> marker(text) != Malformed)
  }

  /** Ids are sound and unique, every result answers an earlier call once. */
  predicate Accepted(trace: seq<Entry>, marker: string -> Marker) {
    forall i | 0 <= i < |trace| :: EntryAccepted(trace, marker, i)
  }

  /** The call that result `j` answers. */
  function CallOf(trace: seq<Entry>, j: nat): Option<Call>
    requires j < |trace|
  {
    if trace[j].ReadResult? && trace[j].id.Some? then FindCall(trace, j, trace[j].id.value) else None
  }

  function PathAt(trace: seq<Entry>, j: nat): string {
    if j < |trace| && CallOf(trace, j).Some? then CallOf(trace, j).value.path else ""
  }

  predicate Succeeds(trace: seq<Entry>, j: nat)
    requires j < |trace|
  {
    trace[j].ReadResult? && !trace[j].isError && CallOf(trace, j).Some?
  }

  predicate Fails(trace: seq<Entry>, j: nat)
    requires j < |trace|
  {
    trace[j].ReadResult? && trace[j].isError && CallOf(trace, j).Some?
  }

  predicate IsPreview(trace: seq<Entry>, marker: string -> Marker, j: nat)
    requires j < |trace|
  {
    Succeeds(trace, j) && marker(trace[j].text) == Preview
  }

  predicate IsComplete(trace: seq<Entry>, marker: string -> Marker, j: nat)
    requires j < |trace|
  {
    Succeeds(trace, j) && marker(trace[j].text) == Complete
  }

  /** A successful partial read of a path that had been previewed before the call. */
  predicate IsContinuation(trace: seq<Entry>, marker: string -> Marker, j: nat)
    requires j < |trace|
  {
    && Succeeds(trace, j) && CallOf(trace, j).value.partial
    && exists p | 0 <= p < CallOf(trace, j).value.index ::
         p < |trace| && IsPreview(trace, marker, p) && CallOf(trace, p).value.path == CallOf(trace, j).value.path
  }

  /** The obligation of preview `j` is met: a later call on the path asked for a
      part of it and was answered. */
  ghost predicate Paginated(trace: seq<Entry>, j: nat) {
    exists c | 0 <= c < |trace| ::
      Succeeds(trace, c) && CallOf(trace, c).value.partial && CallOf(trace, c).value.index > j
      && CallOf(trace, c).value.path == PathAt(trace, j)
  }

  /** A later result on the path was complete. */
  ghost predicate Reached(trace: seq<Entry>, marker: string -> Marker, j: nat) {
    exists r | j < r < |trace| :: IsComplete(trace, marker, r) && PathAt(trace, r) == PathAt(trace, j)
  }

  ghost function Previews(trace: seq<Entry>, marker: string -> Marker, n: nat): set<nat>
    requires n <= |trace|
  {
    set j: nat | j < n && IsPreview(trace, marker, j)
  }

  ghost function PaginatedOnes(trace: seq<Entry>, marker: string -> Marker): set<nat> {
    set j | j in Previews(trace, marker, |trace|) && Paginated(trace, j)
  }

  ghost function ReachedOnes(trace: seq<Entry>, marker: string -> Marker): set<nat> {
    set j | j in Previews(trace, marker, |trace|) && Reached(trace, marker, j)
  }

  ghost function Continuations(trace: seq<Entry>, marker: string -> Marker, n: nat): set<nat>
    requires n <= |trace|
  {
    set j: nat | j < n && IsContinuation(trace, marker, j)
  }

  ghost function Successes(trace: seq<Entry>, n: nat): set<nat>
    requires n <= |trace|
  {
    set j: nat | j < n && Succeeds(trace, j)
  }

  ghost function Failures(trace: seq<Entry>, n: nat): set<nat>
    requires n <= |trace|
  {
    set j: nat | j < n && Fails(trace, j)
  }

  /** The bytes of the results in `s` before entry `n`. */
  ghost function BytesOf(trace: seq<Entry>, s: set<nat>, n: nat): nat
    requires n <= |trace|
  {
    if n == 0 then 0
    else BytesOf(trace, s, n - 1) + (if n - 1 in s && trace[n - 1].ReadResult? then Utf8Bytes(trace[n - 1].text) else 0)
  }

  /** The ids of the first `k` items' read calls. */
  ghost function IdsIn(items: seq<Item>, k: nat): set<string>
    requires k <= |items|
  {
    set i | 0 <= i < k && items[i].ReadCall? && items[i].id.Some? :: items[i].id.value
  }

  ghost function Ids(trace: seq<Entry>, n: nat): set<string>
    requires n <= |trace|
  {
    if n == 0 then {}
    else Ids(trace, n - 1) + (if trace[n - 1].Assistant? then IdsIn(trace[n - 1].items, |trace[n - 1].items|) else {})
  }

  /** Calls that no result answers. */
  ghost function Orphans(trace: seq<Entry>): set<string> {
    set id | id in Ids(trace, |trace|) && !Consumed(trace, |trace|, id)
  }

  /** The facts, said of the trace as a whole. */
  ghost predicate FactsOf(trace: seq<Entry>, marker: string -> Marker, f: Facts) {
    var n := |trace|;
    var previews := Previews(trace, marker, n);
    && f.previewResults == f.obligations == |previews|
    && f.previewBytes == BytesOf(trace, previews, n)
    && f.continuationReads == |Continuations(trace, marker, n)|
    && f.continuationBytes == BytesOf(trace, Continuations(trace, marker, n), n)
    && f.obligationsPaginated == |PaginatedOnes(trace, marker)|
    && f.reachedComplete == |ReachedOnes(trace, marker)|
    && f.unpaginatedPreviews == f.obligations - f.obligationsPaginated
    && (f.misuse <==> exists j | j in previews :: !Paginated(trace, j))
    && f.orphanReadCalls == |Orphans(trace)|
    && f.errorReadResults == |Failures(trace, n)|
  }

  // -------------------------------------------------------------------------
  // The one pass
  // -------------------------------------------------------------------------

  /** A registered call; `candidate` is decided when the call is seen. */
  datatype Registered = Registered(call: Call, matched: bool, candidate: bool)

  datatype Obligation = Obligation(path: string, resultIndex: nat)

  datatype Continuation = Continuation(path: string, callIndex: nat)

  /** What the loop keeps. */
  datatype State = State(
    calls: map<string, Registered>, previewPaths: set<string>, obligations: seq<Obligation>,
    continuations: seq<Continuation>, completed: seq<Obligation>, previewResults: nat, previewBytes: nat,
    continuationReads: nat, continuationBytes: nat, errorReadResults: nat)

  /** A path has been previewed before entry `n`. */
  ghost predicate Previewed(trace: seq<Entry>, marker: string -> Marker, n: nat, path: string)
    requires n <= |trace|
  {
    exists p | 0 <= p < n :: IsPreview(trace, marker, p) && CallOf(trace, p).value.path == path
  }

  function ContinuationAt(trace: seq<Entry>, j: nat): Continuation {
    if j < |trace| && CallOf(trace, j).Some?
    then Continuation(CallOf(trace, j).value.path, CallOf(trace, j).value.index)
    else Continuation("", 0)
  }

  /** Results, in the order in which they came. */
  ghost predicate ListedAs(trace: seq<Entry>, list: seq<Obligation>, indices: set<nat>) {
    && (forall a, b | 0 <= a < b < |list| :: list[a].resultIndex < list[b].resultIndex)
    && (forall a | 0 <= a < |list| ::
          list[a].resultIndex in indices && list[a].path == PathAt(trace, list[a].resultIndex))
    && (forall j | j in indices :: exists a | 0 <= a < |list| :: list[a].resultIndex == j)
  }

  ghost function Completes(trace: seq<Entry>, marker: string -> Marker, n: nat): set<nat>
    requires n <= |trace|
  {
    set j: nat | j < n && IsComplete(trace, marker, j)
  }

  /** The recorded continuations are those of `indices`. */
  ghost predicate ContinuationsAre(trace: seq<Entry>, list: seq<Continuation>, indices: set<nat>) {
    && (forall c | c in list :: exists j | j in indices :: c == ContinuationAt(trace, j))
    && (forall j | j in indices :: ContinuationAt(trace, j) in list)
  }

  ghost predicate PreviewsAre(trace: seq<Entry>, marker: string -> Marker, n: nat, st: State)
    requires n <= |trace|
  {
    && (forall path :: path in st.previewPaths <==> Previewed(trace, marker, n, path))
    && ListedAs(trace, st.obligations, Previews(trace, marker, n))
    && st.previewResults == |Previews(trace, marker, n)|
    && st.previewBytes == BytesOf(trace, Previews(trace, marker, n), n)
  }

  ghost predicate ContinuedAs(trace: seq<Entry>, marker: string -> Marker, n: nat, st: State)
    requires n <= |trace|
  {
    && ContinuationsAre(trace, st.continuations, Continuations(trace, marker, n))
    && st.continuationReads == |Continuations(trace, marker, n)|
    && st.continuationBytes == BytesOf(trace, Continuations(trace, marker, n), n)
  }

  /** What the loop knows before entry `n`, the calls apart. */
  ghost predicate ResultsAre(trace: seq<Entry>, marker: string -> Marker, n: nat, st: State)
    requires n <= |trace|
  {
    && PreviewsAre(trace, marker, n, st) && ContinuedAs(trace, marker, n, st)
    && ListedAs(trace, st.completed, Completes(trace, marker, n))
    && st.errorReadResults == |Failures(trace, n)|
  }

  /** The call is registered as it stands before entry `n`. */
  ghost predicate RegisteredAs(trace: seq<Entry>, marker: string -> Marker, n: nat, id: string, found: Option<Call>,
                               r: Registered)
    requires n <= |trace|
  {
    && found == Some(r.call) && r.call.index <= n
    && (r.matched <==> Consumed(trace, n, id))
    && (r.candidate <==> r.call.partial && Previewed(trace, marker, r.call.index, r.call.path))
  }

  /** The registered calls are those of the entries before `n`. */
  ghost predicate Registers(trace: seq<Entry>, marker: string -> Marker, n: nat, calls: map<string, Registered>)
    requires n <= |trace|
  {
    && calls.Keys == Ids(trace, n)
    && (forall id :: id in calls <==> FindCall(trace, n, id).Some?)
    && (forall id | id in calls :: RegisteredAs(trace, marker, n, id, FindCall(trace, n, id), calls[id]))
  }

  /** Also within entry `n`, after its first `k` items. */
  function FindUpTo(trace: seq<Entry>, n: nat, k: nat, id: string): Option<Call>
    requires n < |trace| && trace[n].Assistant? && k <= |trace[n].items|
  {
    var here := FindIn(trace[n].items, k, id, n);
    if here.Some? then here else FindCall(trace, n, id)
  }

  ghost predicate RegistersUpTo(trace: seq<Entry>, marker: string -> Marker, n: nat, k: nat,
                                calls: map<string, Registered>)
    requires n < |trace| && trace[n].Assistant? && k <= |trace[n].items|
  {
    && calls.Keys == Ids(trace, n) + IdsIn(trace[n].items, k)
    && (forall id :: id in calls <==> FindUpTo(trace, n, k, id).Some?)
    && (forall id | id in calls :: RegisteredAs(trace, marker, n, id, FindUpTo(trace, n, k, id), calls[id]))
  }

  /** Register the read calls of one assistant message. */
  method RegisterCalls(trace: seq<Entry>, ghost marker: string -> Marker, n: nat, previewPaths: set<string>,
                       calls: map<string, Registered>)
    returns (r: Result<map<string, Registered>, PolicyError>)
    requires n < |trace| && trace[n].Assistant? && Registers(trace, marker, n, calls)
    requires forall path :: path in previewPaths <==> Previewed(trace, marker, n, path)
    requires AcceptedUpTo(trace, marker, n)
    ensures r.Success? <==> EntryAccepted(trace, marker, n)
    ensures r.Success? ==> Registers(trace, marker, n + 1, r.value)
  {
    hide RegisteredAs, Ids, IdsIn;
    var items := trace[n].items;
    var known := calls;
    StartItems(trace, marker, n, calls);
    for k := 0 to |items|
      invariant RegistersUpTo(trace, marker, n, k, known)
      invariant forall i | 0 <= i < k && items[i].ReadCall? ::
        CallOk(items[i]) && FindCall(trace, n, items[i].id.value).None? && FindIn(items, i, items[i].id.value, n).None?
    {
      if items[k].ReadCall? {
        var id := items[k].id;
        if !IdOk(id) { return Failure(INVALID_CALL_ID); }
        if id.value in known { return Failure(DUPLICATE_CALL_ID); }
        if items[k].args.None? { return Failure(INVALID_CALL_PATH); }
        var args := items[k].args.value;
        if !PathOk(args.path) { return Failure(INVALID_CALL_PATH); }
        var call := Call(args.path.value, args.partial, n);
        NextItem(trace, marker, n, k, known, Registered(call, false, args.partial && call.path in previewPaths));
        known := known[id.value := Registered(call, false, args.partial && call.path in previewPaths)];
      } else {
        SkipItem(trace, marker, n, k, known);
      }
    }
    EndItems(trace, marker, n, known);
    r := Success(known);
  }

  lemma StartItems(trace: seq<Entry>, marker: string -> Marker, n: nat, calls: map<string, Registered>)
    requires n < |trace| && trace[n].Assistant? && Registers(trace, marker, n, calls)
    ensures RegistersUpTo(trace, marker, n, 0, calls)
  {}

  lemma SkipItem(trace: seq<Entry>, marker: string -> Marker, n: nat, k: nat, calls: map<string, Registered>)
    requires n < |trace| && trace[n].Assistant? && k < |trace[n].items| && !trace[n].items[k].ReadCall?
    requires RegistersUpTo(trace, marker, n, k, calls)
    ensures RegistersUpTo(trace, marker, n, k + 1, calls)
  {
    hide RegisteredAs;
    assert IdsIn(trace[n].items, k + 1) == IdsIn(trace[n].items, k);
    assert forall id :: FindUpTo(trace, n, k + 1, id) == FindUpTo(trace, n, k, id);
  }

  lemma NextItem(trace: seq<Entry>, marker: string -> Marker, n: nat, k: nat, calls: map<string, Registered>,
                 r: Registered)
    requires n < |trace| && trace[n].Assistant? && k < |trace[n].items|
    requires trace[n].items[k].ReadCall? && CallOk(trace[n].items[k]) && trace[n].items[k].id.value !in calls
    requires RegistersUpTo(trace, marker, n, k, calls) && AcceptedUpTo(trace, marker, n)
    requires var args := trace[n].items[k].args.value; r.call == Call(args.path.value, args.partial, n) && !r.matched
    requires r.candidate <==> r.call.partial && Previewed(trace, marker, n, r.call.path)
    ensures RegistersUpTo(trace, marker, n, k + 1, calls[trace[n].items[k].id.value := r])
  {
    var id := trace[n].items[k].id.value;
    assert IdsIn(trace[n].items, k + 1) == IdsIn(trace[n].items, k) + {id};
    assert forall x | x != id :: FindUpTo(trace, n, k + 1, x) == FindUpTo(trace, n, k, x);
    NoResultYet(trace, marker, n, id);
  }

  ghost predicate AcceptedUpTo(trace: seq<Entry>, marker: string -> Marker, n: nat)
    requires n <= |trace|
  {
    forall i | 0 <= i < n :: EntryAccepted(trace, marker, i)
  }

  lemma {:induction false} FindMono(trace: seq<Entry>, j: nat, n: nat, id: string)
    requires j <= n <= |trace| && FindCall(trace, j, id).Some?
    ensures FindCall(trace, n, id).Some?
  {
    if j < n { FindMono(trace, j, n - 1, id); }
  }

  /** An id that no call has carried has not been used up. */
  lemma {:induction false} NoResultYet(trace: seq<Entry>, marker: string -> Marker, n: nat, id: string)
    requires n <= |trace| && AcceptedUpTo(trace, marker, n) && FindCall(trace, n, id).None?
    ensures !Consumed(trace, n, id)
  {
    forall j | 0 <= j < n && trace[j].ReadResult? ensures trace[j].id != Some(id) {
      assert EntryAccepted(trace, marker, j);
      if trace[j].id == Some(id) { FindMono(trace, j, n, id); }
    }
  }

  lemma EndItems(trace: seq<Entry>, marker: string -> Marker, n: nat, calls: map<string, Registered>)
    requires n < |trace| && trace[n].Assistant? && RegistersUpTo(trace, marker, n, |trace[n].items|, calls)
    ensures Registers(trace, marker, n + 1, calls)
  {
    assert forall id :: FindCall(trace, n + 1, id) == FindUpTo(trace, n, |trace[n].items|, id);
    assert forall id :: Consumed(trace, n + 1, id) <==> Consumed(trace, n, id);
  }

  // -------------------------------------------------------------------------
  // Results
  // -------------------------------------------------------------------------

  /** An entry that is no result leaves the results. */
  lemma NoResult(trace: seq<Entry>, marker: string -> Marker, n: nat, st: State, st': State)
    requires n < |trace| && !trace[n].ReadResult? && ResultsAre(trace, marker, n, st) && st' == st.(calls := st'.calls)
    ensures ResultsAre(trace, marker, n + 1, st')
  {
    SameSets(trace, marker, n);
    BytesMore(trace, Previews(trace, marker, n), n);
    BytesMore(trace, Continuations(trace, marker, n), n);
    assert forall path :: Previewed(trace, marker, n + 1, path) <==> Previewed(trace, marker, n, path);
  }

  lemma SameSets(trace: seq<Entry>, marker: string -> Marker, n: nat)
    requires n < |trace| && !trace[n].ReadResult?
    ensures Previews(trace, marker, n + 1) == Previews(trace, marker, n)
    ensures Continuations(trace, marker, n + 1) == Continuations(trace, marker, n)
    ensures Completes(trace, marker, n + 1) == Completes(trace, marker, n)
    ensures Failures(trace, n + 1) == Failures(trace, n)
  {}

  /** Indices at or beyond the end add no bytes. */
  lemma {:induction false} BytesWithin(trace: seq<Entry>, s: set<nat>, t: set<nat>, n: nat)
    requires n <= |trace| && forall j | 0 <= j < n :: j in s <==> j in t
    ensures BytesOf(trace, s, n) == BytesOf(trace, t, n)
  {
    if n > 0 { BytesWithin(trace, s, t, n - 1); }
  }

  lemma BytesMore(trace: seq<Entry>, s: set<nat>, n: nat)
    requires n < |trace| && n !in s
    ensures BytesOf(trace, s, n + 1) == BytesOf(trace, s, n)
  {}

  /** One result more in a set of indices. */
  lemma BytesAdded(trace: seq<Entry>, s: set<nat>, n: nat)
    requires n < |trace| && trace[n].ReadResult? && n !in s
    ensures BytesOf(trace, s + {n}, n + 1) == BytesOf(trace, s, n) + Utf8Bytes(trace[n].text)
  {
    BytesWithin(trace, s, s + {n}, n);
  }

  /** One index more, or the same set. */
  ghost predicate Grows(before: set<nat>, after: set<nat>, n: nat, more: bool) {
    n !in before && after == if more then before + {n} else before
  }

  /** What an entry adds to each set of indices. */
  lemma SetsGrow(trace: seq<Entry>, marker: string -> Marker, n: nat)
    requires n < |trace|
    ensures Grows(Previews(trace, marker, n), Previews(trace, marker, n + 1), n, IsPreview(trace, marker, n))
    ensures Grows(Continuations(trace, marker, n), Continuations(trace, marker, n + 1), n, IsContinuation(trace, marker, n))
    ensures Grows(Completes(trace, marker, n), Completes(trace, marker, n + 1), n, IsComplete(trace, marker, n))
    ensures Grows(Failures(trace, n), Failures(trace, n + 1), n, Fails(trace, n))
    ensures Grows(Successes(trace, n), Successes(trace, n + 1), n, Succeeds(trace, n))
  {}

  lemma ListedMore(trace: seq<Entry>, list: seq<Obligation>, indices: set<nat>, n: nat)
    requires ListedAs(trace, list, indices) && forall j | j in indices :: j < n
    ensures ListedAs(trace, list + [Obligation(PathAt(trace, n), n)], indices + {n})
  {
    var more := list + [Obligation(PathAt(trace, n), n)];
    assert more[|list|].resultIndex == n;
    forall j | j in indices + {n} ensures exists a | 0 <= a < |more| :: more[a].resultIndex == j {
      if j != n {
        var a :| 0 <= a < |list| && list[a].resultIndex == j;
        assert more[a].resultIndex == j;
      }
    }
  }

  lemma ContinuationsMore(trace: seq<Entry>, list: seq<Continuation>, indices: set<nat>, n: nat)
    requires ContinuationsAre(trace, list, indices)
    ensures ContinuationsAre(trace, list + [ContinuationAt(trace, n)], indices + {n})
  {
    var more := list + [ContinuationAt(trace, n)];
    forall c | c in more ensures exists j | j in indices + {n} :: c == ContinuationAt(trace, j) {
      if c in list {
        var j :| j in indices && c == ContinuationAt(trace, j);
        assert j in indices + {n};
      } else {
        assert n in indices + {n};
      }
    }
  }

  /** The call a result names is used up. */
  lemma ConsumedMore(trace: seq<Entry>, marker: string -> Marker, n: nat, calls: map<string, Registered>)
    requires n < |trace| && trace[n].ReadResult? && trace[n].id.Some? && trace[n].id.value in calls
    requires Registers(trace, marker, n, calls)
    ensures Registers(trace, marker, n + 1, calls[trace[n].id.value := calls[trace[n].id.value].(matched := true)])
  {
    assert forall id :: FindCall(trace, n + 1, id) == FindCall(trace, n, id);
    assert Ids(trace, n + 1) == Ids(trace, n);
    assert forall id :: Consumed(trace, n + 1, id) <==> Consumed(trace, n, id) || id == trace[n].id.value;
  }

  /** The state after a result whose call is registered. */
  function AfterResult(st: State, n: nat, id: string, isError: bool, text: string, facts: Marker): State
    requires id in st.calls
  {
    var r := st.calls[id];
    var used := st.(calls := st.calls[id := r.(matched := true)]);
    if isError then used.(errorReadResults := used.errorReadResults + 1)
    else
      var bytes := Utf8Bytes(text);
      var more := if r.candidate then
                    used.(continuationReads := used.continuationReads + 1,
                          continuationBytes := used.continuationBytes + bytes,
                          continuations := used.continuations + [Continuation(r.call.path, r.call.index)])
                  else used;
      if facts == Preview then
        more.(previewResults := more.previewResults + 1, previewBytes := more.previewBytes + bytes,
              previewPaths := more.previewPaths + {r.call.path},
              obligations := more.obligations + [Obligation(r.call.path, n)])
      else if facts == Complete then more.(completed := more.completed + [Obligation(r.call.path, n)])
      else more
  }

  lemma PreviewsBefore(trace: seq<Entry>, marker: string -> Marker, n: nat)
    requires n <= |trace|
    ensures forall j | j in Previews(trace, marker, n) :: j < n
  {}

  lemma PathsGrow(trace: seq<Entry>, marker: string -> Marker, n: nat, paths: set<string>, path: string)
    requires n < |trace| && (path in paths <==> Previewed(trace, marker, n, path))
    ensures path in (if IsPreview(trace, marker, n) then paths + {PathAt(trace, n)} else paths) <==>
              Previewed(trace, marker, n + 1, path)
  {
    hide IsPreview, Previewed, CallOf;
    PreviewedMore(trace, marker, n);
  }

  lemma PreviewsGrow(trace: seq<Entry>, marker: string -> Marker, n: nat, st: State, st': State)
    requires n < |trace| && trace[n].ReadResult? && CallOf(trace, n).Some? && PreviewsAre(trace, marker, n, st)
    requires st'.previewPaths == if IsPreview(trace, marker, n) then st.previewPaths + {PathAt(trace, n)} else st.previewPaths
    requires if IsPreview(trace, marker, n) then
        && st'.obligations == st.obligations + [Obligation(PathAt(trace, n), n)]
        && st'.previewResults == st.previewResults + 1
        && st'.previewBytes == st.previewBytes + Utf8Bytes(trace[n].text)
      else
        && st'.obligations == st.obligations
        && st'.previewResults == st.previewResults && st'.previewBytes == st.previewBytes
    ensures PreviewsAre(trace, marker, n + 1, st')
  {
    hide ListedAs, BytesOf, IsPreview, Previewed, Previews, CallOf, PathAt, Utf8Bytes;
    SetsGrow(trace, marker, n);
    PreviewsBefore(trace, marker, n);
    forall path ensures path in st'.previewPaths <==> Previewed(trace, marker, n + 1, path) {
      PathsGrow(trace, marker, n, st.previewPaths, path);
    }
    if IsPreview(trace, marker, n) {
      ListedMore(trace, st.obligations, Previews(trace, marker, n), n);
      BytesAdded(trace, Previews(trace, marker, n), n);
    } else {
      BytesMore(trace, Previews(trace, marker, n), n);
    }
  }

  lemma ContinuationsGrow(trace: seq<Entry>, marker: string -> Marker, n: nat, st: State, st': State)
    requires n < |trace| && trace[n].ReadResult? && CallOf(trace, n).Some? && ContinuedAs(trace, marker, n, st)
    requires if IsContinuation(trace, marker, n) then
        && st'.continuations == st.continuations + [ContinuationAt(trace, n)]
        && st'.continuationReads == st.continuationReads + 1
        && st'.continuationBytes == st.continuationBytes + Utf8Bytes(trace[n].text)
      else
        && st'.continuations == st.continuations && st'.continuationReads == st.continuationReads
        && st'.continuationBytes == st.continuationBytes
    ensures ContinuedAs(trace, marker, n + 1, st')
  {
    hide ContinuationsAre, BytesOf, IsContinuation;
    SetsGrow(trace, marker, n);
    ContinuationsMore(trace, st.continuations, Continuations(trace, marker, n), n);
    BytesAdded(trace, Continuations(trace, marker, n), n);
    BytesMore(trace, Continuations(trace, marker, n), n);
  }

  lemma ResultApplied(trace: seq<Entry>, marker: string -> Marker, n: nat, st: State)
    requires n < |trace| && trace[n].ReadResult? && EntryAccepted(trace, marker, n)
    requires Registers(trace, marker, n, st.calls) && ResultsAre(trace, marker, n, st)
    ensures trace[n].id.Some? && trace[n].id.value in st.calls
    ensures ResultsAre(trace, marker, n + 1,
                       AfterResult(st, n, trace[n].id.value, trace[n].isError, trace[n].text, marker(trace[n].text)))
  {
    hide ListedAs, PreviewsAre, ContinuedAs, FindCall, EntryAccepted, Previewed, Registers, Previews, Continuations,
         Completes, Failures, BytesOf, Consumed, IsContinuation;
    RegisteredCall(trace, marker, n, st.calls);
    var r := st.calls[trace[n].id.value];
    var st' := AfterResult(st, n, trace[n].id.value, trace[n].isError, trace[n].text, marker(trace[n].text));
    if !trace[n].isError { CandidateIs(trace, marker, n, r); } else { ErrorContinues(trace, marker, n); }
    PreviewsGrow(trace, marker, n, st, st');
    ContinuationsGrow(trace, marker, n, st, st');
    CompletesGrow(trace, marker, n, st.completed);
    FailuresGrow(trace, n);
  }

  lemma ErrorContinues(trace: seq<Entry>, marker: string -> Marker, n: nat)
    requires n < |trace| && trace[n].ReadResult? && trace[n].isError
    ensures !IsContinuation(trace, marker, n)
  {}

  lemma CompletesGrow(trace: seq<Entry>, marker: string -> Marker, n: nat, list: seq<Obligation>)
    requires n < |trace| && ListedAs(trace, list, Completes(trace, marker, n))
    ensures ListedAs(trace, if IsComplete(trace, marker, n) then list + [Obligation(PathAt(trace, n), n)] else list,
                     Completes(trace, marker, n + 1))
  {
    hide ListedAs, PathAt, IsComplete;
    SetsGrow(trace, marker, n);
    ListedMore(trace, list, Completes(trace, marker, n), n);
  }

  lemma FailuresGrow(trace: seq<Entry>, n: nat)
    requires n < |trace|
    ensures |Failures(trace, n + 1)| == |Failures(trace, n)| + (if Fails(trace, n) then 1 else 0)
  {
    hide Fails;
    if Fails(trace, n) {
      assert Failures(trace, n + 1) == Failures(trace, n) + {n};
    } else {
      assert Failures(trace, n + 1) == Failures(trace, n);
    }
  }

  lemma RegisteredCall(trace: seq<Entry>, marker: string -> Marker, n: nat, calls: map<string, Registered>)
    requires n < |trace| && trace[n].ReadResult? && EntryAccepted(trace, marker, n)
      && Registers(trace, marker, n, calls)
    ensures trace[n].id.Some? && trace[n].id.value in calls
    ensures var r := calls[trace[n].id.value];
      && CallOf(trace, n) == Some(r.call) && r.call.index <= n
      && (r.candidate <==> r.call.partial && Previewed(trace, marker, r.call.index, r.call.path))
  {}

  lemma CandidateIs(trace: seq<Entry>, marker: string -> Marker, n: nat, r: Registered)
    requires n < |trace| && trace[n].ReadResult? && !trace[n].isError && CallOf(trace, n) == Some(r.call)
      && r.call.index <= n
    requires r.candidate <==> r.call.partial && Previewed(trace, marker, r.call.index, r.call.path)
    ensures IsContinuation(trace, marker, n) <==> r.candidate
  {
    hide FindCall;
  }

  lemma PreviewedMore(trace: seq<Entry>, marker: string -> Marker, n: nat)
    requires n < |trace|
    ensures forall path :: Previewed(trace, marker, n + 1, path) <==>
              Previewed(trace, marker, n, path) || (IsPreview(trace, marker, n) && path == PathAt(trace, n))
  {
    forall path
      ensures Previewed(trace, marker, n + 1, path) <==>
                Previewed(trace, marker, n, path) || (IsPreview(trace, marker, n) && path == PathAt(trace, n))
    {
      if IsPreview(trace, marker, n) && path == PathAt(trace, n) { assert CallOf(trace, n).value.path == path; }
    }
  }

  // -------------------------------------------------------------------------
  // The closing counts
  // -------------------------------------------------------------------------

  ghost function IndicesOf(list: seq<Obligation>, k: nat): set<nat>
    requires k <= |list|
  {
    set a | 0 <= a < k :: list[a].resultIndex
  }

  lemma IndicesStep(list: seq<Obligation>, k: nat)
    requires k < |list| && forall a, b | 0 <= a < b < |list| :: list[a].resultIndex < list[b].resultIndex
    ensures IndicesOf(list, k + 1) == IndicesOf(list, k) + {list[k].resultIndex}
    ensures list[k].resultIndex !in IndicesOf(list, k)
  {}

  lemma IndicesAll(trace: seq<Entry>, list: seq<Obligation>, indices: set<nat>)
    requires ListedAs(trace, list, indices)
    ensures IndicesOf(list, |list|) == indices
  {
    forall j | j in indices ensures j in IndicesOf(list, |list|) {
      var a :| 0 <= a < |list| && list[a].resultIndex == j;
    }
  }

  /** Among the recorded continuations there is one for the obligation exactly
      when it is met: the incremental path set loses nothing. */
  lemma MetIff(trace: seq<Entry>, marker: string -> Marker, list: seq<Continuation>, j: nat)
    requires j < |trace| && IsPreview(trace, marker, j)
    requires ContinuationsAre(trace, list, Continuations(trace, marker, |trace|))
    ensures (exists c | c in list :: c.path == PathAt(trace, j) && c.callIndex > j) <==> Paginated(trace, j)
  {
    if c :| c in list && c.path == PathAt(trace, j) && c.callIndex > j {
      var k :| k in Continuations(trace, marker, |trace|) && c == ContinuationAt(trace, k);
      assert Succeeds(trace, k) && CallOf(trace, k).value.partial;
    }
    if Paginated(trace, j) {
      var k :| 0 <= k < |trace| && Succeeds(trace, k) && CallOf(trace, k).value.partial && CallOf(trace, k).value.index > j
               && CallOf(trace, k).value.path == PathAt(trace, j);
      CallBefore(trace, k, trace[k].id.value);
      assert IsContinuation(trace, marker, k);
      assert ContinuationAt(trace, k) in list;
    }
  }

  lemma {:induction false} CallBefore(trace: seq<Entry>, n: nat, id: string)
    requires n <= |trace| && FindCall(trace, n, id).Some?
    ensures FindCall(trace, n, id).value.index < n && trace[FindCall(trace, n, id).value.index].Assistant?
  {
    var items := if trace[n - 1].Assistant? then trace[n - 1].items else [];
    if trace[n - 1].Assistant? && FindIn(items, |items|, id, n - 1).Some? {
      FindInIndex(items, |items|, id, n - 1);
    } else {
      CallBefore(trace, n - 1, id);
    }
  }

  lemma {:induction false} FindInIndex(items: seq<Item>, k: nat, id: string, index: nat)
    requires k <= |items| && FindIn(items, k, id, index).Some?
    ensures FindIn(items, k, id, index).value.index == index
  {
    if !(items[k - 1].ReadCall? && items[k - 1].id == Some(id) && CallOk(items[k - 1])) {
      FindInIndex(items, k - 1, id, index);
    }
  }

  lemma ReachedIff(trace: seq<Entry>, marker: string -> Marker, list: seq<Obligation>, j: nat)
    requires j < |trace| && IsPreview(trace, marker, j)
    requires ListedAs(trace, list, Completes(trace, marker, |trace|))
    ensures (exists c | c in list :: c.path == PathAt(trace, j) && c.resultIndex > j) <==> Reached(trace, marker, j)
  {
    if c :| c in list && c.path == PathAt(trace, j) && c.resultIndex > j {
      var a :| 0 <= a < |list| && list[a] == c;
      assert IsComplete(trace, marker, c.resultIndex);
    }
    if Reached(trace, marker, j) {
      var r :| j < r < |trace| && IsComplete(trace, marker, r) && PathAt(trace, r) == PathAt(trace, j);
      assert r in Completes(trace, marker, |trace|);
      var a :| 0 <= a < |list| && list[a].resultIndex == r;
      assert list[a] in list;
    }
  }

  /** For each obligation, is it paginated, and is its path later complete? */
  method CountObligations(trace: seq<Entry>, ghost marker: string -> Marker, st: State)
    returns (obligationsPaginated: nat, reachedComplete: nat)
    requires ResultsAre(trace, marker, |trace|, st)
    ensures obligationsPaginated == |PaginatedOnes(trace, marker)| && reachedComplete == |ReachedOnes(trace, marker)|
  {
    hide PaginatedOnes, ReachedOnes, ResultsAre, IndicesOf;
    ghost var met, reached := PaginatedOnes(trace, marker), ReachedOnes(trace, marker);
    obligationsPaginated, reachedComplete := 0, 0;
    NoIndices(st.obligations);
    for a := 0 to |st.obligations|
      invariant obligationsPaginated == |met * IndicesOf(st.obligations, a)|
      invariant reachedComplete == |reached * IndicesOf(st.obligations, a)|
    {
      var o := st.obligations[a];
      ObligationStep(trace, marker, st, a);
      if exists c | c in st.continuations :: c.path == o.path && c.callIndex > o.resultIndex {
        obligationsPaginated := obligationsPaginated + 1;
      }
      if exists c | c in st.completed :: c.path == o.path && c.resultIndex > o.resultIndex {
        reachedComplete := reachedComplete + 1;
      }
    }
    AllCounted(trace, marker, st);
  }

  lemma NoIndices(list: seq<Obligation>)
    ensures IndicesOf(list, 0) == {}
  {}

  lemma ObligationStep(trace: seq<Entry>, marker: string -> Marker, st: State, a: nat)
    requires ResultsAre(trace, marker, |trace|, st) && a < |st.obligations|
    ensures var o := st.obligations[a]; var met := PaginatedOnes(trace, marker);
      |met * IndicesOf(st.obligations, a + 1)| == |met * IndicesOf(st.obligations, a)|
        + (if exists c | c in st.continuations :: c.path == o.path && c.callIndex > o.resultIndex then 1 else 0)
    ensures var o := st.obligations[a]; var reached := ReachedOnes(trace, marker);
      |reached * IndicesOf(st.obligations, a + 1)| == |reached * IndicesOf(st.obligations, a)|
        + (if exists c | c in st.completed :: c.path == o.path && c.resultIndex > o.resultIndex then 1 else 0)
  {
    hide Paginated, Reached, Previewed, BytesOf, ContinuationsAre, FindCall, CallOf, PathAt, IndicesOf;
    var j := st.obligations[a].resultIndex;
    assert j in Previews(trace, marker, |trace|);
    MetIff(trace, marker, st.continuations, j);
    ReachedIff(trace, marker, st.completed, j);
    HitStep(PaginatedOnes(trace, marker), st.obligations, a);
    HitStep(ReachedOnes(trace, marker), st.obligations, a);
  }

  lemma AllCounted(trace: seq<Entry>, marker: string -> Marker, st: State)
    requires ResultsAre(trace, marker, |trace|, st)
    ensures PaginatedOnes(trace, marker) * IndicesOf(st.obligations, |st.obligations|) == PaginatedOnes(trace, marker)
    ensures ReachedOnes(trace, marker) * IndicesOf(st.obligations, |st.obligations|) == ReachedOnes(trace, marker)
  {
    IndicesAll(trace, st.obligations, Previews(trace, marker, |trace|));
  }

  lemma HitStep(hits: set<nat>, list: seq<Obligation>, k: nat)
    requires k < |list| && forall a, b | 0 <= a < b < |list| :: list[a].resultIndex < list[b].resultIndex
    ensures |hits * IndicesOf(list, k + 1)| ==
            |hits * IndicesOf(list, k)| + (if list[k].resultIndex in hits then 1 else 0)
  {
    IndicesStep(list, k);
    var i := list[k].resultIndex;
    if i in hits {
      assert hits * IndicesOf(list, k + 1) == hits * IndicesOf(list, k) + {i};
    } else {
      assert hits * IndicesOf(list, k + 1) == hits * IndicesOf(list, k);
    }
  }

  /** Calls left without a result. */
  method CountOrphans(trace: seq<Entry>, ghost marker: string -> Marker, calls: map<string, Registered>)
    returns (n: nat)
    requires Registers(trace, marker, |trace|, calls)
    ensures n == |Orphans(trace)|
  {
    hide FindCall, Consumed;
    var left := calls.Keys;
    n := 0;
    ghost var counted: set<string> := {};
    while left != {}
      invariant left <= calls.Keys && n == |counted|
      invariant counted == set id | id in calls.Keys - left && !calls[id].matched
      decreases left
    {
      var id :| id in left;
      if !calls[id].matched {
        n := n + 1;
        counted := counted + {id};
      }
      left := left - {id};
    }
    assert counted == Orphans(trace);
  }

  /** The pagination facts of a session, or the first reason to refuse it. */
  method ComputePagination(trace: seq<Entry>, marker: string -> Marker) returns (r: Result<Facts, PolicyError>)
    ensures r.Success? <==> Accepted(trace, marker)
    ensures r.Success? ==> FactsOf(trace, marker, r.value)
  {
    hide EntryAccepted, ResultsAre, Registers, FactsOf, Orphans, PaginatedOnes, ReachedOnes;
    var st := State(map[], {}, [], [], [], 0, 0, 0, 0, 0);
    StartPass(trace, marker);
    for i := 0 to |trace|
      invariant AcceptedUpTo(trace, marker, i)
      invariant Registers(trace, marker, i, st.calls) && ResultsAre(trace, marker, i, st)
    {
      match trace[i]
      case OtherEntry =>
        OtherApplied(trace, marker, i, st);
      case Assistant(items) =>
        PathsAre(trace, marker, i, st);
        var registered := RegisterCalls(trace, marker, i, st.previewPaths, st.calls);
        if registered.Failure? { return Failure(registered.error); }
        NoResult(trace, marker, i, st, st.(calls := registered.value));
        st := st.(calls := registered.value);
      case ReadResult(id, isError, text) =>
        AcceptedResult(trace, marker, i, st.calls);
        if !IdOk(id) { return Failure(INVALID_RESULT_ID); }
        if id.value !in st.calls { return Failure(UNKNOWN_RESULT_ID); }
        if st.calls[id.value].matched { return Failure(RESULT_ALREADY_CONSUMED); }
        if !isError && marker(text) == Malformed { return Failure(FACTS_MALFORMED); }
        ResultApplied(trace, marker, i, st);
        ConsumedMore(trace, marker, i, st.calls);
        st := AfterResult(st, i, id.value, isError, text, marker(text));
    }
    var paginated, reached := CountObligations(trace, marker, st);
    var orphans := CountOrphans(trace, marker, st.calls);
    Finish(trace, marker, st, paginated, reached, orphans);
    r := Success(Facts(st.previewResults, st.previewBytes, st.continuationReads, st.continuationBytes, |st.obligations|,
                       paginated, reached, |st.obligations| - paginated,
                       |st.obligations| > 0 && paginated < |st.obligations|, orphans, st.errorReadResults));
  }

  lemma StartPass(trace: seq<Entry>, marker: string -> Marker)
    ensures var st := State(map[], {}, [], [], [], 0, 0, 0, 0, 0);
      Registers(trace, marker, 0, st.calls) && ResultsAre(trace, marker, 0, st)
  {}

  lemma OtherApplied(trace: seq<Entry>, marker: string -> Marker, n: nat, st: State)
    requires n < |trace| && trace[n].OtherEntry? && Registers(trace, marker, n, st.calls)
      && ResultsAre(trace, marker, n, st)
    ensures Registers(trace, marker, n + 1, st.calls) && ResultsAre(trace, marker, n + 1, st)
      && EntryAccepted(trace, marker, n)
  {
    hide ResultsAre, Previewed, FindCall, Consumed, CallOk, FindIn, IdOk;
    NoResult(trace, marker, n, st, st);
    forall id
      ensures FindCall(trace, n + 1, id) == FindCall(trace, n, id)
      ensures Consumed(trace, n + 1, id) <==> Consumed(trace, n, id)
    {
      OtherFinds(trace, n, id);
    }
  }

  lemma {:induction false} OtherFinds(trace: seq<Entry>, n: nat, id: string)
    requires n < |trace| && trace[n].OtherEntry?
    ensures FindCall(trace, n + 1, id) == FindCall(trace, n, id)
    ensures Consumed(trace, n + 1, id) <==> Consumed(trace, n, id)
  {}

  lemma PathsAre(trace: seq<Entry>, marker: string -> Marker, n: nat, st: State)
    requires n <= |trace| && ResultsAre(trace, marker, n, st)
    ensures forall path :: path in st.previewPaths <==> Previewed(trace, marker, n, path)
  {}

  lemma AcceptedResult(trace: seq<Entry>, marker: string -> Marker, n: nat, calls: map<string, Registered>)
    requires n < |trace| && trace[n].ReadResult? && Registers(trace, marker, n, calls)
    ensures EntryAccepted(trace, marker, n) <==>
      && IdOk(trace[n].id) && trace[n].id.value in calls && !calls[trace[n].id.value].matched
      && (!trace[n].isError ==> marker(trace[n].text) != Malformed)
  {}

  /** One obligation for every preview. */
  lemma ObligationsCount(trace: seq<Entry>, marker: string -> Marker, st: State)
    requires ResultsAre(trace, marker, |trace|, st)
    ensures |st.obligations| == |Previews(trace, marker, |trace|)|
  {
    hide Previews, IsPreview, BytesOf, Continuations, Failures, Completes, ContinuedAs;
    IndicesAll(trace, st.obligations, Previews(trace, marker, |trace|));
    IndicesCount(st.obligations, |st.obligations|);
  }

  /** The counters are those of the sets. */
  lemma {:induction false} CountersAre(trace: seq<Entry>, marker: string -> Marker, st: State)
    requires ResultsAre(trace, marker, |trace|, st)
    ensures st.previewResults == |Previews(trace, marker, |trace|)|
    ensures st.previewBytes == BytesOf(trace, Previews(trace, marker, |trace|), |trace|)
    ensures st.continuationReads == |Continuations(trace, marker, |trace|)|
    ensures st.continuationBytes == BytesOf(trace, Continuations(trace, marker, |trace|), |trace|)
    ensures st.errorReadResults == |Failures(trace, |trace|)|
  {
    hide Previews, BytesOf, Continuations, Failures, Completes, ListedAs;
  }

  /** Fewer obligations are met than there are exactly when one of them is not. */
  lemma MisuseIff(trace: seq<Entry>, marker: string -> Marker)
    ensures |PaginatedOnes(trace, marker)| <= |Previews(trace, marker, |trace|)|
    ensures |PaginatedOnes(trace, marker)| < |Previews(trace, marker, |trace|)| <==>
              exists j | j in Previews(trace, marker, |trace|) :: !Paginated(trace, j)
  {
    hide Paginated, Previews;
    var previews, met := Previews(trace, marker, |trace|), PaginatedOnes(trace, marker);
    SubsetSize(met, previews);
    if j :| j in previews && !Paginated(trace, j) {
      SubsetSize(met, previews - {j});
    } else {
      assert met == previews;
    }
  }

  lemma Finish(trace: seq<Entry>, marker: string -> Marker, st: State, paginated: nat, reached: nat, orphans: nat)
    requires ResultsAre(trace, marker, |trace|, st) && orphans == |Orphans(trace)|
    requires paginated == |PaginatedOnes(trace, marker)| && reached == |ReachedOnes(trace, marker)|
    ensures FactsOf(trace, marker,
                    Facts(st.previewResults, st.previewBytes, st.continuationReads, st.continuationBytes, |st.obligations|,
                          paginated, reached, |st.obligations| - paginated,
                          |st.obligations| > 0 && paginated < |st.obligations|, orphans, st.errorReadResults))
  {
    hide ResultsAre, Previews, PaginatedOnes, ReachedOnes, Paginated, BytesOf, Continuations, Failures, Orphans;
    ObligationsCount(trace, marker, st);
    CountersAre(trace, marker, st);
    MisuseIff(trace, marker);
  }

  lemma {:induction false} IndicesCount(list: seq<Obligation>, k: nat)
    requires k <= |list| && forall a, b | 0 <= a < b < |list| :: list[a].resultIndex < list[b].resultIndex
    ensures |IndicesOf(list, k)| == k
  {
    if k > 0 {
      IndicesCount(list, k - 1);
      IndicesStep(list, k - 1);
    }
  }

  lemma {:induction false} SubsetSize<T>(a: set<T>, b: set<T>)
    requires a <= b
    ensures |a| <= |b|
  {
    assert |b| == |a| + |b - a| by { assert b == a + (b - a); }
  }
}
