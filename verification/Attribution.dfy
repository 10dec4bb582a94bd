/** What pagination facts do not depend on: every call is accounted for once,
    orphan calls change nothing but their own count, and the order of two
    adjacent results matters only to completion on one path
    (commander-native-tool-benchmark-v2-policy.ts). */
module Attribution {
  import opened Outcomes
  import opened Pagination
  import opened Text

  // -------------------------------------------------------------------------
  // Conservation
  // -------------------------------------------------------------------------

  /** The ids that results before entry `n` have used. */
  ghost function Used(trace: seq<Entry>, n: nat): set<string>
    requires n <= |trace|
  {
    if n == 0 then {}
    else Used(trace, n - 1) + (if trace[n - 1].ReadResult? && trace[n - 1].id.Some? then {trace[n - 1].id.value} else {})
  }

  lemma {:induction false} UsedIsConsumed(trace: seq<Entry>, n: nat, id: string)
    requires n <= |trace|
    ensures id in Used(trace, n) <==> Consumed(trace, n, id)
  {
    if n > 0 { UsedIsConsumed(trace, n - 1, id); }
  }

  lemma {:induction false} FoundIn(items: seq<Item>, k: nat, id: string, index: nat)
    requires k <= |items|
    ensures FindIn(items, k, id, index).Some? ==> id in IdsIn(items, k)
    ensures (forall i | 0 <= i < k && items[i].ReadCall? :: CallOk(items[i])) && id in IdsIn(items, k) ==>
              FindIn(items, k, id, index).Some?
  {
    if k > 0 { FoundIn(items, k - 1, id, index); }
  }

  /** In an accepted trace the ids of the calls are those that can be found. */
  lemma {:induction false} FoundIds(trace: seq<Entry>, marker: string -> Marker, n: nat, id: string)
    requires n <= |trace| && AcceptedUpTo(trace, marker, n)
    ensures FindCall(trace, n, id).Some? <==> id in Ids(trace, n)
  {
    if n > 0 {
      FoundIds(trace, marker, n - 1, id);
      assert EntryAccepted(trace, marker, n - 1);
      if trace[n - 1].Assistant? { FoundIn(trace[n - 1].items, |trace[n - 1].items|, id, n - 1); }
    }
  }

  lemma {:induction false} UsedFound(trace: seq<Entry>, marker: string -> Marker, n: nat, id: string)
    requires n <= |trace| && AcceptedUpTo(trace, marker, n) && id in Used(trace, n)
    ensures FindCall(trace, n, id).Some?
  {
    assert EntryAccepted(trace, marker, n - 1);
    if id in Used(trace, n - 1) { UsedFound(trace, marker, n - 1, id); }
    FindMono(trace, n - 1, n, id);
  }

  /** A result uses an id that was not used before. */
  lemma UsedGrows(trace: seq<Entry>, marker: string -> Marker, n: nat)
    requires n < |trace| && EntryAccepted(trace, marker, n)
    ensures |Used(trace, n + 1)| == |Used(trace, n)| + (if trace[n].ReadResult? then 1 else 0)
    ensures trace[n].ReadResult? ==> Fails(trace, n) != Succeeds(trace, n)
    ensures !trace[n].ReadResult? ==> !Fails(trace, n) && !Succeeds(trace, n)
  {
    if trace[n].ReadResult? { UsedIsConsumed(trace, n, trace[n].id.value); }
  }

  lemma {:induction false} UsedCount(trace: seq<Entry>, marker: string -> Marker, n: nat)
    requires n <= |trace| && AcceptedUpTo(trace, marker, n)
    ensures |Used(trace, n)| == |Failures(trace, n)| + |Successes(trace, n)|
  {
    hide Used, Failures, Successes, FindCall;
    if n == 0 {
      NoOutcomes(trace);
    } else {
      UsedCount(trace, marker, n - 1);
      assert EntryAccepted(trace, marker, n - 1);
      OutcomesGrow(trace, marker, n - 1);
    }
  }

  lemma {:induction false} NoOutcomes(trace: seq<Entry>)
    ensures Used(trace, 0) == {} && Failures(trace, 0) == {} && Successes(trace, 0) == {}
  {}

  lemma OutcomesGrow(trace: seq<Entry>, marker: string -> Marker, n: nat)
    requires n < |trace| && EntryAccepted(trace, marker, n)
    requires |Used(trace, n)| == |Failures(trace, n)| + |Successes(trace, n)|
    ensures |Used(trace, n + 1)| == |Failures(trace, n + 1)| + |Successes(trace, n + 1)|
  {
    hide Used, Failures, Successes, Succeeds, Fails, EntryAccepted;
    UsedGrows(trace, marker, n);
    SetsGrow(trace, marker, n);
  }

  /** Every read call is an orphan, an error or a success, and only one of them. */
  lemma {:induction false} CallsConserved(trace: seq<Entry>, marker: string -> Marker)
    requires Accepted(trace, marker)
    ensures |Ids(trace, |trace|)| == |Orphans(trace)| + |Failures(trace, |trace|)| + |Successes(trace, |trace|)|
  {
    var ids, used := Ids(trace, |trace|), Used(trace, |trace|);
    UsedCount(trace, marker, |trace|);
    forall id ensures id in used <==> Consumed(trace, |trace|, id) { UsedIsConsumed(trace, |trace|, id); }
    forall id | id in used ensures id in ids {
      UsedFound(trace, marker, |trace|, id);
      FoundIds(trace, marker, |trace|, id);
    }
    assert Orphans(trace) == ids - used;
    assert ids == used + (ids - used);
  }

  // -------------------------------------------------------------------------
  // An orphan call more
  // -------------------------------------------------------------------------

  /** The trace with one read call more among the items of entry `i`. */
  function WithCall(trace: seq<Entry>, i: nat, k: nat, call: Item): seq<Entry>
    requires i < |trace| && trace[i].Assistant? && k <= |trace[i].items|
  {
    trace[i := Assistant(trace[i].items[..k] + [call] + trace[i].items[k..])]
  }

  /** What an id other than the new one finds is unchanged. */
  lemma {:induction false} FindInOther(items: seq<Item>, k: nat, call: Item, n: nat, id: string, index: nat)
    requires k <= |items| && n <= |items| + 1 && call.ReadCall? && call.id != Some(id)
    ensures var more := items[..k] + [call] + items[k..];
      FindIn(more, n, id, index) == FindIn(items, if n <= k then n else n - 1, id, index)
  {
    var more := items[..k] + [call] + items[k..];
    if n > 0 { FindInOther(items, k, call, n - 1, id, index); }
  }

  lemma {:induction false} FindOther(trace: seq<Entry>, i: nat, k: nat, call: Item, n: nat, id: string)
    requires i < |trace| && trace[i].Assistant? && k <= |trace[i].items| && n <= |trace|
    requires call.ReadCall? && call.id != Some(id)
    ensures FindCall(WithCall(trace, i, k, call), n, id) == FindCall(trace, n, id)
  {
    if n > 0 {
      FindOther(trace, i, k, call, n - 1, id);
      if n - 1 == i { FindInOther(trace[i].items, k, call, |trace[i].items| + 1, id, i); }
    }
  }

  /** Same results, same calls for them: everything but the orphans agrees. */
  lemma SameReads(trace: seq<Entry>, more: seq<Entry>, marker: string -> Marker)
    requires |more| == |trace|
    requires forall j | 0 <= j < |trace| ::
      && (more[j].ReadResult? <==> trace[j].ReadResult?) && (trace[j].ReadResult? ==> more[j] == trace[j])
      && CallOf(more, j) == CallOf(trace, j)
    ensures forall n | 0 <= n <= |trace| :: Previews(more, marker, n) == Previews(trace, marker, n)
    ensures forall n | 0 <= n <= |trace| :: Continuations(more, marker, n) == Continuations(trace, marker, n)
    ensures forall n | 0 <= n <= |trace| :: Failures(more, n) == Failures(trace, n)
    ensures PaginatedOnes(more, marker) == PaginatedOnes(trace, marker)
    ensures ReachedOnes(more, marker) == ReachedOnes(trace, marker)
    ensures forall j :: Paginated(more, j) <==> Paginated(trace, j)
  {
    hide FindCall;
    forall j | 0 <= j < |trace|
      ensures Succeeds(more, j) == Succeeds(trace, j) && Fails(more, j) == Fails(trace, j)
      ensures IsPreview(more, marker, j) == IsPreview(trace, marker, j)
      ensures IsComplete(more, marker, j) == IsComplete(trace, marker, j)
      ensures PathAt(more, j) == PathAt(trace, j)
    {}
    forall j | 0 <= j < |trace| ensures IsContinuation(more, marker, j) == IsContinuation(trace, marker, j) {}
    forall j ensures Paginated(more, j) <==> Paginated(trace, j) {}
    forall j ensures Reached(more, marker, j) <==> Reached(trace, marker, j) {}
  }

  lemma {:induction false} SameBytes(trace: seq<Entry>, more: seq<Entry>, s: set<nat>, n: nat)
    requires |more| == |trace| && n <= |trace|
    requires forall j | 0 <= j < |trace| ::
      (more[j].ReadResult? <==> trace[j].ReadResult?) && (trace[j].ReadResult? ==> more[j] == trace[j])
    ensures BytesOf(more, s, n) == BytesOf(trace, s, n)
  {
    if n > 0 { SameBytes(trace, more, s, n - 1); }
  }

  /** The ids of the calls gain just the new one. */
  lemma {:induction false} IdsMore(trace: seq<Entry>, i: nat, k: nat, call: Item, n: nat)
    requires i < |trace| && trace[i].Assistant? && k <= |trace[i].items| && n <= |trace|
    requires call.ReadCall? && call.id.Some?
    ensures Ids(WithCall(trace, i, k, call), n) == Ids(trace, n) + (if n > i then {call.id.value} else {})
  {
    if n > 0 {
      IdsMore(trace, i, k, call, n - 1);
      if n - 1 == i {
        var items := trace[i].items;
        var more := items[..k] + [call] + items[k..];
        forall id ensures id in IdsIn(more, |more|) <==> id in IdsIn(items, |items|) || id == call.id.value {
          assert more[k] == call;
          if id in IdsIn(items, |items|) {
            var a :| 0 <= a < |items| && items[a].ReadCall? && items[a].id == Some(id);
            assert more[if a < k then a else a + 1] == items[a];
          }
        }
      }
    }
  }

  /** A fresh orphan call anywhere in an accepted trace changes the number of
      orphans by one and no other fact. */
  lemma {:induction false} OrphanInserted(trace: seq<Entry>, marker: string -> Marker, i: nat, k: nat, call: Item,
                                          f: Facts)
    requires Accepted(trace, marker) && i < |trace| && trace[i].Assistant? && k <= |trace[i].items|
    requires call.ReadCall? && CallOk(call) && call.id.value !in Ids(trace, |trace|)
    requires FactsOf(trace, marker, f)
    ensures Accepted(WithCall(trace, i, k, call), marker)
    ensures FactsOf(WithCall(trace, i, k, call), marker, f.(orphanReadCalls := f.orphanReadCalls + 1))
  {
    hide FindCall, EntryAccepted, BytesOf, Ids;
    var more, id := WithCall(trace, i, k, call), call.id.value;
    InsertedAccepted(trace, marker, i, k, call);
    forall j | 0 <= j < |trace| ensures CallOf(more, j) == CallOf(trace, j) {
      if trace[j].ReadResult? && trace[j].id.Some? {
        ResultNamesCall(trace, marker, j);
        IdsGrow(trace, j, |trace|);
        FindOther(trace, i, k, call, j, trace[j].id.value);
      }
    }
    SameReads(trace, more, marker);
    SameBytes(trace, more, Previews(trace, marker, |trace|), |trace|);
    SameBytes(trace, more, Continuations(trace, marker, |trace|), |trace|);
    IdsMore(trace, i, k, call, |trace|);
    OneMoreOrphan(trace, marker, more, id);
  }

  lemma {:induction false} ResultNamesCall(trace: seq<Entry>, marker: string -> Marker, j: nat)
    requires Accepted(trace, marker) && j < |trace| && trace[j].ReadResult? && trace[j].id.Some?
    ensures trace[j].id.value in Ids(trace, j)
  {
    assert EntryAccepted(trace, marker, j);
    FoundIds(trace, marker, j, trace[j].id.value);
  }

  lemma {:induction false} IdsGrow(trace: seq<Entry>, a: nat, b: nat)
    requires a <= b <= |trace|
    ensures Ids(trace, a) <= Ids(trace, b)
  {
    if a < b { IdsGrow(trace, a, b - 1); }
  }

  lemma {:induction false} OneMoreOrphan(trace: seq<Entry>, marker: string -> Marker, more: seq<Entry>, id: string)
    requires Accepted(trace, marker) && |more| == |trace| && id !in Ids(trace, |trace|)
    requires forall j | 0 <= j < |trace| ::
      (more[j].ReadResult? <==> trace[j].ReadResult?) && (trace[j].ReadResult? ==> more[j] == trace[j])
    requires Ids(more, |trace|) == Ids(trace, |trace|) + {id}
    ensures |Orphans(more)| == |Orphans(trace)| + 1
  {
    hide Ids, EntryAccepted;
    forall x ensures Consumed(more, |more|, x) <==> Consumed(trace, |trace|, x) {}
    if Consumed(trace, |trace|, id) {
      var j :| 0 <= j < |trace| && trace[j].ReadResult? && trace[j].id == Some(id);
      ResultNamesCall(trace, marker, j);
      IdsGrow(trace, j, |trace|);
    }
    assert Orphans(more) == Orphans(trace) + {id};
  }

  /** The fresh id offends nobody. */
  lemma {:induction false} InsertedAccepted(trace: seq<Entry>, marker: string -> Marker, i: nat, k: nat, call: Item)
    requires Accepted(trace, marker) && i < |trace| && trace[i].Assistant? && k <= |trace[i].items|
    requires call.ReadCall? && CallOk(call) && call.id.value !in Ids(trace, |trace|)
    ensures Accepted(WithCall(trace, i, k, call), marker)
  {
    hide FindCall, FindIn, Ids;
    var more, id := WithCall(trace, i, k, call), call.id.value;
    forall n | 0 <= n < |more| ensures EntryAccepted(more, marker, n) {
      assert EntryAccepted(trace, marker, n);
      if trace[n].ReadResult? {
        ResultNamesCall(trace, marker, n);
        IdsGrow(trace, n, |trace|);
        FindOther(trace, i, k, call, n, trace[n].id.value);
        assert Consumed(more, n, trace[n].id.value) <==> Consumed(trace, n, trace[n].id.value);
      } else if trace[n].Assistant? {
        ItemsAccepted(trace, marker, i, k, call, n);
      }
    }
  }

  lemma {:induction false} ItemsAccepted(trace: seq<Entry>, marker: string -> Marker, i: nat, k: nat, call: Item,
                                         n: nat)
    requires Accepted(trace, marker) && i < |trace| && trace[i].Assistant? && k <= |trace[i].items|
    requires call.ReadCall? && CallOk(call) && call.id.value !in Ids(trace, |trace|) && n < |trace|
      && trace[n].Assistant?
    ensures EntryAccepted(WithCall(trace, i, k, call), marker, n)
  {
    hide FindCall, FindIn, Ids;
    var more, id := WithCall(trace, i, k, call), call.id.value;
    var items, all := trace[n].items, more[n].items;
    assert EntryAccepted(trace, marker, n);
    forall a | 0 <= a < |all| && all[a].ReadCall?
      ensures CallOk(all[a]) && FindCall(more, n, all[a].id.value).None? && FindIn(all, a, all[a].id.value, n).None?
    {
      if n == i && a == k {
        FreshNotFound(trace, marker, i, k, call, n);
      } else {
        var b := if n == i && a > k then a - 1 else a;
        assert all[a] == items[b];
        ItemId(trace, n, b);
        FindOther(trace, i, k, call, n, items[b].id.value);
        if n == i { FindInOther(items, k, call, a, items[b].id.value, n); }
      }
    }
  }

  /** The id of a call is among the ids. */
  lemma {:induction false} ItemId(trace: seq<Entry>, n: nat, b: nat)
    requires n < |trace| && trace[n].Assistant? && b < |trace[n].items| && trace[n].items[b].ReadCall?
      && trace[n].items[b].id.Some?
    ensures trace[n].items[b].id.value in Ids(trace, |trace|)
  {
    assert trace[n].items[b].id.value in IdsIn(trace[n].items, |trace[n].items|);
    assert trace[n].items[b].id.value in Ids(trace, n + 1);
    IdsGrow(trace, n + 1, |trace|);
  }

  lemma {:induction false} FreshNotFound(trace: seq<Entry>, marker: string -> Marker, i: nat, k: nat, call: Item,
                                         n: nat)
    requires Accepted(trace, marker) && i < |trace| && trace[i].Assistant? && k <= |trace[i].items| && n == i
    requires call.ReadCall? && call.id.Some? && call.id.value !in Ids(trace, |trace|)
    ensures var more := WithCall(trace, i, k, call);
      FindCall(more, n, call.id.value).None? && FindIn(more[n].items, k, call.id.value, n).None?
  {
    var more, id := WithCall(trace, i, k, call), call.id.value;
    IdsGrow(trace, n, |trace|);
    FoundIds(trace, marker, n, id);
    PrefixFind(trace, more, n, id);
    FoundInPrefix(trace[i].items, more[i].items, k, id, n);
    if FindIn(trace[i].items, k, id, n).Some? {
      FoundIn(trace[i].items, k, id, n);
      var b :| 0 <= b < k && trace[i].items[b].ReadCall? && trace[i].items[b].id.Some? && trace[i].items[b].id.value == id;
      ItemId(trace, i, b);
    }
  }

  lemma {:induction false} PrefixFind(trace: seq<Entry>, more: seq<Entry>, n: nat, id: string)
    requires n <= |trace| == |more| && trace[..n] == more[..n]
    ensures FindCall(more, n, id) == FindCall(trace, n, id)
  {
    if n > 0 {
      assert trace[n - 1] == trace[..n][n - 1] && more[n - 1] == more[..n][n - 1];
      assert trace[..n - 1] == trace[..n][..n - 1] && more[..n - 1] == more[..n][..n - 1];
      PrefixFind(trace, more, n - 1, id);
    }
  }

  lemma {:induction false} FoundInPrefix(items: seq<Item>, more: seq<Item>, k: nat, id: string, index: nat)
    requires k <= |items| && k <= |more| && items[..k] == more[..k]
    ensures FindIn(more, k, id, index) == FindIn(items, k, id, index)
  {
    if k > 0 {
      assert items[k - 1] == items[..k][k - 1] && more[k - 1] == more[..k][k - 1];
      assert items[..k - 1] == items[..k][..k - 1] && more[..k - 1] == more[..k][..k - 1];
      FoundInPrefix(items, more, k - 1, id, index);
    }
  }

  // -------------------------------------------------------------------------
  // Two adjacent results the other way round
  // -------------------------------------------------------------------------

  function Swapped(trace: seq<Entry>, j: nat): seq<Entry>
    requires j + 1 < |trace|
  {
    trace[j := trace[j + 1]][j + 1 := trace[j]]
  }

  /** Where entry `a` of the trace is after the swap. */
  function Moved(j: nat, a: nat): nat {
    if a == j then j + 1 else if a == j + 1 then j else a
  }

  /** Calls stay where they are, so every id finds what it found. */
  lemma {:induction false} FindSwapped(trace: seq<Entry>, j: nat, n: nat, id: string)
    requires j + 1 < |trace| && trace[j].ReadResult? && trace[j + 1].ReadResult? && n <= |trace|
    ensures FindCall(Swapped(trace, j), n, id) == FindCall(trace, n, id)
  {
    if n > 0 { FindSwapped(trace, j, n - 1, id); }
  }

  /** The call a result answers moves with the result. */
  lemma CallSwapped(trace: seq<Entry>, j: nat, a: nat)
    requires j + 1 < |trace| && trace[j].ReadResult? && trace[j + 1].ReadResult? && a < |trace|
    ensures CallOf(Swapped(trace, j), Moved(j, a)) == CallOf(trace, a)
  {
    var more := Swapped(trace, j);
    if trace[a].ReadResult? && trace[a].id.Some? {
      var id := trace[a].id.value;
      FindSwapped(trace, j, Moved(j, a), id);
      assert FindCall(trace, j + 1, id) == FindCall(trace, j, id);
    }
  }

  /** The same set of results, named by their new places. */
  ghost function MovedSet(j: nat, s: set<nat>): set<nat> {
    set a | a in s :: Moved(j, a)
  }

  lemma {:induction false} MovedSize(j: nat, s: set<nat>)
    ensures |MovedSet(j, s)| == |s|
  {
    if s != {} {
      var a :| a in s;
      MovedSize(j, s - {a});
      assert MovedSet(j, s) == MovedSet(j, s - {a}) + {Moved(j, a)};
    } else {
      assert MovedSet(j, s) == {};
    }
  }

  lemma {:induction false} MovedBytes(trace: seq<Entry>, j: nat, s: set<nat>, n: nat)
    requires j + 1 < |trace| && trace[j].ReadResult? && trace[j + 1].ReadResult? && n <= |trace| && n != j + 1
    ensures BytesOf(Swapped(trace, j), MovedSet(j, s), n) == BytesOf(trace, s, n)
    decreases n
  {
    var more, t := Swapped(trace, j), MovedSet(j, s);
    if n == j + 2 {
      MovedBytes(trace, j, s, j);
      assert j in t <==> j + 1 in s by { if j + 1 in s { assert Moved(j, j + 1) in t; } }
      assert j + 1 in t <==> j in s by { if j in s { assert Moved(j, j) in t; } }
      assert BytesOf(more, t, j + 1) == BytesOf(more, t, j) + (if j in t then Utf8Bytes(more[j].text) else 0);
      assert BytesOf(trace, s, j + 1) == BytesOf(trace, s, j) + (if j in s then Utf8Bytes(trace[j].text) else 0);
    } else if n > 0 {
      MovedBytes(trace, j, s, n - 1);
      assert n - 1 in t <==> n - 1 in s by { if n - 1 in s { assert Moved(j, n - 1) in t; } }
    }
  }

  /** A result keeps what it says wherever it stands. */
  lemma OutcomeSwapped(trace: seq<Entry>, marker: string -> Marker, j: nat, a: nat)
    requires j + 1 < |trace| && trace[j].ReadResult? && trace[j + 1].ReadResult? && a < |trace|
    ensures var more, b := Swapped(trace, j), Moved(j, a);
      && Succeeds(more, b) == Succeeds(trace, a) && Fails(more, b) == Fails(trace, a)
      && IsPreview(more, marker, b) == IsPreview(trace, marker, a)
      && IsComplete(more, marker, b) == IsComplete(trace, marker, a)
      && PathAt(more, b) == PathAt(trace, a)
  {
    hide FindCall;
    CallSwapped(trace, j, a);
  }

  /** Calls are not results, so they stand on the same side of every result. */
  lemma CallSide(trace: seq<Entry>, j: nat, a: nat, p: nat)
    requires j + 1 < |trace| && trace[j].ReadResult? && trace[j + 1].ReadResult? && a < |trace|
      && CallOf(trace, a).Some?
    ensures var c := CallOf(trace, a).value.index; (p < c <==> Moved(j, p) < c) && (p > c <==> Moved(j, p) > c)
  {
    CallBefore(trace, a, trace[a].id.value);
  }

  lemma ContinuationSwapped(trace: seq<Entry>, marker: string -> Marker, j: nat, a: nat)
    requires j + 1 < |trace| && trace[j].ReadResult? && trace[j + 1].ReadResult? && a < |trace|
    ensures IsContinuation(trace, marker, a) ==> IsContinuation(Swapped(trace, j), marker, Moved(j, a))
  {
    hide FindCall, CallOf;
    var more, b := Swapped(trace, j), Moved(j, a);
    OutcomeSwapped(trace, marker, j, a);
    CallSwapped(trace, j, a);
    if IsContinuation(trace, marker, a) {
      var p :| 0 <= p < CallOf(trace, a).value.index && p < |trace| && IsPreview(trace, marker, p)
               && CallOf(trace, p).value.path == CallOf(trace, a).value.path;
      OutcomeSwapped(trace, marker, j, p);
      CallSwapped(trace, j, p);
      CallSide(trace, j, a, p);
      assert IsPreview(more, marker, Moved(j, p));
    }
  }

  lemma PaginatedSwapped(trace: seq<Entry>, marker: string -> Marker, j: nat, a: nat)
    requires j + 1 < |trace| && trace[j].ReadResult? && trace[j + 1].ReadResult? && a < |trace|
    ensures Paginated(trace, a) ==> Paginated(Swapped(trace, j), Moved(j, a))
  {
    hide FindCall, CallOf;
    OutcomeSwapped(trace, marker, j, a);
    if Paginated(trace, a) {
      var c :| 0 <= c < |trace| && Succeeds(trace, c) && CallOf(trace, c).value.partial && CallOf(trace, c).value.index > a
               && CallOf(trace, c).value.path == PathAt(trace, a);
      OutcomeSwapped(trace, marker, j, c);
      CallSwapped(trace, j, c);
      CallSide(trace, j, c, a);
      assert Succeeds(Swapped(trace, j), Moved(j, c));
    }
  }

  /** Unless the two results are on one path. */
  lemma ReachedSwapped(trace: seq<Entry>, marker: string -> Marker, j: nat, a: nat)
    requires j + 1 < |trace| && trace[j].ReadResult? && trace[j + 1].ReadResult? && a < |trace|
    requires PathAt(trace, j) != PathAt(trace, j + 1)
    ensures Reached(trace, marker, a) ==> Reached(Swapped(trace, j), marker, Moved(j, a))
  {
    hide FindCall, CallOf;
    OutcomeSwapped(trace, marker, j, a);
    if Reached(trace, marker, a) {
      var r :| a < r < |trace| && IsComplete(trace, marker, r) && PathAt(trace, r) == PathAt(trace, a);
      OutcomeSwapped(trace, marker, j, r);
      assert IsComplete(Swapped(trace, j), marker, Moved(j, r));
    }
  }

  lemma SwappedTwice(trace: seq<Entry>, j: nat)
    requires j + 1 < |trace|
    ensures Swapped(Swapped(trace, j), j) == trace && forall a :: Moved(j, Moved(j, a)) == a
  {}

  lemma SetsSwapped(trace: seq<Entry>, marker: string -> Marker, j: nat)
    requires j + 1 < |trace| && trace[j].ReadResult? && trace[j + 1].ReadResult?
    ensures var more, n := Swapped(trace, j), |trace|;
      && Previews(more, marker, n) == MovedSet(j, Previews(trace, marker, n))
      && Continuations(more, marker, n) == MovedSet(j, Continuations(trace, marker, n))
      && Failures(more, n) == MovedSet(j, Failures(trace, n))
      && PaginatedOnes(more, marker) == MovedSet(j, PaginatedOnes(trace, marker))
      && (PathAt(trace, j) != PathAt(trace, j + 1) ==> ReachedOnes(more, marker) == MovedSet(j, ReachedOnes(trace, marker)))
  {
    hide IsPreview, IsContinuation, Fails, Paginated, Reached, PathAt, FindCall;
    var more, n := Swapped(trace, j), |trace|;
    SwappedTwice(trace, j);
    forall b: nat | b < n
      ensures Moved(j, b) < n && IsPreview(more, marker, b) == IsPreview(trace, marker, Moved(j, b))
      ensures Fails(more, b) == Fails(trace, Moved(j, b))
      ensures IsContinuation(more, marker, b) == IsContinuation(trace, marker, Moved(j, b))
      ensures Paginated(more, b) == Paginated(trace, Moved(j, b))
      ensures PathAt(trace, j) != PathAt(trace, j + 1) ==>
        Reached(more, marker, b) == Reached(trace, marker, Moved(j, b))
    {
      var a := Moved(j, b);
      OutcomeSwapped(trace, marker, j, a);
      OutcomeSwapped(trace, marker, j, j);
      OutcomeSwapped(trace, marker, j, j + 1);
      ContinuationSwapped(trace, marker, j, a);
      ContinuationSwapped(more, marker, j, b);
      PaginatedSwapped(trace, marker, j, a);
      PaginatedSwapped(more, marker, j, b);
      if PathAt(trace, j) != PathAt(trace, j + 1) {
        ReachedSwapped(trace, marker, j, a);
        ReachedSwapped(more, marker, j, b);
      }
    }
    MovedMembers(j);
    forall b: nat
      ensures b in Previews(more, marker, n) <==> Moved(j, b) in Previews(trace, marker, n)
      ensures b in Continuations(more, marker, n) <==> Moved(j, b) in Continuations(trace, marker, n)
      ensures b in Failures(more, n) <==> Moved(j, b) in Failures(trace, n)
    {}
  }

  /** Membership in a moved set, place by place. */
  lemma MovedMembers(j: nat)
    ensures forall s: set<nat>, b: nat :: b in MovedSet(j, s) <==> Moved(j, b) in s
  {
    forall s: set<nat>, b: nat ensures b in MovedSet(j, s) <==> Moved(j, b) in s {
      if Moved(j, b) in s { assert Moved(j, Moved(j, b)) == b; }
    }
  }

  lemma SwapAccepted(trace: seq<Entry>, marker: string -> Marker, j: nat)
    requires Accepted(trace, marker) && j + 1 < |trace| && trace[j].ReadResult? && trace[j + 1].ReadResult?
    ensures Accepted(Swapped(trace, j), marker)
  {
    hide FindCall;
    var more := Swapped(trace, j);
    assert EntryAccepted(trace, marker, j) && EntryAccepted(trace, marker, j + 1);
    forall b | 0 <= b < |more| ensures EntryAccepted(more, marker, b) {
      var a := Moved(j, b);
      assert EntryAccepted(trace, marker, a);
      if more[b].ReadResult? {
        CallSwapped(trace, j, a);
        forall k | 0 <= k < b && more[k].ReadResult? ensures more[k].id != more[b].id {
          assert more[k] == trace[Moved(j, k)];
        }
      } else if more[b].Assistant? {
        forall id { FindSwapped(trace, j, b, id); }
      }
    }
  }

  lemma {:induction false} SameIds(trace: seq<Entry>, j: nat, n: nat)
    requires j + 1 < |trace| && trace[j].ReadResult? && trace[j + 1].ReadResult? && n <= |trace|
    ensures Ids(Swapped(trace, j), n) == Ids(trace, n)
  {
    if n > 0 { SameIds(trace, j, n - 1); }
  }

  lemma SameOrphans(trace: seq<Entry>, j: nat)
    requires j + 1 < |trace| && trace[j].ReadResult? && trace[j + 1].ReadResult?
    ensures Orphans(Swapped(trace, j)) == Orphans(trace)
  {
    var more := Swapped(trace, j);
    SameIds(trace, j, |trace|);
    forall id ensures Consumed(more, |trace|, id) <==> Consumed(trace, |trace|, id) {
      forall a | 0 <= a < |trace| ensures more[Moved(j, a)] == trace[a] {}
      if Consumed(trace, |trace|, id) {
        var a :| 0 <= a < |trace| && trace[a].ReadResult? && trace[a].id == Some(id);
        assert more[Moved(j, a)].id == Some(id);
      }
      if Consumed(more, |trace|, id) {
        var b :| 0 <= b < |trace| && more[b].ReadResult? && more[b].id == Some(id);
        assert trace[Moved(j, b)].id == Some(id);
      }
    }
  }

  /** Swapping two adjacent results changes no fact but completion, and that
      only when the results are on one path. */
  lemma ResultsSwapped(trace: seq<Entry>, marker: string -> Marker, j: nat, f: Facts)
    requires Accepted(trace, marker) && FactsOf(trace, marker, f)
    requires j + 1 < |trace| && trace[j].ReadResult? && trace[j + 1].ReadResult?
    ensures Accepted(Swapped(trace, j), marker)
    ensures FactsOf(Swapped(trace, j), marker, f.(reachedComplete := |ReachedOnes(Swapped(trace, j), marker)|))
    ensures PathAt(trace, j) != PathAt(trace, j + 1) ==> FactsOf(Swapped(trace, j), marker, f)
  {
    hide Previews, Continuations, Failures, PaginatedOnes, ReachedOnes, Orphans, BytesOf, Paginated, EntryAccepted,
         MovedSet;
    var more, n := Swapped(trace, j), |trace|;
    SwapAccepted(trace, marker, j);
    SetsSwapped(trace, marker, j);
    SameOrphans(trace, j);
    MovedSize(j, Previews(trace, marker, n));
    MovedSize(j, Continuations(trace, marker, n));
    MovedSize(j, Failures(trace, n));
    MovedSize(j, PaginatedOnes(trace, marker));
    MovedSize(j, ReachedOnes(trace, marker));
    MovedBytes(trace, j, Previews(trace, marker, n), n);
    MovedBytes(trace, j, Continuations(trace, marker, n), n);
    SameMisuse(trace, marker, j);
  }

  lemma SameMisuse(trace: seq<Entry>, marker: string -> Marker, j: nat)
    requires j + 1 < |trace| && trace[j].ReadResult? && trace[j + 1].ReadResult?
    ensures var more, n := Swapped(trace, j), |trace|;
      (exists a | a in Previews(more, marker, n) :: !Paginated(more, a)) <==>
      (exists a | a in Previews(trace, marker, n) :: !Paginated(trace, a))
  {
    hide Paginated, IsPreview;
    var more, n := Swapped(trace, j), |trace|;
    SetsSwapped(trace, marker, j);
    MovedMembers(j);
    SwappedTwice(trace, j);
    if a :| a in Previews(trace, marker, n) && !Paginated(trace, a) {
      assert Moved(j, a) in Previews(more, marker, n) && Moved(j, a) !in PaginatedOnes(more, marker);
    }
    if a :| a in Previews(more, marker, n) && !Paginated(more, a) {
      assert Moved(j, a) in Previews(trace, marker, n) && Moved(j, a) !in PaginatedOnes(trace, marker);
    }
  }

  // -------------------------------------------------------------------------
  // A message more
  // -------------------------------------------------------------------------

  /** The trace with an empty assistant message before entry `p`. */
  function WithMessage(trace: seq<Entry>, p: nat): seq<Entry>
    requires p <= |trace|
  {
    trace[..p] + [Assistant([])] + trace[p..]
  }

  function Shift(p: nat, a: nat): nat {
    if a < p then a else a + 1
  }

  function ShiftCall(p: nat, c: Option<Call>): Option<Call> {
    if c.None? then None else Some(c.value.(index := Shift(p, c.value.index)))
  }

  lemma MessageAt(trace: seq<Entry>, p: nat, a: nat)
    requires p <= |trace|
    ensures |WithMessage(trace, p)| == |trace| + 1 && WithMessage(trace, p)[p] == Assistant([])
    ensures a < |trace| ==> WithMessage(trace, p)[Shift(p, a)] == trace[a]
  {}

  lemma {:induction false} FindInMoved(items: seq<Item>, k: nat, id: string, a: nat, b: nat)
    requires k <= |items|
    ensures FindIn(items, k, id, b) ==
            (if FindIn(items, k, id, a).None? then None else Some(FindIn(items, k, id, a).value.(index := b)))
  {
    if k > 0 { FindInMoved(items, k - 1, id, a, b); }
  }

  lemma {:induction false} FindShifted(trace: seq<Entry>, p: nat, n: nat, id: string)
    requires p <= |trace| && n <= |trace|
    ensures Shift(p, n) <= |trace| + 1 == |WithMessage(trace, p)|
    ensures FindCall(WithMessage(trace, p), Shift(p, n), id) == ShiftCall(p, FindCall(trace, n, id))
    decreases n
  {
    var more := WithMessage(trace, p);
    if n > 0 {
      FindShifted(trace, p, n - 1, id);
      MessageAt(trace, p, n - 1);
      if n == p {
        assert FindCall(more, n + 1, id) == FindCall(more, n, id);
      }
      if trace[n - 1].Assistant? {
        var items := trace[n - 1].items;
        FindInMoved(items, |items|, id, n - 1, Shift(p, n - 1));
        if FindIn(items, |items|, id, n - 1).Some? { FindInIndex(items, |items|, id, n - 1); }
      }
    } else if p == 0 {
      MessageAt(trace, p, 0);
      assert FindCall(more, 1, id) == FindCall(more, 0, id);
    }
  }

  /** A result says what it said, and its call has moved with it. */
  lemma OutcomeShifted(trace: seq<Entry>, marker: string -> Marker, p: nat, a: nat)
    requires p <= |trace| && a < |trace|
    ensures var more, b := WithMessage(trace, p), Shift(p, a);
      && b < |more| && CallOf(more, b) == ShiftCall(p, CallOf(trace, a))
      && Succeeds(more, b) == Succeeds(trace, a) && Fails(more, b) == Fails(trace, a)
      && IsPreview(more, marker, b) == IsPreview(trace, marker, a)
      && IsComplete(more, marker, b) == IsComplete(trace, marker, a)
      && PathAt(more, b) == PathAt(trace, a)
  {
    hide FindCall, WithMessage;
    MessageAt(trace, p, a);
    if trace[a].ReadResult? && trace[a].id.Some? { FindShifted(trace, p, a, trace[a].id.value); }
  }

  /** Every other entry of the longer trace comes from the shorter one. */
  lemma ShiftedFrom(p: nat, b: nat)
    requires b != p
    ensures Shift(p, if b < p then b else b - 1) == b
  {}

  lemma RelationsShifted(trace: seq<Entry>, marker: string -> Marker, p: nat, a: nat)
    requires p <= |trace| && a < |trace|
    ensures var more, b := WithMessage(trace, p), Shift(p, a);
      && b < |more|
      && IsContinuation(more, marker, b) == IsContinuation(trace, marker, a)
      && Paginated(more, b) == Paginated(trace, a)
      && Reached(more, marker, b) == Reached(trace, marker, a)
  {
    hide FindCall, CallOf, WithMessage, Succeeds, PathAt, IsPreview, IsComplete;
    var more, b := WithMessage(trace, p), Shift(p, a);
    MessageAt(trace, p, a);
    forall x | 0 <= x < |trace|
      ensures var y := Shift(p, x);
        && y < |more| && CallOf(more, y) == ShiftCall(p, CallOf(trace, x)) && Succeeds(more, y) == Succeeds(trace, x)
        && IsPreview(more, marker, y) == IsPreview(trace, marker, x)
        && IsComplete(more, marker, y) == IsComplete(trace, marker, x) && PathAt(more, y) == PathAt(trace, x)
    {
      OutcomeShifted(trace, marker, p, x);
    }
    BlankSaysNothing(more, marker, p);
    ContinuationShifted(trace, more, marker, p, a);
    PaginatedShifted(trace, more, marker, p, a);
    if Reached(trace, marker, a) {
      var r :| a < r < |trace| && IsComplete(trace, marker, r) && PathAt(trace, r) == PathAt(trace, a);
      assert IsComplete(more, marker, Shift(p, r));
    }
    if Reached(more, marker, b) {
      var r :| b < r < |more| && IsComplete(more, marker, r) && PathAt(more, r) == PathAt(more, b);
      ShiftedFrom(p, r);
      assert IsComplete(trace, marker, if r < p then r else r - 1);
    }
  }

  lemma BlankSaysNothing(more: seq<Entry>, marker: string -> Marker, p: nat)
    requires p < |more| && more[p].Assistant?
    ensures !Succeeds(more, p) && !Fails(more, p) && !IsPreview(more, marker, p) && !IsComplete(more, marker, p)
    ensures !IsContinuation(more, marker, p)
  {}

  /** The longer trace has the same results, one place on from `p`. */
  ghost predicate SameShifted(trace: seq<Entry>, more: seq<Entry>, marker: string -> Marker, p: nat) {
    && p <= |trace| && |more| == |trace| + 1
    && !Succeeds(more, p) && !IsPreview(more, marker, p) && !IsComplete(more, marker, p)
    && forall x | 0 <= x < |trace| ::
         && CallOf(more, Shift(p, x)) == ShiftCall(p, CallOf(trace, x))
         && Succeeds(more, Shift(p, x)) == Succeeds(trace, x)
         && IsPreview(more, marker, Shift(p, x)) == IsPreview(trace, marker, x)
         && PathAt(more, Shift(p, x)) == PathAt(trace, x)
  }

  lemma ContinuationShifted(trace: seq<Entry>, more: seq<Entry>, marker: string -> Marker, p: nat, a: nat)
    requires SameShifted(trace, more, marker, p) && a < |trace|
    ensures IsContinuation(more, marker, Shift(p, a)) == IsContinuation(trace, marker, a)
  {
    hide FindCall, CallOf;
    var b := Shift(p, a);
    if IsContinuation(trace, marker, a) {
      var q :| 0 <= q < CallOf(trace, a).value.index && q < |trace| && IsPreview(trace, marker, q)
               && CallOf(trace, q).value.path == CallOf(trace, a).value.path;
      assert IsPreview(more, marker, Shift(p, q));
    }
    if IsContinuation(more, marker, b) {
      var q :| 0 <= q < CallOf(more, b).value.index && q < |more| && IsPreview(more, marker, q)
               && CallOf(more, q).value.path == CallOf(more, b).value.path;
      ShiftedFrom(p, q);
      assert IsPreview(trace, marker, if q < p then q else q - 1);
    }
  }

  lemma PaginatedShifted(trace: seq<Entry>, more: seq<Entry>, marker: string -> Marker, p: nat, a: nat)
    requires SameShifted(trace, more, marker, p) && a < |trace|
    ensures Paginated(more, Shift(p, a)) == Paginated(trace, a)
  {
    hide FindCall, CallOf, PathAt;
    var b := Shift(p, a);
    if Paginated(trace, a) {
      var c :| 0 <= c < |trace| && Succeeds(trace, c) && CallOf(trace, c).value.partial && CallOf(trace, c).value.index > a
               && CallOf(trace, c).value.path == PathAt(trace, a);
      assert Succeeds(more, Shift(p, c));
    }
    if Paginated(more, b) {
      var c :| 0 <= c < |more| && Succeeds(more, c) && CallOf(more, c).value.partial && CallOf(more, c).value.index > b
               && CallOf(more, c).value.path == PathAt(more, b);
      ShiftedFrom(p, c);
      assert Succeeds(trace, if c < p then c else c - 1);
    }
  }

  ghost function ShiftSet(p: nat, s: set<nat>): set<nat> {
    set a | a in s :: Shift(p, a)
  }

  lemma {:induction false} ShiftSize(p: nat, s: set<nat>)
    ensures |ShiftSet(p, s)| == |s|
  {
    if s != {} {
      var a :| a in s;
      ShiftSize(p, s - {a});
      assert ShiftSet(p, s) == ShiftSet(p, s - {a}) + {Shift(p, a)};
    } else {
      assert ShiftSet(p, s) == {};
    }
  }

  /** The blank message adds no bytes. */
  lemma {:induction false} ShiftBytes(trace: seq<Entry>, p: nat, s: set<nat>, n: nat)
    requires p <= n <= |trace|
    ensures BytesOf(WithMessage(trace, p), ShiftSet(p, s), n + 1) == BytesOf(trace, s, n)
    decreases n
  {
    var more, t := WithMessage(trace, p), ShiftSet(p, s);
    if n == p {
      EarlyBytes(trace, p, s, p);
      MessageAt(trace, p, 0);
    } else {
      ShiftBytes(trace, p, s, n - 1);
      MessageAt(trace, p, n - 1);
      assert n in t <==> n - 1 in s by { if n - 1 in s { assert Shift(p, n - 1) in t; } }
    }
  }

  lemma {:induction false} EarlyBytes(trace: seq<Entry>, p: nat, s: set<nat>, n: nat)
    requires n <= p <= |trace|
    ensures BytesOf(WithMessage(trace, p), ShiftSet(p, s), n) == BytesOf(trace, s, n)
  {
    if n > 0 {
      EarlyBytes(trace, p, s, n - 1);
      MessageAt(trace, p, n - 1);
      assert n - 1 in ShiftSet(p, s) <==> n - 1 in s by { if n - 1 in s { assert Shift(p, n - 1) in ShiftSet(p, s); } }
    }
  }

  /** A set of places is the shifted one when it has the shifted members. */
  lemma ShiftedSet(p: nat, n: nat, s: set<nat>, t: set<nat>)
    requires p <= n && (forall a | a in s :: a < n) && (forall b | b in t :: b < n + 1) && p !in t
    requires forall a: nat | a < n :: Shift(p, a) in t <==> a in s
    ensures t == ShiftSet(p, s)
  {
    forall b | b in t ensures b in ShiftSet(p, s) {
      ShiftedFrom(p, b);
      var a := if b < p then b else b - 1;
      assert Shift(p, a) == b && a in s;
    }
  }

  lemma SetsShifted(trace: seq<Entry>, marker: string -> Marker, p: nat)
    requires p <= |trace|
    ensures var more, n := WithMessage(trace, p), |trace|;
      && Previews(more, marker, n + 1) == ShiftSet(p, Previews(trace, marker, n))
      && Continuations(more, marker, n + 1) == ShiftSet(p, Continuations(trace, marker, n))
      && Failures(more, n + 1) == ShiftSet(p, Failures(trace, n))
      && PaginatedOnes(more, marker) == ShiftSet(p, PaginatedOnes(trace, marker))
      && ReachedOnes(more, marker) == ShiftSet(p, ReachedOnes(trace, marker))
  {
    hide IsPreview, IsContinuation, Fails, Paginated, Reached, WithMessage, ShiftSet;
    var more, n := WithMessage(trace, p), |trace|;
    MessageAt(trace, p, 0);
    BlankSaysNothing(more, marker, p);
    forall a: nat | a < n
      ensures IsPreview(more, marker, Shift(p, a)) == IsPreview(trace, marker, a)
      ensures Fails(more, Shift(p, a)) == Fails(trace, a)
      ensures IsContinuation(more, marker, Shift(p, a)) == IsContinuation(trace, marker, a)
      ensures Paginated(more, Shift(p, a)) == Paginated(trace, a)
      ensures Reached(more, marker, Shift(p, a)) == Reached(trace, marker, a)
    {
      OutcomeShifted(trace, marker, p, a);
      RelationsShifted(trace, marker, p, a);
    }
    ShiftedSet(p, n, Previews(trace, marker, n), Previews(more, marker, n + 1));
    ShiftedSet(p, n, Continuations(trace, marker, n), Continuations(more, marker, n + 1));
    ShiftedSet(p, n, Failures(trace, n), Failures(more, n + 1));
    ShiftedSet(p, n, PaginatedOnes(trace, marker), PaginatedOnes(more, marker));
    ShiftedSet(p, n, ReachedOnes(trace, marker), ReachedOnes(more, marker));
  }

  lemma {:induction false} ShiftIds(trace: seq<Entry>, p: nat, n: nat)
    requires p <= |trace| && n <= |trace|
    ensures Shift(p, n) <= |WithMessage(trace, p)| && Ids(WithMessage(trace, p), Shift(p, n)) == Ids(trace, n)
    decreases n
  {
    var more := WithMessage(trace, p);
    if n > 0 {
      ShiftIds(trace, p, n - 1);
      MessageAt(trace, p, n - 1);
      if n == p { assert Ids(more, n + 1) == Ids(more, n); }
    } else if p == 0 {
      MessageAt(trace, p, 0);
      assert Ids(more, 1) == Ids(more, 0);
    }
  }

  lemma ConsumedShifted(trace: seq<Entry>, p: nat, n: nat, id: string)
    requires p <= |trace| && n <= |trace|
    ensures Shift(p, n) <= |WithMessage(trace, p)|
    ensures Consumed(WithMessage(trace, p), Shift(p, n), id) <==> Consumed(trace, n, id)
  {
    hide WithMessage;
    var more := WithMessage(trace, p);
    MessageAt(trace, p, 0);
    forall a: nat | a < |trace| ensures more[Shift(p, a)] == trace[a] { MessageAt(trace, p, a); }
    if Consumed(trace, n, id) {
      var a :| 0 <= a < n && trace[a].ReadResult? && trace[a].id == Some(id);
      assert more[Shift(p, a)].id == Some(id);
    }
    if Consumed(more, Shift(p, n), id) {
      var b :| 0 <= b < Shift(p, n) && more[b].ReadResult? && more[b].id == Some(id);
      ShiftedFrom(p, b);
      assert trace[if b < p then b else b - 1].id == Some(id);
    }
  }

  lemma MessageAccepted(trace: seq<Entry>, marker: string -> Marker, p: nat)
    requires Accepted(trace, marker) && p <= |trace|
    ensures Accepted(WithMessage(trace, p), marker)
  {
    hide FindCall, WithMessage, Consumed;
    var more := WithMessage(trace, p);
    MessageAt(trace, p, 0);
    forall b | 0 <= b < |more| ensures EntryAccepted(more, marker, b) {
      if b != p {
        ShiftedFrom(p, b);
        var a := if b < p then b else b - 1;
        MessageAt(trace, p, a);
        assert EntryAccepted(trace, marker, a);
        forall id { FindShifted(trace, p, a, id); }
        forall id { ConsumedShifted(trace, p, a, id); }
        if trace[a].Assistant? {
          forall k, id | 0 <= k <= |trace[a].items| ensures FindIn(trace[a].items, k, id, b).None? <==> FindIn(trace[a].items, k, id, a).None? {
            FindInMoved(trace[a].items, k, id, a, b);
          }
        }
      }
    }
  }

  /** A message without reads changes no fact. */
  lemma {:induction false} MessageInserted(trace: seq<Entry>, marker: string -> Marker, p: nat, f: Facts)
    requires Accepted(trace, marker) && FactsOf(trace, marker, f) && p <= |trace|
    ensures Accepted(WithMessage(trace, p), marker) && FactsOf(WithMessage(trace, p), marker, f)
    ensures Ids(WithMessage(trace, p), |trace| + 1) == Ids(trace, |trace|)
  {
    hide Previews, Continuations, Failures, PaginatedOnes, ReachedOnes, BytesOf, Paginated, EntryAccepted, ShiftSet,
         WithMessage, Consumed;
    var more, n := WithMessage(trace, p), |trace|;
    MessageAt(trace, p, 0);
    MessageAccepted(trace, marker, p);
    SetsShifted(trace, marker, p);
    ShiftSize(p, Previews(trace, marker, n));
    ShiftSize(p, Continuations(trace, marker, n));
    ShiftSize(p, Failures(trace, n));
    ShiftSize(p, PaginatedOnes(trace, marker));
    ShiftSize(p, ReachedOnes(trace, marker));
    ShiftBytes(trace, p, Previews(trace, marker, n), n);
    ShiftBytes(trace, p, Continuations(trace, marker, n), n);
    ShiftIds(trace, p, n);
    assert Orphans(more) == Orphans(trace) by {
      forall id { ConsumedShifted(trace, p, n, id); }
    }
    ShiftedMisuse(trace, marker, p);
  }

  lemma ShiftedMisuse(trace: seq<Entry>, marker: string -> Marker, p: nat)
    requires p <= |trace|
    ensures var more, n := WithMessage(trace, p), |trace|;
      (exists a | a in Previews(more, marker, n + 1) :: !Paginated(more, a)) <==>
      (exists a | a in Previews(trace, marker, n) :: !Paginated(trace, a))
  {
    hide Paginated, IsPreview, WithMessage;
    var more, n := WithMessage(trace, p), |trace|;
    MessageAt(trace, p, 0);
    SetsShifted(trace, marker, p);
    if a :| a in Previews(trace, marker, n) && !Paginated(trace, a) {
      RelationsShifted(trace, marker, p, a);
      assert Shift(p, a) in Previews(more, marker, n + 1);
    }
    if b :| b in Previews(more, marker, n + 1) && !Paginated(more, b) {
      var a :| a in Previews(trace, marker, n) && Shift(p, a) == b;
      RelationsShifted(trace, marker, p, a);
    }
  }

  /** A fresh orphan call in a message of its own, anywhere. */
  lemma {:induction false} OrphanMessageInserted(trace: seq<Entry>, marker: string -> Marker, p: nat, call: Item,
                                                 f: Facts)
    requires Accepted(trace, marker) && FactsOf(trace, marker, f) && p <= |trace|
    requires call.ReadCall? && CallOk(call) && call.id.value !in Ids(trace, |trace|)
    ensures var more := trace[..p] + [Assistant([call])] + trace[p..];
      Accepted(more, marker) && FactsOf(more, marker, f.(orphanReadCalls := f.orphanReadCalls + 1))
  {
    hide FactsOf, Accepted, Ids;
    var blank := WithMessage(trace, p);
    MessageInserted(trace, marker, p, f);
    MessageAt(trace, p, 0);
    OrphanInserted(blank, marker, p, 0, call, f);
    assert [] + [call] + [] == [call];
    assert WithCall(blank, p, 0, call) == trace[..p] + [Assistant([call])] + trace[p..];
  }
}
