/** Importing the same batch twice, as a client sees it. */
module Reimport {
  import opened Results
  import opened Values
  import opened CharTables
  import opened Contract
  import opened Reading
  import opened ScopeRules
  import opened Transfer
  import opened Dedup
  import opened Imports
  import opened Policy
  import opened Attribution
  import opened PolicyImports
  import opened Migration

  predicate Importable(entries: seq<Entry>) {
    entries != [] && |entries| <= 1_000
  }

  ghost predicate NewDraws(store: Store, draws: seq<Draw>) {
    && (forall k :: 0 <= k < |draws| ==> Fresh(store, draws[k].id))
    && (forall j, k :: 0 <= j < k < |draws| ==> draws[j].id != draws[k].id)
  }

  predicate NoFailure(outages: seq<Outage>) {
    forall i :: 0 <= i < |outages| ==> outages[i].Up?
  }

  predicate NoReadDown(outages: seq<Outage>) {
    forall i :: 0 <= i < |outages| ==> !outages[i].ReadDown?
  }

  /** A skip import by a writer, into a space within the export cap that policy wrote. */
  lemma SkipImportRuns(t: Tables, store: Store, key: Key, entries: seq<Entry>, draws: seq<Draw>, outages: seq<Outage>,
      names: Signers)
    returns (b: Batch, s: Import)
    requires LawfulFolding(t) && |draws| == |entries| == |outages| && Importable(entries) && NoReadDown(outages)
    requires Healthy(store, names) && key.relation == Writer && NewDraws(store, draws)
    requires |All(store, key.space)| <= MAX_EXPORT
    ensures b == ImportBatch(t, key, entries, Skip, draws, outages)
    ensures Sound(b) && Good(b, s, 0) && Smooth(b, s.done.existing.Keys, |entries|)
    ensures s.store == store && s.done.outcome.imported == []
    ensures
      var end := ImportTo(b, s, |entries|);
      ImportMemories(t, store, key, entries, "skip", draws, outages) == (end.store, Ok(end.done.outcome))
  {
    hide Healthy, Good, Sound, StorableScopes, Smooth, CheckedScope, ImportOne, Follow;
    b := ImportBatch(t, key, entries, Skip, draws, outages);
    PolicyImportIsGood(t, store, key, entries, Skip, draws, outages, names);
    s := Import(store, Start(b, store, MAX_EXPORT).value);
    StorableIsSmooth(b, s.done.existing.Keys, |entries|);
    Finishes(b, s);
  }

  lemma Finishes(b: Batch, s: Import)
    requires Sound(b) && b.mode != Duplicate && Good(b, s, 0) && Smooth(b, s.done.existing.Keys, |b.entries|)
    ensures ImportTo(b, s, |b.entries|).done.raised == None
  {
    hide ImportTo, Smooth;
    IndexStaysCoherent(b, s, |b.entries|);
  }

  lemma {:induction false} PrefixLists(a: Store, b: Store, p: string)
    requires a <= b
    ensures All(a, p) <= All(b, p)
  {
    AllConcat(a, b[|a|..], p);
    assert b == a + b[|a|..];
  }

  /** The identities that a batch would write now, did not write before, and were not stored. */
  ghost function Missing(first: Batch, again: Batch, store: Store): set<DedupKey>
    requires WellFormed(first) && WellFormed(again)
  {
    WrittenKeys(again, |again.entries|) - WrittenKeys(first,
        |first.entries|) - IndexOf(All(store, first.partition)).Keys
  }

  /** With nothing failed the first time, nothing is missing. */
  lemma {:induction false} NothingMissing(first: Batch, again: Batch, n: nat)
    requires WellFormed(first) && WellFormed(again) && n <= |first.entries| && NoFailure(first.outages)
    requires again.entries == first.entries && again.validate == first.validate
    ensures WrittenKeys(again, n) <= WrittenKeys(first, n)
    decreases n
  {
    hide Check;
    if n > 0 {
      NothingMissing(first, again, n - 1);
    }
  }

  /** A client that imports a batch again, with its index read afresh and other ids to draw, gets exactly
      one memory for each identity that failed to be written the first time and now is not; no other
      record of the store changes. If no write failed, nothing changes and nothing is imported. */
  lemma SecondImportDoesNothing(t: Tables, store: Store, key: Key, entries: seq<Entry>, draws: seq<Draw>,
      outages: seq<Outage>, draws': seq<Draw>, outages': seq<Outage>, names: Signers, after: Store, first: Outcome)
    requires LawfulFolding(t) && |entries| == |draws| == |outages| == |draws'| == |outages'| && Importable(entries)
    requires NoReadDown(outages) && NoReadDown(outages') && NewDraws(store, draws) && NewDraws(after, draws')
    requires Healthy(store, names) && Authorized(key, names) && key.relation == Writer
    requires ImportMemories(t, store, key, entries, "skip", draws, outages) == (after, Ok(first))
    requires |All(after, key.space)| <= MAX_EXPORT
    ensures store <= after && |after| - |store| == |first.imported|
    ensures
      var (again, second) := ImportMemories(t, after, key, entries, "skip", draws', outages');
      var missing := Missing(ImportBatch(t, key, entries, Skip, draws, outages),
                             ImportBatch(t, key, entries, Skip, draws', outages'), store);
      && after <= again && |again| - |after| == |missing| && second.Ok? && |second.value.imported| == |missing|
      && (NoFailure(outages) ==> again == after && second.value.imported == [])
  {
    hide Healthy, Good, Sound, Smooth, CheckedScope, ImportTo, Follow, ImportMemories, WrittenKeys, SkippedOver,
        IndexOf, All;
    ImportGrows(t, store, key, entries, draws, outages, after, first, names);
    PrefixLists(store, after, key.space);
    var b, s := SkipImportRuns(t, store, key, entries, draws, outages, names);
    ImportHealthy(t, store, key, entries, "skip", draws, outages, names);
    var b', s' := SkipImportRuns(t, after, key, entries, draws', outages', names);
    FirstCount(b, s, |entries|);
    SkipImportIsIdempotent(b, s, b', s'.done);
    if NoFailure(outages) {
      NothingMissing(b, b', |entries|);
    }
  }

  lemma FirstCount(b: Batch, s: Import, n: nat)
    requires Sound(b) && b.mode == Skip && n <= |b.entries| && Good(b, s, 0) && Smooth(b, s.done.existing.Keys, n)
    ensures
      var end := ImportTo(b, s, n);
      |end.store| - |s.store| == |end.done.outcome.imported| - |s.done.outcome.imported|
    ensures s.done.existing == IndexOf(All(s.store, b.partition))
  {
    hide ImportTo, Smooth;
    SkipImport(b, s, n);
  }

  /** No import takes a record away or moves one. */
  lemma ImportGrows(t: Tables, store: Store, key: Key, entries: seq<Entry>, draws: seq<Draw>, outages: seq<Outage>,
    after: Store, first: Outcome, names: Signers)
    requires |entries| == |draws| == |outages|
    requires ImportMemories(t, store, key, entries, "skip", draws, outages) == (after, Ok(first))
    ensures store <= after
  {
    hide ImportTo, Start, CheckedScope;
    var b := ImportBatch(t, key, entries, Skip, draws, outages);
    EntriesGrow(b, Import(store, Start(b, store, MAX_EXPORT).value), |entries|);
  }

  lemma {:induction false} EntriesGrow(b: Batch, s: Import, n: nat)
    requires WellFormed(b) && b.mode == Skip && n <= |b.entries|
    ensures s.store <= ImportTo(b, s, n).store
    decreases n
  {
    hide Check, Contract.Get;
    if n > 0 {
      EntriesGrow(b, s, n - 1);
    }
  }
}
