/** What happens when the dedup index misses a memory: the cases that its exact condition shuts out. */
module Misses {
  import opened Results
  import opened Text
  import opened Values
  import opened Contract
  import opened Reading
  import opened Transfer
  import opened Dedup

  lemma CreateNext(b: Batch, s: Import, i: nat)
    requires Sound(b) && b.mode == Skip && i < |b.entries| && DrawsFresh(b, s.store, i)
    requires Written(b, i) && !NestedScope(ScopeOf(b, i)) && EntryKey(b, i) !in s.done.existing
    ensures
      var next := ImportOne(b, s, i);
      && next.store == s.store + [NewOf(b, i)] && next.done.raised == s.done.raised
      && next.done.existing ==
        (if b.outages[i].Up? then s.done.existing[EntryKey(b, i) := NewOf(b, i).memory] else s.done.existing)
  {
    hide Check, NestedScope;
    AcceptedDraft(b, i);
    assert ImportOne(b, s, i) == CreateOne(b, s, i, EntryKey(b, i), DraftOf(b, i));
    CreateEffect(b, s, i, EntryKey(b, i), DraftOf(b, i));
  }

  /** After a create whose read back fails, the same entry again is stored a second time. */
  lemma StoredTwice(b: Batch, s: Import, i: nat)
    requires Sound(b) && b.mode == Skip && i + 1 < |b.entries| && Good(b, s, i) && b.entries[i + 1] == b.entries[i]
    requires Valid(b, i) && Storable(ScopeOf(b, i)) && EntryKey(b, i) !in s.done.existing
    requires b.outages[i].ReadDown? && b.outages[i + 1].Up?
    ensures ImportOne(b, ImportOne(b, s, i), i + 1).store == s.store + [NewOf(b, i)] + [NewOf(b, i + 1)]
    ensures KeyOf(NewOf(b, i + 1).memory) == KeyOf(NewOf(b, i).memory)
  {
    hide Check, ImportOne, NestedScope, IndexOf;
    CreateNext(b, s, i);
    ImportOneFresh(b, s, i);
    CreateNext(b, ImportOne(b, s, i), i + 1);
    AcceptedDraft(b, i);
    AcceptedDraft(b, i + 1);
    IdentityKeptIff(DraftOf(b, i), b.partition, b.draws[i].id, b.draws[i].now);
    IdentityKeptIff(DraftOf(b, i + 1), b.partition, b.draws[i + 1].id, b.draws[i + 1].now);
  }

  /** A memory stored for a scope with a null is never found under the identity its entry is looked up by. */
  lemma NullKeyStaysOut(b: Batch, store: Store, i: nat)
    requires WellFormed(b) && i < |b.entries| && Valid(b, i) && !NullFreeScope(ScopeOf(b, i))
    requires EntryKey(b, i) !in IndexOf(All(store, b.partition))
    ensures EntryKey(b, i) !in IndexOf(All(store + [NewOf(b, i)], b.partition))
  {
    hide Check, IndexOf, All;
    var r := NewOf(b, i);
    AllAppend(store, r, b.partition);
    IndexAppend(All(store, b.partition), r.memory);
    assert DraftOf(b, i).scope == ScopeOf(b, i);
    IdentityKeptIff(DraftOf(b, i), b.partition, b.draws[i].id, b.draws[i].now);
  }

  /** Two batches of the same single entry, for the same partition. */
  ghost predicate SameEntry(b: Batch, again: Batch) {
    && Sound(b) && Sound(again) && b.mode == again.mode == Skip && |b.entries| == 1
    && again.entries == b.entries && again.validate == b.validate && again.partition == b.partition
  }

  /** An entry whose scope holds a null is created by a skip import, and created again by the next, with the
      index read afresh: without a validator, dedup does not see it. */
  lemma NullScopeIsStoredAgain(b: Batch, s: Import, again: Batch, reread: Progress)
    requires SameEntry(b, again) && Written(b, 0) && Written(again, 0)
    requires !NullFreeScope(ScopeOf(b, 0)) && !NestedScope(ScopeOf(b, 0))
    requires Good(b, s, 0) && EntryKey(b, 0) !in s.done.existing
    requires Good(again, Import(ImportTo(b, s, 1).store, reread), 0)
    ensures ImportTo(b, s, 1).store == s.store + [NewOf(b, 0)]
    ensures ImportTo(again, Import(ImportTo(b, s, 1).store, reread), 1).store ==
      s.store + [NewOf(b, 0)] + [NewOf(again, 0)]
  {
    hide Check, ImportOne, NestedScope, IndexOf, All;
    FirstStep(b, s);
    CreateNext(b, s, 0);
    NullKeyStaysOut(b, s.store, 0);
    var start := Import(ImportTo(b, s, 1).store, reread);
    FirstStep(again, start);
    CreateNext(again, start, 0);
  }

  lemma FirstStep(b: Batch, s: Import)
    requires WellFormed(b) && |b.entries| > 0 && s.done.raised == None
    ensures ImportTo(b, s, 1) == ImportOne(b, s, 0)
  {
    hide ImportOne;
    assert ImportTo(b, s, 0) == s;
  }

  function NullEntry(): Entry {
    Entry(Str("x"), Object(map["run_id" := Null], ""), Null)
  }

  function NullBatch(id: string): Batch {
    Batch("p", [NullEntry()], Skip, KeepScope, None, [Draw(id, "")], [Up])
  }

  function NullRecord(id: string): Contract.Record {
    NewRecord("p", NewMemory("x", Some(map["run_id" := Null]), None, None), id, "")
  }

  lemma NullChecked(id: string)
    ensures Sound(NullBatch(id)) && Written(NullBatch(id), 0)
    ensures ScopeOf(NullBatch(id), 0) == Some(map["run_id" := Null])
    ensures EntryKey(NullBatch(id), 0) == DedupKey("x", map[]) && NewOf(NullBatch(id), 0) == NullRecord(id)
  {
    assert Strip("x") == "x";
    assert Check(KeepScope, NullEntry()) == Accepted("x", Some(map["run_id" := Null]), None);
    var scope: Fields := map["run_id" := Null];
    assert ScopeKey(Some(scope)) == map[];
  }

  lemma NullRecordIs(id: string)
    ensures
      var m := NullRecord(id).memory;
      && m.id == id && m.partition == "p" && m.scope == map["run_id" := "None"] && m.content == "x"
      && m.system == NO_SYSTEM
  {
  }

  lemma OneRecord(r: Contract.Record, p: string)
    requires r.memory.partition == p && InSpace(r.memory, p)
    ensures UniqueIds([r]) && All([r], p) == [r.memory] && AllInSpace(All([r], p), p)
    ensures forall other :: other != r.memory.id ==> Fresh([r], other)
  {
    AllAppend([], r, p);
    assert [] + [r] == [r];
  }

  /** Twice into an empty partition: the second import creates a second record. */
  lemma TwoImports(b: Batch, again: Batch)
    requires SameEntry(b, again) && Written(b, 0) && Written(again, 0) && b.draws[0].id != again.draws[0].id
    requires !NullFreeScope(ScopeOf(b, 0)) && !NestedScope(ScopeOf(b, 0)) && InSpace(NewOf(b, 0).memory, b.partition)
    ensures ImportAll(b, [], 10).0 == [NewOf(b, 0)]
    ensures ImportAll(again, [NewOf(b, 0)], 10).0 == [NewOf(b, 0), NewOf(again, 0)]
  {
    hide Check, ImportTo, ImportOne, NestedScope, InSpace, Follow;
    var once := [NewOf(b, 0)];
    OneRecord(NewOf(b, 0), b.partition);
    NullBatchStarts(b, []);
    NullBatchStarts(again, once);
    var s := Import([], Start(b, [], 10).value);
    assert EntryKey(b, 0) !in s.done.existing;
    FirstCreate(b, s);
    assert [] + once == once;
    NullScopeIsStoredAgain(b, s, again, Start(again, once, 10).value);
    assert [] + [NewOf(b, 0)] + [NewOf(again, 0)] == [NewOf(b, 0), NewOf(again, 0)];
  }

  /** For one: content `x` with scope `{"run_id": null}`, imported twice into an empty store. */
  lemma NullScopeExample()
    ensures ImportAll(NullBatch("1"), [], 10).0 == [NullRecord("1")]
    ensures ImportAll(NullBatch("2"), [NullRecord("1")], 10).0 == [NullRecord("1"), NullRecord("2")]
    ensures KeyOf(NullRecord("1").memory) == KeyOf(NullRecord("2").memory)
  {
    NullChecked("1");
    NullChecked("2");
    NullRecordIs("1");
    NullRecordIs("2");
    NullNested();
    hide Check, ImportAll, NewOf, ScopeOf, Written, EntryKey, Sound, NullRecord;
    TwoImports(NullBatch("1"), NullBatch("2"));
  }

  lemma FirstCreate(b: Batch, s: Import)
    requires Sound(b) && b.mode == Skip && |b.entries| == 1 && Good(b, s, 0)
    requires Written(b, 0) && !NestedScope(ScopeOf(b, 0)) && EntryKey(b, 0) !in s.done.existing
    ensures ImportTo(b, s, 1).store == s.store + [NewOf(b, 0)]
  {
    hide ImportOne, Check;
    FirstStep(b, s);
    CreateNext(b, s, 0);
  }

  lemma NullNested()
    ensures !NestedScope(Some(map["run_id" := Null])) && !NullFreeScope(Some(map["run_id" := Null]))
  {
    var scope: Fields := map["run_id" := Null];
    assert scope["run_id"] == Null;
  }

  lemma NullBatchStarts(b: Batch, store: Store)
    requires b.mode == Skip && UniqueIds(store) && DrawsFresh(b, store, 0) && |All(store, b.partition)| <= 10
    requires AllInSpace(All(store, b.partition), b.partition)
    ensures Start(b, store, 10).Ok? && Good(b, Import(store, Start(b, store, 10).value), 0)
  {
    hide Follow;
    FollowPager(All(store, b.partition), false, b.partition, 10);
    StartIsCoherent(b, store, 10);
  }
}
