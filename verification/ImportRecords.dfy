/** Which records an import that reads the index creates, what it leaves in them, and what it reports. */
module ImportRecords {
  import opened Results
  import opened Values
  import opened Contract
  import opened Reading
  import opened Transfer
  import opened Dedup
  import opened Lookups
  import opened Imports

  // ---------- Identities along a run ----------

  lemma {:induction false} KeysAlong(b: Batch, tr: Trace, n: nat)
    requires b.mode != Duplicate && Runs(b, tr) && n < |tr|
    ensures tr[n].done.existing.Keys == tr[0].done.existing.Keys + WrittenKeys(b, n)
    decreases n
  {
    hide Check, Good;
    if n > 0 {
      KeysAlong(b, tr, n - 1);
      assert Stepped(b, tr, n - 1);
      KeysAfter(b, tr[n - 1], tr[n], tr[0].done.existing.Keys, n - 1);
    }
  }

  lemma KeysAfter(b: Batch, before: Import, after: Import, indexed: set<DedupKey>, i: nat)
    requires WellFormed(b) && b.mode != Duplicate && i < |b.entries| && Effect(b, before, after, i)
    requires before.done.existing.Keys == indexed + WrittenKeys(b, i)
    ensures after.done.existing.Keys == indexed + WrittenKeys(b, i + 1)
  {
    hide Check, NewOf, EntryChange;
  }

  /** The first entry written for an identity that was not indexed creates its record. */
  lemma CreatesAt(b: Batch, tr: Trace, i: nat)
    requires b.mode != Duplicate && Runs(b, tr) && i + 1 < |tr| && Creates(b, tr[0].done.existing.Keys, i)
    ensures KeyOf(NewOf(b, i).memory) == EntryKey(b, i)
    ensures tr[i + 1].store == tr[i].store + [NewOf(b, i)]
    ensures EntryKey(b, i) in tr[i + 1].done.existing && tr[i + 1].done.existing[EntryKey(b, i)] == NewOf(b, i).memory
  {
    hide Check, NewOf, Good;
    KeysAlong(b, tr, i);
    assert Stepped(b, tr, i);
  }

  /** An identity keeps the id of its memory from the entry that indexed it on. */
  lemma {:induction false} IdStays(b: Batch, tr: Trace, i: nat, n: nat, key: DedupKey)
    requires b.mode != Duplicate && Runs(b, tr) && i <= n < |tr| && key in tr[i].done.existing
    ensures key in tr[n].done.existing && tr[n].done.existing[key].id == tr[i].done.existing[key].id
    decreases n
  {
    hide Check, NewOf, Good, EntryChange, Stepped;
    if i < n {
      IdStays(b, tr, i, n - 1, key);
      assert Stepped(b, tr, n - 1);
      IdAfter(b, tr[n - 1], tr[n], n - 1, key) by {
        TakeStep(b, tr, n - 1);
      }
    }
  }

  lemma TakeStep(b: Batch, tr: Trace, k: nat)
    requires Runs(b, tr) && k + 1 < |tr|
    ensures k < |b.entries| && Good(b, tr[k], k) && Effect(b, tr[k], tr[k + 1], k)
  {
    hide Good, Effect;
    assert Stepped(b, tr, k);
  }

  lemma IdAfter(b: Batch, before: Import, after: Import, i: nat, key: DedupKey)
    requires WellFormed(b) && i < |b.entries| && Effect(b, before, after, i) && key in before.done.existing
    ensures key in after.done.existing && after.done.existing[key].id == before.done.existing[key].id
  {
    hide Check, NewOf, EntryChange;
  }

  // ---------- Skip: what is created stays as it was created ----------

  lemma {:induction false} SkipGrows(b: Batch, tr: Trace, i: nat, n: nat)
    requires b.mode == Skip && Runs(b, tr) && i <= n < |tr|
    ensures tr[i].store <= tr[n].store
    decreases n
  {
    hide Check, NewOf, Good;
    if i < n {
      SkipGrows(b, tr, i, n - 1);
      TakeStep(b, tr, n - 1);
    }
  }

  lemma {:induction false} FoundAt(store: Store, j: nat)
    requires UniqueIds(store) && j < |store|
    ensures Lookup(store, store[j].memory.partition, store[j].memory.id) == Some(store[j])
    decreases |store|
  {
    if j > 0 {
      UniqueTail(store);
      FoundAt(store[1..], j - 1);
    }
  }

  lemma SkipCreated(b: Batch, tr: Trace, i: nat, n: nat)
    requires b.mode == Skip && Runs(b, tr) && i < n < |tr| && Creates(b, tr[0].done.existing.Keys, i)
    requires UniqueIds(tr[n].store)
    ensures Lookup(tr[n].store, b.partition, b.draws[i].id) == Some(NewOf(b, i))
  {
    hide UniqueIds, Check, EntryKey;
    CreatesAt(b, tr, i);
    SkipGrows(b, tr, i + 1, n);
    assert tr[n].store[|tr[i].store|] == NewOf(b, i);
    FoundAt(tr[n].store, |tr[i].store|);
  }

  // ---------- Overwrite: how many are created, and in whose name ----------

  /** How many identities the first `n` entries write that were not indexed. */
  ghost function NewCount(b: Batch, indexed: set<DedupKey>, n: nat): nat
    requires WellFormed(b) && n <= |b.entries|
  {
    |WrittenKeys(b, n) - indexed|
  }

  lemma {:induction false} OverwriteCount(b: Batch, tr: Trace, n: nat, indexed: set<DedupKey>)
    requires b.mode == Overwrite && Runs(b, tr) && n < |tr| && indexed == tr[0].done.existing.Keys
    ensures |tr[n].store| == |tr[0].store| + NewCount(b, indexed, n)
    decreases n
  {
    hide Check, Effect, Runs, Good, WrittenKeys, NewCount;
    RunLength(b, tr);
    if n == 0 {
      NoneWritten(b, indexed);
    } else {
      OverwriteCount(b, tr, n - 1, indexed);
      KeysAlong(b, tr, n - 1);
      TakeStep(b, tr, n - 1);
      CountAfter(b, tr[n - 1], tr[n], indexed, n - 1);
    }
  }

  lemma RunLength(b: Batch, tr: Trace)
    requires Runs(b, tr)
    ensures WellFormed(b) && 0 < |tr| <= |b.entries| + 1
  {
  }

  lemma NoneWritten(b: Batch, indexed: set<DedupKey>)
    requires WellFormed(b)
    ensures NewCount(b, indexed, 0) == 0
  {
    assert WrittenKeys(b, 0) - indexed == {};
  }

  lemma CountAfter(b: Batch, before: Import, after: Import, indexed: set<DedupKey>, i: nat)
    requires WellFormed(b) && b.mode == Overwrite && i < |b.entries| && Effect(b, before, after, i)
    requires Good(b, before, i) && before.done.existing.Keys == indexed + WrittenKeys(b, i)
    ensures |after.store| == |before.store| + NewCount(b, indexed, i + 1) - NewCount(b, indexed, i)
  {
    hide Check, NewOf, EntryChange, UniqueIds, Coherent, AllInSpace, DrawsFresh;
    if Written(b, i) {
      var key := EntryKey(b, i);
      if key in before.done.existing {
        var dup := before.done.existing[key];
        UniqueAfterReplace(before.store, b.partition, dup.id, EntryChange(b, i, dup), b.draws[i].now);
        assert WrittenKeys(b, i + 1) - indexed == WrittenKeys(b, i) - indexed;
      } else {
        NewKey(WrittenKeys(b, i), indexed, key);
      }
    }
  }

  /** A stamp that names its author, and the creator of what is new, as policy's does. */
  ghost predicate Signs(b: Batch, name: string) {
    && b.stamp.Some?
    && (forall i, stored :: b.stamp.value(i, stored).author == Some(name))
    && (forall i :: b.stamp.value(i, None).createdBy == Some(name))
  }

  ghost predicate InName(b: Batch, indexed: set<DedupKey>, s: Import, key: DedupKey, name: string) {
    && key in s.done.existing && s.done.existing[key].system.author == Some(name)
    && (key !in indexed ==> s.done.existing[key].system.createdBy == Some(name))
  }

  lemma {:induction false} InNameAlong(b: Batch, tr: Trace, n: nat, key: DedupKey, name: string)
    requires b.mode == Overwrite && KeepsCreator(b) && Signs(b, name) && Runs(b, tr) && n < |tr| && key in WrittenKeys(b, n)
    ensures InName(b, tr[0].done.existing.Keys, tr[n], key, name)
    decreases n
  {
    hide Check, Effect, Good, KeepsCreator, Signs, InName;
    TakeStep(b, tr, n - 1);
    if key in WrittenKeys(b, n - 1) {
      InNameAlong(b, tr, n - 1, key, name);
      InNameAfter(b, tr[0].done.existing.Keys, tr[n - 1], tr[n], n - 1, key, name);
    } else {
      KeysAlong(b, tr, n - 1);
      FirstName(b, tr[0].done.existing.Keys, tr[n - 1], tr[n], n - 1, key, name);
    }
  }

  lemma InNameAfter(b: Batch, indexed: set<DedupKey>, before: Import, after: Import, i: nat, key: DedupKey, name: string)
    requires WellFormed(b) && b.mode == Overwrite && KeepsCreator(b) && Signs(b, name) && i < |b.entries|
    requires Effect(b, before, after, i) && InName(b, indexed, before, key, name)
    ensures InName(b, indexed, after, key, name)
  {
    hide Check, KeyOf, NewOf;
  }

  lemma FirstName(b: Batch, indexed: set<DedupKey>, before: Import, after: Import, i: nat, key: DedupKey, name: string)
    requires WellFormed(b) && b.mode == Overwrite && KeepsCreator(b) && Signs(b, name) && i < |b.entries|
    requires Effect(b, before, after, i) && Written(b, i) && EntryKey(b, i) == key
    requires before.done.existing.Keys == indexed + WrittenKeys(b, i) && key !in WrittenKeys(b, i)
    ensures InName(b, indexed, after, key, name)
  {
    hide Check, KeyOf;
  }

  // ---------- The report ----------

  /** What is reported, each entry under its own position: a failure with its reason, a skip or an import
      with the id of the memory that now has the entry's identity. */
  ghost predicate Reports(b: Batch, o: Outcome, existing: Index, i: nat)
    requires WellFormed(b) && i < |b.entries|
  {
    if !Valid(b, i) then Failed(i, Check(b.validate, b.entries[i]).error) in o.errors
    else
      var key := EntryKey(b, i);
      || (b.outages[i].WriteDown? && Failed(i, BackendFailure(b.outages[i].status)) in o.errors)
      || (key in existing && b.mode == Skip && existing[key].id != b.draws[i].id && Skipped(i, existing[key].id) in o.skipped)
      || (key in existing && !b.outages[i].WriteDown? &&
          if existing[key].id == b.draws[i].id then Imported(existing[key].id, i, Created) in o.imported
          else b.mode == Overwrite && Imported(existing[key].id, i, Updated) in o.imported)
  }

  ghost predicate Lengthens(o: Outcome, o': Outcome) {
    o.imported <= o'.imported && o.skipped <= o'.skipped && o.errors <= o'.errors
  }

  ghost predicate DrawIsNew(b: Batch, s: Import, i: nat)
    requires WellFormed(b) && i < |b.entries|
  {
    forall k :: k in s.done.existing ==> s.done.existing[k].id != b.draws[i].id
  }

  lemma IndexedIdsAreOld(b: Batch, s: Import, i: nat)
    requires WellFormed(b) && i < |b.entries| && Good(b, s, i)
    ensures DrawIsNew(b, s, i)
  {
    hide AllInSpace;
    forall k | k in s.done.existing
      ensures s.done.existing[k].id != b.draws[i].id
    {
      Indexed(All(s.store, b.partition), k);
      ListedIsFound(s.store, b.partition, s.done.existing[k]);
      LookupIn(s.store, b.partition, s.done.existing[k].id);
    }
  }

  lemma ReportMatch(b: Batch, s: Import, i: nat)
    requires Sound(b) && b.mode != Duplicate && i < |b.entries| && Good(b, s, i)
    requires Valid(b, i) && EntryKey(b, i) in s.done.existing
    ensures
      var s' := ImportOne(b, s, i);
      Reports(b, s'.done.outcome, s'.done.existing, i) && Lengthens(s.done.outcome, s'.done.outcome)
  {
    hide Check, Coherent, UniqueIds, AllInSpace, DrawsFresh;
    AcceptedDraft(b, i);
    IndexedIdsAreOld(b, s, i);
    if b.mode == Overwrite && Written(b, i) {
      OverwriteEffect(b, s, i, EntryKey(b, i), DraftOf(b, i).content, DraftOf(b, i).metadata);
    }
  }

  lemma ReportNew(b: Batch, s: Import, i: nat)
    requires Sound(b) && b.mode != Duplicate && i < |b.entries| && Good(b, s, i)
    requires Valid(b, i) && EntryKey(b, i) !in s.done.existing
    requires Written(b, i) ==> b.outages[i].Up? && !NestedScope(ScopeOf(b, i))
    ensures
      var s' := ImportOne(b, s, i);
      Reports(b, s'.done.outcome, s'.done.existing, i) && Lengthens(s.done.outcome, s'.done.outcome)
  {
    hide Check, NestedScope, Coherent, UniqueIds, AllInSpace;
    AcceptedDraft(b, i);
    assert ImportOne(b, s, i) == CreateOne(b, s, i, EntryKey(b, i), DraftOf(b, i));
    if Written(b, i) {
      CreateEffect(b, s, i, EntryKey(b, i), DraftOf(b, i));
    }
  }

  /** An entry adds itself to one of the three lists. */
  lemma ReportStep(b: Batch, s: Import, indexed: set<DedupKey>, i: nat)
    requires Sound(b) && b.mode != Duplicate && i < |b.entries| && InStep(b, s, indexed, i)
    requires !Slips(b, indexed, i) && !Ends(b, indexed, i)
    ensures
      var s' := ImportOne(b, s, i);
      Reports(b, s'.done.outcome, s'.done.existing, i) && Lengthens(s.done.outcome, s'.done.outcome)
  {
    hide Check, NestedScope, Good, EntryKey, ScopeOf;
    if Valid(b, i) {
      hide ImportOne, Reports;
      if EntryKey(b, i) in s.done.existing {
        ReportMatch(b, s, i);
      } else {
        ReportNew(b, s, i);
      }
    }
  }

  /** An entry stays reported, and as what the final index says, however the import goes on. */
  lemma StaysReported(b: Batch, o: Outcome, o': Outcome, existing: Index, existing': Index, i: nat)
    requires WellFormed(b) && i < |b.entries| && Reports(b, o, existing, i) && Lengthens(o, o')
    requires Valid(b, i) && EntryKey(b, i) in existing ==>
      EntryKey(b, i) in existing' && existing'[EntryKey(b, i)].id == existing[EntryKey(b, i)].id
    ensures Reports(b, o', existing', i)
  {
    hide Check, EntryKey;
  }

  /** In an import that reads the index and runs smoothly, every entry is reported as what became of it. */
  lemma {:induction false} EachReported(b: Batch, s: Import, n: nat, i: nat)
    requires Sound(b) && b.mode != Duplicate && i < n <= |b.entries| && Good(b, s, 0)
    requires Smooth(b, s.done.existing.Keys, n)
    ensures
      var end := ImportTo(b, s, n);
      Reports(b, end.done.outcome, end.done.existing, i)
    decreases n
  {
    hide Check, ImportOne, Slips, Ends, Good, Reports, Lengthens, Effect, InStep, EntryKey;
    var before := ImportTo(b, s, n - 1);
    IndexStaysCoherent(b, s, n - 1);
    var after := NthStep(b, s, n - 1);
    NotRaised(b, before, s.done.existing.Keys, n - 1);
    ReportStep(b, before, s.done.existing.Keys, n - 1);
    if i < n - 1 {
      EachReported(b, s, n - 1, i);
      if Valid(b, i) && EntryKey(b, i) in before.done.existing {
        IdAfter(b, before, after, n - 1, EntryKey(b, i));
      }
      StaysReported(b, before.done.outcome, after.done.outcome, before.done.existing, after.done.existing, i);
    }
  }

  lemma NotRaised(b: Batch, s: Import, indexed: set<DedupKey>, n: nat)
    requires WellFormed(b) && n <= |b.entries| && InStep(b, s, indexed, n)
    ensures s.done.raised == None
  {
  }
}
