/** An import by a key: it raises nothing, and every record it writes meets the same rules, whatever fails
    on the way and however incomplete its dedup index is. */
module PolicyImports {
  import opened Results
  import opened Values
  import opened CharTables
  import opened Metadata
  import opened ScopeRules
  import opened Contract
  import opened Text
  import opened Reading
  import opened Transfer
  import opened Dedup
  import opened Imports
  import opened Lookups
  import opened Policy
  import opened Attribution

  /** Policy's batches meet what the import theorems assume: the stamp names the space and keeps the
      creator, and no scope that the validator accepts holds a null or a nested filter. */
  lemma PolicyBatchIsSound(t: Tables, key: Key, entries: seq<Entry>, mode: Mode, draws: seq<Draw>, outages: seq<Outage>)
    requires LawfulFolding(t) && |draws| == |entries| == |outages|
    ensures
      var b := ImportBatch(t, key, entries, mode, draws, outages);
      Sound(b) && StorableScopes(b) && KeepsCreator(b)
  {
    var b := ImportBatch(t, key, entries, mode, draws, outages);
    hide CheckedScope, MetadataAccepted, ValidContent;
    forall i | 0 <= i < |b.entries| && Valid(b, i)
      ensures Storable(ScopeOf(b, i))
    {
      AcceptedKeys(t, b.entries[i].scope);
    }
  }

  /** Every indexed memory is one that is stored, under its own identity. */
  ghost predicate Current(b: Batch, s: Import) {
    forall k {:trigger k in s.done.existing} :: k in s.done.existing ==> Indexes(b, s.store, k, s.done.existing[k])
  }

  ghost predicate Indexes(b: Batch, store: Store, k: DedupKey, m: Memory) {
    && KeyOf(m) == k
    && Lookup(store, b.partition, m.id).Some? && Lookup(store, b.partition, m.id).value.memory == m
  }

  ghost predicate Sane(b: Batch, s: Import, names: Signers) {
    Healthy(s.store, names) && Current(b, s) && s.done.raised == None
  }

  /** A batch stamped by a key for its own space. */
  ghost predicate StampedBy(b: Batch, key: Key) {
    && Sound(b) && StorableScopes(b) && b.partition == key.space && b.stamp == Some(ImportStamp(key))
    && forall i :: 0 <= i < |b.entries| && Check(b.validate, b.entries[i]).Accepted? ==>
         OrElse(Check(b.validate, b.entries[i]).scope, map[]).Keys <= SCOPE_KEYS
  }

  lemma PolicyBatchIsStamped(t: Tables, key: Key, entries: seq<Entry>, mode: Mode, draws: seq<Draw>,
      outages: seq<Outage>)
    requires LawfulFolding(t) && |draws| == |entries| == |outages|
    ensures StampedBy(ImportBatch(t, key, entries, mode, draws, outages), key)
  {
    PolicyBatchIsSound(t, key, entries, mode, draws, outages);
    var b := ImportBatch(t, key, entries, mode, draws, outages);
    hide CheckedScope, MetadataAccepted, ValidContent, Sound, StorableScopes;
    forall i | 0 <= i < |b.entries| && Check(b.validate, b.entries[i]).Accepted?
      ensures OrElse(Check(b.validate, b.entries[i]).scope, map[]).Keys <= SCOPE_KEYS
    {
      AcceptedKeys(t, b.entries[i].scope);
    }
  }

  lemma AppendIndexes(b: Batch, store: Store, r: Contract.Record, k: DedupKey, m: Memory)
    requires Indexes(b, store, k, m)
    ensures Indexes(b, store + [r], k, m)
  {
    LookupAppend(store, r, b.partition, m.id);
  }

  /** Creating a record, whether or not its read back then fails. */
  lemma CreateSane(b: Batch, s: Import, i: nat, key: Key, names: Signers)
    requires StampedBy(b, key) && Authorized(key, names) && key.relation == Writer && i < |b.entries| && Valid(b, i)
    requires Sane(b, s, names) && Fresh(s.store, b.draws[i].id)
    ensures Sane(b, CreateOne(b, s, i, EntryKey(b, i), DraftOf(b, i)), names)
  {
    hide Check, RecordOk, Healthy, Size, IsValid, ValidContent, NestedScope, NullFreeScope;
    AcceptedDraft(b, i);
    if !b.outages[i].WriteDown? {
      var r := NewOf(b, i);
      AcceptedParts(b, i);
      NewOk(b.partition, DraftOf(b, i), b.draws[i].id, b.draws[i].now, key.name, names(b.partition));
      AppendHealthy(s.store, r, names);
      LookupFresh(s.store, b.partition, b.draws[i].id);
      LookupAppend(s.store, r, b.partition, b.draws[i].id);
      IdentityKeptIff(DraftOf(b, i), b.partition, b.draws[i].id, b.draws[i].now);
      var s' := CreateOne(b, s, i, EntryKey(b, i), DraftOf(b, i));
      forall k | k in s'.done.existing
        ensures Indexes(b, s'.store, k, s'.done.existing[k])
      {
        if k in s.done.existing {
          AppendIndexes(b, s.store, r, k, s.done.existing[k]);
        }
      }
    }
  }

  lemma AcceptedParts(b: Batch, i: nat)
    requires i < |b.entries| && Check(b.validate, b.entries[i]).Accepted?
    ensures MetadataKept(OrElse(Check(b.validate, b.entries[i]).metadata, map[]))
    ensures ValidContent(Check(b.validate, b.entries[i]).content)
  {
    EmptyKept();
  }

  /** What an overwrite leaves of valid metadata is the entry's, reserved keys being absent. */
  lemma OverwrittenMetadata(r: Contract.Record, metadata: Option<Fields>, names: set<string>)
    requires RecordOk(r, names) && MetadataKept(OrElse(metadata, map[]))
    ensures
      var patch := if metadata.None? then None else Some(PatchOver(r.memory.metadata, metadata.value));
      !PatchRefused(patch) && MetadataKept(PatchMetadata(r.memory.metadata, patch))
  {
    hide Size;
    if metadata.Some? {
      PatchOverIs(r.memory.metadata, metadata.value);
      assert ReservedOf(r.memory.metadata) == map[];
      assert map[] + metadata.value == metadata.value;
    }
  }

  lemma OverwriteSane(b: Batch, s: Import, i: nat, key: Key, names: Signers)
    requires StampedBy(b, key) && Authorized(key, names) && key.relation == Writer && i < |b.entries| && Valid(b, i)
    requires Sane(b, s, names) && EntryKey(b, i) in s.done.existing
    ensures
      var c := Check(b.validate, b.entries[i]);
      Sane(b, OverwriteOne(b, s, i, EntryKey(b, i), c.content, c.metadata), names)
  {
    hide Check, RecordOk, Healthy, Size, IsValid, ValidContent;
    var c := Check(b.validate, b.entries[i]);
    var k0 := EntryKey(b, i);
    var dup := s.done.existing[k0];
    assert Indexes(b, s.store, k0, dup);
    if !b.outages[i].WriteDown? {
      var change, now := OverwriteChange(b, i, dup, c.content, c.metadata), b.draws[i].now;
      var found := Lookup(s.store, b.partition, dup.id).value;
      Attribution.Read(s.store, b.partition, dup.id, names);
      AcceptedParts(b, i);
      OverwrittenMetadata(found, c.metadata, names(b.partition));
      ChangedOk(found, change, now, key.name, names(b.partition));
      ReplaceHealthy(s.store, b.partition, dup.id, change, now, names);
      var s' := OverwriteOne(b, s, i, k0, c.content, c.metadata);
      forall k | k in s'.done.existing
        ensures Indexes(b, s'.store, k, s'.done.existing[k])
      {
        LookupReplace(s.store, b.partition, dup.id, change, now, b.partition, s'.done.existing[k].id);
        if k != k0 {
          assert Indexes(b, s.store, k, s.done.existing[k]);
        }
      }
    }
  }

  lemma EntrySane(b: Batch, s: Import, i: nat, key: Key, names: Signers)
    requires StampedBy(b, key) && Authorized(key, names) && key.relation == Writer && i < |b.entries|
    requires Sane(b, s, names) && Fresh(s.store, b.draws[i].id)
    ensures Sane(b, ImportOne(b, s, i), names)
  {
    hide Check, Healthy, CreateOne, OverwriteOne, StampedBy;
    if Valid(b, i) {
      if EntryKey(b, i) in s.done.existing && b.mode == Overwrite {
        OverwriteSane(b, s, i, key, names);
      } else if !(EntryKey(b, i) in s.done.existing && b.mode == Skip) {
        CreateSane(b, s, i, key, names);
      }
    }
  }

  lemma {:induction false} EntriesSane(b: Batch, s: Import, n: nat, key: Key, names: Signers)
    requires StampedBy(b, key) && Authorized(key, names) && key.relation == Writer && n <= |b.entries|
    requires Sane(b, s, names) && DrawsFresh(b, s.store, 0)
    ensures Sane(b, ImportTo(b, s, n), names) && DrawsFresh(b, ImportTo(b, s, n).store, n)
    decreases n
  {
    hide ImportOne, Healthy, Current;
    if n > 0 {
      EntriesSane(b, s, n - 1, key, names);
      EntrySane(b, ImportTo(b, s, n - 1), n - 1, key, names);
      ImportOneFresh(b, ImportTo(b, s, n - 1), n - 1);
    }
  }

  lemma {:induction false} HealthyListing(store: Store, p: string, names: Signers)
    requires Healthy(store, names)
    ensures AllInSpace(All(store, p), p)
  {
    forall i | 0 <= i < |All(store, p)|
      ensures InSpace(All(store, p)[i], p)
    {
      var m := All(store, p)[i];
      ListedIsFound(store, p, m);
      Attribution.Read(store, p, m.id, names);
    }
  }

  lemma StartIsSane(b: Batch, store: Store, limit: nat, names: Signers)
    requires Healthy(store, names)
    ensures Start(b, store, limit).Ok? && Sane(b, Import(store, Start(b, store, limit).value), names)
  {
    hide RecordOk, Follow;
    if b.mode != Duplicate {
      var all := All(store, b.partition);
      HealthyListing(store, b.partition, names);
      FollowPager(all, false, b.partition, limit);
      var memories := Slice(all, 0, limit);
      forall k | k in IndexOf(memories)
        ensures Indexes(b, store, k, IndexOf(memories)[k])
      {
        Indexed(memories, k);
        ListedIsFound(store, b.partition, IndexOf(memories)[k]);
      }
    }
  }

  /** On a store that policy wrote, an import by a writer leaves every record within the rules, and its
      only errors are the caller's. */
  lemma ImportHealthy(t: Tables, store: Store, key: Key, entries: seq<Entry>, mode: string, draws: seq<Draw>,
      outages: seq<Outage>, names: Signers)
    requires LawfulFolding(t) && |draws| == |entries| == |outages| && Healthy(store, names) && Authorized(key, names)
    requires forall k :: 0 <= k < |draws| ==> Fresh(store, draws[k].id)
    requires forall j, k :: 0 <= j < k < |draws| ==> draws[j].id != draws[k].id
    ensures Healthy(ImportMemories(t, store, key, entries, mode, draws, outages).0, names)
    ensures FailsFairly(ImportMemories(t, store, key, entries, mode, draws, outages).1)
  {
    hide ImportTo, Healthy, Current, Start, StampedBy;
    if key.relation == Writer && ModeNamed(mode).Some? {
      var b := ImportBatch(t, key, entries, ModeNamed(mode).value, draws, outages);
      PolicyBatchIsStamped(t, key, entries, ModeNamed(mode).value, draws, outages);
      StartIsSane(b, store, MAX_EXPORT, names);
      EntriesSane(b, Import(store, Start(b, store, MAX_EXPORT).value), |entries|, key, names);
    }
  }

  /** What the import theorems start from holds of every policy import into a store that policy wrote, as
      long as the space is within the export cap. */
  lemma PolicyImportIsGood(t: Tables, store: Store, key: Key, entries: seq<Entry>, mode: Mode, draws: seq<Draw>,
      outages: seq<Outage>, names: Signers)
    requires LawfulFolding(t) && |draws| == |entries| == |outages| && Healthy(store, names) && mode != Duplicate
    requires |All(store, key.space)| <= MAX_EXPORT
    requires DrawsFresh(ImportBatch(t, key, entries, mode, draws, outages), store, 0)
    ensures
      var b := ImportBatch(t, key, entries, mode, draws, outages);
      var start := Start(b, store, MAX_EXPORT);
      && Sound(b) && StorableScopes(b) && KeepsCreator(b)
      && start.Ok? && Good(b, Import(store, start.value), 0)
  {
    hide Healthy, Follow, Good, Sound, StorableScopes, KeepsCreator, RecordOk;
    var b := ImportBatch(t, key, entries, mode, draws, outages);
    PolicyBatchIsSound(t, key, entries, mode, draws, outages);
    HealthyListing(store, key.space, names);
    FollowPager(All(store, key.space), false, key.space, MAX_EXPORT);
    HealthyUnique(store, names);
    StartIsCoherent(b, store, MAX_EXPORT);
  }

  lemma HealthyUnique(store: Store, names: Signers)
    requires Healthy(store, names)
    ensures UniqueIds(store)
  {
  }
}
