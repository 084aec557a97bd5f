/** The dedup index stays exactly what it would be if it were rebuilt from the store. */
module Dedup {
  import opened Results
  import opened Text
  import opened Values
  import opened Metadata
  import opened Contract
  import opened Reading
  import opened Transfer

  /** Every memory of a partition, in order. */
  function All(store: Store, partition: string): seq<Memory> {
    Listing(store, partition, None)
  }

  // ---------- What one write does to the partition's list ----------

  lemma {:induction false} AllAppend(store: Store, r: Contract.Record, partition: string)
    ensures All(store + [r], partition) ==
      if r.memory.partition == partition then All(store, partition) + [r.memory] else All(store, partition)
    decreases |store|
  {
    if store == [] {
      assert store + [r] == [r];
    } else {
      assert (store + [r])[1..] == store[1..] + [r];
      AllAppend(store[1..], r, partition);
    }
  }

  function SetMemory(memories: seq<Memory>, id: string, m: Memory): seq<Memory> {
    seq(|memories|, i requires 0 <= i < |memories| => if memories[i].id == id then m else memories[i])
  }

  lemma {:induction false} NotListed(store: Store, partition: string, id: string)
    requires forall i :: 0 <= i < |store| ==> store[i].memory.id != id
    ensures forall i :: 0 <= i < |All(store, partition)| ==> All(store, partition)[i].id != id
    decreases |store|
  {
    hide InScope;
    if store != [] {
      assert forall i :: 0 <= i < |store[1..]| ==> store[1..][i] == store[i + 1];
      NotListed(store[1..], partition, id);
      var rest := All(store[1..], partition);
      assert forall i :: 0 <= i < |rest| ==> ([store[0].memory] + rest)[i + 1] == rest[i];
    }
  }

  lemma {:induction false} UniqueTail(store: Store)
    requires UniqueIds(store) && store != []
    ensures UniqueIds(store[1..]) && forall i :: 0 <= i < |store[1..]| ==> store[1..][i].memory.id != store[0].memory.id
  {
    assert forall i :: 0 <= i < |store[1..]| ==> store[1..][i] == store[i + 1];
  }

  lemma {:induction false} AllReplace(store: Store, partition: string, id: string, change: Change, now: string)
    requires UniqueIds(store) && Lookup(store, partition, id).Some?
    ensures All(Replace(store, partition, id, change, now), partition) ==
      SetMemory(All(store, partition), id, ChangedMemory(Lookup(store, partition, id).value.memory, change, now))
    decreases |store|
  {
    UniqueTail(store);
    var m := ChangedMemory(Lookup(store, partition, id).value.memory, change, now);
    if Owned(store[0], partition, id) {
      NotListed(store[1..], partition, id);
      assert SetMemory(All(store[1..], partition), id, m) == All(store[1..], partition);
      assert SetMemory(All(store, partition), id, m) == [m] + All(store[1..], partition);
    } else {
      AllReplace(store[1..], partition, id, change, now);
      var rest := Replace(store[1..], partition, id, change, now);
      assert ([store[0]] + rest)[1..] == rest;
      if store[0].memory.partition == partition {
        assert SetMemory(All(store, partition), id, m) == [store[0].memory] + SetMemory(All(store[1..], partition), id, m);
      }
    }
  }

  lemma {:induction false} ListedIsFound(store: Store, partition: string, m: Memory)
    requires UniqueIds(store) && m in All(store, partition)
    ensures Lookup(store, partition, m.id).Some? && Lookup(store, partition, m.id).value.memory == m
    decreases |store|
  {
    UniqueTail(store);
    if !(store[0].memory.partition == partition && store[0].memory == m) {
      ListedIsFound(store[1..], partition, m);
      if store[0].memory.id == m.id {
        NotListed(store[1..], partition, m.id);
      }
    }
  }

  lemma {:induction false} UniqueListed(store: Store, partition: string)
    requires UniqueIds(store)
    ensures DistinctIds(All(store, partition))
    decreases |store|
  {
    hide InScope;
    if store != [] {
      UniqueTail(store);
      UniqueListed(store[1..], partition);
      NotListed(store[1..], partition, store[0].memory.id);
      OneMoreDistinct(store[0].memory, All(store[1..], partition));
    }
  }

  lemma OneMoreDistinct(m: Memory, rest: seq<Memory>)
    requires DistinctIds(rest) && forall i :: 0 <= i < |rest| ==> rest[i].id != m.id
    ensures DistinctIds([m] + rest)
  {
  }

  predicate SameIds(a: Store, b: Store) {
    |a| == |b| && forall i :: 0 <= i < |a| ==> a[i].memory.id == b[i].memory.id
  }

  lemma {:induction false} ReplaceAt(store: Store, partition: string, id: string, change: Change, now: string)
    requires UniqueIds(store)
    ensures |Replace(store, partition, id, change, now)| == |store|
    ensures forall i :: 0 <= i < |store| ==>
      Replace(store, partition, id, change, now)[i] ==
        (if Owned(store[i], partition, id) then Contract.Changed(store[i], change, now) else store[i])
    decreases |store|
  {
    hide Contract.Changed;
    if store != [] {
      UniqueTail(store);
      if !Owned(store[0], partition, id) {
        ReplaceAt(store[1..], partition, id, change, now);
      }
    }
  }

  lemma UniqueAfterReplace(store: Store, partition: string, id: string, change: Change, now: string)
    requires UniqueIds(store)
    ensures UniqueIds(Replace(store, partition, id, change, now))
    ensures |Replace(store, partition, id, change, now)| == |store|
    ensures forall i :: 0 <= i < |store| ==>
      Replace(store, partition, id, change, now)[i] ==
        (if Owned(store[i], partition, id) then Contract.Changed(store[i], change, now) else store[i])
  {
    hide Replace;
    ReplaceAt(store, partition, id, change, now);
    var next := Replace(store, partition, id, change, now);
    assert SameIds(next, store);
  }

  // ---------- The index ----------

  lemma {:induction false} Indexed(memories: seq<Memory>, key: DedupKey)
    ensures key in IndexOf(memories) <==> exists i :: 0 <= i < |memories| && KeyOf(memories[i]) == key
    ensures key in IndexOf(memories) ==> IndexOf(memories)[key] in memories && KeyOf(IndexOf(memories)[key]) == key
    decreases |memories|
  {
    if memories != [] {
      var front, last := memories[..|memories| - 1], memories[|memories| - 1];
      Indexed(front, key);
      assert memories == front + [last];
    }
  }

  ghost predicate DistinctIds(memories: seq<Memory>) {
    forall i, j :: 0 <= i < j < |memories| ==> memories[i].id != memories[j].id
  }

  /** Rewriting the indexed memory of an identity, identity kept, rewrites its entry of the index. */
  lemma {:induction false} IndexSet(memories: seq<Memory>, key: DedupKey, m: Memory)
    requires DistinctIds(memories) && key in IndexOf(memories) && KeyOf(m) == key
    ensures IndexOf(SetMemory(memories, IndexOf(memories)[key].id, m)) == IndexOf(memories)[key := m]
    decreases |memories|
  {
    hide SetMemory;
    var id := IndexOf(memories)[key].id;
    var front, last := memories[..|memories| - 1], memories[|memories| - 1];
    SetLast(memories, id, m);
    if last.id == id {
      SameWithout(memories, id, m);
      Indexed(memories, key);
      UniqueId(memories, IndexOf(memories)[key]);
    } else {
      Indexed(memories, key);
      IndexSet(front, key, m);
    }
  }

  lemma SetLast(memories: seq<Memory>, id: string, m: Memory)
    requires memories != []
    ensures
      var front, last := memories[..|memories| - 1], memories[|memories| - 1];
      SetMemory(memories, id, m) == SetMemory(front, id, m) + [if last.id == id then m else last]
  {
  }

  lemma SameWithout(memories: seq<Memory>, id: string, m: Memory)
    requires DistinctIds(memories) && memories != [] && memories[|memories| - 1].id == id
    ensures SetMemory(memories[..|memories| - 1], id, m) == memories[..|memories| - 1]
  {
  }

  lemma UniqueId(memories: seq<Memory>, m: Memory)
    requires DistinctIds(memories) && memories != [] && m in memories && memories[|memories| - 1].id == m.id
    ensures m == memories[|memories| - 1]
  {
  }

  lemma IndexAppend(memories: seq<Memory>, m: Memory)
    ensures IndexOf(memories + [m]) == IndexOf(memories)[KeyOf(m) := m]
  {
    assert (memories + [m])[..|memories|] == memories;
  }

  // ---------- Valid and written entries ----------

  ghost predicate Valid(b: Batch, i: nat)
    requires i < |b.entries|
  {
    Check(b.validate, b.entries[i]).Accepted?
  }

  ghost function EntryKey(b: Batch, i: nat): DedupKey
    requires i < |b.entries| && Valid(b, i)
  {
    var c := Check(b.validate, b.entries[i]);
    DedupKey(c.content, ScopeKey(c.scope))
  }

  ghost function ScopeOf(b: Batch, i: nat): Option<Fields>
    requires i < |b.entries| && Valid(b, i)
  {
    Check(b.validate, b.entries[i]).scope
  }

  ghost function DraftOf(b: Batch, i: nat): NewMemory
    requires i < |b.entries| && Valid(b, i)
  {
    var c := Check(b.validate, b.entries[i]);
    Draft(b, i, c.content, c.scope, c.metadata)
  }

  ghost function NewOf(b: Batch, i: nat): Contract.Record
    requires WellFormed(b) && i < |b.entries| && Valid(b, i)
  {
    NewRecord(b.partition, DraftOf(b, i), b.draws[i].id, b.draws[i].now)
  }

  /** A valid entry whose write, should it come to one, goes through. */
  ghost predicate Written(b: Batch, i: nat)
    requires WellFormed(b) && i < |b.entries|
  {
    Valid(b, i) && !b.outages[i].WriteDown?
  }

  /** The distinct identities among the written entries of the first `n`. */
  ghost function WrittenKeys(b: Batch, n: nat): set<DedupKey>
    requires WellFormed(b) && n <= |b.entries|
  {
    if n == 0 then {}
    else if Written(b, n - 1) then WrittenKeys(b, n - 1) + {EntryKey(b, n - 1)}
    else WrittenKeys(b, n - 1)
  }

  // ---------- What is assumed of a batch, and what is not ----------

  /** A stamp that names the space, as policy's and migration's do. */
  ghost predicate Sound(b: Batch) {
    && WellFormed(b)
    && (b.stamp.Some? ==> forall i, stored :: b.stamp.value(i, stored).space == Some(Str(b.partition)))
  }

  predicate NullFreeScope(scope: Option<Fields>) {
    scope.None? || NullFree(scope.value)
  }

  /** Whether entry `i` is one to create, given the identities indexed before the import. */
  ghost predicate Creates(b: Batch, indexed: set<DedupKey>, i: nat)
    requires WellFormed(b) && i < |b.entries|
  {
    Written(b, i) && EntryKey(b, i) !in indexed + WrittenKeys(b, i)
  }

  /** An entry that the store takes and the index misses: its read back fails, or its scope holds a null,
      which the dedup key leaves out and the store keeps as text. */
  ghost predicate Slips(b: Batch, indexed: set<DedupKey>, i: nat)
    requires WellFormed(b) && i < |b.entries|
  {
    && Creates(b, indexed, i) && !NestedScope(ScopeOf(b, i))
    && (b.outages[i].ReadDown? || !NullFreeScope(ScopeOf(b, i)))
  }

  /** An entry whose nested scope the store refuses with an error that ends the import. */
  ghost predicate Ends(b: Batch, indexed: set<DedupKey>, i: nat)
    requires WellFormed(b) && i < |b.entries|
  {
    Creates(b, indexed, i) && NestedScope(ScopeOf(b, i))
  }

  ghost predicate Smooth(b: Batch, indexed: set<DedupKey>, n: nat)
    requires WellFormed(b) && n <= |b.entries|
  {
    forall i :: 0 <= i < n ==> !Slips(b, indexed, i) && !Ends(b, indexed, i)
  }

  /** No entry slips before one ends the import. */
  ghost predicate NeverSlips(b: Batch, indexed: set<DedupKey>, n: nat)
    requires WellFormed(b) && n <= |b.entries|
  {
    forall i :: 0 <= i < n && NoneEnds(b, indexed, i) ==> !Slips(b, indexed, i)
  }

  ghost predicate NoneEnds(b: Batch, indexed: set<DedupKey>, n: nat)
    requires WellFormed(b) && n <= |b.entries|
  {
    forall i :: 0 <= i < n ==> !Ends(b, indexed, i)
  }

  /** What policy's validator makes of every scope. */
  predicate Storable(scope: Option<Fields>) {
    NullFreeScope(scope) && !NestedScope(scope)
  }

  ghost predicate StorableScopes(b: Batch) {
    forall i :: 0 <= i < |b.entries| && Valid(b, i) ==> Storable(ScopeOf(b, i))
  }

  /** The store never fails a read that follows a create. */
  ghost predicate ReadsBack(b: Batch) {
    forall i :: 0 <= i < |b.outages| ==> !b.outages[i].ReadDown?
  }

  /** Policy's batches run smoothly into a store that reads back, whatever was indexed. */
  lemma StorableIsSmooth(b: Batch, indexed: set<DedupKey>, n: nat)
    requires WellFormed(b) && StorableScopes(b) && ReadsBack(b) && n <= |b.entries|
    ensures Smooth(b, indexed, n)
  {
    hide Check, WrittenKeys, NestedScope, NullFreeScope;
  }

  ghost predicate Coherent(b: Batch, s: Import) {
    s.done.existing == IndexOf(All(s.store, b.partition))
  }

  /** The state before entry `n`. */
  ghost predicate Good(b: Batch, s: Import, n: nat) {
    && UniqueIds(s.store) && DrawsFresh(b, s.store, n)
    && Coherent(b, s) && AllInSpace(All(s.store, b.partition), b.partition)
    && s.done.raised == None
  }

  // ---------- Steps ----------

  /** A memory is stored under the identity its entry was looked up by exactly when its scope holds no
      null. */
  lemma IdentityKeptIff(draft: NewMemory, partition: string, id: string, now: string)
    ensures KeyOf(NewRecord(partition, draft, id, now).memory) == DedupKey(draft.content, ScopeKey(draft.scope)) <==>
      NullFreeScope(draft.scope)
  {
    if !NullFreeScope(draft.scope) {
      var k :| k in draft.scope.value && draft.scope.value[k] == Null;
      assert k in ScopeAsText(draft.scope.value) && k !in ScopeKey(draft.scope);
    }
  }

  lemma {:induction false} LookupAppended(store: Store, r: Contract.Record)
    requires Fresh(store, r.memory.id)
    ensures Lookup(store + [r], r.memory.partition, r.memory.id) == Some(r)
    decreases |store|
  {
    if store == [] {
      assert store + [r] == [r];
    } else {
      assert (store + [r])[1..] == store[1..] + [r];
      assert forall i :: 0 <= i < |store[1..]| ==> store[1..][i] == store[i + 1];
      LookupAppended(store[1..], r);
    }
  }

  ghost predicate InOwnSpace(draft: NewMemory, partition: string) {
    OrElse(draft.system, NO_SYSTEM).space in {None, Some(Str(partition))}
  }

  /** A create that the store takes: one record more, and if it reads back, an index entry under the
      identity it was looked up by. */
  lemma CreateEffect(b: Batch, s: Import, i: nat, key: DedupKey, draft: NewMemory)
    requires i < |b.draws| == |b.outages| && !b.outages[i].WriteDown? && Fresh(s.store, b.draws[i].id)
    requires AddRefusal(draft).None? && InOwnSpace(draft, b.partition)
    ensures
      var r := NewRecord(b.partition, draft, b.draws[i].id, b.draws[i].now);
      var s' := CreateOne(b, s, i, key, draft);
      && s'.store == s.store + [r] && s'.done.raised == s.done.raised
      && s'.done.existing == (if b.outages[i].Up? then s.done.existing[key := r.memory] else s.done.existing)
      && |s'.done.outcome.imported| == |s.done.outcome.imported| + (if b.outages[i].Up? then 1 else 0)
  {
    LookupAppended(s.store, NewRecord(b.partition, draft, b.draws[i].id, b.draws[i].now));
  }

  lemma AppendKeeps(store: Store, existing: Index, partition: string, r: Contract.Record)
    requires UniqueIds(store) && Fresh(store, r.memory.id) && r.memory.partition == partition
    requires InSpace(r.memory, partition)
    requires existing == IndexOf(All(store, partition)) && AllInSpace(All(store, partition), partition)
    ensures UniqueIds(store + [r]) && AllInSpace(All(store + [r], partition), partition)
    ensures existing[KeyOf(r.memory) := r.memory] == IndexOf(All(store + [r], partition))
  {
    hide All, IndexOf, InSpace;
    AllAppend(store, r, partition);
    IndexAppend(All(store, partition), r.memory);
  }

  lemma CreateKeeps(b: Batch, s: Import, i: nat, draft: NewMemory)
    requires Good(b, s, i) && i < |b.draws| == |b.outages| && !b.outages[i].ReadDown?
    requires AddRefusal(draft).None? && InOwnSpace(draft, b.partition) && NullFreeScope(draft.scope)
    ensures
      var s' := CreateOne(b, s, i, DedupKey(draft.content, ScopeKey(draft.scope)), draft);
      && UniqueIds(s'.store) && Coherent(b, s')
      && AllInSpace(All(s'.store, b.partition), b.partition) && s'.done.raised == None
  {
    hide AddRefusal, IndexOf, All, ScopeKey;
    if b.outages[i].Up? {
      CreateEffect(b, s, i, DedupKey(draft.content, ScopeKey(draft.scope)), draft);
      IdentityKeptIff(draft, b.partition, b.draws[i].id, b.draws[i].now);
      hide CreateOne;
      AppendKeeps(s.store, s.done.existing, b.partition, NewRecord(b.partition, draft, b.draws[i].id, b.draws[i].now));
    }
  }

  /** A create that slips: the index, whatever it then holds, is not the store's. */
  lemma CreateBreaks(b: Batch, s: Import, i: nat, draft: NewMemory)
    requires Good(b, s, i) && i < |b.draws| == |b.outages| && !b.outages[i].WriteDown?
    requires AddRefusal(draft).None? && InOwnSpace(draft, b.partition)
    requires DedupKey(draft.content, ScopeKey(draft.scope)) !in s.done.existing
    requires b.outages[i].ReadDown? || !NullFreeScope(draft.scope)
    ensures !Coherent(b, CreateOne(b, s, i, DedupKey(draft.content, ScopeKey(draft.scope)), draft))
  {
    hide AddRefusal, ScopeKey, IndexOf, All;
    var key := DedupKey(draft.content, ScopeKey(draft.scope));
    var r := NewRecord(b.partition, draft, b.draws[i].id, b.draws[i].now);
    CreateEffect(b, s, i, key, draft);
    hide CreateOne;
    AppendKeeps(s.store, s.done.existing, b.partition, r);
    IdentityKeptIff(draft, b.partition, b.draws[i].id, b.draws[i].now);
    NotIndexed(s.store, b.partition, r.memory);
    assert r.memory.id == b.draws[i].id;
    if b.outages[i].Up? {
      assert key !in s.done.existing[KeyOf(r.memory) := r.memory];
    } else {
      assert s.done.existing[KeyOf(r.memory) := r.memory][KeyOf(r.memory)] == r.memory;
    }
  }

  lemma NotIndexed(store: Store, partition: string, m: Memory)
    requires Fresh(store, m.id)
    ensures forall k :: k in IndexOf(All(store, partition)) ==> IndexOf(All(store, partition))[k] != m
  {
    NotListed(store, partition, m.id);
    forall k | k in IndexOf(All(store, partition))
      ensures IndexOf(All(store, partition))[k] != m
    {
      Indexed(All(store, partition), k);
    }
  }

  /** Creating keeps the index in step if and only if the write fails, the store refuses the draft, or the
      memory reads back and its scope holds no null. */
  lemma CreateCoherentIff(b: Batch, s: Import, i: nat, draft: NewMemory)
    requires Good(b, s, i) && i < |b.draws| == |b.outages| && InOwnSpace(draft, b.partition)
    requires DedupKey(draft.content, ScopeKey(draft.scope)) !in s.done.existing
    ensures Coherent(b, CreateOne(b, s, i, DedupKey(draft.content, ScopeKey(draft.scope)), draft)) <==>
      (b.outages[i].WriteDown? || AddRefusal(draft).Some? || (b.outages[i].Up? && NullFreeScope(draft.scope)))
  {
    if !b.outages[i].WriteDown? && AddRefusal(draft).None? {
      hide CreateOne, Good, Coherent;
      if b.outages[i].Up? && NullFreeScope(draft.scope) {
        CreateKeeps(b, s, i, draft);
      } else {
        CreateBreaks(b, s, i, draft);
      }
    }
  }

  /** An overwrite that the store takes: the indexed memory rewritten where it stands. */
  lemma OverwriteEffect(b: Batch, s: Import, i: nat, key: DedupKey, content: string, metadata: Option<Fields>)
    requires Good(b, s, i) && i < |b.draws| == |b.outages| && !b.outages[i].WriteDown? && key in s.done.existing
    requires metadata.Some? ==> IsValid(metadata.value, false)
    requires Sound(b)
    ensures
      var dup := s.done.existing[key];
      var change := OverwriteChange(b, i, dup, content, metadata);
      var m := ChangedMemory(dup, change, b.draws[i].now);
      var s' := OverwriteOne(b, s, i, key, content, metadata);
      && dup in All(s.store, b.partition) && KeyOf(dup) == key && InSpace(m, b.partition)
      && Lookup(s.store, b.partition, dup.id).Some? && Lookup(s.store, b.partition, dup.id).value.memory == dup
      && s'.store == Replace(s.store, b.partition, dup.id, change, b.draws[i].now)
      && s'.done.existing == s.done.existing[key := m] && s'.done.raised == s.done.raised
      && |s'.done.outcome.imported| == |s.done.outcome.imported| + 1
  {
    var dup := s.done.existing[key];
    Indexed(All(s.store, b.partition), key);
    ListedIsFound(s.store, b.partition, dup);
    var change := OverwriteChange(b, i, dup, content, metadata);
    assert !PatchRefused(change.patch);
    assert InSpace(dup, b.partition);
  }

  lemma OverwriteKeeps(b: Batch, s: Import, i: nat, key: DedupKey, metadata: Option<Fields>)
    requires Good(b, s, i) && i < |b.draws| == |b.outages| && key in s.done.existing
    requires metadata.Some? ==> IsValid(metadata.value, false)
    requires Sound(b)
    ensures
      var s' := OverwriteOne(b, s, i, key, key.content, metadata);
      && UniqueIds(s'.store) && Coherent(b, s') && s'.done.existing.Keys == s.done.existing.Keys
      && AllInSpace(All(s'.store, b.partition), b.partition) && s'.done.raised == None
  {
    if !b.outages[i].WriteDown? {
      var dup := s.done.existing[key];
      var change := OverwriteChange(b, i, dup, key.content, metadata);
      var m := ChangedMemory(dup, change, b.draws[i].now);
      OverwriteEffect(b, s, i, key, key.content, metadata);
      UniqueAfterReplace(s.store, b.partition, dup.id, change, b.draws[i].now);
      AllReplace(s.store, b.partition, dup.id, change, b.draws[i].now);
      UniqueListed(s.store, b.partition);
      IndexSet(All(s.store, b.partition), key, m);
    }
  }

  lemma AcceptedDraft(b: Batch, i: nat)
    requires Sound(b) && i < |b.entries| && Valid(b, i)
    ensures InOwnSpace(DraftOf(b, i), b.partition)
    ensures AddRefusal(DraftOf(b, i)) == if NestedScope(ScopeOf(b, i)) then Some(ValueError) else None
    ensures DraftOf(b, i).metadata.Some? ==> IsValid(DraftOf(b, i).metadata.value, false)
    ensures DraftOf(b, i).metadata == Check(b.validate, b.entries[i]).metadata && DraftOf(b, i).scope == ScopeOf(b, i)
    ensures EntryKey(b, i) == DedupKey(DraftOf(b, i).content, ScopeKey(DraftOf(b, i).scope))
  {
    hide NestedScope;
  }

  // ---------- The index over a whole batch ----------

  /** One step of a batch that has run smoothly so far: what was indexed, and the identities written. */
  ghost predicate InStep(b: Batch, s: Import, indexed: set<DedupKey>, n: nat)
    requires WellFormed(b) && n <= |b.entries|
  {
    Good(b, s, n) && s.done.existing.Keys == indexed + WrittenKeys(b, n)
  }

  lemma CreateInStep(b: Batch, s: Import, indexed: set<DedupKey>, i: nat)
    requires Sound(b) && i < |b.entries| && InStep(b, s, indexed, i) && Valid(b, i)
    requires EntryKey(b, i) !in s.done.existing
    requires !Slips(b, indexed, i) && !Ends(b, indexed, i) && DrawsFresh(b, ImportOne(b, s, i).store, i + 1)
    requires ImportOne(b, s, i) == CreateOne(b, s, i, EntryKey(b, i), DraftOf(b, i))
    ensures InStep(b, ImportOne(b, s, i), indexed, i + 1)
  {
    hide Check, ImportOne, NestedScope, IndexOf, All, AddRefusal;
    AcceptedDraft(b, i);
    var s' := CreateOne(b, s, i, EntryKey(b, i), DraftOf(b, i));
    if !b.outages[i].WriteDown? {
      CreateEffect(b, s, i, EntryKey(b, i), DraftOf(b, i));
      CreateKeeps(b, s, i, DraftOf(b, i));
      assert s'.done.existing.Keys == s.done.existing.Keys + {EntryKey(b, i)};
    }
  }

  lemma StepInStep(b: Batch, s: Import, indexed: set<DedupKey>, i: nat)
    requires Sound(b) && b.mode != Duplicate && i < |b.entries| && InStep(b, s, indexed, i)
    requires !Slips(b, indexed, i) && !Ends(b, indexed, i)
    ensures InStep(b, ImportOne(b, s, i), indexed, i + 1)
  {
    hide Check, Slips, Ends, CreateOne, OverwriteOne, IndexOf, All, AddRefusal;
    ImportOneFresh(b, s, i);
    if Valid(b, i) {
      AcceptedDraft(b, i);
      if EntryKey(b, i) !in s.done.existing {
        CreateInStep(b, s, indexed, i);
      } else if b.mode == Overwrite {
        OverwriteKeeps(b, s, i, EntryKey(b, i), Check(b.validate, b.entries[i]).metadata);
      }
    }
  }

  lemma StepEnds(b: Batch, s: Import, indexed: set<DedupKey>, i: nat)
    requires Sound(b) && b.mode != Duplicate && i < |b.entries| && InStep(b, s, indexed, i) && Ends(b, indexed, i)
    ensures ImportOne(b, s, i).done.raised.Some? && Coherent(b, ImportOne(b, s, i))
  {
    hide Check, NestedScope;
    AcceptedDraft(b, i);
    assert ImportOne(b, s, i) == CreateOne(b, s, i, EntryKey(b, i), DraftOf(b, i));
  }

  lemma StepSlips(b: Batch, s: Import, indexed: set<DedupKey>, i: nat)
    requires Sound(b) && b.mode != Duplicate && i < |b.entries| && InStep(b, s, indexed, i) && Slips(b, indexed, i)
    ensures !Coherent(b, ImportOne(b, s, i))
  {
    hide Check, NestedScope, Coherent, CreateOne;
    AcceptedDraft(b, i);
    assert ImportOne(b, s, i) == CreateOne(b, s, i, EntryKey(b, i), DraftOf(b, i));
    CreateBreaks(b, s, i, DraftOf(b, i));
  }

  /** As long as no entry slips or ends the import, the index after every entry is exactly the one that
      reading the store again would build, and nothing is raised. Failed writes do not matter, nor a
      failed read for an entry that is rejected, skipped or overwritten. */
  lemma {:induction false} IndexStaysCoherent(b: Batch, s: Import, n: nat)
    requires Sound(b) && b.mode != Duplicate && n <= |b.entries| && Good(b, s, 0)
    requires Smooth(b, s.done.existing.Keys, n)
    ensures InStep(b, ImportTo(b, s, n), s.done.existing.Keys, n)
    decreases n
  {
    hide ImportOne, Coherent, UniqueIds, DrawsFresh, AllInSpace, Slips, Ends;
    if n > 0 {
      IndexStaysCoherent(b, s, n - 1);
      StepInStep(b, ImportTo(b, s, n - 1), s.done.existing.Keys, n - 1);
    }
  }

  lemma {:induction false} EndedIsRaised(b: Batch, s: Import, n: nat)
    requires Sound(b) && b.mode != Duplicate && n <= |b.entries| && Good(b, s, 0)
    requires NeverSlips(b, s.done.existing.Keys, n) && !NoneEnds(b, s.done.existing.Keys, n)
    ensures ImportTo(b, s, n).done.raised.Some?
    decreases n
  {
    hide ImportOne, Good, Slips, Ends;
    var indexed := s.done.existing.Keys;
    if NoneEnds(b, indexed, n - 1) {
      assert Smooth(b, indexed, n - 1);
      IndexStaysCoherent(b, s, n - 1);
      StepEnds(b, ImportTo(b, s, n - 1), indexed, n - 1);
    } else {
      EndedIsRaised(b, s, n - 1);
    }
  }

  ghost predicate CoherentTo(b: Batch, s: Import, n: nat)
    requires WellFormed(b) && n <= |b.entries|
  {
    forall k :: 0 <= k <= n ==> Coherent(b, ImportTo(b, s, k))
  }

  /** For every batch: the index is exact after every entry if and only if no entry slips before one ends
      the import. Whether one does can be told from the batch and the identities indexed at the start. */
  lemma {:induction false} IndexCoherentIff(b: Batch, s: Import, n: nat)
    requires Sound(b) && b.mode != Duplicate && n <= |b.entries| && Good(b, s, 0)
    ensures CoherentTo(b, s, n) <==> NeverSlips(b, s.done.existing.Keys, n)
    decreases n
  {
    hide ImportOne, Good, Slips, Ends, Coherent;
    var indexed := s.done.existing.Keys;
    if n == 0 {
      StartsCoherent(b, s);
    } else {
      IndexCoherentIff(b, s, n - 1);
      if NeverSlips(b, indexed, n - 1) {
        LastCoherentIff(b, s, n);
      }
    }
  }

  lemma StartsCoherent(b: Batch, s: Import)
    requires Good(b, s, 0)
    ensures Coherent(b, s)
  {
  }

  lemma LastCoherentIff(b: Batch, s: Import, n: nat)
    requires Sound(b) && b.mode != Duplicate && 0 < n <= |b.entries| && Good(b, s, 0)
    requires NeverSlips(b, s.done.existing.Keys, n - 1) && CoherentTo(b, s, n - 1)
    ensures Coherent(b, ImportTo(b, s, n)) <==> NeverSlips(b, s.done.existing.Keys, n)
  {
    hide ImportOne, Slips, Ends, UniqueIds, DrawsFresh, AllInSpace;
    var indexed, before := s.done.existing.Keys, ImportTo(b, s, n - 1);
    if NoneEnds(b, indexed, n - 1) {
      assert Smooth(b, indexed, n - 1);
      IndexStaysCoherent(b, s, n - 1);
      if Slips(b, indexed, n - 1) {
        StepSlips(b, before, indexed, n - 1);
      } else if Ends(b, indexed, n - 1) {
        StepEnds(b, before, indexed, n - 1);
      } else {
        StepInStep(b, before, indexed, n - 1);
      }
    } else {
      EndedIsRaised(b, s, n - 1);
      assert Coherent(b, before);
    }
  }

  /** A complete first read starts the import in step with the store. */
  lemma StartIsCoherent(b: Batch, store: Store, limit: nat)
    requires b.mode != Duplicate && UniqueIds(store) && DrawsFresh(b, store, 0)
    requires Start(b, store, limit).Ok? && !Start(b, store, limit).value.outcome.dedupIncomplete
    ensures Good(b, Import(store, Start(b, store, limit).value), 0)
  {
    var all := All(store, b.partition);
    FollowPager(all, false, b.partition, limit);
    assert |all| <= limit;
    assert Slice(all, 0, limit) == all && Slice(all, 0, limit + 1) == all;
  }
}
