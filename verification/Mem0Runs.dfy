/** Whole runs on the mem0 adapter, and what they have in common with the other backends. */
module Mem0Runs {
  import opened Results
  import opened Values
  import opened Contract
  import opened Dedup
  import opened Mem0Api
  import opened Mem0

  datatype Write =
    | Create(partition: string, draft: NewMemory)
    | Edit(partition: string, id: string, change: Change)
    | Drop(partition: string, id: string)

  /** A write, with the id a create would draw and the time. */
  datatype Timed = Timed(write: Write, drawn: string, now: string)

  /** One write on the plain store, and its error if it is refused. */
  function PlainStep(flags: FlagText, store: PlainStore, c: Timed): (PlainStore, Option<Error>) {
    match c.write
    case Create(p, draft) =>
      var e := Mem0AddRefusal(flags, p, draft);
      (if e.Some? then store else store[c.drawn := PlainAdded(p, draft)], e)
    case Edit(p, id, change) =>
      var e := UpdateRefusal(store, p, id, change);
      (if e.Some? then store else store[id := PlainChanged(store[id], change)], e)
    case Drop(p, id) =>
      var e := DeleteRefusal(store, p, id);
      (if e.Some? then store else store - {id}, e)
  }

  function PlainRun(flags: FlagText, store: PlainStore, calls: seq<Timed>): (PlainStore, seq<Option<Error>>)
    decreases |calls|
  {
    if calls == [] then (store, [])
    else
      var (next, e) := PlainStep(flags, store, calls[0]);
      var (end, es) := PlainRun(flags, next, calls[1..]);
      (end, [e] + es)
  }

  function ErrorOf<T>(r: Result<T>): Option<Error> {
    if r.Err? then Some(r.error) else None
  }

  /** A write that does not turn extraction on through a scope key. */
  predicate StoresAsIs(flags: FlagText, w: Write) {
    w.Create? ==> !Extracts(flags, w.draft)
  }

  method CallMem0(b: Mem0Backend, c: Timed) returns (e: Option<Error>)
    requires b.server.Valid() && c.drawn !in b.server.records && StoresAsIs(b.server.flags, c.write)
    modifies b.server
    ensures b.server.Valid() && OthersKept(old(b.server.records), b.server.records, c.write.partition)
    ensures (Shown(b.server.records), e) == PlainStep(b.server.flags, Shown(old(b.server.records)), c)
  {
    match c.write
    case Create(p, draft) =>
      var r := b.Add(p, draft, c.drawn, c.now);
      e := ErrorOf(r);
    case Edit(p, id, change) =>
      var r := b.Update(p, id, change, c.now);
      e := ErrorOf(r);
    case Drop(p, id) =>
      var r := b.Delete(p, id);
      e := ErrorOf(r);
  }

  ghost predicate NewIds(store: PlainStore, calls: seq<Timed>) {
    && (forall k :: 0 <= k < |calls| ==> calls[k].drawn !in store)
    && (forall j, k :: 0 <= j < k < |calls| ==> calls[j].drawn != calls[k].drawn)
  }

  ghost predicate NoCallBy(calls: seq<Timed>, partition: string) {
    forall k :: 0 <= k < |calls| ==> calls[k].write.partition != partition
  }

  lemma StepUsesOwnId(flags: FlagText, store: PlainStore, calls: seq<Timed>)
    requires calls != [] && NewIds(store, calls)
    ensures NewIds(PlainStep(flags, store, calls[0]).0, calls[1..])
  {
  }

  /** Through the adapter, every sequence of writes does to what is shown exactly what plain writes do: a
      null tombstone never shows, and set and removed keys read back as a patch says. The records of a
      partition that no call names are not touched. */
  method RunMem0(b: Mem0Backend, calls: seq<Timed>) returns (es: seq<Option<Error>>)
    requires b.server.Valid() && NewIds(Shown(b.server.records), calls)
    requires forall k :: 0 <= k < |calls| ==> StoresAsIs(b.server.flags, calls[k].write)
    modifies b.server
    ensures b.server.Valid()
    ensures (Shown(b.server.records), es) == PlainRun(b.server.flags, Shown(old(b.server.records)), calls)
    ensures forall id :: id in old(b.server.records) && NoCallBy(calls, old(b.server.records)[id].userId) ==>
              id in b.server.records && b.server.records[id] == old(b.server.records)[id]
    decreases |calls|
  {
    hide Shown;
    hide PlainStep;
    es := [];
    if calls != [] {
      StepUsesOwnId(b.server.flags, Shown(b.server.records), calls);
      ShownOwner(b.server.records, calls[0].drawn);
      var e := CallMem0(b, calls[0]);
      es := RunMem0(b, calls[1..]);
      es := [e] + es;
    }
  }

  // ---------- The other backends, seen plainly ----------

  function PlainView(store: Store): PlainStore {
    if store == [] then map[]
    else PlainView(store[1..])[store[0].memory.id := PlainOf(store[0].memory)]
  }

  lemma {:induction false} PlainViewHas(store: Store, partition: string, id: string)
    requires UniqueIds(store)
    ensures
      var found := Lookup(store, partition, id);
      && (found.Some? <==> id in PlainView(store) && PlainView(store)[id].partition == partition)
      && (found.Some? ==> PlainView(store)[id] == PlainOf(found.value.memory))
    decreases |store|
  {
    if store != [] {
      UniqueTail(store);
      PlainViewHas(store[1..], partition, id);
      if store[0].memory.id == id {
        PlainViewLacks(store[1..], id);
      }
    }
  }

  lemma {:induction false} PlainViewLacks(store: Store, id: string)
    requires forall i :: 0 <= i < |store| ==> store[i].memory.id != id
    ensures id !in PlainView(store)
    decreases |store|
  {
    if store != [] {
      assert forall i :: 0 <= i < |store[1..]| ==> store[1..][i] == store[i + 1];
      PlainViewLacks(store[1..], id);
    }
  }

  lemma {:induction false} PlainViewAppend(store: Store, r: Record)
    requires Fresh(store, r.memory.id)
    ensures PlainView(store + [r]) == PlainView(store)[r.memory.id := PlainOf(r.memory)]
    decreases |store|
  {
    if store == [] {
      assert store + [r] == [r];
    } else {
      assert (store + [r])[1..] == store[1..] + [r];
      assert forall i :: 0 <= i < |store[1..]| ==> store[1..][i] == store[i + 1];
      PlainViewAppend(store[1..], r);
    }
  }

  lemma {:induction false} PlainViewReplace(store: Store, p: string, id: string, change: Change, now: string)
    requires UniqueIds(store) && Lookup(store, p, id).Some?
    ensures PlainView(Replace(store, p, id, change, now)) ==
      PlainView(store)[id := PlainOf(ChangedMemory(Lookup(store, p, id).value.memory, change, now))]
    decreases |store|
  {
    if !Owned(store[0], p, id) {
      UniqueTail(store);
      PlainViewReplace(store[1..], p, id, change, now);
      var rest := Replace(store[1..], p, id, change, now);
      assert ([store[0]] + rest)[1..] == rest;
      FoundElsewhere(store, p, id);
    }
  }

  lemma FoundElsewhere(store: Store, p: string, id: string)
    requires UniqueIds(store) && Lookup(store, p, id).Some? && !Owned(store[0], p, id)
    ensures store[0].memory.id != id
  {
    UniqueTail(store);
    if store[0].memory.id == id {
      PlainViewLacks(store[1..], id);
      PlainViewHas(store[1..], p, id);
    }
  }

  lemma {:induction false} PlainViewRemove(store: Store, p: string, id: string)
    requires UniqueIds(store) && Lookup(store, p, id).Some?
    ensures PlainView(Remove(store, p, id)) == PlainView(store) - {id}
    decreases |store|
  {
    UniqueTail(store);
    if Owned(store[0], p, id) {
      PlainViewLacks(store[1..], id);
    } else {
      PlainViewRemove(store[1..], p, id);
      var rest := Remove(store[1..], p, id);
      assert ([store[0]] + rest)[1..] == rest;
      FoundElsewhere(store, p, id);
    }
  }

  /** A write that every backend takes alike: a partition mem0 can match, the scope keys it has, concrete
      values, and no null in metadata. */
  ghost predicate Portable(w: Write) {
    && !PartitionRefused(w.partition)
    && (w.Create? ==> NullFree(OrElse(w.draft.metadata, map[])) && (w.draft.scope.Some? ==> PortableScope(w.draft.scope.value)))
    && (w.Edit? && w.change.patch.Some? ==> NullFree(w.change.patch.value.sets))
  }

  ghost predicate PortableScope(scope: Fields) {
    scope.Keys <= {"agent_id", "run_id"} && forall k :: k in scope ==> !IsWildcard(scope[k])
  }

  ghost predicate NullFreeStore(store: Store) {
    forall i :: 0 <= i < |store| ==> NullFree(store[i].memory.metadata)
  }

  function ContractStep(store: Store, c: Timed): (Store, Option<Error>) {
    match c.write
    case Create(p, draft) => var (s, r) := Add(store, p, draft, c.drawn, c.now); (s, ErrorOf(r))
    case Edit(p, id, change) => var (s, r) := Update(store, p, id, change, c.now); (s, ErrorOf(r))
    case Drop(p, id) => var (s, r) := Delete(store, p, id); (s, ErrorOf(r))
  }

  lemma NonNullOfNullFree(fields: Fields)
    requires NullFree(fields)
    ensures NonNull(fields) == fields
  {
  }

  lemma PortableAdd(flags: FlagText, p: string, draft: NewMemory, id: string, now: string)
    requires Portable(Create(p, draft))
    ensures Mem0AddRefusal(flags, p, draft) == AddRefusal(draft) && StoresAsIs(flags, Create(p, draft))
    ensures PlainOf(NewRecord(p, draft, id, now).memory) == PlainAdded(p, draft)
  {
    PortableRefusal(flags, p, draft);
    NonNullOfNullFree(OrElse(draft.metadata, map[]));
    hide Mem0AddRefusal, AddRefusal, PartitionRefused, IsWildcard, PlainScope;
    PortableScopeText(draft.scope);
  }

  lemma PortableScopeText(scope: Option<Fields>)
    requires scope.Some? ==> PortableScope(scope.value)
    ensures ScopeAsText(OrElse(scope, map[])) == PlainScope(scope)
  {
    hide IsWildcard, ScopeText;
  }

  lemma PortableRefusal(flags: FlagText, p: string, draft: NewMemory)
    requires Portable(Create(p, draft))
    ensures Mem0AddRefusal(flags, p, draft) == AddRefusal(draft) && StoresAsIs(flags, Create(p, draft))
  {
    hide PartitionRefused, IsWildcard, IsReservedKey;
    assert !PartitionRefused(p);
  }

  /** One portable write on the in-memory or the SQLite backend, seen plainly, is the plain write. */
  lemma ContractShowsPlain(flags: FlagText, store: Store, c: Timed)
    requires UniqueIds(store) && NullFreeStore(store) && Portable(c.write) && Fresh(store, c.drawn)
    ensures
      var (next, e) := ContractStep(store, c);
      && (PlainView(next), e) == PlainStep(flags, PlainView(store), c)
      && UniqueIds(next) && NullFreeStore(next)
  {
    hide AddRefusal, Portable, NullFreeStore, UniqueIds, Replace, Remove, PatchRefused, Fresh;
    match c.write
    case Create(p, draft) => CreateShowsPlain(flags, store, p, draft, c.drawn, c.now);
    case Edit(p, id, change) => EditShowsPlain(flags, store, p, id, change, c.now);
    case Drop(p, id) => DropShowsPlain(flags, store, p, id, c.now);
  }

  lemma CreateShowsPlain(flags: FlagText, store: Store, p: string, draft: NewMemory, id: string, now: string)
    requires UniqueIds(store) && NullFreeStore(store) && Portable(Create(p, draft)) && Fresh(store, id)
    ensures
      var (next, r) := Add(store, p, draft, id, now);
      && (PlainView(next), ErrorOf(r)) == PlainStep(flags, PlainView(store), Timed(Create(p, draft), id, now))
      && UniqueIds(next) && NullFreeStore(next)
  {
    hide AddRefusal, Mem0AddRefusal, PlainAdded;
    PortableAdd(flags, p, draft, id, now);
    PlainViewAppend(store, NewRecord(p, draft, id, now));
  }

  lemma DropShowsPlain(flags: FlagText, store: Store, p: string, id: string, now: string)
    requires UniqueIds(store) && NullFreeStore(store) && Portable(Drop(p, id))
    ensures
      var (next, r) := Delete(store, p, id);
      && (PlainView(next), ErrorOf(r)) == PlainStep(flags, PlainView(store), Timed(Drop(p, id), "", now))
      && UniqueIds(next) && NullFreeStore(next)
  {
    PlainViewHas(store, p, id);
    if Lookup(store, p, id).Some? {
      PlainViewRemove(store, p, id);
      RemoveKeeps(store, p, id);
    }
  }

  lemma EditShowsPlain(flags: FlagText, store: Store, p: string, id: string, change: Change, now: string)
    requires UniqueIds(store) && NullFreeStore(store) && Portable(Edit(p, id, change))
    ensures
      var (next, r) := Update(store, p, id, change, now);
      && (PlainView(next), ErrorOf(r)) == PlainStep(flags, PlainView(store), Timed(Edit(p, id, change), "", now))
      && UniqueIds(next) && NullFreeStore(next)
  {
    hide PatchRefused, PartitionRefused, NullFreeStore, UniqueIds, PlainChanged, PlainView, Replace;
    assert !PartitionRefused(p);
    PlainViewHas(store, p, id);
    if !PatchRefused(change.patch) && Lookup(store, p, id).Some? {
      PlainViewReplace(store, p, id, change, now);
      EditKeeps(store, p, id, change, now);
    }
  }

  lemma EditKeeps(store: Store, p: string, id: string, change: Change, now: string)
    requires UniqueIds(store) && NullFreeStore(store) && Portable(Edit(p, id, change)) && Lookup(store, p, id).Some?
    ensures UniqueIds(Replace(store, p, id, change, now)) && NullFreeStore(Replace(store, p, id, change, now))
    ensures PlainOf(ChangedMemory(Lookup(store, p, id).value.memory, change, now)) ==
      PlainChanged(PlainOf(Lookup(store, p, id).value.memory), change)
  {
    hide PartitionRefused;
    UniqueAfterReplace(store, p, id, change, now);
    LookupStored(store, p, id);
    NonNullOfNullFree(PatchMetadata(Lookup(store, p, id).value.memory.metadata, change.patch));
    var next := Replace(store, p, id, change, now);
    forall i | 0 <= i < |next|
      ensures NullFree(next[i].memory.metadata)
    {
      assert NullFree(store[i].memory.metadata);
    }
  }

  lemma {:induction false} LookupStored(store: Store, p: string, id: string)
    requires Lookup(store, p, id).Some?
    ensures exists i :: 0 <= i < |store| && store[i] == Lookup(store, p, id).value && Owned(store[i], p, id)
    decreases |store|
  {
    if !Owned(store[0], p, id) {
      LookupStored(store[1..], p, id);
      var i :| 0 <= i < |store[1..]| && store[1..][i] == Lookup(store, p, id).value && Owned(store[1..][i], p, id);
      assert store[i + 1] == store[1..][i];
    } else {
      assert store[0] == Lookup(store, p, id).value;
    }
  }

  lemma {:induction false} RemoveKeeps(store: Store, p: string, id: string)
    requires UniqueIds(store) && NullFreeStore(store)
    ensures UniqueIds(Remove(store, p, id)) && NullFreeStore(Remove(store, p, id))
    decreases |store|
  {
    if store != [] {
      UniqueTail(store);
      assert forall i :: 0 <= i < |store[1..]| ==> store[1..][i] == store[i + 1];
      if !Owned(store[0], p, id) {
        RemoveKeeps(store[1..], p, id);
        RemoveFresh(store[1..], p, id, store[0].memory.id);
      }
    }
  }

  function ContractRun(store: Store, calls: seq<Timed>): (Store, seq<Option<Error>>)
    decreases |calls|
  {
    if calls == [] then (store, [])
    else
      var (next, e) := ContractStep(store, calls[0]);
      var (end, es) := ContractRun(next, calls[1..]);
      (end, [e] + es)
  }

  ghost predicate FreshCalls(store: Store, calls: seq<Timed>) {
    && (forall k :: 0 <= k < |calls| ==> Fresh(store, calls[k].drawn))
    && (forall j, k :: 0 <= j < k < |calls| ==> calls[j].drawn != calls[k].drawn)
  }

  /** Any sequence of portable writes leaves the three backends showing the same memories, apart from
      times and histories, and refusing the same writes. */
  lemma {:induction false} BackendsAgree(flags: FlagText, store: Store, calls: seq<Timed>)
    requires UniqueIds(store) && NullFreeStore(store) && FreshCalls(store, calls)
    requires forall k :: 0 <= k < |calls| ==> Portable(calls[k].write)
    ensures
      var (end, es) := ContractRun(store, calls);
      (PlainView(end), es) == PlainRun(flags, PlainView(store), calls)
    decreases |calls|
  {
    if calls != [] {
      var next := ContractStep(store, calls[0]).0;
      ContractShowsPlain(flags, store, calls[0]);
      forall k | 0 <= k < |calls[1..]|
        ensures Fresh(next, calls[1..][k].drawn)
      {
        StepLeavesFresh(store, calls[0], calls[k + 1].drawn);
      }
      BackendsAgree(flags, next, calls[1..]);
    }
  }

  lemma StepLeavesFresh(store: Store, c: Timed, other: string)
    requires Fresh(store, other) && other != c.drawn
    ensures Fresh(ContractStep(store, c).0, other)
  {
    match c.write
    case Create(_, _) =>
    case Edit(p, id, change) => ReplaceFresh(store, p, id, change, c.now, other);
    case Drop(p, id) => RemoveFresh(store, p, id, other);
  }
}
