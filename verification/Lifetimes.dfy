/** One memory through a whole run: its origin never changes, its history only grows, and once deleted it
    never comes back. */
module Lifetimes {
  import opened Results
  import opened Values
  import opened CharTables
  import opened Metadata
  import opened ScopeRules
  import opened Contract
  import opened Transfer
  import opened Dedup
  import opened Lookups
  import opened Policy
  import opened Requests
  import opened Attribution
  import opened PolicyRuns

  /** `b` is the memory of `a` at a later time. */
  ghost predicate Continues(a: Contract.Record, b: Contract.Record) {
    && a.log <= b.log && b.memory.scope == a.memory.scope && b.memory.createdAt == a.memory.createdAt
  }

  /** A memory found afterwards, under an id that was not drawn, was there before. */
  ghost predicate Persists(before: Store, after: Store, p: string, id: string) {
    var a, b := Lookup(before, p, id), Lookup(after, p, id);
    b.Some? ==> a.Some? && Continues(a.value, b.value)
  }

  lemma UpdatePersists(store: Store, key: Key, id: string, content: Option<string>, metadata: Option<Fields>,
      now: string, p: string, other: string)
    ensures Persists(store, UpdateMemory(store, key, id, content, metadata, now).0, p, other)
  {
    hide UpdateChecks, PatchFits, UpdatePatch, ValidId;
    var existing := ReadById(store, key.space, id);
    if existing.Ok? {
      LookupReplace(store, key.space, id, UpdateChange(key, existing.value, content, metadata), now, p, other);
    }
  }

  lemma AddPersists(t: Tables, store: Store, key: Key, content: string, scope: Value, metadata: Option<Fields>,
      draw: Draw, p: string, other: string)
    requires other != draw.id
    ensures Persists(store, AddMemory(t, store, key, content, scope, metadata, draw).0, p, other)
  {
    hide CheckedScope, AddChecks;
    var cleaned := CheckedScope(t, scope, SCOPE_KEYS);
    if cleaned.Ok? {
      LookupAppend(store, NewRecord(key.space, AddDraft(key, content, cleaned.value, metadata), draw.id, draw.now), p,
          other);
    }
  }

  lemma DeletePersists(store: Store, key: Key, id: string, p: string, other: string)
    requires UniqueIds(store)
    ensures Persists(store, DeleteMemory(store, key, id).0, p, other)
  {
    LookupRemove(store, key.space, id, p, other);
  }

  lemma DeleteScopedPersists(t: Tables, store: Store, key: Key, scope: Value, p: string, other: string)
    requires UniqueIds(store)
    ensures Persists(store, DeleteScoped(t, store, key, scope).0, p, other)
  {
    hide CheckedScope;
    var cleaned := CheckedScope(t, scope, SCOPE_KEYS);
    if cleaned.Ok? && cleaned.value.Some? {
      LookupSurvivors(store, key.space, cleaned.value.value, p, other);
    }
  }

  lemma CreatePersists(b: Batch, s: Import, i: nat, key: DedupKey, draft: NewMemory, p: string, id: string)
    requires i < |b.draws| == |b.outages| && b.draws[i].id != id
    ensures Persists(s.store, CreateOne(b, s, i, key, draft).store, p, id)
  {
    LookupAppend(s.store, NewRecord(b.partition, draft, b.draws[i].id, b.draws[i].now), p, id);
  }

  lemma OverwritePersists(b: Batch, s: Import, i: nat, key: DedupKey, content: string, metadata: Option<Fields>,
      p: string, id: string)
    requires i < |b.draws| == |b.outages| && key in s.done.existing
    ensures Persists(s.store, OverwriteOne(b, s, i, key, content, metadata).store, p, id)
  {
    hide OverwriteChange, PatchRefused;
    var dup := s.done.existing[key];
    LookupReplace(s.store, b.partition, dup.id, OverwriteChange(b, i, dup, content, metadata), b.draws[i].now, p, id);
  }

  lemma EntryPersists(b: Batch, s: Import, i: nat, p: string, id: string)
    requires WellFormed(b) && i < |b.entries| && b.draws[i].id != id
    ensures Persists(s.store, ImportOne(b, s, i).store, p, id)
  {
    hide Check, CreateOne, OverwriteOne;
    if Valid(b, i) {
      var c, key := Check(b.validate, b.entries[i]), EntryKey(b, i);
      if key in s.done.existing && b.mode == Overwrite {
        OverwritePersists(b, s, i, key, c.content, c.metadata, p, id);
      } else {
        CreatePersists(b, s, i, key, Draft(b, i, c.content, c.scope, c.metadata), p, id);
      }
    }
  }

  lemma {:induction false} EntriesPersist(b: Batch, s: Import, n: nat, p: string, id: string)
    requires WellFormed(b) && n <= |b.entries| && forall i :: 0 <= i < |b.draws| ==> b.draws[i].id != id
    ensures Persists(s.store, ImportTo(b, s, n).store, p, id)
    decreases n
  {
    hide ImportOne;
    if n > 0 {
      EntriesPersist(b, s, n - 1, p, id);
      EntryPersists(b, ImportTo(b, s, n - 1), n - 1, p, id);
    }
  }

  lemma ImportPersists(t: Tables, store: Store, key: Key, entries: seq<Entry>, mode: string, draws: seq<Draw>,
      outages: seq<Outage>, p: string, id: string)
    requires |draws| == |entries| == |outages| && forall i :: 0 <= i < |draws| ==> draws[i].id != id
    ensures Persists(store, ImportMemories(t, store, key, entries, mode, draws, outages).0, p, id)
  {
    hide ImportTo, Start;
    if ModeNamed(mode).Some? {
      var b := ImportBatch(t, key, entries, ModeNamed(mode).value, draws, outages);
      var start := Start(b, store, MAX_EXPORT);
      if start.Ok? {
        EntriesPersist(b, Import(store, start.value), |entries|, p, id);
      }
    }
  }

  lemma RequestPersists(t: Tables, store: Store, r: Request, p: string, id: string)
    requires LawfulClasses(t) && UniqueIds(store) && id !in IdsOf(r)
    ensures Persists(store, Serve(t, store, r).0, p, id)
  {
    hide AddMemory, UpdateMemory, DeleteMemory, DeleteScoped, ImportMemories, SearchMemories, ListMemories,
        MemoryHistory, ExportMemories;
    match r.ask
    case AskAdd(content, scope, metadata) => AddPersists(t, store, r.key, content, scope, metadata, r.draw, p, id);
    case AskUpdate(target, content, patch) => UpdatePersists(store, r.key, target, content, patch, r.draw.now, p, id);
    case AskDelete(target) => DeletePersists(store, r.key, target, p, id);
    case AskDeleteAll(scope) => DeleteScopedPersists(t, store, r.key, scope, p, id);
    case AskImport(entries, mode, draws, outages) =>
      ImportPersists(t, store, r.key, entries, mode, draws, outages, p, id);
    case _ =>
  }

  /** A memory of a run, found after its first `k` requests. */
  ghost function At(t: Tables, rs: seq<Request>, k: nat, p: string, id: string): Option<Contract.Record>
    requires LawfulClasses(t) && k <= |rs|
  {
    Lookup(Final(t, [], rs[..k]), p, id)
  }

  ghost predicate SameRecord(a: Contract.Record, b: Contract.Record) {
    Continues(a, b) && b.memory.system.createdBy == a.memory.system.createdBy
  }

  lemma SameAfterStep(t: Tables, rs: seq<Request>, n: nat, m: nat, p: string, id: string)
    requires Lawful(t) && NewInRun([], rs) && n <= m < |rs|
    requires At(t, rs, n, p, id).Some? && At(t, rs, m + 1, p, id).Some?
    ensures At(t, rs, m, p, id).Some? && SameRecord(At(t, rs, m, p, id).value, At(t, rs, m + 1, p, id).value)
  {
    hide Serve, Final, RecordOk;
    var names := WritersIn(rs);
    var before := Final(t, [], rs[..m]);
    assert rs[..m + 1] == rs[..m] + [rs[m]];
    OneMore(t, [], rs[..m], rs[m]);
    NotDrawnAgain(t, rs, n, m, p, id);
    HealthyAt(t, rs, m, names);
    HealthyAt(t, rs, m + 1, names);
    RequestPersists(t, before, rs[m], p, id);
    Attribution.Read(before, p, id, names);
    Attribution.Read(Final(t, [], rs[..m + 1]), p, id, names);
    CreatorFromHistory(At(t, rs, m, p, id).value, At(t, rs, m + 1, p, id).value, names(p));
  }

  lemma HealthyAt(t: Tables, rs: seq<Request>, m: nat, names: Signers)
    requires Lawful(t) && NewInRun([], rs) && m <= |rs| && names == WritersIn(rs)
    ensures Healthy(Final(t, [], rs[..m]), names)
  {
    hide Serve, Final, Healthy, NewInRun;
    EmptyHealthy(names);
    RunHealthy(t, [], rs, m, names);
  }

  /** From any point of a run to any later one, a memory that is there at both is the same memory: it
      keeps its scope, its creation time and its creator, and its history has only been added to. It is
      not there later unless it was there throughout. */
  lemma {:induction false} SameMemoryThroughout(t: Tables, rs: seq<Request>, n: nat, m: nat, p: string, id: string)
    requires Lawful(t) && NewInRun([], rs) && n <= m <= |rs|
    requires At(t, rs, n, p, id).Some? && At(t, rs, m, p, id).Some?
    ensures SameRecord(At(t, rs, n, p, id).value, At(t, rs, m, p, id).value)
    ensures forall k :: n <= k <= m ==> At(t, rs, k, p, id).Some?
    decreases m
  {
    hide At, NewInRun;
    if n < m {
      SameAfterStep(t, rs, n, m - 1, p, id);
      SameMemoryThroughout(t, rs, n, m - 1, p, id);
    }
  }

  lemma NotDrawnAgain(t: Tables, rs: seq<Request>, n: nat, m: nat, p: string, id: string)
    requires LawfulClasses(t) && NewInRun([], rs) && n <= m < |rs| && At(t, rs, n, p, id).Some?
    ensures id !in IdsOf(rs[m])
  {
    hide Serve, Final;
    NewAlongRun(t, [], rs, n, m);
    LookupIn(Final(t, [], rs[..n]), p, id);
  }

  lemma CreatorFromHistory(a: Contract.Record, b: Contract.Record, names: set<string>)
    requires RecordOk(a, names) && RecordOk(b, names) && a.log <= b.log
    ensures a.memory.system.createdBy == b.memory.system.createdBy
  {
  }

  // ---------- What a write does to the memory it names, and to the others ----------

  /** Untouched: every memory but the one named, in this space and the others. */
  ghost predicate OthersSame(before: Store, after: Store, p: string, id: string) {
    forall q, other :: (q != p || other != id) ==> Lookup(after, q, other) == Lookup(before, q, other)
  }

  /** An accepted update merges the patch into the metadata as RFC 7396 says, replaces the content if one
      was given, adds one signed entry to the history, and changes nothing else in the store. */
  lemma UpdateIs(store: Store, key: Key, id: string, content: Option<string>, metadata: Option<Fields>, now: string,
      after: Store, shown: Memory)
    requires UpdateMemory(store, key, id, content, metadata, now) == (after, Ok(shown))
    ensures Lookup(store, key.space, id).Some? && Lookup(after, key.space, id).Some?
    ensures
      var a, b := Lookup(store, key.space, id).value, Lookup(after, key.space, id).value;
      && b.memory == shown
      && b.log == a.log + [HistoryEntry(Updated, now, Some(a.memory.content), Some(shown.content), Some(key.name))]
      && shown == a.memory.(content := OrElse(content, a.memory.content),
                            metadata := MergePatch(a.memory.metadata, OrElse(metadata, map[])),
                            updatedAt := Some(now),
                            system := System(Some(Str(key.space)), Some(key.name), a.memory.system.createdBy))
    ensures OthersSame(store, after, key.space, id)
  {
    hide UpdateChecks, PatchFits, ValidId, AsPatch, MergePatch;
    var existing := ReadById(store, key.space, id).value;
    var change := UpdateChange(key, existing, content, metadata);
    PatchIsMergePatch(existing.metadata, OrElse(metadata, map[]));
    EmptyPatch(existing.metadata);
    forall q, other
      ensures Lookup(Replace(store, key.space, id, change, now), q, other) ==
        if q == key.space && other == id && Lookup(store, q, other).Some?
        then Some(Changed(Lookup(store, q, other).value, change, now)) else Lookup(store, q, other)
    {
      LookupReplace(store, key.space, id, change, now, q, other);
    }
  }

  lemma EmptyPatch(stored: Fields)
    ensures MergePatch(stored, map[]) == stored
  {
  }

  /** A successful delete removes the memory with its history, and nothing else. */
  lemma DeleteIs(store: Store, key: Key, id: string, after: Store)
    requires UniqueIds(store) && DeleteMemory(store, key, id) == (after, Ok(true))
    ensures Lookup(store, key.space, id).Some? && Lookup(after, key.space, id).None?
    ensures OthersSame(store, after, key.space, id)
  {
    forall q, other
      ensures Lookup(Remove(store, key.space, id), q, other) ==
        if q == key.space && other == id then None else Lookup(store, q, other)
    {
      LookupRemove(store, key.space, id, q, other);
    }
  }

  /** A successful add stores the memory under the key's name and space, as given but for its scope, which
      is stored cleaned and as text; and changes nothing else. */
  lemma AddIs(t: Tables, store: Store, key: Key, content: string, scope: Value, metadata: Option<Fields>, draw: Draw,
      after: Store, added: seq<AddResult>)
    requires Fresh(store, draw.id) && AddMemory(t, store, key, content, scope, metadata, draw) == (after, Ok(added))
    ensures added == [AddResult(draw.id, draw.now, AddedEvent)] && CheckedScope(t, scope, SCOPE_KEYS).Ok?
    ensures Lookup(after, key.space, draw.id) == Some(Contract.Record(
      Memory(draw.id, content, ScopeAsText(OrElse(CheckedScope(t, scope, SCOPE_KEYS).value, map[])),
          OrElse(metadata, map[]),
             draw.now, None, key.space, System(Some(Str(key.space)), Some(key.name), Some(key.name))),
      [HistoryEntry(Created, draw.now, None, Some(content), Some(key.name))]))
    ensures OthersSame(store, after, key.space, draw.id)
  {
    hide CheckedScope, AddChecks;
    var r := NewRecord(key.space, AddDraft(key, content, CheckedScope(t, scope, SCOPE_KEYS).value, metadata), draw.id, draw.now);
    forall q, other
      ensures Lookup(store + [r], q, other) ==
        if Lookup(store, q, other).Some? then Lookup(store, q, other) else if Owned(r, q, other) then Some(r) else None
    {
      LookupAppend(store, r, q, other);
    }
    LookupFresh(store, key.space, draw.id);
  }
}
