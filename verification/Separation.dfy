/** Spaces do not interfere: what a key sees and does depends on its own space alone. */
module Separation {
  import opened Results
  import opened Values
  import opened CharTables
  import opened Contract
  import opened ScopeRules
  import opened Reading
  import opened Transfer
  import opened Policy
  import opened Requests

  /** The records of one partition, in order. */
  function Part(store: Store, p: string): Store {
    if store == [] then []
    else if store[0].memory.partition == p then [store[0]] + Part(store[1..], p)
    else Part(store[1..], p)
  }

  // ---------- Each operation of the store, on a partition alone ----------

  lemma {:induction false} LookupPart(store: Store, p: string, id: string)
    ensures Lookup(Part(store, p), p, id) == Lookup(store, p, id)
    decreases |store|
  {
    if store != [] {
      LookupPart(store[1..], p, id);
      var rest := Part(store[1..], p);
      assert ([store[0]] + rest)[1..] == rest;
    }
  }

  lemma {:induction false} ListingPart(store: Store, p: string, scope: Option<Fields>)
    ensures Listing(Part(store, p), p, scope) == Listing(store, p, scope)
    decreases |store|
  {
    if store != [] {
      ListingPart(store[1..], p, scope);
      var rest := Part(store[1..], p);
      assert ([store[0]] + rest)[1..] == rest;
    }
  }

  lemma {:induction false} AppendPart(store: Store, r: Contract.Record, q: string)
    ensures Part(store + [r], q) == if r.memory.partition == q then Part(store, q) + [r] else Part(store, q)
    decreases |store|
  {
    if store == [] {
      assert store + [r] == [r];
    } else {
      assert (store + [r])[1..] == store[1..] + [r];
      AppendPart(store[1..], r, q);
    }
  }

  lemma {:induction false} ReplacePart(store: Store, p: string, id: string, change: Change, now: string, q: string)
    ensures Part(Replace(store, p, id, change, now), q) ==
      if p == q then Replace(Part(store, p), p, id, change, now) else Part(store, q)
    decreases |store|
  {
    if store != [] {
      var next := Replace(store, p, id, change, now);
      var rest := Part(store[1..], p);
      assert ([store[0]] + rest)[1..] == rest;
      if Owned(store[0], p, id) {
        assert next[1..] == store[1..];
      } else {
        ReplacePart(store[1..], p, id, change, now, q);
        assert next[1..] == Replace(store[1..], p, id, change, now);
      }
    }
  }

  lemma {:induction false} RemovePart(store: Store, p: string, id: string, q: string)
    ensures Part(Remove(store, p, id), q) == if p == q then Remove(Part(store, p), p, id) else Part(store, q)
    decreases |store|
  {
    if store != [] {
      var rest := Part(store[1..], p);
      assert ([store[0]] + rest)[1..] == rest;
      if !Owned(store[0], p, id) {
        RemovePart(store[1..], p, id, q);
        assert Remove(store, p, id)[1..] == Remove(store[1..], p, id);
      }
    }
  }

  lemma {:induction false} SurvivorsPart(store: Store, p: string, scope: Fields, q: string)
    ensures Part(Survivors(store, p, scope), q) ==
      if p == q then Survivors(Part(store, p), p, scope) else Part(store, q)
    ensures |store| - |Survivors(store, p, scope)| == |Part(store, p)| - |Survivors(Part(store, p), p, scope)|
    decreases |store|
  {
    if store != [] {
      SurvivorsPart(store[1..], p, scope, q);
      var rest := Part(store[1..], p);
      assert ([store[0]] + rest)[1..] == rest;
      if !Doomed(store[0], p, scope) {
        assert Survivors(store, p, scope)[1..] == Survivors(store[1..], p, scope);
      }
    }
  }

  // ---------- An import, on a partition alone ----------

  /** The same import, over the partition it writes to and nothing else. */
  function Alone(b: Batch, s: Import): Import {
    s.(store := Part(s.store, b.partition))
  }

  /** One entry acts on its partition as if it were alone, and on no other. */
  ghost predicate StaysIn(b: Batch, s: Import, next: Import, alone: Import, q: string) {
    && alone == Alone(b, next)
    && (q != b.partition ==> Part(next.store, q) == Part(s.store, q))
  }

  lemma OverwriteStays(b: Batch, s: Import, i: nat, key: DedupKey, content: string, metadata: Option<Fields>, q: string)
    requires i < |b.draws| == |b.outages| && key in s.done.existing
    ensures StaysIn(b, s, OverwriteOne(b, s, i, key, content, metadata), OverwriteOne(b, Alone(b, s), i, key, content, metadata), q)
  {
    var dup := s.done.existing[key];
    var change := OverwriteChange(b, i, dup, content, metadata);
    LookupPart(s.store, b.partition, dup.id);
    ReplacePart(s.store, b.partition, dup.id, change, b.draws[i].now, b.partition);
    ReplacePart(s.store, b.partition, dup.id, change, b.draws[i].now, q);
  }

  lemma CreateStays(b: Batch, s: Import, i: nat, key: DedupKey, draft: NewMemory, q: string)
    requires i < |b.draws| == |b.outages|
    ensures StaysIn(b, s, CreateOne(b, s, i, key, draft), CreateOne(b, Alone(b, s), i, key, draft), q)
  {
    var r := NewRecord(b.partition, draft, b.draws[i].id, b.draws[i].now);
    AppendPart(s.store, r, b.partition);
    AppendPart(s.store, r, q);
    LookupPart(s.store + [r], b.partition, b.draws[i].id);
  }

  lemma EntryStays(b: Batch, s: Import, i: nat, q: string)
    requires WellFormed(b) && i < |b.entries|
    ensures StaysIn(b, s, ImportOne(b, s, i), ImportOne(b, Alone(b, s), i), q)
  {
    hide OverwriteOne, CreateOne;
    var c := Check(b.validate, b.entries[i]);
    if c.Accepted? {
      var key := DedupKey(c.content, ScopeKey(c.scope));
      if key in s.done.existing && b.mode == Overwrite {
        OverwriteStays(b, s, i, key, c.content, c.metadata, q);
      } else if !(key in s.done.existing && b.mode == Skip) {
        CreateStays(b, s, i, key, Draft(b, i, c.content, c.scope, c.metadata), q);
      }
    }
  }

  lemma {:induction false} EntriesStay(b: Batch, s: Import, n: nat, q: string)
    requires WellFormed(b) && n <= |b.entries|
    ensures StaysIn(b, s, ImportTo(b, s, n), ImportTo(b, Alone(b, s), n), q)
    decreases n
  {
    hide ImportOne;
    if n > 0 {
      EntriesStay(b, s, n - 1, q);
      EntryStays(b, ImportTo(b, s, n - 1), n - 1, q);
    }
  }

  lemma ImportStays(b: Batch, store: Store, limit: nat, q: string)
    requires WellFormed(b)
    ensures ImportAll(b, Part(store, b.partition), limit).1 == ImportAll(b, store, limit).1
    ensures ImportAll(b, Part(store, b.partition), limit).0 == Part(ImportAll(b, store, limit).0, b.partition)
    ensures q != b.partition ==> Part(ImportAll(b, store, limit).0, q) == Part(store, q)
  {
    hide ImportTo, Follow;
    ListingPart(store, b.partition, None);
    assert Start(b, Part(store, b.partition), limit) == Start(b, store, limit);
    var start := Start(b, store, limit);
    if start.Ok? {
      EntriesStay(b, Import(store, start.value), |b.entries|, q);
    }
  }

  // ---------- A request, on its space alone ----------

  /** What a request answers and leaves in its own space is what it would with no other space there; and
      every other space is left as it was. */
  ghost predicate Confined(t: Tables, store: Store, r: Request, q: string)
    requires LawfulClasses(t)
  {
    var p := r.key.space;
    && Serve(t, Part(store, p), r).1 == Serve(t, store, r).1
    && Serve(t, Part(store, p), r).0 == Part(Serve(t, store, r).0, p)
    && (q != p ==> Part(Serve(t, store, r).0, q) == Part(store, q))
  }

  lemma ListConfined(t: Tables, store: Store, key: Key, scope: Value, limit: int, cursor: Option<string>)
    ensures ListMemories(t, Part(store, key.space), key, scope, limit, cursor) ==
      ListMemories(t, store, key, scope, limit, cursor)
  {
    hide CheckedScope, Paginate;
    var cleaned := CheckedScope(t, scope, SCOPE_KEYS);
    if cleaned.Ok? {
      ListingPart(store, key.space, cleaned.value);
    }
  }

  lemma SearchConfined(t: Tables, store: Store, key: Key, query: string, scope: Value, limit: int, threshold: real)
    requires LawfulClasses(t)
    ensures SearchMemories(t, Part(store, key.space), key, query, scope, limit, threshold) ==
      SearchMemories(t, store, key, query, scope, limit, threshold)
  {
    hide CheckedScope;
    var cleaned := CheckedScope(t, scope, SCOPE_KEYS);
    if cleaned.Ok? {
      ListingPart(store, key.space, cleaned.value);
    }
  }

  lemma ReadsConfined(t: Tables, store: Store, r: Request, q: string)
    requires LawfulClasses(t) && OnlyReads(r.ask)
    ensures Confined(t, store, r, q)
  {
    hide ListMemories, SearchMemories, Follow, AddMemory, UpdateMemory, DeleteMemory, DeleteScoped, ImportMemories;
    var p := r.key.space;
    match r.ask
    case AskGet(id) => LookupPart(store, p, id);
    case AskHistory(id) => LookupPart(store, p, id);
    case AskExport => ListingPart(store, p, None);
    case AskList(scope, limit, cursor) => ListConfined(t, store, r.key, scope, limit, cursor);
    case AskSearch(query, scope, limit, threshold) => SearchConfined(t, store, r.key, query, scope, limit, threshold);
  }

  /** A step of a key of space `p`, as if alone in it, and elsewhere nothing. */
  ghost predicate Apart<T>(p: string, q: string, store: Store, whole: (Store, T), alone: (Store, T)) {
    && alone == (Part(whole.0, p), whole.1)
    && (q != p ==> Part(whole.0, q) == Part(store, q))
  }

  lemma AddApart(t: Tables, store: Store, key: Key, content: string, scope: Value, metadata: Option<Fields>,
      draw: Draw, q: string)
    ensures Apart(key.space, q, store, AddMemory(t, store, key, content, scope, metadata, draw),
                  AddMemory(t, Part(store, key.space), key, content, scope, metadata, draw))
  {
    hide CheckedScope, MetadataAccepted;
    var p := key.space;
    var cleaned := CheckedScope(t, scope, SCOPE_KEYS);
    if cleaned.Ok? {
      var record := NewRecord(p, AddDraft(key, content, cleaned.value, metadata), draw.id, draw.now);
      AppendPart(store, record, p);
      AppendPart(store, record, q);
      LookupPart(store + [record], p, draw.id);
    }
  }

  lemma UpdateApart(store: Store, key: Key, id: string, content: Option<string>, metadata: Option<Fields>,
      now: string, q: string)
    ensures Apart(key.space, q, store, UpdateMemory(store, key, id, content, metadata, now),
                  UpdateMemory(Part(store, key.space), key, id, content, metadata, now))
  {
    hide UpdateChecks, PatchFits, UpdatePatch, ValidId;
    var p := key.space;
    LookupPart(store, p, id);
    var existing := ReadById(store, p, id);
    if existing.Ok? {
      var change := UpdateChange(key, existing.value, content, metadata);
      ReplacePart(store, p, id, change, now, p);
      ReplacePart(store, p, id, change, now, q);
    }
  }

  lemma DeleteApart(store: Store, key: Key, id: string, q: string)
    ensures Apart(key.space, q, store, DeleteMemory(store, key, id), DeleteMemory(Part(store, key.space), key, id))
  {
    LookupPart(store, key.space, id);
    RemovePart(store, key.space, id, key.space);
    RemovePart(store, key.space, id, q);
  }

  lemma DeleteAllApart(store: Store, p: string, scope: Fields, q: string)
    ensures Apart(p, q, store, Contract.DeleteAll(store, p, scope), Contract.DeleteAll(Part(store, p), p, scope))
  {
    hide Survivors, Part, Doomed, HasNestedFilter;
    SurvivorsPart(store, p, scope, p);
    SurvivorsPart(store, p, scope, q);
  }

  lemma DeleteScopedApart(t: Tables, store: Store, key: Key, scope: Value, q: string)
    ensures Apart(key.space, q, store, DeleteScoped(t, store, key, scope), DeleteScoped(t, Part(store, key.space), key, scope))
  {
    hide CheckedScope, Contract.DeleteAll;
    var cleaned := CheckedScope(t, scope, SCOPE_KEYS);
    if cleaned.Ok? && cleaned.value.Some? {
      DeleteAllApart(store, key.space, cleaned.value.value, q);
    }
  }

  lemma WritesConfined(t: Tables, store: Store, r: Request, q: string)
    requires LawfulClasses(t) && !OnlyReads(r.ask) && !r.ask.AskImport?
    ensures Confined(t, store, r, q)
  {
    hide AddMemory, UpdateMemory, DeleteMemory, DeleteScoped, ImportMemories, SearchMemories, ListMemories,
        MemoryHistory, ExportMemories;
    match r.ask
    case AskAdd(content, scope, metadata) => AddApart(t, store, r.key, content, scope, metadata, r.draw, q);
    case AskUpdate(id, content, patch) => UpdateApart(store, r.key, id, content, patch, r.draw.now, q);
    case AskDelete(id) => DeleteApart(store, r.key, id, q);
    case AskDeleteAll(scope) => DeleteScopedApart(t, store, r.key, scope, q);
  }

  /** Every request, of any kind, on any store, is confined to its space. */
  lemma RequestIsConfined(t: Tables, store: Store, r: Request, q: string)
    requires LawfulClasses(t)
    ensures Confined(t, store, r, q)
  {
    hide ImportAll, AddMemory, UpdateMemory, DeleteMemory, DeleteScoped, SearchMemories, ListMemories, MemoryHistory,
        ExportMemories;
    if OnlyReads(r.ask) {
      ReadsConfined(t, store, r, q);
    } else if r.ask.AskImport? {
      var mode := ModeNamed(r.ask.mode);
      if mode.Some? {
        ImportStays(ImportBatch(t, r.key, r.ask.entries, mode.value, r.ask.draws, r.ask.outages), store, MAX_EXPORT, q);
      }
    } else {
      WritesConfined(t, store, r, q);
    }
  }

  /** Stores that agree on a space answer its keys alike, and still agree on it afterwards. */
  lemma SameSpaceSameAnswer(t: Tables, a: Store, b: Store, r: Request)
    requires LawfulClasses(t) && Part(a, r.key.space) == Part(b, r.key.space)
    ensures Serve(t, a, r).1 == Serve(t, b, r).1
    ensures Part(Serve(t, a, r).0, r.key.space) == Part(Serve(t, b, r).0, r.key.space)
  {
    hide Serve;
    RequestIsConfined(t, a, r, r.key.space);
    RequestIsConfined(t, b, r, r.key.space);
  }

  // ---------- Runs ----------

  /** The requests of a space's keys. */
  function Of(rs: seq<Request>, p: string): seq<Request>
    decreases |rs|
  {
    if rs == [] then []
    else if rs[|rs| - 1].key.space == p then Of(rs[..|rs| - 1], p) + [rs[|rs| - 1]]
    else Of(rs[..|rs| - 1], p)
  }

  /** The answers that a space's keys get in a run. */
  ghost function AnswersTo(t: Tables, store: Store, rs: seq<Request>, p: string): seq<Answer>
    requires LawfulClasses(t)
    decreases |rs|
  {
    if rs == [] then []
    else
      var front, last := rs[..|rs| - 1], rs[|rs| - 1];
      if last.key.space == p then AnswersTo(t, store, front, p) + [Serve(t, Final(t, store, front), last).1]
      else AnswersTo(t, store, front, p)
  }

  /** However the requests of different spaces interleave, a space's keys get the answers they would get
      with only their own requests served, on a store that holds only their space; and their space ends
      up the same. */
  lemma {:induction false} NoInterference(t: Tables, store: Store, rs: seq<Request>, p: string)
    requires LawfulClasses(t)
    ensures AnswersTo(t, store, rs, p) == AllAnswers(t, Part(store, p), Of(rs, p))
    ensures Part(Final(t, store, rs), p) == Final(t, Part(store, p), Of(rs, p))
    decreases |rs|
  {
    hide Serve;
    if rs != [] {
      var front, last := rs[..|rs| - 1], rs[|rs| - 1];
      NoInterference(t, store, front, p);
      RequestIsConfined(t, Final(t, store, front), last, p);
      if last.key.space == p {
        OneMore(t, Part(store, p), Of(front, p), last);
      }
    }
  }
}
