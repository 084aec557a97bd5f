/** Who wrote what: every history entry was made by one request of a run, and bears the name of its key. */
module Authorship {
  import opened Results
  import opened Values
  import opened CharTables
  import opened ScopeRules
  import opened Contract
  import opened Transfer
  import opened Dedup
  import opened Lookups
  import opened Policy
  import opened Requests
  import opened Attribution
  import opened PolicyRuns
  import opened Lifetimes

  type Log = seq<HistoryEntry>

  /** The history of a memory, empty when it is not there. */
  function LogOf(store: Store, p: string, id: string): Log {
    var found := Lookup(store, p, id);
    if found.None? then [] else found.value.log
  }

  /** What a key adds to a history: entries at its end, each in its name; and none outside its own space, nor
      without the right to write. */
  ghost predicate Adds(before: Log, after: Log, key: Key, p: string) {
    && before <= after
    && (after != before ==> key.space == p && key.relation == Writer)
    && forall k :: |before| <= k < |after| ==> after[k].author == Some(key.name)
  }

  /** A memory that is there afterwards has the history it had, if it was there, and what the key added. */
  ghost predicate SignedBy(before: Store, after: Store, key: Key, p: string, id: string) {
    Lookup(after, p, id).Some? ==> Adds(LogOf(before, p, id), LogOf(after, p, id), key, p)
  }

  lemma AddSigned(t: Tables, store: Store, key: Key, content: string, scope: Value, metadata: Option<Fields>,
      draw: Draw,
      p: string, id: string)
    ensures SignedBy(store, AddMemory(t, store, key, content, scope, metadata, draw).0, key, p, id)
  {
    hide CheckedScope, AddChecks, AddRefusal;
    var cleaned := CheckedScope(t, scope, SCOPE_KEYS);
    if cleaned.Ok? {
      LookupAppend(store, NewRecord(key.space, AddDraft(key, content, cleaned.value, metadata), draw.id, draw.now), p,
          id);
    }
  }

  lemma UpdateSigned(store: Store, key: Key, target: string, content: Option<string>, metadata: Option<Fields>,
      now: string, p: string, id: string)
    ensures SignedBy(store, UpdateMemory(store, key, target, content, metadata, now).0, key, p, id)
  {
    hide UpdateChecks, PatchFits, UpdatePatch, ValidId, PatchMetadata;
    var existing := ReadById(store, key.space, target);
    if existing.Ok? {
      LookupReplace(store, key.space, target, UpdateChange(key, existing.value, content, metadata), now, p, id);
    }
  }

  lemma DeleteSigned(store: Store, key: Key, target: string, p: string, id: string)
    requires UniqueIds(store)
    ensures SignedBy(store, DeleteMemory(store, key, target).0, key, p, id)
  {
    hide ValidId;
    LookupRemove(store, key.space, target, p, id);
  }

  lemma DeleteScopedSigned(t: Tables, store: Store, key: Key, scope: Value, p: string, id: string)
    requires UniqueIds(store)
    ensures SignedBy(store, DeleteScoped(t, store, key, scope).0, key, p, id)
  {
    hide CheckedScope, Doomed;
    var cleaned := CheckedScope(t, scope, SCOPE_KEYS);
    if cleaned.Ok? && cleaned.value.Some? {
      LookupSurvivors(store, key.space, cleaned.value.value, p, id);
    }
  }

  // ---------- An import ----------

  ghost predicate Stamps(b: Batch, key: Key) {
    WellFormed(b) && b.partition == key.space && b.stamp == Some(ImportStamp(key)) && key.relation == Writer
  }

  lemma CreateSigned(b: Batch, s: Import, i: nat, k: DedupKey, draft: NewMemory, key: Key, p: string, id: string)
    requires Stamps(b, key) && i < |b.draws| && draft.system == Some(b.stamp.value(i, None))
    ensures SignedBy(s.store, CreateOne(b, s, i, k, draft).store, key, p, id)
  {
    hide AddRefusal;
    LookupAppend(s.store, NewRecord(b.partition, draft, b.draws[i].id, b.draws[i].now), p, id);
  }

  lemma OverwriteSigned(b: Batch, s: Import, i: nat, k: DedupKey, content: string, metadata: Option<Fields>, key: Key,
      p: string, id: string)
    requires Stamps(b, key) && i < |b.draws| && k in s.done.existing
    ensures SignedBy(s.store, OverwriteOne(b, s, i, k, content, metadata).store, key, p, id)
  {
    hide PatchRefused, PatchOver, PatchMetadata;
    var dup := s.done.existing[k];
    LookupReplace(s.store, b.partition, dup.id, OverwriteChange(b, i, dup, content, metadata), b.draws[i].now, p, id);
  }

  lemma EntrySigned(b: Batch, s: Import, i: nat, key: Key, p: string, id: string)
    requires Stamps(b, key) && i < |b.entries|
    ensures SignedBy(s.store, ImportOne(b, s, i).store, key, p, id)
  {
    hide Check, CreateOne, OverwriteOne;
    if Valid(b, i) {
      var c, k := Check(b.validate, b.entries[i]), EntryKey(b, i);
      if k in s.done.existing && b.mode == Overwrite {
        OverwriteSigned(b, s, i, k, c.content, c.metadata, key, p, id);
      } else {
        CreateSigned(b, s, i, k, DraftOf(b, i), key, p, id);
      }
    }
  }

  /** An import keeps every memory it finds. */
  lemma EntryFinds(b: Batch, s: Import, i: nat, p: string, id: string)
    requires WellFormed(b) && i < |b.entries| && Lookup(s.store, p, id).Some?
    ensures Lookup(ImportOne(b, s, i).store, p, id).Some?
  {
    hide Check, AddRefusal, PatchRefused, OverwriteChange;
    if Valid(b, i) {
      var c, k := Check(b.validate, b.entries[i]), EntryKey(b, i);
      if k in s.done.existing && b.mode == Overwrite {
        var dup := s.done.existing[k];
        LookupReplace(s.store, b.partition, dup.id, OverwriteChange(b, i, dup, c.content, c.metadata), b.draws[i].now,
            p, id);
      } else {
        LookupAppend(s.store, NewOf(b, i), p, id);
      }
    }
  }

  lemma {:induction false} EntriesSigned(b: Batch, s: Import, n: nat, key: Key, p: string, id: string)
    requires Stamps(b, key) && n <= |b.entries|
    ensures SignedBy(s.store, ImportTo(b, s, n).store, key, p, id)
    ensures Lookup(s.store, p, id).Some? ==> Lookup(ImportTo(b, s, n).store, p, id).Some?
    decreases n
  {
    hide ImportOne;
    if n > 0 {
      var before := ImportTo(b, s, n - 1);
      EntriesSigned(b, s, n - 1, key, p, id);
      EntrySigned(b, before, n - 1, key, p, id);
      if Lookup(before.store, p, id).Some? {
        EntryFinds(b, before, n - 1, p, id);
      }
    }
  }

  lemma ImportSigned(t: Tables, store: Store, key: Key, entries: seq<Entry>, mode: string, draws: seq<Draw>,
      outages: seq<Outage>, p: string, id: string)
    requires |draws| == |entries| == |outages|
    ensures SignedBy(store, ImportMemories(t, store, key, entries, mode, draws, outages).0, key, p, id)
  {
    hide ImportTo, Start;
    if key.relation == Writer && ModeNamed(mode).Some? {
      var b := ImportBatch(t, key, entries, ModeNamed(mode).value, draws, outages);
      var start := Start(b, store, MAX_EXPORT);
      if start.Ok? {
        EntriesSigned(b, Import(store, start.value), |entries|, key, p, id);
      }
    }
  }

  // ---------- A request ----------

  /** Whatever a key asks, imports included, the histories of the memories then stored are what they were,
      with entries added at the end in the key's own name, in its own space, and only if it may write; a
      new memory's whole history is in its name. */
  lemma RequestSigned(t: Tables, store: Store, r: Request, p: string, id: string)
    requires LawfulClasses(t) && UniqueIds(store)
    ensures SignedBy(store, Serve(t, store, r).0, r.key, p, id)
  {
    hide AddMemory, UpdateMemory, DeleteMemory, DeleteScoped, ImportMemories, SearchMemories, ListMemories,
      MemoryHistory, ExportMemories;
    match r.ask
    case AskAdd(content, scope, metadata) => AddSigned(t, store, r.key, content, scope, metadata, r.draw, p, id);
    case AskUpdate(target, content, patch) => UpdateSigned(store, r.key, target, content, patch, r.draw.now, p, id);
    case AskDelete(target) => DeleteSigned(store, r.key, target, p, id);
    case AskDeleteAll(scope) => DeleteScopedSigned(t, store, r.key, scope, p, id);
    case AskImport(entries, mode, draws, outages) =>
      ImportSigned(t, store, r.key, entries, mode, draws, outages, p, id);
    case _ =>
  }

  // ---------- A run ----------

  ghost function LogAt(t: Tables, rs: seq<Request>, n: nat, p: string, id: string): Log
    requires LawfulClasses(t) && n <= |rs|
  {
    LogOf(Final(t, [], rs[..n]), p, id)
  }

  /** Request `i` of the run made entry `k` of the memory's history: the history reached past `k` with it and
      not before, its key may write the memory's space, and the entry bears that key's name. */
  ghost predicate Made(t: Tables, rs: seq<Request>, i: nat, p: string, id: string, k: nat, author: Option<string>)
    requires LawfulClasses(t) && i < |rs|
  {
    && |LogAt(t, rs, i, p, id)| <= k < |LogAt(t, rs, i + 1, p, id)|
    && rs[i].key.space == p && rs[i].key.relation == Writer && author == Some(rs[i].key.name)
  }

  ghost predicate HasMaker(t: Tables, rs: seq<Request>, p: string, id: string, k: nat, author: Option<string>)
    requires LawfulClasses(t)
  {
    exists i :: 0 <= i < |rs| && Made(t, rs, i, p, id, k, author)
  }

  lemma StepAdds(t: Tables, rs: seq<Request>, n: nat, p: string, id: string)
    requires Lawful(t) && NewInRun([], rs) && n < |rs| && At(t, rs, n + 1, p, id).Some?
    ensures Adds(LogAt(t, rs, n, p, id), LogAt(t, rs, n + 1, p, id), rs[n].key, p)
  {
    hide Serve, Final, RecordOk, Adds;
    HealthyAt(t, rs, n, WritersIn(rs));
    RequestSigned(t, Final(t, [], rs[..n]), rs[n], p, id);
    assert rs[..n + 1] == rs[..n] + [rs[n]];
    OneMore(t, [], rs[..n], rs[n]);
  }

  /** Every entry of a history in a run from an empty store was made by one of its requests. */
  lemma {:induction false} EntryWasMade(t: Tables, rs: seq<Request>, n: nat, p: string, id: string, k: nat)
    returns (i: nat)
    requires Lawful(t) && NewInRun([], rs) && n <= |rs| && At(t, rs, n, p, id).Some? && k < |LogAt(t, rs, n, p, id)|
    ensures i < n && Made(t, rs, i, p, id, k, LogAt(t, rs, n, p, id)[k].author)
    decreases n
  {
    hide Final, Serve, NewInRun;
    assert rs[..0] == [];
    if n == 0 {
      NothingAtFirst(t, rs, p, id);
    } else {
      StepAdds(t, rs, n - 1, p, id);
      if k < |LogAt(t, rs, n - 1, p, id)| {
        i := EntryWasMade(t, rs, n - 1, p, id, k);
      } else {
        i := n - 1;
      }
    }
  }

  lemma NothingAtFirst(t: Tables, rs: seq<Request>, p: string, id: string)
    requires LawfulClasses(t)
    ensures At(t, rs, 0, p, id).None?
  {
    assert rs[..0] == [];
  }

  /** A request at which the history reaches past `k` is the only one, while the memory lives. */
  lemma OneMaker(t: Tables, rs: seq<Request>, n: nat, p: string, id: string, k: nat, i: nat, j: nat)
    requires Lawful(t) && NewInRun([], rs) && i < j < n <= |rs| && At(t, rs, n, p, id).Some?
    requires |LogAt(t, rs, i, p, id)| <= k < |LogAt(t, rs, i + 1, p, id)|
    ensures !(|LogAt(t, rs, j, p, id)| <= k < |LogAt(t, rs, j + 1, p, id)|)
  {
    hide Final, NewInRun, SameRecord;
    assert At(t, rs, i + 1, p, id).Some?;
    SameMemoryThroughout(t, rs, i + 1, n, p, id);
    assert At(t, rs, j, p, id).Some?;
    SameMemoryThroughout(t, rs, i + 1, j, p, id);
    GrownLog(At(t, rs, i + 1, p, id).value, At(t, rs, j, p, id).value);
  }

  lemma GrownLog(a: Contract.Record, b: Contract.Record)
    requires SameRecord(a, b)
    ensures |a.log| <= |b.log|
  {
  }

  /** After any run from an empty store, every memory is explained by its history and within the rules, and
      each entry of the history was made by exactly one request, whose key may write the memory's space and
      whose name it bears: the last entry's author, which is the memory's, is the key that last wrote it,
      and the first's, which is its creator, the key that created it. */
  lemma EveryMemoryExplained(t: Tables, rs: seq<Request>, r: Contract.Record)
    requires Lawful(t) && NewInRun([], rs) && r in Final(t, [], rs)
    ensures RecordOk(r, WritersIn(rs)(r.memory.partition))
    ensures forall k :: 0 <= k < |r.log| ==> HasMaker(t, rs, r.memory.partition, r.memory.id, k, r.log[k].author)
  {
    hide Serve, RecordOk, Final, Made, NewInRun;
    var p, id := r.memory.partition, r.memory.id;
    HealthyAt(t, rs, |rs|, WritersIn(rs));
    assert rs[..|rs|] == rs;
    FoundByItself(Final(t, [], rs), r);
    forall k | 0 <= k < |r.log|
      ensures HasMaker(t, rs, p, id, k, r.log[k].author)
    {
      assert LogAt(t, rs, |rs|, p, id) == r.log;
      var i := EntryWasMade(t, rs, |rs|, p, id, k);
      assert Made(t, rs, i, p, id, k, r.log[k].author);
    }
  }

  lemma {:induction false} FoundByItself(store: Store, r: Contract.Record)
    requires UniqueIds(store) && r in store
    ensures Lookup(store, r.memory.partition, r.memory.id) == Some(r)
    decreases |store|
  {
    if store[0] != r {
      UniqueTail(store);
      assert store == [store[0]] + store[1..];
      assert r in store[1..];
      FoundByItself(store[1..], r);
    }
  }
}
