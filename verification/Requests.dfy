/** What clients ask of policy, and what a run of requests answers and leaves behind. */
module Requests {
  import opened Results
  import opened Values
  import opened CharTables
  import opened Contract
  import opened Reading
  import opened Transfer
  import opened Policy

  datatype Ask =
    | AskAdd(content: string, scope: Value, metadata: Option<Fields>)
    | AskGet(id: string)
    | AskUpdate(id: string, change: Option<string>, patch: Option<Fields>)
    | AskDelete(id: string)
    | AskDeleteAll(scope: Value)
    | AskSearch(query: string, scope: Value, limit: int, threshold: real)
    | AskList(scope: Value, limit: int, cursor: Option<string>)
    | AskHistory(id: string)
    | AskExport
    | AskImport(entries: seq<Entry>, mode: string, draws: seq<Draw>, outages: seq<Outage>)

  /** A request by a key, with the id and the time a single write would draw; an import draws its own. */
  datatype RawRequest = Request(key: Key, ask: Ask, draw: Draw)

  predicate Drawn(r: RawRequest) {
    r.ask.AskImport? ==> |r.ask.draws| == |r.ask.entries| == |r.ask.outages|
  }

  type Request = r: RawRequest | Drawn(r) witness Request(Key("", "", Reader), AskExport, Draw("", ""))

  datatype Answer =
    | Added(added: Result<seq<AddResult>>)
    | Got(got: Result<Memory>)
    | Deleted(deleted: Result<bool>)
    | Cleared(cleared: Result<nat>)
    | Found(found: Result<seq<Hit>>)
    | Listed(page: Result<Page>)
    | Told(told: Result<seq<HistoryEntry>>)
    | Exported(payload: Result<ExportPayload>)
    | Brought(outcome: Result<Outcome>)

  ghost function Serve(t: Tables, store: Store, r: Request): (Store, Answer)
    requires LawfulClasses(t)
  {
    match r.ask
    case AskAdd(content, scope, metadata) =>
      var (s, a) := AddMemory(t, store, r.key, content, scope, metadata, r.draw); (s, Added(a))
    case AskGet(id) => (store, Got(GetMemory(store, r.key, id)))
    case AskUpdate(id, content, patch) =>
      var (s, a) := UpdateMemory(store, r.key, id, content, patch, r.draw.now); (s, Got(a))
    case AskDelete(id) => var (s, a) := DeleteMemory(store, r.key, id); (s, Deleted(a))
    case AskDeleteAll(scope) => var (s, a) := DeleteScoped(t, store, r.key, scope); (s, Cleared(a))
    case AskSearch(query, scope, limit, threshold) =>
      (store, Found(SearchMemories(t, store, r.key, query, scope, limit, threshold)))
    case AskList(scope, limit, cursor) => (store, Listed(ListMemories(t, store, r.key, scope, limit, cursor)))
    case AskHistory(id) => (store, Told(MemoryHistory(store, r.key, id)))
    case AskExport => (store, Exported(ExportMemories(store, r.key)))
    case AskImport(entries, mode, draws, outages) =>
      var (s, a) := ImportMemories(t, store, r.key, entries, mode, draws, outages); (s, Brought(a))
  }

  /** The store after the requests, one by one. */
  ghost function Final(t: Tables, store: Store, rs: seq<Request>): Store
    requires LawfulClasses(t)
    decreases |rs|
  {
    if rs == [] then store else Serve(t, Final(t, store, rs[..|rs| - 1]), rs[|rs| - 1]).0
  }

  ghost function AllAnswers(t: Tables, store: Store, rs: seq<Request>): seq<Answer>
    requires LawfulClasses(t)
    decreases |rs|
  {
    if rs == [] then []
    else AllAnswers(t, store, rs[..|rs| - 1]) + [Serve(t, Final(t, store, rs[..|rs| - 1]), rs[|rs| - 1]).1]
  }

  lemma OneMore(t: Tables, store: Store, rs: seq<Request>, r: Request)
    requires LawfulClasses(t)
    ensures Final(t, store, rs + [r]) == Serve(t, Final(t, store, rs), r).0
    ensures AllAnswers(t, store, rs + [r]) == AllAnswers(t, store, rs) + [Serve(t, Final(t, store, rs), r).1]
  {
    assert (rs + [r])[..|rs|] == rs;
  }

  // ---------- The ids that a run draws ----------

  /** The ids a request may give to new memories. */
  function IdsOf(r: Request): set<string> {
    if r.ask.AskImport? then set i | 0 <= i < |r.ask.draws| :: r.ask.draws[i].id else {r.draw.id}
  }

  ghost predicate NewIds(store: Store, r: Request) {
    && (forall id :: id in IdsOf(r) ==> Fresh(store, id))
    && (r.ask.AskImport? ==> forall j, k :: 0 <= j < k < |r.ask.draws| ==> r.ask.draws[j].id != r.ask.draws[k].id)
  }

  /** Every id drawn is new when it is drawn, and was not drawn before. */
  ghost predicate NewInRun(store: Store, rs: seq<Request>) {
    && (forall i :: 0 <= i < |rs| ==> NewIds(store, rs[i]))
    && (forall i, j :: 0 <= i < j < |rs| ==> IdsOf(rs[i]) !! IdsOf(rs[j]))
  }

  lemma UpdateFresh(store: Store, key: Key, id: string, content: Option<string>, metadata: Option<Fields>,
      now: string, other: string)
    requires Fresh(store, other)
    ensures Fresh(UpdateMemory(store, key, id, content, metadata, now).0, other)
  {
    hide Fresh, UpdateChecks, PatchFits, UpdatePatch, ValidId;
    var existing := ReadById(store, key.space, id);
    if existing.Ok? {
      ReplaceFresh(store, key.space, id, UpdateChange(key, existing.value, content, metadata), now, other);
    }
  }

  lemma DeleteScopedFresh(t: Tables, store: Store, key: Key, scope: Value, other: string)
    requires Fresh(store, other)
    ensures Fresh(DeleteScoped(t, store, key, scope).0, other)
  {
    hide Fresh, ScopeRules.CheckedScope;
    var cleaned := ScopeRules.CheckedScope(t, scope, SCOPE_KEYS);
    if cleaned.Ok? && cleaned.value.Some? {
      SurvivorsFresh(store, key.space, cleaned.value.value, other);
    }
  }

  lemma AddFresh(t: Tables, store: Store, key: Key, content: string, scope: Value, metadata: Option<Fields>,
      draw: Draw, other: string)
    requires Fresh(store, other) && other != draw.id
    ensures Fresh(AddMemory(t, store, key, content, scope, metadata, draw).0, other)
  {
    hide ScopeRules.CheckedScope, AddChecks, AddRefusal;
  }

  lemma WriteFresh(t: Tables, store: Store, r: Request, other: string)
    requires LawfulClasses(t) && !r.ask.AskImport? && Fresh(store, other) && other !in IdsOf(r)
    ensures Fresh(Serve(t, store, r).0, other)
  {
    hide Fresh, AddMemory, UpdateMemory, DeleteScoped, ImportMemories, SearchMemories, ListMemories, MemoryHistory,
        ExportMemories;
    match r.ask {
      case AskAdd(content, scope, metadata) =>
        AddFresh(t, store, r.key, content, scope, metadata, r.draw, other);
      case AskUpdate(id, content, patch) =>
        UpdateFresh(store, r.key, id, content, patch, r.draw.now, other);
      case AskDelete(id) =>
        RemoveFresh(store, r.key.space, id, other);
      case AskDeleteAll(scope) =>
        DeleteScopedFresh(t, store, r.key, scope, other);
      case _ =>
    }
  }

  lemma EntryFresh(b: Batch, s: Import, i: nat, other: string)
    requires WellFormed(b) && i < |b.entries| && Fresh(s.store, other) && b.draws[i].id != other
    ensures Fresh(ImportOne(b, s, i).store, other)
  {
    var c := Check(b.validate, b.entries[i]);
    if c.Accepted? {
      var key := DedupKey(c.content, ScopeKey(c.scope));
      if key in s.done.existing && b.mode == Overwrite {
        var dup := s.done.existing[key];
        ReplaceFresh(s.store, b.partition, dup.id, OverwriteChange(b, i, dup, c.content, c.metadata), b.draws[i].now,
            other);
      }
    }
  }

  lemma {:induction false} ImportFresh(b: Batch, s: Import, n: nat, other: string)
    requires WellFormed(b) && n <= |b.entries| && Fresh(s.store, other)
    requires forall i :: 0 <= i < |b.draws| ==> b.draws[i].id != other
    ensures Fresh(ImportTo(b, s, n).store, other)
    decreases n
  {
    hide ImportOne;
    if n > 0 {
      ImportFresh(b, s, n - 1, other);
      EntryFresh(b, ImportTo(b, s, n - 1), n - 1, other);
    }
  }

  /** A request uses no id but its own. */
  lemma ServeFresh(t: Tables, store: Store, r: Request, other: string)
    requires LawfulClasses(t) && Fresh(store, other) && other !in IdsOf(r)
    ensures Fresh(Serve(t, store, r).0, other)
  {
    hide ImportTo, Start, AddMemory, UpdateMemory, DeleteMemory, DeleteScoped, SearchMemories, ListMemories,
        MemoryHistory, ExportMemories;
    if r.ask.AskImport? {
      var mode := ModeNamed(r.ask.mode);
      if mode.Some? {
        var b := ImportBatch(t, r.key, r.ask.entries, mode.value, r.ask.draws, r.ask.outages);
        var start := Start(b, store, MAX_EXPORT);
        if start.Ok? {
          ImportFresh(b, Import(store, start.value), |b.entries|, other);
        }
      }
    } else {
      WriteFresh(t, store, r, other);
    }
  }

  /** In a run, each request finds its ids unused. */
  lemma {:induction false} NewAlongRun(t: Tables, store: Store, rs: seq<Request>, n: nat, m: nat)
    requires LawfulClasses(t) && NewInRun(store, rs) && n <= m < |rs|
    ensures NewIds(Final(t, store, rs[..n]), rs[m])
    decreases n
  {
    hide Serve;
    if n == 0 {
      assert rs[..0] == [];
    } else {
      NewAlongRun(t, store, rs, n - 1, m);
      assert rs[..n] == rs[..n - 1] + [rs[n - 1]];
      OneMore(t, store, rs[..n - 1], rs[n - 1]);
      forall id | id in IdsOf(rs[m])
        ensures Fresh(Final(t, store, rs[..n]), id)
      {
        ServeFresh(t, Final(t, store, rs[..n - 1]), rs[n - 1], id);
      }
    }
  }

  // ---------- Runs on the object ----------

  method Dispatch(layer: PolicyLayer, r: Request) returns (a: Answer)
    requires layer.backend.Valid() && NewIds(layer.backend.View(), r)
    modifies layer.backend
    ensures layer.backend.Valid()
    ensures (layer.backend.View(), a) == Serve(layer.backend.tables, old(layer.backend.View()), r)
  {
    hide AddMemory, UpdateMemory, DeleteMemory, DeleteScoped, ImportMemories, SearchMemories, ListMemories,
        MemoryHistory, ExportMemories;
    match r.ask
    case AskAdd(content, scope, metadata) =>
      var x := layer.Add(r.key, content, scope, metadata, r.draw);
      a := Added(x);
    case AskUpdate(id, content, patch) =>
      var x := layer.Update(r.key, id, content, patch, r.draw.now);
      a := Got(x);
    case AskDelete(id) =>
      var x := layer.Delete(r.key, id);
      a := Deleted(x);
    case AskDeleteAll(scope) =>
      var x := layer.DeleteAll(r.key, scope);
      a := Cleared(x);
    case AskImport(entries, mode, draws, outages) =>
      var x := layer.ImportBatchOf(r.key, entries, mode, draws, outages);
      a := Brought(x);
    case _ =>
      a := DispatchRead(layer, r);
  }

  predicate OnlyReads(ask: Ask) {
    ask.AskGet? || ask.AskSearch? || ask.AskList? || ask.AskHistory? || ask.AskExport?
  }

  method DispatchRead(layer: PolicyLayer, r: Request) returns (a: Answer)
    requires layer.backend.Valid() && OnlyReads(r.ask)
    ensures (layer.backend.View(), a) == Serve(layer.backend.tables, layer.backend.View(), r)
  {
    hide GetMemory, SearchMemories, ListMemories, MemoryHistory, ExportMemories, AddMemory, UpdateMemory,
        DeleteMemory, DeleteScoped, ImportMemories;
    match r.ask
    case AskGet(id) =>
      var x := layer.Get(r.key, id);
      a := Got(x);
    case AskSearch(query, scope, limit, threshold) =>
      var x := layer.Search(r.key, query, scope, limit, threshold);
      a := Found(x);
    case AskList(scope, limit, cursor) =>
      var x := layer.List(r.key, scope, limit, cursor);
      a := Listed(x);
    case AskHistory(id) =>
      var x := layer.History(r.key, id);
      a := Told(x);
    case AskExport =>
      var x := layer.Export(r.key);
      a := Exported(x);
  }

  /** Requests served one after another by the object answer, and leave, what the run says. */
  method ServeAll(layer: PolicyLayer, rs: seq<Request>) returns (answers: seq<Answer>)
    requires layer.backend.Valid() && NewInRun(layer.backend.View(), rs)
    modifies layer.backend
    ensures layer.backend.Valid()
    ensures layer.backend.View() == Final(layer.backend.tables, old(layer.backend.View()), rs)
    ensures answers == AllAnswers(layer.backend.tables, old(layer.backend.View()), rs)
  {
    hide Serve;
    ghost var t, before := layer.backend.tables, layer.backend.View();
    answers := [];
    assert rs[..0] == [];
    for n := 0 to |rs|
      invariant layer.backend.Valid()
      invariant layer.backend.View() == Final(t, before, rs[..n]) && answers == AllAnswers(t, before, rs[..n])
    {
      NewAlongRun(t, before, rs, n, n);
      var a := Dispatch(layer, rs[n]);
      OneMore(t, before, rs[..n], rs[n]);
      assert rs[..n + 1] == rs[..n] + [rs[n]];
      answers := answers + [a];
    }
    assert rs[..|rs|] == rs;
  }
}
