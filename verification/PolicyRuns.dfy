/** What holds after any run of requests by any keys, in any order. */
module PolicyRuns {
  import opened Results
  import opened Text
  import opened Values
  import opened CharTables
  import opened ScopeRules
  import opened Contract
  import opened Reading
  import opened Dedup
  import opened Policy
  import opened Requests
  import opened Attribution
  import opened PolicyImports
  import opened Searching

  predicate AnsweredFairly(a: Answer) {
    match a
    case Added(r) => FailsFairly(r)
    case Got(r) => FailsFairly(r)
    case Deleted(r) => FailsFairly(r)
    case Cleared(r) => FailsFairly(r)
    case Found(r) => FailsFairly(r)
    case Listed(r) => FailsFairly(r)
    case Told(r) => FailsFairly(r)
    case Exported(r) => FailsFairly(r)
    case Brought(r) => FailsFairly(r)
  }

  // ---------- One request ----------

  lemma SearchFair(t: Tables, store: Store, key: Key, query: string, scope: Value, limit: int, threshold: real,
      names: Signers)
    requires Lawful(t) && Healthy(store, names)
    ensures FailsFairly(SearchMemories(t, store, key, query, scope, limit, threshold))
  {
    hide Best, CheckedScope, Healthy;
    AcceptedKeys(t, scope);
    HealthyListing(store, key.space, names);
    if SearchAllowed(query, limit, threshold) && CheckedScope(t, scope, SCOPE_KEYS).Ok? {
      SearchIsBest(t, store, key, query, scope, limit, threshold);
    }
  }

  lemma ListFair(t: Tables, store: Store, key: Key, scope: Value, limit: int, cursor: Option<string>, names: Signers)
    requires Lawful(t) && Healthy(store, names)
    ensures FailsFairly(ListMemories(t, store, key, scope, limit, cursor))
  {
    hide CheckedScope, Healthy;
    AcceptedKeys(t, scope);
    HealthyListing(store, key.space, names);
    if ValidLimit(limit) && CheckedScope(t, scope, SCOPE_KEYS).Ok? {
      ListIsPage(t, store, key, scope, limit, cursor);
    }
  }

  /** An export holds the space's memories in order, up to the cap, and says whether there are more. */
  lemma ExportIs(store: Store, key: Key, names: Signers)
    requires Healthy(store, names)
    ensures
      var all := All(store, key.space);
      var shipped := if |all| <= MAX_EXPORT then all else all[..MAX_EXPORT];
      ExportMemories(store, key) == Ok(ExportPayload(AllOnWire(shipped), |shipped|, |all| > MAX_EXPORT))
  {
    hide Healthy, Follow;
    var all := All(store, key.space);
    var shipped := if |all| <= MAX_EXPORT then all else all[..MAX_EXPORT];
    HealthyListing(store, key.space, names);
    FollowPager(all, false, key.space, MAX_EXPORT);
    assert Slice(all, 0, MAX_EXPORT) == shipped;
    assert AllInSpace(Slice(all, 0, MAX_EXPORT + 1), key.space);
  }

  lemma ReadFair(t: Tables, store: Store, r: Request, names: Signers)
    requires Lawful(t) && Healthy(store, names) && OnlyReads(r.ask)
    ensures Serve(t, store, r).0 == store && AnsweredFairly(Serve(t, store, r).1)
  {
    hide Healthy, SearchMemories, ListMemories, ExportMemories, AddMemory, UpdateMemory, DeleteMemory, DeleteScoped,
        ImportMemories;
    match r.ask
    case AskGet(id) => Attribution.Read(store, r.key.space, id, names);
    case AskHistory(id) => Attribution.Read(store, r.key.space, id, names);
    case AskExport => ExportIs(store, r.key, names);
    case AskList(scope, limit, cursor) => ListFair(t, store, r.key, scope, limit, cursor, names);
    case AskSearch(query, scope, limit, threshold) => SearchFair(t, store, r.key, query, scope, limit, threshold, names);
  }

  lemma WriteHealthy(t: Tables, store: Store, r: Request, names: Signers)
    requires Lawful(t) && Healthy(store, names) && Authorized(r.key, names) && NewIds(store, r) && !OnlyReads(r.ask)
    ensures Healthy(Serve(t, store, r).0, names) && AnsweredFairly(Serve(t, store, r).1)
  {
    hide Healthy, AddMemory, UpdateMemory, DeleteMemory, DeleteScoped, ImportMemories, SearchMemories, ListMemories,
        MemoryHistory, ExportMemories;
    match r.ask
    case AskAdd(content, scope, metadata) => AddHealthy(t, store, r.key, content, scope, metadata, r.draw, names);
    case AskUpdate(id, content, patch) => UpdateHealthy(store, r.key, id, content, patch, r.draw.now, names);
    case AskDelete(id) => DeleteHealthy(store, r.key, id, names);
    case AskDeleteAll(scope) => DeleteScopedHealthy(t, store, r.key, scope, names);
    case AskImport(entries, mode, draws, outages) =>
      ImportHealthy(t, store, r.key, entries, mode, draws, outages, names);
  }

  lemma RequestHealthy(t: Tables, store: Store, r: Request, names: Signers)
    requires Lawful(t) && Healthy(store, names) && Authorized(r.key, names) && NewIds(store, r)
    ensures Healthy(Serve(t, store, r).0, names) && AnsweredFairly(Serve(t, store, r).1)
  {
    hide Healthy, AnsweredFairly, Serve;
    if OnlyReads(r.ask) {
      ReadFair(t, store, r, names);
    } else {
      WriteHealthy(t, store, r, names);
    }
  }

  // ---------- A run ----------

  /** The names of the writers of each space that made a request. */
  function WritersIn(rs: seq<Request>): Signers {
    (p: string) => set i | 0 <= i < |rs| && rs[i].key.space == p && rs[i].key.relation == Writer :: rs[i].key.name
  }

  lemma {:induction false} RunHealthy(t: Tables, store: Store, rs: seq<Request>, n: nat, names: Signers)
    requires Lawful(t) && Healthy(store, names) && NewInRun(store, rs) && n <= |rs|
    requires forall i :: 0 <= i < |rs| ==> Authorized(rs[i].key, names)
    ensures Healthy(Final(t, store, rs[..n]), names)
    ensures n < |rs| ==> AnsweredFairly(Serve(t, Final(t, store, rs[..n]), rs[n]).1)
    decreases n
  {
    hide Healthy, Serve, AnsweredFairly;
    if n == 0 {
      assert rs[..0] == [];
    } else {
      RunHealthy(t, store, rs, n - 1, names);
      NewAlongRun(t, store, rs, n - 1, n - 1);
      RequestHealthy(t, Final(t, store, rs[..n - 1]), rs[n - 1], names);
      assert rs[..n] == rs[..n - 1] + [rs[n - 1]];
      OneMore(t, store, rs[..n - 1], rs[n - 1]);
    }
    if n < |rs| {
      NewAlongRun(t, store, rs, n, n);
      RequestHealthy(t, Final(t, store, rs[..n]), rs[n], names);
    }
  }

  /** In a run from an empty store, no request was ever answered with an internal error, or with an error of the store's. */
  lemma {:induction false} EveryAnswerFair(t: Tables, rs: seq<Request>, n: nat)
    requires Lawful(t) && NewInRun([], rs) && n <= |rs|
    ensures |AllAnswers(t, [], rs[..n])| == n
    ensures forall i :: 0 <= i < n ==> AnsweredFairly(AllAnswers(t, [], rs[..n])[i])
    decreases n
  {
    hide Serve, Healthy, AnsweredFairly;
    if n == 0 {
      assert rs[..0] == [];
    } else {
      EveryAnswerFair(t, rs, n - 1);
      EmptyHealthy(WritersIn(rs));
      RunHealthy(t, [], rs, n - 1, WritersIn(rs));
      assert rs[..n] == rs[..n - 1] + [rs[n - 1]];
      OneMore(t, [], rs[..n - 1], rs[n - 1]);
    }
  }

  lemma EmptyHealthy(names: Signers)
    ensures Healthy([], names)
  {
  }
}
