/** What policy answers a request on a store that it wrote, in terms of the request and the stored records. */
module Answers {
  import opened Results
  import opened Text
  import opened Values
  import opened CharTables
  import opened Metadata
  import opened Score
  import opened ScopeRules
  import opened Contract
  import opened Reading
  import opened Transfer
  import opened Dedup
  import opened Lookups
  import opened Policy
  import opened Attribution
  import opened PolicyImports
  import opened Searching
  import opened ScopeMeanings
  import opened PolicyRuns

  // ---------- One memory ----------

  /** An id that can be asked for: 1 to 128 letters, digits, underscores and hyphens. */
  predicate IsId(id: string) {
    && 1 <= |id| <= 128
    && forall i :: 0 <= i < |id| ==>
         'a' <= id[i] <= 'z' || 'A' <= id[i] <= 'Z' || '0' <= id[i] <= '9' || id[i] == '_' || id[i] == '-'
  }

  lemma IsIdIff(id: string)
    ensures IsId(id) <==> ValidId(id)
  {
    assert forall i :: 0 <= i < |id| ==> (IsIdChar(id[i]) <==>
      ('a' <= id[i] <= 'z' || 'A' <= id[i] <= 'Z' || '0' <= id[i] <= '9' || id[i] == '_' || id[i] == '-'));
  }

  function Absent(id: string): PolicyCode {
    if IsId(id) then NotFound else ValidationError
  }

  /** A memory and its history are answered exactly when the caller's own space holds the id; another
      space's memory is as absent as one that never was. */
  lemma ReadIs(store: Store, key: Key, id: string, names: Signers)
    requires Healthy(store, names)
    ensures
      var found := Lookup(store, key.space, id);
      if IsId(id) && found.Some? then
        GetMemory(store, key, id) == Ok(found.value.memory) && MemoryHistory(store, key, id) == Ok(found.value.log)
      else
        && GetMemory(store, key, id) == Err(PolicyError(Absent(id)))
        && MemoryHistory(store, key, id) == Err(PolicyError(Absent(id)))
  {
    hide Healthy, ValidId, IsId;
    IsIdIff(id);
    Attribution.Read(store, key.space, id, names);
  }

  // ---------- What is accepted ----------

  ghost predicate MayStore(content: string) {
    Strip(content) != "" && |content| <= 100_000
  }

  /** A field of metadata: no key of the server's own, and text, a number, a flag or a list of texts; or, in an
      update, a null, which takes the key away. */
  predicate MayKeep(k: string, v: Value, removing: bool) {
    && !("_memcp_" <= k)
    && k !in {"actor_id", "agent_id", "attributed_to", "created_at", "data", "expiration_date", "hash", "id",
              "memory_type", "role", "run_id", "text_lemmatized", "updated_at", "user_id"}
    && (if v.Null? then removing
        else |k| <= 64 &&
             (v.Str? || v.Bool? || (v.Number? && v.finite) ||
              (v.List? && forall i :: 0 <= i < |v.items| ==> v.items[i].Str?)))
  }

  predicate MayKeepAll(metadata: Fields, removing: bool) {
    forall k :: k in metadata ==> MayKeep(k, metadata[k], removing)
  }

  lemma FieldsIff(metadata: Fields, removing: bool)
    ensures IsValid(metadata, removing) <==> MayKeepAll(metadata, removing)
  {
    forall k | k in metadata
      ensures ValidPair(k, metadata[k], removing) <==> MayKeep(k, metadata[k], removing)
    {
      FieldIff(k, metadata[k], removing);
    }
  }

  lemma FieldIff(k: string, v: Value, removing: bool)
    ensures ValidPair(k, v, removing) <==> MayKeep(k, v, removing)
  {
  }

  /** An add goes through exactly when a writer gives content, metadata and a scope that are within the rules,
      and otherwise stores nothing. */
  lemma AddAcceptedIff(t: Tables, store: Store, key: Key, content: string, scope: Value, metadata: Option<Fields>,
      draw: Draw, names: Signers)
    requires LawfulFolding(t) && Healthy(store, names) && Fresh(store, draw.id)
    ensures
      var (after, r) := AddMemory(t, store, key, content, scope, metadata, draw);
      && (r.Ok? <==>
            && key.relation == Writer && MayStore(content) && MayScope(t, scope, SCOPE_KEYS)
            && MayKeepAll(OrElse(metadata, map[]), false) && Size(OrElse(metadata, map[])) <= 16_384)
      && (r.Err? ==> after == store)
  {
    hide CheckedScope, MayScope, Healthy, Strip, Size, IsValid, MayKeepAll;
    FieldsIff(OrElse(metadata, map[]), false);
    AcceptedIff(t, scope, SCOPE_KEYS);
    AcceptedKeys(t, scope);
    EmptyKept();
    if key.relation == Writer && AddChecks(content, metadata) && CheckedScope(t, scope, SCOPE_KEYS).Ok? {
      var draft := AddDraft(key, content, CheckedScope(t, scope, SCOPE_KEYS).value, metadata);
      ValidIsUnreserved(OrElse(metadata, map[]));
      AddedIsFound(store, NewRecord(key.space, draft, draw.id, draw.now));
    }
  }

  /** The patch fits: the merged metadata is within the cap, or no larger than what was stored. */
  ghost predicate MayPatch(stored: Fields, given: Fields) {
    var merged := Size(MergePatch(stored, given));
    given == map[] || merged <= 16_384 || merged <= Size(stored)
  }

  lemma FitsIff(stored: Fields, metadata: Option<Fields>)
    ensures PatchFits(stored, UpdatePatch(metadata)) <==> MayPatch(stored, OrElse(metadata, map[]))
  {
    hide Size, MergePatch, AsPatch;
    if metadata.Some? {
      PatchOrdersAgree(stored, AsPatch(metadata.value));
      PatchIsMergePatch(stored, metadata.value);
    }
  }

  /** An update goes through exactly when a writer gives something to change, all of it within the rules, for
      a memory of the caller's space; otherwise nothing is stored. */
  lemma UpdateAcceptedIff(store: Store, key: Key, id: string, content: Option<string>, metadata: Option<Fields>,
      now: string, names: Signers)
    requires Healthy(store, names)
    ensures
      var (after, r) := UpdateMemory(store, key, id, content, metadata, now);
      var found := Lookup(store, key.space, id);
      && (r.Ok? <==>
            && key.relation == Writer && (content.Some? || OrElse(metadata, map[]) != map[])
            && (content.Some? ==> MayStore(content.value)) && MayKeepAll(OrElse(metadata, map[]), true)
            && IsId(id) && found.Some? && MayPatch(found.value.memory.metadata, OrElse(metadata, map[])))
      && (r.Err? ==> after == store)
  {
    hide Healthy, ValidId, IsId, RecordOk, IsValid, MayKeepAll, PatchFits, MayPatch, Strip, UpdatePatch, PatchRefused;
    IsIdIff(id);
    FieldsIff(OrElse(metadata, map[]), true);
    assert MayKeepAll(map[], true) by {
      NothingToKeep();
    }
    Attribution.Read(store, key.space, id, names);
    var found := Lookup(store, key.space, id);
    if found.Some? {
      FitsIff(found.value.memory.metadata, metadata);
      if UpdateChecks(content, metadata) && PatchFits(found.value.memory.metadata, UpdatePatch(metadata)) {
        UpdateKeepsMetadata(found.value, metadata, names(key.space));
      }
    }
  }

  lemma NothingToKeep()
    ensures MayKeepAll(map[], true)
  {
  }

  /** A key that may only read changes nothing, whatever it asks for. */
  lemma ReadersWriteNothing(t: Tables, store: Store, key: Key, content: string, scope: Value, metadata: Option<Fields>,
      draw: Draw, id: string, change: Option<string>, entries: seq<Entry>, mode: string, draws: seq<Draw>,
      outages: seq<Outage>)
    requires key.relation == Reader && |draws| == |entries| == |outages|
    ensures AddMemory(t, store, key, content, scope, metadata, draw) == (store, Err(PolicyError(Forbidden)))
    ensures UpdateMemory(store, key, id, change, metadata, draw.now) == (store, Err(PolicyError(Forbidden)))
    ensures DeleteMemory(store, key, id) == (store, Err(PolicyError(Forbidden)))
    ensures DeleteScoped(t, store, key, scope) == (store, Err(PolicyError(Forbidden)))
    ensures ImportMemories(t, store, key, entries, mode, draws, outages) == (store, Err(PolicyError(Forbidden)))
  {
    hide CheckedScope, ImportAll, AddChecks, UpdateChecks;
  }

  // ---------- Many memories ----------

  lemma {:induction false} HitsAtMost(t: Tables, memories: seq<Memory>, query: string)
    requires LawfulClasses(t)
    ensures |Hits(t, memories, query)| <= |memories|
    decreases |memories|
  {
    hide ScoreOf;
    if memories != [] {
      HitsAtMost(t, memories[1..], query);
    }
  }

  lemma {:induction false} ListingAtMost(store: Store, p: string, scope: Option<Fields>)
    ensures |Listing(store, p, scope)| <= |All(store, p)|
    decreases |store|
  {
    hide InScope;
    if store != [] {
      assert InScope(store[0].memory, None) by {
        EverythingInScope(store[0].memory);
      }
      ListingAtMost(store[1..], p, scope);
    }
  }

  lemma EverythingInScope(m: Memory)
    ensures InScope(m, None)
  {
  }

  /** A search is answered exactly when the query is not blank nor too long, the limit and the threshold are
      in range, and the scope is one that may be given. */
  lemma SearchAcceptedIff(t: Tables, store: Store, key: Key, query: string, scope: Value, limit: int, threshold: real,
      names: Signers)
    requires Lawful(t) && Healthy(store, names)
    ensures SearchMemories(t, store, key, query, scope, limit, threshold).Ok? <==>
      && Strip(query) != "" && |query| <= 10_000 && 1 <= limit <= 1_000 && 0.0 <= threshold <= 1.0
      && MayScope(t, scope, SCOPE_KEYS)
  {
    hide Healthy, CheckedScope, Best, MayScope, All, Strip, Contract.Search;
    AcceptedIff(t, scope, SCOPE_KEYS);
    HealthyListing(store, key.space, names);
    if SearchAllowed(query, limit, threshold) && CheckedScope(t, scope, SCOPE_KEYS).Ok? {
      SearchIsBest(t, store, key, query, scope, limit, threshold);
    }
  }

  /** A page is answered exactly when the limit is in range, the scope may be given, and the cursor, if there is
      one, is the text of an integer. */
  lemma ListAcceptedIff(t: Tables, store: Store, key: Key, scope: Value, limit: int, cursor: Option<string>,
      names: Signers)
    requires Lawful(t) && Healthy(store, names)
    ensures ListMemories(t, store, key, scope, limit, cursor).Ok? <==>
      && 1 <= limit <= 1_000 && MayScope(t, scope, SCOPE_KEYS)
      && (OrElse(cursor, "") == "" || ParseInt(cursor.value).Some?)
  {
    hide Healthy, CheckedScope, MayScope, All, ParseInt, Listing;
    AcceptedIff(t, scope, SCOPE_KEYS);
    HealthyListing(store, key.space, names);
    if ValidLimit(limit) && CheckedScope(t, scope, SCOPE_KEYS).Ok? {
      ListIsPage(t, store, key, scope, limit, cursor);
    }
  }

  /** A scoped delete goes through exactly when a writer gives a scope that may be given and names something;
      otherwise nothing is deleted. */
  lemma DeleteScopedAcceptedIff(t: Tables, store: Store, key: Key, scope: Value)
    requires LawfulFolding(t)
    ensures
      var (after, r) := DeleteScoped(t, store, key, scope);
      && (r.Ok? <==> key.relation == Writer && MayScope(t, scope, SCOPE_KEYS) && GivenFields(scope) != map[])
      && (r.Err? ==> after == store)
  {
    hide CheckedScope, MayScope, HasNestedFilter, Survivors;
    AcceptedIff(t, scope, SCOPE_KEYS);
    if CheckedScope(t, scope, SCOPE_KEYS).Ok? {
      CleanedForm(t, scope, SCOPE_KEYS);
      if GivenFields(scope) != map[] {
        GivenIsKept(t, scope);
      }
    }
  }

  /** A search whose limit the space does not exceed finds a memory exactly when it is stored in the space,
      filed under everything the caller's scope names, and scored; its relevance is the score. */
  lemma SearchFinds(t: Tables, store: Store, key: Key, query: string, scope: Value, limit: int, threshold: real,
      names: Signers, found: seq<Hit>, h: Hit)
    requires Lawful(t) && Healthy(store, names) && |All(store, key.space)| <= limit
    requires SearchMemories(t, store, key, query, scope, limit, threshold) == Ok(found)
    ensures h in found <==>
      && ScoreOf(t, query, h.memory.content) == Some(h.relevance)
      && h.memory.partition == key.space && Within(t, h.memory, scope) && Holds(store, h.memory)
  {
    hide Healthy, ScoreOf, CheckedScope, Best, Within, All;
    HealthyListing(store, key.space, names);
    SearchIsBest(t, store, key, query, scope, limit, threshold);
    var cleaned := CheckedScope(t, scope, SCOPE_KEYS).value;
    ListingAtMost(store, key.space, cleaned);
    HitsAtMost(t, Listing(store, key.space, cleaned), query);
    FoundIff(t, store, key.space, query, cleaned, limit, found, h);
    WithinIff(t, h.memory, scope);
  }

  lemma WholePage(memories: seq<Memory>, limit: nat)
    requires |memories| <= limit
    ensures Paginate(memories, None, limit) == Ok(Page(memories, None, false))
  {
    assert Slice(memories, 0, limit) == memories;
  }

  /** A first page that the space does not exceed shows a memory exactly when it is stored in the space and
      filed under everything the caller's scope names, and it is the last page. */
  lemma ListShows(t: Tables, store: Store, key: Key, scope: Value, limit: int, names: Signers, page: Page, m: Memory)
    requires Lawful(t) && Healthy(store, names) && |All(store, key.space)| <= limit
    requires ListMemories(t, store, key, scope, limit, None) == Ok(page)
    ensures page.next == None
    ensures m in page.memories <==> m.partition == key.space && Within(t, m, scope) && Holds(store, m)
  {
    hide Healthy, CheckedScope, Within, All, Paginate;
    HealthyListing(store, key.space, names);
    ListIsPage(t, store, key, scope, limit, None);
    var cleaned := CheckedScope(t, scope, SCOPE_KEYS).value;
    ListingAtMost(store, key.space, cleaned);
    WholePage(Listing(store, key.space, cleaned), limit);
    ListingIs(store, key.space, cleaned, m);
    WithinIff(t, m, scope);
  }

  /** An export ships the space's memories in stored order, each with its id, content, scope, metadata, times
      and author, up to the cap; it counts what it ships, and says whether anything was left behind. */
  lemma ExportShips(store: Store, key: Key, names: Signers)
    requires Healthy(store, names)
    ensures
      var all, r := All(store, key.space), ExportMemories(store, key);
      && r.Ok? && r.value.count == |r.value.memories| == (if |all| <= 10_000 then |all| else 10_000)
      && r.value.truncated == (|all| > 10_000)
      && forall i :: 0 <= i < |r.value.memories| ==>
           var w, m := r.value.memories[i], all[i];
           && w.id == m.id && w.content == m.content && w.scope == m.scope && w.metadata == m.metadata
           && w.createdAt == m.createdAt && w.updatedAt == m.updatedAt && w.author == m.system.author
  {
    hide Healthy, All;
    ExportIs(store, key, names);
  }
}
