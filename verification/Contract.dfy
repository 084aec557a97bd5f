/** What a backend does, said once: an ordered list of records, each a memory with its history. The
    in-memory dicts and the SQLite tables are both proved to behave as this list. */
module Contract {
  import opened Results
  import opened Text
  import opened Values
  import opened CharTables
  import opened Score
  import opened Ranking

  datatype Record = Record(memory: Memory, log: seq<HistoryEntry>)

  type Store = seq<Record>

  predicate Owned(r: Record, partition: string, id: string) {
    r.memory.id == id && r.memory.partition == partition
  }

  predicate Fresh(store: Store, id: string) {
    forall i :: 0 <= i < |store| ==> store[i].memory.id != id
  }

  ghost predicate UniqueIds(store: Store) {
    forall i, j :: 0 <= i < j < |store| ==> store[i].memory.id != store[j].memory.id
  }

  predicate ScopeMatches(stored: Texts, scope: Fields) {
    forall k :: k in scope ==> k in stored && stored[k] == ScopeText(scope[k])
  }

  predicate InScope(m: Memory, scope: Option<Fields>) {
    scope.None? || ScopeMatches(m.scope, scope.value)
  }

  predicate NestedScope(scope: Option<Fields>) {
    scope.Some? && HasNestedFilter(scope.value)
  }

  // ---------- add ----------

  datatype NewMemory = NewMemory(
    content: string,
    scope: Option<Fields>,
    metadata: Option<Fields>,
    system: Option<System>
  )

  function NewRecord(partition: string, draft: NewMemory, id: string, now: string): Record {
    var system := OrElse(draft.system, NO_SYSTEM);
    Record(
      Memory(id, draft.content, ScopeAsText(OrElse(draft.scope, map[])), OrElse(draft.metadata, map[]),
             now, None, partition, system),
      [HistoryEntry(Created, now, None, Some(draft.content), system.author)])
  }

  function AddRefusal(draft: NewMemory): Option<Error> {
    if NestedScope(draft.scope) then Some(ValueError)
    else if HasReservedKey(OrElse(draft.metadata, map[]).Keys) then Some(MemoryApiError(400))
    else None
  }

  function Add(store: Store, partition: string, draft: NewMemory, id: string, now: string)
    : (Store, Result<seq<AddResult>>) {
    if AddRefusal(draft).Some? then (store, Err(AddRefusal(draft).value))
    else (store + [NewRecord(partition, draft, id, now)], Ok([AddResult(id, now, AddedEvent)]))
  }

  // ---------- get, update, delete ----------

  function Lookup(store: Store, partition: string, id: string): Option<Record> {
    if store == [] then None
    else if Owned(store[0], partition, id) then Some(store[0])
    else Lookup(store[1..], partition, id)
  }

  function Get(store: Store, partition: string, id: string): Option<Memory> {
    var found := Lookup(store, partition, id);
    if found.None? then None else Some(found.value.memory)
  }

  datatype Change = Change(content: Option<string>, patch: Option<Patch>, system: Option<System>)

  function ChangedMemory(m: Memory, change: Change, now: string): Memory {
    m.(content := OrElse(change.content, m.content),
       updatedAt := Some(now),
       metadata := PatchMetadata(m.metadata, change.patch),
       system := OrElse(change.system, m.system))
  }

  function Changed(r: Record, change: Change, now: string): Record {
    var m := ChangedMemory(r.memory, change, now);
    Record(m, r.log + [HistoryEntry(Updated, now, Some(r.memory.content), Some(m.content), m.system.author)])
  }

  function Replace(store: Store, partition: string, id: string, change: Change, now: string): Store {
    if store == [] then []
    else if Owned(store[0], partition, id) then [Changed(store[0], change, now)] + store[1..]
    else [store[0]] + Replace(store[1..], partition, id, change, now)
  }

  predicate PatchRefused(patch: Option<Patch>) {
    patch.Some? && HasReservedKey(patch.value.sets.Keys + patch.value.removes)
  }

  function Update(store: Store, partition: string, id: string, change: Change, now: string): (Store, Result<Memory>) {
    if PatchRefused(change.patch) then (store, Err(MemoryApiError(400)))
    else
      var found := Lookup(store, partition, id);
      if found.None? then (store, Err(MemoryApiError(404)))
      else (Replace(store, partition, id, change, now), Ok(ChangedMemory(found.value.memory, change, now)))
  }

  function Remove(store: Store, partition: string, id: string): Store {
    if store == [] then []
    else if Owned(store[0], partition, id) then store[1..]
    else [store[0]] + Remove(store[1..], partition, id)
  }

  function Delete(store: Store, partition: string, id: string): (Store, Result<bool>) {
    if Lookup(store, partition, id).None? then (store, Err(MemoryApiError(404)))
    else (Remove(store, partition, id), Ok(true))
  }

  predicate Doomed(r: Record, partition: string, scope: Fields) {
    r.memory.partition == partition && ScopeMatches(r.memory.scope, scope)
  }

  function Survivors(store: Store, partition: string, scope: Fields): Store {
    if store == [] then []
    else if Doomed(store[0], partition, scope) then Survivors(store[1..], partition, scope)
    else [store[0]] + Survivors(store[1..], partition, scope)
  }

  function DeleteAll(store: Store, partition: string, scope: Fields): (Store, Result<nat>) {
    if HasNestedFilter(scope) then (store, Err(ValueError))
    else
      var left := Survivors(store, partition, scope);
      SurvivorsShrink(store, partition, scope);
      (left, Ok(|store| - |left|))
  }

  lemma {:induction false} SurvivorsShrink(store: Store, partition: string, scope: Fields)
    ensures |Survivors(store, partition, scope)| <= |store|
  {
    if store != [] {
      SurvivorsShrink(store[1..], partition, scope);
    }
  }

  // ---------- No call draws an id but its own ----------

  lemma {:induction false} ReplaceFresh(store: Store, p: string, id: string, change: Change, now: string, other: string)
    requires Fresh(store, other)
    ensures Fresh(Replace(store, p, id, change, now), other)
    decreases |store|
  {
    if store != [] && !Owned(store[0], p, id) {
      assert forall i :: 0 <= i < |store[1..]| ==> store[1..][i] == store[i + 1];
      ReplaceFresh(store[1..], p, id, change, now, other);
    }
  }

  lemma {:induction false} RemoveFresh(store: Store, p: string, id: string, other: string)
    requires Fresh(store, other)
    ensures Fresh(Remove(store, p, id), other)
    decreases |store|
  {
    if store != [] && !Owned(store[0], p, id) {
      assert forall i :: 0 <= i < |store[1..]| ==> store[1..][i] == store[i + 1];
      RemoveFresh(store[1..], p, id, other);
    }
  }

  lemma {:induction false} SurvivorsFresh(store: Store, p: string, scope: Fields, other: string)
    requires Fresh(store, other)
    ensures Fresh(Survivors(store, p, scope), other)
    decreases |store|
  {
    if store != [] {
      assert forall i :: 0 <= i < |store[1..]| ==> store[1..][i] == store[i + 1];
      SurvivorsFresh(store[1..], p, scope, other);
    }
  }

  // ---------- list, search, history ----------

  function Listing(store: Store, partition: string, scope: Option<Fields>): seq<Memory> {
    if store == [] then []
    else if store[0].memory.partition == partition && InScope(store[0].memory, scope) then
      [store[0].memory] + Listing(store[1..], partition, scope)
    else Listing(store[1..], partition, scope)
  }

  function ListPage(store: Store, partition: string, scope: Option<Fields>, limit: int,
      cursor: Option<string>): Result<Page> {
    Paginate(Listing(store, partition, scope), cursor, limit)
  }

  function HitFor(m: Memory, relevance: Option<real>): seq<Hit> {
    if relevance.Some? then [Hit(relevance.value, m)] else []
  }

  /** The memories of a listing that match the query, with their relevance. */
  function Hits(t: Tables, memories: seq<Memory>, query: string): seq<Hit>
    requires LawfulClasses(t)
  {
    if memories == [] then []
    else HitFor(memories[0], ScoreOf(t, query, memories[0].content)) + Hits(t, memories[1..], query)
  }

  /** The scoring loop of a search. */
  method CollectHits(t: Tables, memories: seq<Memory>, query: string) returns (results: seq<Hit>)
    requires Lawful(t)
    ensures results == Hits(t, memories, query)
  {
    hide ScoreOf;
    results := [];
    for i := 0 to |memories|
      invariant results + Hits(t, memories[i..], query) == Hits(t, memories, query)
    {
      ghost var rest := memories[i..];
      var relevance := Score.Score(t, query, memories[i].content);
      assert rest[0] == memories[i] && rest[1..] == memories[i + 1..];
      Regroup(results, HitFor(memories[i], relevance), Hits(t, memories[i + 1..], query));
      results := results + HitFor(memories[i], relevance);
    }
  }

  function Search(t: Tables, store: Store, partition: string, query: string, scope: Option<Fields>,
      limit: int): Result<seq<Hit>>
    requires LawfulClasses(t)
  {
    if NestedScope(scope) then Err(ValueError)
    else Ok(Slice(Rank(Hits(t, Listing(store, partition, scope), query)), 0, limit))
  }

  function History(store: Store, partition: string, id: string): Result<seq<HistoryEntry>> {
    var found := Lookup(store, partition, id);
    if found.None? then Err(MemoryApiError(404)) else Ok(found.value.log)
  }
}
