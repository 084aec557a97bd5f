/** The policy layer: what a key may do with the memories of its space. */
module Policy {
  import opened Results
  import opened Text
  import opened Values
  import opened CharTables
  import opened Metadata
  import opened ScopeRules
  import opened Contract
  import opened Reading
  import opened Transfer
  import InMemory

  const MAX_QUERY_LENGTH := 10_000
  const MAX_LIMIT := 1_000
  const MAX_EXPORT := 10_000
  const MAX_IMPORT := 1_000

  /** The scope keys that the backends declare. */
  const SCOPE_KEYS := {"agent_id", "run_id"}

  datatype Relation = Reader | Writer

  datatype Key = Key(name: string, space: string, relation: Relation)

  predicate IsIdChar(c: char) {
    'a' <= c <= 'z' || 'A' <= c <= 'Z' || '0' <= c <= '9' || c == '_' || c == '-'
  }

  predicate ValidId(id: string) {
    1 <= |id| <= 128 && forall i :: 0 <= i < |id| ==> IsIdChar(id[i])
  }

  predicate ValidQuery(query: string) {
    Strip(query) != "" && |query| <= MAX_QUERY_LENGTH
  }

  predicate ValidLimit(limit: int) {
    1 <= limit <= MAX_LIMIT
  }

  const FORBIDDEN := PolicyError(Forbidden)
  const INVALID := PolicyError(ValidationError)
  const NOT_FOUND := PolicyError(NotFound)
  const INTERNAL := PolicyError(InternalError)

  // ---------- Single memories ----------

  /** `_read`: a memory by id, or not found, never one of another space. */
  function ReadById(store: Store, space: string, id: string): Result<Memory> {
    if !ValidId(id) then Err(INVALID)
    else
      var found := Contract.Get(store, space, id);
      if found.None? then Err(NOT_FOUND)
      else if !InSpace(found.value, space) then Err(INTERNAL)
      else Ok(found.value)
  }

  /** A backend's 404 is not found; its other failures are passed on. */
  function NotFoundOr<T>(r: Result<T>): Result<T> {
    if r == Err(MemoryApiError(404)) || r == Err(MemoryApiError(410)) then Err(NOT_FOUND) else r
  }

  ghost function AddChecks(content: string, metadata: Option<Fields>): bool {
    ValidContent(content) && (metadata.Some? ==> MetadataAccepted(metadata.value))
  }

  function AddDraft(key: Key, content: string, scope: Option<Fields>, metadata: Option<Fields>): NewMemory {
    NewMemory(content, scope, metadata, Some(SystemFor(key.space, key.name, Some(key.name))))
  }

  ghost function AddMemory(t: Tables, store: Store, key: Key, content: string, scope: Value, metadata: Option<Fields>,
      draw: Draw)
    : (Store, Result<seq<AddResult>>)
  {
    var cleaned := CheckedScope(t, scope, SCOPE_KEYS);
    if key.relation != Writer then (store, Err(FORBIDDEN))
    else if !AddChecks(content, metadata) then (store, Err(INVALID))
    else if cleaned.Err? then (store, Err(cleaned.error))
    else
      var (store', r) := Contract.Add(store, key.space, AddDraft(key, content, cleaned.value, metadata), draw.id, draw.now);
      if r.Err? then (store', Err(r.error))
      else
        var stored := Contract.Get(store', key.space, draw.id);
        (store', if stored.None? || !InSpace(stored.value, key.space) then Err(INTERNAL) else r)
  }

  function GetMemory(store: Store, key: Key, id: string): Result<Memory> {
    ReadById(store, key.space, id)
  }

  /** Content or metadata to change, each within its rules. */
  function UpdateChecks(content: Option<string>, metadata: Option<Fields>): bool {
    && (content.Some? || (metadata.Some? && metadata.value != map[]))
    && (content.Some? ==> ValidContent(content.value))
    && (metadata.Some? ==> IsValid(metadata.value, true))
  }

  function UpdatePatch(metadata: Option<Fields>): Option<Patch> {
    if metadata.Some? && metadata.value != map[] then Some(AsPatch(metadata.value)) else None
  }

  ghost predicate PatchFits(stored: Fields, patch: Option<Patch>) {
    patch.Some? ==> SizeAccepted(Patched(stored, patch.value), Some(stored))
  }

  function UpdateChange(key: Key, existing: Memory, content: Option<string>, metadata: Option<Fields>): Change {
    Change(content, UpdatePatch(metadata), Some(SystemFor(key.space, key.name, existing.system.createdBy)))
  }

  ghost function UpdateMemory(store: Store, key: Key, id: string, content: Option<string>, metadata: Option<Fields>,
      now: string)
    : (Store, Result<Memory>)
  {
    var existing := ReadById(store, key.space, id);
    if key.relation != Writer then (store, Err(FORBIDDEN))
    else if !UpdateChecks(content, metadata) then (store, Err(INVALID))
    else if existing.Err? then (store, existing)
    else if !PatchFits(existing.value.metadata, UpdatePatch(metadata)) then (store, Err(INVALID))
    else
      var (store', r) := Contract.Update(store, key.space, id, UpdateChange(key, existing.value, content, metadata), now);
      (store', if r.Ok? && !InSpace(r.value, key.space) then Err(INTERNAL) else NotFoundOr(r))
  }

  function DeleteMemory(store: Store, key: Key, id: string): (Store, Result<bool>) {
    var existing := ReadById(store, key.space, id);
    if key.relation != Writer then (store, Err(FORBIDDEN))
    else if existing.Err? then (store, Err(existing.error))
    else
      var (store', r) := Contract.Delete(store, key.space, id);
      (store', NotFoundOr(r))
  }

  function MemoryHistory(store: Store, key: Key, id: string): Result<seq<HistoryEntry>> {
    var existing := ReadById(store, key.space, id);
    if existing.Err? then Err(existing.error) else NotFoundOr(Contract.History(store, key.space, id))
  }

  // ---------- Many memories ----------

  function DeleteScoped(t: Tables, store: Store, key: Key, scope: Value): (Store, Result<nat>) {
    var cleaned := CheckedScope(t, scope, SCOPE_KEYS);
    if key.relation != Writer then (store, Err(FORBIDDEN))
    else if cleaned.Err? then (store, Err(cleaned.error))
    else if cleaned.value.None? || cleaned.value.value == map[] then (store, Err(PolicyError(ScopeRequired)))
    else Contract.DeleteAll(store, key.space, cleaned.value.value)
  }

  /** `_in_scope` over memories. */
  function KeepInScope(memories: seq<Memory>, scope: Option<Fields>): seq<Memory> {
    if memories == [] then []
    else if InScope(memories[0], scope) then [memories[0]] + KeepInScope(memories[1..], scope)
    else KeepInScope(memories[1..], scope)
  }

  /** `_in_scope` over search results. */
  function HitsInScope(hits: seq<Hit>, scope: Option<Fields>): seq<Hit> {
    if hits == [] then []
    else if InScope(hits[0].memory, scope) then [hits[0]] + HitsInScope(hits[1..], scope)
    else HitsInScope(hits[1..], scope)
  }

  predicate HitsInSpace(hits: seq<Hit>, space: string) {
    forall i :: 0 <= i < |hits| ==> InSpace(hits[i].memory, space)
  }

  function SearchMemories(t: Tables, store: Store, key: Key, query: string, scope: Value, limit: int,
      threshold: real): Result<seq<Hit>>
    requires LawfulClasses(t)
  {
    var cleaned := CheckedScope(t, scope, SCOPE_KEYS);
    if !ValidQuery(query) || !ValidLimit(limit) || !(0.0 <= threshold <= 1.0) then Err(INVALID)
    else if cleaned.Err? then Err(cleaned.error)
    else
      var found := Contract.Search(t, store, key.space, query, cleaned.value, limit);
      if found.Err? then found
      else if !HitsInSpace(found.value, key.space) then Err(INTERNAL)
      else Ok(HitsInScope(found.value, cleaned.value))
  }

  function ListMemories(t: Tables, store: Store, key: Key, scope: Value, limit: int,
      cursor: Option<string>): Result<Page> {
    var cleaned := CheckedScope(t, scope, SCOPE_KEYS);
    if !ValidLimit(limit) then Err(INVALID)
    else if cleaned.Err? then Err(cleaned.error)
    else
      var page := ListPage(store, key.space, cleaned.value, limit, cursor);
      if page.Err? then Err(INVALID)
      else if !AllInSpace(page.value.memories, key.space) then Err(INTERNAL)
      else Ok(page.value.(memories := KeepInScope(page.value.memories, cleaned.value)))
  }

  /** A memory on the wire: the partition, and the system fields but the author, stay behind. */
  datatype WireMemory = WireMemory(
    id: string,
    content: string,
    scope: Texts,
    metadata: Fields,
    createdAt: string,
    updatedAt: Option<string>,
    author: Option<string>
  )

  function OnWire(m: Memory): WireMemory {
    WireMemory(m.id, m.content, m.scope, m.metadata, m.createdAt, m.updatedAt, m.system.author)
  }

  function AllOnWire(memories: seq<Memory>): seq<WireMemory> {
    seq(|memories|, i requires 0 <= i < |memories| => OnWire(memories[i]))
  }

  datatype ExportPayload = ExportPayload(memories: seq<WireMemory>, count: nat, truncated: bool)

  function ExportMemories(store: Store, key: Key): Result<ExportPayload> {
    var read := ReadAll(store, key.space, MAX_EXPORT);
    if read.Err? then Err(read.error)
    else Ok(ExportPayload(AllOnWire(read.value.memories), |read.value.memories|, read.value.missed))
  }

  // ---------- Import ----------

  function ModeNamed(name: string): Option<Mode> {
    if name == "skip" then Some(Skip)
    else if name == "overwrite" then Some(Overwrite)
    else if name == "duplicate" then Some(Duplicate)
    else None
  }

  /** Policy's stamp: the caller as author, and the creator of what is overwritten kept. */
  function ImportStamp(key: Key): (nat, Option<System>) -> System {
    (i: nat, stored: Option<System>) =>
      SystemFor(key.space, key.name, if stored.None? then Some(key.name) else stored.value.createdBy)
  }

  function EntryScope(t: Tables): Validator {
    (scope: Value) => CheckedScope(t, scope, SCOPE_KEYS)
  }

  function ImportBatch(t: Tables, key: Key, entries: seq<Entry>, mode: Mode, draws: seq<Draw>,
      outages: seq<Outage>): Batch {
    Batch(key.space, entries, mode, EntryScope(t), Some(ImportStamp(key)), draws, outages)
  }

  ghost function ImportMemories(t: Tables, store: Store, key: Key, entries: seq<Entry>, mode: string,
      draws: seq<Draw>, outages: seq<Outage>)
    : (Store, Result<Outcome>)
    requires |draws| == |entries| == |outages|
  {
    if key.relation != Writer then (store, Err(FORBIDDEN))
    else if entries == [] || |entries| > MAX_IMPORT || ModeNamed(mode).None? then (store, Err(INVALID))
    else ImportAll(ImportBatch(t, key, entries, ModeNamed(mode).value, draws, outages), store, MAX_EXPORT)
  }

  // ---------- The object between the tools and a backend ----------

  class PolicyLayer {
    const backend: InMemory.InMemoryBackend

    constructor (b: InMemory.InMemoryBackend)
      ensures backend == b
    {
      backend := b;
    }

    method Add(key: Key, content: string, scope: Value, metadata: Option<Fields>,
        draw: Draw) returns (r: Result<seq<AddResult>>)
      requires backend.Valid() && Fresh(backend.View(), draw.id)
      modifies backend
      ensures backend.Valid()
      ensures (backend.View(), r) == AddMemory(backend.tables, old(backend.View()), key, content, scope, metadata, draw)
    {
      hide CheckedScope, IsValid, ValidContent;
      if key.relation != Writer {
        return Err(FORBIDDEN);
      }
      if !ValidContent(content) {
        return Err(INVALID);
      }
      if metadata.Some? {
        if !IsValid(metadata.value, false) {
          return Err(INVALID);
        }
        var fits := CheckSize(metadata.value, None);
        if !fits {
          return Err(INVALID);
        }
      }
      var cleaned := ValidateScope(backend.tables, scope, SCOPE_KEYS);
      if cleaned.Err? {
        return Err(cleaned.error);
      }
      r := Store(key, AddDraft(key, content, cleaned.value, metadata), draw);
    }

    /** The add itself, and the space check of what it stored. */
    method Store(key: Key, draft: NewMemory, draw: Draw) returns (r: Result<seq<AddResult>>)
      requires backend.Valid() && Fresh(backend.View(), draw.id)
      modifies backend
      ensures backend.Valid()
      ensures
        var (store', added) := Contract.Add(old(backend.View()), key.space, draft, draw.id, draw.now);
        var stored := Contract.Get(store', key.space, draw.id);
        && backend.View() == store'
        && r == if added.Ok? && (stored.None? || !InSpace(stored.value, key.space)) then Err(INTERNAL) else added
    {
      backend.FreshKey(draw.id);
      r := backend.Add(key.space, draft, draw.id, draw.now);
      if r.Ok? {
        var stored := backend.Get(key.space, draw.id);
        if stored.None? || !InSpace(stored.value, key.space) {
          return Err(INTERNAL);
        }
      }
    }

    method ReadOne(space: string, id: string) returns (r: Result<Memory>)
      requires backend.Valid()
      ensures r == ReadById(backend.View(), space, id)
    {
      if !ValidId(id) {
        return Err(INVALID);
      }
      var found := backend.Get(space, id);
      if found.None? {
        return Err(NOT_FOUND);
      }
      if !InSpace(found.value, space) {
        return Err(INTERNAL);
      }
      return Ok(found.value);
    }

    method Get(key: Key, id: string) returns (r: Result<Memory>)
      requires backend.Valid()
      ensures r == GetMemory(backend.View(), key, id)
    {
      r := ReadOne(key.space, id);
    }

    method Update(key: Key, id: string, content: Option<string>, metadata: Option<Fields>,
        now: string) returns (r: Result<Memory>)
      requires backend.Valid()
      modifies backend
      ensures backend.Valid()
      ensures (backend.View(), r) == UpdateMemory(old(backend.View()), key, id, content, metadata, now)
    {
      if key.relation != Writer {
        return Err(FORBIDDEN);
      }
      if content.None? && (metadata.None? || metadata.value == map[]) {
        return Err(INVALID);
      }
      if content.Some? && !ValidContent(content.value) {
        return Err(INVALID);
      }
      if metadata.Some? && !IsValid(metadata.value, true) {
        return Err(INVALID);
      }
      var existing := ReadOne(key.space, id);
      if existing.Err? {
        return existing;
      }
      var patch := UpdatePatch(metadata);
      if patch.Some? {
        var fits := CheckSize(Patched(existing.value.metadata, patch.value), Some(existing.value.metadata));
        if !fits {
          return Err(INVALID);
        }
      }
      var updated := backend.Update(key.space, id, UpdateChange(key, existing.value, content, metadata), now);
      if updated.Ok? && !InSpace(updated.value, key.space) {
        return Err(INTERNAL);
      }
      return NotFoundOr(updated);
    }

    method Delete(key: Key, id: string) returns (r: Result<bool>)
      requires backend.Valid()
      modifies backend
      ensures backend.Valid() && (backend.View(), r) == DeleteMemory(old(backend.View()), key, id)
    {
      if key.relation != Writer {
        return Err(FORBIDDEN);
      }
      var existing := ReadOne(key.space, id);
      if existing.Err? {
        return Err(existing.error);
      }
      var deleted := backend.Delete(key.space, id);
      return NotFoundOr(deleted);
    }

    method DeleteAll(key: Key, scope: Value) returns (r: Result<nat>)
      requires backend.Valid()
      modifies backend
      ensures backend.Valid() && (backend.View(), r) == DeleteScoped(backend.tables, old(backend.View()), key, scope)
    {
      if key.relation != Writer {
        return Err(FORBIDDEN);
      }
      var cleaned := ValidateScope(backend.tables, scope, SCOPE_KEYS);
      if cleaned.Err? {
        return Err(cleaned.error);
      }
      if cleaned.value.None? || cleaned.value.value == map[] {
        return Err(PolicyError(ScopeRequired));
      }
      r := backend.DeleteAll(key.space, cleaned.value.value);
    }

    method Search(key: Key, query: string, scope: Value, limit: int, threshold: real) returns (r: Result<seq<Hit>>)
      requires backend.Valid()
      ensures r == SearchMemories(backend.tables, backend.View(), key, query, scope, limit, threshold)
    {
      if !ValidQuery(query) || !ValidLimit(limit) || !(0.0 <= threshold <= 1.0) {
        return Err(INVALID);
      }
      var cleaned := ValidateScope(backend.tables, scope, SCOPE_KEYS);
      if cleaned.Err? {
        return Err(cleaned.error);
      }
      var found := backend.Search(key.space, query, cleaned.value, limit);
      if found.Err? {
        return found;
      }
      if !HitsInSpace(found.value, key.space) {
        return Err(INTERNAL);
      }
      var kept := FilterHits(found.value, cleaned.value);
      r := Ok(kept);
    }

    method List(key: Key, scope: Value, limit: int, cursor: Option<string>) returns (r: Result<Page>)
      requires backend.Valid()
      ensures r == ListMemories(backend.tables, backend.View(), key, scope, limit, cursor)
    {
      if !ValidLimit(limit) {
        return Err(INVALID);
      }
      var cleaned := ValidateScope(backend.tables, scope, SCOPE_KEYS);
      if cleaned.Err? {
        return Err(cleaned.error);
      }
      var page := backend.ListMemories(key.space, cleaned.value, limit, cursor);
      if page.Err? {
        return Err(INVALID);
      }
      if !AllInSpace(page.value.memories, key.space) {
        return Err(INTERNAL);
      }
      var kept := FilterMemories(page.value.memories, cleaned.value);
      r := Ok(page.value.(memories := kept));
    }

    method History(key: Key, id: string) returns (r: Result<seq<HistoryEntry>>)
      requires backend.Valid()
      ensures r == MemoryHistory(backend.View(), key, id)
    {
      var existing := ReadOne(key.space, id);
      if existing.Err? {
        return Err(existing.error);
      }
      var entries := backend.History(key.space, id);
      return NotFoundOr(entries);
    }

    method Export(key: Key) returns (r: Result<ExportPayload>)
      requires backend.Valid()
      ensures r == ExportMemories(backend.View(), key)
    {
      var read := ListAll(backend, key.space, MAX_EXPORT);
      if read.Err? {
        return Err(read.error);
      }
      var memories := read.value.memories;
      return Ok(ExportPayload(AllOnWire(memories), |memories|, read.value.missed));
    }

    method ImportBatchOf(key: Key, entries: seq<Entry>, mode: string, draws: seq<Draw>,
        outages: seq<Outage>) returns (r: Result<Outcome>)
      requires backend.Valid() && |draws| == |entries| == |outages|
      requires DrawsFresh(ImportBatch(backend.tables, key, entries, Skip, draws, outages), backend.View(), 0)
      modifies backend
      ensures backend.Valid()
      ensures (backend.View(), r) ==
        ImportMemories(backend.tables, old(backend.View()), key, entries, mode, draws, outages)
    {
      if key.relation != Writer {
        return Err(FORBIDDEN);
      }
      if entries == [] || |entries| > MAX_IMPORT || ModeNamed(mode).None? {
        return Err(INVALID);
      }
      r := ImportPayload(backend, ImportBatch(backend.tables, key, entries, ModeNamed(mode).value, draws, outages), MAX_EXPORT);
    }
  }

  method FilterMemories(memories: seq<Memory>, scope: Option<Fields>) returns (kept: seq<Memory>)
    ensures kept == KeepInScope(memories, scope)
  {
    kept := [];
    for i := 0 to |memories|
      invariant kept + KeepInScope(memories[i..], scope) == KeepInScope(memories, scope)
    {
      assert memories[i..][1..] == memories[i + 1..];
      if scope.None? || ScopeMatches(memories[i].scope, scope.value) {
        Regroup(kept, [memories[i]], KeepInScope(memories[i + 1..], scope));
        kept := kept + [memories[i]];
      }
    }
  }

  method FilterHits(hits: seq<Hit>, scope: Option<Fields>) returns (kept: seq<Hit>)
    ensures kept == HitsInScope(hits, scope)
  {
    kept := [];
    for i := 0 to |hits|
      invariant kept + HitsInScope(hits[i..], scope) == HitsInScope(hits, scope)
    {
      assert hits[i..][1..] == hits[i + 1..];
      if scope.None? || ScopeMatches(hits[i].memory.scope, scope.value) {
        Regroup(kept, [hits[i]], HitsInScope(hits[i + 1..], scope));
        kept := kept + [hits[i]];
      }
    }
  }
}
