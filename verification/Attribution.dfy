/** What every run of policy keeps: each memory's history is a chain that explains the memory, signed by
    writers of its space, and its metadata and scope meet policy's rules. */
module Attribution {
  import opened Results
  import opened Values
  import opened CharTables
  import opened Metadata
  import opened ScopeRules
  import opened Contract
  import opened Reading
  import opened Transfer
  import opened Dedup
  import opened Lookups
  import opened Policy

  // ---------- What holds of one record ----------

  predicate Follows(log: seq<HistoryEntry>, k: nat)
    requires 0 < k < |log|
  {
    log[k].action == Updated && log[k].before == log[k - 1].after
  }

  /** Created first, and from then on each entry takes up the content that the one before it left. */
  ghost predicate Chain(log: seq<HistoryEntry>) {
    && log != [] && log[0].action == Created && log[0].before == None
    && forall k {:trigger Follows(log, k)} :: 0 < k < |log| ==> Follows(log, k)
  }

  /** The chain accounts for the memory: its content and author from the last entry, its creator and its
      creation from the first, its change time from the last change. */
  ghost predicate Explains(log: seq<HistoryEntry>, m: Memory)
    requires log != []
  {
    var first, last := log[0], log[|log| - 1];
    && last.after == Some(m.content) && last.author == m.system.author
    && first.author == m.system.createdBy && first.timestamp == m.createdAt
    && m.updatedAt == if |log| == 1 then None else Some(last.timestamp)
  }

  ghost predicate Signed(log: seq<HistoryEntry>, names: set<string>) {
    forall k :: 0 <= k < |log| ==> log[k].author.Some? && log[k].author.value in names
  }

  ghost predicate MetadataKept(metadata: Fields) {
    IsValid(metadata, false) && Size(metadata) <= MAX_METADATA_BYTES
  }

  /** Scope keys the backends declare, and no nested filter among them. */
  ghost predicate ScopeKept(scope: Texts) {
    scope.Keys <= SCOPE_KEYS
  }

  ghost predicate RecordOk(r: Contract.Record, names: set<string>) {
    && Chain(r.log) && Explains(r.log, r.memory) && Signed(r.log, names)
    && ValidContent(r.memory.content) && MetadataKept(r.memory.metadata) && ScopeKept(r.memory.scope)
    && r.memory.system.space == Some(Str(r.memory.partition))
  }

  lemma NewOk(p: string, draft: NewMemory, id: string, now: string, name: string, names: set<string>)
    requires draft.system == Some(SystemFor(p, name, Some(name))) && name in names
    requires ValidContent(draft.content) && MetadataKept(OrElse(draft.metadata, map[]))
    requires OrElse(draft.scope, map[]).Keys <= SCOPE_KEYS
    ensures RecordOk(NewRecord(p, draft, id, now), names)
  {
  }

  lemma ChangedOk(r: Contract.Record, change: Change, now: string, name: string, names: set<string>)
    requires RecordOk(r, names) && name in names
    requires change.system == Some(SystemFor(r.memory.partition, name, r.memory.system.createdBy))
    requires ValidContent(OrElse(change.content, r.memory.content))
    requires MetadataKept(PatchMetadata(r.memory.metadata, change.patch))
    ensures RecordOk(Changed(r, change, now), names)
  {
    hide IsValid, Size, ValidContent;
    var log := Changed(r, change, now).log;
    forall k | 0 < k < |log|
      ensures Follows(log, k)
    {
      assert k < |r.log| ==> Follows(r.log, k);
    }
  }

  // ---------- What holds of the store ----------

  /** The names of the keys that may write to each space. */
  type Signers = string -> set<string>

  ghost predicate Healthy(store: Store, names: Signers) {
    && UniqueIds(store)
    && forall r :: r in store ==> RecordOk(r, names(r.memory.partition))
  }

  ghost predicate Authorized(key: Key, names: Signers) {
    key.relation == Writer ==> key.name in names(key.space)
  }

  /** Errors that are the caller's own doing, as opposed to the store's or policy's. */
  predicate CallersError(e: Error) {
    e in {FORBIDDEN, INVALID, NOT_FOUND, PolicyError(InvalidScope), PolicyError(NestedFilter), PolicyError(ScopeRequired)}
  }

  predicate FailsFairly<T>(r: Result<T>) {
    r.Err? ==> CallersError(r.error)
  }

  lemma AppendHealthy(store: Store, r: Contract.Record, names: Signers)
    requires Healthy(store, names) && Fresh(store, r.memory.id) && RecordOk(r, names(r.memory.partition))
    ensures Healthy(store + [r], names)
  {
    hide RecordOk;
  }

  lemma ReplaceHealthy(store: Store, p: string, id: string, change: Change, now: string, names: Signers)
    requires Healthy(store, names) && Lookup(store, p, id).Some?
    requires RecordOk(Changed(Lookup(store, p, id).value, change, now), names(p))
    ensures Healthy(Replace(store, p, id, change, now), names)
  {
    hide RecordOk;
    UniqueAfterReplace(store, p, id, change, now);
    LookupIn(store, p, id);
    forall r | r in Replace(store, p, id, change, now)
      ensures RecordOk(r, names(r.memory.partition))
    {
      InReplace(store, p, id, change, now, r);
    }
  }

  lemma Read(store: Store, p: string, id: string, names: Signers)
    requires Healthy(store, names)
    ensures FailsFairly(ReadById(store, p, id))
    ensures
      var found := Lookup(store, p, id);
      found.Some? ==> RecordOk(found.value, names(p)) && InSpace(found.value.memory, p) && Owned(found.value, p, id)
  {
    LookupIn(store, p, id);
  }

  // ---------- Single writes ----------

  lemma AcceptedKeys(t: Tables, scope: Value)
    requires LawfulFolding(t)
    ensures
      var cleaned := CheckedScope(t, scope, SCOPE_KEYS);
      && FailsFairly(cleaned)
      && (cleaned.Ok? ==> !NestedScope(cleaned.value) && OrElse(cleaned.value, map[]).Keys <= SCOPE_KEYS && Storable(cleaned.value))
  {
    hide Cleaned;
    var cleaned := CheckedScope(t, scope, SCOPE_KEYS);
    if cleaned.Ok? && cleaned.value.Some? {
      AcceptedScope(t, scope, SCOPE_KEYS);
    }
  }

  lemma ValidIsUnreserved(metadata: Fields)
    requires IsValid(metadata, false)
    ensures !HasReservedKey(metadata.Keys)
  {
  }

  lemma AddHealthy(t: Tables, store: Store, key: Key, content: string, scope: Value, metadata: Option<Fields>,
      draw: Draw, names: Signers)
    requires LawfulFolding(t) && Healthy(store, names) && Authorized(key, names) && Fresh(store, draw.id)
    ensures Healthy(AddMemory(t, store, key, content, scope, metadata, draw).0, names)
    ensures FailsFairly(AddMemory(t, store, key, content, scope, metadata, draw).1)
  {
    hide CheckedScope, RecordOk, Healthy, ValidContent, Size;
    AcceptedKeys(t, scope);
    var cleaned := CheckedScope(t, scope, SCOPE_KEYS);
    if key.relation == Writer && AddChecks(content, metadata) && cleaned.Ok? {
      var draft := AddDraft(key, content, cleaned.value, metadata);
      var r := NewRecord(key.space, draft, draw.id, draw.now);
      assert MetadataKept(OrElse(metadata, map[])) by {
        EmptyKept();
      }
      ValidIsUnreserved(OrElse(metadata, map[]));
      NewOk(key.space, draft, draw.id, draw.now, key.name, names(key.space));
      AppendHealthy(store, r, names);
      LookupFresh(store, key.space, draw.id);
      LookupAppend(store, r, key.space, draw.id);
    }
  }

  lemma EmptyKept()
    ensures MetadataKept(map[])
  {
  }

  lemma UpdateHealthy(store: Store, key: Key, id: string, content: Option<string>, metadata: Option<Fields>,
      now: string, names: Signers)
    requires Healthy(store, names) && Authorized(key, names)
    ensures Healthy(UpdateMemory(store, key, id, content, metadata, now).0, names)
    ensures FailsFairly(UpdateMemory(store, key, id, content, metadata, now).1)
  {
    hide RecordOk, Healthy, ValidContent, Size, ValidId;
    Read(store, key.space, id, names);
    var existing := ReadById(store, key.space, id);
    if key.relation == Writer && UpdateChecks(content, metadata) && existing.Ok?
       && PatchFits(existing.value.metadata, UpdatePatch(metadata)) {
      var change := UpdateChange(key, existing.value, content, metadata);
      var found := Lookup(store, key.space, id).value;
      ContentOf(found, names(key.space));
      UpdateKeepsMetadata(found, metadata, names(key.space));
      ChangedOk(found, change, now, key.name, names(key.space));
      ReplaceHealthy(store, key.space, id, change, now, names);
    }
  }

  lemma ContentOf(r: Contract.Record, names: set<string>)
    requires RecordOk(r, names)
    ensures ValidContent(r.memory.content)
  {
  }

  lemma UpdateKeepsMetadata(r: Contract.Record, metadata: Option<Fields>, names: set<string>)
    requires RecordOk(r, names) && (metadata.Some? ==> IsValid(metadata.value, true))
    requires PatchFits(r.memory.metadata, UpdatePatch(metadata))
    ensures MetadataKept(PatchMetadata(r.memory.metadata, UpdatePatch(metadata)))
    ensures !PatchRefused(UpdatePatch(metadata))
  {
    hide Size, ValidContent, Chain, Explains, Signed, ScopeKept;
    if UpdatePatch(metadata).Some? {
      AcceptedUpdate(r.memory.metadata, metadata.value);
    }
  }

  lemma DeleteHealthy(store: Store, key: Key, id: string, names: Signers)
    requires Healthy(store, names)
    ensures Healthy(DeleteMemory(store, key, id).0, names) && FailsFairly(DeleteMemory(store, key, id).1)
  {
    hide RecordOk;
    Read(store, key.space, id, names);
    RemoveUnique(store, key.space, id);
  }

  lemma DeleteScopedHealthy(t: Tables, store: Store, key: Key, scope: Value, names: Signers)
    requires LawfulFolding(t) && Healthy(store, names)
    ensures Healthy(DeleteScoped(t, store, key, scope).0, names) && FailsFairly(DeleteScoped(t, store, key, scope).1)
  {
    hide RecordOk, CheckedScope;
    AcceptedKeys(t, scope);
    var cleaned := CheckedScope(t, scope, SCOPE_KEYS);
    if cleaned.Ok? && cleaned.value.Some? {
      SurvivorsUnique(store, key.space, cleaned.value.value);
    }
  }
}
