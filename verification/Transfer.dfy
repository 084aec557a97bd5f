/** The import engine: one batch, entry by entry, against a dedup index kept in step with the store. */
module Transfer {
  import opened Results
  import opened Text
  import opened Values
  import opened Metadata
  import opened Contract
  import opened InMemory
  import opened Reading

  const MAX_CONTENT_LENGTH := 100_000

  predicate ValidContent(content: string) {
    Strip(content) != "" && |content| <= MAX_CONTENT_LENGTH
  }

  // ---------- Identity ----------

  /** `scope_key`: values as stored text, nulls absent. The sorted tuple of pairs is the finite map. */
  function ScopeKey(scope: Option<Fields>): Texts {
    if scope.None? then map[] else map k | k in scope.value && scope.value[k] != Null :: ScopeText(scope.value[k])
  }

  datatype DedupKey = DedupKey(content: string, scope: Texts)

  function KeyOf(m: Memory): DedupKey {
    DedupKey(m.content, m.scope)
  }

  type Index = map<DedupKey, Memory>

  /** `build_dedup_index` over memories already read: the last memory of each identity. */
  function IndexOf(memories: seq<Memory>): Index
    decreases |memories|
  {
    if memories == [] then map[]
    else
      var last := memories[|memories| - 1];
      IndexOf(memories[..|memories| - 1])[KeyOf(last) := last]
  }

  // ---------- Entries ----------

  datatype Entry = Entry(content: Value, scope: Value, metadata: Value)

  datatype EntryError = BadContent | ContentRule | ScopeRule | MetadataShape | MetadataRule | BackendFailure(status: nat)

  datatype Checked =
    | Rejected(error: EntryError)
    | Accepted(content: string, scope: Option<Fields>, metadata: Option<Fields>)

  type Validator = Value -> Result<Option<Fields>>

  /** An entry without a scope is not shown to the validator. */
  function CheckScope(validate: Validator, scope: Value): Result<Option<Fields>> {
    if scope.Null? then Ok(None) else validate(scope)
  }

  /** No validator: a scope is taken as it is. */
  function KeepScope(scope: Value): Result<Option<Fields>> {
    if scope.Object? then Ok(Some(scope.fields)) else Err(ValueError)
  }

  ghost predicate MetadataAccepted(metadata: Fields) {
    IsValid(metadata, false) && SizeAccepted(metadata, None)
  }

  ghost function Check(validate: Validator, e: Entry): Checked {
    if !e.content.Str? then Rejected(BadContent)
    else if !ValidContent(e.content.text) then Rejected(ContentRule)
    else
      var scope := CheckScope(validate, e.scope);
      if scope.Err? then Rejected(ScopeRule)
      else if !e.metadata.Null? && !e.metadata.Object? then Rejected(MetadataShape)
      else if e.metadata.Object? && !MetadataAccepted(e.metadata.fields) then Rejected(MetadataRule)
      else Accepted(e.content.text, scope.value, if e.metadata.Null? then None else Some(e.metadata.fields))
  }

  method CheckEntry(validate: Validator, e: Entry) returns (c: Checked)
    ensures c == Check(validate, e)
  {
    if !e.content.Str? {
      return Rejected(BadContent);
    }
    if !ValidContent(e.content.text) {
      return Rejected(ContentRule);
    }
    var scope := CheckScope(validate, e.scope);
    if scope.Err? {
      return Rejected(ScopeRule);
    }
    if e.metadata.Null? {
      return Accepted(e.content.text, scope.value, None);
    }
    if !e.metadata.Object? {
      return Rejected(MetadataShape);
    }
    if !IsValid(e.metadata.fields, false) {
      return Rejected(MetadataRule);
    }
    var fits := CheckSize(e.metadata.fields, None);
    if !fits {
      return Rejected(MetadataRule);
    }
    return Accepted(e.content.text, scope.value, Some(e.metadata.fields));
  }

  // ---------- The batch and its state ----------

  datatype Mode = Skip | Overwrite | Duplicate

  /** What a create would draw for an entry: a fresh id and the clock. */
  datatype Draw = Draw(id: string, now: string)

  /** How the store fails an entry: not at all, on its write, or on the read that follows a create. */
  datatype Outage = Up | WriteDown(status: nat) | ReadDown(status: nat)

  datatype Batch = Batch(
    partition: string,
    entries: seq<Entry>,
    mode: Mode,
    validate: Validator,
    stamp: Option<(nat, Option<System>) -> System>,
    draws: seq<Draw>,
    outages: seq<Outage>
  )

  ghost predicate WellFormed(b: Batch) {
    |b.draws| == |b.entries| == |b.outages|
  }

  datatype Imported = Imported(id: string, index: nat, action: Action)
  datatype Skipped = Skipped(index: nat, existingId: string)
  datatype Failed = Failed(index: nat, error: EntryError)

  datatype Outcome = Outcome(imported: seq<Imported>, skipped: seq<Skipped>, errors: seq<Failed>, dedupIncomplete: bool)

  /** The dedup index and the outcome so far; `raised` ends the import. */
  datatype Progress = Progress(existing: Index, outcome: Outcome, raised: Option<Error>)

  function Fail(p: Progress, i: nat, error: EntryError): Progress {
    p.(outcome := p.outcome.(errors := p.outcome.errors + [Failed(i, error)]))
  }

  /** A backend's failure is the entry's; any other exception ends the import. */
  function FailOrRaise(p: Progress, i: nat, error: Error): Progress {
    if error.MemoryApiError? then Fail(p, i, BackendFailure(error.status)) else p.(raised := Some(error))
  }

  function SkipOver(p: Progress, i: nat, existingId: string): Progress {
    p.(outcome := p.outcome.(skipped := p.outcome.skipped + [Skipped(i, existingId)]))
  }

  /** The memory written for `key`, when it passes the space check. */
  function Landed(b: Batch, p: Progress, i: nat, key: DedupKey, stored: Option<Memory>, id: string,
      action: Action): Progress {
    if stored.None? || !InSpace(stored.value, b.partition) then p.(raised := Some(PolicyError(InternalError)))
    else
      p.(existing := p.existing[key := stored.value],
         outcome := p.outcome.(imported := p.outcome.imported + [Imported(id, i, action)]))
  }

  /** The entry's keys set and the others removed, except a reserved key, which no client can remove. */
  function PatchOver(stored: Fields, metadata: Fields): Patch {
    PatchFields(metadata, set k | k in stored && k !in metadata && !IsReservedKey(k))
  }

  function OverwriteChange(b: Batch, i: nat, dup: Memory, content: string, metadata: Option<Fields>): Change {
    Change(Some(content),
           if metadata.None? then None else Some(PatchOver(dup.metadata, metadata.value)),
           if b.stamp.None? then None else Some(b.stamp.value(i, Some(dup.system))))
  }

  function Draft(b: Batch, i: nat, content: string, scope: Option<Fields>, metadata: Option<Fields>): NewMemory {
    NewMemory(content, scope, metadata, if b.stamp.None? then None else Some(b.stamp.value(i, None)))
  }

  /** The store and the progress between two entries. */
  datatype Import = Import(store: Store, done: Progress)

  function OverwriteOne(b: Batch, s: Import, i: nat, key: DedupKey, content: string, metadata: Option<Fields>): Import
    requires i < |b.draws| == |b.outages| && key in s.done.existing
  {
    var dup := s.done.existing[key];
    if b.outages[i].WriteDown? then s.(done := Fail(s.done, i, BackendFailure(b.outages[i].status)))
    else
      var (store, r) := Update(s.store, b.partition, dup.id, OverwriteChange(b, i, dup, content, metadata), b.draws[i].now);
      Import(store,
          if r.Err? then FailOrRaise(s.done, i, r.error) else Landed(b, s.done, i, key, Some(r.value), dup.id, Updated))
  }

  function CreateOne(b: Batch, s: Import, i: nat, key: DedupKey, draft: NewMemory): Import
    requires i < |b.draws| == |b.outages|
  {
    var id := b.draws[i].id;
    if b.outages[i].WriteDown? then s.(done := Fail(s.done, i, BackendFailure(b.outages[i].status)))
    else
      var (store, r) := Add(s.store, b.partition, draft, id, b.draws[i].now);
      Import(store,
        if r.Err? then FailOrRaise(s.done, i, r.error)
        else if b.outages[i].ReadDown? then Fail(s.done, i, BackendFailure(b.outages[i].status))
        else Landed(b, s.done, i, key, Get(store, b.partition, id), id, Created))
  }

  ghost function ImportOne(b: Batch, s: Import, i: nat): Import
    requires WellFormed(b) && i < |b.entries|
  {
    match Check(b.validate, b.entries[i])
    case Rejected(error) => s.(done := Fail(s.done, i, error))
    case Accepted(content, scope, metadata) =>
      var key := DedupKey(content, ScopeKey(scope));
      if key in s.done.existing && b.mode == Skip then s.(done := SkipOver(s.done, i, s.done.existing[key].id))
      else if key in s.done.existing && b.mode == Overwrite then OverwriteOne(b, s, i, key, content, metadata)
      else CreateOne(b, s, i, key, Draft(b, i, content, scope, metadata))
  }

  /** The state after the first `n` entries. */
  ghost function ImportTo(b: Batch, s: Import, n: nat): Import
    requires WellFormed(b) && n <= |b.entries|
  {
    if n == 0 then s
    else
      var before := ImportTo(b, s, n - 1);
      if before.done.raised.Some? then before else ImportOne(b, before, n - 1)
  }

  const NOTHING_YET := Outcome([], [], [], false)

  /** Reads the dedup index, which duplicate mode does without. */
  function Start(b: Batch, store: Store, limit: nat): Result<Progress> {
    if b.mode == Duplicate then Ok(Progress(map[], NOTHING_YET, None))
    else
      var read := ReadAll(store, b.partition, limit);
      if read.Err? then Err(read.error)
      else Ok(Progress(IndexOf(read.value.memories), NOTHING_YET.(dedupIncomplete := read.value.missed), None))
  }

  ghost function ImportAll(b: Batch, store: Store, limit: nat): (Store, Result<Outcome>)
    requires WellFormed(b)
  {
    var start := Start(b, store, limit);
    if start.Err? then (store, Err(start.error))
    else
      var end := ImportTo(b, Import(store, start.value), |b.entries|);
      (end.store, if end.done.raised.Some? then Err(end.done.raised.value) else Ok(end.done.outcome))
  }

  // ---------- The loop over a backend ----------

  /** The ids that creates would draw from the n-th entry on are new and distinct. */
  ghost predicate DrawsFresh(b: Batch, store: Store, n: nat) {
    && (forall k :: n <= k < |b.draws| ==> Fresh(store, b.draws[k].id))
    && (forall j, k :: n <= j < k < |b.draws| ==> b.draws[j].id != b.draws[k].id)
  }

  method OverwriteEntry(backend: InMemoryBackend, b: Batch, p: Progress, i: nat, key: DedupKey, content: string,
      metadata: Option<Fields>)
    returns (p': Progress)
    requires backend.Valid() && i < |b.draws| == |b.outages| && key in p.existing
    modifies backend
    ensures backend.Valid()
    ensures Import(backend.View(), p') == OverwriteOne(b, Import(old(backend.View()), p), i, key, content, metadata)
  {
    var dup := p.existing[key];
    if b.outages[i].WriteDown? {
      return Fail(p, i, BackendFailure(b.outages[i].status));
    }
    var r := backend.Update(b.partition, dup.id, OverwriteChange(b, i, dup, content, metadata), b.draws[i].now);
    if r.Err? {
      return FailOrRaise(p, i, r.error);
    }
    return Landed(b, p, i, key, Some(r.value), dup.id, Updated);
  }

  method CreateEntry(backend: InMemoryBackend, b: Batch, p: Progress, i: nat, key: DedupKey, draft: NewMemory)
    returns (p': Progress)
    requires backend.Valid() && i < |b.draws| == |b.outages| && Fresh(backend.View(), b.draws[i].id)
    modifies backend
    ensures backend.Valid()
    ensures Import(backend.View(), p') == CreateOne(b, Import(old(backend.View()), p), i, key, draft)
  {
    var id := b.draws[i].id;
    if b.outages[i].WriteDown? {
      return Fail(p, i, BackendFailure(b.outages[i].status));
    }
    backend.FreshKey(id);
    var r := backend.Add(b.partition, draft, id, b.draws[i].now);
    if r.Err? {
      return FailOrRaise(p, i, r.error);
    }
    if b.outages[i].ReadDown? {
      return Fail(p, i, BackendFailure(b.outages[i].status));
    }
    var stored := backend.Get(b.partition, id);
    return Landed(b, p, i, key, stored, id, Created);
  }

  method ImportEntry(backend: InMemoryBackend, b: Batch, p: Progress, i: nat) returns (p': Progress)
    requires backend.Valid() && WellFormed(b) && i < |b.entries| && Fresh(backend.View(), b.draws[i].id)
    modifies backend
    ensures backend.Valid()
    ensures Import(backend.View(), p') == ImportOne(b, Import(old(backend.View()), p), i)
  {
    var checked := CheckEntry(b.validate, b.entries[i]);
    if checked.Rejected? {
      return Fail(p, i, checked.error);
    }
    var key := DedupKey(checked.content, ScopeKey(checked.scope));
    if key in p.existing && b.mode == Skip {
      return SkipOver(p, i, p.existing[key].id);
    }
    if key in p.existing && b.mode == Overwrite {
      p' := OverwriteEntry(backend, b, p, i, key, checked.content, checked.metadata);
      return;
    }
    p' := CreateEntry(backend, b, p, i, key, Draft(b, i, checked.content, checked.scope, checked.metadata));
  }

  method StartImport(backend: InMemoryBackend, b: Batch, limit: nat) returns (start: Result<Progress>)
    requires backend.Valid()
    ensures start == Start(b, backend.View(), limit)
  {
    if b.mode == Duplicate {
      return Ok(Progress(map[], NOTHING_YET, None));
    }
    var read := ListAll(backend, b.partition, limit);
    if read.Err? {
      return Err(read.error);
    }
    return Ok(Progress(IndexOf(read.value.memories), NOTHING_YET.(dedupIncomplete := read.value.missed), None));
  }

  /** `import_payload` */
  method ImportPayload(backend: InMemoryBackend, b: Batch, limit: nat) returns (r: Result<Outcome>)
    requires backend.Valid() && WellFormed(b) && DrawsFresh(b, backend.View(), 0)
    modifies backend
    ensures backend.Valid()
    ensures (backend.View(), r) == ImportAll(b, old(backend.View()), limit)
  {
    var start := StartImport(backend, b, limit);
    if start.Err? {
      return Err(start.error);
    }
    var p := ImportEntries(backend, b, start.value);
    r := if p.raised.Some? then Err(p.raised.value) else Ok(p.outcome);
  }

  method ImportEntries(backend: InMemoryBackend, b: Batch, start: Progress) returns (p: Progress)
    requires backend.Valid() && WellFormed(b) && DrawsFresh(b, backend.View(), 0)
    modifies backend
    ensures backend.Valid()
    ensures Import(backend.View(), p) == ImportTo(b, Import(old(backend.View()), start), |b.entries|)
  {
    p := start;
    ghost var s := Import(backend.View(), p);
    for i := 0 to |b.entries|
      invariant backend.Valid() && DrawsFresh(b, backend.View(), i)
      invariant Import(backend.View(), p) == ImportTo(b, s, i)
    {
      if p.raised.Some? {
        RaisedStays(b, s, i, |b.entries|);
        return;
      }
      ImportOneFresh(b, Import(backend.View(), p), i);
      p := ImportEntry(backend, b, p, i);
    }
  }

  lemma {:induction false} RaisedStays(b: Batch, s: Import, n: nat, m: nat)
    requires WellFormed(b) && n <= m <= |b.entries| && ImportTo(b, s, n).done.raised.Some?
    ensures ImportTo(b, s, m) == ImportTo(b, s, n)
    decreases m
  {
    hide ImportOne;
    if n < m {
      RaisedStays(b, s, n, m - 1);
    }
  }

  /** One entry uses up at most its own draw. */
  lemma ImportOneFresh(b: Batch, s: Import, i: nat)
    requires WellFormed(b) && i < |b.entries| && DrawsFresh(b, s.store, i)
    ensures DrawsFresh(b, ImportOne(b, s, i).store, i + 1)
  {
    forall k | i + 1 <= k < |b.draws|
      ensures Fresh(ImportOne(b, s, i).store, b.draws[k].id)
    {
      var other := b.draws[k].id;
      match Check(b.validate, b.entries[i]) {
        case Rejected(_) =>
        case Accepted(content, scope, metadata) =>
          var key := DedupKey(content, ScopeKey(scope));
          if key in s.done.existing && b.mode == Overwrite {
            var dup := s.done.existing[key];
            ReplaceFresh(s.store, b.partition, dup.id, OverwriteChange(b, i, dup, content, metadata), b.draws[i].now,
                other);
          }
      }
    }
  }
}
