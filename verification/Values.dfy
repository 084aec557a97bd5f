/** The JSON values and the records that pass between policy and a backend. */
module Values {
  import opened Results
  import opened Text

  /** A JSON value. A number is known by the text `str` gives it, and whether it is finite; a list or an
      object carries the text `str` gives it as well. */
  datatype Value =
    | Null
    | Bool(flag: bool)
    | Number(digits: string, finite: bool)
    | Str(text: string)
    | List(items: seq<Value>, shown: string)
    | Object(fields: map<string, Value>, shown: string)

  type Fields = map<string, Value>
  type Texts = map<string, string>

  /** A scope value as every backend stores it. */
  function ScopeText(v: Value): string {
    match v
    case Null => "None"
    case Bool(flag) => if flag then "true" else "false"
    case Number(digits, _) => digits
    case Str(text) => text
    case List(_, shown) => shown
    case Object(_, shown) => shown
  }

  function ScopeAsText(scope: Fields): Texts {
    map k | k in scope :: ScopeText(scope[k])
  }

  predicate NullFree(fields: Fields) {
    forall k :: k in fields ==> fields[k] != Null
  }

  /** Null, empty or `*`: what mem0 reads as "any". */
  predicate IsWildcard(v: Value) {
    v.Null? || (v.Str? && (Strip(v.text) == "" || Strip(v.text) == "*"))
  }

  const NESTED_FILTER_KEYS := {"AND", "OR", "NOT", "and", "or", "not"}

  predicate HasNestedFilter(scope: Fields) {
    exists k :: k in NESTED_FILTER_KEYS && k in scope
  }

  const RESERVED_PREFIX := "_memcp_"
  const SYSTEM_KEY := "_memcp_system"

  const RESERVED_KEYS := {
    "actor_id", "agent_id", "attributed_to", "created_at", "data", "expiration_date", "hash", "id",
    "memory_type", "role", "run_id", "text_lemmatized", "updated_at", "user_id"
  }

  predicate IsReservedKey(key: string) {
    RESERVED_PREFIX <= key || key in RESERVED_KEYS
  }

  predicate HasReservedKey(keys: set<string>) {
    exists k :: k in keys && IsReservedKey(k)
  }

  /** Fields only policy sets. `space` may be any value on a store that was tampered with. */
  datatype System = System(space: Option<Value>, author: Option<string>, createdBy: Option<string>)

  const NO_SYSTEM := System(None, None, None)

  datatype Memory = Memory(
    id: string,
    content: string,
    scope: Texts,
    metadata: Fields,
    createdAt: string,
    updatedAt: Option<string>,
    partition: string,
    system: System
  )

  datatype Action = Created | Updated

  datatype HistoryEntry = HistoryEntry(
    action: Action,
    timestamp: string,
    before: Option<string>,
    after: Option<string>,
    author: Option<string>
  )

  /** A search result: a memory and its relevance. */
  datatype Hit = Hit(relevance: real, memory: Memory)

  datatype Page = Page(memories: seq<Memory>, next: Option<string>, incomplete: bool)

  datatype AddEvent = AddedEvent | ChangedEvent | DeletedEvent

  datatype AddResult = AddResult(id: string, createdAt: string, event: AddEvent)

  datatype PatchFields = PatchFields(sets: Fields, removes: set<string>)

  /** A merge patch never both sets and removes a key. */
  type Patch = p: PatchFields | p.removes !! p.sets.Keys witness PatchFields(map[], {})

  /** What a backend holds after a patch: the keys set, then the removed ones dropped. */
  function SetThenRemove(stored: Fields, patch: Patch): Fields {
    (stored + patch.sets) - patch.removes
  }

  function PatchMetadata(stored: Fields, patch: Option<Patch>): Fields {
    if patch.None? then stored else SetThenRemove(stored, patch.value)
  }

  function OrElse<T>(given: Option<T>, default: T): T {
    if given.Some? then given.value else default
  }

  /** Cursor-based pagination over a full list. */
  function Paginate(memories: seq<Memory>, cursor: Option<string>, limit: int): Result<Page> {
    var start := if cursor.None? || cursor.value == "" then Some(0) else ParseInt(cursor.value);
    if start.None? then Err(ValueError)
    else
      var stop := start.value + limit;
      Ok(Page(Slice(memories, start.value, stop), if stop < |memories| then Some(IntText(stop)) else None, false))
  }
}
