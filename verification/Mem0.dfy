/** The mem0 adapter over a global server that merges metadata and cannot delete a key. The adapter is
    proved to show, through that server, a plain store of memories. */
module Mem0 {
  import opened Results
  import opened Text
  import opened Values
  import opened Contract
  import opened Reading
  import opened Mem0Api
  import Dedup

  const LIST_CEILING := 1000

  // ---------- System fields inside metadata ----------

  function SystemFields(raw: Value): Fields {
    if raw.Object? then raw.fields else if raw.Null? then map[] else map["space" := raw]
  }

  function TextField(fields: Fields, key: string): Option<string> {
    if key in fields && fields[key].Str? then Some(fields[key].text) else None
  }

  /** The system fields kept under the reserved key. A malformed value is kept as the space, so that the
      space check fails on it. */
  function SystemIn(stored: Fields): System {
    var fields := SystemFields(if SYSTEM_KEY in stored then stored[SYSTEM_KEY] else Null);
    System(if "space" in fields then Some(fields["space"]) else None, TextField(fields, "author"),
        TextField(fields, "created_by"))
  }

  /** The rest, without `_memcp_` keys; a null is a removed key. */
  function Visible(stored: Fields): Fields {
    map k | k in stored && !(RESERVED_PREFIX <= k) && stored[k] != Null :: stored[k]
  }

  function SystemObject(s: System): Value {
    Object(
      (if s.space.Some? then map["space" := s.space.value] else map[]) +
      (if s.author.Some? then map["author" := Str(s.author.value)] else map[]) +
      (if s.createdBy.Some? then map["created_by" := Str(s.createdBy.value)] else map[]),
      "")
  }

  /** What is written as system fields is what reads back. */
  lemma SystemRoundTrip(stored: Fields, s: System)
    ensures SystemIn(stored[SYSTEM_KEY := SystemObject(s)]) == s
  {
  }

  function ScopeOf(r: Rec): Texts {
    (if r.agentId.Some? then map["agent_id" := r.agentId.value] else map[]) +
    (if r.runId.Some? then map["run_id" := r.runId.value] else map[])
  }

  /** `_parse_memory` */
  function Parse(id: string, r: Rec): Memory {
    Memory(id, r.memory, ScopeOf(r), Visible(r.metadata), r.createdAt, r.updatedAt, r.userId, SystemIn(r.metadata))
  }

  // ---------- The plain store it shows ----------

  /** A memory without its id and times. */
  datatype Plain = Plain(partition: string, content: string, scope: Texts, metadata: Fields, system: System)

  type PlainStore = map<string, Plain>

  function TimesOf(m: Memory): (string, Option<string>) {
    (m.createdAt, m.updatedAt)
  }

  /** Nothing to send: no text, no system fields, no key to set, and none to remove that is shown. */
  predicate SendsNothing(visible: Fields, change: Change) {
    && change.content.None? && change.system.None?
    && (change.patch.Some? ==> change.patch.value.sets == map[] && change.patch.value.removes !! visible.Keys)
  }

  function PlainOf(m: Memory): Plain {
    Plain(m.partition, m.content, m.scope, m.metadata, m.system)
  }

  function Shown(records: map<string, Rec>): PlainStore {
    map id | id in records :: PlainOf(Parse(id, records[id]))
  }

  function NonNull(fields: Fields): Fields {
    map k | k in fields && fields[k] != Null :: fields[k]
  }

  function ScopeParam(scope: Option<Fields>, key: string): Option<string> {
    if scope.Some? && key in scope.value then Some(ScopeText(scope.value[key])) else None
  }

  function PlainScope(scope: Option<Fields>): Texts {
    (if ScopeParam(scope, "agent_id").Some? then map["agent_id" := ScopeParam(scope, "agent_id").value] else map[]) +
    (if ScopeParam(scope, "run_id").Some? then map["run_id" := ScopeParam(scope, "run_id").value] else map[])
  }

  function PlainAdded(partition: string, draft: NewMemory): Plain {
    Plain(partition, draft.content, PlainScope(draft.scope), NonNull(OrElse(draft.metadata, map[])),
        OrElse(draft.system, NO_SYSTEM))
  }

  /** The plain effect of an update: text replaced, metadata patched, system replaced. */
  function PlainChanged(p: Plain, change: Change): Plain {
    p.(content := OrElse(change.content, p.content),
       metadata := NonNull(PatchMetadata(p.metadata, change.patch)),
       system := OrElse(change.system, p.system))
  }

  predicate PartitionRefused(partition: string) {
    partition == "" || partition == "*" || partition != Strip(partition)
  }

  function ScopeRefusal(scope: Option<Fields>): Option<Error> {
    if scope.None? || scope.value == map[] then None
    else if HasNestedFilter(scope.value) then Some(ValueError)
    else if exists k :: k in scope.value && k != "user_id" && IsWildcard(scope.value[k]) then Some(MemoryApiError(400))
    else None
  }

  // ---------- What an add sends ----------

  /** The metadata of a POST body: the caller's, and the system fields unless there are none. */
  function PostMetadata(draft: NewMemory): Fields {
    var given := OrElse(draft.metadata, map[]);
    var system := OrElse(draft.system, NO_SYSTEM);
    if system == NO_SYSTEM then given else given[SYSTEM_KEY := SystemObject(system)]
  }

  /** A scope's keys but `user_id`, each with its text. */
  function ScopeItems(scope: Option<Fields>): Fields {
    map k | k in OrElse(scope, map[]) && k != "user_id" :: Str(ScopeText(OrElse(scope, map[])[k]))
  }

  /** The body: the scope's keys are written over the first three, and the metadata, if any, over the
      scope's. */
  function Payload(partition: string, draft: NewMemory): Fields {
    var base: Fields := map["messages" := Message(draft.content), "user_id" := Str(partition), "infer" := Bool(false)];
    var scoped := base + ScopeItems(draft.scope);
    if PostMetadata(draft) == map[] then scoped else scoped["metadata" := Object(PostMetadata(draft), "")]
  }

  predicate HasScopeKey(draft: NewMemory, key: string) {
    draft.scope.Some? && key in draft.scope.value
  }

  function InferText(flags: FlagText, draft: NewMemory): Option<bool> {
    if HasScopeKey(draft, "infer") then flags(ScopeText(draft.scope.value["infer"])) else Some(false)
  }

  /** A scope key takes the place of the messages, or of metadata that is not sent, or of the flag with a text
      that is none. */
  predicate Garbles(flags: FlagText, draft: NewMemory) {
    || HasScopeKey(draft, "messages")
    || (HasScopeKey(draft, "metadata") && PostMetadata(draft) == map[])
    || InferText(flags, draft).None?
  }

  /** A scope key turns extraction on. */
  predicate Extracts(flags: FlagText, draft: NewMemory) {
    !Garbles(flags, draft) && InferText(flags, draft) == Some(true)
  }

  function Intended(partition: string, draft: NewMemory): Post {
    Post(partition, draft.content, ScopeParam(draft.scope, "agent_id"), ScopeParam(draft.scope, "run_id"),
        PostMetadata(draft))
  }

  /** Each field of the body: the adapter's, unless a scope key takes its place. */
  lemma PayloadFields(partition: string, draft: NewMemory)
    ensures
      var body := Payload(partition, draft);
      && body.Keys >= {"messages", "user_id", "infer"} && body["user_id"] == Str(partition)
      && (if HasScopeKey(draft, "messages") then body["messages"].Str? else body["messages"] == Message(draft.content))
      && body["infer"] == (if HasScopeKey(draft, "infer") then Str(ScopeText(draft.scope.value["infer"])) else Bool(false))
      && TextOf(body, "agent_id") == ScopeParam(draft.scope, "agent_id")
      && TextOf(body, "run_id") == ScopeParam(draft.scope, "run_id")
  {
    hide PostMetadata, Message, ScopeText;
  }

  lemma PayloadMetadata(partition: string, draft: NewMemory)
    ensures
      var body, metadata := Payload(partition, draft), PostMetadata(draft);
      if metadata != map[] then "metadata" in body && body["metadata"] == Object(metadata, "")
      else if HasScopeKey(draft, "metadata") then "metadata" in body && body["metadata"].Str?
      else "metadata" !in body
  {
    hide PostMetadata, Message, ScopeText;
  }

  /** What the server reads in an add's body, for every scope whatever. */
  lemma PayloadReads(flags: FlagText, partition: string, draft: NewMemory)
    ensures ReadBody(flags, Payload(partition, draft)) ==
      if Garbles(flags, draft) then Malformed
      else if Extracts(flags, draft) then Extraction(partition)
      else Verbatim(Intended(partition, draft))
  {
    hide PostMetadata, Payload, ScopeText, ScopeParam, HasScopeKey;
    PayloadFields(partition, draft);
    PayloadMetadata(partition, draft);
    assert MessageText(Message(draft.content)) == Some(draft.content);
  }

  /** An add sends what it was given, to be stored as it is, if and only if no scope key takes the place of the
      messages, of metadata that is not sent, or of the flag with anything but a text for "no". */
  lemma SentAsGivenIff(flags: FlagText, partition: string, draft: NewMemory)
    ensures ReadBody(flags, Payload(partition, draft)) == Verbatim(Intended(partition, draft)) <==>
      && !HasScopeKey(draft, "messages")
      && (HasScopeKey(draft, "metadata") ==> PostMetadata(draft) != map[])
      && (HasScopeKey(draft, "infer") ==> flags(ScopeText(draft.scope.value["infer"])) == Some(false))
  {
    hide ReadBody, Payload, Intended, PostMetadata;
    PayloadReads(flags, partition, draft);
    var infer := InferText(flags, draft);
    if infer.Some? && !infer.value {
      assert infer == Some(false);
    }
  }

  /** For one: with the scope `{"messages": "y"}` the content `x` is not sent, and the body is malformed. */
  lemma ContentNotSent(flags: FlagText, draft: NewMemory)
    requires draft == NewMemory("x", Some(map["messages" := Str("y")]), None, None)
    ensures Payload("p", draft)["messages"] == Str("y")
    ensures ReadBody(flags, Payload("p", draft)) == Malformed
  {
    var scope := draft.scope.value;
    assert "messages" in scope && scope["messages"] == Str("y");
    assert ScopeItems(draft.scope)["messages"] == Str("y");
    assert Garbles(flags, draft);
    PayloadReads(flags, "p", draft);
  }

  // ---------- Refusals ----------

  function Mem0AddRefusal(flags: FlagText, partition: string, draft: NewMemory): Option<Error> {
    if PartitionRefused(partition) then Some(MemoryApiError(400))
    else if ScopeRefusal(draft.scope).Some? then ScopeRefusal(draft.scope)
    else if HasReservedKey(OrElse(draft.metadata, map[]).Keys) then Some(MemoryApiError(400))
    else if Garbles(flags, draft) then Some(MemoryApiError(422))
    else None
  }

  function UpdateRefusal(store: PlainStore, partition: string, id: string, change: Change): Option<Error> {
    if PartitionRefused(partition) || PatchRefused(change.patch) then Some(MemoryApiError(400))
    else if id !in store || store[id].partition != partition then Some(MemoryApiError(404))
    else None
  }

  function DeleteRefusal(store: PlainStore, partition: string, id: string): Option<Error> {
    if PartitionRefused(partition) then Some(MemoryApiError(400))
    else if id !in store || store[id].partition != partition then Some(MemoryApiError(404))
    else None
  }

  // ---------- Merging with tombstones is patching ----------

  /** The metadata of a PUT body: the keys to set, a null for each stored key to remove, and the system
      fields. */
  function PutMetadata(visible: Fields, change: Change): Fields {
    (if change.patch.Some? then
       change.patch.value.sets + (map k | k in change.patch.value.removes && k in visible :: Null)
     else map[]) +
    (if change.system.Some? then map[SYSTEM_KEY := SystemObject(change.system.value)] else map[])
  }

  lemma MergeKeepsSystem(stored: Fields, change: Change)
    requires !PatchRefused(change.patch)
    ensures SystemIn(stored + PutMetadata(Visible(stored), change)) == OrElse(change.system, SystemIn(stored))
  {
    assert IsReservedKey(SYSTEM_KEY);
    if change.system.Some? {
      SystemRoundTrip(stored, change.system.value);
    }
  }

  predicate IsVisible(stored: Fields, k: string) {
    k in stored && !(RESERVED_PREFIX <= k) && stored[k] != Null
  }

  /** Key by key: a key set shows its value, a key removed shows nothing, and any other shows what it did. */
  lemma MergedKey(stored: Fields, change: Change, k: string)
    requires !PatchRefused(change.patch)
    ensures
      var after, plain := stored + PutMetadata(Visible(stored), change), PatchMetadata(Visible(stored), change.patch);
      && (IsVisible(after, k) <==> k in plain && plain[k] != Null)
      && (IsVisible(after, k) ==> after[k] == plain[k])
  {
    assert RESERVED_PREFIX <= SYSTEM_KEY;
    if change.patch.Some? && (k in change.patch.value.sets || k in change.patch.value.removes) {
      assert !IsReservedKey(k);
    }
  }

  lemma MergeShowsPatch(stored: Fields, change: Change)
    requires !PatchRefused(change.patch)
    ensures Visible(stored + PutMetadata(Visible(stored), change)) ==
      NonNull(PatchMetadata(Visible(stored), change.patch))
  {
    var after, plain := stored + PutMetadata(Visible(stored), change), PatchMetadata(Visible(stored), change.patch);
    forall k
      ensures (k in Visible(after) <==> k in NonNull(plain)) && (k in Visible(after) ==> Visible(after)[k] == NonNull(plain)[k])
    {
      MergedKey(stored, change, k);
    }
  }

  /** A record shows the time it was stored, and then also the time of its last merge. */
  lemma StoredTimes(id: string, post: Post, now: string)
    ensures Parse(id, Stored(post, now)).createdAt == now && Parse(id, Stored(post, now)).updatedAt == None
  {
  }

  lemma MergedTimes(id: string, r: Rec, text: Option<string>, metadata: Fields, now: string)
    ensures TimesOf(Parse(id, Merged(r, text, metadata, now))) == (r.createdAt, Some(now))
    ensures TimesOf(Parse(id, r)) == (r.createdAt, r.updatedAt)
  {
  }

  lemma ParsedTimes(id: string, r: Rec)
    ensures TimesOf(Parse(id, r)) == (r.createdAt, r.updatedAt)
    ensures Parse(id, r).metadata == PlainOf(Parse(id, r)).metadata
  {
  }

  lemma ShownPut(r: Rec, id: string, change: Change, now: string)
    requires !PatchRefused(change.patch)
    ensures PlainOf(Parse(id, Merged(r, change.content, PutMetadata(Visible(r.metadata), change), now))) ==
      PlainChanged(PlainOf(Parse(id, r)), change)
  {
    MergeShowsPatch(r.metadata, change);
    MergeKeepsSystem(r.metadata, change);
  }

  lemma NothingIff(visible: Fields, change: Change)
    ensures change.content.None? && PutMetadata(visible, change) == map[] <==> SendsNothing(visible, change)
  {
    var sent := PutMetadata(visible, change);
    assert change.system.Some? ==> SYSTEM_KEY in sent;
    if change.patch.Some? {
      var patch := change.patch.value;
      assert forall k :: k in patch.sets ==> k in sent;
      assert forall k :: k in patch.removes && k in visible ==> k in sent;
      assert SendsNothing(visible, change) ==> forall k :: k !in sent;
    }
  }

  /** With nothing to send, nothing would change. */
  lemma NothingToPut(r: Rec, id: string, change: Change)
    requires change.content.None? && PutMetadata(Visible(r.metadata), change) == map[]
    ensures PlainChanged(PlainOf(Parse(id, r)), change) == PlainOf(Parse(id, r))
  {
    assert change.system.Some? ==> SYSTEM_KEY in PutMetadata(Visible(r.metadata), change);
    if change.patch.Some? {
      var patch := change.patch.value;
      forall k | k in Visible(r.metadata)
        ensures k !in patch.removes
      {
        assert k in patch.removes ==> k in PutMetadata(Visible(r.metadata), change);
      }
      forall k
        ensures k !in patch.sets
      {
        assert k in patch.sets ==> k in PutMetadata(Visible(r.metadata), change);
      }
      assert SetThenRemove(Visible(r.metadata), patch) == Visible(r.metadata);
    }
  }

  /** What a POST stores is shown as the draft. */
  lemma ShownPost(partition: string, draft: NewMemory, id: string, now: string)
    requires !HasReservedKey(OrElse(draft.metadata, map[]).Keys)
    ensures PlainOf(Parse(id, Stored(Intended(partition, draft), now))) == PlainAdded(partition, draft)
  {
    var given, metadata := OrElse(draft.metadata, map[]), PostMetadata(draft);
    assert RESERVED_PREFIX <= SYSTEM_KEY;
    forall k | k in given
      ensures !(RESERVED_PREFIX <= k)
    {
      assert !IsReservedKey(k);
    }
    SystemRoundTrip(given, OrElse(draft.system, NO_SYSTEM));
    assert Visible(metadata) == NonNull(given);
  }

  lemma ShownSet(records: map<string, Rec>, id: string, r: Rec)
    ensures Shown(records[id := r]) == Shown(records)[id := PlainOf(Parse(id, r))]
  {
  }

  lemma ShownRemoved(records: map<string, Rec>, id: string)
    ensures Shown(records - {id}) == Shown(records) - {id}
  {
    hide Parse;
  }

  lemma ShownOwner(records: map<string, Rec>, id: string)
    ensures id in Shown(records) <==> id in records
    ensures id in records ==> Shown(records)[id] == PlainOf(Parse(id, records[id]))
    ensures id in records ==> Shown(records)[id].partition == records[id].userId
  {
  }

  class Mem0Backend {
    const server: Mem0Server

    constructor (s: Mem0Server)
      ensures server == s
    {
      server := s;
    }

    /** With `infer=False`. When a scope key turns extraction on, nothing is said of the result. */
    method Add(partition: string, draft: NewMemory, id: string, now: string) returns (r: Result<seq<AddResult>>)
      requires server.Valid() && id !in server.records
      modifies server
      ensures server.Valid() && OthersKept(old(server.records), server.records, partition)
      ensures
        var refusal := Mem0AddRefusal(server.flags, partition, draft);
        if refusal.Some? then r == Err(refusal.value) && server.records == old(server.records)
        else if Extracts(server.flags, draft) then true
        else
          && r == Ok([AddResult(id, now, AddedEvent)])
          && Shown(server.records) == Shown(old(server.records))[id := PlainAdded(partition, draft)]
          && server.order == old(server.order) + [id]
          && id in server.records && TimesOf(Parse(id, server.records[id])) == (now, None)
    {
      hide ReadBody, Payload, Shown, PlainAdded, PostMetadata, Garbles, Parse, NoRepeats, IsReservedKey,
        ScopeRefusal, PartitionRefused;
      if PartitionRefused(partition) {
        return Err(MemoryApiError(400));
      }
      var refusal := ScopeRefusal(draft.scope);
      if refusal.Some? {
        return Err(refusal.value);
      }
      var metadata := OrElse(draft.metadata, map[]);
      if HasReservedKey(metadata.Keys) {
        return Err(MemoryApiError(400));
      }
      var payload := BuildPayload(partition, draft);
      ghost var before := server.records;
      PayloadReads(server.flags, partition, draft);
      var taken := server.PostMemory(payload, id, now);
      if !taken {
        return Err(MemoryApiError(422));
      }
      ShownPost(partition, draft, id, now);
      StoredTimes(id, Intended(partition, draft), now);
      ShownSet(before, id, Stored(Intended(partition, draft), now));
      r := Ok([AddResult(id, now, AddedEvent)]);
    }

    /** The body, written key by key. */
    method BuildPayload(partition: string, draft: NewMemory) returns (payload: Fields)
      ensures payload == Payload(partition, draft)
    {
      payload := map["messages" := Message(draft.content), "user_id" := Str(partition), "infer" := Bool(false)];
      payload := payload + ScopeItems(draft.scope);
      var metadata := OrElse(draft.metadata, map[]);
      if draft.system.Some? && draft.system.value != NO_SYSTEM {
        metadata := metadata[SYSTEM_KEY := SystemObject(draft.system.value)];
      }
      if metadata != map[] {
        payload := payload["metadata" := Object(metadata, "")];
      }
    }

    method Get(partition: string, id: string) returns (r: Result<Option<Memory>>)
      ensures r ==
        if PartitionRefused(partition) then Err(MemoryApiError(400))
        else if id !in server.records || server.records[id].userId != partition then Ok(None)
        else Ok(Some(Parse(id, server.records[id])))
    {
      if PartitionRefused(partition) {
        return Err(MemoryApiError(400));
      }
      if id !in server.records || server.records[id].userId != partition {
        return Ok(None);
      }
      return Ok(Some(Parse(id, server.records[id])));
    }

    method Update(partition: string, id: string, change: Change, now: string) returns (r: Result<Memory>)
      requires server.Valid()
      modifies server`records
      ensures server.Valid() && OthersKept(old(server.records), server.records, partition)
      ensures
        var refusal := UpdateRefusal(Shown(old(server.records)), partition, id, change);
        if refusal.Some? then r == Err(refusal.value) && server.records == old(server.records)
        else
          && Shown(server.records) == Shown(old(server.records))[id := PlainChanged(Shown(old(server.records))[id], change)]
          && id in server.records && r == Ok(Parse(id, server.records[id])) && id in old(server.records)
          && TimesOf(r.value) ==
               (old(server.records)[id].createdAt,
                if SendsNothing(Shown(old(server.records))[id].metadata, change) then old(server.records)[id].updatedAt
                else Some(now))
          && server.records - {id} == old(server.records) - {id}
    {
      hide IsReservedKey, Parse, PlainChanged, SendsNothing;
      ShownOwner(server.records, id);
      if PartitionRefused(partition) {
        return Err(MemoryApiError(400));
      }
      if change.patch.Some? && HasReservedKey(change.patch.value.sets.Keys + change.patch.value.removes) {
        return Err(MemoryApiError(400));
      }
      var existing := Get(partition, id);
      if existing.value.None? {
        return Err(MemoryApiError(404));
      }
      ghost var before := server.records;
      var updated := PutChange(partition, id, change, existing.value.value, now);
      ShownSet(before, id, server.records[id]);
      ParsedTimes(id, before[id]);
      r := Ok(updated);
    }

    /** The PUT of an update that passed its checks, left out when it would send nothing. */
    method PutChange(partition: string, id: string, change: Change, existing: Memory, now: string) returns (m: Memory)
      requires server.Valid() && id in server.records && server.records[id].userId == partition
      requires existing == Parse(id, server.records[id]) && !PartitionRefused(partition) && !PatchRefused(change.patch)
      modifies server`records
      ensures server.Valid() && id in server.records && m == Parse(id, server.records[id])
      ensures server.records == old(server.records)[id := server.records[id]] && server.records[id].userId == partition
      ensures PlainOf(m) == PlainChanged(PlainOf(existing), change) 
      ensures TimesOf(m) ==
        (existing.createdAt, if SendsNothing(existing.metadata, change) then existing.updatedAt else Some(now))
    {
      hide PlainChanged, PutMetadata, SendsNothing;
      ghost var before := server.records[id];
      NothingIff(existing.metadata, change);
      var metadata := PutMetadata(existing.metadata, change);
      if change.content.None? && metadata == map[] {
        NothingToPut(before, id, change);
        return existing;
      }
      server.PutMemory(id, change.content, metadata, now);
      ShownPut(before, id, change, now);
      MergedTimes(id, before, change.content, metadata, now);
      var updated := Get(partition, id);
      m := updated.value.value;
    }

    method Delete(partition: string, id: string) returns (r: Result<bool>)
      requires server.Valid()
      modifies server
      ensures server.Valid() && OthersKept(old(server.records), server.records, partition)
      ensures
        var refusal := DeleteRefusal(Shown(old(server.records)), partition, id);
        if refusal.Some? then r == Err(refusal.value) && server.records == old(server.records)
        else
          && r == Ok(true) && Shown(server.records) == Shown(old(server.records)) - {id}
          && server.order == Kept(old(server.order), id)
    {
      hide Parse, PartitionRefused, Shown, Kept, NoRepeats;
      ShownOwner(server.records, id);
      var existing := Get(partition, id);
      if existing.Err? {
        return Err(existing.error);
      }
      if existing.value.None? {
        return Err(MemoryApiError(404));
      }
      ghost var before := server.records;
      server.DeleteMemory(id);
      ShownRemoved(before, id);
      r := Ok(true);
    }

    /** The page, and the list it pages over: at most the ceiling, and marked incomplete when full. */
    method ListMemories(partition: string, scope: Option<Fields>, limit: int,
        cursor: Option<string>) returns (r: Result<Page>)
      requires server.Valid()
      ensures
        if PartitionRefused(partition) then r == Err(MemoryApiError(400))
        else if ScopeRefusal(scope).Some? then r == Err(ScopeRefusal(scope).value)
        else
          var listed := ServerList(server.order, server.records, partition, scope);
          r == Pager(Reachable(listed), AtCeiling(listed))(0, limit, cursor)
    {
      if PartitionRefused(partition) {
        return Err(MemoryApiError(400));
      }
      if ScopeRefusal(scope).Some? {
        return Err(ScopeRefusal(scope).value);
      }
      var raw := Reachable(ServerList(server.order, server.records, partition, scope));
      var atCeiling := |raw| >= LIST_CEILING;
      var page := Paginate(raw, cursor, limit);
      if page.Err? {
        return Err(page.error);
      }
      return Ok(page.value.(incomplete := atCeiling));
    }
  }

  // ---------- Listing under a ceiling ----------

  predicate Filtered(r: Rec, partition: string, scope: Option<Fields>) {
    && r.userId == partition
    && (ScopeParam(scope, "agent_id").Some? ==> r.agentId == ScopeParam(scope, "agent_id"))
    && (ScopeParam(scope, "run_id").Some? ==> r.runId == ScopeParam(scope, "run_id"))
  }

  /** For the scope keys that mem0 has, its filter selects what the plain backends' filter selects. */
  lemma FilteredIff(r: Rec, id: string, partition: string, scope: Option<Fields>)
    requires OrElse(scope, map[]).Keys <= {"agent_id", "run_id"}
    ensures Filtered(r, partition, scope) <==>
      Parse(id, r).partition == partition && InScope(Parse(id, r), scope)
  {
    hide ScopeText, Visible, SystemIn;
  }

  /** Everything the server holds for a query, in its order. */
  function ServerList(order: seq<string>, records: map<string, Rec>, partition: string,
      scope: Option<Fields>): seq<Memory>
    requires forall i :: 0 <= i < |order| ==> order[i] in records
  {
    if order == [] then []
    else if Filtered(records[order[0]], partition, scope) then
      [Parse(order[0], records[order[0]])] + ServerList(order[1..], records, partition, scope)
    else ServerList(order[1..], records, partition, scope)
  }

  /** What one response reaches: `top_k` is the ceiling. */
  function Reachable(listed: seq<Memory>): seq<Memory> {
    Slice(listed, 0, LIST_CEILING)
  }

  predicate AtCeiling(listed: seq<Memory>) {
    |Reachable(listed)| >= LIST_CEILING
  }

  lemma {:induction false} ServerListIs(order: seq<string>, records: map<string, Rec>, partition: string,
      scope: Option<Fields>, m: Memory)
    requires forall i :: 0 <= i < |order| ==> order[i] in records
    ensures m in ServerList(order, records, partition, scope) <==>
      m.id in order && Filtered(records[m.id], partition, scope) && m == Parse(m.id, records[m.id])
    decreases |order|
  {
    hide Filtered, Visible, SystemIn, ScopeOf;
    if order != [] {
      ServerListIs(order[1..], records, partition, scope, m);
      assert order == [order[0]] + order[1..];
    }
  }

  lemma {:induction false} ServerListOnce(order: seq<string>, records: map<string, Rec>, partition: string,
      scope: Option<Fields>)
    requires NoRepeats(order) && forall i :: 0 <= i < |order| ==> order[i] in records
    ensures Dedup.DistinctIds(ServerList(order, records, partition, scope))
    decreases |order|
  {
    hide Filtered, Visible, SystemIn, ScopeOf;
    if order != [] {
      ServerListOnce(order[1..], records, partition, scope);
      var rest := ServerList(order[1..], records, partition, scope);
      forall i | 0 <= i < |rest|
        ensures rest[i].id != order[0]
      {
        ServerListIs(order[1..], records, partition, scope, rest[i]);
        assert rest[i].id in order[1..];
      }
    }
  }

  /** The list holds, each once, exactly the partition's records that pass the filter. */
  ghost predicate ListsExactly(memories: seq<Memory>, records: map<string, Rec>, partition: string,
      scope: Option<Fields>) {
    && Dedup.DistinctIds(memories)
    && forall m :: m in memories <==>
         m.id in records && Filtered(records[m.id], partition, scope) && m == Parse(m.id, records[m.id])
  }

  lemma ServerListsExactly(order: seq<string>, records: map<string, Rec>, partition: string, scope: Option<Fields>)
    requires Covers(order, records)
    ensures ListsExactly(ServerList(order, records, partition, scope), records, partition, scope)
  {
    hide Filtered, Parse, ServerList;
    ServerListOnce(order, records, partition, scope);
    forall m
      ensures m in ServerList(order, records, partition, scope) <==>
        m.id in records && Filtered(records[m.id], partition, scope) && m == Parse(m.id, records[m.id])
    {
      ServerListIs(order, records, partition, scope, m);
    }
  }

  function IdsHeld(records: map<string, Rec>, partition: string): set<string> {
    set id | id in records && records[id].userId == partition
  }

  function IdsFrom(order: seq<string>, records: map<string, Rec>, partition: string): set<string>
    requires forall i :: 0 <= i < |order| ==> order[i] in records
  {
    set id | id in order && records[id].userId == partition
  }

  lemma {:induction false} ServerListCount(order: seq<string>, records: map<string, Rec>, partition: string)
    requires NoRepeats(order) && forall i :: 0 <= i < |order| ==> order[i] in records
    ensures |ServerList(order, records, partition, None)| == |IdsFrom(order, records, partition)|
    decreases |order|
  {
    hide Parse, IdsFrom;
    if order == [] {
      NoIds(records, partition);
    } else {
      ServerListCount(order[1..], records, partition);
      OneMoreId(order, records, partition);
    }
  }

  lemma NoIds(records: map<string, Rec>, partition: string)
    ensures IdsFrom([], records, partition) == {}
  {
  }

  lemma OneMoreId(order: seq<string>, records: map<string, Rec>, partition: string)
    requires order != [] && NoRepeats(order) && forall i :: 0 <= i < |order| ==> order[i] in records
    ensures
      |IdsFrom(order, records, partition)| ==
      |IdsFrom(order[1..], records, partition)| + (if records[order[0]].userId == partition then 1 else 0)
  {
    var ids, rest := IdsFrom(order, records, partition), IdsFrom(order[1..], records, partition);
    assert order == [order[0]] + order[1..];
    forall i | 0 <= i < |order[1..]|
      ensures order[1..][i] != order[0]
    {
      assert order[1..][i] == order[i + 1];
    }
    assert order[0] !in rest;
    if records[order[0]].userId == partition {
      assert ids == rest + {order[0]};
    } else {
      assert ids == rest;
    }
  }

  lemma HeldCount(order: seq<string>, records: map<string, Rec>, partition: string)
    requires Covers(order, records)
    ensures |ServerList(order, records, partition, None)| == |IdsHeld(records, partition)|
  {
    ServerListCount(order, records, partition);
    assert IdsHeld(records, partition) == IdsFrom(order, records, partition);
  }

  lemma ReachesAll(listed: seq<Memory>, partition: string, limit: nat)
    ensures
      var r := Follow(Pager(Reachable(listed), AtCeiling(listed)), partition, limit, 0, [], false, None);
      r.Ok? ==>
        && (r.value.missed <==> |listed| >= LIST_CEILING || |listed| > limit)
        && (!r.value.missed ==> r.value.memories == listed)
  {
    FollowPager(Reachable(listed), AtCeiling(listed), partition, limit);
    if |listed| < LIST_CEILING {
      assert Reachable(listed) == listed;
    }
    if |listed| <= limit {
      assert Slice(Reachable(listed), 0, limit) == Reachable(listed);
    }
  }

  /** Reading a partition through the ceiling misses something if and only if the server holds as many of its
      records as the ceiling, or more than the limit; and a reading that misses nothing returns exactly the
      partition's records, each once. */
  lemma CeilingIsReported(order: seq<string>, records: map<string, Rec>, partition: string, limit: nat)
    requires Covers(order, records)
    ensures
      var listed := ServerList(order, records, partition, None);
      var r := Follow(Pager(Reachable(listed), AtCeiling(listed)), partition, limit, 0, [], false, None);
      var held := |IdsHeld(records, partition)|;
      r.Ok? ==>
        && (r.value.missed <==> held >= 1000 || held > limit)
        && (!r.value.missed ==> ListsExactly(r.value.memories, records, partition, None))
  {
    hide Follow, ListsExactly, ServerList, IdsHeld;
    ReachesAll(ServerList(order, records, partition, None), partition, limit);
    HeldCount(order, records, partition);
    ServerListsExactly(order, records, partition, None);
  }
}
