/** What policy writes, every backend takes alike, in any space that mem0 can match. */
module Portability {
  import opened Results
  import opened Values
  import opened CharTables
  import opened Metadata
  import opened ScopeRules
  import opened Contract
  import opened Transfer
  import opened Dedup
  import opened Policy
  import opened Mem0
  import opened Mem0Runs

  lemma AcceptedIsPortable(t: Tables, scope: Value)
    requires LawfulFolding(t) && CheckedScope(t, scope, SCOPE_KEYS).Ok?
    ensures
      var cleaned := CheckedScope(t, scope, SCOPE_KEYS).value;
      cleaned.Some? ==> PortableScope(cleaned.value)
  {
    hide Cleaned, IsWildcard;
    if CheckedScope(t, scope, SCOPE_KEYS).value.Some? {
      AcceptedScope(t, scope, SCOPE_KEYS);
    }
  }

  lemma ValidIsNullFree(metadata: Fields)
    requires IsValid(metadata, false)
    ensures NullFree(metadata)
  {
  }

  /** An add that passes policy's checks is portable if and only if mem0 can match the space. */
  lemma AddIsPortable(t: Tables, key: Key, content: string, scope: Value, metadata: Option<Fields>)
    requires LawfulFolding(t) && AddChecks(content, metadata) && CheckedScope(t, scope, SCOPE_KEYS).Ok?
    ensures Portable(Create(key.space, AddDraft(key, content, CheckedScope(t, scope, SCOPE_KEYS).value, metadata))) <==>
      !PartitionRefused(key.space)
  {
    hide CheckedScope, PartitionRefused, PortableScope, ValidContent, SizeAccepted;
    AcceptedIsPortable(t, scope);
    ValidIsNullFree(OrElse(metadata, map[]));
  }

  /** And so is an update. */
  lemma UpdateIsPortable(key: Key, id: string, existing: Memory, content: Option<string>, metadata: Option<Fields>)
    requires UpdateChecks(content, metadata)
    ensures Portable(Edit(key.space, id, UpdateChange(key, existing, content, metadata))) <==>
      !PartitionRefused(key.space)
  {
    hide PartitionRefused;
  }

  /** And so are both kinds of write of a policy import, for every entry it accepts. */
  lemma ImportIsPortable(t: Tables, key: Key, entries: seq<Entry>, mode: Mode, draws: seq<Draw>, outages: seq<Outage>,
      i: nat, dup: Memory)
    requires LawfulFolding(t) && |draws| == |entries| == |outages| && i < |entries|
    requires Valid(ImportBatch(t, key, entries, mode, draws, outages), i)
    ensures
      var b := ImportBatch(t, key, entries, mode, draws, outages);
      var draft := DraftOf(b, i);
      && (Portable(Create(key.space, draft)) <==> !PartitionRefused(key.space))
      && (Portable(Edit(key.space, dup.id, OverwriteChange(b, i, dup, draft.content, draft.metadata))) <==>
            !PartitionRefused(key.space))
  {
    hide CheckedScope, PartitionRefused, PortableScope, ValidContent, SizeAccepted;
    var b := ImportBatch(t, key, entries, mode, draws, outages);
    if !entries[i].scope.Null? {
      AcceptedIsPortable(t, entries[i].scope);
    }
    ValidIsNullFree(OrElse(DraftOf(b, i).metadata, map[]));
  }
}
