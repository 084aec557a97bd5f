/** The metadata rules: which keys and values a caller may store, how large, and what a patch does. */
module Metadata {
  import opened Results
  import opened Values

  const MAX_METADATA_KEY_LENGTH := 64
  const MAX_METADATA_BYTES := 16 * 1024

  /** A string, a finite number, a boolean or a list of strings. */
  predicate IsValue(v: Value) {
    match v
    case Str(_) => true
    case Bool(_) => true
    case Number(_, finite) => finite
    case List(items, _) => forall i :: 0 <= i < |items| ==> items[i].Str?
    case Null => false
    case Object(_, _) => false
  }

  predicate ValidPair(key: string, value: Value, nulls: bool) {
    && !IsReservedKey(key)
    && ((value.Null? && nulls) || (|key| <= MAX_METADATA_KEY_LENGTH && IsValue(value)))
  }

  /** Whether `validate_metadata` accepts; `nulls` admits a null, which removes its key in an update. */
  predicate IsValid(metadata: Fields, nulls: bool) {
    forall k :: k in metadata ==> ValidPair(k, metadata[k], nulls)
  }

  // ---------- Size as JSON ----------

  /** Bytes of a character inside a JSON string written with `ensure_ascii=False`, as UTF-8. */
  function CharBytes(c: char): nat {
    if c == '\"' || c == '\\' || c == '\n' || c == '\r' || c == '\t' || c == '\U{8}' || c == '\U{c}' then 2
    else if c < ' ' then 6
    else if c < '\U{80}' then 1
    else if c < '\U{800}' then 2
    else if c < '\U{10000}' then 3
    else 4
  }

  function TextBytes(s: string): nat {
    if s == "" then 0 else CharBytes(s[0]) + TextBytes(s[1..])
  }

  function StringBytes(s: string): nat {
    2 + TextBytes(s)
  }

  /** The values of an object are smaller than the object. */
  ghost predicate Inside(fields: Fields, owner: Value) {
    forall k :: k in fields ==> fields[k] < owner
  }

  ghost function ValueBytes(v: Value): nat
    decreases v, 2
  {
    match v
    case Null => 4
    case Bool(flag) => if flag then 4 else 5
    case Number(digits, _) => |digits|
    case Str(text) => StringBytes(text)
    case List(items, _) => 2 + ItemsBytes(items)
    case Object(fields, _) => 2 + PairsBytes(v, fields) + Commas(fields)
  }

  /** The items of a list with the commas between them. */
  ghost function ItemsBytes(items: seq<Value>): nat {
    if items == [] then 0
    else if |items| == 1 then ValueBytes(items[0])
    else ValueBytes(items[0]) + 1 + ItemsBytes(items[1..])
  }

  function Commas(fields: Fields): nat {
    if fields == map[] then 0 else |fields| - 1
  }

  ghost function PairBytes(key: string, value: Value): nat
    decreases value, 3
  {
    StringBytes(key) + 1 + ValueBytes(value)
  }

  /** The pairs of an object, in any order. */
  ghost function PairsBytes(owner: Value, fields: Fields): nat
    requires Inside(fields, owner)
    decreases owner, 1, |fields|
  {
    if fields == map[] then 0
    else
      var k :| k in fields;
      PairBytes(k, fields[k]) + PairsBytes(owner, fields - {k})
  }

  /** `len(json.dumps(metadata, ensure_ascii=False, separators=(",", ":")).encode())` */
  ghost function Size(metadata: Fields): nat {
    ValueBytes(Object(metadata, ""))
  }

  /** The order of the pairs does not matter: any of them may be counted first. */
  lemma {:induction false} PairsSplit(owner: Value, fields: Fields, k: string)
    requires Inside(fields, owner) && k in fields
    ensures PairsBytes(owner, fields) == PairBytes(k, fields[k]) + PairsBytes(owner, fields - {k})
    decreases |fields|
  {
    hide PairBytes;
    var first :| first in fields &&
      PairsBytes(owner, fields) == PairBytes(first, fields[first]) + PairsBytes(owner, fields - {first});
    if first != k {
      PairsSplit(owner, fields - {first}, k);
      PairsSplit(owner, fields - {k}, first);
      assert fields - {first} - {k} == fields - {k} - {first};
    }
  }

  /** Nor does the object that they are counted as part of. */
  lemma {:induction false} AnyOwner(owner: Value, other: Value, fields: Fields)
    requires Inside(fields, owner) && Inside(fields, other)
    ensures PairsBytes(owner, fields) == PairsBytes(other, fields)
    decreases |fields|
  {
    hide PairBytes;
    if k :| k in fields {
      PairsSplit(owner, fields, k);
      PairsSplit(other, fields, k);
      AnyOwner(owner, other, fields - {k});
    }
  }

  method MeasureValue(v: Value) returns (size: nat)
    ensures size == ValueBytes(v)
    decreases v, 2
  {
    match v
    case Null => size := 4;
    case Bool(flag) => size := if flag then 4 else 5;
    case Number(digits, _) => size := |digits|;
    case Str(text) => size := StringBytes(text);
    case List(items, _) =>
      var within := MeasureItems(items);
      size := 2 + within;
    case Object(fields, _) =>
      var within := MeasurePairs(v, fields);
      size := 2 + within + Commas(fields);
  }

  method MeasureItems(items: seq<Value>) returns (size: nat)
    ensures size == ItemsBytes(items)
    decreases items
  {
    if items == [] {
      return 0;
    }
    var first := MeasureValue(items[0]);
    if |items| == 1 {
      return first;
    }
    var rest := MeasureItems(items[1..]);
    size := first + 1 + rest;
  }

  method MeasurePairs(ghost owner: Value, fields: Fields) returns (size: nat)
    requires Inside(fields, owner)
    ensures size == PairsBytes(owner, fields)
    decreases owner, 1
  {
    size := 0;
    var rest := fields;
    while rest != map[]
      invariant Inside(rest, owner) && size + PairsBytes(owner, rest) == PairsBytes(owner, fields)
      decreases |rest|
    {
      var k :| k in rest;
      PairsSplit(owner, rest, k);
      var value := MeasureValue(rest[k]);
      size := size + StringBytes(k) + 1 + value;
      rest := rest - {k};
    }
  }

  method Measure(metadata: Fields) returns (size: nat)
    ensures size == Size(metadata)
  {
    size := MeasureValue(Object(metadata, ""));
  }

  /** Whether `check_metadata_size` accepts: within the cap, or no larger than what is stored. */
  ghost predicate SizeAccepted(metadata: Fields, stored: Option<Fields>) {
    Size(metadata) <= MAX_METADATA_BYTES || (stored.Some? && Size(metadata) <= Size(stored.value))
  }

  method CheckSize(metadata: Fields, stored: Option<Fields>) returns (accepted: bool)
    ensures accepted == SizeAccepted(metadata, stored)
  {
    var size := Measure(metadata);
    if size > MAX_METADATA_BYTES {
      if stored.None? {
        return false;
      }
      var storedSize := Measure(stored.value);
      return size <= storedSize;
    }
    return true;
  }

  lemma RemoveOneShrinks(metadata: Fields, k: string)
    requires k in metadata
    ensures |metadata - {k}| == |metadata| - 1 && Size(metadata - {k}) <= Size(metadata)
  {
    hide PairBytes;
    var left := metadata - {k};
    PairsSplit(Object(metadata, ""), metadata, k);
    AnyOwner(Object(metadata, ""), Object(left, ""), left);
    assert left.Keys == metadata.Keys - {k};
    assert |metadata.Keys - {k}| == |metadata.Keys| - 1;
  }

  lemma {:induction false} RemovalShrinks(metadata: Fields, removes: set<string>)
    ensures Size(metadata - removes) <= Size(metadata)
    decreases |metadata|
  {
    if k :| k in metadata && k in removes {
      RemoveOneShrinks(metadata, k);
      RemovalShrinks(metadata - {k}, removes);
      assert metadata - {k} - removes == metadata - removes;
    } else {
      assert metadata - removes == metadata;
    }
  }

  // ---------- Patches ----------

  /** update_memory's argument as a patch: a null removes its key. */
  function AsPatch(metadata: Fields): Patch {
    PatchFields(map k | k in metadata && metadata[k] != Null :: metadata[k],
                set k | k in metadata && metadata[k] == Null)
  }

  /** What policy measures: the removed keys dropped, then the others set. */
  function Patched(stored: Fields, patch: Patch): Fields {
    (stored - patch.removes) + patch.sets
  }

  /** A JSON merge patch (RFC 7396, section 2) of one object without nested objects, key by key. */
  function MergePatch(stored: Fields, metadata: Fields): Fields {
    map k | k in stored.Keys + metadata.Keys && (k in metadata ==> metadata[k] != Null)
      :: if k in metadata then metadata[k] else stored[k]
  }

  /** Policy's order of removing and setting, the backends' order, and the standard's agree. */
  lemma PatchOrdersAgree(stored: Fields, patch: Patch)
    ensures Patched(stored, patch) == SetThenRemove(stored, patch)
  {
  }

  lemma PatchIsMergePatch(stored: Fields, metadata: Fields)
    ensures SetThenRemove(stored, AsPatch(metadata)) == MergePatch(stored, metadata)
  {
    var patch := AsPatch(metadata);
    assert forall k :: k in SetThenRemove(stored, patch) <==> k in MergePatch(stored, metadata);
  }

  /** An update whose patch only removes keys always passes the size check, however large the stored
      metadata is. */
  lemma RemovalAlwaysAccepted(stored: Fields, metadata: Fields)
    requires forall k :: k in metadata ==> metadata[k] == Null
    ensures SizeAccepted(Patched(stored, AsPatch(metadata)), Some(stored))
  {
    var patch := AsPatch(metadata);
    assert patch.sets == map[];
    assert Patched(stored, patch) == stored - patch.removes;
    RemovalShrinks(stored, patch.removes);
  }

  /** An accepted update keeps metadata valid, and within the larger of the cap and its old size. */
  lemma AcceptedUpdate(stored: Fields, metadata: Fields)
    requires IsValid(metadata, true) && SizeAccepted(Patched(stored, AsPatch(metadata)), Some(stored))
    ensures IsValid(stored, false) ==> IsValid(SetThenRemove(stored, AsPatch(metadata)), false)
    ensures
      var after := Size(SetThenRemove(stored, AsPatch(metadata)));
      after <= MAX_METADATA_BYTES || after <= Size(stored)
  {
    PatchOrdersAgree(stored, AsPatch(metadata));
  }

  // ---------- The system stamp ----------

  function SystemFor(partition: string, author: string, createdBy: Option<string>): System {
    System(Some(Str(partition)), Some(author), createdBy)
  }
}
