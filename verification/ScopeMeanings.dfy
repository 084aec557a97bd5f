/** Which scopes a caller may give, what becomes of them, and which memories a scope then names. */
module ScopeMeanings {
  import opened Results
  import opened Text
  import opened Values
  import opened CharTables
  import opened FastTokenizer
  import opened ScopeRules
  import opened Contract
  import opened Reading
  import opened Transfer
  import opened Dedup
  import opened Lookups
  import opened Policy
  import opened Searching

  // ---------- Which scopes are accepted ----------

  /** A name with an ASCII letter or digit in it, once it is lowered. */
  ghost predicate HasWord(t: Tables, name: string) {
    exists i :: 0 <= i < |t.lower(Strip(name))| && IsAsciiToken(t.lower(Strip(name))[i])
  }

  /** Text that is neither empty nor `*`, with no space at either end. */
  predicate PlainText(text: string) {
    text != "" && text != "*" && !IsSpace(text[0]) && !IsSpace(text[|text| - 1])
  }

  /** The values that a key of a scope may have. */
  ghost predicate MayHold(t: Tables, k: string, v: Value) {
    match v
    case Bool(_) => true
    case Number(_, finite) => finite
    case Str(text) =>
      && |text| <= 256
      && (if k == "agent_id" then HasWord(t, text) else PlainText(text))
      && (k == "run_id" ==> forall i :: 0 <= i < |text| ==> !IsSpace(text[i]))
    case _ => false
  }

  ghost predicate MayGive(t: Tables, fields: Fields, allowed: set<string>) {
    && "user_id" !in fields && !HasNestedFilter(fields)
    && |fields| <= 10 && fields.Keys <= allowed
    && forall k :: k in fields ==> |k| <= 64 && MayHold(t, k, fields[k])
  }

  ghost predicate MayScope(t: Tables, scope: Value, allowed: set<string>) {
    scope.Null? || (scope.Object? && MayGive(t, scope.fields, allowed))
  }

  /** What becomes of an accepted value: an agent name its words joined by hyphens, any other value itself. */
  function Stored(t: Tables, k: string, v: Value): Value {
    if k == "agent_id" && v.Str? then Str(Hyphenate(AsciiTokens(t.lower(Strip(v.text))))) else v
  }

  lemma {:induction false} NoWords(s: string)
    ensures AsciiTokens(s) == [] <==> forall i :: 0 <= i < |s| ==> !IsAsciiToken(s[i])
    decreases |s|
  {
    if s != "" {
      var n := Span(IsAsciiToken, s);
      if n == 0 {
        NoWords(s[1..]);
        assert forall i :: 0 < i < |s| ==> s[i] == s[1..][i - 1];
        assert forall i :: 0 <= i < |s[1..]| ==> s[1..][i] == s[i + 1];
      } else {
        assert IsAsciiToken(s[..n][0]) && s[..n][0] == s[0];
      }
    }
  }

  lemma HasWordIff(t: Tables, name: string)
    ensures HasWord(t, name) <==> Normalize(t, name) != ""
    ensures Normalize(t, name) == Hyphenate(AsciiTokens(t.lower(Strip(name))))
  {
    hide AsciiTokens, Strip, Normalize;
    var s := t.lower(Strip(name));
    NormalizeIs(t, name);
    NoWords(s);
    if AsciiTokens(s) != [] {
      AsciiTokensAreWords(s);
      HyphenateEnds(AsciiTokens(s));
    }
  }

  /** Neither of the texts that mean "any" holds a word. */
  lemma WordsAreConcrete(t: Tables, name: string)
    requires LawfulFolding(t) && HasWord(t, name)
    ensures !IsWildcard(Str(name))
  {
    hide Strip;
    assert AllAscii("") && AllAscii("*");
    assert AsciiLower("*") == "*" && AsciiLower("") == "";
    assert Strip(name) != "" && Strip(name) != "*";
  }

  lemma PlainIff(text: string)
    ensures PlainText(text) <==> text == Strip(text) && !IsWildcard(Str(text))
  {
    if PlainText(text) {
      StripKeepsTight(text);
    }
    var front, back := StripIs(text);
  }

  /** Each value is accepted or refused by itself, and this is what it is stored as. */
  lemma ValueIff(t: Tables, k: string, v: Value)
    requires LawfulFolding(t)
    ensures CleanValue(t, k, v) == if |k| <= 64 && MayHold(t, k, v) then Some(Stored(t, k, v)) else None
  {
    hide Strip, Normalize, AsciiTokens, Hyphenate, IsWildcard, PlainText, HasWord;
    if v.Str? {
      if k == "agent_id" {
        HasWordIff(t, v.text);
        if HasWord(t, v.text) {
          WordsAreConcrete(t, v.text);
        }
      } else {
        PlainIff(v.text);
      }
    } else {
      assert IsWildcard(v) <==> v.Null? by {
        NoTextNoWildcard(v);
      }
    }
  }

  lemma NoTextNoWildcard(v: Value)
    requires !v.Str?
    ensures IsWildcard(v) <==> v.Null?
  {
  }

  /** A scope is accepted exactly when it is absent, or an object of at most ten declared keys with a value
      that each may have. */
  lemma AcceptedIff(t: Tables, scope: Value, allowed: set<string>)
    requires LawfulFolding(t)
    ensures CheckedScope(t, scope, allowed).Ok? <==> MayScope(t, scope, allowed)
  {
    hide CleanValue, MayHold, HasNestedFilter;
    if scope.Object? {
      var fields := scope.fields;
      forall k | k in fields
        ensures CleanValue(t, k, fields[k]).Some? <==> |k| <= 64 && MayHold(t, k, fields[k])
      {
        ValueIff(t, k, fields[k]);
      }
      if fields == map[] {
        EmptyIsPlain(fields);
      }
    }
  }

  lemma EmptyIsPlain(fields: Fields)
    requires fields == map[]
    ensures !HasNestedFilter(fields) && "user_id" !in fields && fields.Keys == {}
  {
  }

  /** An accepted scope keeps the caller's keys, and every value but an agent's name. */
  lemma CleanedForm(t: Tables, scope: Value, allowed: set<string>)
    requires LawfulFolding(t) && CheckedScope(t, scope, allowed).Ok?
    ensures
      var cleaned := CheckedScope(t, scope, allowed).value;
      && (scope.Null? <==> cleaned == None)
      && (!scope.Null? ==> scope.Object? && cleaned.Some? && cleaned.value.Keys == scope.fields.Keys)
      && (!scope.Null? ==> forall k :: k in scope.fields ==> cleaned.value[k] == Stored(t, k, scope.fields[k]))
  {
    hide CleanValue, HasNestedFilter, Stored;
    if scope.Object? {
      forall k | k in scope.fields
        ensures CleanValue(t, k, scope.fields[k]).Some? ==>
          CleanValue(t, k, scope.fields[k]).value == Stored(t, k, scope.fields[k])
      {
        ValueIff(t, k, scope.fields[k]);
      }
    }
  }

  /** Why a scope is refused: for setting `user_id` or a key that is not declared, for nesting a filter, or
      for its form. */
  lemma RefusedAs(t: Tables, scope: Value, allowed: set<string>)
    requires LawfulFolding(t) && CheckedScope(t, scope, allowed).Err?
    ensures CheckedScope(t, scope, allowed).error == PolicyError(
      if !scope.Object? then ValidationError
      else if "user_id" in scope.fields then InvalidScope
      else if HasNestedFilter(scope.fields) then NestedFilter
      else if |scope.fields| <= 10 && (forall k :: k in scope.fields ==> |k| <= 64 && MayHold(t, k, scope.fields[k]))
      then InvalidScope
      else ValidationError)
  {
    hide CleanValue, MayHold, HasNestedFilter;
    if scope.Object? {
      forall k | k in scope.fields
        ensures CleanValue(t, k, scope.fields[k]).Some? <==> |k| <= 64 && MayHold(t, k, scope.fields[k])
      {
        ValueIff(t, k, scope.fields[k]);
      }
    }
  }

  // ---------- Which memories a scope names ----------

  /** The text that a caller's value is filed and asked for under. */
  function FiledText(t: Tables, k: string, v: Value): string {
    match v
    case Null => "None"
    case Bool(flag) => if flag then "true" else "false"
    case Number(digits, _) => digits
    case Str(text) => if k == "agent_id" then Hyphenate(AsciiTokens(t.lower(Strip(text)))) else text
    case List(_, shown) => shown
    case Object(_, shown) => shown
  }

  function GivenFields(scope: Value): Fields {
    if scope.Object? then scope.fields else map[]
  }

  /** The memory is filed under every key of the caller's scope, with that key's text. */
  predicate Within(t: Tables, m: Memory, scope: Value) {
    forall k :: k in GivenFields(scope) ==> k in m.scope && m.scope[k] == FiledText(t, k, GivenFields(scope)[k])
  }

  /** What was asked for is part of what a memory was filed under. */
  predicate ScopesMeet(t: Tables, filed: Value, asked: Value) {
    forall k :: k in GivenFields(asked) ==>
      k in GivenFields(filed) && FiledText(t, k, GivenFields(filed)[k]) == FiledText(t, k, GivenFields(asked)[k])
  }

  lemma FiledTextIs(t: Tables, k: string, v: Value)
    ensures ScopeText(Stored(t, k, v)) == FiledText(t, k, v)
  {
  }

  /** The backends' filter, given the cleaned scope, selects what the caller's scope names. */
  lemma WithinIff(t: Tables, m: Memory, scope: Value)
    requires LawfulFolding(t) && CheckedScope(t, scope, SCOPE_KEYS).Ok?
    ensures InScope(m, CheckedScope(t, scope, SCOPE_KEYS).value) <==> Within(t, m, scope)
  {
    hide CheckedScope, ScopeText, FiledText, Stored;
    CleanedForm(t, scope, SCOPE_KEYS);
    var cleaned := CheckedScope(t, scope, SCOPE_KEYS).value;
    if scope.Object? {
      forall k | k in scope.fields
        ensures ScopeText(cleaned.value[k]) == FiledText(t, k, scope.fields[k])
      {
        FiledTextIs(t, k, scope.fields[k]);
      }
    }
  }

  /** What a memory is filed under, in terms of the scope it was added with. */
  lemma FiledAs(t: Tables, scope: Value)
    requires LawfulFolding(t) && CheckedScope(t, scope, SCOPE_KEYS).Ok?
    ensures
      var filed := ScopeAsText(OrElse(CheckedScope(t, scope, SCOPE_KEYS).value, map[]));
      && filed.Keys == GivenFields(scope).Keys
      && forall k :: k in GivenFields(scope) ==> filed[k] == FiledText(t, k, GivenFields(scope)[k])
  {
    hide CheckedScope, ScopeText, FiledText, Stored;
    CleanedForm(t, scope, SCOPE_KEYS);
    if scope.Object? {
      forall k | k in scope.fields
        ensures ScopeText(Stored(t, k, scope.fields[k])) == FiledText(t, k, scope.fields[k])
      {
        FiledTextIs(t, k, scope.fields[k]);
      }
    }
  }

  lemma MeetsIff(t: Tables, m: Memory, filed: Value, asked: Value)
    requires m.scope.Keys == GivenFields(filed).Keys
    requires forall k :: k in GivenFields(filed) ==> m.scope[k] == FiledText(t, k, GivenFields(filed)[k])
    ensures Within(t, m, asked) <==> ScopesMeet(t, filed, asked)
  {
    hide FiledText;
  }

  // ---------- A memory's scope and a request's ----------

  /** Whether a listing by the scope shows the memory with an id. */
  predicate Shown(t: Tables, store: Store, p: string, id: string, scope: Value) {
    var filter, m := CheckedScope(t, scope, SCOPE_KEYS), Contract.Get(store, p, id);
    filter.Ok? && m.Some? && m.value in Listing(store, p, filter.value)
  }

  /** A memory added under one scope is listed under another, and deleted by it, exactly when every key
      asked for was given at the add with a value that is filed alike. */
  lemma ScopesMeetIff(t: Tables, store: Store, key: Key, content: string, filed: Value, metadata: Option<Fields>,
      draw: Draw, asked: Value, after: Store, added: seq<AddResult>)
    requires LawfulFolding(t) && UniqueIds(store) && Fresh(store, draw.id)
    requires AddMemory(t, store, key, content, filed, metadata, draw) == (after, Ok(added))
    requires MayScope(t, asked, SCOPE_KEYS)
    ensures Shown(t, after, key.space, draw.id, asked) <==> ScopesMeet(t, filed, asked)
    ensures GivenFields(asked) != map[] ==>
      var (left, r) := DeleteScoped(t, after, key, asked);
      r.Ok? && (Lookup(left, key.space, draw.id).None? <==> ScopesMeet(t, filed, asked))
  {
    hide CheckedScope, AddChecks, MayScope, ScopesMeet, Within;
    var cleaned := CheckedScope(t, filed, SCOPE_KEYS);
    var record := NewRecord(key.space, AddDraft(key, content, cleaned.value, metadata), draw.id, draw.now);
    var p, m := key.space, record.memory;
    assert after == store + [record];
    AcceptedIff(t, asked, SCOPE_KEYS);
    var filter := CheckedScope(t, asked, SCOPE_KEYS).value;
    FiledAs(t, filed);
    WithinIff(t, m, asked);
    MeetsIff(t, m, filed, asked);
    AddedIsFound(store, record);
    ListingIs(after, p, filter, m);
    assert after[|store|] == record;
    if GivenFields(asked) != map[] {
      GivenIsKept(t, asked);
      UniqueAppend(store, record);
      LookupSurvivors(after, p, filter.value, p, draw.id);
    }
  }

  lemma AddedIsFound(store: Store, r: Contract.Record)
    requires Fresh(store, r.memory.id)
    ensures Lookup(store + [r], r.memory.partition, r.memory.id) == Some(r)
  {
    LookupAppend(store, r, r.memory.partition, r.memory.id);
    LookupFresh(store, r.memory.partition, r.memory.id);
  }

  lemma UniqueAppend(store: Store, r: Contract.Record)
    requires UniqueIds(store) && Fresh(store, r.memory.id)
    ensures UniqueIds(store + [r])
  {
  }

  /** An accepted scope with a key in it is one to delete by. */
  lemma GivenIsKept(t: Tables, scope: Value)
    requires LawfulFolding(t) && CheckedScope(t, scope, SCOPE_KEYS).Ok? && GivenFields(scope) != map[]
    ensures
      var cleaned := CheckedScope(t, scope, SCOPE_KEYS).value;
      cleaned.Some? && cleaned.value != map[] && !HasNestedFilter(cleaned.value)
  {
    hide CheckedScope, Cleaned;
    CleanedForm(t, scope, SCOPE_KEYS);
    AcceptedScope(t, scope, SCOPE_KEYS);
    assert exists k :: k in scope.fields;
  }

  // ---------- Runs ----------

  /** A scope that names a run, and an agent beside it if one is given. */
  function ByRun(run: string, agent: Option<string>): Value {
    var named: Fields := map["run_id" := Str(run)];
    Object(if agent.None? then named else named["agent_id" := Str(agent.value)], "")
  }

  ghost predicate UsableRun(run: string) {
    run != "" && run != "*" && |run| <= 256 && forall i :: 0 <= i < |run| ==> !IsSpace(run[i])
  }

  lemma RunScope(t: Tables, run: string, agent: Option<string>)
    requires UsableRun(run) && (agent.Some? ==> |agent.value| <= 256 && HasWord(t, agent.value))
    ensures MayScope(t, ByRun(run, agent), SCOPE_KEYS)
  {
    hide HasWord, HasNestedFilter, MayHold, UsableRun;
    var fields := ByRun(run, agent).fields;
    DeclaredKeys(fields);
    forall k | k in fields
      ensures |k| <= 64 && MayHold(t, k, fields[k])
    {
      MayName(t, k, fields[k], run, agent);
    }
  }

  lemma MayName(t: Tables, k: string, v: Value, run: string, agent: Option<string>)
    requires UsableRun(run) && (agent.Some? ==> |agent.value| <= 256 && HasWord(t, agent.value))
    requires (k == "run_id" && v == Str(run)) || (k == "agent_id" && agent.Some? && v == Str(agent.value))
    ensures |k| <= 64 && MayHold(t, k, v)
  {
    hide HasWord;
  }

  /** No declared key is a reserved one or a nested filter. */
  lemma DeclaredKeys(fields: Fields)
    requires fields.Keys <= {"run_id", "agent_id"}
    ensures "user_id" !in fields && !HasNestedFilter(fields) && |fields| <= 2
  {
    SubsetSize(fields.Keys, {"run_id", "agent_id"});
    assert |fields| == |fields.Keys|;
    assert forall k :: k in fields ==> k in {"run_id", "agent_id"};
    assert forall k :: k in NESTED_FILTER_KEYS ==> k !in {"run_id", "agent_id"};
  }

  lemma SubsetSize(a: set<string>, b: set<string>)
    requires a <= b
    ensures |a| <= |b|
  {
    assert b == a + (b - a);
  }

  /** A memory added under one run is listed under another, and deleted by it, exactly when they are the same
      run; and so it is when the same agent is named beside them. */
  lemma RunsMeet(t: Tables, store: Store, key: Key, content: string, metadata: Option<Fields>, draw: Draw, a: string,
      b: string, agent: Option<string>, after: Store, added: seq<AddResult>)
    requires LawfulFolding(t) && UniqueIds(store) && Fresh(store, draw.id) && UsableRun(a) && UsableRun(b)
    requires agent.Some? ==> |agent.value| <= 256 && HasWord(t, agent.value)
    requires AddMemory(t, store, key, content, ByRun(a, agent), metadata, draw) == (after, Ok(added))
    ensures Shown(t, after, key.space, draw.id, ByRun(b, agent)) <==> a == b
    ensures Shown(t, after, key.space, draw.id, ByRun(b, None)) <==> a == b
    ensures Lookup(DeleteScoped(t, after, key, ByRun(b, agent)).0, key.space, draw.id).None? <==> a == b
    ensures Lookup(DeleteScoped(t, after, key, ByRun(b, None)).0, key.space, draw.id).None? <==> a == b
  {
    hide AddMemory, DeleteScoped, Shown, MayScope, HasWord, UsableRun;
    RunScope(t, b, agent);
    RunScope(t, b, None);
    OnlySameRun(t, a, b, agent, agent);
    OnlySameRun(t, a, b, agent, None);
    ScopesMeetIff(t, store, key, content, ByRun(a, agent), metadata, draw, ByRun(b, agent), after, added);
    ScopesMeetIff(t, store, key, content, ByRun(a, agent), metadata, draw, ByRun(b, None), after, added);
  }

  lemma OnlySameRun(t: Tables, a: string, b: string, agent: Option<string>, asked: Option<string>)
    requires asked.Some? ==> asked == agent
    ensures ScopesMeet(t, ByRun(a, agent), ByRun(b, asked)) <==> a == b
    ensures GivenFields(ByRun(b, asked)) != map[]
  {
    var filed, given := GivenFields(ByRun(a, agent)), GivenFields(ByRun(b, asked));
    assert "run_id" in given && given["run_id"] == Str(b) && filed["run_id"] == Str(a);
  }

  // ---------- Deleting by scope ----------

  /** The positions of the space's memories that a scope names. */
  function Named(t: Tables, store: Store, p: string, scope: Value): set<int> {
    set i | 0 <= i < |store| && store[i].memory.partition == p && Within(t, store[i].memory, scope)
  }

  lemma {:induction false} SurvivorsCount(store: Store, p: string, scope: Fields, k: nat)
    requires k <= |store|
    ensures |store| - k == |Survivors(store[k..], p, scope)| + |DoomedFrom(store, p, scope, k)|
    decreases |store| - k
  {
    hide Doomed;
    if k < |store| {
      SurvivorsCount(store, p, scope, k + 1);
      assert store[k..][1..] == store[k + 1..];
      assert DoomedFrom(store, p, scope, k) ==
        (if Doomed(store[k], p, scope) then {k as int} else {}) + DoomedFrom(store, p, scope, k + 1);
    }
  }

  function DoomedFrom(store: Store, p: string, scope: Fields, k: nat): set<int> {
    set i | k <= i < |store| && Doomed(store[i], p, scope)
  }

  /** What a delete by the scope in `p` leaves of a record. */
  function Spared(t: Tables, store: Store, p: string, scope: Value, q: string, id: string): Option<Contract.Record> {
    var found := Lookup(store, q, id);
    if q == p && found.Some? && Within(t, found.value.memory, scope) then None else found
  }

  /** A scoped delete takes away exactly the space's memories that the scope names, says how many there
      were, and leaves every other memory and its history as it was. */
  lemma DeleteScopedIs(t: Tables, store: Store, key: Key, scope: Value, after: Store, n: nat)
    requires LawfulFolding(t) && UniqueIds(store) && DeleteScoped(t, store, key, scope) == (after, Ok(n))
    ensures n == |Named(t, store, key.space, scope)| && |after| == |store| - n
    ensures forall q, id :: Lookup(after, q, id) == Spared(t, store, key.space, scope, q, id)
  {
    hide CheckedScope, Within;
    var p, filter := key.space, CheckedScope(t, scope, SCOPE_KEYS).value.value;
    forall m: Memory
      ensures ScopeMatches(m.scope, filter) <==> Within(t, m, scope)
    {
      WithinIff(t, m, scope);
    }
    SurvivorsCount(store, p, filter, 0);
    assert store[0..] == store;
    assert DoomedFrom(store, p, filter, 0) == Named(t, store, p, scope);
    forall q, id
      ensures Lookup(after, q, id) == Spared(t, store, p, scope, q, id)
    {
      LookupSurvivors(store, p, filter, q, id);
      LookupIn(store, q, id);
    }
  }
}
