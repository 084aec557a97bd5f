/** What a search returns: the best of exactly the memories in scope that match, ties in stored order. */
module Searching {
  import opened Results
  import opened Text
  import opened Values
  import opened CharTables
  import opened Score
  import opened Ranking
  import opened ScopeRules
  import opened Contract
  import opened Reading
  import opened Transfer
  import opened Dedup
  import opened Policy

  predicate Holds(store: Store, m: Memory) {
    exists i :: 0 <= i < |store| && store[i].memory == m
  }

  lemma {:induction false} ListingIs(store: Store, p: string, scope: Option<Fields>, m: Memory)
    ensures m in Listing(store, p, scope) <==>
      InScope(m, scope) && m.partition == p && Holds(store, m)
    decreases |store|
  {
    if store != [] {
      ListingIs(store[1..], p, scope, m);
      assert forall i :: 0 < i < |store| ==> store[i] == store[1..][i - 1];
      assert forall i :: 0 <= i < |store[1..]| ==> store[1..][i] == store[i + 1];
    }
  }

  lemma {:induction false} HitsAre(t: Tables, memories: seq<Memory>, query: string, h: Hit)
    requires LawfulClasses(t)
    ensures h in Hits(t, memories, query) <==>
      h.memory in memories && ScoreOf(t, query, h.memory.content) == Some(h.relevance)
    decreases |memories|
  {
    hide ScoreOf;
    if memories != [] {
      HitsAre(t, memories[1..], query, h);
      assert memories == [memories[0]] + memories[1..];
    }
  }

  // ---------- The scope filter on results ----------

  lemma {:induction false} HitsAllKept(hits: seq<Hit>, scope: Option<Fields>)
    requires forall h :: h in hits ==> InScope(h.memory, scope)
    ensures HitsInScope(hits, scope) == hits
    decreases |hits|
  {
    if hits != [] {
      assert hits[0] in hits;
      HitsAllKept(hits[1..], scope);
      assert hits == [hits[0]] + hits[1..];
    }
  }

  lemma {:induction false} AllKept(memories: seq<Memory>, scope: Option<Fields>)
    requires forall m :: m in memories ==> InScope(m, scope)
    ensures KeepInScope(memories, scope) == memories
    decreases |memories|
  {
    if memories != [] {
      assert memories[0] in memories;
      AllKept(memories[1..], scope);
      assert memories == [memories[0]] + memories[1..];
    }
  }

  // ---------- The top of a ranking ----------

  /** The first of a ranking: sorted, beaten by nothing left out, and among equals the first stored. */
  ghost predicate Best(found: seq<Hit>, all: seq<Hit>, limit: nat) {
    && |found| == (if |all| < limit then |all| else limit)
    && Descending(found)
    && (forall h :: h in found ==> h in all)
    && (forall h :: h in all && h !in found ==> |found| == limit && forall f :: f in found ==> f.relevance >= h.relevance)
    && forall x :: Tied(found, x) <= Tied(all, x)
  }

  lemma TopIsBest(all: seq<Hit>, limit: nat)
    ensures Best(Slice(Rank(all), 0, limit), all, limit)
  {
    hide Rank;
    var ranked := Rank(all);
    RankSorts(all);
    assert |ranked| == |all| by {
      assert |multiset(ranked)| == |multiset(all)|;
    }
    var found := Slice(ranked, 0, limit);
    assert found == ranked[..|found|];
    forall h
      ensures h in ranked <==> h in all
    {
      assert h in multiset(ranked) <==> h in multiset(all);
    }
    forall x
      ensures Tied(found, x) <= Tied(all, x)
    {
      TopTied(all, found, x);
    }
  }

  lemma TopTied(all: seq<Hit>, found: seq<Hit>, x: real)
    requires found <= Rank(all)
    ensures Tied(found, x) <= Tied(all, x)
  {
    hide Rank;
    RankIsStable(all, x);
    assert Rank(all) == found + Rank(all)[|found|..];
    TiedConcat(found, Rank(all)[|found|..], x);
  }

  // ---------- Search and listing by policy ----------

  predicate SearchAllowed(query: string, limit: int, threshold: real) {
    ValidQuery(query) && ValidLimit(limit) && 0.0 <= threshold <= 1.0
  }

  /** Hits of the listing that a search is over. */
  function Candidates(t: Tables, store: Store, p: string, query: string, scope: Option<Fields>): seq<Hit>
    requires LawfulClasses(t)
  {
    Hits(t, Listing(store, p, scope), query)
  }

  /** An accepted search returns the best of the space's matches in scope, and neither the space check nor
      the scope filter takes anything from what the backend found. */
  lemma SearchIsBest(t: Tables, store: Store, key: Key, query: string, scope: Value, limit: int, threshold: real)
    requires Lawful(t) && SearchAllowed(query, limit, threshold) && CheckedScope(t, scope, SCOPE_KEYS).Ok?
    requires AllInSpace(All(store, key.space), key.space)
    ensures
      var cleaned := CheckedScope(t, scope, SCOPE_KEYS).value;
      var all := Candidates(t, store, key.space, query, cleaned);
      var r := SearchMemories(t, store, key, query, scope, limit, threshold);
      r == Contract.Search(t, store, key.space, query, cleaned, limit) && r.Ok? && Best(r.value, all, limit)
  {
    hide Best, ScoreOf, Cleaned;
    var p, cleaned := key.space, CheckedScope(t, scope, SCOPE_KEYS).value;
    if cleaned.Some? {
      AcceptedScope(t, scope, SCOPE_KEYS);
    }
    var all := Candidates(t, store, p, query, cleaned);
    TopIsBest(all, limit);
    var found := Slice(Rank(all), 0, limit);
    FoundInScope(t, store, p, query, cleaned, found, limit);
    HitsAllKept(found, cleaned);
  }

  lemma FoundInScope(t: Tables, store: Store, p: string, query: string, scope: Option<Fields>, found: seq<Hit>,
      limit: nat)
    requires LawfulClasses(t) && AllInSpace(All(store, p), p)
    requires Best(found, Candidates(t, store, p, query, scope), limit)
    ensures HitsInSpace(found, p) && forall h :: h in found ==> InScope(h.memory, scope)
  {
    hide ScoreOf;
    forall h | h in found
      ensures InScope(h.memory, scope) && InSpace(h.memory, p)
    {
      HitsAre(t, Listing(store, p, scope), query, h);
      ListingIs(store, p, scope, h.memory);
      ListingIs(store, p, None, h.memory);
    }
  }

  /** When the limit covers every match, a memory is found exactly when it is stored in the space, in
      scope, and has a score, which is then its relevance. */
  lemma FoundIff(t: Tables, store: Store, p: string, query: string, scope: Option<Fields>, limit: nat,
      found: seq<Hit>, h: Hit)
    requires LawfulClasses(t) && Contract.Search(t, store, p, query, scope, limit) == Ok(found)
    requires |Candidates(t, store, p, query, scope)| <= limit
    ensures h in found <==>
      && ScoreOf(t, query, h.memory.content) == Some(h.relevance)
      && h.memory.partition == p && InScope(h.memory, scope) && Holds(store, h.memory)
  {
    hide ScoreOf, Best;
    var all := Candidates(t, store, p, query, scope);
    TopIsBest(all, limit);
    TopIsAll(all, limit);
    HitsAre(t, Listing(store, p, scope), query, h);
    ListingIs(store, p, scope, h.memory);
  }

  lemma TopIsAll(all: seq<Hit>, limit: nat)
    requires |all| <= limit
    ensures forall h :: h in Slice(Rank(all), 0, limit) <==> h in all
  {
    RankSorts(all);
    assert |multiset(Rank(all))| == |multiset(all)|;
    assert Slice(Rank(all), 0, limit) == Rank(all);
    assert forall h :: h in Rank(all) <==> h in multiset(Rank(all));
  }

  /** The scope filter takes nothing from a page either. */
  lemma ListIsPage(t: Tables, store: Store, key: Key, scope: Value, limit: int, cursor: Option<string>)
    requires ValidLimit(limit) && CheckedScope(t, scope, SCOPE_KEYS).Ok?
    requires AllInSpace(All(store, key.space), key.space)
    ensures
      var page := ListPage(store, key.space, CheckedScope(t, scope, SCOPE_KEYS).value, limit, cursor);
      ListMemories(t, store, key, scope, limit, cursor) == if page.Ok? then page else Err(INVALID)
  {
    hide CheckedScope;
    var cleaned := CheckedScope(t, scope, SCOPE_KEYS).value;
    var page := ListPage(store, key.space, cleaned, limit, cursor);
    if page.Ok? {
      forall m | m in page.value.memories
        ensures InScope(m, cleaned) && InSpace(m, key.space)
      {
        assert m in Listing(store, key.space, cleaned);
        ListingIs(store, key.space, cleaned, m);
        ListingIs(store, key.space, None, m);
      }
      AllKept(page.value.memories, cleaned);
    }
  }

  // ---------- Agent names ----------

  function ByAgent(name: string): Value {
    Object(map["agent_id" := Str(name)], "")
  }

  /** Names under which a memory can be filed or asked for: within the length limit, and with a word in
      them. */
  predicate UsableName(t: Tables, name: string) {
    |name| <= MAX_SCOPE_VALUE_LENGTH && !IsWildcard(Str(name)) && Normalize(t, name) != ""
  }

  lemma AgentScope(t: Tables, name: string)
    requires UsableName(t, name)
    ensures CheckedScope(t, ByAgent(name), SCOPE_KEYS) == Ok(Some(map["agent_id" := Str(Normalize(t, name))]))
  {
    hide Normalize, IsWildcard;
    var fields: Fields := map["agent_id" := Str(name)];
    var cleaned: Fields := map["agent_id" := Str(Normalize(t, name))];
    assert "agent_id" in fields && "user_id" !in fields && !HasNestedFilter(fields) && |fields| == 1;
    CleanedIs(t, fields, cleaned);
  }

  /** Whether listing by an agent's name shows the memory with an id. */
  predicate ListedUnder(t: Tables, store: Store, p: string, id: string, name: string) {
    var filter, m := CheckedScope(t, ByAgent(name), SCOPE_KEYS), Contract.Get(store, p, id);
    filter.Ok? && m.Some? && m.value in Listing(store, p, filter.value)
  }

  /** A memory added under one agent name is listed under another exactly when the names normalize
      alike, whatever else is stored. */
  lemma AgentNamesMeet(t: Tables, store: Store, key: Key, content: string, metadata: Option<Fields>, draw: Draw,
      a: string, b: string,
    after: Store, added: seq<AddResult>)
    requires UsableName(t, a) && UsableName(t, b) && Fresh(store, draw.id)
    requires AddMemory(t, store, key, content, ByAgent(a), metadata, draw) == (after, Ok(added))
    ensures ListedUnder(t, after, key.space, draw.id, b) <==> Normalize(t, a) == Normalize(t, b)
  {
    hide CheckedScope, Normalize, AddChecks, UsableName;
    AgentScope(t, a);
    AgentScope(t, b);
    var filed: Fields := map["agent_id" := Str(Normalize(t, a))];
    var asked: Fields := map["agent_id" := Str(Normalize(t, b))];
    var record := NewRecord(key.space, AddDraft(key, content, Some(filed), metadata), draw.id, draw.now);
    assert after == store + [record];
    LookupAppended(store, record);
    FiledUnder(record.memory, filed, asked);
    assert (store + [record])[|store|] == record;
    ListingIs(store + [record], key.space, Some(asked), record.memory);
  }

  lemma FiledUnder(m: Memory, filed: Fields, asked: Fields)
    requires m.scope == ScopeAsText(filed)
    requires filed.Keys == asked.Keys == {"agent_id"} && filed["agent_id"].Str? && asked["agent_id"].Str?
    ensures InScope(m, Some(asked)) <==> filed["agent_id"] == asked["agent_id"]
  {
  }
}
