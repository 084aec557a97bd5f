/** What one write of the store does to every other record, found by id or by membership. */
module Lookups {
  import opened Results
  import opened Values
  import opened Contract
  import opened Dedup

  lemma {:induction false} LookupIn(store: Store, p: string, id: string)
    ensures
      var found := Lookup(store, p, id);
      found.Some? ==> found.value in store && Owned(found.value, p, id) && !Fresh(store, id)
    decreases |store|
  {
    if store != [] && !Owned(store[0], p, id) {
      LookupIn(store[1..], p, id);
      assert forall i :: 0 <= i < |store[1..]| ==> store[1..][i] == store[i + 1];
    }
  }

  lemma {:induction false} LookupReplace(store: Store, p: string, id: string, change: Change, now: string, q: string,
      other: string)
    ensures
      var found := Lookup(store, q, other);
      Lookup(Replace(store, p, id, change, now), q, other) ==
        if q == p && other == id && found.Some? then Some(Changed(found.value, change, now)) else found
    decreases |store|
  {
    if store != [] {
      var next := Replace(store, p, id, change, now);
      if Owned(store[0], p, id) {
        assert next[1..] == store[1..];
      } else {
        assert next[1..] == Replace(store[1..], p, id, change, now);
        LookupReplace(store[1..], p, id, change, now, q, other);
      }
    }
  }

  lemma {:induction false} LookupAppend(store: Store, r: Contract.Record, q: string, id: string)
    ensures Lookup(store + [r], q, id) ==
      if Lookup(store, q, id).Some? then Lookup(store, q, id) else if Owned(r, q, id) then Some(r) else None
    decreases |store|
  {
    if store == [] {
      assert store + [r] == [r];
    } else {
      assert (store + [r])[1..] == store[1..] + [r];
      LookupAppend(store[1..], r, q, id);
    }
  }

  lemma {:induction false} LookupFresh(store: Store, q: string, id: string)
    requires Fresh(store, id)
    ensures Lookup(store, q, id).None?
  {
    LookupIn(store, q, id);
  }

  lemma {:induction false} LookupRemove(store: Store, p: string, id: string, q: string, other: string)
    requires UniqueIds(store)
    ensures Lookup(Remove(store, p, id), q, other) == if q == p && other == id then None else Lookup(store, q, other)
    decreases |store|
  {
    if store != [] {
      UniqueTail(store);
      var next := Remove(store, p, id);
      if Owned(store[0], p, id) {
        LookupFresh(store[1..], p, id);
      } else {
        assert next[1..] == Remove(store[1..], p, id);
        LookupRemove(store[1..], p, id, q, other);
      }
    }
  }

  lemma {:induction false} LookupSurvivors(store: Store, p: string, scope: Fields, q: string, id: string)
    requires UniqueIds(store)
    ensures
      var found := Lookup(store, q, id);
      Lookup(Survivors(store, p, scope), q, id) == if found.Some? && Doomed(found.value, p, scope) then None else found
    decreases |store|
  {
    if store != [] {
      UniqueTail(store);
      LookupSurvivors(store[1..], p, scope, q, id);
      if Doomed(store[0], p, scope) {
        if Owned(store[0], q, id) {
          LookupFresh(store[1..], q, id);
        }
      } else {
        assert Survivors(store, p, scope)[1..] == Survivors(store[1..], p, scope);
      }
    }
  }

  // ---------- Membership, and ids apart ----------

  lemma {:induction false} InReplace(store: Store, p: string, id: string, change: Change, now: string,
      r: Contract.Record)
    requires r in Replace(store, p, id, change, now)
    ensures r in store || (Lookup(store, p, id).Some? && r == Changed(Lookup(store, p, id).value, change, now))
    decreases |store|
  {
    var next := Replace(store, p, id, change, now);
    assert next == [next[0]] + next[1..];
    if Owned(store[0], p, id) {
      assert next[1..] == store[1..];
    } else if r != store[0] {
      assert next[1..] == Replace(store[1..], p, id, change, now);
      InReplace(store[1..], p, id, change, now, r);
    }
  }

  lemma {:induction false} RemoveUnique(store: Store, p: string, id: string)
    requires UniqueIds(store)
    ensures UniqueIds(Remove(store, p, id))
    ensures forall r :: r in Remove(store, p, id) ==> r in store
    decreases |store|
  {
    if store != [] {
      UniqueTail(store);
      if !Owned(store[0], p, id) {
        RemoveUnique(store[1..], p, id);
        RemoveFresh(store[1..], p, id, store[0].memory.id);
        assert Remove(store, p, id)[1..] == Remove(store[1..], p, id);
      }
    }
  }

  lemma {:induction false} SurvivorsUnique(store: Store, p: string, scope: Fields)
    requires UniqueIds(store)
    ensures UniqueIds(Survivors(store, p, scope))
    ensures forall r :: r in Survivors(store, p, scope) ==> r in store
    decreases |store|
  {
    if store != [] {
      UniqueTail(store);
      SurvivorsUnique(store[1..], p, scope);
      SurvivorsFresh(store[1..], p, scope, store[0].memory.id);
      if !Doomed(store[0], p, scope) {
        assert Survivors(store, p, scope)[1..] == Survivors(store[1..], p, scope);
      }
    }
  }
}
