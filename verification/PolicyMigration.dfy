/** Migrating what policy wrote: nothing is refused on the way. */
module PolicyMigration {
  import opened Results
  import opened Text
  import opened Values
  import opened Contract
  import opened Reading
  import opened Transfer
  import opened Dedup
  import opened Lookups
  import opened Policy
  import opened Attribution
  import opened PolicyImports
  import opened Migration

  lemma HealthyMemory(plan: Plan, store: Store, m: Memory, names: Signers)
    requires Healthy(store, names) && m in All(store, plan.partition) && plan.validate.None?
    ensures ValidSource(plan, m) && !NestedScope(CopyScope(plan, m).value)
  {
    hide Metadata.Size, Chain, Explains, Signed, ValidContent, IsCopy;
    ListedIsFound(store, plan.partition, m);
    LookupIn(store, plan.partition, m.id);
    assert RecordOk(Lookup(store, plan.partition, m.id).value, names(plan.partition));
    assert m.scope.Keys <= SCOPE_KEYS;
    KeptScope(plan, m);
  }

  ghost predicate SameScopes(sources: seq<Memory>, copies: seq<Memory>) {
    |copies| == |sources| && forall i :: 0 <= i < |sources| ==> copies[i].scope == sources[i].scope
  }

  lemma CopiesKeepScopes(plan: Plan, sources: seq<Memory>, copies: seq<Memory>)
    requires Copies(plan, sources, copies) && plan.validate.None?
    ensures SameScopes(sources, copies)
  {
    hide CopyScope;
    forall i | 0 <= i < |sources|
      ensures copies[i].scope == sources[i].scope
    {
      assert IsCopy(plan, sources[i], copies[i]);
      KeptScope(plan, sources[i]);
    }
  }

  lemma {:induction false} AllSources(plan: Plan, memories: seq<Memory>, outages: seq<Outage>, n: nat)
    requires n <= |memories| == |outages| && forall i :: 0 <= i < |memories| ==> ValidSource(plan, memories[i])
    requires forall i :: 0 <= i < |outages| ==> outages[i].Up?
    ensures TakenSources(plan, memories, outages, n) == memories[..n]
    ensures ConfirmedSources(plan, memories, outages, n) == n
    decreases n
  {
    hide ValidSource;
    if n > 0 {
      AllSources(plan, memories, outages, n - 1);
      assert memories[..n] == memories[..n - 1] + [memories[n - 1]];
    }
  }

  lemma ReadOfHealthy(store: Store, p: string, limit: nat, names: Signers)
    requires Healthy(store, names)
    ensures
      var read := ReadAll(store, p, limit);
      && read.Ok? && read.value.memories == Slice(All(store, p), 0, limit)
      && read.value.missed == (|All(store, p)| > limit)
  {
    hide Healthy, Follow;
    HealthyListing(store, p, names);
    FollowPager(All(store, p), false, p, limit);
  }

  /** The plan says who runs it, and names both partitions: neither is blank, nor the `*` for any. */
  predicate NamesAll(plan: Plan) {
    Strip(plan.operator) != "" && Strip(plan.partition) !in {"", "*"} && Strip(plan.landing) !in {"", "*"}
  }

  lemma NamedIsAccepted(plan: Plan)
    requires NamesAll(plan)
    ensures !PlanRefused(plan)
  {
  }

  /** Any other plan is refused before anything is read or written. */
  lemma NamelessIsRefused(plan: Plan, source: Store, target: Store, draws: seq<Draw>, outages: seq<Outage>)
    requires !NamesAll(plan)
    requires ReadAll(source, plan.partition, plan.limit).Ok? ==>
      |draws| == |outages| == |ReadAll(source, plan.partition, plan.limit).value.memories|
    ensures Migrated(plan, source, target, draws, outages) == (target, Err(ValueError))
  {
    hide Strip, Follow, ImportAll;
  }

  /** From a source that policy wrote, a duplicate migration within its limit copies every memory of the
      partition, in order, with its content, scope, metadata, author and creator, and reports no error. */
  lemma CompleteMigration(plan: Plan, source: Store, target: Store, draws: seq<Draw>, outages: seq<Outage>,
      names: Signers)
    requires NamesAll(plan) && plan.mode == Duplicate && plan.validate.None?
    requires Healthy(source, names) && |All(source, plan.partition)| <= plan.limit
    requires |draws| == |outages| == |All(source, plan.partition)| && forall i :: 0 <= i < |outages| ==> outages[i].Up?
    requires ReadAll(source, plan.partition, plan.limit).Ok? ==>
      |draws| == |ReadAll(source, plan.partition, plan.limit).value.memories|
    requires DrawsFresh(CopyBatch(plan, [], draws, outages), target, 0)
    ensures
      var all := All(source, plan.partition);
      var (target', r) := Migrated(plan, source, target, draws, outages);
      && target <= target'
      && r == Ok(Report(|all|, false, |all|, 0, [], false))
      && All(target, plan.landing) <= All(target', plan.landing)
      && Copies(plan, all, All(target', plan.landing)[|All(target, plan.landing)|..])
      && SameScopes(all, All(target', plan.landing)[|All(target, plan.landing)|..])
  {
    NamedIsAccepted(plan);
    hide Healthy, Follow, ImportTo, DrawsFresh, PlanRefused, NamesAll, Copies, ValidSource, CopyScope, NestedScope;
    var all := All(source, plan.partition);
    ReadOfHealthy(source, plan.partition, plan.limit, names);
    assert Slice(all, 0, plan.limit) == all;
    forall i | 0 <= i < |all|
      ensures ValidSource(plan, all[i]) && (CopyScope(plan, all[i]).Ok? ==> !NestedScope(CopyScope(plan, all[i]).value))
    {
      HealthyMemory(plan, source, all[i], names);
    }
    DuplicateMigration(plan, source, target, draws, outages);
    AllSources(plan, all, outages, |all|);
    assert all[..|all|] == all;
    MigrationConserves(plan, source, target, draws, outages);
    NoDedupRead(plan, source, target, draws, outages);
    var target' := Migrated(plan, source, target, draws, outages).0;
    CopiesKeepScopes(plan, all, All(target', plan.landing)[|All(target, plan.landing)|..]);
  }

  /** Duplicate mode reads no index, so it never reports one as incomplete. */
  lemma NoDedupRead(plan: Plan, source: Store, target: Store, draws: seq<Draw>, outages: seq<Outage>)
    requires plan.mode == Duplicate
    requires ReadAll(source, plan.partition, plan.limit).Ok? ==>
      |draws| == |outages| == |ReadAll(source, plan.partition, plan.limit).value.memories|
    ensures
      var r := Migrated(plan, source, target, draws, outages).1;
      r.Ok? ==>
        && !r.value.dedupIncomplete && r.value.truncated == ReadAll(source, plan.partition, plan.limit).value.missed
        && r.value.exported == |ReadAll(source, plan.partition, plan.limit).value.memories|
  {
    hide Follow, ImportOne;
    var read := ReadAll(source, plan.partition, plan.limit);
    if read.Ok? {
      var b := CopyBatch(plan, read.value.memories, draws, outages);
      FlagStays(b, Import(target, Progress(map[], NOTHING_YET, None)), |b.entries|);
    }
  }

  lemma {:induction false} FlagStays(b: Batch, s: Import, n: nat)
    requires WellFormed(b) && n <= |b.entries|
    ensures ImportTo(b, s, n).done.outcome.dedupIncomplete == s.done.outcome.dedupIncomplete
    decreases n
  {
    hide Check, Update, Add, Contract.Get;
    if n > 0 {
      FlagStays(b, s, n - 1);
    }
  }
}
