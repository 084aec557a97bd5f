/** Migrating in skip mode: the target ends with every identity of the source, once, and migrating again
    changes nothing. */
module SkipMigrations {
  import opened Results
  import opened Text
  import opened Values
  import opened Contract
  import opened Reading
  import opened Transfer
  import opened Dedup
  import opened Imports
  import opened ImportRecords
  import opened Lookups
  import opened Policy
  import opened Attribution
  import opened PolicyImports
  import opened Searching
  import opened Migration
  import opened PolicyMigration
  import opened ImportRequests

  predicate AllUp(outages: seq<Outage>) {
    forall i :: 0 <= i < |outages| ==> outages[i].Up?
  }

  /** A plan to skip what the target has, from a source that policy wrote, where both partitions are within
      the plan's limit. The last clause follows from the others, by `SourceIsRead`. */
  ghost predicate SkipPlan(plan: Plan, source: Store, target: Store, draws: seq<Draw>, outages: seq<Outage>,
      names: Signers)
  {
    && NamesAll(plan) && plan.mode == Skip && plan.validate.None?
    && Healthy(source, names) && |All(source, plan.partition)| <= plan.limit
    && UniqueIds(target) && AllInSpace(All(target, plan.landing), plan.landing)
    && |All(target, plan.landing)| <= plan.limit
    && |draws| == |outages| == |All(source, plan.partition)| && AllUp(outages)
    && DrawsFresh(CopyBatch(plan, [], draws, outages), target, 0)
    && ReadAll(source, plan.partition, plan.limit) == Ok(Read(All(source, plan.partition), false, 1))
  }

  /** Such a source is read whole. */
  lemma SourceIsRead(source: Store, p: string, limit: nat, names: Signers)
    requires Healthy(source, names) && |All(source, p)| <= limit
    ensures ReadAll(source, p, limit) == Ok(Read(All(source, p), false, 1))
  {
    hide Healthy, Follow;
    HealthyListing(source, p, names);
    FollowPager(All(source, p), false, p, limit);
    assert Slice(All(source, p), 0, limit) == All(source, p);
    assert AllInSpace(Slice(All(source, p), 0, limit + 1), p);
  }

  lemma CopyIsStorable(plan: Plan, source: Store, draws: seq<Draw>, outages: seq<Outage>, names: Signers, i: nat)
    requires Healthy(source, names) && plan.validate.None?
    requires i < |draws| == |outages| == |All(source, plan.partition)|
    ensures
      var all := All(source, plan.partition);
      var b := CopyBatch(plan, all, draws, outages);
      Valid(b, i) && Storable(ScopeOf(b, i)) && EntryKey(b, i) == KeyOf(all[i]) && IsCopy(plan, all[i], NewOf(b, i).memory)
  {
    hide Healthy, ValidContent, MetadataAccepted, IsCopy, NewOf, ValidSource, NestedScope;
    var all := All(source, plan.partition);
    var b := CopyBatch(plan, all, draws, outages);
    HealthyMemory(plan, source, all[i], names);
    CopyCheck(plan, all, draws, outages, i);
    KeptScope(plan, all[i]);
    assert b.entries[i] == Serialize(all[i]);
    SameTexts(all[i].scope);
  }

  lemma SameTexts(texts: Texts)
    ensures ScopeKey(Some(AsFields(texts))) == texts && NullFreeScope(Some(AsFields(texts)))
  {
  }

  lemma {:induction false} CopiedKeys(plan: Plan, source: Store, draws: seq<Draw>, outages: seq<Outage>, names: Signers,
      n: nat)
    requires Healthy(source, names) && plan.validate.None? && AllUp(outages)
    requires n <= |draws| == |outages| == |All(source, plan.partition)|
    ensures
      var all := All(source, plan.partition);
      WrittenKeys(CopyBatch(plan, all, draws, outages), n) == set i | 0 <= i < n :: KeyOf(all[i])
    decreases n
  {
    hide Healthy, Valid, EntryKey, IsCopy, NewOf, KeyOf, All;
    if n > 0 {
      CopiedKeys(plan, source, draws, outages, names, n - 1);
      CopyIsStorable(plan, source, draws, outages, names, n - 1);
    }
  }

  lemma SourceKeys(source: Store, p: string)
    ensures (set i | 0 <= i < |All(source, p)| :: KeyOf(All(source, p)[i])) == StoredKeys(source, p)
  {
    hide KeyOf;
    StoredAre(source, p);
    var all := All(source, p);
    forall k
      ensures k in (set i | 0 <= i < |all| :: KeyOf(all[i])) <==> k in IndexOf(all)
    {
      Indexed(all, k);
    }
  }

  lemma SkipBegins(plan: Plan, source: Store, target: Store, draws: seq<Draw>, outages: seq<Outage>, names: Signers)
    returns (b: Batch, s: Import)
    requires SkipPlan(plan, source, target, draws, outages, names)
    ensures b == CopyBatch(plan, All(source, plan.partition), draws, outages)
    ensures Sound(b) && Good(b, s, 0) && Smooth(b, s.done.existing.Keys, |b.entries|) && s.store == target
    ensures |b.entries| == |draws| && Accounted(s.done) == 0 && b.mode == Skip && b.partition == plan.landing
    ensures
      var end := ImportTo(b, s, |b.entries|);
      && end.done.raised == None
      && Migrated(plan, source, target, draws, outages) == (end.store, Ok(ReportOf(|draws|, false, end.done.outcome)))
  {
    NamedIsAccepted(plan);
    hide Healthy, PlanRefused, NamesAll, Sound, StorableScopes, Follow, UniqueIds, AllInSpace, Valid, ScopeOf, Smooth, ImportOne;
    var all := All(source, plan.partition);
    b := CopyBatch(plan, all, draws, outages);
    CopyIsSound(plan, all, draws, outages);
    EachSerialized(all);
    TargetIsRead(b, target, plan.limit);
    s := Import(target, Start(b, target, plan.limit).value);
    assert StorableScopes(b) by {
      AllStorable(plan, source, draws, outages, names);
    }
    StorableIsSmooth(b, s.done.existing.Keys, |b.entries|);
    Reimport.Finishes(b, s);
  }

  lemma TargetIsRead(b: Batch, target: Store, limit: nat)
    requires b.mode == Skip && UniqueIds(target) && DrawsFresh(b, target, 0)
    requires AllInSpace(All(target, b.partition), b.partition) && |All(target, b.partition)| <= limit
    ensures Start(b, target, limit).Ok? && Good(b, Import(target, Start(b, target, limit).value), 0)
    ensures Accounted(Start(b, target, limit).value) == 0
  {
    hide Follow;
    FollowPager(All(target, b.partition), false, b.partition, limit);
    assert AllInSpace(Slice(All(target, b.partition), 0, limit + 1), b.partition);
    StartIsCoherent(b, target, limit);
  }

  lemma AllStorable(plan: Plan, source: Store, draws: seq<Draw>, outages: seq<Outage>, names: Signers)
    requires Healthy(source, names) && plan.validate.None?
    requires |draws| == |outages| == |All(source, plan.partition)|
    ensures StorableScopes(CopyBatch(plan, All(source, plan.partition), draws, outages))
  {
    hide Healthy, Valid, ScopeOf, Storable, IsCopy, NewOf, EntryKey;
    EachSerialized(All(source, plan.partition));
    var b := CopyBatch(plan, All(source, plan.partition), draws, outages);
    forall i | 0 <= i < |b.entries| && Valid(b, i)
      ensures Storable(ScopeOf(b, i))
    {
      CopyIsStorable(plan, source, draws, outages, names, i);
    }
  }

  /** A skip migration keeps the target's records and adds one for each identity of the source that the
      target does not have; then the target has every identity of the source. */
  lemma SkipMigration(plan: Plan, source: Store, target: Store, draws: seq<Draw>, outages: seq<Outage>, names: Signers,
      after: Store, r: Result<Report>)
    requires SkipPlan(plan, source, target, draws, outages, names)
    requires Migrated(plan, source, target, draws, outages) == (after, r)
    ensures target <= after && UniqueIds(after) && AllInSpace(All(after, plan.landing), plan.landing)
    ensures StoredKeys(after, plan.landing) == StoredKeys(target, plan.landing) + StoredKeys(source, plan.partition)
    ensures
      var missing := StoredKeys(source, plan.partition) - StoredKeys(target, plan.landing);
      |after| - |target| == |missing| && r.Ok? && r.value.imported == |missing|
  {
    hide SkipPlan, Smooth, ImportTo, StoredKeys, WrittenKeys, All, IndexOf, Migrated, DrawsFresh, AllInSpace, UniqueIds;
    var b, s := SkipBegins(plan, source, target, draws, outages, names);
    SkipImport(b, s, |b.entries|);
    IndexStaysCoherent(b, s, |b.entries|);
    PlanFacts(plan, source, target, draws, outages, names);
    CopiedKeys(plan, source, draws, outages, names, |draws|);
    SourceKeys(source, plan.partition);
    StoredAre(target, plan.landing);
    StoredAre(after, plan.landing);
  }

  lemma PlanFacts(plan: Plan, source: Store, target: Store, draws: seq<Draw>, outages: seq<Outage>, names: Signers)
    requires SkipPlan(plan, source, target, draws, outages, names)
    ensures Healthy(source, names) && plan.validate.None? && AllUp(outages)
    ensures |draws| == |outages| == |All(source, plan.partition)|
  {
  }

  /** The memory that the first source of a missing identity becomes is its copy. */
  lemma SkipCopies(plan: Plan, source: Store, target: Store, draws: seq<Draw>, outages: seq<Outage>, names: Signers,
      after: Store, r: Result<Report>, i: nat)
    requires SkipPlan(plan, source, target, draws, outages, names)
    requires Migrated(plan, source, target, draws, outages) == (after, r) && i < |draws|
    requires
      var all := All(source, plan.partition);
      KeyOf(all[i]) !in StoredKeys(target, plan.landing) && forall k :: 0 <= k < i ==> KeyOf(all[k]) != KeyOf(all[i])
    ensures
      var found := Lookup(after, plan.landing, draws[i].id);
      found.Some? && IsCopy(plan, All(source, plan.partition)[i], found.value.memory)
  {
    hide SkipPlan, Smooth, ImportTo, StoredKeys, WrittenKeys, All, IndexOf, Migrated, IsCopy, NewOf, Valid, EntryKey,
      Effect, KeyOf, Good;
    var b, s := SkipBegins(plan, source, target, draws, outages, names);
    PlanFacts(plan, source, target, draws, outages, names);
    CopiedKeys(plan, source, draws, outages, names, i);
    CopyIsStorable(plan, source, draws, outages, names, i);
    StartKeys(b, s);
    StoredAre(target, plan.landing);
    var tr := TraceOf(b, s, |b.entries|);
    EndIsUnique(b, s, |b.entries|);
    assert Creates(b, s.done.existing.Keys, i);
    SkipCreated(b, tr, i, |b.entries|);
  }

  lemma StartKeys(b: Batch, s: Import)
    requires Good(b, s, 0)
    ensures s.done.existing == IndexOf(All(s.store, b.partition))
  {
  }

  /** Migrating again, with other ids to draw, changes nothing. */
  lemma SkipMigrationTwice(plan: Plan, source: Store, target: Store, draws: seq<Draw>, outages: seq<Outage>,
      draws': seq<Draw>, outages': seq<Outage>, names: Signers, after: Store, r: Result<Report>)
    requires SkipPlan(plan, source, target, draws, outages, names)
    requires Migrated(plan, source, target, draws, outages) == (after, r)
    requires |All(after, plan.landing)| <= plan.limit && |draws'| == |outages'| == |draws| && AllUp(outages')
    requires DrawsFresh(CopyBatch(plan, [], draws', outages'), after, 0)
    ensures SkipPlan(plan, source, after, draws', outages', names)
    ensures
      var (again, second) := Migrated(plan, source, after, draws', outages');
      && again == after && second.Ok? && second.value.imported == 0
      && second.value.exported == second.value.skipped + |second.value.errors|
  {
    SkipMigration(plan, source, target, draws, outages, names, after, r);
    hide StoredKeys, All, Migrated, DrawsFresh, AllInSpace, UniqueIds, Healthy;
    assert SkipPlan(plan, source, after, draws', outages', names);
    var (again, second) := Migrated(plan, source, after, draws', outages');
    SkipMigration(plan, source, after, draws', outages', names, again, second);
    NoneMissing(StoredKeys(source, plan.partition), StoredKeys(target, plan.landing));
    WholePrefix(after, again);
    MigrationConserves(plan, source, after, draws', outages');
  }

  lemma NoneMissing(a: set<DedupKey>, b: set<DedupKey>)
    ensures a - (b + a) == {}
  {
  }
}
