/** Copying a partition from one backend to another: `migrate`. */
module Migration {
  import opened Results
  import opened Text
  import opened Values
  import opened Contract
  import InMemory
  import opened Reading
  import opened Transfer
  import opened Dedup
  import opened Imports

  function AsFields(texts: Texts): Fields {
    map k | k in texts :: Str(texts[k])
  }

  /** The parts of a serialized memory that an import reads. */
  function Serialize(m: Memory): Entry {
    Entry(Str(m.content), Object(AsFields(m.scope), ""), Object(m.metadata, ""))
  }

  /** The source memory's system fields with the space they land in. */
  function LandingSystem(m: Memory, landing: string): System {
    m.system.(space := Some(Str(landing)))
  }

  function CopyStamp(memories: seq<Memory>, landing: string): (nat, Option<System>) -> System {
    (i: nat, stored: Option<System>) =>
      if i < |memories| then LandingSystem(memories[i], landing) else NO_SYSTEM.(space := Some(Str(landing)))
  }

  function SerializeAll(memories: seq<Memory>): seq<Entry> {
    seq(|memories|, i requires 0 <= i < |memories| => Serialize(memories[i]))
  }

  datatype Plan = Plan(
    operator: string,
    partition: string,
    landing: string,  // the partition itself unless a target partition was given
    mode: Mode,
    limit: nat,
    validate: Option<Validator>
  )

  function ScopeRule(plan: Plan): Validator {
    if plan.validate.Some? then plan.validate.value else KeepScope
  }

  function CopyBatch(plan: Plan, memories: seq<Memory>, draws: seq<Draw>, outages: seq<Outage>): Batch {
    Batch(plan.landing, SerializeAll(memories), plan.mode,
          ScopeRule(plan),
          Some(CopyStamp(memories, plan.landing)), draws, outages)
  }

  datatype Report = Report(exported: nat, truncated: bool, imported: nat, skipped: nat, errors: seq<Failed>, dedupIncomplete: bool)

  predicate PlanRefused(plan: Plan) {
    Strip(plan.operator) == "" || IsWildcard(Str(plan.partition)) || IsWildcard(Str(plan.landing))
  }

  function ReportOf(exported: nat, truncated: bool, outcome: Outcome): Report {
    Report(exported, truncated, |outcome.imported|, |outcome.skipped|, outcome.errors, outcome.dedupIncomplete)
  }

  /** The target afterwards, and the report. `draws` and `outages` hold one for each memory read. */
  ghost function Migrated(plan: Plan, source: Store, target: Store, draws: seq<Draw>, outages: seq<Outage>)
    : (Store, Result<Report>)
    requires ReadAll(source, plan.partition, plan.limit).Ok? ==>
      |draws| == |outages| == |ReadAll(source, plan.partition, plan.limit).value.memories|
  {
    var read := ReadAll(source, plan.partition, plan.limit);
    if PlanRefused(plan) then (target, Err(ValueError))
    else if read.Err? then (target, Err(read.error))
    else
      var memories := read.value.memories;
      var (target', r) := ImportAll(CopyBatch(plan, memories, draws, outages), target, plan.limit);
      (target', if r.Err? then Err(r.error) else Ok(ReportOf(|memories|, read.value.missed, r.value)))
  }

  /** The source may be the target itself, under another partition: it is read before anything is written. */
  method Migrate(plan: Plan, source: InMemory.InMemoryBackend, target: InMemory.InMemoryBackend, draws: seq<Draw>,
      outages: seq<Outage>)
    returns (r: Result<Report>)
    requires source.Valid() && target.Valid()
    requires ReadAll(source.View(), plan.partition, plan.limit).Ok? ==>
      |draws| == |outages| == |ReadAll(source.View(), plan.partition, plan.limit).value.memories|
    requires DrawsFresh(CopyBatch(plan, [], draws, outages), target.View(), 0)
    modifies target
    ensures target.Valid()
    ensures (target.View(), r) == Migrated(plan, old(source.View()), old(target.View()), draws, outages)
  {
    if Strip(plan.operator) == "" {
      return Err(ValueError);
    }
    if IsWildcard(Str(plan.partition)) || IsWildcard(Str(plan.landing)) {
      return Err(ValueError);
    }
    var read := ListAll(source, plan.partition, plan.limit);
    if read.Err? {
      return Err(read.error);
    }
    var memories := read.value.memories;
    var outcome := ImportPayload(target, CopyBatch(plan, memories, draws, outages), plan.limit);
    r := if outcome.Err? then Err(outcome.error) else Ok(ReportOf(|memories|, read.value.missed, outcome.value));
  }

  // ---------- Conservation ----------

  /** Every memory exported is imported, skipped or reported as an error, in every mode and whatever the
      target fails on. */
  lemma MigrationConserves(plan: Plan, source: Store, target: Store, draws: seq<Draw>, outages: seq<Outage>)
    requires ReadAll(source, plan.partition, plan.limit).Ok? ==>
      |draws| == |outages| == |ReadAll(source, plan.partition, plan.limit).value.memories|
    ensures
      var r := Migrated(plan, source, target, draws, outages).1;
      r.Ok? ==> r.value.exported == r.value.imported + r.value.skipped + |r.value.errors|
  {
    var r := Migrated(plan, source, target, draws, outages).1;
    if r.Ok? {
      var b := CopyBatch(plan, ReadAll(source, plan.partition, plan.limit).value.memories, draws, outages);
      var s := Import(target, Start(b, target, plan.limit).value);
      EveryEntryAccounted(b, s, |b.entries|);
    }
  }

  // ---------- Copies ----------

  /** What the scope rule makes of a memory's scope. */
  function CopyScope(plan: Plan, m: Memory): Result<Option<Fields>> {
    ScopeRule(plan)(Object(AsFields(m.scope), ""))
  }

  ghost predicate ValidSource(plan: Plan, m: Memory) {
    ValidContent(m.content) && MetadataAccepted(m.metadata) && CopyScope(plan, m).Ok?
  }

  /** What a copy keeps of its source: everything but the id, the times and the space; and the scope as the
      rule, if there is one, rewrites it. */
  ghost predicate IsCopy(plan: Plan, m: Memory, copy: Memory) {
    && copy.content == m.content && copy.metadata == m.metadata
    && CopyScope(plan, m).Ok? && copy.scope == ScopeAsText(OrElse(CopyScope(plan, m).value, map[]))
    && copy.partition == plan.landing && copy.system.space == Some(Str(plan.landing))
    && copy.system.author == m.system.author && copy.system.createdBy == m.system.createdBy
  }

  /** Without a rule, the scope is kept as it is. */
  lemma KeptScope(plan: Plan, m: Memory)
    requires plan.validate.None?
    ensures CopyScope(plan, m) == Ok(Some(AsFields(m.scope))) && ScopeAsText(AsFields(m.scope)) == m.scope
  {
  }

  /** The valid sources whose copy the target takes, in order. */
  ghost function TakenSources(plan: Plan, memories: seq<Memory>, outages: seq<Outage>, n: nat): seq<Memory>
    requires n <= |memories| == |outages|
  {
    if n == 0 then []
    else if ValidSource(plan, memories[n - 1]) && !outages[n - 1].WriteDown? then
      TakenSources(plan, memories, outages, n - 1) + [memories[n - 1]]
    else TakenSources(plan, memories, outages, n - 1)
  }

  ghost predicate Copies(plan: Plan, sources: seq<Memory>, copies: seq<Memory>) {
    |copies| == |sources| && forall i :: 0 <= i < |sources| ==> IsCopy(plan, sources[i], copies[i])
  }

  /** No scope to copy has a nested filter key: the target would refuse it, and the migration would end.
      Every store built through `add` keeps this, and policy's rule refuses such a scope. */
  ghost predicate PlainScopes(plan: Plan, memories: seq<Memory>) {
    forall i :: 0 <= i < |memories| && CopyScope(plan, memories[i]).Ok? ==> !NestedScope(CopyScope(plan, memories[i]).value)
  }

  lemma CopyCheck(plan: Plan, memories: seq<Memory>, draws: seq<Draw>, outages: seq<Outage>, i: nat)
    requires i < |memories| == |draws| == |outages|
    ensures
      var b, m := CopyBatch(plan, memories, draws, outages), memories[i];
      && Valid(b, i) == ValidSource(plan, m)
      && (Valid(b, i) ==> ScopeOf(b, i) == CopyScope(plan, m).value && IsCopy(plan, m, NewOf(b, i).memory))
  {
    hide ValidContent, MetadataAccepted, ScopeRule;
    var b := CopyBatch(plan, memories, draws, outages);
    assert b.entries[i] == Serialize(memories[i]);
  }

  lemma CopyIsSound(plan: Plan, memories: seq<Memory>, draws: seq<Draw>, outages: seq<Outage>)
    requires |memories| == |draws| == |outages|
    ensures Sound(CopyBatch(plan, memories, draws, outages))
  {
  }

  lemma {:induction false} CreationsAreCopies(plan: Plan, memories: seq<Memory>, draws: seq<Draw>,
      outages: seq<Outage>, n: nat)
    requires n <= |memories| == |draws| == |outages|
    ensures
      var created := Creations(CopyBatch(plan, memories, draws, outages), n);
      Copies(plan, TakenSources(plan, memories, outages, n), All(created, plan.landing))
    decreases n
  {
    hide Copies, IsCopy, ValidSource, NewOf, Check, CopyStamp, Valid;
    if n == 0 {
      NoCopies(plan);
    } else {
      var b := CopyBatch(plan, memories, draws, outages);
      CreationsAreCopies(plan, memories, draws, outages, n - 1);
      CopyCheck(plan, memories, draws, outages, n - 1);
      if Written(b, n - 1) {
        OneMoreCopy(plan, TakenSources(plan, memories, outages, n - 1), Creations(b, n - 1), memories[n - 1],
            NewOf(b, n - 1));
      }
    }
  }

  lemma NoCopies(plan: Plan)
    ensures Copies(plan, [], All([], plan.landing))
  {
  }

  lemma OneMoreCopy(plan: Plan, sources: seq<Memory>, created: Store, m: Memory, r: Contract.Record)
    requires Copies(plan, sources, All(created, plan.landing)) && IsCopy(plan, m, r.memory)
    ensures Copies(plan, sources + [m], All(created + [r], plan.landing))
  {
    hide CopyScope;
    AllAppend(created, r, plan.landing);
  }

  lemma {:induction false} AllConcat(a: Store, b: Store, partition: string)
    ensures All(a + b, partition) == All(a, partition) + All(b, partition)
    decreases |b|
  {
    if b == [] {
      assert a + b == a;
    } else {
      var front, last := b[..|b| - 1], b[|b| - 1];
      AllConcat(a, front, partition);
      AllAppend(a + front, last, partition);
      AllAppend(front, last, partition);
      assert a + b == (a + front) + [last] && b == front + [last];
    }
  }

  /** The copies that the target confirms, out of those it takes. */
  ghost function ConfirmedSources(plan: Plan, memories: seq<Memory>, outages: seq<Outage>, n: nat): nat
    requires n <= |memories| == |outages|
  {
    if n == 0 then 0
    else
      ConfirmedSources(plan, memories, outages, n - 1) +
      (if ValidSource(plan, memories[n - 1]) && outages[n - 1].Up? then 1 else 0)
  }

  /** A duplicate migration leaves the target's records in place and adds, in source order, a copy of every
      valid memory read whose write goes through; it reports those that read back as imported. */
  lemma DuplicateMigration(plan: Plan, source: Store, target: Store, draws: seq<Draw>, outages: seq<Outage>)
    requires !PlanRefused(plan) && plan.mode == Duplicate && ReadAll(source, plan.partition, plan.limit).Ok?
    requires |draws| == |outages| == |ReadAll(source, plan.partition, plan.limit).value.memories|
    requires PlainScopes(plan, ReadAll(source, plan.partition, plan.limit).value.memories)
    requires DrawsFresh(CopyBatch(plan, [], draws, outages), target, 0)
    ensures
      var memories := ReadAll(source, plan.partition, plan.limit).value.memories;
      var (target', r) := Migrated(plan, source, target, draws, outages);
      && target <= target' && r.Ok? && r.value.imported == ConfirmedSources(plan, memories, outages, |memories|)
      && All(target, plan.landing) <= All(target', plan.landing)
      && Copies(plan, TakenSources(plan, memories, outages, |memories|),
                All(target', plan.landing)[|All(target, plan.landing)|..])
  {
    hide Follow, ImportTo, Copies, ValidSource, Check, CopyScope, CopyStamp, All;
    var memories := ReadAll(source, plan.partition, plan.limit).value.memories;
    var b, n := CopyBatch(plan, memories, draws, outages), |memories|;
    CopyIsSound(plan, memories, draws, outages);
    NothingNested(plan, memories, draws, outages);
    DuplicateImport(b, Import(target, Start(b, target, plan.limit).value), n);
    CreationsAreCopies(plan, memories, draws, outages, n);
    AllConcat(target, Creations(b, n), plan.landing);
    ConfirmedCount(plan, memories, draws, outages, n);
  }

  lemma NothingNested(plan: Plan, memories: seq<Memory>, draws: seq<Draw>, outages: seq<Outage>)
    requires |memories| == |draws| == |outages| && PlainScopes(plan, memories)
    ensures
      var b := CopyBatch(plan, memories, draws, outages);
      forall i :: 0 <= i < |b.entries| && Valid(b, i) ==> !NestedScope(ScopeOf(b, i))
  {
    hide Valid, ScopeOf, NestedScope, CopyScope, IsCopy, NewOf, SerializeAll, CopyStamp;
    var b := CopyBatch(plan, memories, draws, outages);
    assert |b.entries| == |memories| by {
      EachSerialized(memories);
    }
    forall i | 0 <= i < |b.entries| && Valid(b, i)
      ensures !NestedScope(ScopeOf(b, i))
    {
      CopyCheck(plan, memories, draws, outages, i);
    }
  }

  lemma EachSerialized(memories: seq<Memory>)
    ensures |SerializeAll(memories)| == |memories|
  {
  }

  lemma {:induction false} ConfirmedCount(plan: Plan, memories: seq<Memory>, draws: seq<Draw>, outages: seq<Outage>,
      n: nat)
    requires n <= |memories| == |draws| == |outages|
    ensures Confirmed(CopyBatch(plan, memories, draws, outages), n) == ConfirmedSources(plan, memories, outages, n)
    decreases n
  {
    hide ValidSource, IsCopy, NewOf, Check, CopyStamp, Valid;
    if n > 0 {
      ConfirmedCount(plan, memories, draws, outages, n - 1);
      CopyCheck(plan, memories, draws, outages, n - 1);
    }
  }
}
