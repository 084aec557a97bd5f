/** What a whole import does in each of the three conflict modes. */
module Imports {
  import opened Results
  import opened Text
  import opened Values
  import opened Metadata
  import opened Contract
  import opened Reading
  import opened Transfer
  import opened Dedup

  // ---------- Every entry is accounted for ----------

  function Accounted(p: Progress): nat {
    |p.outcome.imported| + |p.outcome.skipped| + |p.outcome.errors|
  }

  lemma OneAccounted(b: Batch, s: Import, i: nat)
    requires WellFormed(b) && i < |b.entries| && ImportOne(b, s, i).done.raised == None == s.done.raised
    ensures Accounted(ImportOne(b, s, i).done) == Accounted(s.done) + 1
  {
    hide Check, Update, Add, Contract.Get, Draft;
    var c := Check(b.validate, b.entries[i]);
    if c.Accepted? {
      var key := DedupKey(c.content, ScopeKey(c.scope));
      if !(key in s.done.existing && b.mode != Duplicate) {
        assert ImportOne(b, s, i) == CreateOne(b, s, i, key, Draft(b, i, c.content, c.scope, c.metadata));
      }
    }
  }

  /** In every mode, and whatever fails on the way, each entry lands in exactly one of the three lists. */
  lemma {:induction false} EveryEntryAccounted(b: Batch, s: Import, n: nat)
    requires WellFormed(b) && n <= |b.entries| && s.done.raised == None
    requires ImportTo(b, s, n).done.raised == None
    ensures Accounted(ImportTo(b, s, n).done) == Accounted(s.done) + n
    decreases n
  {
    hide ImportOne;
    if n > 0 {
      var before := ImportTo(b, s, n - 1);
      assert before.done.raised == None;
      EveryEntryAccounted(b, s, n - 1);
      OneAccounted(b, before, n - 1);
    }
  }

  // ---------- What an entry does ----------

  ghost function EntryChange(b: Batch, i: nat, dup: Memory): Change
    requires i < |b.entries|
  {
    var c := Check(b.validate, b.entries[i]);
    OverwriteChange(b, i, dup, if c.Accepted? then c.content else "", if c.Accepted? then c.metadata else None)
  }

  /** An entry's step in a smooth import: nothing, a skip, an overwrite or a create. */
  ghost predicate Effect(b: Batch, s: Import, s': Import, i: nat)
    requires WellFormed(b) && i < |b.entries|
  {
    if !Written(b, i) || (EntryKey(b, i) in s.done.existing && b.mode == Skip) then
      && s'.store == s.store && s'.done.existing == s.done.existing
      && |s'.done.outcome.imported| == |s.done.outcome.imported|
    else if EntryKey(b, i) in s.done.existing then
      var dup := s.done.existing[EntryKey(b, i)];
      && KeyOf(dup) == EntryKey(b, i)
      && Lookup(s.store, b.partition, dup.id).Some? && Lookup(s.store, b.partition, dup.id).value.memory == dup
      && s'.store == Replace(s.store, b.partition, dup.id, EntryChange(b, i, dup), b.draws[i].now)
      && s'.done.existing == s.done.existing[EntryKey(b, i) := ChangedMemory(dup, EntryChange(b, i, dup), b.draws[i].now)]
    else
      && KeyOf(NewOf(b, i).memory) == EntryKey(b, i)
      && s'.store == s.store + [NewOf(b, i)]
      && s'.done.existing == s.done.existing[EntryKey(b, i) := NewOf(b, i).memory]
      && |s'.done.outcome.imported| == |s.done.outcome.imported| + 1
  }

  lemma StepEffect(b: Batch, s: Import, indexed: set<DedupKey>, i: nat)
    requires Sound(b) && b.mode != Duplicate && i < |b.entries| && InStep(b, s, indexed, i)
    requires !Slips(b, indexed, i) && !Ends(b, indexed, i)
    ensures Effect(b, s, ImportOne(b, s, i), i)
  {
    hide Check, NestedScope, IndexOf, All, UniqueIds, AllInSpace;
    if Valid(b, i) {
      AcceptedDraft(b, i);
      var key := EntryKey(b, i);
      if key in s.done.existing {
        if b.mode == Overwrite && Written(b, i) {
          OverwriteEffect(b, s, i, key, DraftOf(b, i).content, DraftOf(b, i).metadata);
        }
      } else {
        assert ImportOne(b, s, i) == CreateOne(b, s, i, key, DraftOf(b, i));
        if Written(b, i) {
          assert Creates(b, indexed, i);
          CreateEffect(b, s, i, key, DraftOf(b, i));
          IdentityKeptIff(DraftOf(b, i), b.partition, b.draws[i].id, b.draws[i].now);
        }
      }
    }
  }

  /** The states an import passes through, one more than the entries read. */
  type Trace = seq<Import>

  ghost predicate Stepped(b: Batch, tr: Trace, k: nat) {
    && WellFormed(b) && k + 1 < |tr| <= |b.entries| + 1
    && Good(b, tr[k], k) && Effect(b, tr[k], tr[k + 1], k)
  }

  ghost predicate Runs(b: Batch, tr: Trace) {
    && WellFormed(b) && 0 < |tr| <= |b.entries| + 1 && Coherent(b, tr[0])
    && forall k {:trigger Stepped(b, tr, k)} :: 0 <= k < |tr| - 1 ==> Stepped(b, tr, k)
  }

  lemma NthStep(b: Batch, s: Import, n: nat) returns (next: Import)
    requires Sound(b) && b.mode != Duplicate && n < |b.entries| && Good(b, s, 0)
    requires Smooth(b, s.done.existing.Keys, n + 1)
    ensures next == ImportTo(b, s, n + 1)
    ensures Good(b, ImportTo(b, s, n), n) && Effect(b, ImportTo(b, s, n), next, n)
  {
    hide Effect, ImportOne, Slips, Ends, Coherent;
    IndexStaysCoherent(b, s, n);
    next := ImportTo(b, s, n + 1);
    StepEffect(b, ImportTo(b, s, n), s.done.existing.Keys, n);
  }

  lemma {:induction false} TraceOf(b: Batch, s: Import, n: nat) returns (tr: Trace)
    requires Sound(b) && b.mode != Duplicate && n <= |b.entries| && Good(b, s, 0)
    requires Smooth(b, s.done.existing.Keys, n)
    ensures Runs(b, tr) && |tr| == n + 1 && tr[0] == s && tr[n] == ImportTo(b, s, n)
    decreases n
  {
    hide Check, Effect, ImportOne, Slips, Ends;
    if n == 0 {
      tr := [s];
    } else {
      var front := TraceOf(b, s, n - 1);
      var next := NthStep(b, s, n - 1);
      TraceGrows(b, front, next);
      tr := front + [next];
    }
  }

  lemma TraceGrows(b: Batch, front: Trace, next: Import)
    requires Runs(b, front) && |front| <= |b.entries|
    requires Good(b, front[|front| - 1], |front| - 1) && Effect(b, front[|front| - 1], next, |front| - 1)
    ensures Runs(b, front + [next])
  {
    forall k | 0 <= k < |front|
      ensures Stepped(b, front + [next], k)
    {
      assert k < |front| - 1 ==> Stepped(b, front, k);
    }
  }

  // ---------- Skip ----------

  ghost predicate DistinctKeys(memories: seq<Memory>) {
    forall i, j :: 0 <= i < j < |memories| ==> KeyOf(memories[i]) != KeyOf(memories[j])
  }

  /** What was stored is where it was; one record was added for each identity written that was not indexed;
      those identities are indexed now; and identities are distinct if they were. */
  ghost predicate SkippedOver(b: Batch, s: Import, end: Import, n: nat)
    requires WellFormed(b) && n <= |b.entries|
  {
    && s.store <= end.store
    && |end.store| - |s.store| == |end.done.outcome.imported| - |s.done.outcome.imported|
    && |end.store| - |s.store| == |WrittenKeys(b, n) - s.done.existing.Keys|
    && end.done.existing.Keys == s.done.existing.Keys + WrittenKeys(b, n)
    && (DistinctKeys(All(s.store, b.partition)) ==> DistinctKeys(All(end.store, b.partition)))
  }

  lemma SkipStep(b: Batch, s: Import, before: Import, after: Import, i: nat)
    requires WellFormed(b) && b.mode == Skip && i < |b.entries| && Coherent(b, before)
    requires SkippedOver(b, s, before, i) && Effect(b, before, after, i)
    ensures SkippedOver(b, s, after, i + 1)
  {
    hide Check, NewOf, DistinctKeys, UniqueIds, Coherent;
    if Written(b, i) {
      var key := EntryKey(b, i);
      if key in before.done.existing {
        assert WrittenKeys(b, i + 1) - s.done.existing.Keys == WrittenKeys(b, i) - s.done.existing.Keys;
      } else {
        SkipStepDistinct(b, before, i);
        assert after.done.existing.Keys == before.done.existing.Keys + {key};
        SkipCreates(b, s, before, after, i, NewOf(b, i), key);
      }
    }
  }

  /** An entry with a new identity adds one record and one key. */
  lemma SkipCreates(b: Batch, s: Import, before: Import, after: Import, i: nat, r: Contract.Record, key: DedupKey)
    requires WellFormed(b) && i < |b.entries| && SkippedOver(b, s, before, i)
    requires Written(b, i) && EntryKey(b, i) == key && key !in before.done.existing
    requires after.store == before.store + [r] && after.done.existing.Keys == before.done.existing.Keys + {key}
    requires |after.done.outcome.imported| == |before.done.outcome.imported| + 1
    requires DistinctKeys(All(before.store, b.partition)) ==> DistinctKeys(All(after.store, b.partition))
    ensures SkippedOver(b, s, after, i + 1)
  {
    hide Check, EntryKey, Written, DistinctKeys, All;
    assert WrittenKeys(b, i + 1) == WrittenKeys(b, i) + {key};
    hide WrittenKeys;
    NewKey(WrittenKeys(b, i), s.done.existing.Keys, key);
    StillPrefix(s.store, before.store, r);
  }

  lemma StillPrefix(a: Store, b: Store, r: Contract.Record)
    requires a <= b
    ensures a <= b + [r]
  {
  }

  lemma NewKey(keys: set<DedupKey>, indexed: set<DedupKey>, key: DedupKey)
    requires key !in keys + indexed
    ensures |(keys + {key}) - indexed| == |keys - indexed| + 1
  {
    assert (keys + {key}) - indexed == (keys - indexed) + {key};
  }

  lemma NothingSkippedYet(b: Batch, s: Import)
    requires WellFormed(b)
    ensures SkippedOver(b, s, s, 0)
  {
    assert WrittenKeys(b, 0) - s.done.existing.Keys == {};
  }

  lemma {:induction false} SkipRun(b: Batch, tr: Trace, n: nat)
    requires b.mode == Skip && Runs(b, tr) && n < |tr|
    ensures SkippedOver(b, tr[0], tr[n], n)
    decreases n
  {
    hide Check, Effect, SkippedOver, UniqueIds, DrawsFresh, AllInSpace;
    if n == 0 {
      NothingSkippedYet(b, tr[0]);
    } else {
      SkipRun(b, tr, n - 1);
      assert Stepped(b, tr, n - 1);
      SkipStep(b, tr[0], tr[n - 1], tr[n], n - 1);
    }
  }

  /** A skip import changes nothing that was stored, creates exactly one memory for each identity that is
      new among the entries whose write goes through, and keeps identities distinct if they were. */
  lemma SkipImport(b: Batch, s: Import, n: nat)
    requires Sound(b) && b.mode == Skip && n <= |b.entries| && Good(b, s, 0)
    requires Smooth(b, s.done.existing.Keys, n)
    ensures SkippedOver(b, s, ImportTo(b, s, n), n)
  {
    hide Effect, SkippedOver, Stepped, Slips, Ends;
    var tr := TraceOf(b, s, n);
    SkipRun(b, tr, n);
  }

  lemma SkipStepDistinct(b: Batch, s: Import, i: nat)
    requires WellFormed(b) && i < |b.entries| && Valid(b, i) && Coherent(b, s)
    requires KeyOf(NewOf(b, i).memory) == EntryKey(b, i) && EntryKey(b, i) !in s.done.existing
    ensures DistinctKeys(All(s.store, b.partition)) ==> DistinctKeys(All(s.store + [NewOf(b, i)], b.partition))
  {
    AllAppend(s.store, NewOf(b, i), b.partition);
    Indexed(All(s.store, b.partition), EntryKey(b, i));
  }

  /** Importing once more, with the index read afresh, creates exactly one memory for each identity whose
      write goes through this time, was not written the first time, and was not indexed before: so the same
      batch again brings only what had failed, and changes nothing at all if nothing had. */
  lemma SkipImportIsIdempotent(b: Batch, s: Import, again: Batch, reread: Progress)
    requires Sound(b) && b.mode == Skip && Good(b, s, 0) && Smooth(b, s.done.existing.Keys, |b.entries|)
    requires Sound(again) && again.mode == Skip && again.partition == b.partition
    requires Good(again, Import(ImportTo(b, s, |b.entries|).store, reread), 0)
    requires Smooth(again, reread.existing.Keys, |again.entries|)
    ensures Retried(b, again, s, Import(ImportTo(b, s, |b.entries|).store, reread),
      ImportTo(again, Import(ImportTo(b, s, |b.entries|).store, reread), |again.entries|))
  {
    hide ImportTo, Smooth, Good, Coherent, Retried, SkippedOver;
    var end := ImportTo(b, s, |b.entries|);
    var start := Import(end.store, reread);
    SkipRuns(b, s);
    SkipRuns(again, start);
    SameIndex(b, again, end, start);
    SecondRun(b, again, s, end, start, ImportTo(again, start, |again.entries|));
  }

  /** The second import of two into one partition, from `start` to `second`. */
  ghost predicate Retried(b: Batch, again: Batch, s: Import, start: Import, second: Import)
    requires WellFormed(b) && WellFormed(again)
  {
    var missing := WrittenKeys(again, |again.entries|) - WrittenKeys(b, |b.entries|) - s.done.existing.Keys;
    && start.store <= second.store && |second.store| - |start.store| == |missing|
    && |second.done.outcome.imported| - |start.done.outcome.imported| == |missing|
    && (missing == {} ==> second.store == start.store)
  }

  lemma SkipRuns(b: Batch, s: Import)
    requires Sound(b) && b.mode == Skip && Good(b, s, 0) && Smooth(b, s.done.existing.Keys, |b.entries|)
    ensures SkippedOver(b, s, ImportTo(b, s, |b.entries|), |b.entries|)
    ensures Coherent(b, s) && Coherent(b, ImportTo(b, s, |b.entries|))
  {
    hide Smooth, SkippedOver;
    SkipImport(b, s, |b.entries|);
    IndexStaysCoherent(b, s, |b.entries|);
  }

  lemma SameIndex(b: Batch, again: Batch, end: Import, reread: Import)
    requires Coherent(b, end) && Coherent(again, reread) && again.partition == b.partition && reread.store == end.store
    ensures reread.done.existing == end.done.existing
  {
  }

  lemma SecondRun(b: Batch, again: Batch, s: Import, end: Import, start: Import, second: Import)
    requires WellFormed(b) && WellFormed(again)
    requires SkippedOver(b, s, end, |b.entries|) && SkippedOver(again, start, second, |again.entries|)
    requires start.done.existing == end.done.existing
    ensures Retried(b, again, s, start, second)
  {
    hide WrittenKeys, DistinctKeys, All;
    TakenAway(WrittenKeys(again, |again.entries|), s.done.existing.Keys, WrittenKeys(b, |b.entries|));
    if |second.store| == |start.store| {
      WholePrefix(start.store, second.store);
    }
  }

  lemma TakenAway(a: set<DedupKey>, b: set<DedupKey>, c: set<DedupKey>)
    ensures a - (b + c) == a - c - b
  {
  }

  lemma WholePrefix(a: Store, b: Store)
    requires a <= b && |a| == |b|
    ensures a == b
  {
  }

  // ---------- Overwrite: the last writer wins ----------

  /** The metadata of the last entry written for `key` that carries metadata. */
  ghost function LastWritten(b: Batch, key: DedupKey, n: nat): Option<Fields>
    requires WellFormed(b) && n <= |b.entries|
  {
    if n == 0 then None
    else if Written(b, n - 1) && EntryKey(b, n - 1) == key && Check(b.validate, b.entries[n - 1]).metadata.Some? then
      Check(b.validate, b.entries[n - 1]).metadata
    else LastWritten(b, key, n - 1)
  }

  function ReservedOf(metadata: Fields): Fields {
    map k | k in metadata && IsReservedKey(k) :: metadata[k]
  }

  /** The metadata a memory of identity `key` ends with, given what was stored before the import. */
  ghost function Winning(b: Batch, key: DedupKey, n: nat, stored: Fields): Fields
    requires WellFormed(b) && n <= |b.entries|
  {
    var last := LastWritten(b, key, n);
    if last.None? then stored else ReservedOf(stored) + last.value
  }

  lemma PatchOverIs(stored: Fields, metadata: Fields)
    requires IsValid(metadata, false)
    ensures SetThenRemove(stored, PatchOver(stored, metadata)) == ReservedOf(stored) + metadata
  {
  }

  lemma {:induction false} LastWrittenIsValid(b: Batch, key: DedupKey, n: nat)
    requires WellFormed(b) && n <= |b.entries| && LastWritten(b, key, n).Some?
    ensures IsValid(LastWritten(b, key, n).value, false)
    decreases n
  {
    if !(Written(b, n - 1) && EntryKey(b, n - 1) == key && Check(b.validate, b.entries[n - 1]).metadata.Some?) {
      LastWrittenIsValid(b, key, n - 1);
    }
  }

  lemma ReservedOfWinning(b: Batch, key: DedupKey, n: nat, stored: Fields)
    requires WellFormed(b) && n <= |b.entries|
    ensures ReservedOf(Winning(b, key, n, stored)) == ReservedOf(stored)
  {
    if LastWritten(b, key, n).Some? {
      LastWrittenIsValid(b, key, n);
    }
  }

  /** The metadata an identity's memory had before the import; a memory the import creates had none. */
  function MetadataBefore(existing: Index, key: DedupKey): Fields {
    if key in existing then existing[key].metadata else map[]
  }

  /** A stamp that keeps the creator of what it overwrites, as policy's does. */
  ghost predicate KeepsCreator(b: Batch) {
    b.stamp.Some? ==> forall i, stored: System :: b.stamp.value(i, Some(stored)).createdBy == stored.createdBy
  }

  ghost predicate WonBy(b: Batch, s: Import, end: Import, n: nat, key: DedupKey)
    requires WellFormed(b) && n <= |b.entries|
  {
    && key in end.done.existing
    && end.done.existing[key].metadata == Winning(b, key, n, MetadataBefore(s.done.existing, key))
    && (key in s.done.existing ==>
          && end.done.existing[key].id == s.done.existing[key].id
          && end.done.existing[key].system.createdBy == s.done.existing[key].system.createdBy)
  }

  lemma {:induction false} WinRun(b: Batch, tr: Trace, n: nat, key: DedupKey)
    requires b.mode == Overwrite && KeepsCreator(b) && Runs(b, tr) && n < |tr|
    requires key in tr[0].done.existing || key in WrittenKeys(b, n)
    ensures WonBy(b, tr[0], tr[n], n, key)
    decreases n
  {
    hide Check, Effect, WonBy, Good;
    if n > 0 {
      assert Stepped(b, tr, n - 1);
      if key in tr[0].done.existing || key in WrittenKeys(b, n - 1) {
        WinRun(b, tr, n - 1, key);
        WinAgain(b, tr[0], tr[n - 1], tr[n], n - 1, key);
      } else {
        OverwriteKeys(b, tr, n - 1);
        FirstWin(b, tr[0], tr[n - 1], tr[n], n - 1, key);
      }
    } else {
      NothingWonYet(b, tr[0], key);
    }
  }

  lemma NothingWonYet(b: Batch, s: Import, key: DedupKey)
    requires WellFormed(b) && key in s.done.existing
    ensures WonBy(b, s, s, 0, key)
  {
  }

  /** The memory of an identity, as it is stored. */
  ghost predicate Stores(store: Store, partition: string, m: Memory) {
    Lookup(store, partition, m.id).Some? && Lookup(store, partition, m.id).value.memory == m
  }

  /** Each matched or created memory ends stored with the metadata of the last entry written for its
      identity, and the reserved keys it already had; a matched one keeps its id and its creator. */
  lemma LastWriterWins(b: Batch, s: Import, n: nat, key: DedupKey)
    requires Sound(b) && b.mode == Overwrite && KeepsCreator(b) && n <= |b.entries| && Good(b, s, 0)
    requires Smooth(b, s.done.existing.Keys, n)
    requires key in s.done.existing || key in WrittenKeys(b, n)
    ensures WonBy(b, s, ImportTo(b, s, n), n, key)
    ensures
      var end := ImportTo(b, s, n);
      KeyOf(end.done.existing[key]) == key && Stores(end.store, b.partition, end.done.existing[key])
  {
    hide WonBy, Effect, Stepped, Slips, Ends, WrittenKeys, Check;
    var tr := TraceOf(b, s, n);
    WinRun(b, tr, n, key);
    IndexStaysCoherent(b, s, n);
    var end := ImportTo(b, s, n);
    assert key in end.done.existing;
    Indexed(All(end.store, b.partition), key);
    ListedIsFound(end.store, b.partition, end.done.existing[key]);
  }

  lemma {:induction false} OverwriteKeys(b: Batch, tr: Trace, n: nat)
    requires b.mode == Overwrite && Runs(b, tr) && n < |tr|
    ensures tr[n].done.existing.Keys == tr[0].done.existing.Keys + WrittenKeys(b, n)
    decreases n
  {
    if n > 0 {
      OverwriteKeys(b, tr, n - 1);
      assert Stepped(b, tr, n - 1);
      KeysStep(b, tr[n - 1], tr[n], n - 1);
    }
  }

  lemma KeysStep(b: Batch, before: Import, after: Import, i: nat)
    requires WellFormed(b) && b.mode == Overwrite && i < |b.entries| && Effect(b, before, after, i)
    ensures after.done.existing.Keys == before.done.existing.Keys + (if Written(b, i) then {EntryKey(b, i)} else {})
  {
  }

  lemma WinAgain(b: Batch, s: Import, before: Import, after: Import, i: nat, key: DedupKey)
    requires WellFormed(b) && b.mode == Overwrite && KeepsCreator(b) && i < |b.entries|
    requires Effect(b, before, after, i) && WonBy(b, s, before, i, key)
    ensures WonBy(b, s, after, i + 1, key)
  {
    hide KeyOf, NewOf;
    if Written(b, i) && EntryKey(b, i) == key {
      var stored := MetadataBefore(s.done.existing, key);
      var dup, metadata := before.done.existing[key], Check(b.validate, b.entries[i]).metadata;
      if metadata.Some? {
        assert IsValid(metadata.value, false);
        PatchOverIs(dup.metadata, metadata.value);
        ReservedOfWinning(b, key, i, stored);
      }
    }
  }

  lemma FirstWin(b: Batch, s: Import, before: Import, after: Import, i: nat, key: DedupKey)
    requires WellFormed(b) && b.mode == Overwrite && i < |b.entries| && Effect(b, before, after, i)
    requires key !in s.done.existing && Written(b, i) && EntryKey(b, i) == key && key !in WrittenKeys(b, i)
    requires before.done.existing.Keys == s.done.existing.Keys + WrittenKeys(b, i)
    ensures WonBy(b, s, after, i + 1, key)
  {
    NeverWritten(b, key, i);
    assert ReservedOf(map[]) == map[];
    var metadata := Check(b.validate, b.entries[i]).metadata;
    if metadata.Some? {
      assert map[] + metadata.value == metadata.value;
    }
  }

  lemma {:induction false} NeverWritten(b: Batch, key: DedupKey, n: nat)
    requires WellFormed(b) && n <= |b.entries| && key !in WrittenKeys(b, n)
    ensures LastWritten(b, key, n) == None
    decreases n
  {
    if n > 0 {
      NeverWritten(b, key, n - 1);
    }
  }

  /** A stored memory is a target of the first `n` entries when one of them names its identity and the
      index held it under that identity. */
  ghost predicate Target(b: Batch, s: Import, n: nat, m: Memory)
    requires WellFormed(b) && n <= |b.entries|
  {
    && m.partition == b.partition && KeyOf(m) in WrittenKeys(b, n)
    && KeyOf(m) in s.done.existing && s.done.existing[KeyOf(m)].id == m.id
  }

  lemma {:induction false} UntouchedRun(b: Batch, tr: Trace, n: nat, j: nat)
    requires b.mode == Overwrite && KeepsCreator(b) && Runs(b, tr) && n < |tr|
    requires j < |tr[0].store| && !Target(b, tr[0], n, tr[0].store[j].memory)
    ensures j < |tr[n].store| && tr[n].store[j] == tr[0].store[j]
    decreases n
  {
    if n > 0 {
      UntouchedRun(b, tr, n - 1, j);
      assert Stepped(b, tr, n - 1);
      var before := tr[n - 1];
      if Written(b, n - 1) && EntryKey(b, n - 1) in before.done.existing {
        var dup := before.done.existing[EntryKey(b, n - 1)];
        UniqueAfterReplace(before.store, b.partition, dup.id, EntryChange(b, n - 1, dup), b.draws[n - 1].now);
        if Owned(before.store[j], b.partition, dup.id) {
          SameMemory(before.store, b.partition, j, dup);
          StoredIsIndexed(b, tr[0], j);
          WinRun(b, tr, n - 1, EntryKey(b, n - 1));
        }
      }
    }
  }

  /** No other memory that was stored before changes, nor its history, nor its place. */
  lemma OthersUntouched(b: Batch, s: Import, n: nat, j: nat)
    requires Sound(b) && b.mode == Overwrite && KeepsCreator(b) && n <= |b.entries| && Good(b, s, 0)
    requires Smooth(b, s.done.existing.Keys, n)
    requires j < |s.store| && !Target(b, s, n, s.store[j].memory)
    ensures j < |ImportTo(b, s, n).store| && ImportTo(b, s, n).store[j] == s.store[j]
  {
    var tr := TraceOf(b, s, n);
    UntouchedRun(b, tr, n, j);
  }

  lemma {:induction false} SameMemory(store: Store, partition: string, j: nat, m: Memory)
    requires UniqueIds(store) && j < |store| && Owned(store[j], partition, m.id)
    requires Lookup(store, partition, m.id).Some? && Lookup(store, partition, m.id).value.memory == m
    ensures store[j].memory == m
    decreases |store|
  {
    if j > 0 {
      UniqueTail(store);
      SameMemory(store[1..], partition, j - 1, m);
    }
  }

  lemma {:induction false} StoredIsIndexed(b: Batch, s: Import, j: nat)
    requires Coherent(b, s) && j < |s.store| && s.store[j].memory.partition == b.partition
    ensures KeyOf(s.store[j].memory) in s.done.existing
  {
    StoredIsListed(s.store, b.partition, j);
    Indexed(All(s.store, b.partition), KeyOf(s.store[j].memory));
  }

  lemma {:induction false} StoredIsListed(store: Store, partition: string, j: nat)
    requires j < |store| && store[j].memory.partition == partition
    ensures store[j].memory in All(store, partition)
    decreases |store|
  {
    if j > 0 {
      StoredIsListed(store[1..], partition, j - 1);
    }
  }

  // ---------- Duplicate: everything written is created ----------

  /** The records that the written entries create, in order. */
  ghost function Creations(b: Batch, n: nat): Store
    requires WellFormed(b) && n <= |b.entries|
  {
    if n == 0 then []
    else if Written(b, n - 1) then Creations(b, n - 1) + [NewOf(b, n - 1)]
    else Creations(b, n - 1)
  }

  /** The written entries that also read back. */
  ghost function Confirmed(b: Batch, n: nat): nat
    requires WellFormed(b) && n <= |b.entries|
  {
    if n == 0 then 0
    else Confirmed(b, n - 1) + (if Valid(b, n - 1) && b.outages[n - 1].Up? then 1 else 0)
  }

  /** A duplicate import leaves the stored records as they are and adds one per written entry, in order;
      it reports as imported those that read back. */
  lemma {:induction false} DuplicateImport(b: Batch, s: Import, n: nat)
    requires Sound(b) && b.mode == Duplicate && n <= |b.entries|
    requires forall i :: 0 <= i < n && Valid(b, i) ==> !NestedScope(ScopeOf(b, i))
    requires DrawsFresh(b, s.store, 0) && s.done.raised == None
    ensures
      var end := ImportTo(b, s, n);
      && end.store == s.store + Creations(b, n) && DrawsFresh(b, end.store, n) && end.done.raised == None
      && |end.done.outcome.imported| == |s.done.outcome.imported| + Confirmed(b, n)
    decreases n
  {
    hide ImportOne, Check, NestedScope, NewOf;
    if n > 0 {
      DuplicateImport(b, s, n - 1);
      DuplicateStep(b, ImportTo(b, s, n - 1), n - 1);
      if Written(b, n - 1) {
        Regroup(s.store, Creations(b, n - 1), [NewOf(b, n - 1)]);
      }
    }
  }

  lemma DuplicateStep(b: Batch, s: Import, i: nat)
    requires Sound(b) && b.mode == Duplicate && i < |b.entries| && DrawsFresh(b, s.store, i)
    requires Valid(b, i) ==> !NestedScope(ScopeOf(b, i))
    ensures
      var next := ImportOne(b, s, i);
      && next.store == (if Written(b, i) then s.store + [NewOf(b, i)] else s.store)
      && DrawsFresh(b, next.store, i + 1) && next.done.raised == s.done.raised
      && |next.done.outcome.imported| ==
        |s.done.outcome.imported| + (if Valid(b, i) && b.outages[i].Up? then 1 else 0)
  {
    hide Check, NestedScope;
    ImportOneFresh(b, s, i);
    if Valid(b, i) {
      AcceptedDraft(b, i);
      assert ImportOne(b, s, i) == CreateOne(b, s, i, EntryKey(b, i), DraftOf(b, i));
      if Written(b, i) {
        CreateEffect(b, s, i, EntryKey(b, i), DraftOf(b, i));
      }
    }
  }
}
