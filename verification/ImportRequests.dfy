/** What an import request does, by the name of its conflict mode, in terms of the entries it was given. */
module ImportRequests {
  import opened Results
  import opened Text
  import opened Values
  import opened CharTables
  import opened Metadata
  import opened ScopeRules
  import opened Contract
  import opened Reading
  import opened Transfer
  import opened Dedup
  import opened Imports
  import opened ImportRecords
  import opened Lookups
  import opened Policy
  import opened Attribution
  import opened PolicyImports
  import opened Searching
  import opened Migration
  import opened Reimport
  import opened ScopeMeanings

  // ---------- Entries ----------

  /** An entry that can be imported. */
  ghost predicate GoodEntry(t: Tables, e: Entry) {
    && e.content.Str? && Strip(e.content.text) != "" && |e.content.text| <= 100_000
    && MayScope(t, e.scope, SCOPE_KEYS)
    && (e.metadata.Null? || (e.metadata.Object? && MetadataKept(e.metadata.fields)))
  }

  function TextOf(v: Value): string {
    if v.Str? then v.text else ""
  }

  /** What an entry is told apart by: its content and what its scope is filed under. */
  function Identity(t: Tables, e: Entry): DedupKey {
    DedupKey(TextOf(e.content), map k | k in GivenFields(e.scope) :: FiledText(t, k, GivenFields(e.scope)[k]))
  }

  /** A good entry whose write, should it come to one, goes through. */
  ghost predicate Lands(t: Tables, entries: seq<Entry>, outages: seq<Outage>, i: int) {
    0 <= i < |entries| && i < |outages| && GoodEntry(t, entries[i]) && !outages[i].WriteDown?
  }

  ghost function LandedKeys(t: Tables, entries: seq<Entry>, outages: seq<Outage>, n: nat): set<DedupKey>
    requires n <= |entries|
  {
    set i | 0 <= i < n && Lands(t, entries, outages, i) :: Identity(t, entries[i])
  }

  function StoredKeys(store: Store, p: string): set<DedupKey> {
    set i | 0 <= i < |store| && store[i].memory.partition == p :: KeyOf(store[i].memory)
  }

  /** The record that an entry becomes: the entry's own content, scope and metadata, in the key's name. */
  function RecordFor(t: Tables, key: Key, e: Entry, draw: Draw): Contract.Record {
    Contract.Record(
      Memory(draw.id, TextOf(e.content), Identity(t, e).scope, GivenFields(e.metadata), draw.now, None, key.space,
             System(Some(Str(key.space)), Some(key.name), Some(key.name))),
      [HistoryEntry(Created, draw.now, None, Some(TextOf(e.content)), Some(key.name))])
  }

  lemma EntryIff(t: Tables, e: Entry)
    requires LawfulFolding(t)
    ensures
      var c := Check(EntryScope(t), e);
      && (c.Accepted? <==> GoodEntry(t, e))
      && (c.Accepted? ==>
            && DedupKey(c.content, ScopeKey(c.scope)) == Identity(t, e)
            && ScopeAsText(OrElse(c.scope, map[])) == Identity(t, e).scope
            && c.metadata == (if e.metadata.Null? then None else Some(e.metadata.fields)))
  {
    hide CheckedScope, MayGive, Size, IsValid, Strip, FiledText, NullFreeScope, NestedScope, ScopeAsText, ScopeKey;
    AcceptedIff(t, e.scope, SCOPE_KEYS);
    if MayScope(t, e.scope, SCOPE_KEYS) {
      FiledAs(t, e.scope);
      CleanedForm(t, e.scope, SCOPE_KEYS);
      AcceptedKeys(t, e.scope);
      var scope := CheckedScope(t, e.scope, SCOPE_KEYS).value;
      SameKey(scope);
      assert ScopeAsText(OrElse(scope, map[])) == Identity(t, e).scope;
      assert e.scope.Null? ==> scope == None;
    }
  }

  /** Without nulls, the key a scope is looked up by is the text it is stored as. */
  lemma SameKey(scope: Option<Fields>)
    requires NullFreeScope(scope)
    ensures ScopeKey(scope) == ScopeAsText(OrElse(scope, map[]))
  {
    hide ScopeText;
  }

  lemma EntryFacts(t: Tables, key: Key, entries: seq<Entry>, mode: Mode, draws: seq<Draw>, outages: seq<Outage>, i: nat)
    requires LawfulFolding(t) && |draws| == |entries| == |outages| && i < |entries|
    ensures
      var b := ImportBatch(t, key, entries, mode, draws, outages);
      && (Valid(b, i) <==> GoodEntry(t, entries[i]))
      && (Written(b, i) <==> Lands(t, entries, outages, i))
      && (Valid(b, i) ==>
            && EntryKey(b, i) == Identity(t, entries[i])
            && NewOf(b, i) == RecordFor(t, key, entries[i], draws[i])
            && Check(b.validate, b.entries[i]).metadata ==
                 (if entries[i].metadata.Null? then None else Some(entries[i].metadata.fields)))
  {
    hide Check, GoodEntry, Identity;
    EntryIff(t, entries[i]);
    if GoodEntry(t, entries[i]) {
      GoodContent(t, entries[i]);
    }
  }

  lemma GoodContent(t: Tables, e: Entry)
    requires LawfulFolding(t) && GoodEntry(t, e)
    ensures Check(EntryScope(t), e).Accepted? && Check(EntryScope(t), e).content == TextOf(e.content)
    ensures Identity(t, e).content == TextOf(e.content) && (e.metadata.Null? || e.metadata.Object?)
  {
    hide CheckedScope, MayScope, Size, IsValid, Strip, FiledText;
    AcceptedIff(t, e.scope, SCOPE_KEYS);
  }

  lemma {:induction false} LandedAre(t: Tables, key: Key, entries: seq<Entry>, mode: Mode, draws: seq<Draw>,
      outages: seq<Outage>, n: nat)
    requires LawfulFolding(t) && |draws| == |entries| == |outages| && n <= |entries|
    ensures WrittenKeys(ImportBatch(t, key, entries, mode, draws, outages), n) == LandedKeys(t, entries, outages, n)
    decreases n
  {
    hide Valid, EntryKey, Lands, Identity;
    if n > 0 {
      LandedAre(t, key, entries, mode, draws, outages, n - 1);
      EntryFacts(t, key, entries, mode, draws, outages, n - 1);
      OneMoreLanded(t, entries, outages, n);
    }
  }

  lemma OneMoreLanded(t: Tables, entries: seq<Entry>, outages: seq<Outage>, n: nat)
    requires 0 < n <= |entries|
    ensures LandedKeys(t, entries, outages, n) ==
      LandedKeys(t, entries, outages, n - 1) +
      (if Lands(t, entries, outages, n - 1) then {Identity(t, entries[n - 1])} else {})
  {
    hide Lands, Identity;
    forall k
      ensures k in LandedKeys(t, entries, outages, n) <==>
        k in LandedKeys(t, entries, outages, n - 1) ||
        (Lands(t, entries, outages, n - 1) && k == Identity(t, entries[n - 1]))
    {
    }
  }

  lemma StoredAre(store: Store, p: string)
    ensures IndexOf(All(store, p)).Keys == StoredKeys(store, p)
  {
    forall k
      ensures k in IndexOf(All(store, p)) <==> k in StoredKeys(store, p)
    {
      Indexed(All(store, p), k);
      if k in IndexOf(All(store, p)) {
        ListingIs(store, p, None, IndexOf(All(store, p))[k]);
      }
      if k in StoredKeys(store, p) {
        var i :| 0 <= i < |store| && store[i].memory.partition == p && k == KeyOf(store[i].memory);
        ListingIs(store, p, None, store[i].memory);
      }
    }
  }

  // ---------- Names of modes ----------

  /** Any other name is refused, and so is a batch that is empty or too long. */
  lemma OtherModesRefused(t: Tables, store: Store, key: Key, entries: seq<Entry>, mode: string, draws: seq<Draw>,
      outages: seq<Outage>)
    requires |draws| == |entries| == |outages|
    requires mode !in {"skip", "overwrite", "duplicate"} || entries == [] || |entries| > 1_000 || key.relation == Reader
    ensures ImportMemories(t, store, key, entries, mode, draws, outages) ==
      (store, Err(PolicyError(if key.relation == Reader then Forbidden else ValidationError)))
  {
  }

  // ---------- Duplicate ----------

  ghost function LandedBefore(t: Tables, entries: seq<Entry>, outages: seq<Outage>, n: int): set<int> {
    set i | 0 <= i < n && Lands(t, entries, outages, i)
  }

  lemma OneMoreBefore(t: Tables, entries: seq<Entry>, outages: seq<Outage>, n: nat)
    ensures |LandedBefore(t, entries, outages, n + 1)| ==
      |LandedBefore(t, entries, outages, n)| + (if Lands(t, entries, outages, n) then 1 else 0)
  {
    hide Lands;
    assert LandedBefore(t, entries, outages, n + 1) ==
      LandedBefore(t, entries, outages, n) + (if Lands(t, entries, outages, n) then {n as int} else {});
  }

  lemma {:induction false} CreationsAre(t: Tables, key: Key, entries: seq<Entry>, draws: seq<Draw>,
      outages: seq<Outage>, n: nat)
    requires LawfulFolding(t) && |draws| == |entries| == |outages| && n <= |entries|
    ensures
      var made := Creations(ImportBatch(t, key, entries, Duplicate, draws, outages), n);
      && |made| == |LandedBefore(t, entries, outages, n)|
      && forall i :: 0 <= i < n && Lands(t, entries, outages, i) ==>
           |LandedBefore(t, entries, outages, i)| < |made|
           && made[|LandedBefore(t, entries, outages, i)|] == RecordFor(t, key, entries[i], draws[i])
    decreases n
  {
    hide Valid, NewOf, Lands, RecordFor, LandedBefore;
    if n == 0 {
      assert LandedBefore(t, entries, outages, 0) == {} by {
        NoneBefore(t, entries, outages);
      }
    } else {
      CreationsAre(t, key, entries, draws, outages, n - 1);
      EntryFacts(t, key, entries, Duplicate, draws, outages, n - 1);
      OneMoreBefore(t, entries, outages, n - 1);
    }
  }

  lemma NoneBefore(t: Tables, entries: seq<Entry>, outages: seq<Outage>)
    ensures LandedBefore(t, entries, outages, 0) == {}
  {
  }

  /** A request to import as "duplicate" leaves every stored record as it is, and adds one for every entry
      that lands, in order, whatever is stored already. */
  lemma DuplicateRequest(t: Tables, store: Store, key: Key, entries: seq<Entry>, draws: seq<Draw>,
      outages: seq<Outage>, after: Store, r: Result<Outcome>)
    requires LawfulFolding(t) && |draws| == |entries| == |outages| && Importable(entries) && NewDraws(store, draws)
    requires key.relation == Writer
    requires ImportMemories(t, store, key, entries, "duplicate", draws, outages) == (after, r)
    ensures r.Ok? && store <= after
    ensures |after| - |store| == |LandedBefore(t, entries, outages, |entries|)|
    ensures forall i :: 0 <= i < |entries| && Lands(t, entries, outages, i) ==>
      |store| + |LandedBefore(t, entries, outages, i)| < |after|
      && after[|store| + |LandedBefore(t, entries, outages, i)|] == RecordFor(t, key, entries[i], draws[i])
  {
    hide ImportTo, Lands, RecordFor, LandedBefore, Valid, ScopeOf, NestedScope, Sound, StorableScopes, CheckedScope;
    var b := ImportBatch(t, key, entries, Duplicate, draws, outages);
    PolicyBatchIsSound(t, key, entries, Duplicate, draws, outages);
    NoneNested(b);
    DuplicateImport(b, Import(store, Progress(map[], NOTHING_YET, None)), |entries|);
    CreationsAre(t, key, entries, draws, outages, |entries|);
  }

  lemma NoneNested(b: Batch)
    requires StorableScopes(b)
    ensures forall i :: 0 <= i < |b.entries| && Valid(b, i) ==> !NestedScope(ScopeOf(b, i))
  {
    hide Valid, ScopeOf, NestedScope;
    forall i | 0 <= i < |b.entries| && Valid(b, i)
      ensures !NestedScope(ScopeOf(b, i))
    {
      assert Storable(ScopeOf(b, i));
    }
  }

  // ---------- Skip and overwrite: the run of a request ----------

  /** The batch of a request and the state it starts from, with the index of the whole space. */
  ghost predicate Begins(t: Tables, store: Store, key: Key, entries: seq<Entry>, mode: Mode, draws: seq<Draw>,
      outages: seq<Outage>, b: Batch, s: Import)
    requires |draws| == |entries| == |outages|
  {
    && b == ImportBatch(t, key, entries, mode, draws, outages)
    && Sound(b) && KeepsCreator(b) && Good(b, s, 0) && Smooth(b, s.done.existing.Keys, |entries|)
    && s.store == store && s.done.existing == IndexOf(All(store, key.space))
    && Accounted(s.done) == 0
  }

  /** A writer's request into a space that policy wrote and that is within the export cap. */
  ghost predicate Requested(store: Store, key: Key, entries: seq<Entry>, draws: seq<Draw>, outages: seq<Outage>,
      names: Signers)
  {
    && |draws| == |entries| == |outages| && Importable(entries) && NoReadDown(outages)
    && Healthy(store, names) && key.relation == Writer && NewDraws(store, draws)
    && |All(store, key.space)| <= 10_000
  }

  lemma RequestRuns(t: Tables, store: Store, key: Key, entries: seq<Entry>, name: string, mode: Mode,
      draws: seq<Draw>, outages: seq<Outage>, names: Signers)
    returns (b: Batch, s: Import)
    requires LawfulFolding(t) && Requested(store, key, entries, draws, outages, names)
    requires (name == "skip" && mode == Skip) || (name == "overwrite" && mode == Overwrite)
    ensures Begins(t, store, key, entries, mode, draws, outages, b, s)
    ensures
      var end := ImportTo(b, s, |entries|);
      ImportMemories(t, store, key, entries, name, draws, outages) == (end.store, Ok(end.done.outcome))
  {
    hide Healthy, Sound, StorableScopes, Smooth, CheckedScope, ImportOne, Follow, UniqueIds, DrawsFresh, AllInSpace,
      KeepsCreator;
    b := ImportBatch(t, key, entries, mode, draws, outages);
    assert DrawsFresh(b, store, 0) by {
      FreshDraws(b, store);
    }
    PolicyImportIsGood(t, store, key, entries, mode, draws, outages, names);
    s := Import(store, Start(b, store, MAX_EXPORT).value);
    StorableIsSmooth(b, s.done.existing.Keys, |entries|);
    Finishes(b, s);
  }

  lemma FreshDraws(b: Batch, store: Store)
    requires NewDraws(store, b.draws)
    ensures DrawsFresh(b, store, 0)
  {
  }

  /** The first entry that lands with an identity the space does not hold. */
  ghost predicate FirstNew(t: Tables, store: Store, p: string, entries: seq<Entry>, outages: seq<Outage>, i: nat) {
    && Lands(t, entries, outages, i) && Identity(t, entries[i]) !in StoredKeys(store, p)
    && forall k :: 0 <= k < i && Lands(t, entries, outages, k) ==> Identity(t, entries[k]) != Identity(t, entries[i])
  }

  lemma FirstCreates(t: Tables, store: Store, key: Key, entries: seq<Entry>, mode: Mode, draws: seq<Draw>,
      outages: seq<Outage>, b: Batch, s: Import, i: nat)
    requires LawfulFolding(t) && |draws| == |entries| == |outages|
    requires Begins(t, store, key, entries, mode, draws, outages, b, s)
    requires FirstNew(t, store, key.space, entries, outages, i)
    ensures i < |entries| && Creates(b, s.done.existing.Keys, i)
    ensures EntryKey(b, i) == Identity(t, entries[i]) && NewOf(b, i) == RecordFor(t, key, entries[i], draws[i])
  {
    hide Lands, Identity, Valid, EntryKey, NewOf, RecordFor, Good, Smooth, Sound, KeepsCreator;
    LandsInRange(t, entries, outages, i);
    EntryFacts(t, key, entries, mode, draws, outages, i);
    LandedAre(t, key, entries, mode, draws, outages, i);
    StoredAre(store, key.space);
  }

  lemma LandsInRange(t: Tables, entries: seq<Entry>, outages: seq<Outage>, i: nat)
    requires Lands(t, entries, outages, i)
    ensures i < |entries| && GoodEntry(t, entries[i])
  {
  }

  // ---------- Skip ----------

  /** A request to import as "skip" leaves every stored record as it is, and creates one record for each
      identity that lands and is not stored: the record of the first entry that lands with it. */
  lemma SkipRequest(t: Tables, store: Store, key: Key, entries: seq<Entry>, draws: seq<Draw>, outages: seq<Outage>,
      names: Signers, after: Store, r: Result<Outcome>)
    requires LawfulFolding(t) && Requested(store, key, entries, draws, outages, names)
    requires ImportMemories(t, store, key, entries, "skip", draws, outages) == (after, r)
    ensures r.Ok? && store <= after
    ensures |after| - |store| == |LandedKeys(t, entries, outages, |entries|) - StoredKeys(store, key.space)|
    ensures forall i: nat {:trigger FirstNew(t, store, key.space, entries, outages, i)} ::
      FirstNew(t, store, key.space, entries, outages, i) ==>
        i < |entries| && Lookup(after, key.space, draws[i].id) == Some(RecordFor(t, key, entries[i], draws[i]))
  {
    hide ImportTo, ImportMemories, Begins, Good, FirstNew, RecordFor, LandedKeys, StoredKeys, WrittenKeys;
    var b, s := RequestRuns(t, store, key, entries, "skip", Skip, draws, outages, names);
    SkipCounts(t, store, key, entries, draws, outages, b, s);
    forall i: nat | FirstNew(t, store, key.space, entries, outages, i)
      ensures i < |entries| && Lookup(after, key.space, draws[i].id) == Some(RecordFor(t, key, entries[i], draws[i]))
    {
      SkipCreates1(t, store, key, entries, draws, outages, b, s, i);
    }
  }

  lemma SkipCounts(t: Tables, store: Store, key: Key, entries: seq<Entry>, draws: seq<Draw>, outages: seq<Outage>,
      b: Batch, s: Import)
    requires LawfulFolding(t) && |draws| == |entries| == |outages|
    requires Begins(t, store, key, entries, Skip, draws, outages, b, s)
    ensures
      var after := ImportTo(b, s, |entries|).store;
      && store <= after
      && |after| - |store| == |LandedKeys(t, entries, outages, |entries|) - StoredKeys(store, key.space)|
  {
    hide ImportTo, Good, LandedKeys, StoredKeys, WrittenKeys, Smooth, DistinctKeys, All, IndexOf;
    LandedAre(t, key, entries, Skip, draws, outages, |entries|);
    StoredAre(store, key.space);
    SkipImport(b, s, |entries|);
  }

  lemma SkipCreates1(t: Tables, store: Store, key: Key, entries: seq<Entry>, draws: seq<Draw>, outages: seq<Outage>,
      b: Batch, s: Import, i: nat)
    requires LawfulFolding(t) && |draws| == |entries| == |outages|
    requires Begins(t, store, key, entries, Skip, draws, outages, b, s)
    requires FirstNew(t, store, key.space, entries, outages, i)
    ensures i < |entries|
    ensures
      Lookup(ImportTo(b, s, |entries|).store, key.space, draws[i].id) == Some(RecordFor(t, key, entries[i], draws[i]))
  {
    FirstCreates(t, store, key, entries, Skip, draws, outages, b, s, i);
    hide ImportTo, FirstNew, RecordFor, Creates, NewOf, Smooth, Effect;
    var tr := TraceOf(b, s, |entries|);
    EndIsUnique(b, s, |entries|);
    SkipCreated(b, tr, i, |entries|);
  }

  lemma EndIsUnique(b: Batch, s: Import, n: nat)
    requires Sound(b) && b.mode != Duplicate && n <= |b.entries| && Good(b, s, 0)
    requires Smooth(b, s.done.existing.Keys, n)
    ensures UniqueIds(ImportTo(b, s, n).store)
  {
    hide ImportTo, Smooth, UniqueIds;
    IndexStaysCoherent(b, s, n);
  }

  // ---------- Overwrite ----------

  /** The last stored memory of its identity in the space: the one that an import finds. */
  ghost predicate LastOf(store: Store, p: string, j: nat) {
    && j < |store| && store[j].memory.partition == p
    && forall k :: j < k < |store| && store[k].memory.partition == p ==> KeyOf(store[k].memory) != KeyOf(store[j].memory)
  }

  lemma {:induction false} LastIsIndexed(store: Store, p: string, j: nat)
    requires LastOf(store, p, j)
    ensures
      var index := IndexOf(All(store, p));
      KeyOf(store[j].memory) in index && index[KeyOf(store[j].memory)] == store[j].memory
    decreases |store|
  {
    hide KeyOf;
    var front, last := store[..|store| - 1], store[|store| - 1];
    assert store == front + [last];
    AllAppend(front, last, p);
    if last.memory.partition == p {
      IndexAppend(All(front, p), last.memory);
    }
    if j < |front| {
      LastIsIndexed(front, p, j);
    }
  }

  /** The entry gives the metadata that an identity ends with: it lands, and no later one that lands has any. */
  ghost predicate GivesLast(t: Tables, entries: seq<Entry>, outages: seq<Outage>, n: nat, k: DedupKey, i: int)
    requires n <= |entries|
  {
    && 0 <= i < n && Lands(t, entries, outages, i) && Identity(t, entries[i]) == k && !entries[i].metadata.Null?
    && forall j :: i < j < n && Lands(t, entries, outages, j) && Identity(t, entries[j]) == k ==> entries[j].metadata.Null?
  }

  /** The metadata an identity ends with, given what was stored. */
  ghost predicate EndsWith(t: Tables, entries: seq<Entry>, outages: seq<Outage>, k: DedupKey, before: Fields, m: Fields) {
    && (forall i :: GivesLast(t, entries, outages, |entries|, k, i) ==> m == GivenFields(entries[i].metadata))
    && ((forall i :: !GivesLast(t, entries, outages, |entries|, k, i)) ==> m == before)
  }

  /** Whether entry `n` lands for the identity and gives metadata. */
  ghost predicate Gives(t: Tables, entries: seq<Entry>, outages: seq<Outage>, k: DedupKey, n: nat)
    requires n < |entries|
  {
    Lands(t, entries, outages, n) && Identity(t, entries[n]) == k && !entries[n].metadata.Null?
  }

  /** The last entry gives the metadata if it gives any; else what gave it before still does. */
  lemma GivesStep(t: Tables, entries: seq<Entry>, outages: seq<Outage>, n: nat, k: DedupKey, i: int)
    requires n < |entries|
    ensures GivesLast(t, entries, outages, n + 1, k, i) <==>
      if Gives(t, entries, outages, k, n) then i == n else GivesLast(t, entries, outages, n, k, i)
  {
    hide Lands, Identity;
  }

  lemma WrittenGives(t: Tables, key: Key, entries: seq<Entry>, draws: seq<Draw>, outages: seq<Outage>, n: nat,
      k: DedupKey)
    requires LawfulFolding(t) && |draws| == |entries| == |outages| && n < |entries|
    ensures
      var b := ImportBatch(t, key, entries, Overwrite, draws, outages);
      LastWritten(b, k, n + 1) ==
        if Gives(t, entries, outages, k, n) then Some(GivenFields(entries[n].metadata)) else LastWritten(b, k, n)
  {
    hide Valid, EntryKey, Lands, Identity, Check;
    EntryFacts(t, key, entries, Overwrite, draws, outages, n);
    if Gives(t, entries, outages, k, n) {
      LandsInRange(t, entries, outages, n);
      assert entries[n].metadata.Object? by {
        GoodContent(t, entries[n]);
      }
    }
  }

  lemma {:induction false} LastGivenIs(t: Tables, key: Key, entries: seq<Entry>, draws: seq<Draw>, outages: seq<Outage>,
      n: nat, k: DedupKey)
    requires LawfulFolding(t) && |draws| == |entries| == |outages| && n <= |entries|
    ensures
      var last := LastWritten(ImportBatch(t, key, entries, Overwrite, draws, outages), k, n);
      && (last.Some? ==> exists i :: GivesLast(t, entries, outages, n, k, i))
      && forall i :: GivesLast(t, entries, outages, n, k, i) ==> last == Some(GivenFields(entries[i].metadata))
    decreases n
  {
    hide GivesLast, LastWritten, Gives;
    if n == 0 {
      NothingGiven(t, key, entries, draws, outages, k);
    } else {
      LastGivenIs(t, key, entries, draws, outages, n - 1, k);
      WrittenGives(t, key, entries, draws, outages, n - 1, k);
      forall i
        ensures GivesLast(t, entries, outages, n, k, i) <==>
          if Gives(t, entries, outages, k, n - 1) then i == n - 1 else GivesLast(t, entries, outages, n - 1, k, i)
      {
        GivesStep(t, entries, outages, n - 1, k, i);
      }
      if Gives(t, entries, outages, k, n - 1) {
        assert GivesLast(t, entries, outages, n, k, n - 1);
      } else if LastWritten(ImportBatch(t, key, entries, Overwrite, draws, outages), k, n).Some? {
        var i :| GivesLast(t, entries, outages, n - 1, k, i);
        assert GivesLast(t, entries, outages, n, k, i);
      }
    }
  }

  lemma NothingGiven(t: Tables, key: Key, entries: seq<Entry>, draws: seq<Draw>, outages: seq<Outage>, k: DedupKey)
    requires |draws| == |entries| == |outages|
    ensures LastWritten(ImportBatch(t, key, entries, Overwrite, draws, outages), k, 0) == None
    ensures forall i :: !GivesLast(t, entries, outages, 0, k, i)
  {
    hide Lands, Identity;
  }

  lemma WinningIs(t: Tables, key: Key, entries: seq<Entry>, draws: seq<Draw>, outages: seq<Outage>, k: DedupKey,
      before: Fields)
    requires LawfulFolding(t) && |draws| == |entries| == |outages| && ReservedOf(before) == map[]
    ensures
      EndsWith(t, entries, outages, k, before,
               Winning(ImportBatch(t, key, entries, Overwrite, draws, outages), k, |entries|, before))
  {
    hide GivesLast, LastWritten, ReservedOf;
    LastGivenIs(t, key, entries, draws, outages, |entries|, k);
    var last := LastWritten(ImportBatch(t, key, entries, Overwrite, draws, outages), k, |entries|);
    if last.Some? {
      assert map[] + last.value == last.value;
    }
  }

  lemma NothingReserved(store: Store, names: Signers, j: nat)
    requires Healthy(store, names) && j < |store|
    ensures ReservedOf(store[j].memory.metadata) == map[]
  {
    assert RecordOk(store[j], names(store[j].memory.partition));
    ValidIsUnreserved(store[j].memory.metadata);
  }

  /** What an overwrite leaves of the memory it matched, or of the one it created for an identity. */
  ghost predicate Overwritten(t: Tables, key: Key, entries: seq<Entry>, outages: seq<Outage>, k: DedupKey,
      before: Fields, creator: Option<string>, m: Memory)
  {
    && m.content == k.content && m.scope == k.scope && EndsWith(t, entries, outages, k, before, m.metadata)
    && m.system.author == Some(key.name) && m.system.createdBy == creator
  }

  lemma PolicySigns(b: Batch, key: Key)
    requires b.stamp == Some(ImportStamp(key))
    ensures Signs(b, key.name)
  {
  }

  /** What the run leaves for an identity that lands. */
  lemma LandedEnds(t: Tables, store: Store, key: Key, entries: seq<Entry>, draws: seq<Draw>, outages: seq<Outage>,
      b: Batch, s: Import, k: DedupKey, before: Fields)
    returns (m: Memory)
    requires LawfulFolding(t) && |draws| == |entries| == |outages|
    requires Begins(t, store, key, entries, Overwrite, draws, outages, b, s)
    requires k in LandedKeys(t, entries, outages, |entries|)
    requires before == MetadataBefore(s.done.existing, k) && ReservedOf(before) == map[]
    ensures k in ImportTo(b, s, |entries|).done.existing && m == ImportTo(b, s, |entries|).done.existing[k]
    ensures Stores(ImportTo(b, s, |entries|).store, key.space, m)
    ensures k in s.done.existing ==> m.id == s.done.existing[k].id
    ensures
      Overwritten(t, key, entries, outages, k, before,
                  if k in s.done.existing then s.done.existing[k].system.createdBy else Some(key.name), m)
  {
    hide ImportTo, Good, LandedKeys, Smooth, Effect, EndsWith, WrittenKeys, Winning, ReservedOf, MetadataBefore, Signs,
      Stores, Sound, KeepsCreator;
    var n := |entries|;
    LandedAre(t, key, entries, Overwrite, draws, outages, n);
    LastWriterWins(b, s, n, k);
    WinningIs(t, key, entries, draws, outages, k, before);
    PolicySigns(b, key);
    var tr := TraceOf(b, s, n);
    InNameAlong(b, tr, n, k, key.name);
    m := tr[n].done.existing[k];
  }

  lemma MatchedEnds(t: Tables, store: Store, key: Key, entries: seq<Entry>, draws: seq<Draw>, outages: seq<Outage>,
      names: Signers, b: Batch, s: Import, j: nat)
    requires LawfulFolding(t) && |draws| == |entries| == |outages| && Healthy(store, names)
    requires Begins(t, store, key, entries, Overwrite, draws, outages, b, s)
    requires LastOf(store, key.space, j) && KeyOf(store[j].memory) in LandedKeys(t, entries, outages, |entries|)
    ensures Matched(t, key, entries, outages, store[j].memory, ImportTo(b, s, |entries|).store)
  {
    hide Begins, Healthy, LandedKeys, ImportTo, Overwritten, ReservedOf;
    LastIsIndexed(store, key.space, j);
    NothingReserved(store, names, j);
    StartsFrom(t, store, key, entries, Overwrite, draws, outages, b, s);
    var m := LandedEnds(t, store, key, entries, draws, outages, b, s, KeyOf(store[j].memory), store[j].memory.metadata);
  }

  lemma StartsFrom(t: Tables, store: Store, key: Key, entries: seq<Entry>, mode: Mode, draws: seq<Draw>,
      outages: seq<Outage>, b: Batch, s: Import)
    requires |draws| == |entries| == |outages| && Begins(t, store, key, entries, mode, draws, outages, b, s)
    ensures WellFormed(b) && |b.entries| == |entries| && s.store == store && s.done.existing == IndexOf(All(store, key.space))
  {
  }

  /** The memory, matched by an overwrite, is where it was, with the entry's metadata and the same creator. */
  ghost predicate Matched(t: Tables, key: Key, entries: seq<Entry>, outages: seq<Outage>, m: Memory, after: Store) {
    var found := Lookup(after, key.space, m.id);
    && found.Some?
    && Overwritten(t, key, entries, outages, KeyOf(m), m.metadata, m.system.createdBy, found.value.memory)
  }

  /** The memory that the entry's draw names was created by an overwrite for an identity it did not find. */
  ghost predicate CreatedFor(t: Tables, key: Key, entries: seq<Entry>, outages: seq<Outage>, draws: seq<Draw>, i: nat,
      after: Store)
    requires i < |entries| == |draws|
  {
    var found := Lookup(after, key.space, draws[i].id);
    && found.Some?
    && Overwritten(t, key, entries, outages, Identity(t, entries[i]), map[], Some(key.name), found.value.memory)
  }

  lemma NewEnds(t: Tables, store: Store, key: Key, entries: seq<Entry>, draws: seq<Draw>, outages: seq<Outage>,
      b: Batch, s: Import, i: nat)
    requires LawfulFolding(t) && |draws| == |entries| == |outages|
    requires Begins(t, store, key, entries, Overwrite, draws, outages, b, s)
    requires FirstNew(t, store, key.space, entries, outages, i)
    ensures i < |entries| && CreatedFor(t, key, entries, outages, draws, i, ImportTo(b, s, |entries|).store)
  {
    FirstCreates(t, store, key, entries, Overwrite, draws, outages, b, s, i);
    StartsFrom(t, store, key, entries, Overwrite, draws, outages, b, s);
    FirstIsNew(t, store, key.space, entries, outages, i);
    hide FirstNew, LandedKeys, ImportTo, Overwritten, Identity, Creates, Begins;
    StoredAre(store, key.space);
    assert ReservedOf(map[]) == map[];
    var m := LandedEnds(t, store, key, entries, draws, outages, b, s, Identity(t, entries[i]), map[]);
    DrawnId(t, store, key, entries, draws, outages, b, s, i);
  }

  lemma CreatedId(b: Batch, s: Import, i: nat)
    requires WellFormed(b) && i < |b.entries| && Creates(b, s.done.existing.Keys, i)
    ensures Valid(b, i) && NewOf(b, i).memory.id == b.draws[i].id
  {
    hide Check;
  }

  lemma DrawnId(t: Tables, store: Store, key: Key, entries: seq<Entry>, draws: seq<Draw>, outages: seq<Outage>,
      b: Batch, s: Import, i: nat)
    requires |draws| == |entries| == |outages| && i < |entries|
    requires Begins(t, store, key, entries, Overwrite, draws, outages, b, s) && Creates(b, s.done.existing.Keys, i)
    ensures
      var existing := ImportTo(b, s, |entries|).done.existing;
      EntryKey(b, i) in existing && existing[EntryKey(b, i)].id == draws[i].id
  {
    CreatedId(b, s, i);
    hide ImportTo, Creates, Effect, Smooth, EntryKey, Good, Sound, KeepsCreator, NewOf, Runs;
    var tr := TraceOf(b, s, |entries|);
    CreatesAt(b, tr, i);
    IdStays(b, tr, i + 1, |entries|, EntryKey(b, i));
  }

  lemma FirstIsNew(t: Tables, store: Store, p: string, entries: seq<Entry>, outages: seq<Outage>, i: nat)
    requires FirstNew(t, store, p, entries, outages, i)
    ensures i < |entries| && Identity(t, entries[i]) !in StoredKeys(store, p)
    ensures Identity(t, entries[i]) in LandedKeys(t, entries, outages, |entries|)
  {
    hide Identity;
    assert Lands(t, entries, outages, i);
  }

  lemma OverwriteCounts(t: Tables, store: Store, key: Key, entries: seq<Entry>, draws: seq<Draw>, outages: seq<Outage>,
      b: Batch, s: Import)
    requires LawfulFolding(t) && |draws| == |entries| == |outages|
    requires Begins(t, store, key, entries, Overwrite, draws, outages, b, s)
    ensures |ImportTo(b, s, |entries|).store| - |store| ==
      |LandedKeys(t, entries, outages, |entries|) - StoredKeys(store, key.space)|
  {
    hide ImportTo, Good, LandedKeys, StoredKeys, WrittenKeys, Smooth, Effect, All, IndexOf, Sound, KeepsCreator;
    LandedAre(t, key, entries, Overwrite, draws, outages, |entries|);
    StoredAre(store, key.space);
    var tr := TraceOf(b, s, |entries|);
    OverwriteCount(b, tr, |entries|, s.done.existing.Keys);
  }

  lemma OthersStay(t: Tables, store: Store, key: Key, entries: seq<Entry>, draws: seq<Draw>, outages: seq<Outage>,
      b: Batch, s: Import, j: nat)
    requires LawfulFolding(t) && |draws| == |entries| == |outages|
    requires Begins(t, store, key, entries, Overwrite, draws, outages, b, s)
    requires j < |store|
    requires !(LastOf(store, key.space, j) && KeyOf(store[j].memory) in LandedKeys(t, entries, outages, |entries|))
    ensures j < |ImportTo(b, s, |entries|).store| && ImportTo(b, s, |entries|).store[j] == store[j]
  {
    hide ImportTo, LandedKeys, WrittenKeys, Smooth, Sound, KeepsCreator;
    LandedAre(t, key, entries, Overwrite, draws, outages, |entries|);
    if Target(b, s, |entries|, store[j].memory) {
      OnlyLast(store, key.space, j);
    }
    OthersUntouched(b, s, |entries|, j);
  }

  /** The index holds, of an identity, no memory but the last. */
  lemma OnlyLast(store: Store, p: string, j: nat)
    requires UniqueIds(store) && j < |store| && store[j].memory.partition == p
    requires
      var index, k := IndexOf(All(store, p)), KeyOf(store[j].memory);
      k in index && index[k].id == store[j].memory.id
    ensures LastOf(store, p, j)
  {
    hide KeyOf, IndexOf, All, UniqueIds;
    var l := LastWith(store, p, j);
    LastIsIndexed(store, p, l);
    SameIdSamePlace(store, j, l);
  }

  lemma SameIdSamePlace(store: Store, j: nat, l: nat)
    requires UniqueIds(store) && j < |store| && l < |store| && store[j].memory.id == store[l].memory.id
    ensures j == l
  {
  }

  lemma {:induction false} LastWith(store: Store, p: string, j: nat) returns (l: nat)
    requires j < |store| && store[j].memory.partition == p
    ensures j <= l && LastOf(store, p, l) && KeyOf(store[l].memory) == KeyOf(store[j].memory)
    decreases |store| - j
  {
    hide KeyOf;
    l := j;
    if !LastOf(store, p, j) {
      var k :| j < k < |store| && store[k].memory.partition == p && KeyOf(store[k].memory) == KeyOf(store[j].memory);
      l := LastWith(store, p, k);
    }
  }

  /** A request to import as "overwrite": for each identity that lands, the last stored memory that has it
      keeps its id, content, scope and creator, takes the metadata of the last entry that gives any, and is
      signed by the key; if none is stored, one is created. No other record changes or moves. */
  lemma OverwriteRequest(t: Tables, store: Store, key: Key, entries: seq<Entry>, draws: seq<Draw>,
      outages: seq<Outage>, names: Signers, after: Store, r: Result<Outcome>)
    requires LawfulFolding(t) && Requested(store, key, entries, draws, outages, names)
    requires ImportMemories(t, store, key, entries, "overwrite", draws, outages) == (after, r)
    ensures r.Ok?
    ensures |after| - |store| == |LandedKeys(t, entries, outages, |entries|) - StoredKeys(store, key.space)|
    ensures forall j: nat {:trigger LastOf(store, key.space, j)} ::
      LastOf(store, key.space, j) && KeyOf(store[j].memory) in LandedKeys(t, entries, outages, |entries|) ==>
        Matched(t, key, entries, outages, store[j].memory, after)
    ensures forall i: nat {:trigger FirstNew(t, store, key.space, entries, outages, i)} ::
      FirstNew(t, store, key.space, entries, outages, i) ==>
        i < |entries| && CreatedFor(t, key, entries, outages, draws, i, after)
    ensures forall j: nat {:trigger LastOf(store, key.space, j)} {:trigger store[j]} ::
      j < |store| && !(LastOf(store, key.space, j) && KeyOf(store[j].memory) in LandedKeys(t, entries, outages, |entries|)) ==>
        j < |after| && after[j] == store[j]
  {
    assert forall j: nat {:trigger LastOf(store, key.space, j)} :: LastOf(store, key.space, j) ==> j < |store|;
    hide ImportTo, ImportMemories, Begins, FirstNew, LandedKeys, StoredKeys, LastOf, Matched, CreatedFor, Healthy, All;
    var b, s := RequestRuns(t, store, key, entries, "overwrite", Overwrite, draws, outages, names);
    OverwriteCounts(t, store, key, entries, draws, outages, b, s);
    forall j: nat |
      j < |store| && LastOf(store, key.space, j) && KeyOf(store[j].memory) in LandedKeys(t, entries, outages, |entries|)
      ensures Matched(t, key, entries, outages, store[j].memory, after)
    {
      MatchedEnds(t, store, key, entries, draws, outages, names, b, s, j);
    }
    forall i: nat | FirstNew(t, store, key.space, entries, outages, i)
      ensures i < |entries| && CreatedFor(t, key, entries, outages, draws, i, after)
    {
      NewEnds(t, store, key, entries, draws, outages, b, s, i);
    }
    forall j: nat |
      j < |store| && !(LastOf(store, key.space, j) && KeyOf(store[j].memory) in LandedKeys(t, entries, outages, |entries|))
      ensures j < |after| && after[j] == store[j]
    {
      OthersStay(t, store, key, entries, draws, outages, b, s, j);
    }
  }

  // ---------- What the caller is told ----------

  ghost predicate Has(store: Store, p: string, id: string, k: DedupKey) {
    Lookup(store, p, id).Some? && KeyOf(Lookup(store, p, id).value.memory) == k
  }

  /** What is said of an entry: why it failed, or, of the memory that now has its identity, whether it was
      there already, or was created or updated for the entry. */
  ghost predicate ToldOf(t: Tables, p: string, entries: seq<Entry>, name: string, draws: seq<Draw>,
      outages: seq<Outage>, after: Store, o: Outcome, i: nat)
    requires i < |entries| == |draws| == |outages|
  {
    if !GoodEntry(t, entries[i]) then exists e :: Failed(i, e) in o.errors && !e.BackendFailure?
    else
      || (outages[i].WriteDown? && Failed(i, BackendFailure(outages[i].status)) in o.errors)
      || exists id :: Has(after, p, id, Identity(t, entries[i])) &&
           if id == draws[i].id then Imported(id, i, Created) in o.imported
           else if name == "skip" then Skipped(i, id) in o.skipped
           else Imported(id, i, Updated) in o.imported
  }

  /** Every entry of a request is reported once, by its position, as what became of it. */
  lemma RequestReport(t: Tables, store: Store, key: Key, entries: seq<Entry>, name: string, draws: seq<Draw>,
      outages: seq<Outage>, names: Signers, after: Store, r: Result<Outcome>)
    requires LawfulFolding(t) && Requested(store, key, entries, draws, outages, names)
    requires name in {"skip", "overwrite"}
    requires ImportMemories(t, store, key, entries, name, draws, outages) == (after, r)
    ensures r.Ok? && |r.value.imported| + |r.value.skipped| + |r.value.errors| == |entries|
    ensures forall i :: 0 <= i < |entries| ==>
      ToldOf(t, key.space, entries, name, draws, outages, after, r.value, i)
  {
    hide ImportTo, ImportMemories, Begins, Healthy, All, ToldOf;
    var mode := if name == "skip" then Skip else Overwrite;
    var b, s := RequestRuns(t, store, key, entries, name, mode, draws, outages, names);
    AllAccounted(t, store, key, entries, mode, draws, outages, b, s);
    forall i | 0 <= i < |entries|
      ensures ToldOf(t, key.space, entries, name, draws, outages, after, r.value, i)
    {
      EntryTold(t, store, key, entries, name, mode, draws, outages, b, s, i);
    }
  }

  lemma AllAccounted(t: Tables, store: Store, key: Key, entries: seq<Entry>, mode: Mode, draws: seq<Draw>,
      outages: seq<Outage>, b: Batch, s: Import)
    requires |draws| == |entries| == |outages| && mode != Duplicate
    requires Begins(t, store, key, entries, mode, draws, outages, b, s)
    ensures Accounted(ImportTo(b, s, |entries|).done) == |entries|
  {
    hide ImportTo, Smooth, Sound, KeepsCreator;
    IndexStaysCoherent(b, s, |entries|);
    EveryEntryAccounted(b, s, |entries|);
  }

  lemma EntryTold(t: Tables, store: Store, key: Key, entries: seq<Entry>, name: string, mode: Mode,
      draws: seq<Draw>, outages: seq<Outage>, b: Batch, s: Import, i: nat)
    requires LawfulFolding(t) && |draws| == |entries| == |outages| && i < |entries|
    requires (name == "skip" && mode == Skip) || (name == "overwrite" && mode == Overwrite)
    requires Begins(t, store, key, entries, mode, draws, outages, b, s)
    ensures
      var end := ImportTo(b, s, |entries|);
      ToldOf(t, key.space, entries, name, draws, outages, end.store, end.done.outcome, i)
  {
    hide ImportTo, Good, Smooth, Reports, ToldOf, Sound, KeepsCreator, Identity, GoodEntry, Valid, EntryKey, NewOf, Coherent;
    var end := ImportTo(b, s, |entries|);
    EntryFacts(t, key, entries, mode, draws, outages, i);
    EachReported(b, s, |entries|, i);
    if Valid(b, i) && EntryKey(b, i) in end.done.existing {
      IndexedIsHeld(b, s, |entries|, EntryKey(b, i));
    }
    ReportIsTold(t, key.space, entries, name, draws, outages, b, end, i);
  }

  lemma IndexedIsHeld(b: Batch, s: Import, n: nat, k: DedupKey)
    requires Sound(b) && b.mode != Duplicate && n <= |b.entries| && Good(b, s, 0)
    requires Smooth(b, s.done.existing.Keys, n) && k in ImportTo(b, s, n).done.existing
    ensures Has(ImportTo(b, s, n).store, b.partition, ImportTo(b, s, n).done.existing[k].id, k)
  {
    hide ImportTo, Smooth, All, IndexOf;
    IndexStaysCoherent(b, s, n);
    var end := ImportTo(b, s, n);
    Indexed(All(end.store, b.partition), k);
    ListedIsFound(end.store, b.partition, end.done.existing[k]);
  }

  lemma ReportIsTold(t: Tables, p: string, entries: seq<Entry>, name: string, draws: seq<Draw>, outages: seq<Outage>,
      b: Batch, end: Import, i: nat)
    requires WellFormed(b) && i < |entries| == |b.entries| && b.draws == draws && b.outages == outages
    requires (name == "skip" && b.mode == Skip) || (name == "overwrite" && b.mode == Overwrite)
    requires Valid(b, i) <==> GoodEntry(t, entries[i])
    requires Valid(b, i) ==> EntryKey(b, i) == Identity(t, entries[i])
    requires Reports(b, end.done.outcome, end.done.existing, i)
    requires Valid(b, i) && EntryKey(b, i) in end.done.existing ==>
      Has(end.store, p, end.done.existing[EntryKey(b, i)].id, EntryKey(b, i))
    ensures ToldOf(t, p, entries, name, draws, outages, end.store, end.done.outcome, i)
  {
    hide Identity, GoodEntry, EntryKey, Has;
    if !Valid(b, i) {
      assert !Check(b.validate, b.entries[i]).error.BackendFailure?;
    } else if !(outages[i].WriteDown? && Failed(i, BackendFailure(outages[i].status)) in end.done.outcome.errors) {
      assert Has(end.store, p, end.done.existing[EntryKey(b, i)].id, Identity(t, entries[i]));
    }
  }
}
