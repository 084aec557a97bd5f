# memcp, modelled and proved

memcp serves memories to agents: texts with a scope, metadata, an author and a history, each in the space that
the caller's key is granted. This project models four parts of it and proves what they are for.

**The keyword scorer** (`CharTables`, `Tokenizer`, `FastTokenizer`, `Units`, `TokenLaws`, `Boundaries`, `Groups`,
`Score`, `Relevance`). A state machine turns text into words, per-character runs and boundaries; a fast tokenizer
splits on whitespace and takes an ASCII shortcut; a score mixes a phrase shortcut with shares of pairs. The fast
tokenizer is proved equal to the machine on every text, and the machine to a description of tokens that has no
machine in it: words, dictionary stretches, single characters and the spaces between. Every score is given exactly,
by the positions of what was asked for and found, and more found is proved to rank higher.

**The backends** (`Contract`, `InMemory`, `Sqlite`, `Bisimulation`, `Mem0Api`, `Mem0`, `Mem0Runs`, `Portability`). `Contract` says once what a
backend does: an ordered list of records, each a memory with its history. The two dicts of the in-memory backend and
the two tables of the SQLite backend are classes whose methods change them in place, each proved to act as that list
does. The mem0 adapter works on a global by-id server that merges metadata and cannot delete a key; what it shows is
proved to follow plain set-and-remove writes, with no other partition's record touched.

**The transfer engine** (`Reading`, `Transfer`, `Dedup`, `Misses`, `Imports`,
`ImportRecords`, `Migration`). A reader that follows cursors up to
a cap, an import loop that keeps a dedup index in step with the store it writes to, in three conflict modes and with
failures on the way, and migration on the same loop.

**Policy over runs** (`Values`, `Metadata`, `JsonText`, `ScopeRules`, `ScopeMeanings`, `Policy`, `Requests`,
`Separation`, `Lookups`, `Attribution`, `PolicyImports`, `PolicyRuns`, `Lifetimes`, `Authorship`, `Searching`,
`Answers`, `Reimport`, `ImportRequests`, `PolicyMigration`, `SkipMigrations`). Each operation is a step by a key
with a name, a space and a relation. The results are about every run of requests by any keys: spaces do not interfere,
each memory is explained by its history, attribution and metadata rules hold throughout, and no request is answered
with an internal error.

Each object of the source that changes in place is a class here; its methods' postconditions give the new state as a
function of the old one, and the theorems are about those functions.

## What is taken as given

- The tables that Python and ICU bring (alphanumeric, mark, format, digit and upper-case classes, NFKC, lowercasing,
  dictionary word breaks) are the fields of `CharTables.Tables`, any functions at all that meet `CharTables.Lawful`:
  whitespace is in none of the classes, ASCII characters are alphanumeric exactly when letters or digits and never
  marks or format characters, ASCII text folds as ASCII does, and no folded text holds an ASCII capital.
- Ids and times are parameters. Wherever a create draws an id, the id is required to be new, as `uuid4` is relied on
  to make it. How the store fails an import entry is a parameter as well.
- JSON columns read back what was written to them; the encoder and the decoder are otherwise arbitrary.
- SQLite's unordered `SELECT` in search (memcp/backends/sqlite.py:181-183) reads rows in rowid order.
- The mem0 server is the class `Mem0Api.Mem0Server`. POST reads the six fields the adapter writes, refuses a body
  whose messages, flag or metadata it cannot read (422), and stores one record for a text to be kept as it is; how it
  reads a text as a flag is any function at all. PUT replaces the text and merges the metadata shallowly, DELETE drops
  the id, GET filters by user, agent and run, in the order of the POSTs, and returns at most `top_k` records.
- Scores are real numbers, not floating point.
- A JSON number is known by the text `str` gives it and by whether it is finite; a list or an object carries the text
  `str` gives it, which is what a scope stores.

## What became of the code's own promises

- A comment in `tokenize` promises the result of the general form (memcp/backends/keyword.py:170-171). It holds,
  boundaries included, whatever the dictionaries return: `FastTokenizer.Tokenize`.
- The phrase shortcut finds more than the formula does exactly when nothing in the query counts, such as a query of
  one short word: `Score.PhraseShortcutAgrees`.
- The dedup index is not always in step with the store. It is after every entry of a batch if and only if no entry
  slips before one ends the import (`Dedup.IndexCoherentIff`), where an entry slips when it is one to create and its
  read back fails or its scope holds a null. Both can be told from the batch and the identities indexed at the start.
  For one create the same is `Dedup.CreateCoherentIff`.
- A memory is stored under the identity its entry was looked up by if and only if its scope holds no null
  (`Dedup.IdentityKeptIff`): the dedup key leaves a null out and the store keeps it as the text `None`. Only a caller
  without a scope validator can import one (`PolicyImports.PolicyBatchIsSound`). Content `x` with the scope
  `{"run_id": null}` is stored again by the next skip import: `Misses.NullScopeExample`, `Misses.NullScopeIsStoredAgain`.
- After a create whose read back fails, the same entry again in the batch is stored twice: `Misses.StoredTwice`.
- The mem0 adapter writes scope keys over its own body. An add sends what it was given, to be kept as it is, if and
  only if no scope key is `messages`, `metadata` with no metadata to send, or `infer` with anything but a text for
  "no" (`Mem0.SentAsGivenIff`); with the scope `{"messages": "y"}` the content is not sent (`Mem0.ContentNotSent`).
  Policy refuses such keys (`Portability.AddIsPortable`).

## Model

| member | source | states |
|---|---|---|
| `Tokenizer.Machine.Feed` | memcp/backends/keyword.py:139-165 | One character read by the object with its `tokens`, `word`, `segment` and `gap` is one step of the machine. |
| `Tokenizer.TokensOfText` | memcp/backends/keyword.py:110-166 | The loop over a text, flushed at the end, yields the machine's tokens. |
| `FastTokenizer.Tokenize` | memcp/backends/keyword.py:169-182 | For every text, the piecewise tokenizer with its ASCII shortcut returns exactly what the character machine returns on the whole folded text, boundaries included, whatever the dictionaries return. |
| `FastTokenizer.RunIsJoinPieces` | memcp/backends/keyword.py:119-182 | After a gap, reading whitespace-separated text character by character is joining the tokens of its pieces. |
| `FastTokenizer.AsciiTokensAgree` | memcp/backends/keyword.py:170-173 | On lowercased ASCII the machine's tokens are the maximal `[a-z0-9]` runs. |
| `Units.TokensAreUnits` | memcp/backends/keyword.py:106-166 | For every text, the tokens are its units: each letter with the letters and accents after it, each stretch of segmented script by its dictionary words, each unspaced letter alone, in order, with a boundary where a run token and another are kept apart; ignored characters count for nothing. |
| `TokenLaws.WordIsOneToken` | memcp/backends/keyword.py:153-160 | A letter of any alphabet with the letters and marks that follow it is exactly one token, the text itself. |
| `TokenLaws.IgnoredChangesNothing` | memcp/backends/keyword.py:135-137 | A joiner or soft hyphen other than the zero-width space, anywhere, changes no token. |
| `TokenLaws.RunIsItsCharacters` | memcp/backends/keyword.py:150-154 | The tokens of unspaced script are its letters and marks, each by itself, with no boundary. |
| `TokenLaws.WordAgainstRun` | memcp/backends/keyword.py:113-156 | A word written against a run, on either side, is one token beside the run's, with no boundary. |
| `TokenLaws.StretchIsItsWords` | memcp/backends/keyword.py:96-104 | A stretch of segmented script is the dictionary's words of the whole stretch that hold an alphanumeric character. |
| `TokenLaws.BreakSeparates` | memcp/backends/keyword.py:142-165 | Any other character, and a repetition or abbreviation mark, ends what stands before it: the tokens on either side are those of each side alone, with a boundary where one that meets it is a run token. |
| `Boundaries.TokensAreWellSpaced` | memcp/backends/keyword.py:119-124 | No boundary is first, last or next to another, and each stands beside a run token, so `_unspaced` never indexes outside the list. |
| `Boundaries.UnspacedIsIdempotent` | memcp/backends/keyword.py:201-208 | Closing up a second time changes nothing. |
| `Boundaries.ClosingChangesNothing` | memcp/backends/keyword.py:201-208 | Taking out one boundary between a word and a run beforehand leads to the same closed-up tokens. |
| `Boundaries.UnspacedPairs` | memcp/backends/keyword.py:201-208 | Every two tokens that stand together still do after closing up. |
| `Groups.WordsAndRuns` | memcp/backends/keyword.py:185-198 | The loop that opens and extends groups computes the words and the runs. |
| `Groups.GroupsPartition` | memcp/backends/keyword.py:189-197 | The groups, read in order, hold every token but the boundaries exactly once. |
| `Groups.HeldTextsAre` | memcp/backends/keyword.py:211-214 | The texts a content holds are exactly two tokens standing together, one of them a run token, or a run token alone. |
| `Groups.GroupPairIsPair` | memcp/backends/keyword.py:190-197 | Two tokens together in a group stood together in the text. |
| `Groups.PairIsGroupPair` | memcp/backends/keyword.py:190-197 | Two adjoining tokens of the text, one of them a run token, stand together in some group. |
| `Score.Score` | memcp/backends/keyword.py:245-294 | The scorer over the fast tokenizer returns the specified score. |
| `Score.AddRunCredit` | memcp/backends/keyword.py:289-291 | The crediting loop adds each run's share of held pairs to the word credit. |
| `Score.CountedAre` | memcp/backends/keyword.py:262-281 | A query word counts if and only if it is long, or, in a query with a run or a segmented word, it is segmented, written against a run, or marked by a capital or a digit. |
| `Score.GradedMeaning` | memcp/backends/keyword.py:284-294 | The graded score is a hit if and only if something counted is found, is then in (0, 1], and is 1 if and only if every counted word matches and every pair of every run is held. |
| `Score.ScoreInRange` | memcp/backends/keyword.py:245-294 | A score is absent or in (0, 1]; it is never 0. |
| `Score.PhraseShortcutAgrees` | memcp/backends/keyword.py:256-260 | When the query's tokens are a contiguous part of the content's, the graded formula also gives 1, unless nothing in the query counts, when it gives no hit. |
| `Relevance.ScoreIs` | memcp/backends/keyword.py:245-294 | For every query and content: a query that is a part of the content scores 1; otherwise the score times the number of words and runs asked for is the number of positions of words found plus each run's number of held pairs over its pairs, and there is no hit exactly when that is nothing. |
| `Relevance.MoreFoundScoresHigher` | memcp/backends/keyword.py:262-294 | Content that holds every word and pair of the query that other content holds scores at least as high, and strictly higher if it holds one more of either. |
| `Score.SpacingDoesNotMatter` | memcp/backends/keyword.py:201-208 | Contents whose tokens differ only in boundaries between a word and a run get the same graded score for every query. |
| `Ranking.RankSorts` | memcp/backends/in_memory.py:122-123 | A ranking is in descending order and holds exactly the hits given. |
| `Ranking.RankIsStable` | memcp/backends/in_memory.py:122-123 | Hits of one score keep the order they came in. |
| `Ranking.RankIsUnique` | memcp/backends/in_memory.py:122-123 | No other descending arrangement keeps ties in order. |
| `Contract.CollectHits` | memcp/backends/in_memory.py:110-121 | The scoring loop yields the matching memories with their scores, in stored order. |
| `InMemory.InMemoryBackend.Add` | memcp/backends/in_memory.py:60-96 | The dicts afterwards show the old list with one record at the end, or the call is refused and nothing changes. |
| `InMemory.InMemoryBackend.Get` | memcp/backends/in_memory.py:164-169 | The memory of the list with that id and partition, or none. |
| `InMemory.InMemoryBackend.Update` | memcp/backends/in_memory.py:173-209 | The one owned record is rewritten where it stands, with one history entry more; otherwise a 400 or 404 and no change. |
| `InMemory.InMemoryBackend.Delete` | memcp/backends/in_memory.py:125-134 | The one owned record goes, with its history; otherwise a 404 and no change. |
| `InMemory.InMemoryBackend.DeleteAll` | memcp/backends/in_memory.py:136-149 | Exactly the partition's records in the scope go, and the count says how many. |
| `InMemory.InMemoryBackend.ListMemories` | memcp/backends/in_memory.py:211-229 | A page of the partition's memories in the scope, in insertion order. |
| `InMemory.InMemoryBackend.Search` | memcp/backends/in_memory.py:98-123 | The first `limit` of the ranking of the partition's hits in the scope. |
| `InMemory.InMemoryBackend.History` | memcp/backends/in_memory.py:231-246 | The owned record's history, oldest first, or a 404. |
| `Sqlite.SqliteBackend.Add` | memcp/backends/sqlite.py:123-165 | The two tables afterwards show the same list as the in-memory backend's add. |
| `Sqlite.SqliteBackend.Get` | memcp/backends/sqlite.py:255-262 | The row owned by the partition, decoded. |
| `Sqlite.SqliteBackend.Update` | memcp/backends/sqlite.py:266-308 | The row rewritten and one event appended to the global sequence show as the same rewritten record. |
| `Sqlite.SqliteBackend.Delete` | memcp/backends/sqlite.py:197-208 | Deleting the row and its events shows as the record gone. |
| `Sqlite.SqliteBackend.DeleteAll` | memcp/backends/sqlite.py:210-227 | Deleting the doomed ids from both tables shows as exactly the records in scope gone, and the count agrees. |
| `Sqlite.SqliteBackend.ListMemories` | memcp/backends/sqlite.py:310-331 | A page of the partition's rows in the scope, in rowid order. |
| `Sqlite.SqliteBackend.Search` | memcp/backends/sqlite.py:167-195 | The same ranking as the in-memory backend's. |
| `Sqlite.SqliteBackend.History` | memcp/backends/sqlite.py:333-353 | The id's events in `seq` order are the record's own history. |
| `Bisimulation.RunOnBoth` | memcp/backends/base.py:85-90 | From dicts and tables that show the same list, every sequence of calls of any kind gets the same replies from both backends and leaves them showing the same list. |
| `Mem0.Mem0Backend.Add` | memcp/backends/mem0/adapter.py:189-231 | With `infer=False`, and for every scope that does not turn extraction on: a garbled body is refused and changes nothing; otherwise what is shown gains the new memory with its system fields, created now and not yet changed, listed last; no other partition's record changes. |
| `Mem0.Mem0Backend.Get` | memcp/backends/mem0/adapter.py:304-311 | The server's record, parsed, only when its user is the partition. |
| `Mem0.Mem0Backend.Update` | memcp/backends/mem0/adapter.py:315-353 | What is shown changes by the plain patch, a PUT or none; the creation time stays, the change time is now unless nothing was sent; no other record changes. |
| `Mem0.Mem0Backend.Delete` | memcp/backends/mem0/adapter.py:253-260 | Only an owned record is deleted from the global server. |
| `Mem0.Mem0Backend.ListMemories` | memcp/backends/mem0/adapter.py:355-382 | A page over at most the ceiling of the records the server lists for the filters, marked incomplete when the response was full. |
| `Mem0.ServerListsExactly` | memcp/backends/mem0/adapter.py:364-379 | What the server lists is exactly the partition's records that pass the filters, parsed, each once. |
| `Mem0.FilteredIff` | memcp/backends/mem0/adapter.py:364-379 | For the scope keys that mem0 has, its filter selects the memories that the plain backends' filter selects. |
| `Mem0.PayloadReads` | memcp/backends/mem0/adapter.py:200-216 | For every scope: what the server reads in the body that the adapter builds. |
| `Mem0.SentAsGivenIff` | memcp/backends/mem0/adapter.py:200-216 | The body asks for exactly the given content, scope and metadata to be kept as they are if and only if no scope key is `messages`, `metadata` with none to send, or `infer` with a text other than one for "no". |
| `Mem0.ContentNotSent` | memcp/backends/mem0/adapter.py:200-207 | A scope for which the content is not sent. |
| `Mem0.MergeShowsPatch` | memcp/backends/mem0/adapter.py:331-343 | Merging set keys and null tombstones into stored metadata shows exactly the patch: set, then removed, with tombstones never shown. |
| `Mem0.MergeKeepsSystem` | memcp/backends/mem0/adapter.py:331-343 | The system fields after the merge are the ones given, or the old ones when none were. |
| `Mem0.NothingToPut` | memcp/backends/mem0/adapter.py:344-347 | When the body would be empty, the patch would change nothing that is shown. |
| `Mem0.SystemRoundTrip` | memcp/backends/mem0/adapter.py:89-108 | System fields written into metadata read back as they were. |
| `Mem0.CeilingIsReported` | memcp/backends/mem0/adapter.py:364-382 | Reading a partition through the ceiling misses something if and only if the server holds as many of its records as the ceiling or more than the limit; a reading that misses nothing returns exactly the partition's records, each once. |
| `Mem0Runs.RunMem0` | memcp/backends/mem0/adapter.py:189-353 | For every sequence of adds, updates and deletes that turns no extraction on, what is shown and which calls fail is what plain set-and-remove writes give, and a partition that no call names keeps its records untouched. |
| `Mem0Runs.BackendsAgree` | memcp/backends/base.py:85-90 | Every sequence of portable writes (a partition that mem0 can match, declared scope keys with concrete values, no null in metadata) is refused or taken alike by all three backends, and leaves the list of the other two, seen without times and histories, as the plain writes leave mem0. |
| `Portability.AddIsPortable` | memcp/policy/__init__.py:152-169 | An add that passes policy's checks is portable if and only if mem0 can match the space. |
| `Portability.UpdateIsPortable` | memcp/policy/__init__.py:232-252 | So is an update. |
| `Portability.ImportIsPortable` | memcp/policy/__init__.py:353-371 | So are the creates and the overwrites of a policy import, for every entry it accepts. |
| `Text.IntRoundTrip` | memcp/types.py:226-237 | A cursor written by `str` reads back by `int` as the same position. |
| `Reading.FollowEnds` | memcp/policy/transfer.py:89-109 | Against any backend whatever, reading ends after at most limit + 1 calls, however it ends, each for at least one memory; if it succeeds, with at most `limit` memories, all in the space. |
| `Reading.NothingMissed` | memcp/policy/transfer.py:92-109 | Against any backend whose cursors stand for positions, "nothing missed" means the whole list was read, in order, and no page was marked incomplete. |
| `Reading.PagerKeepsCursors` | memcp/types.py:226-237 | Paging by position meets that cursor contract. |
| `Reading.FollowPager` | memcp/policy/transfer.py:89-109 | Over a paged list, reading misses something if and only if the list is longer than the limit or marked incomplete, and fails if and only if what it reads holds a memory of another space. |
| `Reading.PagesCoverList` | memcp/types.py:226-237 | Whatever the page size, following the cursors shows every memory once, in order. |
| `Reading.ListAll` | memcp/policy/transfer.py:89-109 | The reading loop over the in-memory backend computes exactly that reading. |
| `Transfer.CheckEntry` | memcp/policy/transfer.py:198-227 | The checks of one entry, in their order, with the error of the first that fails. |
| `Transfer.ImportEntry` | memcp/policy/transfer.py:198-286 | One pass of the import loop over the object and its index is one step of the specified import. |
| `Transfer.ImportPayload` | memcp/policy/transfer.py:156-293 | The whole import leaves the store, and returns the outcome, that the specified steps give. |
| `Dedup.IndexStaysCoherent` | memcp/policy/transfer.py:193-286 | In skip and overwrite modes, as long as no entry slips or ends the import, the index after every entry equals the one that reading the store again would build, its keys are those indexed and written, and nothing is raised; failed writes do not matter. |
| `Dedup.IndexCoherentIff` | memcp/policy/transfer.py:193-286 | For every batch whose stamp names the space: the index is exact after every entry if and only if no entry slips before one ends the import. |
| `Dedup.StartIsCoherent` | memcp/policy/transfer.py:132-145 | A complete first read starts the import in step with the store. |
| `Dedup.CreateCoherentIff` | memcp/policy/transfer.py:262-286 | Creating keeps the index exact if and only if the write fails, the store refuses, or the memory reads back and its scope holds no null. |
| `Dedup.IdentityKeptIff` | memcp/policy/transfer.py:42-59 | A memory is stored under the identity its entry was looked up by if and only if its scope holds no null. |
| `Misses.NullScopeIsStoredAgain` | memcp/policy/transfer.py:42-51 | An entry whose scope holds a null is created by a skip import, and again by the next, with the index read afresh. |
| `Misses.NullScopeExample` | memcp/policy/transfer.py:42-51 | Content `x` with scope `{"run_id": null}`, imported twice into an empty store, is stored twice. |
| `Misses.StoredTwice` | memcp/policy/transfer.py:279-286 | After a create whose read back fails, the same entry again is stored a second time. |
| `Imports.EveryEntryAccounted` | memcp/policy/transfer.py:198-286 | In every mode and whatever fails, each entry lands in exactly one of imported, skipped and errors. |
| `Imports.SkipImport` | memcp/policy/transfer.py:198-286 | A skip import changes no stored record, creates one memory for each distinct new identity among the valid entries whose write goes through, indexes exactly those, and keeps identities distinct if they were. |
| `Imports.SkipImportIsIdempotent` | memcp/policy/transfer.py:198-286 | A second import, with the index read afresh, creates exactly one memory per identity that it writes, the first did not, and was not stored: the same batch again brings only what had failed, or changes nothing. |
| `Imports.LastWriterWins` | memcp/policy/transfer.py:236-260 | Each matched or created memory ends stored with the metadata of the last entry written for its identity that carries any, plus reserved keys it had; a matched one keeps its id and creator. |
| `Imports.OthersUntouched` | memcp/policy/transfer.py:236-260 | An overwrite import leaves every stored record that no written entry names as it was, history and place included. |
| `Imports.DuplicateImport` | memcp/policy/transfer.py:198-286 | Whatever fails, a duplicate import leaves every stored record in place and adds one per valid entry whose write goes through, in order; it reports those that read back. |
| `ImportRecords.EachReported` | memcp/policy/transfer.py:198-286 | Every entry of a smooth import is in the report under its own position: its failure, the id it was skipped for, or the id it was imported as and whether that was a create. |
| `Reimport.SecondImportDoesNothing` | memcp/policy/__init__.py:330-373 | A client's second skip import of a batch brings exactly one memory per identity that failed to be written the first time and now is not, and changes no other record; if no write failed, it changes and reports nothing. |
| `ImportRequests.SkipRequest` | memcp/policy/__init__.py:330-373 | A request to import as "skip" keeps every record and creates one for each identity that lands and is not stored: the record of the first entry that lands with it, field by field. |
| `ImportRequests.OverwriteRequest` | memcp/policy/__init__.py:330-373 | A request to import as "overwrite": for each identity that lands, the last stored memory with it keeps id, content, scope and creator, takes the last metadata given and the key's name as author; one is created only where none is stored; no other record changes or moves. |
| `ImportRequests.DuplicateRequest` | memcp/policy/__init__.py:330-373 | A request to import as "duplicate" keeps the store as a prefix and adds, in order, exactly the record of each entry that lands. |
| `ImportRequests.OtherModesRefused` | memcp/policy/__init__.py:345-352 | Any other mode, an empty batch, one over the cap, and a key that may only read are refused, and nothing changes. |
| `ImportRequests.RequestReport` | memcp/policy/transfer.py:198-286 | Each entry of a request is reported once, by position: why it failed, or the memory that now has its identity and whether it was there, created or updated. |
| `Migration.Migrate` | memcp/policy/transfer.py:296-365 | Migration between two backend objects, or two partitions of one, leaves the target, and reports, what the specified copy gives; refused plans leave it as it was. |
| `Migration.MigrationConserves` | memcp/policy/transfer.py:296-365 | Exported = imported + skipped + errors, in every mode and whatever the target fails on. |
| `Migration.DuplicateMigration` | memcp/policy/transfer.py:296-365 | In duplicate mode, with any scope rule and whatever fails, the target keeps its records and gains, in source order, a copy of each valid source memory whose write goes through: content and metadata equal, scope as the rule leaves it, author equal to the author and creator to the creator, space the target's. |
| `PolicyMigration.CompleteMigration` | memcp/policy/transfer.py:296-365 | From a source that policy wrote, within the limit, every memory is copied and no error is reported. |
| `PolicyMigration.NamelessIsRefused` | memcp/policy/transfer.py:320-337 | A plan without an operator, or with a partition that is blank or `*`, is refused before anything is read or written. |
| `SkipMigrations.SkipMigration` | memcp/policy/transfer.py:296-365 | A skip migration keeps the target's records, adds one per identity of the source that the target lacks, and leaves the target with every identity of the source. |
| `SkipMigrations.SkipCopies` | memcp/policy/transfer.py:340-343 | What it adds for an identity is the copy of the first source memory that has it. |
| `SkipMigrations.SkipMigrationTwice` | memcp/policy/transfer.py:296-365 | Migrating again changes nothing and imports nothing. |
| `Metadata.Measure` | memcp/policy/metadata.py:44-45 | The measuring computes the UTF-8 length of the compact JSON text, nested values included, in whatever order the keys come. |
| `Metadata.CheckSize` | memcp/policy/metadata.py:48-61 | Accepts exactly what is within the cap or no larger than what is stored. |
| `JsonText.SizeIsLength` | memcp/policy/metadata.py:44-45 | The size is the UTF-8 length of every compact JSON text of the metadata, escapes and nested values included, whatever the order of the keys. |
| `Metadata.RemovalAlwaysAccepted` | memcp/policy/metadata.py:48-61 | A patch that only removes keys passes the size check whatever is stored. |
| `Metadata.PatchOrdersAgree` | memcp/policy/metadata.py:72-76 | What policy measures, removing then setting, is what the backends store, setting then removing. |
| `Metadata.PatchIsMergePatch` | memcp/policy/metadata.py:64-69 | An update's metadata argument acts as a JSON merge patch (section 2 of RFC 7396) on one flat object. |
| `Metadata.AcceptedUpdate` | memcp/policy/__init__.py:240-247 | An accepted update keeps valid metadata valid, and its size at most the larger of the cap and what it was. |
| `ScopeRules.NormalizeIs` | memcp/policy/scope.py:21-26 | A normalized agent name is the lowercased name's `[a-z0-9]` words joined by single hyphens. |
| `ScopeRules.NormalizeIsIdempotent` | memcp/policy/scope.py:24-26 | Normalizing twice is normalizing once. |
| `ScopeRules.ValidateScope` | memcp/policy/scope.py:29-102 | The loop over a scope accepts, cleans or refuses it exactly as specified, with the code of the first rule broken. |
| `ScopeRules.AcceptedScope` | memcp/policy/scope.py:29-102 | An accepted scope has only declared keys, no nested filter, no user id and no value that could be read as "any". |
| `ScopeMeanings.AcceptedIff` | memcp/policy/scope.py:29-102 | A scope is accepted if and only if it is absent, or an object of at most ten declared keys, without `user_id` or a nested filter, each with a value in range: a flag, a finite number, plain text without spaces around it (a run id without any), or an agent name with a word in it. |
| `ScopeMeanings.CleanedForm` | memcp/policy/scope.py:66-102 | An accepted scope keeps exactly the caller's keys and every value, but for the text of an agent name, which becomes its words joined by hyphens. |
| `ScopeMeanings.RefusedAs` | memcp/policy/scope.py:40-101 | Which code a refused scope is refused with. |
| `ScopeMeanings.ScopesMeetIff` | memcp/policy/__init__.py:88-103 | A memory added under one scope is listed under another, and deleted by it, if and only if every key asked for was given at the add with a value that is filed alike. |
| `ScopeMeanings.RunsMeet` | memcp/policy/scope.py:85-95 | A memory added under one run is listed under another, and deleted by it, if and only if they are the same run, also with an agent beside it. |
| `Policy.PolicyLayer.Add` | memcp/policy/__init__.py:144-177 | Adds, or refuses with the error of the first check that fails and changes nothing. |
| `Policy.PolicyLayer.Get` | memcp/policy/__init__.py:203-216 | A memory of the key's own space, or not found. |
| `Policy.PolicyLayer.Update` | memcp/policy/__init__.py:218-253 | Updates with the caller as author and the creator kept, or refuses and changes nothing. |
| `Policy.PolicyLayer.Delete` | memcp/policy/__init__.py:255-262 | Deletes a memory of the key's own space, or refuses and changes nothing. |
| `Policy.PolicyLayer.DeleteAll` | memcp/policy/__init__.py:264-274 | Deletes in a non-empty accepted scope only. |
| `Policy.PolicyLayer.Search` | memcp/policy/__init__.py:179-201 | Searches an accepted scope of the key's space and filters what the backend found. |
| `Policy.PolicyLayer.List` | memcp/policy/__init__.py:276-298 | One page of the key's space in an accepted scope. |
| `Policy.PolicyLayer.History` | memcp/policy/__init__.py:300-307 | The history of a memory of the key's own space, or not found. |
| `Policy.PolicyLayer.Export` | memcp/policy/__init__.py:322-328 | The export payload of the key's space: memories as they go on the wire, their count, and whether any were missed. |
| `PolicyRuns.ExportIs` | memcp/policy/transfer.py:112-129 | On a store that policy wrote, an export holds the space's memories in order up to the cap, and is marked truncated if and only if there are more. |
| `Answers.ExportShips` | memcp/types.py:200-215 | Each memory shipped has the id, content, scope, metadata, times and author of the stored one at its position; the count and the truncation mark are exact. |
| `Answers.ReadIs` | memcp/policy/__init__.py:203-216 | On a store that policy wrote, a memory and its history are answered, as the stored record and its log, if and only if the id is well formed and in the caller's own space; otherwise the id is invalid or not found. |
| `Answers.AddAcceptedIff` | memcp/policy/__init__.py:144-177 | An add goes through if and only if a writer gives content, metadata and scope within the rules; otherwise nothing is stored. |
| `Answers.UpdateAcceptedIff` | memcp/policy/__init__.py:218-253 | An update goes through if and only if a writer gives something to change, within the rules and the size, for a memory of its space; otherwise nothing is stored. |
| `Answers.DeleteScopedAcceptedIff` | memcp/policy/__init__.py:264-274 | A scoped delete goes through if and only if a writer gives an acceptable scope with a key in it. |
| `Answers.SearchAcceptedIff` | memcp/policy/__init__.py:179-201 | A search is answered if and only if query, limit, threshold and scope are within the rules. |
| `Answers.ListAcceptedIff` | memcp/policy/__init__.py:276-298 | A page is answered if and only if limit and scope are within the rules and the cursor is an integer's text. |
| `Answers.ReadersWriteNothing` | memcp/policy/__init__.py:144-373 | A key that may only read is refused by every write, and nothing changes. |
| `Answers.SearchFinds` | memcp/policy/__init__.py:179-201 | A search that the limit covers finds a memory if and only if it is stored in the space, filed under everything the caller's scope names, and scored; the relevance is the score. |
| `Answers.ListShows` | memcp/policy/__init__.py:276-298 | A first page that the limit covers shows a memory if and only if it is stored in the space and filed under everything the caller's scope names. |
| `Policy.PolicyLayer.ImportBatchOf` | memcp/policy/__init__.py:330-373 | Imports a batch for a writer, stamped as its writes, or refuses it whole. |
| `Policy.FilterHits` | memcp/policy/__init__.py:93-103 | The filtering loop keeps, in order, the hits whose scope matches. |
| `Requests.ServeAll` | memcp/policy/__init__.py:106-373 | Requests served one after another by the object give the answers and the store of the run they stand for. |
| `Requests.NewAlongRun` | memcp/policy/__init__.py:144-373 | Ids new at the start of a run and drawn once are unused when their request comes. |
| `Separation.RequestIsConfined` | memcp/policy/__init__.py:144-373 | Every request, on any store, answers and acts on its own space as if no other space were there, and leaves every other space as it was. |
| `Separation.SameSpaceSameAnswer` | memcp/policy/__init__.py:144-373 | Stores that agree on a space answer its keys alike and still agree on it afterwards. |
| `Separation.NoInterference` | memcp/policy/__init__.py:144-373 | However requests of different spaces interleave, a space's keys get the answers they would get alone, and their space ends up the same. |
| `Attribution.UpdateHealthy` | memcp/policy/__init__.py:218-253 | An update keeps every record within the rules, and fails only for the caller's reasons. |
| `PolicyImports.PolicyBatchIsSound` | memcp/policy/__init__.py:353-361 | Policy's stamp and scope validator meet what the import theorems assume. |
| `PolicyImports.ImportHealthy` | memcp/policy/__init__.py:330-373 | An import by a writer raises nothing and leaves every record within the rules, whatever fails on the way and however incomplete its index. |
| `PolicyImports.PolicyImportIsGood` | memcp/policy/__init__.py:330-373 | Every policy import into a space within the export cap starts in step with the store. |
| `Authorship.RequestSigned` | memcp/policy/__init__.py:144-373 | Whatever a key asks, imports included, every history then stored is what it was with entries added at the end in the key's own name, in its own space and only if it may write; a new memory's whole history is in its name. |
| `Authorship.EntryWasMade` | memcp/policy/__init__.py:248-252 | Every history entry in a run was made by one of its requests, whose key may write the space and whose name it bears. |
| `Authorship.OneMaker` | memcp/policy/__init__.py:248-252 | No later request of the run made the same entry. |
| `Authorship.EveryMemoryExplained` | memcp/policy/metadata.py:79-85 | After any run from an empty store: each history starts with a creation, each entry takes up the content the one before left, the last gives the stored content and the author, the first the creator; every entry was made by a request of the run and bears the name of its key; content, scope keys, metadata and its size are within the rules. |
| `PolicyRuns.EveryAnswerFair` | memcp/policy/space.py:16-37 | In such a run no request is ever answered with an internal error or an error of the store's. |
| `Lifetimes.SameMemoryThroughout` | memcp/policy/__init__.py:248-252 | Between any two points of a run, a memory there at both was there throughout, keeps its scope, creation time and creator, and its history has only grown. |
| `Lifetimes.UpdateIs` | memcp/policy/__init__.py:218-253 | An accepted update merges the patch as RFC 7396 says, replaces the content if given, adds one signed history entry, and changes no other memory. |
| `Lifetimes.DeleteIs` | memcp/policy/__init__.py:255-262 | A successful delete removes that memory with its history and no other. |
| `ScopeMeanings.DeleteScopedIs` | memcp/policy/__init__.py:264-274 | A scoped delete removes exactly the space's memories that the caller's scope names, answers how many there were, and leaves every other record as it was. |
| `Lifetimes.AddIs` | memcp/policy/__init__.py:144-177 | A successful add stores the content, the cleaned scope as text, the metadata and the key's name as author and creator, and changes no other memory. |
| `Searching.SearchIsBest` | memcp/policy/__init__.py:93-103 | An accepted search returns the first `limit` of the ranking of exactly the space's matches in scope: sorted, beaten by none left out, ties in stored order; neither the space check nor the scope filter drops any. |
| `Searching.FoundIff` | memcp/backends/in_memory.py:98-123 | When the limit covers every match, a memory is found if and only if it is stored in the partition, in scope and scored, with its score as relevance. |
| `Searching.ListIsPage` | memcp/policy/__init__.py:276-298 | The scope filter takes nothing from a page. |
| `Searching.AgentNamesMeet` | memcp/policy/scope.py:76-84 | A memory added under one agent name is listed under another if and only if the names normalize alike. |

## Left out

- HTTP, the ASGI gate, keys-file parsing, configuration, logging, MCP tool registration: plumbing around the four parts.
- The audit log and `can_record`: operations are modelled without it.
- Messages of errors: an error is known by its class and its status or code.
- Unpaired surrogates in text, which Python admits and a Dafny `char` does not.
- Concurrent calls: runs are sequential. The source checks the size cap outside the write by design (memcp/policy/__init__.py:242-243).
- The transport of backend failures into single policy calls other than import: the in-memory backend has none, and import takes them as a parameter.
- `threshold`: policy range-checks it, and the two keyword backends ignore it, as modelled.
- The order of `scope_key`'s sorted tuple: the key is the finite map it stands for.
- Numerals of `int` other than ASCII digits with an optional sign, underscores and surrounding whitespace, in cursors.
- mem0's `infer=True` extraction, asked for or turned on by a scope key, adds that store nothing or several memories, `delete_all`, search, entities and history: what they return is the server's own.
- `entities`, `health` and `close`.
- Capabilities: the three backends modelled declare `update` and `list`, so the refusals for want of them do not arise.
- Policy.PolicyLayer.Add: stands over the in-memory backend only; for SQLite, `Bisimulation.RunOnBoth` carries every call over.
- Migration.Migrate: moves between two in-memory backends; other pairs rest on the same function of the two lists.
- Mem0Runs.BackendsAgree: times and histories are not compared, because mem0 keeps its own; the times it shows are in `Mem0.Mem0Backend.Add` and `Mem0.Mem0Backend.Update`.
- Mem0.Mem0Backend.Add: promises nothing of its result when a scope key turns extraction on, which is the server's own doing.
- Reimport.SecondImportDoesNothing: supposes that no read that follows a create fails, which is when the index does miss (`Misses.StoredTwice`).
- InMemory.InMemoryBackend.Update: an entry of the dict is a value that is replaced, where the source changes its fields in place; no reference to an entry leaves the backend there.
