/** Reading every memory of a partition by following cursors: `_list_all`, and the space check that
    every memory read goes through. */
module Reading {
  import opened Results
  import opened Text
  import opened Values
  import opened Contract
  import opened InMemory

  /** `check_space`: the memory's partition, and its recorded space if any, are the one asked for. */
  predicate InSpace(m: Memory, partition: string) {
    m.partition == partition && (m.system.space == None || m.system.space == Some(Str(partition)))
  }

  predicate AllInSpace(memories: seq<Memory>, partition: string) {
    forall i :: 0 <= i < |memories| ==> InSpace(memories[i], partition)
  }

  /** The memories read, whether any were missed, and how many calls it took. */
  datatype Read = Read(memories: seq<Memory>, missed: bool, calls: nat)

  /** A backend's answers: to the k-th call, for at least one and at most `limit + 1` memories, from a
      cursor. It may answer anything at all. */
  type Server = (nat, int, Option<string>) --> Result<Page>

  ghost predicate Answers(serve: Server, limit: nat) {
    forall k, n, c :: 1 <= n <= limit + 1 ==> serve.requires(k, n, c)
  }

  /** What reading comes to, given what was read so far. */
  function Follow(serve: Server, partition: string, limit: nat, calls: nat, got: seq<Memory>, incomplete: bool,
    cursor: Option<string>): Result<Read>
    requires Answers(serve, limit) && |got| <= limit
    decreases limit - |got|
  {
    var answer := serve(calls, limit + 1 - |got|, cursor);
    if answer.Err? then Err(answer.error)
    else
      var page := answer.value;
      var got' := got + page.memories;
      var incomplete' := incomplete || page.incomplete;
      if !AllInSpace(page.memories, partition) then Err(PolicyError(InternalError))
      else if page.next == None || page.memories == [] || |got'| > limit then
        Ok(Read(if |got'| > limit then got'[..limit] else got',
                incomplete' || |got'| > limit || page.next != None, calls + 1))
      else Follow(serve, partition, limit, calls + 1, got', incomplete', page.next)
  }

  /** The calls made once reading ends, whether it succeeds, the backend fails, or the space check does. */
  function CallsMade(serve: Server, partition: string, limit: nat, calls: nat, got: seq<Memory>,
      cursor: Option<string>): nat
    requires Answers(serve, limit) && |got| <= limit
    decreases limit - |got|
  {
    var answer := serve(calls, limit + 1 - |got|, cursor);
    if answer.Err? then calls + 1
    else
      var page := answer.value;
      var got' := got + page.memories;
      if !AllInSpace(page.memories, partition) || page.next == None || page.memories == [] || |got'| > limit then calls + 1
      else CallsMade(serve, partition, limit, calls + 1, got', page.next)
  }

  /** Against any backend whatever, reading ends after at most limit + 1 calls, however it ends; and if it
      succeeds, with at most limit memories, all of them in the space. (That each call asks for at least
      one is what lets the server be called at all.) */
  lemma {:induction false} FollowEnds(serve: Server, partition: string, limit: nat, calls: nat, got: seq<Memory>,
    incomplete: bool, cursor: Option<string>)
    requires Answers(serve, limit) && |got| <= limit && AllInSpace(got, partition)
    ensures calls < CallsMade(serve, partition, limit, calls, got, cursor) <= calls + limit + 1 - |got|
    ensures
      var r := Follow(serve, partition, limit, calls, got, incomplete, cursor);
      r.Ok? ==>
        && r.value.calls == CallsMade(serve, partition, limit, calls, got, cursor)
        && |r.value.memories| <= limit && AllInSpace(r.value.memories, partition)
    decreases limit - |got|
  {
    var answer := serve(calls, limit + 1 - |got|, cursor);
    if answer.Ok? {
      var page := answer.value;
      if AllInSpace(page.memories, partition) && page.next != None && page.memories != [] && |got + page.memories| <= limit {
        FollowEnds(serve, partition, limit, calls + 1, got + page.memories, incomplete || page.incomplete, page.next);
      }
    }
  }

  /** The cursor contract: every cursor stands for a position in one list; a page holds what follows
      it, and its next cursor stands for where the page ends, absent exactly at the end of the list. */
  ghost predicate KeepsCursors(serve: Server, limit: nat, all: seq<Memory>, at: Option<string> -> nat)
    requires Answers(serve, limit)
  {
    && at(None) == 0
    && forall k, n, c :: 1 <= n <= limit + 1 && at(c) <= |all| && serve(k, n, c).Ok? ==>
         KeepsCursor(serve(k, n, c).value, all, at(c), at)
  }

  ghost predicate KeepsCursor(page: Page, all: seq<Memory>, start: nat, at: Option<string> -> nat) {
    var stop := start + |page.memories|;
    && stop <= |all| && page.memories == all[start..stop]
    && (page.next == None ==> stop == |all|)
    && (page.next != None ==> at(page.next) == stop)
  }

  /** Under the cursor contract, "nothing missed" means that the whole list was read, in order. */
  lemma {:induction false} NothingMissed(serve: Server, partition: string, limit: nat, calls: nat, got: seq<Memory>,
    incomplete: bool, cursor: Option<string>, all: seq<Memory>, at: Option<string> -> nat)
    requires Answers(serve, limit) && KeepsCursors(serve, limit, all, at)
    requires |got| <= limit && at(cursor) == |got| <= |all| && got == all[..|got|]
    ensures
      var r := Follow(serve, partition, limit, calls, got, incomplete, cursor);
      r.Ok? && !r.value.missed ==> r.value.memories == all && !incomplete
    decreases limit - |got|
  {
    var answer := serve(calls, limit + 1 - |got|, cursor);
    if answer.Ok? {
      var page := answer.value;
      assert KeepsCursor(page, all, |got|, at);
      var got' := got + page.memories;
      assert got' == all[..|got'|];
      if AllInSpace(page.memories, partition) && page.next != None && page.memories != [] && |got'| <= limit {
        NothingMissed(serve, partition, limit, calls + 1, got', incomplete || page.incomplete, page.next, all, at);
      }
    }
  }

  // ---------- Backends that page over a full list ----------

  /** A backend that pages over `reachable`, marking every page incomplete when that list may not be
      everything. */
  function Pager(reachable: seq<Memory>, incomplete: bool): Server {
    (k: nat, n: int, c: Option<string>) =>
      var page := Paginate(reachable, c, n);
      if page.Err? then Err(page.error) else Ok(page.value.(incomplete := incomplete))
  }

  /** Reading such a backend takes one call and misses something exactly when the list is longer than the
      limit or was marked incomplete. */
  lemma FollowPager(reachable: seq<Memory>, incomplete: bool, partition: string, limit: nat)
    ensures Follow(Pager(reachable, incomplete), partition, limit, 0, [], false, None) ==
      if AllInSpace(Slice(reachable, 0, limit + 1), partition)
      then Ok(Read(Slice(reachable, 0, limit), incomplete || |reachable| > limit, 1))
      else Err(PolicyError(InternalError))
  {
    hide Paginate, AllInSpace;
    FirstPage(reachable, limit);
    var page := Pager(reachable, incomplete)(0, limit + 1, None).value;
    assert page.memories == Slice(reachable, 0, limit + 1);
    assert [] + page.memories == page.memories;
    if |reachable| > limit {
      assert page.memories[..limit] == reachable[..limit];
    }
  }

  lemma FirstPage(reachable: seq<Memory>, limit: nat)
    ensures Paginate(reachable, None, limit + 1) ==
      Ok(Page(Slice(reachable, 0, limit + 1), if limit + 1 < |reachable| then Some(IntText(limit + 1)) else None, false))
  {
    hide IntText, Slice;
  }

  /** The position a cursor stands for; one that stands for none is out of range. */
  function Position(cursor: Option<string>, length: nat): nat {
    if cursor.None? || cursor.value == "" then 0
    else
      var n := ParseInt(cursor.value);
      if n.None? || n.value < 0 then length + 1 else n.value
  }

  lemma PageFrom(all: seq<Memory>, c: Option<string>, n: int)
    requires n >= 1 && Position(c, |all|) <= |all| && Paginate(all, c, n).Ok?
    ensures
      var start := Position(c, |all|);
      var stop := if start + n < |all| then start + n else |all|;
      var next := if start + n < |all| then Some(IntText(start + n)) else None;
      Paginate(all, c, n) == Ok(Page(all[start..stop], next, false))
  {
    hide IntText, ParseInt;
  }

  lemma PositionOfText(n: nat, length: nat)
    ensures Position(Some(IntText(n)), length) == n
  {
    IntRoundTrip(n);
    NotBlank(n);
  }

  /** Paging by position meets the cursor contract. */
  lemma PagerKeepsCursors(all: seq<Memory>, limit: nat)
    ensures KeepsCursors(Pager(all, false), limit, all, (c: Option<string>) => Position(c, |all|))
  {
    hide Position, Paginate, IntText;
    var at := (c: Option<string>) => Position(c, |all|);
    assert at(None) == 0 by {
      StartsAtZero(|all|);
    }
    forall k: nat, n: int, c: Option<string> | 1 <= n <= limit + 1 && at(c) <= |all| && Pager(all, false)(k, n, c).Ok?
      ensures KeepsCursor(Pager(all, false)(k, n, c).value, all, at(c), at)
    {
      PageFrom(all, c, n);
      PositionOfText(at(c) + n, |all|);
    }
  }

  lemma StartsAtZero(length: nat)
    ensures Position(None, length) == 0
  {
  }

  lemma NotBlank(n: int)
    ensures IntText(n) != ""
  {
  }

  /** A client's reading: pages of `n`, each from where the last one pointed. */
  function PagesFrom(all: seq<Memory>, n: nat, start: nat): seq<Memory>
    requires n > 0
    decreases |all| - start
  {
    var page := Paginate(all, Some(IntText(start)), n);
    if page.Err? then []
    else if page.value.next.None? || start >= |all| then page.value.memories
    else page.value.memories + PagesFrom(all, n, start + n)
  }

  lemma PageAt(all: seq<Memory>, n: nat, start: nat)
    requires n > 0 && start <= |all|
    ensures
      var stop := if start + n < |all| then start + n else |all|;
      var next := if start + n < |all| then Some(IntText(start + n)) else None;
      Paginate(all, Some(IntText(start)), n) == Ok(Page(all[start..stop], next, false))
  {
    hide IntText, ParseInt;
    IntRoundTrip(start);
    NotBlank(start);
  }

  /** Whatever the page size, following the cursors shows every memory once, in order; and the cursor that
      a page gives is the one its successor starts from. */
  lemma {:induction false} PagesCoverList(all: seq<Memory>, n: nat, start: nat)
    requires n > 0 && start <= |all|
    ensures PagesFrom(all, n, start) == all[start..]
    decreases |all| - start
  {
    hide Paginate, IntText;
    PageAt(all, n, start);
    if start + n < |all| {
      PagesCoverList(all, n, start + n);
      assert all[start..] == all[start..start + n] + all[start + n..];
    }
  }

  // ---------- The in-memory backend ----------

  function ReadAll(store: Store, partition: string, limit: nat): Result<Read> {
    Follow(Pager(Listing(store, partition, None), false), partition, limit, 0, [], false, None)
  }

  method ListAll(backend: InMemoryBackend, partition: string, limit: nat) returns (r: Result<Read>)
    requires backend.Valid()
    ensures r == ReadAll(backend.View(), partition, limit)
  {
    hide Listing, Slice, ParseInt, IntText, InSpace;
    ghost var serve := Pager(Listing(backend.View(), partition, None), false);
    var memories: seq<Memory> := [];
    var incomplete := false;
    var cursor: Option<string> := None;
    var calls: nat := 0;
    while true
      invariant |memories| <= limit
      invariant Follow(serve, partition, limit, calls, memories, incomplete, cursor) ==
        ReadAll(backend.View(), partition, limit)
      decreases limit - |memories|
    {
      var answer := backend.ListMemories(partition, None, limit + 1 - |memories|, cursor);
      if answer.Err? {
        return Err(answer.error);
      }
      var page := answer.value;
      if !AllInSpace(page.memories, partition) {
        return Err(PolicyError(InternalError));
      }
      calls := calls + 1;
      memories := memories + page.memories;
      incomplete := incomplete || page.incomplete;
      cursor := page.next;
      if cursor == None || page.memories == [] || |memories| > limit {
        break;
      }
    }
    return Ok(Read(if |memories| > limit then memories[..limit] else memories,
                   incomplete || |memories| > limit || cursor != None, calls));
  }
}
