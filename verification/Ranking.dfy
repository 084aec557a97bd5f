/** The stable descending sort that search ranks by. */
module Ranking {
  import opened Values

  /** Puts a hit before the first one it beats: it goes in front of nothing that ties with it. */
  function Insert(hits: seq<Hit>, hit: Hit): seq<Hit> {
    if hits == [] then [hit]
    else if hits[0].relevance < hit.relevance then [hit] + hits
    else [hits[0]] + Insert(hits[1..], hit)
  }

  /** `hits.sort(key=relevance, reverse=True)`, which keeps ties in their order. */
  function Rank(hits: seq<Hit>): seq<Hit>
    decreases |hits|
  {
    if hits == [] then [] else Insert(Rank(hits[..|hits| - 1]), hits[|hits| - 1])
  }

  ghost predicate Descending(hits: seq<Hit>) {
    forall i, j :: 0 <= i < j < |hits| ==> hits[i].relevance >= hits[j].relevance
  }

  /** The hits of one relevance, in order. */
  function Tied(hits: seq<Hit>, relevance: real): seq<Hit> {
    if hits == [] then []
    else (if hits[0].relevance == relevance then [hits[0]] else []) + Tied(hits[1..], relevance)
  }

  lemma {:induction false} TiedConcat(a: seq<Hit>, b: seq<Hit>, relevance: real)
    ensures Tied(a + b, relevance) == Tied(a, relevance) + Tied(b, relevance)
  {
    if a == [] {
      assert a + b == b;
    } else {
      assert (a + b)[1..] == a[1..] + b;
      TiedConcat(a[1..], b, relevance);
    }
  }

  lemma {:induction false} NoneTied(hits: seq<Hit>, relevance: real)
    requires forall i :: 0 <= i < |hits| ==> hits[i].relevance < relevance
    ensures Tied(hits, relevance) == []
  {
    if hits != [] {
      NoneTied(hits[1..], relevance);
    }
  }

  lemma {:induction false} InsertPermutes(hits: seq<Hit>, hit: Hit)
    ensures multiset(Insert(hits, hit)) == multiset(hits) + multiset{hit}
  {
    if hits != [] {
      assert hits == [hits[0]] + hits[1..];
      InsertPermutes(hits[1..], hit);
    }
  }

  lemma {:induction false} InsertKeepsOrder(hits: seq<Hit>, hit: Hit)
    requires Descending(hits)
    ensures Descending(Insert(hits, hit))
  {
    if hits != [] && hits[0].relevance >= hit.relevance {
      InsertKeepsOrder(hits[1..], hit);
      InsertPermutes(hits[1..], hit);
      var tail := Insert(hits[1..], hit);
      forall i | 0 <= i < |tail|
        ensures tail[i].relevance <= hits[0].relevance
      {
        assert tail[i] in multiset(hits[1..]) + multiset{hit};
      }
    }
  }

  lemma {:induction false} InsertTies(hits: seq<Hit>, hit: Hit, r: real)
    requires Descending(hits)
    ensures Tied(Insert(hits, hit), r) == Tied(hits, r) + (if hit.relevance == r then [hit] else [])
  {
    if hits != [] {
      if hits[0].relevance < hit.relevance {
        assert ([hit] + hits)[1..] == hits;
        if hit.relevance == r {
          NoneTied(hits, r);
        }
      } else {
        InsertTies(hits[1..], hit, r);
        var tail := Insert(hits[1..], hit);
        assert ([hits[0]] + tail)[1..] == tail;
      }
    }
  }

  /** A ranking is sorted and holds exactly the hits given. */
  lemma {:induction false} RankSorts(hits: seq<Hit>)
    ensures Descending(Rank(hits)) && multiset(Rank(hits)) == multiset(hits)
    decreases |hits|
  {
    if hits != [] {
      var front, last := hits[..|hits| - 1], hits[|hits| - 1];
      RankSorts(front);
      InsertKeepsOrder(Rank(front), last);
      InsertPermutes(Rank(front), last);
      assert hits == front + [last];
    }
  }

  /** Ties keep the order they came in. */
  lemma {:induction false} RankIsStable(hits: seq<Hit>, r: real)
    ensures Tied(Rank(hits), r) == Tied(hits, r)
    decreases |hits|
  {
    if hits != [] {
      var front, last := hits[..|hits| - 1], hits[|hits| - 1];
      RankIsStable(front, r);
      RankSorts(front);
      InsertTies(Rank(front), last, r);
      TiedConcat(front, [last], r);
      assert hits == front + [last];
    }
  }

  /** Nothing else ranks the hits that way. */
  lemma {:induction false} RankIsUnique(a: seq<Hit>, b: seq<Hit>)
    requires Descending(a) && Descending(b)
    requires forall r :: Tied(a, r) == Tied(b, r)
    ensures a == b
  {
    if a != [] {
      TopTies(a, b);
      TopTies(b, a);
      assert Tied(a, a[0].relevance)[0] == a[0] && Tied(b, a[0].relevance)[0] == b[0];
      forall r
        ensures Tied(a[1..], r) == Tied(b[1..], r)
      {
        var own := if a[0].relevance == r then [a[0]] else [];
        assert own + Tied(a[1..], r) == Tied(a, r) == Tied(b, r) == own + Tied(b[1..], r);
        assert (own + Tied(a[1..], r))[|own|..] == (own + Tied(b[1..], r))[|own|..];
      }
      RankIsUnique(a[1..], b[1..]);
    } else if b != [] {
      TopTies(b, a);
    }
  }

  lemma {:induction false} TiedAreIn(hits: seq<Hit>, r: real)
    ensures forall h :: h in Tied(hits, r) <==> h in hits && h.relevance == r
  {
    if hits != [] {
      TiedAreIn(hits[1..], r);
      assert hits == [hits[0]] + hits[1..];
    }
  }

  lemma TopTies(a: seq<Hit>, b: seq<Hit>)
    requires a != [] && Descending(a) && Descending(b)
    requires forall r :: Tied(a, r) == Tied(b, r)
    ensures b != [] && a[0].relevance <= b[0].relevance
  {
    assert a[0] in Tied(a, a[0].relevance);
    assert Tied(a, a[0].relevance) == Tied(b, a[0].relevance);
    TiedAreIn(b, a[0].relevance);
    var i :| 0 <= i < |b| && b[i] == a[0];
  }
}
