/** Where the tokenizer puts boundaries, and what `_unspaced` does with them. */
module Boundaries {
  import opened CharTables
  import opened Tokenizer

  ghost predicate TouchesRun(tokens: seq<string>, i: int) {
    && 0 < i < |tokens| - 1
    && tokens[i - 1] != BOUNDARY && tokens[i + 1] != BOUNDARY
    && (IsRunToken(tokens[i - 1]) || IsRunToken(tokens[i + 1]))
  }

  /** No boundary is first, last or next to another, and each touches a run token. */
  ghost predicate WellSpaced(tokens: seq<string>) {
    forall i {:trigger TouchesRun(tokens, i)} ::
      0 <= i < |tokens| && tokens[i] == BOUNDARY ==> TouchesRun(tokens, i)
  }

  // ---------- Every tokenizer output is well spaced ----------

  /** Only a proper token is ever emitted: the word in progress starts with a letter or digit. */
  ghost predicate Reading(t: Tables, s: Buffers) {
    WellSpaced(s.tokens) && (s.word != "" ==> t.alnum(s.word[0]))
  }

  lemma LastIsNoBoundary(tokens: seq<string>)
    requires WellSpaced(tokens) && tokens != []
    ensures tokens[|tokens| - 1] != BOUNDARY
  {
    assert tokens[|tokens| - 1] == BOUNDARY ==> TouchesRun(tokens, |tokens| - 1);
  }

  lemma EmitKeepsSpacing(s: Buffers, token: string)
    requires WellSpaced(s.tokens) && token != BOUNDARY
    ensures WellSpaced(Emit(s, token).tokens)
  {
    var s' := Emit(s, token);
    forall i | 0 <= i < |s'.tokens| && s'.tokens[i] == BOUNDARY
      ensures TouchesRun(s'.tokens, i)
    {
      if i < |s.tokens| {
        assert TouchesRun(s.tokens, i);
      } else {
        LastIsNoBoundary(s.tokens);
      }
    }
  }

  lemma AlnumIsNoBoundary(t: Tables, token: string)
    requires LawfulClasses(t) && HasAlnum(t, token)
    ensures token != BOUNDARY
  {
    assert IsSpace(' ');
  }

  lemma {:induction false} EmitAllKeepsSpacing(t: Tables, s: Buffers, tokens: seq<string>)
    requires LawfulClasses(t) && WellSpaced(s.tokens)
    requires forall i :: 0 <= i < |tokens| ==> HasAlnum(t, tokens[i])
    ensures WellSpaced(EmitAll(s, tokens).tokens)
    decreases |tokens|
  {
    if tokens != [] {
      AlnumIsNoBoundary(t, tokens[0]);
      EmitKeepsSpacing(s, tokens[0]);
      EmitAllKeepsSpacing(t, Emit(s, tokens[0]), tokens[1..]);
    }
  }

  lemma FlushKeepsSpacing(t: Tables, s: Buffers)
    requires LawfulClasses(t) && Reading(t, s)
    ensures Reading(t, Flush(t, s))
  {
    if s.word != "" {
      AlnumIsNoBoundary(t, s.word);
      EmitKeepsSpacing(s, s.word);
    }
    EmitAllKeepsSpacing(t, FlushWord(s), Segment(t, s.segment));
    EmitAllKeeps(FlushWord(s), Segment(t, s.segment));
  }

  lemma StepKeepsSpacing(t: Tables, s: Buffers, c: char)
    requires LawfulClasses(t) && Reading(t, s)
    ensures Reading(t, Step(t, s, c))
  {
    FlushKeepsSpacing(t, s);
    if Classify(t, c) == RunLetter {
      assert IsUnspaced(c);
      EmitKeepsSpacing(Flush(t, s), [c]);
    }
  }

  lemma {:induction false} RunKeepsSpacing(t: Tables, s: Buffers, text: string)
    requires LawfulClasses(t) && Reading(t, s)
    ensures Reading(t, Run(t, s, text))
    decreases |text|
  {
    if text != "" {
      StepKeepsSpacing(t, s, text[0]);
      RunKeepsSpacing(t, Step(t, s, text[0]), text[1..]);
    }
  }

  lemma TokensAreWellSpaced(t: Tables, folded: string)
    requires LawfulClasses(t)
    ensures WellSpaced(TokensOf(t, folded))
  {
    RunKeepsSpacing(t, START, folded);
    FlushKeepsSpacing(t, Run(t, START, folded));
  }

  // ---------- Dropping the boundaries between a word and a run ----------

  /** Well-formed because no boundary is first or last. */
  predicate Kept(tokens: seq<string>, i: nat)
    requires WellSpaced(tokens) && i < |tokens|
  {
    assert tokens[i] == BOUNDARY ==> TouchesRun(tokens, i);
    tokens[i] != BOUNDARY || (IsRunToken(tokens[i - 1]) && IsRunToken(tokens[i + 1]))
  }

  function UnspacedFrom(tokens: seq<string>, i: nat): seq<string>
    requires WellSpaced(tokens) && i <= |tokens|
    decreases |tokens| - i
  {
    if i == |tokens| then []
    else (if Kept(tokens, i) then [tokens[i]] else []) + UnspacedFrom(tokens, i + 1)
  }

  function Unspaced(tokens: seq<string>): seq<string>
    requires WellSpaced(tokens)
  {
    UnspacedFrom(tokens, 0)
  }

  /** The tokens without the one boundary at `i`, which stands between a word and a run. */
  function Closed(tokens: seq<string>, i: nat): (closed: seq<string>)
    requires i < |tokens|
    ensures |closed| == |tokens| - 1
    ensures forall k :: 0 <= k < |closed| ==> closed[k] == tokens[if k < i then k else k + 1]
  {
    tokens[..i] + tokens[i + 1..]
  }

  ghost predicate Droppable(tokens: seq<string>, i: nat) {
    WellSpaced(tokens) && i < |tokens| && !Kept(tokens, i)
  }

  lemma ClosedIsWellSpaced(tokens: seq<string>, i: nat)
    requires Droppable(tokens, i)
    ensures WellSpaced(Closed(tokens, i))
  {
    var d := Closed(tokens, i);
    assert TouchesRun(tokens, i);
    forall k | 0 <= k < |d| && d[k] == BOUNDARY
      ensures TouchesRun(d, k)
    {
      assert TouchesRun(tokens, if k < i then k else k + 1);
    }
  }

  lemma ClosedKeeps(tokens: seq<string>, i: nat, k: nat)
    requires Droppable(tokens, i) && WellSpaced(Closed(tokens, i)) && k < |tokens| - 1
    ensures Kept(Closed(tokens, i), k) == Kept(tokens, if k < i then k else k + 1)
  {
    var k' := if k < i then k else k + 1;
    assert TouchesRun(tokens, i);
    assert tokens[k'] == BOUNDARY ==> TouchesRun(tokens, k');
  }

  lemma {:induction false} ClosedFrom(tokens: seq<string>, i: nat, k: nat)
    requires Droppable(tokens, i) && WellSpaced(Closed(tokens, i)) && k < |tokens|
    ensures UnspacedFrom(Closed(tokens, i), k) == UnspacedFrom(tokens, if k < i then k else k + 1)
    decreases |tokens| - k
  {
    if k < |tokens| - 1 {
      ClosedKeeps(tokens, i, k);
      ClosedFrom(tokens, i, k + 1);
    }
    if k + 1 == i {
      assert UnspacedFrom(tokens, i) == UnspacedFrom(tokens, i + 1);
    }
  }

  /** A memory may space a word off the run it is written against: closing up one such boundary
      changes nothing in what `_unspaced` returns. */
  lemma ClosingChangesNothing(tokens: seq<string>, i: nat)
    requires Droppable(tokens, i)
    ensures WellSpaced(Closed(tokens, i)) && Unspaced(Closed(tokens, i)) == Unspaced(tokens)
  {
    ClosedIsWellSpaced(tokens, i);
    ClosedFrom(tokens, i, 0);
  }

  lemma {:induction false} NothingToDrop(tokens: seq<string>, i: nat)
    requires WellSpaced(tokens) && i <= |tokens|
    requires forall k :: 0 <= k < |tokens| ==> Kept(tokens, k)
    ensures UnspacedFrom(tokens, i) == tokens[i..]
    decreases |tokens| - i
  {
    if i < |tokens| {
      NothingToDrop(tokens, i + 1);
    }
  }

  /** `_unspaced` returns well-spaced tokens that it leaves alone: only the boundaries between two
      runs are left. */
  lemma {:induction false} UnspacedIsIdempotent(tokens: seq<string>)
    requires WellSpaced(tokens)
    ensures WellSpaced(Unspaced(tokens)) && Unspaced(Unspaced(tokens)) == Unspaced(tokens)
    ensures forall i :: 0 <= i < |Unspaced(tokens)| ==> Kept(Unspaced(tokens), i)
    decreases |tokens|
  {
    if i: nat :| i < |tokens| && !Kept(tokens, i) {
      ClosingChangesNothing(tokens, i);
      UnspacedIsIdempotent(Closed(tokens, i));
    } else {
      NothingToDrop(tokens, 0);
    }
  }

  // ---------- Which tokens stand beside each other ----------

  ghost predicate PairAt(tokens: seq<string>, a: string, b: string, i: int) {
    0 <= i < |tokens| - 1 && tokens[i] == a && tokens[i + 1] == b
  }

  ghost predicate SpacedAt(tokens: seq<string>, a: string, b: string, i: int) {
    0 <= i < |tokens| - 2 && tokens[i] == a && tokens[i + 1] == BOUNDARY && tokens[i + 2] == b
  }

  /** `a` and `b` stand next to each other and at least one is a run token: a pair the scorer counts. */
  ghost predicate Pair(tokens: seq<string>, a: string, b: string) {
    && a != BOUNDARY && b != BOUNDARY && (IsRunToken(a) || IsRunToken(b))
    && exists i :: PairAt(tokens, a, b, i)
  }

  /** `a`, a boundary, then `b`, where one is a word and the other a run token. */
  ghost predicate SpacedPair(tokens: seq<string>, a: string, b: string) {
    && a != BOUNDARY && b != BOUNDARY && IsRunToken(a) != IsRunToken(b)
    && exists i :: SpacedAt(tokens, a, b, i)
  }

  lemma ClosedHasPair(tokens: seq<string>, i: nat, a: string, b: string)
    requires Droppable(tokens, i) && (Pair(tokens, a, b) || SpacedPair(tokens, a, b))
    ensures Pair(Closed(tokens, i), a, b) || SpacedPair(Closed(tokens, i), a, b)
  {
    var d := Closed(tokens, i);
    assert TouchesRun(tokens, i);
    if Pair(tokens, a, b) {
      var k :| PairAt(tokens, a, b, k);
      assert PairAt(d, a, b, if k < i then k else k - 1);
    } else {
      var k :| SpacedAt(tokens, a, b, k);
      assert if k + 1 == i then PairAt(d, a, b, k) else SpacedAt(d, a, b, if k < i then k else k - 1);
    }
  }

  lemma ClosedAddsNoPair(tokens: seq<string>, i: nat, a: string, b: string)
    requires Droppable(tokens, i) && (Pair(Closed(tokens, i), a, b) || SpacedPair(Closed(tokens, i), a, b))
    ensures Pair(tokens, a, b) || SpacedPair(tokens, a, b)
  {
    var d := Closed(tokens, i);
    assert TouchesRun(tokens, i);
    if Pair(d, a, b) {
      var k :| PairAt(d, a, b, k);
      assert if k + 1 == i then SpacedAt(tokens, a, b, k) else PairAt(tokens, a, b, if k < i then k else k + 1);
    } else {
      var k :| SpacedAt(d, a, b, k);
      assert SpacedAt(tokens, a, b, if k < i then k else k + 1);
    }
  }

  lemma SpacedPairIsDroppable(tokens: seq<string>, a: string, b: string) returns (i: nat)
    requires WellSpaced(tokens) && SpacedPair(tokens, a, b)
    ensures i < |tokens| && !Kept(tokens, i)
  {
    var k :| SpacedAt(tokens, a, b, k);
    i := k + 1;
  }

  /** The pairs left after `_unspaced` are the pairs written together or with one word-to-run space. */
  lemma {:induction false} UnspacedPairs(tokens: seq<string>, a: string, b: string)
    requires WellSpaced(tokens)
    ensures Pair(Unspaced(tokens), a, b) <==> Pair(tokens, a, b) || SpacedPair(tokens, a, b)
    decreases |tokens|
  {
    if i: nat :| i < |tokens| && !Kept(tokens, i) {
      ClosingChangesNothing(tokens, i);
      UnspacedPairs(Closed(tokens, i), a, b);
      if Pair(tokens, a, b) || SpacedPair(tokens, a, b) {
        ClosedHasPair(tokens, i, a, b);
      }
      if Pair(Closed(tokens, i), a, b) || SpacedPair(Closed(tokens, i), a, b) {
        ClosedAddsNoPair(tokens, i, a, b);
      }
    } else {
      NothingToDrop(tokens, 0);
      if SpacedPair(tokens, a, b) {
        var k := SpacedPairIsDroppable(tokens, a, b);
      }
    }
  }

  lemma {:induction false} UnspacedKeepsTokens(tokens: seq<string>, i: nat, token: string)
    requires WellSpaced(tokens) && i <= |tokens| && token != BOUNDARY
    ensures token in UnspacedFrom(tokens, i) <==> token in tokens[i..]
    decreases |tokens| - i
  {
    if i < |tokens| {
      UnspacedKeepsTokens(tokens, i + 1, token);
      assert tokens[i..] == [tokens[i]] + tokens[i + 1..];
    }
  }
}
