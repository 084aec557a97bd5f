/** Words and per-character runs: `_words_and_runs` and `_pairs`. */
module Groups {
  import opened Tokenizer
  import opened Boundaries

  predicate IsWord(token: string) {
    token != BOUNDARY && !IsRunToken(token)
  }

  function Words(tokens: seq<string>): seq<string> {
    if tokens == [] then []
    else (if IsWord(tokens[0]) then [tokens[0]] else []) + Words(tokens[1..])
  }

  /** Whether `next` is written against the token before it, one of the two being a run token. */
  predicate Adjoins(previous: string, next: string) {
    previous != BOUNDARY && next != BOUNDARY && (IsRunToken(previous) || IsRunToken(next))
  }

  /** The token before `next`, or a boundary at the start. */
  function Previous(tokens: seq<string>): string {
    if tokens == [] then BOUNDARY else tokens[|tokens| - 1]
  }

  function Last<T>(s: seq<T>): T
    requires s != []
  {
    s[|s| - 1]
  }

  function Front<T>(s: seq<T>): seq<T>
    requires s != []
  {
    s[..|s| - 1]
  }

  /** The last group is open for `previous`, the token it ends with. */
  ghost predicate Open(groups: seq<seq<string>>, previous: string) {
    && (forall i :: 0 <= i < |groups| ==> groups[i] != [])
    && (previous != BOUNDARY ==> groups != [] && Last(Last(groups)) == previous)
  }

  function Grow(groups: seq<seq<string>>, previous: string, token: string): (grown: seq<seq<string>>)
    requires Open(groups, previous)
    ensures Open(grown, token)
  {
    if token == BOUNDARY then groups
    else if Adjoins(previous, token) then Front(groups) + [Last(groups) + [token]]
    else groups + [[token]]
  }

  function GroupsOf(tokens: seq<string>): (groups: seq<seq<string>>)
    ensures Open(groups, Previous(tokens))
    decreases |tokens|
  {
    if tokens == [] then [] else Grow(GroupsOf(Front(tokens)), Previous(Front(tokens)), Last(tokens))
  }

  predicate HasRunToken(group: seq<string>) {
    exists i :: 0 <= i < |group| && IsRunToken(group[i])
  }

  function RunsIn(groups: seq<seq<string>>): (runs: seq<seq<string>>)
    ensures forall run :: run in runs <==> run in groups && HasRunToken(run)
  {
    if groups == [] then []
    else (if HasRunToken(groups[0]) then [groups[0]] else []) + RunsIn(groups[1..])
  }

  ghost predicate NonEmptyRuns(runs: seq<seq<string>>) {
    forall i :: 0 <= i < |runs| ==> runs[i] != []
  }

  function Runs(tokens: seq<string>): (runs: seq<seq<string>>)
    ensures NonEmptyRuns(runs)
  {
    var runs := RunsIn(GroupsOf(tokens));
    assert forall i :: 0 <= i < |runs| ==> runs[i] in runs;
    runs
  }

  method WordsAndRuns(tokens: seq<string>) returns (words: seq<string>, runs: seq<seq<string>>)
    ensures words == Words(tokens) && runs == Runs(tokens)
  {
    words := Words(tokens);
    var groups: seq<seq<string>> := [];
    var previous := BOUNDARY;
    for i := 0 to |tokens|
      invariant groups == GroupsOf(tokens[..i]) && previous == Previous(tokens[..i])
    {
      assert tokens[..i + 1][..i] == tokens[..i];
      var token := tokens[i];
      if token != BOUNDARY {
        if previous != BOUNDARY && (IsRunToken(previous) || IsRunToken(token)) {
          groups := Front(groups) + [Last(groups) + [token]];
        } else {
          groups := groups + [[token]];
        }
      }
      previous := token;
    }
    assert tokens[..|tokens|] == tokens;
    runs := RunsIn(groups);
  }

  // ---------- The groups partition the tokens ----------

  function Flatten(groups: seq<seq<string>>): seq<string>
    decreases |groups|
  {
    if groups == [] then [] else Flatten(Front(groups)) + Last(groups)
  }

  function WithoutBoundaries(tokens: seq<string>): seq<string>
    decreases |tokens|
  {
    if tokens == [] then []
    else
      WithoutBoundaries(Front(tokens)) + (if Last(tokens) == BOUNDARY then [] else [Last(tokens)])
  }

  lemma GrowFlattens(groups: seq<seq<string>>, previous: string, token: string)
    requires Open(groups, previous)
    ensures Flatten(Grow(groups, previous, token)) == Flatten(groups) + (if token == BOUNDARY then [] else [token])
  {
    var grown := Grow(groups, previous, token);
    if token != BOUNDARY {
      assert Front(grown) == if Adjoins(previous, token) then Front(groups) else groups;
      assert Flatten(grown) == Flatten(Front(grown)) + Last(grown);
    }
  }

  /** Every token but the boundaries lies in exactly one group, in order. */
  lemma {:induction false} GroupsPartition(tokens: seq<string>)
    ensures Flatten(GroupsOf(tokens)) == WithoutBoundaries(tokens)
    decreases |tokens|
  {
    if tokens != [] {
      GroupsPartition(Front(tokens));
      GrowFlattens(GroupsOf(Front(tokens)), Previous(Front(tokens)), Last(tokens));
    }
  }

  // ---------- Which pairs the groups hold ----------

  /** Growing keeps every group, but for one `token` more at the end of the last or after it. */
  lemma GrownGroup(groups: seq<seq<string>>, previous: string, token: string, g: nat)
    requires Open(groups, previous) && g < |Grow(groups, previous, token)|
    ensures
      var group := Grow(groups, previous, token)[g];
      || (g < |groups| && group == groups[g])
      || (token != BOUNDARY && g == |groups| && group == [token])
      || (token != BOUNDARY && g == |groups| - 1 && Adjoins(previous, token) && group == groups[g] + [token])
    ensures |groups| <= |Grow(groups, previous, token)|
  {
  }

  lemma {:induction false} GroupsHoldNoBoundary(tokens: seq<string>, g: nat, i: nat)
    requires g < |GroupsOf(tokens)| && i < |GroupsOf(tokens)[g]|
    ensures GroupsOf(tokens)[g][i] != BOUNDARY && GroupsOf(tokens)[g][i] in tokens
    decreases |tokens|
  {
    var groups := GroupsOf(Front(tokens));
    GrownGroup(groups, Previous(Front(tokens)), Last(tokens), g);
    if g < |groups| && i < |groups[g]| {
      GroupsHoldNoBoundary(Front(tokens), g, i);
    }
  }

  /** Two tokens that stand together in a group stood together in the text. */
  lemma {:induction false} GroupPairIsPair(tokens: seq<string>, g: nat, i: nat)
    requires g < |GroupsOf(tokens)| && i < |GroupsOf(tokens)[g]| - 1
    ensures Pair(tokens, GroupsOf(tokens)[g][i], GroupsOf(tokens)[g][i + 1])
    decreases |tokens|
  {
    var groups := GroupsOf(Front(tokens));
    var a, b := GroupsOf(tokens)[g][i], GroupsOf(tokens)[g][i + 1];
    GrownGroup(groups, Previous(Front(tokens)), Last(tokens), g);
    if g < |groups| && i < |groups[g]| - 1 {
      GroupPairIsPair(Front(tokens), g, i);
      var k :| PairAt(Front(tokens), a, b, k);
      assert PairAt(tokens, a, b, k);
    } else {
      assert PairAt(tokens, a, b, |tokens| - 2);
    }
  }

  /** And the other way round. */
  lemma {:induction false} PairIsGroupPair(tokens: seq<string>, a: string, b: string, k: int) returns (g: nat, i: nat)
    requires Adjoins(a, b) && PairAt(tokens, a, b, k)
    ensures g < |GroupsOf(tokens)| && PairAt(GroupsOf(tokens)[g], a, b, i)
    decreases |tokens|
  {
    hide Adjoins;
    if k == |tokens| - 2 {
      g, i := LastPairGrouped(tokens, a, b);
    } else {
      assert PairAt(Front(tokens), a, b, k);
      g, i := PairIsGroupPair(Front(tokens), a, b, k);
      GrownGroup(GroupsOf(Front(tokens)), Previous(Front(tokens)), Last(tokens), g);
    }
  }

  lemma LastPairGrouped(tokens: seq<string>, a: string, b: string) returns (g: nat, i: nat)
    requires Adjoins(a, b) && PairAt(tokens, a, b, |tokens| - 2)
    ensures g < |GroupsOf(tokens)| && PairAt(GroupsOf(tokens)[g], a, b, i)
  {
    hide IsRunToken;
    var front := Front(tokens);
    var groups := GroupsOf(front);
    assert Previous(front) == a && Last(tokens) == b;
    g := |groups| - 1;
    i := |groups[g]| - 1;
    assert GroupsOf(tokens) == Front(groups) + [Last(groups) + [b]];
    assert GroupsOf(tokens)[g] == groups[g] + [b];
  }

  lemma {:induction false} TokenIsGrouped(tokens: seq<string>, token: string) returns (g: nat, i: nat)
    requires token in tokens && token != BOUNDARY
    ensures g < |GroupsOf(tokens)| && i < |GroupsOf(tokens)[g]| && GroupsOf(tokens)[g][i] == token
    decreases |tokens|
  {
    if token == Last(tokens) {
      g := |GroupsOf(tokens)| - 1;
      i := |GroupsOf(tokens)[g]| - 1;
    } else {
      g, i := TokenIsGrouped(Front(tokens), token);
      GrownGroup(GroupsOf(Front(tokens)), Previous(Front(tokens)), Last(tokens), g);
    }
  }

  // ---------- Pairs ----------

  function PairsOf(run: seq<string>): (pairs: seq<string>)
    ensures |run| == 1 ==> pairs == run
    ensures |run| != 1 && run != [] ==> |pairs| == |run| - 1 && forall i :: 0 <= i < |pairs| ==> pairs[i] == run[i] + run[i + 1]
    ensures run != [] ==> pairs != []
  {
    if |run| == 1 then run
    else if run == [] then []
    else seq(|run| - 1, i requires 0 <= i < |run| - 1 => run[i] + run[i + 1])
  }

  /** The texts a run of the query may find in the content: every pair, and every run token alone. */
  function PairTexts(runs: seq<seq<string>>): set<string> {
    set run, pair | run in runs && pair in PairsOf(run) :: pair
  }

  function RunTokens(runs: seq<seq<string>>): set<string> {
    set run, token | run in runs && token in run && IsRunToken(token) :: token
  }

  function HeldTexts(tokens: seq<string>): set<string> {
    PairTexts(Runs(tokens)) + RunTokens(Runs(tokens))
  }

  /** What the content holds, said without groups: a text is held when it is two tokens standing
      together, one of them a run token, or a run token by itself. */
  lemma HeldTextsAre(tokens: seq<string>, text: string)
    ensures text in HeldTexts(tokens) <==>
      || (exists a, b :: Pair(tokens, a, b) && text == a + b)
      || (text in tokens && IsRunToken(text))
  {
    if text in HeldTexts(tokens) {
      HeldTextIsWritten(tokens, text);
    }
    if a, b :| Pair(tokens, a, b) && text == a + b {
      PairIsHeld(tokens, a, b);
    }
    if text in tokens && IsRunToken(text) {
      RunTokenIsHeld(tokens, text);
    }
  }

  lemma GroupIndex(tokens: seq<string>, run: seq<string>) returns (g: nat)
    requires run in Runs(tokens)
    ensures g < |GroupsOf(tokens)| && GroupsOf(tokens)[g] == run && HasRunToken(run)
  {
    g :| 0 <= g < |GroupsOf(tokens)| && GroupsOf(tokens)[g] == run;
  }

  lemma HeldTextIsWritten(tokens: seq<string>, text: string)
    requires text in HeldTexts(tokens)
    ensures
      || (exists a, b :: Pair(tokens, a, b) && text == a + b)
      || (text in tokens && IsRunToken(text))
  {
    if run :| run in Runs(tokens) && text in PairsOf(run) {
      var g := GroupIndex(tokens, run);
      var i :| 0 <= i < |PairsOf(run)| && PairsOf(run)[i] == text;
      if |run| == 1 {
        GroupsHoldNoBoundary(tokens, g, 0);
      } else {
        GroupPairIsPair(tokens, g, i);
      }
    } else {
      var run, token :| run in Runs(tokens) && token in run && IsRunToken(token) && text == token;
      var g := GroupIndex(tokens, run);
      var i :| 0 <= i < |run| && run[i] == token;
      GroupsHoldNoBoundary(tokens, g, i);
    }
  }

  lemma PairIsHeld(tokens: seq<string>, a: string, b: string)
    requires Pair(tokens, a, b)
    ensures a + b in HeldTexts(tokens)
  {
    var k :| PairAt(tokens, a, b, k);
    var g, i := PairIsGroupPair(tokens, a, b, k);
    var run := GroupsOf(tokens)[g];
    GroupIsRun(tokens, g, if IsRunToken(a) then i else i + 1);
    assert run in Runs(tokens) && PairsOf(run)[i] in PairsOf(run) && PairsOf(run)[i] == a + b;
  }

  lemma GroupIsRun(tokens: seq<string>, g: nat, i: nat)
    requires g < |GroupsOf(tokens)| && i < |GroupsOf(tokens)[g]| && IsRunToken(GroupsOf(tokens)[g][i])
    ensures GroupsOf(tokens)[g] in Runs(tokens)
  {
  }

  lemma RunTokenIsHeld(tokens: seq<string>, token: string)
    requires token in tokens && IsRunToken(token)
    ensures token in HeldTexts(tokens)
  {
    var g, i := TokenIsGrouped(tokens, token);
    GroupIsRun(tokens, g, i);
    assert GroupsOf(tokens)[g][i] in GroupsOf(tokens)[g];
  }
}
