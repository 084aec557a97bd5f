/** What a score is, exactly: how many of the query's words and of its runs' pairs the content holds, as a
    share of what the query asks for. Said by positions in the two texts. */
module Relevance {
  import opened Results
  import opened CharTables
  import opened Tokenizer
  import opened Boundaries
  import opened Groups
  import opened Score

  // ---------- What a query asks for ----------

  predicate IsRunChar(w: string) {
    w != "" && IsUnspaced(w[0])
  }

  predicate IsPlainWord(w: string) {
    w != " " && !IsRunChar(w)
  }

  /** The query writes the word in capitals, other than as `I`, or with a digit. */
  ghost predicate Stressed(t: Tables, query: string, w: string) {
    exists v :: v in TokensOf(t, t.nfkc(query)) && t.lower(v) == w && StressedAs(t, v)
  }

  predicate StressedAs(t: Tables, v: string) {
    (t.upper(v) && v != "I") || exists i :: 0 <= i < |v| && t.digit(v[i])
  }

  /** A group of tokens written together, with a run token among them. */
  ghost predicate IsRun(group: seq<string>) {
    exists i :: 0 <= i < |group| && IsRunChar(group[i])
  }

  /** The query holds a run or a word of a segmented script. */
  ghost predicate Mixed(q: seq<string>) {
    exists w :: w in q && w != "" && (IsUnspaced(w[0]) || IsSegmentedChar(w[0]))
  }

  /** A short word counts only in a mixed query, and there only if it is of a segmented script, stressed, or
      written against a run. */
  ghost predicate AskedFor(t: Tables, query: string, q: seq<string>, w: string) {
    IsPlainWord(w) &&
    (|w| >= 3 ||
     (Mixed(q) &&
      ((w != "" && IsSegmentedChar(w[0])) || Stressed(t, query, w) ||
       exists run :: run in GroupsOf(q) && IsRun(run) && w in run)))
  }

  /** The positions of the words that the query asks for. */
  ghost function AskedAt(t: Tables, query: string, q: seq<string>): set<int> {
    set i | 0 <= i < |q| && AskedFor(t, query, q, q[i])
  }

  /** The positions of the query's runs among its groups. */
  ghost function RunsAt(groups: seq<seq<string>>): set<int> {
    set g | 0 <= g < |groups| && IsRun(groups[g])
  }

  // ---------- What the content holds ----------

  /** A word of the content is the word asked for, or both are four characters or more and begin with the
      same four; a word of a segmented script must be the whole beginning. */
  ghost predicate FoundIn(w: string, c: seq<string>) {
    exists v :: v in c && IsPlainWord(v) && Names(w, v)
  }

  predicate Names(w: string, v: string) {
    w == v || (|w| >= 4 && (if IsSegmentedChar(w[0]) then w <= v else w[..4] <= v))
  }

  /** `a` and `b` are written together, one of them a run token, or with one space between a word and a run. */
  ghost predicate Meet(c: seq<string>, a: string, b: string) {
    Pair(c, a, b) || SpacedPair(c, a, b)
  }

  /** A text the content holds in its runs: two tokens that meet, or a run token by itself. */
  ghost predicate HeldIn(text: string, c: seq<string>) {
    || (exists a, b :: Meet(c, a, b) && text == a + b)
    || (text in c && IsRunChar(text))
  }

  ghost function FoundAt(t: Tables, query: string, q: seq<string>, c: seq<string>): set<int> {
    set i | 0 <= i < |q| && AskedFor(t, query, q, q[i]) && FoundIn(q[i], c)
  }

  /** How many pairs a run has; a run of one token is its own pair. */
  function PairCount(run: seq<string>): (n: nat)
    requires run != []
    ensures n > 0
  {
    if |run| == 1 then 1 else |run| - 1
  }

  function PairText(run: seq<string>, i: int): string
    requires run != [] && 0 <= i < PairCount(run)
  {
    if |run| == 1 then run[0] else run[i] + run[i + 1]
  }

  /** The positions of the pairs of a run that the content holds. */
  ghost function HeldAt(run: seq<string>, c: seq<string>): set<int>
    requires run != []
  {
    set i | 0 <= i < PairCount(run) && HeldIn(PairText(run, i), c)
  }

  /** The shares of the runs' pairs that the content holds, added up. */
  ghost function RunShares(groups: seq<seq<string>>, c: seq<string>): real
    requires NonEmptyRuns(groups)
  {
    if groups == [] then 0.0
    else
      (if IsRun(groups[0]) then HeldShare(groups[0], c) else 0.0) + RunShares(groups[1..], c)
  }

  ghost function HeldShare(run: seq<string>, c: seq<string>): real
    requires run != []
  {
    |HeldAt(run, c)| as real / PairCount(run) as real
  }

  // ---------- Counting positions ----------

  /** The positions from `k` on where `p` holds. */
  ghost function Where<T(!new)>(s: seq<T>, p: T -> bool, k: nat): set<int> {
    set i | k <= i < |s| && p(s[i])
  }

  lemma WhereStep<T(!new)>(s: seq<T>, p: T -> bool, k: nat)
    requires k < |s|
    ensures |Where(s, p, k)| == (if p(s[k]) then 1 else 0) + |Where(s, p, k + 1)|
  {
    assert Where(s, p, k) == (if p(s[k]) then {k as int} else {}) + Where(s, p, k + 1);
  }

  lemma {:induction false} HeldCountIs(pairs: seq<string>, held: set<string>, p: string -> bool, k: nat)
    requires k <= |pairs| && forall x :: x in pairs ==> (p(x) <==> x in held)
    ensures HeldCount(pairs[k..], held) == |Where(pairs, p, k)|
    decreases |pairs| - k
  {
    if k < |pairs| {
      WhereStep(pairs, p, k);
      HeldCountIs(pairs, held, p, k + 1);
      assert pairs[k..][1..] == pairs[k + 1..] && pairs[k] in pairs;
    }
  }

  lemma {:induction false} WordsCounted(tokens: seq<string>, short: set<string>, segmentedToo: bool, words: set<string>,
      asked: string -> bool, found: string -> bool, k: nat)
    requires k <= |tokens|
    requires forall w :: w in tokens ==>
      (asked(w) <==> IsWord(w) && (|w| >= MIN_QUERY_TOKEN || (segmentedToo && IsSegmented(w)) || w in short))
    requires forall w :: w in tokens ==> (found(w) <==> asked(w) && Matches(w, words))
    ensures
      var kept := KeepLongOr(Words(tokens[k..]), short, segmentedToo);
      |kept| == |Where(tokens, asked, k)| && WordCredit(kept, words) == |Where(tokens, found, k)| as real
    decreases |tokens| - k
  {
    hide Matches, IsWord, IsSegmented, Where;
    if k < |tokens| {
      WhereStep(tokens, asked, k);
      WhereStep(tokens, found, k);
      WordsCounted(tokens, short, segmentedToo, words, asked, found, k + 1);
      assert tokens[k..][1..] == tokens[k + 1..] && tokens[k] in tokens;
      WordKept(tokens[k], Words(tokens[k + 1..]), short, segmentedToo, words);
    } else {
      NoneWhere(tokens, asked, k);
      NoneWhere(tokens, found, k);
    }
  }

  lemma NoneWhere<T(!new)>(s: seq<T>, p: T -> bool, k: nat)
    requires |s| <= k
    ensures Where(s, p, k) == {}
  {
  }

  /** What one word more adds to the counted words and to their credit. */
  lemma WordKept(w: string, rest: seq<string>, short: set<string>, segmentedToo: bool, words: set<string>)
    ensures
      var kept := KeepLongOr(rest, short, segmentedToo);
      var more := KeepLongOr((if IsWord(w) then [w] else []) + rest, short, segmentedToo);
      if IsWord(w) && (|w| >= MIN_QUERY_TOKEN || (segmentedToo && IsSegmented(w)) || w in short)
      then |more| == 1 + |kept| && WordCredit(more, words) == (if Matches(w, words) then 1.0 else 0.0) + WordCredit(kept, words)
      else more == kept
  {
    hide Matches, IsSegmented;
    var kept := KeepLongOr(rest, short, segmentedToo);
    assert ([w] + rest)[1..] == rest && ([w] + kept)[1..] == kept && [] + kept == kept && [] + rest == rest;
  }

  // ---------- What the scorer's own sets hold ----------

  lemma MixedIff(q: seq<string>)
    ensures Scripted(q) <==> Mixed(q)
  {
    hide GroupsOf;
    if w :| w in q && w != "" && (IsUnspaced(w[0]) || IsSegmentedChar(w[0])) {
      if IsRunToken(w) {
        var g, i := TokenIsGrouped(q, w);
        GroupIsRun(q, g, i);
      } else {
        assert IsWord(w) && IsSegmented(w);
      }
    }
    if Runs(q) != [] {
      assert Runs(q)[0] in Runs(q);
      var g := GroupIndex(q, Runs(q)[0]);
      var i :| 0 <= i < |GroupsOf(q)[g]| && IsRunToken(GroupsOf(q)[g][i]);
      GroupsHoldNoBoundary(q, g, i);
    }
  }

  lemma StressedIff(t: Tables, query: string, w: string)
    ensures w in Marked(t, query) <==> Stressed(t, query, w)
  {
    hide TokensOf;
  }

  lemma AskedIff(t: Tables, query: string, q: seq<string>, w: string)
    ensures AskedFor(t, query, q, w) <==> IsWord(w) && Counts(t, query, q, w)
  {
    hide Mixed, Scripted, Stressed, Marked, GroupsOf;
    MixedIff(q);
    StressedIff(t, query, w);
    RunIff(q, w);
  }

  lemma RunIff(q: seq<string>, w: string)
    ensures (exists run :: run in Runs(q) && w in run) <==> exists run :: run in GroupsOf(q) && IsRun(run) && w in run
  {
    hide GroupsOf;
    forall run
      ensures IsRun(run) <==> HasRunToken(run)
    {
      IsRunIff(run);
    }
  }

  lemma IsRunIff(run: seq<string>)
    ensures IsRun(run) <==> HasRunToken(run)
  {
    if IsRun(run) {
      var i :| 0 <= i < |run| && IsRunChar(run[i]);
      assert IsRunToken(run[i]);
    }
    if HasRunToken(run) {
      var i :| 0 <= i < |run| && IsRunToken(run[i]);
      assert IsRunChar(run[i]);
    }
  }

  lemma FoundIff(w: string, c: seq<string>)
    requires WellSpaced(c)
    ensures Matches(w, WordSet(Unspaced(c))) <==> FoundIn(w, c)
  {
    hide WellSpaced, UnspacedFrom;
    forall v
      ensures v in WordSet(Unspaced(c)) <==> v in c && IsPlainWord(v)
    {
      WordsAre(Unspaced(c), v);
      if v != BOUNDARY {
        UnspacedKeepsTokens(c, 0, v);
        assert c[0..] == c;
      }
    }
    MatchesIff(w, WordSet(Unspaced(c)));
  }

  lemma MatchesIff(w: string, words: set<string>)
    ensures Matches(w, words) <==> exists v :: v in words && Names(w, v)
  {
    if w in words {
      assert Names(w, w);
    }
    if |w| >= 4 {
      var start := if IsSegmented(w) then w else w[..4];
      if v :| v in words && start <= v {
        assert Names(w, v);
      }
    }
    if v :| v in words && Names(w, v) {
      assert w == v || (|w| >= 4 && (if IsSegmented(w) then w else w[..4]) <= v);
    }
  }

  lemma HeldIff(text: string, c: seq<string>)
    requires WellSpaced(c)
    ensures text in HeldTexts(Unspaced(c)) <==> HeldIn(text, c)
  {
    hide WellSpaced, HeldTexts, Unspaced, Pair, SpacedPair;
    HeldTextsAre(Unspaced(c), text);
    forall a, b
      ensures Pair(Unspaced(c), a, b) <==> Meet(c, a, b)
    {
      UnspacedPairs(c, a, b);
    }
    if IsRunToken(text) {
      KeptToken(c, text);
    }
  }

  lemma KeptToken(c: seq<string>, text: string)
    requires WellSpaced(c) && text != BOUNDARY
    ensures text in Unspaced(c) <==> text in c
  {
    hide WellSpaced, UnspacedFrom;
    UnspacedKeepsTokens(c, 0, text);
    assert c[0..] == c;
  }

  // ---------- The parts of the formula ----------

  lemma ShareIs(run: seq<string>, c: seq<string>)
    requires WellSpaced(c) && run != []
    ensures Share(run, HeldTexts(Unspaced(c))) == HeldShare(run, c)
  {
    hide WellSpaced, HeldTexts, Unspaced, HeldIn;
    var held := HeldTexts(Unspaced(c));
    var p := x => HeldIn(x, c);
    forall x
      ensures p(x) <==> x in held
    {
      HeldIff(x, c);
    }
    HeldCountIs(PairsOf(run), held, p, 0);
    assert PairsOf(run)[0..] == PairsOf(run);
    PairsAre(run);
    SamePlaces(run, c, p);
  }

  lemma PairsAre(run: seq<string>)
    requires run != []
    ensures |PairsOf(run)| == PairCount(run)
    ensures forall i :: 0 <= i < |PairsOf(run)| ==> PairsOf(run)[i] == PairText(run, i)
  {
  }

  lemma SamePlaces(run: seq<string>, c: seq<string>, p: string -> bool)
    requires run != [] && forall x :: p(x) <==> HeldIn(x, c)
    ensures Where(PairsOf(run), p, 0) == HeldAt(run, c)
  {
    hide HeldIn, PairsOf, PairText, PairCount;
    PairsAre(run);
    forall i
      ensures i in Where(PairsOf(run), p, 0) <==> i in HeldAt(run, c)
    {
      if 0 <= i < |PairsOf(run)| {
        assert PairsOf(run)[i] == PairText(run, i);
      }
    }
  }

  lemma {:induction false} RunsCounted(groups: seq<seq<string>>, c: seq<string>, p: seq<string> -> bool, k: nat)
    requires WellSpaced(c) && NonEmptyRuns(groups) && k <= |groups|
    requires forall run :: p(run) <==> IsRun(run)
    ensures |RunsIn(groups[k..])| == |Where(groups, p, k)|
    ensures NonEmptyRuns(groups[k..]) && NonEmptyRuns(RunsIn(groups[k..]))
    ensures RunCredit(RunsIn(groups[k..]), HeldTexts(Unspaced(c))) == RunShares(groups[k..], c)
    decreases |groups| - k
  {
    hide WellSpaced, HeldTexts, Unspaced, HeldShare, Share, IsRun, HasRunToken, Where;
    if k < |groups| {
      WhereStep(groups, p, k);
      assert groups[k..] == [groups[k]] + groups[k + 1..];
      RunsCounted(groups, c, p, k + 1);
      RunCounted(groups[k], groups[k + 1..], c);
    } else {
      NoneWhere(groups, p, k);
    }
  }

  /** What one group more adds to the runs and to their shares. */
  lemma RunCounted(group: seq<string>, rest: seq<seq<string>>, c: seq<string>)
    requires WellSpaced(c) && group != [] && NonEmptyRuns(rest) && NonEmptyRuns(RunsIn(rest))
    ensures NonEmptyRuns([group] + rest) && NonEmptyRuns(RunsIn([group] + rest))
    ensures |RunsIn([group] + rest)| == (if IsRun(group) then 1 else 0) + |RunsIn(rest)|
    ensures
      RunCredit(RunsIn([group] + rest), HeldTexts(Unspaced(c))) - RunCredit(RunsIn(rest), HeldTexts(Unspaced(c))) ==
      RunShares([group] + rest, c) - RunShares(rest, c)
  {
    hide WellSpaced, HeldTexts, Unspaced, HeldShare, Share, IsRun, HasRunToken;
    IsRunIff(group);
    assert ([group] + rest)[1..] == rest;
    if IsRun(group) {
      assert RunsIn([group] + rest) == [group] + RunsIn(rest) && ([group] + RunsIn(rest))[1..] == RunsIn(rest);
      ShareIs(group, c);
    } else {
      assert RunsIn([group] + rest) == RunsIn(rest);
    }
  }

  lemma RunsOf(q: seq<string>, c: seq<string>)
    requires WellSpaced(c)
    ensures |Runs(q)| == |RunsAt(GroupsOf(q))|
    ensures RunCredit(Runs(q), HeldTexts(Unspaced(c))) == RunShares(GroupsOf(q), c)
  {
    hide RunCredit, RunShares, WellSpaced, HeldTexts, Unspaced;
    var groups, p := GroupsOf(q), run => IsRun(run);
    assert NonEmptyRuns(Runs(q)) && groups[0..] == groups;
    RunsCounted(groups, c, p, 0);
    assert Where(groups, p, 0) == RunsAt(groups);
  }

  lemma AskedIsKept(t: Tables, query: string, q: seq<string>, words: seq<string>, short: set<string>, mixed: bool,
      w: string)
    requires w in q && words == Words(q) && Counted(t, query, q) == KeepLongOr(words, short, mixed)
    ensures AskedFor(t, query, q, w) <==>
      IsWord(w) && (|w| >= MIN_QUERY_TOKEN || (mixed && IsSegmented(w)) || w in short)
  {
    hide KeepLongOr, AskedFor, IsWord, IsSegmented, Counted, Counts;
    CountedAre(t, query, q, w);
    KeptAre(words, short, mixed, w);
    WordsAre(q, w);
    AskedIff(t, query, q, w);
  }

  lemma WordsAsked(t: Tables, query: string, q: seq<string>, c: seq<string>)
    requires WellSpaced(c)
    ensures |Counted(t, query, q)| == |AskedAt(t, query, q)|
    ensures WordCredit(Counted(t, query, q), WordSet(Unspaced(c))) == |FoundAt(t, query, q, c)| as real
  {
    hide WellSpaced, Unspaced, Matches, WordSet, KeepLongOr, WordCredit, AskedFor, FoundIn, IsWord, IsSegmented, Marked,
      Attached, GroupsOf;
    var words, runs, held := Words(q), Runs(q), WordSet(Unspaced(c));
    var mixed := runs != [] || exists w | w in words :: IsSegmented(w);
    var short := if mixed then Attached(runs) + Marked(t, query) else {};
    var asked := w => AskedFor(t, query, q, w);
    var found := w => AskedFor(t, query, q, w) && FoundIn(w, c);
    assert Counted(t, query, q) == KeepLongOr(words, short, mixed);
    forall w | w in q
      ensures asked(w) <==> IsWord(w) && (|w| >= MIN_QUERY_TOKEN || (mixed && IsSegmented(w)) || w in short)
      ensures found(w) <==> asked(w) && Matches(w, held)
    {
      AskedIsKept(t, query, q, words, short, mixed, w);
      FoundIff(w, c);
    }
    WordsCounted(q, short, mixed, held, asked, found, 0);
    assert q[0..] == q;
    assert Where(q, asked, 0) == AskedAt(t, query, q) && Where(q, found, 0) == FoundAt(t, query, q, c);
  }

  // ---------- The score ----------

  /** What the content holds of what the query asks for: a word found is worth 1, and a run the share of its
      pairs that are held. */
  ghost function Worth(t: Tables, query: string, q: seq<string>, c: seq<string>): real {
    |FoundAt(t, query, q, c)| as real + RunShares(GroupsOf(q), c)
  }

  ghost function UnitsAsked(t: Tables, query: string, q: seq<string>): nat {
    |AskedAt(t, query, q)| + |RunsAt(GroupsOf(q))|
  }

  ghost predicate IsPart(q: seq<string>, c: seq<string>) {
    q != [] && exists a, b :: c == a + q + b
  }

  lemma PartIff(q: seq<string>, c: seq<string>)
    ensures IsPhraseOf(q, c) <==> IsPart(q, c)
  {
    if IsPhraseOf(q, c) {
      var i :| PhraseAt(q, c, i);
      assert PhraseAt(q, c, i);
      assert c == c[..i] + q + c[i + |q|..];
    }
    if IsPart(q, c) {
      var a, b :| c == a + q + b;
      assert c[|a|..|a| + |q|] == q && 0 <= |a| <= |c| - |q|;
      assert PhraseAt(q, c, |a|);
    }
  }

  lemma GradedIs(t: Tables, query: string, content: string)
    requires LawfulClasses(t)
    ensures
      var q, c := TextTokens(t, query), TextTokens(t, content);
      var units := UnitsAsked(t, query, q);
      var worth := Worth(t, query, q, c);
      && |Counted(t, query, q)| + |Runs(q)| == units
      && GradedScore(t, query, content) == if units == 0 || worth == 0.0 then None else Some(worth / units as real)
  {
    hide TextTokens, Counted, GroupsOf, WordCredit, RunCredit, Unspaced, HeldTexts, WordSet, FoundAt, RunShares;
    var q, c := TextTokens(t, query), TextTokens(t, content);
    WordsAsked(t, query, q, c);
    RunsOf(q, c);
  }

  /** The score of every content for every query. A query that is part of the content, token by token,
      scores 1. Otherwise the score times the number of words and runs asked for is what was found of
      them; a memory is no hit when nothing is found or nothing is asked for. */
  lemma ScoreIs(t: Tables, query: string, content: string)
    requires LawfulClasses(t)
    ensures
      var q, c := TokensOf(t, t.lower(t.nfkc(query))), TokensOf(t, t.lower(t.nfkc(content)));
      var score := ScoreOf(t, query, content);
      var units := UnitsAsked(t, query, q);
      && (IsPart(q, c) ==> score == Some(1.0))
      && (units == 0 && !IsPart(q, c) ==> score == None)
      && (units > 0 ==> (score == None <==> Worth(t, query, q, c) == 0.0))
      && (units > 0 && score.Some? ==> score.value * units as real == Worth(t, query, q, c))
  {
    hide UnitsAsked, Worth, IsPart, IsPhraseOf, Counted, GradedScore, Run, Flush, Runs, GroupsOf;
    assert TextTokens(t, query) == TokensOf(t, t.lower(t.nfkc(query)));
    assert TextTokens(t, content) == TokensOf(t, t.lower(t.nfkc(content)));
    hide TextTokens, TokensOf;
    var q, c := TextTokens(t, query), TextTokens(t, content);
    PartIff(q, c);
    GradedIs(t, query, content);
    var units, worth := UnitsAsked(t, query, q), Worth(t, query, q, c);
    if IsPhraseOf(q, c) {
      PhraseShortcutAgrees(t, query, content);
    }
    if units > 0 {
      AllOrShare(ScoreOf(t, query, content), GradedScore(t, query, content), units, worth);
    }
  }

  /** Where anything is asked for, the shortcut for phrases gives what the formula gives. */
  lemma AllOrShare(score: Option<real>, graded: Option<real>, units: nat, worth: real)
    requires units > 0 && graded == if worth == 0.0 then None else Some(worth / units as real)
    requires score == graded
    ensures score == None <==> worth == 0.0
    ensures score.Some? ==> score.value * units as real == worth
  {
    if worth != 0.0 {
      Quotient(worth, units as real);
    }
  }

  lemma Quotient(a: real, b: real)
    requires b > 0.0
    ensures a / b * b == a
  {
  }

  // ---------- More found scores higher ----------

  ghost predicate AtMost(a: Option<real>, b: Option<real>) {
    a.Some? ==> b.Some? && a.value <= b.value
  }

  ghost predicate Below(a: Option<real>, b: Option<real>) {
    b.Some? && (a.Some? ==> a.value < b.value)
  }

  /** Every word and every pair the query asks for that `c` holds, `d` holds too. */
  ghost predicate HoldsAsMuch(t: Tables, query: string, q: seq<string>, c: seq<string>, d: seq<string>) {
    && (forall i :: i in AskedAt(t, query, q) && FoundIn(q[i], c) ==> FoundIn(q[i], d))
    && (forall g :: g in RunsAt(GroupsOf(q)) ==> HeldAt(GroupsOf(q)[g], c) <= HeldAt(GroupsOf(q)[g], d))
  }

  ghost predicate HoldsMore(t: Tables, query: string, q: seq<string>, c: seq<string>, d: seq<string>) {
    || (exists i :: i in AskedAt(t, query, q) && FoundIn(q[i], d) && !FoundIn(q[i], c))
    || (exists g :: g in RunsAt(GroupsOf(q)) && HeldAt(GroupsOf(q)[g], c) < HeldAt(GroupsOf(q)[g], d))
  }

  lemma SubsetSize(a: set<int>, b: set<int>)
    requires a <= b
    ensures |a| <= |b| && (a < b ==> |a| < |b|)
  {
    assert b == a + (b - a);
  }

  lemma MoreShare(run: seq<string>, c: seq<string>, d: seq<string>)
    requires run != [] && HeldAt(run, c) <= HeldAt(run, d)
    ensures HeldShare(run, c) <= HeldShare(run, d)
    ensures HeldAt(run, c) < HeldAt(run, d) ==> HeldShare(run, c) < HeldShare(run, d)
  {
    hide HeldAt;
    SubsetSize(HeldAt(run, c), HeldAt(run, d));
    LessOver(|HeldAt(run, c)|, |HeldAt(run, d)|, PairCount(run) as real);
  }

  lemma LessOver(a: int, b: int, n: real)
    requires a <= b && n > 0.0
    ensures a as real / n <= b as real / n && (a < b ==> a as real / n < b as real / n)
  {
    OverMonotone(a as real, b as real, n);
  }

  lemma OverMonotone(a: real, b: real, n: real)
    requires a <= b && n > 0.0
    ensures a / n <= b / n && (a < b ==> a / n < b / n)
  {
    Quotient(b - a, n);
    assert b / n == a / n + (b - a) / n;
    if a < b {
      Positive((b - a) / n, n);
    }
  }

  lemma Positive(x: real, n: real)
    requires n > 0.0 && x * n > 0.0
    ensures x > 0.0
  {
  }

  lemma {:induction false} MoreShares(groups: seq<seq<string>>, c: seq<string>, d: seq<string>)
    requires NonEmptyRuns(groups)
    requires forall g :: 0 <= g < |groups| && IsRun(groups[g]) ==> HeldAt(groups[g], c) <= HeldAt(groups[g], d)
    ensures RunShares(groups, c) <= RunShares(groups, d)
    ensures
      (exists g :: 0 <= g < |groups| && IsRun(groups[g]) && HeldAt(groups[g], c) < HeldAt(groups[g], d)) ==>
        RunShares(groups, c) < RunShares(groups, d)
    decreases |groups|
  {
    hide HeldAt, IsRun, HeldShare;
    if groups != [] {
      var rest := groups[1..];
      assert forall g :: 0 < g < |groups| ==> groups[g] == rest[g - 1];
      assert forall g :: 0 <= g < |rest| ==> rest[g] == groups[g + 1];
      MoreShares(rest, c, d);
      if IsRun(groups[0]) {
        MoreShare(groups[0], c, d);
      }
    }
  }

  lemma MoreWorth(t: Tables, query: string, q: seq<string>, c: seq<string>, d: seq<string>)
    requires HoldsAsMuch(t, query, q, c, d)
    ensures Worth(t, query, q, c) <= Worth(t, query, q, d)
    ensures HoldsMore(t, query, q, c, d) ==> Worth(t, query, q, c) < Worth(t, query, q, d)
  {
    hide AskedFor, FoundIn, HeldAt, IsRun, GroupsOf;
    var groups := GroupsOf(q);
    SubsetSize(FoundAt(t, query, q, c), FoundAt(t, query, q, d));
    forall g | 0 <= g < |groups| && IsRun(groups[g])
      ensures HeldAt(groups[g], c) <= HeldAt(groups[g], d)
    {
      assert g in RunsAt(groups);
    }
    MoreShares(groups, c, d);
    if i :| i in AskedAt(t, query, q) && FoundIn(q[i], d) && !FoundIn(q[i], c) {
      assert i in FoundAt(t, query, q, d) && i !in FoundAt(t, query, q, c);
    } else if HoldsMore(t, query, q, c, d) {
      var g :| g in RunsAt(groups) && HeldAt(groups[g], c) < HeldAt(groups[g], d);
      assert IsRun(groups[g]);
    }
  }

  lemma {:induction false} WorthIsPositive(groups: seq<seq<string>>, c: seq<string>)
    requires NonEmptyRuns(groups)
    ensures RunShares(groups, c) >= 0.0
    decreases |groups|
  {
    hide HeldAt, IsRun;
    if groups != [] {
      assert forall g :: 0 <= g < |groups[1..]| ==> groups[1..][g] == groups[g + 1];
      WorthIsPositive(groups[1..], c);
      LessOver(0, |HeldAt(groups[0], c)|, PairCount(groups[0]) as real);
    }
  }

  /** Content that holds everything that other content holds of what a query asks for scores at least as
      high, and higher if it holds one more word or one more pair: search ranks it above. The query must ask
      for something; one that asks for nothing is found only as a phrase. */
  lemma MoreFoundScoresHigher(t: Tables, query: string, one: string, other: string)
    requires LawfulClasses(t)
    requires
      var q := TextTokens(t, query);
      && UnitsAsked(t, query, q) > 0
      && HoldsAsMuch(t, query, q, TextTokens(t, one), TextTokens(t, other))
    ensures AtMost(ScoreOf(t, query, one), ScoreOf(t, query, other))
    ensures
      HoldsMore(t, query, TextTokens(t, query), TextTokens(t, one), TextTokens(t, other)) ==>
        Below(ScoreOf(t, query, one), ScoreOf(t, query, other))
  {
    hide UnitsAsked, Worth, IsPart, HoldsAsMuch, HoldsMore, ScoreOf;
    var q, c, d := TextTokens(t, query), TextTokens(t, one), TextTokens(t, other);
    ScoreIs(t, query, one);
    ScoreIs(t, query, other);
    MoreWorth(t, query, q, c, d);
    NothingBelowZero(t, query, q, c);
    Compare(ScoreOf(t, query, one), ScoreOf(t, query, other), UnitsAsked(t, query, q) as real,
            Worth(t, query, q, c), Worth(t, query, q, d));
  }

  lemma NothingBelowZero(t: Tables, query: string, q: seq<string>, c: seq<string>)
    ensures Worth(t, query, q, c) >= 0.0
  {
    hide GroupsOf, FoundAt, RunShares;
    WorthIsPositive(GroupsOf(q), c);
  }

  lemma Compare(a: Option<real>, b: Option<real>, units: real, v: real, w: real)
    requires units > 0.0 && 0.0 <= v <= w
    requires (a == None <==> v == 0.0) && (a.Some? ==> a.value * units == v)
    requires (b == None <==> w == 0.0) && (b.Some? ==> b.value * units == w)
    ensures AtMost(a, b) && (v < w ==> Below(a, b))
  {
    if a.Some? && b.Some? {
      SameOrder(a.value, b.value, units);
    }
  }

  lemma SameOrder(x: real, y: real, n: real)
    requires n > 0.0 && x * n <= y * n
    ensures x <= y && (x * n < y * n ==> x < y)
  {
    if x >= y {
      Grows(x - y, n);
      assert (x - y) * n == x * n - y * n;
    }
  }

  lemma Grows(x: real, n: real)
    requires x >= 0.0 && n > 0.0
    ensures x * n >= 0.0 && (x > 0.0 ==> x * n > 0.0)
  {
  }
}
