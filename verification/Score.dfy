/** Relevance of a memory's content to a query: `score`. */
module Score {
  import opened Results
  import opened CharTables
  import opened Tokenizer
  import opened FastTokenizer
  import opened Boundaries
  import opened Groups

  const MIN_QUERY_TOKEN := 3
  const SHARED_PREFIX := 4

  /** Equal, or sharing a four-character prefix; a word of a segmented script names the start of a
      compound. */
  predicate Matches(query: string, words: set<string>) {
    query in words ||
    (|query| >= SHARED_PREFIX &&
     exists w | w in words :: (if IsSegmented(query) then query else query[..SHARED_PREFIX]) <= w)
  }

  predicate PhraseAt(query: seq<string>, content: seq<string>, i: int) {
    0 <= i <= |content| - |query| && content[i..i + |query|] == query
  }

  predicate IsPhraseOf(query: seq<string>, content: seq<string>) {
    query != [] && exists i | 0 <= i <= |content| - |query| :: PhraseAt(query, content, i)
  }

  function Attached(runs: seq<seq<string>>): set<string> {
    set run, token | run in runs && token in run :: token
  }

  predicate HasDigit(t: Tables, w: string) {
    exists i :: 0 <= i < |w| && t.digit(w[i])
  }

  /** Words the query writes in capitals, or with a digit. */
  function Marked(t: Tables, query: string): set<string> {
    set w | w in TokensOf(t, t.nfkc(query)) && ((t.upper(w) && w != "I") || HasDigit(t, w)) :: t.lower(w)
  }

  function KeepLongOr(words: seq<string>, short: set<string>, segmentedToo: bool): (kept: seq<string>)
    ensures forall w :: w in kept ==> w in words
  {
    if words == [] then []
    else
      var w := words[0];
      (if |w| >= MIN_QUERY_TOKEN || (segmentedToo && IsSegmented(w)) || w in short then [w] else [])
      + KeepLongOr(words[1..], short, segmentedToo)
  }

  /** The query words that count. Short words do only in a query that holds one of the scripts. */
  function Counted(t: Tables, query: string, tokens: seq<string>): (counted: seq<string>)
    ensures forall w :: w in counted ==> w in Words(tokens)
  {
    var words, runs := Words(tokens), Runs(tokens);
    if runs != [] || exists w | w in words :: IsSegmented(w)
    then KeepLongOr(words, Attached(runs) + Marked(t, query), true)
    else KeepLongOr(words, {}, false)
  }

  /** Whether the query holds a run or a word of a segmented script. */
  ghost predicate Scripted(tokens: seq<string>) {
    Runs(tokens) != [] || exists w :: w in tokens && IsWord(w) && IsSegmented(w)
  }

  ghost predicate Counts(t: Tables, query: string, tokens: seq<string>, w: string) {
    || |w| >= MIN_QUERY_TOKEN
    || (Scripted(tokens) && (IsSegmented(w) || w in Marked(t, query) || exists run :: run in Runs(tokens) && w in run))
  }

  lemma {:induction false} KeptAre(words: seq<string>, short: set<string>, segmentedToo: bool, w: string)
    ensures w in KeepLongOr(words, short, segmentedToo) <==>
      w in words && (|w| >= MIN_QUERY_TOKEN || (segmentedToo && IsSegmented(w)) || w in short)
    decreases |words|
  {
    if words != [] {
      KeptAre(words[1..], short, segmentedToo, w);
      assert words == [words[0]] + words[1..];
    }
  }

  /** A word counts when it is long; and in a query of these scripts also when it belongs to a segmented
      script, is written against a run, or is marked by a capital or a digit. */
  lemma CountedAre(t: Tables, query: string, tokens: seq<string>, w: string)
    ensures w in Counted(t, query, tokens) <==> w in tokens && IsWord(w) && Counts(t, query, tokens, w)
  {
    var words, runs := Words(tokens), Runs(tokens);
    KeptAre(words, Attached(runs) + Marked(t, query), true, w);
    KeptAre(words, {}, false, w);
    forall v
      ensures v in words <==> v in tokens && IsWord(v)
    {
      WordsAre(tokens, v);
    }
  }

  // ---------- Credit ----------

  function WordCredit(counted: seq<string>, words: set<string>): real {
    if counted == [] then 0.0
    else (if Matches(counted[0], words) then 1.0 else 0.0) + WordCredit(counted[1..], words)
  }

  function HeldCount(pairs: seq<string>, held: set<string>): nat {
    if pairs == [] then 0 else (if pairs[0] in held then 1 else 0) + HeldCount(pairs[1..], held)
  }

  /** The share of a run's pairs that the content holds. */
  function Share(run: seq<string>, held: set<string>): real
    requires run != []
  {
    HeldCount(PairsOf(run), held) as real / |PairsOf(run)| as real
  }

  function RunCredit(runs: seq<seq<string>>, held: set<string>): real
    requires NonEmptyRuns(runs)
  {
    if runs == [] then 0.0 else Share(runs[0], held) + RunCredit(runs[1..], held)
  }

  /** Credit per unit, where each counted word and each run is one unit. */
  function Grade(credit: real, units: nat): Option<real> {
    if units == 0 || credit == 0.0 then None else Some(credit / units as real)
  }

  function WordSet(tokens: seq<string>): set<string> {
    set w | w in Words(tokens)
  }

  function Credit(counted: seq<string>, runs: seq<seq<string>>, words: set<string>, held: set<string>): real
    requires NonEmptyRuns(runs)
  {
    WordCredit(counted, words) + RunCredit(runs, held)
  }

  /** The score of a query's tokens against the tokens of the content, closed up by `_unspaced`. */
  function Graded(counted: seq<string>, runs: seq<seq<string>>, content: seq<string>): Option<real>
    requires NonEmptyRuns(runs)
  {
    Grade(Credit(counted, runs, WordSet(content), HeldTexts(content)), |counted| + |runs|)
  }

  function TextTokens(t: Tables, text: string): (tokens: seq<string>)
    requires LawfulClasses(t)
    ensures WellSpaced(tokens)
  {
    TokensAreWellSpaced(t, Fold(t, text));
    TokensOf(t, Fold(t, text))
  }

  function GradedScore(t: Tables, query: string, content: string): Option<real>
    requires LawfulClasses(t)
  {
    var tokens := TextTokens(t, query);
    Graded(Counted(t, query, tokens), Runs(tokens), Unspaced(TextTokens(t, content)))
  }

  function ScoreOf(t: Tables, query: string, content: string): Option<real>
    requires LawfulClasses(t)
  {
    if IsPhraseOf(TextTokens(t, query), TextTokens(t, content)) then Some(1.0)
    else GradedScore(t, query, content)
  }

  method Score(t: Tables, query: string, content: string) returns (relevance: Option<real>)
    requires Lawful(t)
    ensures relevance == ScoreOf(t, query, content)
  {
    var queryTokens := Tokenize(t, query);
    var contentTokens := Tokenize(t, content);
    TokensAreWellSpaced(t, Fold(t, content));
    if IsPhraseOf(queryTokens, contentTokens) {
      return Some(1.0);
    }
    var queryWords, queryRuns := WordsAndRuns(queryTokens);
    relevance := GradeUnits(Counted(t, query, queryTokens), queryRuns, Unspaced(contentTokens));
  }

  method GradeUnits(counted: seq<string>, runs: seq<seq<string>>,
      content: seq<string>) returns (relevance: Option<real>)
    requires NonEmptyRuns(runs)
    ensures relevance == Graded(counted, runs, content)
  {
    if counted == [] && runs == [] {
      return None;
    }
    var words, held := WordSet(content), HeldTexts(content);
    var credit := AddRunCredit(WordCredit(counted, words), runs, held);
    relevance := Grade(credit, |counted| + |runs|);
  }

  method AddRunCredit(wordCredit: real, runs: seq<seq<string>>, held: set<string>) returns (credit: real)
    requires NonEmptyRuns(runs)
    ensures credit == wordCredit + RunCredit(runs, held)
  {
    credit := wordCredit;
    for i := 0 to |runs|
      invariant credit + RunCredit(runs[i..], held) == wordCredit + RunCredit(runs, held)
    {
      assert runs[i..][1..] == runs[i + 1..];
      credit := credit + Share(runs[i], held);
    }
  }

  // ---------- Bounds ----------

  lemma {:induction false} WordCreditBounds(counted: seq<string>, words: set<string>)
    ensures 0.0 <= WordCredit(counted, words) <= |counted| as real
    ensures WordCredit(counted, words) == |counted| as real <==> forall w :: w in counted ==> Matches(w, words)
    ensures WordCredit(counted, words) == 0.0 <==> forall w :: w in counted ==> !Matches(w, words)
  {
    if counted != [] {
      WordCreditBounds(counted[1..], words);
    }
  }

  lemma {:induction false} HeldCountBounds(pairs: seq<string>, held: set<string>)
    ensures HeldCount(pairs, held) <= |pairs|
    ensures HeldCount(pairs, held) == |pairs| <==> forall p :: p in pairs ==> p in held
    ensures HeldCount(pairs, held) == 0 <==> forall p :: p in pairs ==> p !in held
  {
    if pairs != [] {
      HeldCountBounds(pairs[1..], held);
    }
  }

  lemma Ratio(a: real, b: real)
    requires 0.0 <= a <= b && 0.0 < b
    ensures 0.0 <= a / b <= 1.0
    ensures a / b == 0.0 <==> a == 0.0
    ensures a / b == 1.0 <==> a == b
  {
    assert a == (a / b) * b;
  }

  ghost predicate AllHeld(run: seq<string>, held: set<string>) {
    forall p :: p in PairsOf(run) ==> p in held
  }

  ghost predicate NoneHeld(run: seq<string>, held: set<string>) {
    forall p :: p in PairsOf(run) ==> p !in held
  }

  lemma ShareBounds(run: seq<string>, held: set<string>)
    requires run != []
    ensures 0.0 <= Share(run, held) <= 1.0
    ensures Share(run, held) == 1.0 <==> AllHeld(run, held)
    ensures Share(run, held) == 0.0 <==> NoneHeld(run, held)
  {
    HeldCountBounds(PairsOf(run), held);
    Ratio(HeldCount(PairsOf(run), held) as real, |PairsOf(run)| as real);
  }

  lemma {:induction false} RunCreditBounds(runs: seq<seq<string>>, held: set<string>)
    requires NonEmptyRuns(runs)
    ensures 0.0 <= RunCredit(runs, held) <= |runs| as real
    ensures RunCredit(runs, held) == |runs| as real <==> forall run :: run in runs ==> AllHeld(run, held)
    ensures RunCredit(runs, held) == 0.0 <==> forall run :: run in runs ==> NoneHeld(run, held)
  {
    if runs != [] {
      ShareBounds(runs[0], held);
      RunCreditBounds(runs[1..], held);
      assert runs == [runs[0]] + runs[1..];
    }
  }

  // ---------- What a score says ----------

  ghost predicate AllFound(counted: seq<string>, runs: seq<seq<string>>, words: set<string>, held: set<string>) {
    (forall w :: w in counted ==> Matches(w, words)) && (forall run :: run in runs ==> AllHeld(run, held))
  }

  ghost predicate NoneFound(counted: seq<string>, runs: seq<seq<string>>, words: set<string>, held: set<string>) {
    (forall w :: w in counted ==> !Matches(w, words)) && (forall run :: run in runs ==> NoneHeld(run, held))
  }

  lemma CreditBounds(counted: seq<string>, runs: seq<seq<string>>, words: set<string>, held: set<string>)
    requires NonEmptyRuns(runs)
    ensures
      var credit := Credit(counted, runs, words, held);
      && 0.0 <= credit <= (|counted| + |runs|) as real
      && (credit == (|counted| + |runs|) as real <==> AllFound(counted, runs, words, held))
      && (credit == 0.0 <==> NoneFound(counted, runs, words, held))
  {
    WordCreditBounds(counted, words);
    RunCreditBounds(runs, held);
  }

  lemma GradeMeaning(credit: real, units: nat, all: bool, none: bool)
    requires 0.0 <= credit <= units as real
    requires (credit == units as real <==> all) && (credit == 0.0 <==> none)
    ensures
      var grade := Grade(credit, units);
      && (grade.Some? ==> 0.0 < grade.value <= 1.0)
      && (grade == None <==> none)
      && (grade == Some(1.0) <==> units > 0 && all)
  {
    if units > 0 {
      Ratio(credit, units as real);
    }
  }

  /** The graded score is a hit exactly when something counted is found; it is then above 0 and at most
      1, and it is 1 exactly when every counted word matches and every pair of every run is held. */
  lemma GradedMeaning(counted: seq<string>, runs: seq<seq<string>>, content: seq<string>)
    requires NonEmptyRuns(runs)
    ensures
      var graded := Graded(counted, runs, content);
      var words, held := WordSet(content), HeldTexts(content);
      && (graded.Some? ==> 0.0 < graded.value <= 1.0)
      && (graded == None <==> NoneFound(counted, runs, words, held))
      && (graded == Some(1.0) <==> |counted| + |runs| > 0 && AllFound(counted, runs, words, held))
  {
    hide WordCredit, RunCredit, AllFound, NoneFound, HeldTexts, WordSet;
    var words, held := WordSet(content), HeldTexts(content);
    CreditBounds(counted, runs, words, held);
    GradeMeaning(Credit(counted, runs, words, held), |counted| + |runs|,
                 AllFound(counted, runs, words, held), NoneFound(counted, runs, words, held));
  }

  lemma ScoreInRange(t: Tables, query: string, content: string)
    requires LawfulClasses(t)
    ensures ScoreOf(t, query, content).Some? ==> 0.0 < ScoreOf(t, query, content).value <= 1.0
  {
    var q := TextTokens(t, query);
    GradedMeaning(Counted(t, query, q), Runs(q), Unspaced(TextTokens(t, content)));
  }

  // ---------- The phrase shortcut ----------

  lemma {:induction false} WordsAre(tokens: seq<string>, w: string)
    ensures w in Words(tokens) <==> w in tokens && IsWord(w)
  {
    if tokens != [] {
      WordsAre(tokens[1..], w);
    }
  }

  lemma PhraseHasPair(query: seq<string>, content: seq<string>, i: int, a: string, b: string)
    requires PhraseAt(query, content, i) && Pair(query, a, b)
    ensures Pair(content, a, b)
  {
    var k :| PairAt(query, a, b, k);
    assert content[i..i + |query|][k] == a && content[i..i + |query|][k + 1] == b;
    assert PairAt(content, a, b, i + k);
  }

  lemma PhraseHoldsRuns(query: seq<string>, content: seq<string>, i: int, run: seq<string>)
    requires WellSpaced(content) && PhraseAt(query, content, i) && run in Runs(query)
    ensures AllHeld(run, HeldTexts(Unspaced(content)))
  {
    forall p | p in PairsOf(run)
      ensures p in HeldTexts(Unspaced(content))
    {
      assert p in HeldTexts(query);
      HeldTextIsWritten(query, p);
      if a, b :| Pair(query, a, b) && p == a + b {
        PhraseHasPair(query, content, i, a, b);
        UnspacedPairs(content, a, b);
        PairIsHeld(Unspaced(content), a, b);
      } else {
        UnspacedKeepsTokens(content, 0, p);
        assert p in content[i..i + |query|];
        RunTokenIsHeld(Unspaced(content), p);
      }
    }
  }

  lemma PhraseHoldsWords(query: seq<string>, content: seq<string>, i: int, w: string)
    requires WellSpaced(content) && PhraseAt(query, content, i) && w in Words(query)
    ensures w in WordSet(Unspaced(content))
  {
    WordsAre(query, w);
    assert w in content[i..i + |query|];
    UnspacedKeepsTokens(content, 0, w);
    WordsAre(Unspaced(content), w);
  }

  /** When the query is a phrase of the content, the graded formula gives 1 as well, unless nothing in the
      query counts: only then does the shortcut find what the formula would not. */
  lemma PhraseShortcutAgrees(t: Tables, query: string, content: string)
    requires LawfulClasses(t) && IsPhraseOf(TextTokens(t, query), TextTokens(t, content))
    ensures
      var q := TextTokens(t, query);
      GradedScore(t, query, content) == if Counted(t, query, q) == [] && Runs(q) == [] then None else Some(1.0)
  {
    var q, c := TextTokens(t, query), TextTokens(t, content);
    var i :| PhraseAt(q, c, i);
    forall w | w in Counted(t, query, q)
      ensures Matches(w, WordSet(Unspaced(c)))
    {
      PhraseHoldsWords(q, c, i, w);
    }
    forall run | run in Runs(q)
      ensures AllHeld(run, HeldTexts(Unspaced(c)))
    {
      PhraseHoldsRuns(q, c, i, run);
    }
    GradedMeaning(Counted(t, query, q), Runs(q), Unspaced(c));
  }

  // ---------- Spacing ----------

  /** Each list of tokens is the one before it with a boundary between a word and a run put in or
      taken out. */
  ghost predicate Respaced(chain: seq<seq<string>>) {
    forall k {:trigger Linked(chain, k)} :: 0 <= k < |chain| - 1 ==> Linked(chain, k)
  }

  ghost predicate Linked(chain: seq<seq<string>>, k: int)
    requires 0 <= k < |chain| - 1
  {
    Reopens(chain[k], chain[k + 1]) || Reopens(chain[k + 1], chain[k])
  }

  ghost predicate Reopens(closed: seq<string>, open: seq<string>) {
    exists i: nat :: Droppable(open, i) && closed == Closed(open, i)
  }

  lemma {:induction false} RespacedAlike(chain: seq<seq<string>>)
    requires chain != [] && Respaced(chain) && WellSpaced(chain[0])
    ensures WellSpaced(Last(chain)) && Unspaced(chain[0]) == Unspaced(Last(chain))
    decreases |chain|
  {
    if |chain| > 1 {
      assert Linked(chain, 0);
      var open := if Reopens(chain[0], chain[1]) then chain[1] else chain[0];
      var closed := if Reopens(chain[0], chain[1]) then chain[0] else chain[1];
      assert Reopens(closed, open);
      var i: nat :| Droppable(open, i) && closed == Closed(open, i);
      ClosingChangesNothing(open, i);
      forall k | 0 <= k < |chain[1..]| - 1
        ensures Linked(chain[1..], k)
      {
        assert Linked(chain, k + 1);
      }
      RespacedAlike(chain[1..]);
    }
  }

  /** Two memories whose tokens differ only in boundaries between a word and a run rank alike by the
      graded formula, for every query. */
  lemma SpacingDoesNotMatter(t: Tables, query: string, one: string, other: string, chain: seq<seq<string>>)
    requires LawfulClasses(t) && chain != [] && Respaced(chain)
    requires chain[0] == TextTokens(t, one) && Last(chain) == TextTokens(t, other)
    ensures GradedScore(t, query, one) == GradedScore(t, query, other)
  {
    RespacedAlike(chain);
  }
}
