/** What becomes of each kind of character, as laws about the tokens of texts and the character tables. */
module TokenLaws {
  import opened CharTables
  import opened Tokenizer
  import opened FastTokenizer
  import opened Units

  /** A character of no special script, or a digit of a segmented one, and of no special meaning. */
  predicate Ordinary(t: Tables, c: char) {
    !IsUnspaced(c) && !(IsSegmentedChar(c) && !t.digit(c)) && !IsWordMark(c) && !(t.format(c) && c != ZERO_WIDTH_SPACE)
  }

  lemma {:induction false} NothingIgnored(t: Tables, text: string)
    requires forall i :: 0 <= i < |text| ==> !IsIgnored(t, text[i])
    ensures Heard(t, text) == text
    decreases |text|
  {
    if text != "" {
      NothingIgnored(t, text[1..]);
    }
  }

  lemma {:induction false} WholeWord(t: Tables, w: string, rest: string)
    requires forall i :: 0 <= i < |w| ==> IsLetter(t, w[i]) || IsAccent(t, w[i])
    requires rest != "" ==> !IsLetter(t, rest[0]) && !IsAccent(t, rest[0])
    ensures WordLength(t, w + rest) == |w|
    decreases |w|
  {
    if w == "" {
      assert w + rest == rest;
    } else {
      assert (w + rest)[1..] == w[1..] + rest;
      WholeWord(t, w[1..], rest);
    }
  }

  lemma {:induction false} WholeStretch(t: Tables, text: string)
    requires forall i :: 0 <= i < |text| ==> IsScript(t, text[i])
    ensures StretchLength(t, text) == |text|
    decreases |text|
  {
    if text != "" {
      WholeStretch(t, text[1..]);
    }
  }

  lemma UnitsOfWord(t: Tables, w: string, rest: string)
    requires w != "" && IsLetter(t, w[0])
    requires forall i :: 0 <= i < |w| ==> IsLetter(t, w[i]) || IsAccent(t, w[i])
    requires rest != "" ==> !IsLetter(t, rest[0]) && !IsAccent(t, rest[0])
    ensures UnitsOf(t, w + rest) == [Tok(w)] + UnitsOf(t, rest)
  {
    WholeWord(t, w, rest);
    assert (w + rest)[..|w|] == w && (w + rest)[|w|..] == rest;
  }

  /** A letter with the letters and marks that follow it is one token: the text itself. No letter of any
      alphabet is lost, and a mark stays with its word. */
  lemma WordIsOneToken(t: Tables, text: string)
    requires text != "" && t.alnum(text[0])
    requires forall i :: 0 <= i < |text| ==> Ordinary(t, text[i]) && (t.alnum(text[i]) || t.mark(text[i]))
    ensures TokensOf(t, text) == [text]
  {
    TokensAreUnits(t, text);
    NothingIgnored(t, text);
    assert text + "" == text;
    UnitsOfWord(t, text, "");
    assert [Tok(text)] + [] == [Tok(text)];
    GlueTail([], Tok(text), [], false);
    assert [] + [text] == [text];
  }

  /** A joiner or a soft hyphen changes no token, wherever it stands. */
  lemma IgnoredChangesNothing(t: Tables, a: string, c: char, b: string)
    requires t.format(c) && c != ZERO_WIDTH_SPACE
    ensures TokensOf(t, a + [c] + b) == TokensOf(t, a + b)
  {
    hide Run, Flush, Step;
    RunConcat(t, START, a + [c], b);
    RunConcat(t, START, a, [c]);
    RunConcat(t, START, a, b);
    var s := Run(t, START, a);
    IgnoredStep(t, s, c);
    OneStep(t, s, c);
  }

  lemma OneStep(t: Tables, s: Buffers, c: char)
    ensures Run(t, s, [c]) == Step(t, s, c)
  {
    assert [c][1..] == "";
  }

  /** Each character of an unspaced script that is a letter or a mark, by itself; the others drop out. */
  function Singles(t: Tables, text: string): seq<string> {
    if text == "" then []
    else if t.alnum(text[0]) || t.mark(text[0]) then [[text[0]]] + Singles(t, text[1..])
    else Singles(t, text[1..])
  }

  lemma {:induction false} SinglesGlue(t: Tables, tokens: seq<string>, text: string, rest: string)
    requires forall i :: 0 <= i < |text| ==> IsUnspaced(text[i])
    ensures Glue(tokens, UnitsOf(t, text + rest), false) == Glue(tokens + Singles(t, text), UnitsOf(t, rest), false)
    decreases |text|
  {
    hide Glue;
    if text == "" {
      assert text + rest == rest && tokens + [] == tokens;
    } else {
      assert (text + rest)[1..] == text[1..] + rest;
      var more := UnitsOf(t, text[1..] + rest);
      if t.alnum(text[0]) || t.mark(text[0]) {
        assert UnitsOf(t, text + rest) == [Tok([text[0]])] + more;
        GlueTail(tokens, Tok([text[0]]), more, false);
        SinglesGlue(t, tokens + [[text[0]]], text[1..], rest);
        assert tokens + [[text[0]]] + Singles(t, text[1..]) == tokens + Singles(t, text);
      } else {
        assert UnitsOf(t, text + rest) == [] + more;
        assert [] + more == more;
        SinglesGlue(t, tokens, text[1..], rest);
      }
    }
  }

  ghost predicate AllHeard(t: Tables, text: string) {
    forall i :: 0 <= i < |text| ==> !(t.format(text[i]) && text[i] != ZERO_WIDTH_SPACE)
  }

  /** A run of an unspaced script is its characters, each a token of its own, with no boundary between. */
  lemma RunIsItsCharacters(t: Tables, text: string)
    requires AllHeard(t, text) && forall i :: 0 <= i < |text| ==> IsUnspaced(text[i])
    ensures TokensOf(t, text) == Singles(t, text)
  {
    TokensAreUnits(t, text);
    NothingIgnored(t, text);
    SinglesGlue(t, [], text, "");
    assert text + "" == text && [] + Singles(t, text) == Singles(t, text);
  }

  /** A word written against a run, on either side, is a token beside the run's, with no boundary. */
  lemma WordAgainstRun(t: Tables, word: string, run: string)
    requires word != "" && t.alnum(word[0])
    requires forall i :: 0 <= i < |word| ==> Ordinary(t, word[i]) && (t.alnum(word[i]) || t.mark(word[i]))
    requires AllHeard(t, run) && forall i :: 0 <= i < |run| ==> IsUnspaced(run[i])
    ensures TokensOf(t, word + run) == [word] + Singles(t, run)
    ensures TokensOf(t, run + word) == Singles(t, run) + [word]
  {
    hide Glue, UnitsOf, Singles;
    TokensAreUnits(t, word + run);
    NothingIgnored(t, word + run);
    UnitsOfWord(t, word, run);
    GlueTail([], Tok(word), UnitsOf(t, run), false);
    SinglesGlue(t, [word], run, "");
    assert run + "" == run && [] + [word] == [word];
    NoUnits(t, [word] + Singles(t, run));
    TokensAreUnits(t, run + word);
    NothingIgnored(t, run + word);
    SinglesGlue(t, [], run, word);
    assert [] + Singles(t, run) == Singles(t, run) && word + "" == word;
    UnitsOfWord(t, word, "");
    GlueTail(Singles(t, run), Tok(word), UnitsOf(t, ""), false);
    NoUnits(t, Singles(t, run) + [word]);
  }

  lemma NoUnits(t: Tables, tokens: seq<string>)
    ensures Glue(tokens, UnitsOf(t, ""), false) == tokens
  {
  }

  /** The words that hold an alphanumeric character, in order. */
  function AlnumWords(t: Tables, words: seq<string>): seq<string> {
    if words == [] then []
    else if exists i :: 0 <= i < |words[0]| && t.alnum(words[0][i]) then [words[0]] + AlnumWords(t, words[1..])
    else AlnumWords(t, words[1..])
  }

  lemma {:induction false} WordsGlue(t: Tables, tokens: seq<string>, words: seq<string>)
    ensures Glue(tokens, WordsIn(t, words), false) == tokens + AlnumWords(t, words)
    decreases |words|
  {
    hide Glue;
    if words == [] {
      NoUnits(t, tokens);
      assert tokens + [] == tokens;
    } else if exists i :: 0 <= i < |words[0]| && t.alnum(words[0][i]) {
      GlueTail(tokens, Tok(words[0]), WordsIn(t, words[1..]), false);
      WordsGlue(t, tokens + [words[0]], words[1..]);
      assert tokens + [words[0]] + AlnumWords(t, words[1..]) == tokens + ([words[0]] + AlnumWords(t, words[1..]));
    } else {
      WordsGlue(t, tokens, words[1..]);
    }
  }

  /** A stretch of a segmented script is the dictionary's words of the whole stretch, those without an
      alphanumeric character left out. */
  lemma StretchIsItsWords(t: Tables, text: string)
    requires text != "" && AllHeard(t, text)
    requires forall i :: 0 <= i < |text| ==> IsSegmentedChar(text[i]) && !IsWordMark(text[i]) && !t.digit(text[i])
    ensures TokensOf(t, text) == AlnumWords(t, t.dictionary(text))
  {
    TokensAreUnits(t, text);
    NothingIgnored(t, text);
    WholeStretch(t, text);
    assert text[..|text|] == text && text[|text|..] == "";
    assert UnitsOf(t, text) == WordsIn(t, t.dictionary(text)) + [];
    assert WordsIn(t, t.dictionary(text)) + [] == WordsIn(t, t.dictionary(text));
    WordsGlue(t, [], t.dictionary(text));
    assert [] + AlnumWords(t, t.dictionary(text)) == AlnumWords(t, t.dictionary(text));
  }

  /** A repetition or abbreviation mark, or any character that is no letter, no mark and of no special script,
      ends what stands before it: the tokens on either side are those of each side alone, with a boundary
      between where one of the two that meet is a run token. */
  lemma BreakSeparates(t: Tables, a: string, c: char, b: string)
    requires !(t.format(c) && c != ZERO_WIDTH_SPACE)
    requires IsWordMark(c) || (!(IsSegmentedChar(c) && !t.digit(c)) && !IsUnspaced(c) && !t.alnum(c) && !t.mark(c))
    ensures
      var before, after := TokensOf(t, a), TokensOf(t, b);
      TokensOf(t, a + [c] + b) ==
        before +
        (if before != [] && after != [] && KeptApart(before[|before| - 1], after[0]) then [" "] else []) +
        after
  {
    hide Run, Flush, Step;
    var before := TokensOf(t, a);
    RunConcat(t, START, a + [c], b);
    RunConcat(t, START, a, [c]);
    var s := Run(t, START, a);
    OneStep(t, s, c);
    BreakStep(t, s, c);
    var big := Buffers(before, "", "", true);
    RunAfter(t, before, START, big, b);
    FlushAfter(t, before, Run(t, START, b), Run(t, big, b));
  }

  lemma BreakStep(t: Tables, s: Buffers, c: char)
    requires !(t.format(c) && c != ZERO_WIDTH_SPACE)
    requires IsWordMark(c) || (!(IsSegmentedChar(c) && !t.digit(c)) && !IsUnspaced(c) && !t.alnum(c) && !t.mark(c))
    ensures Step(t, s, c) == Buffers(Flush(t, s).tokens, "", "", true)
  {
    hide Flush;
    Flushed(t, s);
  }
}
