/** What the tokens of a text are, said from the text itself: maximal words, stretches and single characters,
    and the spaces between them. The state machine is proved to find exactly these, for every text. */
module Units {
  import opened CharTables
  import opened Tokenizer
  import opened FastTokenizer

  // ---------- Kinds of characters, straight from the tables ----------

  /** Joiners and soft hyphens, which sit inside words; but not the zero-width space, which ends one. */
  predicate IsIgnored(t: Tables, c: char) {
    t.format(c) && c != '\U{200b}'
  }

  /** Thai, Lao, Myanmar and Khmer, but for their digits and their repetition and abbreviation marks. */
  predicate IsScript(t: Tables, c: char) {
    IsSegmentedChar(c) && !IsWordMark(c) && !t.digit(c)
  }

  predicate IsElsewhere(t: Tables, c: char) {
    !IsWordMark(c) && !IsScript(t, c) && !IsUnspaced(c)
  }

  predicate IsLetter(t: Tables, c: char) {
    IsElsewhere(t, c) && t.alnum(c)
  }

  predicate IsAccent(t: Tables, c: char) {
    IsElsewhere(t, c) && !t.alnum(c) && t.mark(c)
  }

  /** Anything else: punctuation, spaces and the word marks. */
  predicate IsBreak(t: Tables, c: char) {
    IsWordMark(c) || (IsElsewhere(t, c) && !t.alnum(c) && !t.mark(c))
  }

  // ---------- Units ----------

  datatype Unit = Tok(token: string) | Space

  function WordLength(t: Tables, s: string): (n: nat)
    ensures n <= |s|
  {
    if s != "" && (IsLetter(t, s[0]) || IsAccent(t, s[0])) then 1 + WordLength(t, s[1..]) else 0
  }

  function StretchLength(t: Tables, s: string): (n: nat)
    ensures n <= |s|
  {
    if s != "" && IsScript(t, s[0]) then 1 + StretchLength(t, s[1..]) else 0
  }

  /** The dictionary's words of a stretch that hold an alphanumeric character. */
  function WordsIn(t: Tables, words: seq<string>): seq<Unit> {
    if words == [] then []
    else if exists i :: 0 <= i < |words[0]| && t.alnum(words[0][i]) then [Tok(words[0])] + WordsIn(t, words[1..])
    else WordsIn(t, words[1..])
  }

  function Lone(t: Tables, c: char): seq<Unit> {
    if t.alnum(c) || t.mark(c) then [Tok([c])] else []
  }

  /** The units of a text without ignored characters: a letter with the letters and accents after it, a stretch
      of script by its dictionary words, an unspaced character alone, and a space for each break. An accent
      that follows no letter, and an unspaced character that is no letter, leave nothing. */
  function UnitsOf(t: Tables, text: string): seq<Unit>
    decreases |text|
  {
    if text == "" then []
    else if IsLetter(t, text[0]) then
      var n := WordLength(t, text);
      [Tok(text[..n])] + UnitsOf(t, text[n..])
    else if IsScript(t, text[0]) then
      var n := StretchLength(t, text);
      WordsIn(t, t.dictionary(text[..n])) + UnitsOf(t, text[n..])
    else if IsUnspaced(text[0]) then Lone(t, text[0]) + UnitsOf(t, text[1..])
    else if IsAccent(t, text[0]) then UnitsOf(t, text[1..])
    else [Space] + UnitsOf(t, text[1..])
  }

  function Heard(t: Tables, text: string): string {
    if text == "" then ""
    else if IsIgnored(t, text[0]) then Heard(t, text[1..])
    else [text[0]] + Heard(t, text[1..])
  }

  /** Whether a boundary stands between two tokens that are spaced apart: one of them is a run token. */
  predicate KeptApart(before: string, after: string) {
    (before != "" && IsUnspaced(before[0])) || (after != "" && IsUnspaced(after[0]))
  }

  /** The tokens of the units, after `tokens`, with a boundary where spaced tokens are kept apart. */
  function Glue(tokens: seq<string>, units: seq<Unit>, spaced: bool): seq<string>
    decreases |units|
  {
    if units == [] then tokens
    else match units[0]
      case Space => Glue(tokens, units[1..], true)
      case Tok(token) =>
        if spaced && tokens != [] && KeptApart(tokens[|tokens| - 1], token)
        then Glue(tokens + [" ", token], units[1..], false)
        else Glue(tokens + [token], units[1..], false)
  }

  // ---------- The machine finds the units ----------

  lemma {:induction false} GlueTail(tokens: seq<string>, unit: Unit, rest: seq<Unit>, spaced: bool)
    ensures Glue(tokens, [unit] + rest, spaced) ==
      match unit
      case Space => Glue(tokens, rest, true)
      case Tok(token) =>
        Glue(tokens + (if spaced && tokens != [] && KeptApart(tokens[|tokens| - 1], token) then [" ", token] else [token]),
             rest, false)
  {
    assert ([unit] + rest)[1..] == rest;
  }

  /** Emitting a token is gluing it on. */
  lemma EmitGlues(s: Buffers, token: string, rest: seq<Unit>)
    ensures Glue(s.tokens, [Tok(token)] + rest, s.gap) == Glue(Emit(s, token).tokens, rest, Emit(s, token).gap)
  {
    hide Glue;
    GlueTail(s.tokens, Tok(token), rest, s.gap);
  }

  lemma {:induction false} EmitAllGlues(t: Tables, s: Buffers, words: seq<string>, rest: seq<Unit>)
    ensures
      var s' := EmitAll(s, KeepWords(t, words));
      Glue(s.tokens, WordsIn(t, words) + rest, s.gap) == Glue(s'.tokens, rest, s'.gap)
    decreases |words|
  {
    hide Emit, Glue;
    if words == [] {
      assert [] + rest == rest;
    } else if HasAlnum(t, words[0]) {
      var more := WordsIn(t, words[1..]);
      assert ([Tok(words[0])] + more) + rest == [Tok(words[0])] + (more + rest);
      EmitGlues(s, words[0], more + rest);
      EmitAllGlues(t, Emit(s, words[0]), words[1..], rest);
      var kept := KeepWords(t, words[1..]);
      assert ([words[0]] + kept)[1..] == kept;
    } else {
      EmitAllGlues(t, s, words[1..], rest);
      assert [] + KeepWords(t, words[1..]) == KeepWords(t, words[1..]);
    }
  }

  /** The units still to come, in a state that has begun a word or a stretch. */
  function Pending(t: Tables, s: Buffers, text: string): seq<Unit> {
    if s.word != "" then
      var n := WordLength(t, text);
      [Tok(s.word + text[..n])] + UnitsOf(t, text[n..])
    else if s.segment != "" then
      var n := StretchLength(t, text);
      WordsIn(t, t.dictionary(s.segment + text[..n])) + UnitsOf(t, text[n..])
    else UnitsOf(t, text)
  }

  ghost predicate Apart(s: Buffers) {
    s.word == "" || s.segment == ""
  }

  /** Once a character other than its own kind comes, what was begun is emitted. */
  lemma FlushGlues(t: Tables, s: Buffers, text: string)
    requires Apart(s)
    requires s.word != "" ==> WordLength(t, text) == 0
    requires s.segment != "" ==> StretchLength(t, text) == 0
    ensures Glue(s.tokens, Pending(t, s, text), s.gap) == Glue(Flush(t, s).tokens, UnitsOf(t, text), Flush(t, s).gap)
  {
    hide Glue, Emit, EmitAll, UnitsOf;
    if s.word != "" {
      assert s.word + text[..0] == s.word && text[0..] == text;
      EmitGlues(s, s.word, UnitsOf(t, text));
      assert Emit(s, s.word).(word := "").segment == "" by {
        EmitKeepsRest(s, s.word);
      }
    } else if s.segment != "" {
      assert s.segment + text[..0] == s.segment && text[0..] == text;
      EmitAllGlues(t, s, t.dictionary(s.segment), UnitsOf(t, text));
    }
  }

  lemma EmitKeepsRest(s: Buffers, token: string)
    ensures Emit(s, token).word == s.word && Emit(s, token).segment == s.segment
  {
  }

  /** One step of the machine takes one character off the units to come. */
  ghost predicate StepsOver(t: Tables, s: Buffers, text: string)
    requires text != ""
  {
    var s' := Step(t, s, text[0]);
    Apart(s') && Glue(s.tokens, Pending(t, s, text), s.gap) == Glue(s'.tokens, Pending(t, s', text[1..]), s'.gap)
  }

  lemma LetterSteps(t: Tables, s: Buffers, text: string)
    requires Apart(s) && text != "" && !IsIgnored(t, text[0]) && IsLetter(t, text[0])
    ensures StepsOver(t, s, text)
  {
    hide Glue, Emit, EmitAll, Flush;
    var rest := text[1..];
    var n := WordLength(t, rest);
    assert WordLength(t, text) == n + 1 && text[n + 1..] == rest[n..];
    assert [text[0]] + rest[..n] == text[..n + 1];
    if s.word != "" {
      assert (s.word + [text[0]]) + rest[..n] == s.word + text[..n + 1];
    } else {
      FlushGlues(t, s, text);
      Flushed(t, s);
      assert s.segment == "" ==> Flush(t, s) == s by {
        if s.segment == "" {
          NothingToFlush(t, s);
        }
      }
      assert "" + [text[0]] == [text[0]];
    }
  }

  lemma NothingToFlush(t: Tables, s: Buffers)
    requires s.word == "" && s.segment == ""
    ensures Flush(t, s) == s
  {
  }

  lemma AccentSteps(t: Tables, s: Buffers, text: string)
    requires Apart(s) && text != "" && !IsIgnored(t, text[0]) && IsAccent(t, text[0])
    ensures StepsOver(t, s, text)
  {
    hide Glue, Emit, EmitAll, Flush;
    var rest := text[1..];
    var n := WordLength(t, rest);
    assert WordLength(t, text) == n + 1 && text[n + 1..] == rest[n..];
    if s.word != "" {
      assert [text[0]] + rest[..n] == text[..n + 1];
      assert (s.word + [text[0]]) + rest[..n] == s.word + text[..n + 1];
    } else {
      FlushGlues(t, s, text);
      Flushed(t, s);
      assert s.segment == "" ==> Flush(t, s) == s by {
        if s.segment == "" {
          NothingToFlush(t, s);
        }
      }
    }
  }

  lemma ScriptSteps(t: Tables, s: Buffers, text: string)
    requires Apart(s) && text != "" && !IsIgnored(t, text[0]) && IsScript(t, text[0])
    ensures StepsOver(t, s, text)
  {
    hide Glue, Emit, EmitAll, Flush;
    var rest := text[1..];
    var n := StretchLength(t, rest);
    assert StretchLength(t, text) == n + 1 && text[n + 1..] == rest[n..];
    assert [text[0]] + rest[..n] == text[..n + 1];
    if s.word == "" && s.segment != "" {
      assert (s.segment + [text[0]]) + rest[..n] == s.segment + text[..n + 1];
    } else {
      FlushGlues(t, s, text);
      Flushed(t, s);
      assert s.word == "" ==> Flush(t, s) == s by {
        if s.word == "" {
          NothingToFlush(t, s);
        }
      }
      assert "" + [text[0]] == [text[0]];
    }
  }

  lemma OtherSteps(t: Tables, s: Buffers, text: string)
    requires Apart(s) && text != "" && !IsIgnored(t, text[0])
    requires IsUnspaced(text[0]) || IsBreak(t, text[0])
    ensures StepsOver(t, s, text)
  {
    hide Glue, Emit, EmitAll, Flush;
    FlushGlues(t, s, text);
    Flushed(t, s);
    var s1, rest := Flush(t, s), text[1..];
    if IsUnspaced(text[0]) {
      if t.alnum(text[0]) || t.mark(text[0]) {
        EmitGlues(s1, [text[0]], UnitsOf(t, rest));
        EmitKeepsRest(s1, [text[0]]);
      } else {
        assert [] + UnitsOf(t, rest) == UnitsOf(t, rest);
      }
    } else {
      GlueTail(s1.tokens, Space, UnitsOf(t, rest), s1.gap);
    }
  }

  lemma {:induction false} RunGlues(t: Tables, s: Buffers, text: string)
    requires Apart(s) && forall i :: 0 <= i < |text| ==> !IsIgnored(t, text[i])
    ensures Flush(t, Run(t, s, text)).tokens == Glue(s.tokens, Pending(t, s, text), s.gap)
    decreases |text|
  {
    hide Glue, Step, Flush, Pending;
    if text == "" {
      LastFlush(t, s);
    } else {
      if IsLetter(t, text[0]) {
        LetterSteps(t, s, text);
      } else if IsAccent(t, text[0]) {
        AccentSteps(t, s, text);
      } else if IsScript(t, text[0]) {
        ScriptSteps(t, s, text);
      } else {
        OtherSteps(t, s, text);
      }
      RunGlues(t, Step(t, s, text[0]), text[1..]);
    }
  }

  lemma LastFlush(t: Tables, s: Buffers)
    requires Apart(s)
    ensures Flush(t, s).tokens == Glue(s.tokens, Pending(t, s, ""), s.gap)
  {
    hide Flush;
    FlushGlues(t, s, "");
  }

  lemma {:induction false} RunHeard(t: Tables, s: Buffers, text: string)
    ensures Run(t, s, text) == Run(t, s, Heard(t, text))
    ensures forall i :: 0 <= i < |Heard(t, text)| ==> !IsIgnored(t, Heard(t, text)[i])
    decreases |text|
  {
    hide StepAs;
    if text != "" {
      var s' := if IsIgnored(t, text[0]) then s else Step(t, s, text[0]);
      RunHeard(t, s', text[1..]);
      if IsIgnored(t, text[0]) {
        IgnoredStep(t, s, text[0]);
      } else {
        var rest := Heard(t, text[1..]);
        assert ([text[0]] + rest)[1..] == rest;
      }
    }
  }

  lemma IgnoredStep(t: Tables, s: Buffers, c: char)
    requires IsIgnored(t, c)
    ensures Step(t, s, c) == s
  {
  }

  /** For every text, the tokens are its units, in order, with boundaries where spaced tokens are kept apart. */
  lemma TokensAreUnits(t: Tables, text: string)
    ensures TokensOf(t, text) == Glue([], UnitsOf(t, Heard(t, text)), false)
  {
    hide Glue, Run, Flush;
    RunHeard(t, START, text);
    RunGlues(t, START, Heard(t, text));
  }
}
