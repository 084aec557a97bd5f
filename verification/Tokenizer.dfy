/** The general tokenizer: a state machine fed one character at a time. */
module Tokenizer {
  import opened CharTables

  /** Stands between two tokens that a space or punctuation mark keeps apart, when either belongs
      to a per-character run. Never a token itself. */
  const BOUNDARY := " "

  predicate IsRunToken(token: string) {
    token != "" && IsUnspaced(token[0])
  }

  predicate IsSegmented(token: string) {
    token != "" && IsSegmentedChar(token[0])
  }

  predicate HasAlnum(t: Tables, w: string) {
    exists i :: 0 <= i < |w| && t.alnum(w[i])
  }

  function KeepWords(t: Tables, ws: seq<string>): (kept: seq<string>)
    ensures forall i :: 0 <= i < |kept| ==> HasAlnum(t, kept[i])
  {
    if ws == [] then []
    else (if HasAlnum(t, ws[0]) then [ws[0]] else []) + KeepWords(t, ws[1..])
  }

  /** The dictionary words of a stretch of segmented script. */
  function Segment(t: Tables, text: string): seq<string> {
    KeepWords(t, t.dictionary(text))
  }

  datatype Buffers = Buffers(tokens: seq<string>, word: string, segment: string, gap: bool)

  const START := Buffers([], "", "", false)

  /** Whether a token after `tokens`, past a gap, is kept apart by a boundary. */
  predicate Splits(tokens: seq<string>, token: string) {
    tokens != [] && (IsRunToken(tokens[|tokens| - 1]) || IsRunToken(token))
  }

  function Emit(s: Buffers, token: string): Buffers {
    s.(tokens := s.tokens + (if s.gap && Splits(s.tokens, token) then [BOUNDARY, token] else [token]),
       gap := false)
  }

  function EmitAll(s: Buffers, tokens: seq<string>): Buffers
    decreases |tokens|
  {
    if tokens == [] then s else EmitAll(Emit(s, tokens[0]), tokens[1..])
  }

  function FlushWord(s: Buffers): Buffers {
    if s.word == "" then s else Emit(s, s.word).(word := "")
  }

  function FlushSegment(t: Tables, s: Buffers): Buffers {
    if s.segment == "" then s else EmitAll(s, Segment(t, s.segment)).(segment := "")
  }

  function Flush(t: Tables, s: Buffers): Buffers {
    FlushSegment(t, FlushWord(s))
  }

  /** What the machine does with a character. */
  datatype Class =
    | Skipped      // joiners and soft hyphens: they sit inside words
    | Gap          // ends a word and may keep runs apart
    | Dictionary   // a letter of a segmented script
    | RunLetter    // a token by itself
    | RunFiller    // dropped, and the run continues across it
    | Letter
    | Accent       // a mark, which belongs to the letter before it

  function Classify(t: Tables, c: char): Class {
    if t.format(c) && c != ZERO_WIDTH_SPACE then Skipped
    else if IsWordMark(c) then Gap
    else if IsSegmentedChar(c) && !t.digit(c) then Dictionary
    else if IsUnspaced(c) then (if t.alnum(c) || t.mark(c) then RunLetter else RunFiller)
    else if t.alnum(c) then Letter
    else if t.mark(c) then Accent
    else Gap
  }

  function StepAs(t: Tables, s: Buffers, c: char, kind: Class): Buffers {
    match kind
    case Skipped => s
    case Gap => Flush(t, s).(gap := true)
    case Dictionary =>
      var s' := if s.word != "" then Flush(t, s) else s;
      s'.(segment := s'.segment + [c])
    case RunLetter => Emit(Flush(t, s), [c])
    case RunFiller => Flush(t, s)
    case Letter =>
      var s' := if s.segment != "" then Flush(t, s) else s;
      s'.(word := s'.word + [c])
    case Accent =>
      var s' := if s.segment != "" then Flush(t, s) else s;
      if s'.word != "" then s'.(word := s'.word + [c]) else s'
  }

  function Step(t: Tables, s: Buffers, c: char): Buffers {
    StepAs(t, s, c, Classify(t, c))
  }

  lemma {:induction false} EmitAllKeeps(s: Buffers, tokens: seq<string>)
    ensures EmitAll(s, tokens).word == s.word && EmitAll(s, tokens).segment == s.segment
    decreases |tokens|
  {
    if tokens != [] {
      EmitAllKeeps(Emit(s, tokens[0]), tokens[1..]);
    }
  }

  lemma Flushed(t: Tables, s: Buffers)
    ensures Flush(t, s).word == "" && Flush(t, s).segment == ""
    ensures Flush(t, Flush(t, s)) == Flush(t, s)
  {
    EmitAllKeeps(FlushWord(s), Segment(t, s.segment));
  }

  function Run(t: Tables, s: Buffers, text: string): Buffers
    decreases |text|
  {
    if text == "" then s else Run(t, Step(t, s, text[0]), text[1..])
  }

  /** The tokens of text that is already folded. */
  function TokensOf(t: Tables, folded: string): seq<string> {
    Flush(t, Run(t, START, folded)).tokens
  }

  // ---------- The machine in place ----------

  /** The buffers of `_tokens_of`, changed in place by its closures `emit` and `flush`. */
  class Machine {
    var tokens: seq<string>
    var word: string
    var segment: string
    var gap: bool

    function Now(): Buffers
      reads this
    {
      Buffers(tokens, word, segment, gap)
    }

    constructor ()
      ensures Now() == START
    {
      tokens, word, segment, gap := [], "", "", false;
    }

    method EmitToken(token: string)
      modifies this
      ensures Now() == Emit(old(Now()), token)
    {
      if gap && tokens != [] && (IsRunToken(tokens[|tokens| - 1]) || IsRunToken(token)) {
        tokens := tokens + [BOUNDARY];
      }
      tokens := tokens + [token];
      gap := false;
    }

    method FlushBuffers(t: Tables)
      modifies this
      ensures Now() == Flush(t, old(Now()))
    {
      if word != "" {
        EmitToken(word);
        word := "";
      }
      if segment != "" {
        var ws := Segment(t, segment);
        ghost var s0 := Now();
        for i := 0 to |ws|
          invariant segment == s0.segment
          invariant EmitAll(Now(), ws[i..]) == EmitAll(s0, ws)
        {
          EmitToken(ws[i]);
          assert ws[i..][1..] == ws[i + 1..];
        }
        segment := "";
      }
    }

    method Feed(t: Tables, c: char)
      modifies this
      ensures Now() == Step(t, old(Now()), c)
    {
      Flushed(t, Now());
      if t.format(c) && c != ZERO_WIDTH_SPACE {
        return;
      }
      if IsWordMark(c) {
        FlushBuffers(t);
        gap := true;
        return;
      }
      if IsSegmentedChar(c) && !t.digit(c) {
        if word != "" {
          FlushBuffers(t);
        }
        segment := segment + [c];
        return;
      }
      if segment != "" {
        FlushBuffers(t);
      }
      if IsUnspaced(c) {
        FlushBuffers(t);
        if t.alnum(c) || t.mark(c) {
          EmitToken([c]);
        }
      } else if t.alnum(c) {
        word := word + [c];
      } else if t.mark(c) {
        if word != "" {
          word := word + [c];
        }
      } else {
        FlushBuffers(t);
        gap := true;
      }
    }
  }

  method TokensOfText(t: Tables, folded: string) returns (tokens: seq<string>)
    ensures tokens == TokensOf(t, folded)
  {
    var m := new Machine();
    for i := 0 to |folded|
      invariant Run(t, m.Now(), folded[i..]) == Run(t, START, folded)
      invariant fresh(m)
    {
      m.Feed(t, folded[i]);
      assert folded[i..][1..] == folded[i + 1..];
    }
    m.FlushBuffers(t);
    tokens := m.tokens;
  }
}
