/** The tokenizer that search calls: it splits on whitespace, scans ASCII pieces with a regular
    expression and sends only the rest through the state machine. It refines the machine run over
    the whole folded text. */
module FastTokenizer {
  import opened CharTables
  import opened Tokenizer

  /** Length of the longest prefix whose characters satisfy `p`. */
  function Span(p: char -> bool, s: string): (n: nat)
    ensures n <= |s|
    ensures forall i :: 0 <= i < n ==> p(s[i])
    ensures n < |s| ==> !p(s[n])
  {
    if s == "" || !p(s[0]) then 0 else 1 + Span(p, s[1..])
  }

  /** The maximal stretches of `s` whose characters satisfy `p`, in order: `str.split()` for "not a
      space", and `findall` of `[a-z0-9]+` for the token class. */
  function Chunks(p: char -> bool, s: string): seq<string>
    decreases |s|
  {
    if s == "" then []
    else
      var n := Span(p, s);
      if n == 0 then Chunks(p, s[1..]) else [s[..n]] + Chunks(p, s[n..])
  }

  predicate NotSpace(c: char) {
    !IsSpace(c)
  }

  function Pieces(s: string): seq<string> {
    Chunks(NotSpace, s)
  }

  function AsciiTokens(s: string): seq<string> {
    Chunks(IsAsciiToken, s)
  }

  /** Appends the tokens of one more piece, with a boundary where a run is cut by the space. */
  function Join(tokens: seq<string>, part: seq<string>): seq<string> {
    if part == [] then tokens
    else tokens + (if Splits(tokens, part[0]) then [BOUNDARY] else []) + part
  }

  function JoinPieces(t: Tables, tokens: seq<string>, pieces: seq<string>): seq<string>
    decreases |pieces|
  {
    if pieces == [] then tokens
    else JoinPieces(t, Join(tokens, TokensOf(t, pieces[0])), pieces[1..])
  }

  // ---------- Pieces: a piece starts afresh, as the whole text does after a space ----------

  /** `big` has read some text after the tokens `before` and a gap; `small` has read only that text. */
  ghost predicate After(before: seq<string>, small: Buffers, big: Buffers) {
    && big.word == small.word && big.segment == small.segment
    && big.tokens == Join(before, small.tokens)
    && (if small.tokens == [] then big.gap else big.gap == small.gap)
  }

  lemma EmitAfter(before: seq<string>, small: Buffers, big: Buffers, token: string)
    requires After(before, small, big)
    ensures After(before, Emit(small, token), Emit(big, token))
  {
    if small.tokens != [] {
      assert big.tokens[|big.tokens| - 1] == small.tokens[|small.tokens| - 1];
    }
  }

  lemma {:induction false} EmitAllAfter(before: seq<string>, small: Buffers, big: Buffers, tokens: seq<string>)
    requires After(before, small, big)
    ensures After(before, EmitAll(small, tokens), EmitAll(big, tokens))
    decreases |tokens|
  {
    if tokens != [] {
      EmitAfter(before, small, big, tokens[0]);
      EmitAllAfter(before, Emit(small, tokens[0]), Emit(big, tokens[0]), tokens[1..]);
    }
  }

  lemma FlushAfter(t: Tables, before: seq<string>, small: Buffers, big: Buffers)
    requires After(before, small, big)
    ensures After(before, Flush(t, small), Flush(t, big))
  {
    EmitAfter(before, small, big, small.word);
    var small', big' := FlushWord(small), FlushWord(big);
    assert After(before, small', big');
    EmitAllAfter(before, small', big', Segment(t, small'.segment));
  }

  lemma StepAfter(t: Tables, before: seq<string>, small: Buffers, big: Buffers, c: char, kind: Class)
    requires After(before, small, big)
    ensures After(before, StepAs(t, small, c, kind), StepAs(t, big, c, kind))
  {
    hide Flush, Emit;
    FlushAfter(t, before, small, big);
    EmitAfter(before, Flush(t, small), Flush(t, big), [c]);
  }

  lemma {:induction false} RunAfter(t: Tables, before: seq<string>, small: Buffers, big: Buffers, text: string)
    requires After(before, small, big)
    ensures After(before, Run(t, small, text), Run(t, big, text))
    decreases |text|
  {
    if text != "" {
      StepAfter(t, before, small, big, text[0], Classify(t, text[0]));
      RunAfter(t, before, Step(t, small, text[0]), Step(t, big, text[0]), text[1..]);
    }
  }

  /** Reading a piece after `before` and a gap appends the piece's own tokens. */
  lemma PieceJoins(t: Tables, before: seq<string>, piece: string)
    ensures
      var s := Flush(t, Run(t, Buffers(before, "", "", true), piece));
      s.tokens == Join(before, TokensOf(t, piece)) && s.word == "" && s.segment == ""
  {
    var big := Buffers(before, "", "", true);
    RunAfter(t, before, START, big, piece);
    FlushAfter(t, before, Run(t, START, piece), Run(t, big, piece));
    Flushed(t, Run(t, big, piece));
  }

  lemma {:induction false} RunConcat(t: Tables, s: Buffers, a: string, b: string)
    ensures Run(t, s, a + b) == Run(t, Run(t, s, a), b)
    decreases |a|
  {
    if a == "" {
      assert a + b == b;
    } else {
      assert (a + b)[1..] == a[1..] + b;
      RunConcat(t, Step(t, s, a[0]), a[1..], b);
    }
  }

  /** A piece and the whitespace after it leave its tokens joined on, and a gap. */
  lemma PieceThenSpace(t: Tables, before: seq<string>, piece: string, space: char)
    requires LawfulClasses(t) && IsSpace(space)
    ensures Run(t, Buffers(before, "", "", true), piece + [space]) ==
      Buffers(Join(before, TokensOf(t, piece)), "", "", true)
  {
    hide Flush, Join;
    var s := Buffers(before, "", "", true);
    var s1 := Run(t, s, piece);
    RunConcat(t, s, piece, [space]);
    PieceJoins(t, before, piece);
    assert Classify(t, space) == Gap;
    assert Step(t, s1, space) == Flush(t, s1).(gap := true);
    assert [space][1..] == "";
  }

  lemma PiecesOf(piece: string, rest: string)
    requires piece != "" && forall i :: 0 <= i < |piece| ==> !IsSpace(piece[i])
    requires rest == "" || IsSpace(rest[0])
    ensures Pieces(piece + rest) == [piece] + (if rest == "" then [] else Pieces(rest[1..]))
  {
    SpanOfWhole(NotSpace, piece, rest);
    assert (piece + rest)[..|piece|] == piece && (piece + rest)[|piece|..] == rest;
    assert Pieces(rest) == if rest == "" then [] else Pieces(rest[1..]);
    assert Chunks(NotSpace, piece + rest) == [piece] + Chunks(NotSpace, rest);
  }

  /** After a gap, the machine reads whitespace-separated text piece by piece. */
  lemma {:induction false} RunIsJoinPieces(t: Tables, before: seq<string>, text: string)
    requires LawfulClasses(t)
    ensures Flush(t, Run(t, Buffers(before, "", "", true), text)).tokens == JoinPieces(t, before, Pieces(text))
    decreases |text|
  {
    hide Flush, Join, TokensOf;
    var s := Buffers(before, "", "", true);
    if text == "" {
      NothingRead(t, before);
    } else {
      var n := Span(NotSpace, text);
      var piece, rest := text[..n], text[n..];
      assert text == piece + rest;
      if n == 0 {
        LeadingSpace(t, before, text);
        RunIsJoinPieces(t, before, text[1..]);
      } else if rest == "" {
        PiecesOf(piece, rest);
        assert text == piece;
        PieceJoins(t, before, piece);
      } else {
        PiecesOf(piece, rest);
        PieceThenSpace(t, before, piece, rest[0]);
        assert text == (piece + [rest[0]]) + rest[1..];
        RunConcat(t, s, piece + [rest[0]], rest[1..]);
        RunIsJoinPieces(t, Join(before, TokensOf(t, piece)), rest[1..]);
      }
    }
  }

  lemma NothingRead(t: Tables, before: seq<string>)
    ensures Flush(t, Buffers(before, "", "", true)).tokens == before
  {
  }

  lemma LeadingSpace(t: Tables, before: seq<string>, text: string)
    requires LawfulClasses(t) && text != "" && IsSpace(text[0])
    ensures Run(t, Buffers(before, "", "", true), text) == Run(t, Buffers(before, "", "", true), text[1..])
    ensures Pieces(text) == Pieces(text[1..])
  {
    assert Classify(t, text[0]) == Gap;
  }

  // ---------- ASCII: the machine finds the regular expression's matches ----------

  ghost predicate Lowered(s: string) {
    AllAscii(s) && NoAsciiUpper(s)
  }

  ghost predicate NoRunTokens(tokens: seq<string>) {
    forall i :: 0 <= i < |tokens| ==> !IsRunToken(tokens[i])
  }

  lemma {:induction false} SpanOfWhole(p: char -> bool, w: string, rest: string)
    requires forall i :: 0 <= i < |w| ==> p(w[i])
    requires rest == "" || !p(rest[0])
    ensures Span(p, w + rest) == |w|
    decreases |w|
  {
    if w == "" {
      assert w + rest == rest;
    } else {
      assert (w + rest)[1..] == w[1..] + rest;
      SpanOfWhole(p, w[1..], rest);
    }
  }

  lemma AsciiClass(t: Tables, c: char)
    requires LawfulClasses(t) && IsAscii(c) && !IsAsciiUpper(c)
    ensures Classify(t, c) == if IsAsciiToken(c) then Letter else Gap
  {
  }

  /** The machine while it reads lowercase ASCII: no run token yet, and only a word in progress. */
  ghost predicate ReadingAscii(s: Buffers) {
    && s.segment == "" && NoRunTokens(s.tokens)
    && forall i :: 0 <= i < |s.word| ==> IsAsciiToken(s.word[i])
  }

  lemma AsciiStep(t: Tables, s: Buffers, c: char)
    requires LawfulClasses(t) && IsAscii(c) && !IsAsciiUpper(c) && ReadingAscii(s)
    ensures ReadingAscii(Step(t, s, c))
    ensures Step(t, s, c).tokens == (if IsAsciiToken(c) || s.word == "" then s.tokens else s.tokens + [s.word])
    ensures Step(t, s, c).word == if IsAsciiToken(c) then s.word + [c] else ""
  {
    AsciiClass(t, c);
  }

  lemma AsciiFlush(t: Tables, s: Buffers)
    requires ReadingAscii(s)
    ensures Flush(t, s).tokens == s.tokens + AsciiTokens(s.word)
  {
    SpanOfWhole(IsAsciiToken, s.word, "");
    assert s.word + "" == s.word;
    if s.word != "" {
      assert Chunks(IsAsciiToken, s.word) == [s.word[..|s.word|]] + Chunks(IsAsciiToken, s.word[|s.word|..]);
    }
  }

  /** Reading `c` moves it, or the word it ends, from the text to the buffers. */
  lemma AsciiTokensMove(s: Buffers, s': Buffers, c: char, rest: string)
    requires ReadingAscii(s)
    requires s'.tokens == (if IsAsciiToken(c) || s.word == "" then s.tokens else s.tokens + [s.word])
    requires s'.word == if IsAsciiToken(c) then s.word + [c] else ""
    ensures s'.tokens + AsciiTokens(s'.word + rest) == s.tokens + AsciiTokens(s.word + ([c] + rest))
  {
    hide AsciiTokens;
    if IsAsciiToken(c) {
      assert s.word + ([c] + rest) == s'.word + rest;
    } else {
      var more := AsciiTokens(rest);
      assert AsciiTokens(s'.word + rest) == more by {
        assert s'.word + rest == rest;
      }
      assert AsciiTokens(s.word + ([c] + rest)) == (if s.word == "" then [] else [s.word]) + more by {
        AsciiWordEnds(s.word, [c] + rest);
        assert ([c] + rest)[1..] == rest;
      }
    }
  }

  lemma {:induction false} AsciiRun(t: Tables, s: Buffers, text: string)
    requires LawfulClasses(t) && Lowered(text) && ReadingAscii(s)
    ensures Flush(t, Run(t, s, text)).tokens == s.tokens + AsciiTokens(s.word + text)
    decreases |text|
  {
    if text == "" {
      AsciiFlush(t, s);
      assert s.word + text == s.word;
    } else {
      var s' := Step(t, s, text[0]);
      AsciiStep(t, s, text[0]);
      AsciiRun(t, s', text[1..]);
      AsciiTokensMove(s, s', text[0], text[1..]);
      assert [text[0]] + text[1..] == text;
    }
  }

  lemma AsciiWordEnds(word: string, text: string)
    requires forall i :: 0 <= i < |word| ==> IsAsciiToken(word[i])
    requires text != "" && !IsAsciiToken(text[0])
    ensures AsciiTokens(word + text) == (if word == "" then [] else [word]) + AsciiTokens(text[1..])
  {
    SpanOfWhole(IsAsciiToken, word, text);
    assert Chunks(IsAsciiToken, text) == Chunks(IsAsciiToken, text[1..]);
    assert (word + text)[..|word|] == word && (word + text)[|word|..] == text;
  }

  lemma AsciiTokensAgree(t: Tables, text: string)
    requires LawfulClasses(t) && Lowered(text)
    ensures TokensOf(t, text) == AsciiTokens(text)
  {
    hide AsciiTokens, Run, Flush;
    AsciiRun(t, START, text);
    assert "" + text == text;
  }

  // ---------- The fast tokenizer ----------

  lemma {:induction false} PiecesAreOfText(p: char -> bool, text: string, k: nat)
    requires k < |Chunks(p, text)|
    ensures forall i :: 0 <= i < |Chunks(p, text)[k]| ==> Chunks(p, text)[k][i] in text
    decreases |text|
  {
    var n := Span(p, text);
    if n == 0 {
      PiecesAreOfText(p, text[1..], k);
    } else if k > 0 {
      PiecesAreOfText(p, text[n..], k - 1);
    }
  }

  lemma LoweredAscii(t: Tables, text: string)
    requires LawfulFolding(t) && AllAscii(text)
    ensures Fold(t, text) == t.lower(text) && Lowered(t.lower(text))
  {
    assert t.lower(text) == AsciiLower(text);
  }

  lemma TokensByPieces(t: Tables, folded: string)
    requires LawfulClasses(t)
    ensures JoinPieces(t, [], Pieces(folded)) == TokensOf(t, folded)
  {
    RunIsJoinPieces(t, [], folded);
    PieceJoins(t, [], folded);
  }

  lemma TokensOfPiece(t: Tables, folded: string, k: nat)
    requires LawfulClasses(t) && NoAsciiUpper(folded) && k < |Pieces(folded)| && AllAscii(Pieces(folded)[k])
    ensures TokensOf(t, Pieces(folded)[k]) == AsciiTokens(Pieces(folded)[k])
  {
    PiecesAreOfText(NotSpace, folded, k);
    AsciiTokensAgree(t, Pieces(folded)[k]);
  }

  /** What `tokenize` computes, for every text and whatever the dictionary returns: the tokens of the
      general machine, boundaries included. */
  method Tokenize(t: Tables, text: string) returns (tokens: seq<string>)
    requires Lawful(t)
    ensures tokens == TokensOf(t, Fold(t, text))
  {
    if AllAscii(text) {
      LoweredAscii(t, text);
      AsciiTokensAgree(t, t.lower(text));
      return AsciiTokens(t.lower(text));
    }
    tokens := [];
    var folded := t.lower(t.nfkc(text));
    var pieces := Pieces(folded);
    for k := 0 to |pieces|
      invariant JoinPieces(t, tokens, pieces[k..]) == JoinPieces(t, [], pieces)
    {
      var part;
      if AllAscii(pieces[k]) {
        TokensOfPiece(t, folded, k);
        part := AsciiTokens(pieces[k]);
      } else {
        part := TokensOfText(t, pieces[k]);
      }
      assert pieces[k..][1..] == pieces[k + 1..];
      tokens := Append(tokens, part);
    }
    TokensByPieces(t, folded);
  }

  method Append(tokens: seq<string>, part: seq<string>) returns (joined: seq<string>)
    ensures joined == Join(tokens, part)
  {
    joined := tokens;
    if part == [] {
      return;
    }
    if joined != [] && (IsRunToken(joined[|joined| - 1]) || IsRunToken(part[0])) {
      joined := joined + [BOUNDARY];
    }
    joined := joined + part;
  }
}
