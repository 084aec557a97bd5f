/** The rules policy applies to a caller's scope, and the form it gives an agent name. */
module ScopeRules {
  import opened Results
  import opened Text
  import opened Values
  import opened CharTables
  import opened FastTokenizer

  const MAX_SCOPE_KEYS := 10
  const MAX_SCOPE_KEY_LENGTH := 64
  const MAX_SCOPE_VALUE_LENGTH := 256

  // ---------- Agent names ----------

  /** `re.sub("[^a-z0-9]+", "-", s)` */
  function Collapse(s: string): string
    decreases |s|
  {
    if s == "" then ""
    else if IsAsciiToken(s[0]) then [s[0]] + Collapse(s[1..])
    else "-" + Collapse(s[Span(c => !IsAsciiToken(c), s)..])
  }

  function DropDashes(s: string): string {
    if s != "" && s[0] == '-' then DropDashes(s[1..]) else s
  }

  function DropLastDashes(s: string): string {
    if s != "" && s[|s| - 1] == '-' then DropLastDashes(s[..|s| - 1]) else s
  }

  /** `_normalize_agent_id` */
  function Normalize(t: Tables, name: string): string {
    DropLastDashes(DropDashes(Collapse(t.lower(Strip(name)))))
  }

  function Hyphenate(words: seq<string>): string {
    if words == [] then ""
    else if |words| == 1 then words[0]
    else words[0] + "-" + Hyphenate(words[1..])
  }

  /** Non-empty words over `[a-z0-9]`. */
  ghost predicate Words(words: seq<string>) {
    forall i :: 0 <= i < |words| ==> IsWordText(words[i])
  }

  ghost predicate IsWordText(w: string) {
    w != "" && forall i :: 0 <= i < |w| ==> IsAsciiToken(w[i])
  }

  predicate EndsOpen(s: string) {
    s != "" && !IsAsciiToken(s[|s| - 1])
  }

  lemma {:induction false} AsciiTokensAreWords(s: string)
    ensures Words(AsciiTokens(s))
    decreases |s|
  {
    if s != "" {
      var n := Span(IsAsciiToken, s);
      if n == 0 {
        AsciiTokensAreWords(s[1..]);
      } else {
        AsciiTokensAreWords(s[n..]);
        assert IsWordText(s[..n]);
      }
    }
  }

  /** A stretch of other characters holds no token. */
  lemma {:induction false} TokensAfterGap(s: string, n: nat)
    requires n <= |s| && forall i :: 0 <= i < n ==> !IsAsciiToken(s[i])
    ensures AsciiTokens(s) == AsciiTokens(s[n..])
    decreases n
  {
    if n > 0 {
      assert Span(IsAsciiToken, s) == 0;
      assert s[1..][n - 1..] == s[n..];
      TokensAfterGap(s[1..], n - 1);
    } else {
      assert s[0..] == s;
    }
  }

  lemma {:induction false} CollapseWord(w: string, rest: string)
    requires forall i :: 0 <= i < |w| ==> IsAsciiToken(w[i])
    ensures Collapse(w + rest) == w + Collapse(rest)
    decreases |w|
  {
    if w == "" {
      assert w + rest == rest;
    } else {
      assert (w + rest)[1..] == w[1..] + rest;
      CollapseWord(w[1..], rest);
      assert w == [w[0]] + w[1..];
    }
  }

  /** A word, then a gap that ends the text or leads to the next word. */
  lemma CollapseStep(w: string, gap: string)
    requires IsWordText(w) && (gap == "" || !IsAsciiToken(gap[0]))
    ensures AsciiTokens(w + gap) == [w] + AsciiTokens(gap)
    ensures
      var n := Span(c => !IsAsciiToken(c), gap);
      && AsciiTokens(gap) == AsciiTokens(gap[n..])
      && Collapse(w + gap) == w + (if gap == "" then "" else "-" + Collapse(gap[n..]))
  {
    CollapseWord(w, gap);
    SpanOfWhole(IsAsciiToken, w, gap);
    assert (w + gap)[..|w|] == w && (w + gap)[|w|..] == gap;
    TokensAfterGap(gap, Span(c => !IsAsciiToken(c), gap));
  }

  lemma HyphenateCons(w: string, words: seq<string>)
    ensures Hyphenate([w] + words) == if words == [] then w else w + ("-" + Hyphenate(words))
  {
    assert ([w] + words)[1..] == words;
    if words != [] {
      assert w + "-" + Hyphenate(words) == w + ("-" + Hyphenate(words));
    }
  }

  function OpenEnd(s: string): string {
    if EndsOpen(s) then "-" else ""
  }

  lemma OpenEndOfGap(w: string, gap: string, next: string)
    requires IsWordText(w) && |next| <= |gap| && next == gap[|gap| - |next|..]
    requires next == "" ==> forall i :: 0 <= i < |gap| ==> !IsAsciiToken(gap[i])
    ensures OpenEnd(w + gap) == if gap == "" then "" else if next == "" then "-" else OpenEnd(next)
  {
    if next != "" {
      assert next[|next| - 1] == gap[|gap| - 1];
    }
  }

  lemma JoinTail(w: string, joined: string, tail: string)
    ensures w + ("-" + (joined + tail)) == (w + ("-" + joined)) + tail
  {
  }

  lemma CollapseMore(w: string, gap: string)
    requires IsWordText(w) && (gap == "" || !IsAsciiToken(gap[0]))
    requires
      var next := gap[Span(c => !IsAsciiToken(c), gap)..];
      Collapse(next) == Hyphenate(AsciiTokens(next)) + OpenEnd(next)
    ensures Collapse(w + gap) == Hyphenate(AsciiTokens(w + gap)) + OpenEnd(w + gap)
  {
    var next := gap[Span(c => !IsAsciiToken(c), gap)..];
    var words := AsciiTokens(next);
    CollapseStep(w, gap);
    HyphenateCons(w, words);
    OpenEndOfGap(w, gap, next);
    if next != "" {
      assert AsciiTokens(next) != [];
      JoinTail(w, Hyphenate(words), OpenEnd(next));
    }
  }

  /** Collapsing leaves the tokens joined by hyphens, with one more where the text ends between tokens. */
  lemma {:induction false} CollapseIs(s: string)
    requires s == "" || IsAsciiToken(s[0])
    ensures Collapse(s) == Hyphenate(AsciiTokens(s)) + OpenEnd(s)
    decreases |s|
  {
    if s != "" {
      var n := Span(IsAsciiToken, s);
      var w, gap := s[..n], s[n..];
      assert s == w + gap;
      CollapseIs(gap[Span(c => !IsAsciiToken(c), gap)..]);
      CollapseMore(w, gap);
    }
  }

  lemma {:induction false} HyphenateEnds(words: seq<string>)
    requires Words(words) && words != []
    ensures
      var s := Hyphenate(words);
      s != "" && IsAsciiToken(s[0]) && IsAsciiToken(s[|s| - 1])
    ensures forall i :: 0 <= i < |Hyphenate(words)| ==> IsAsciiToken(Hyphenate(words)[i]) || Hyphenate(words)[i] == '-'
    decreases |words|
  {
    assert IsWordText(words[0]);
    if |words| > 1 {
      assert forall i :: 0 <= i < |words[1..]| ==> words[1..][i] == words[i + 1];
      HyphenateEnds(words[1..]);
    }
  }

  lemma {:induction false} TokensOfHyphenated(words: seq<string>)
    requires Words(words)
    ensures AsciiTokens(Hyphenate(words)) == words
    decreases |words|
  {
    if words != [] {
      var w := words[0];
      assert IsWordText(w);
      if |words| == 1 {
        SpanOfWhole(IsAsciiToken, w, "");
        assert w + "" == w;
        assert AsciiTokens(w) == [w[..|w|]] + AsciiTokens(w[|w|..]);
      } else {
        assert forall i :: 0 <= i < |words[1..]| ==> words[1..][i] == words[i + 1];
        TokensOfHyphenated(words[1..]);
        var tail := "-" + Hyphenate(words[1..]);
        assert Hyphenate(words) == w + tail;
        SpanOfWhole(IsAsciiToken, w, tail);
        assert (w + tail)[..|w|] == w && (w + tail)[|w|..] == tail;
        assert AsciiTokens(tail) == AsciiTokens(tail[1..]);
        assert tail[1..] == Hyphenate(words[1..]);
      }
    }
  }

  predicate AtMostOneDash(s: string) {
    s == "" || s == "-"
  }

  /** What the collapsed text is, but for a hyphen at each open end. */
  lemma CollapseParts(s: string) returns (front: string, back: string)
    ensures AtMostOneDash(front) && AtMostOneDash(back)
    ensures Collapse(s) == front + (Hyphenate(AsciiTokens(s)) + back)
  {
    hide Hyphenate, AsciiTokens;
    var m := Span(c => !IsAsciiToken(c), s);
    var body := s[m..];
    TokensAfterGap(s, m);
    CollapseIs(body);
    front, back := if m > 0 then "-" else "", OpenEnd(body);
    if m == 0 {
      assert body == s;
      assert Collapse(s) == "" + Collapse(body);
    }
  }

  lemma DropFront(front: string, s: string)
    requires AtMostOneDash(front) && (s == "" || s[0] != '-')
    ensures DropDashes(front + s) == s
  {
    if front == "" {
      assert front + s == s;
    } else {
      assert (front + s)[1..] == s;
    }
  }

  lemma DropBack(s: string, back: string)
    requires AtMostOneDash(back) && (s == "" || s[|s| - 1] != '-')
    ensures DropLastDashes(s + back) == s
  {
    if back == "" {
      assert s + back == s;
    } else {
      assert (s + back)[..|s + back| - 1] == s;
    }
  }

  /** Text that is empty or has a token at both ends is what is left between the hyphens around it. */
  lemma DashesDropped(front: string, joined: string, back: string)
    requires AtMostOneDash(front) && AtMostOneDash(back)
    requires joined != "" ==> IsAsciiToken(joined[0]) && IsAsciiToken(joined[|joined| - 1])
    ensures DropLastDashes(DropDashes(front + (joined + back))) == joined
  {
    hide DropDashes, DropLastDashes, AtMostOneDash;
    if joined == "" {
      OnlyDashes(front, back);
      assert joined + back == back;
    } else {
      DropFront(front, joined + back);
      DropBack(joined, back);
    }
  }

  lemma OnlyDashes(front: string, back: string)
    requires AtMostOneDash(front) && AtMostOneDash(back)
    ensures DropLastDashes(DropDashes(front + back)) == ""
  {
    DropFront(back, "");
    assert back + "" == back;
    if front == "" {
      assert front + back == back;
    } else {
      assert (front + back)[1..] == back;
    }
  }

  /** An agent name becomes its `[a-z0-9]` words joined by single hyphens. */
  lemma NormalizeIs(t: Tables, name: string)
    ensures Normalize(t, name) == Hyphenate(AsciiTokens(t.lower(Strip(name))))
  {
    hide Collapse, Hyphenate, AsciiTokens, DropDashes, DropLastDashes;
    var s := t.lower(Strip(name));
    var front, back := CollapseParts(s);
    HyphenatedEnds(s);
    DashesDropped(front, Hyphenate(AsciiTokens(s)), back);
  }

  lemma HyphenatedEnds(s: string)
    ensures
      var joined := Hyphenate(AsciiTokens(s));
      joined != "" ==> IsAsciiToken(joined[0]) && IsAsciiToken(joined[|joined| - 1])
  {
    hide AsciiTokens;
    AsciiTokensAreWords(s);
    if AsciiTokens(s) != [] {
      HyphenateEnds(AsciiTokens(s));
    }
  }

  lemma LowerKeepsNormal(t: Tables, s: string)
    requires LawfulFolding(t) && forall i :: 0 <= i < |s| ==> IsAsciiToken(s[i]) || s[i] == '-'
    ensures t.lower(s) == s
  {
    assert AllAscii(s);
    assert AsciiLower(s) == s;
  }

  /** Normalizing a normal name changes nothing. */
  lemma NormalizeIsIdempotent(t: Tables, name: string)
    requires LawfulFolding(t)
    ensures Normalize(t, Normalize(t, name)) == Normalize(t, name)
  {
    hide AsciiTokens, Normalize;
    var s := t.lower(Strip(name));
    var words := AsciiTokens(s);
    var normal := Hyphenate(words);
    NormalizeIs(t, name);
    NormalizeIs(t, normal);
    AsciiTokensAreWords(s);
    TokensOfHyphenated(words);
    if words != [] {
      HyphenateEnds(words);
    }
    StripKeepsTight(normal);
    LowerKeepsNormal(t, normal);
    assert Normalize(t, name) == normal;
    assert AsciiTokens(t.lower(Strip(normal))) == words;
    assert Normalize(t, normal) == normal;
  }

  // ---------- Scopes ----------

  predicate HasSpace(s: string) {
    exists i :: 0 <= i < |s| && IsSpace(s[i])
  }

  /** The value stored for a key of a caller's scope, or None when the value is refused. */
  function CleanValue(t: Tables, key: string, v: Value): Option<Value> {
    if |key| > MAX_SCOPE_KEY_LENGTH || v.List? || v.Object? || (v.Number? && !v.finite) || IsWildcard(v) then None
    else if v.Str? && |v.text| > MAX_SCOPE_VALUE_LENGTH then None
    else if v.Str? && key == "agent_id" then
      (if Normalize(t, v.text) == "" then None else Some(Str(Normalize(t, v.text))))
    else if v.Str? && (v.text != Strip(v.text) || (key == "run_id" && HasSpace(v.text))) then None
    else Some(v)
  }

  function Cleaned(t: Tables, scope: Fields): Option<Fields> {
    if exists k :: k in scope && CleanValue(t, k, scope[k]).None? then None
    else Some(map k | k in scope :: CleanValue(t, k, scope[k]).value)
  }

  lemma CleanedIs(t: Tables, scope: Fields, cleaned: Fields)
    requires cleaned.Keys == scope.Keys
    requires forall k :: k in cleaned ==> CleanValue(t, k, scope[k]) == Some(cleaned[k])
    ensures Cleaned(t, scope) == Some(cleaned)
  {
    assert forall k :: k in scope ==> k in cleaned;
    assert Cleaned(t, scope).Some? && Cleaned(t, scope).value == cleaned;
  }

  /** What `validate_scope` returns or raises. */
  function CheckedScope(t: Tables, scope: Value, allowed: set<string>): Result<Option<Fields>> {
    if scope.Null? then Ok(None)
    else if !scope.Object? then Err(PolicyError(ValidationError))
    else if scope.fields == map[] then Ok(Some(map[]))
    else if "user_id" in scope.fields then Err(PolicyError(InvalidScope))
    else if HasNestedFilter(scope.fields) then Err(PolicyError(NestedFilter))
    else if |scope.fields| > MAX_SCOPE_KEYS then Err(PolicyError(ValidationError))
    else
      var cleaned := Cleaned(t, scope.fields);
      if cleaned.None? then Err(PolicyError(ValidationError))
      else if !(cleaned.value.Keys <= allowed) then Err(PolicyError(InvalidScope))
      else Ok(Some(cleaned.value))
  }

  method ValidateScope(t: Tables, scope: Value, allowed: set<string>) returns (r: Result<Option<Fields>>)
    ensures r == CheckedScope(t, scope, allowed)
  {
    hide CleanValue, HasNestedFilter;
    if scope.Null? {
      return Ok(None);
    }
    if !scope.Object? {
      return Err(PolicyError(ValidationError));
    }
    var fields := scope.fields;
    if fields == map[] {
      return Ok(Some(map[]));
    }
    if "user_id" in fields {
      return Err(PolicyError(InvalidScope));
    }
    if HasNestedFilter(fields) {
      return Err(PolicyError(NestedFilter));
    }
    if |fields| > MAX_SCOPE_KEYS {
      return Err(PolicyError(ValidationError));
    }
    var cleaned: Fields := map[];
    var rest := fields.Keys;
    while rest != {}
      invariant rest <= fields.Keys && cleaned.Keys == fields.Keys - rest
      invariant forall k :: k in cleaned ==> CleanValue(t, k, fields[k]) == Some(cleaned[k])
    {
      var k :| k in rest;
      var v := CleanValue(t, k, fields[k]);
      if v.None? {
        return Err(PolicyError(ValidationError));
      }
      cleaned := cleaned[k := v.value];
      rest := rest - {k};
    }
    CleanedIs(t, fields, cleaned);
    if !(cleaned.Keys <= allowed) {
      return Err(PolicyError(InvalidScope));
    }
    return Ok(Some(cleaned));
  }

  /** A scope that policy accepts means the same on every backend: only keys it declares, and no value
      that could be read as "any". */
  lemma AcceptedScope(t: Tables, scope: Value, allowed: set<string>)
    requires LawfulFolding(t) && CheckedScope(t, scope, allowed).Ok? && CheckedScope(t, scope, allowed).value.Some?
    ensures
      var c := CheckedScope(t, scope, allowed).value.value;
      && c.Keys <= allowed && !HasNestedFilter(c) && "user_id" !in c && NullFree(c)
      && forall k :: k in c ==> !IsWildcard(c[k])
  {
    var c := CheckedScope(t, scope, allowed).value.value;
    forall k | k in c
      ensures !IsWildcard(c[k])
    {
      var v := scope.fields[k];
      if v.Str? && k == "agent_id" {
        NormalIsConcrete(t, v.text);
      }
    }
  }

  lemma NormalIsConcrete(t: Tables, name: string)
    requires LawfulFolding(t) && Normalize(t, name) != ""
    ensures !IsWildcard(Str(Normalize(t, name)))
  {
    hide AsciiTokens, Strip;
    var words := AsciiTokens(t.lower(Strip(name)));
    NormalizeIs(t, name);
    AsciiTokensAreWords(t.lower(Strip(name)));
    HyphenateEnds(words);
    StripKeepsTight(Hyphenate(words));
  }
}
