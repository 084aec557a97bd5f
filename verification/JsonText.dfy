/** The compact JSON text of a value, and why the measured size is its length in UTF-8. */
module JsonText {
  import opened Values
  import opened Metadata

  // ---------- Texts ----------

  /** The length of a character in UTF-8 (section 3 of RFC 3629). */
  function Utf8Length(c: char): nat {
    if c < '\U{80}' then 1 else if c < '\U{800}' then 2 else if c < '\U{10000}' then 3 else 4
  }

  function Utf8Bytes(s: string): nat {
    if s == "" then 0 else Utf8Length(s[0]) + Utf8Bytes(s[1..])
  }

  function HexDigit(n: nat): char
    requires n < 16
  {
    "0123456789abcdef"[n]
  }

  /** A character inside a string (section 7 of RFC 8259), non-ASCII ones as they are. */
  function EscapedChar(c: char): string {
    if c == '\"' then "\\\"" else if c == '\\' then "\\\\"
    else if c == '\U{8}' then "\\b" else if c == '\U{c}' then "\\f"
    else if c == '\n' then "\\n" else if c == '\r' then "\\r" else if c == '\t' then "\\t"
    else if c < '\U{20}' then "\\u00" + [HexDigit(c as int / 16), HexDigit(c as int % 16)]
    else [c]
  }

  function Escaped(s: string): string {
    if s == "" then "" else EscapedChar(s[0]) + Escaped(s[1..])
  }

  function Quoted(s: string): string {
    "\"" + Escaped(s) + "\""
  }

  function Joined(parts: seq<string>): string {
    if parts == [] then ""
    else if |parts| == 1 then parts[0]
    else parts[0] + "," + Joined(parts[1..])
  }

  function Pairs(keys: seq<string>, texts: seq<string>): (pairs: seq<string>)
    requires |keys| == |texts|
  {
    seq(|keys|, i requires 0 <= i < |keys| => Quoted(keys[i]) + ":" + texts[i])
  }

  /** The keys of an object, each once, in some order. */
  ghost predicate Orders(keys: seq<string>, fields: Fields) {
    && (forall i, j :: 0 <= i < j < |keys| ==> keys[i] != keys[j])
    && (forall i :: 0 <= i < |keys| ==> keys[i] in fields)
    && |keys| == |fields|
  }

  predicate IsAsciiText(s: string) {
    forall i :: 0 <= i < |s| ==> s[i] < '\U{80}'
  }

  // ---------- The text of a value ----------

  ghost predicate AreJson(items: seq<Value>, texts: seq<string>)
    decreases items, 1
  {
    |texts| == |items| && forall i :: 0 <= i < |items| ==> IsJson(items[i], texts[i])
  }

  /** The texts of the fields of `owner`, in the order of the keys. */
  ghost predicate FieldsAre(owner: Value, fields: Fields, keys: seq<string>, texts: seq<string>)
    requires Inside(fields, owner) && forall i :: 0 <= i < |keys| ==> keys[i] in fields
    decreases owner, 1
  {
    |texts| == |keys| && forall i :: 0 <= i < |keys| ==> IsJson(fields[keys[i]], texts[i])
  }

  /** The text is JSON for the value, without a space outside its strings. The keys of an object may come in
      any order. */
  ghost predicate IsJson(v: Value, text: string)
    decreases v, 2
  {
    match v
    case Null => text == "null"
    case Bool(flag) => text == (if flag then "true" else "false")
    case Number(digits, _) => text == digits && IsAsciiText(digits)
    case Str(s) => text == Quoted(s)
    case List(items, _) => exists texts :: AreJson(items, texts) && text == "[" + Joined(texts) + "]"
    case Object(fields, _) =>
      exists keys, texts ::
        Orders(keys, fields) && FieldsAre(v, fields, keys, texts) && text == "{" + Joined(Pairs(keys, texts)) + "}"
  }

  // ---------- Lengths ----------

  lemma {:induction false} BytesConcat(a: string, b: string)
    ensures Utf8Bytes(a + b) == Utf8Bytes(a) + Utf8Bytes(b)
    decreases |a|
  {
    if a == "" {
      assert a + b == b;
    } else {
      assert (a + b)[1..] == a[1..] + b;
      BytesConcat(a[1..], b);
    }
  }

  lemma {:induction false} AsciiBytes(s: string)
    requires IsAsciiText(s)
    ensures Utf8Bytes(s) == |s|
    decreases |s|
  {
    if s != "" {
      AsciiBytes(s[1..]);
    }
  }

  lemma EscapedCharBytes(c: char)
    ensures Utf8Bytes(EscapedChar(c)) == CharBytes(c)
  {
    var e := EscapedChar(c);
    if c < '\U{80}' {
      assert IsAsciiText(e);
      AsciiBytes(e);
    } else {
      assert e == [c] && e[1..] == "";
    }
  }

  lemma {:induction false} EscapedBytes(s: string)
    ensures Utf8Bytes(Escaped(s)) == TextBytes(s)
    decreases |s|
  {
    hide EscapedChar, CharBytes;
    if s != "" {
      EscapedCharBytes(s[0]);
      BytesConcat(EscapedChar(s[0]), Escaped(s[1..]));
      EscapedBytes(s[1..]);
    }
  }

  lemma QuotedBytes(s: string)
    ensures Utf8Bytes(Quoted(s)) == StringBytes(s)
  {
    hide Escaped;
    AsciiBytes("\"");
    BytesConcat("\"" + Escaped(s), "\"");
    BytesConcat("\"", Escaped(s));
    EscapedBytes(s);
  }

  /** Brackets around a text add two. */
  lemma BracketBytes(open: string, within: string, close: string)
    requires |open| == |close| == 1 && IsAsciiText(open) && IsAsciiText(close)
    ensures Utf8Bytes(open + within + close) == 2 + Utf8Bytes(within)
  {
    AsciiBytes(open);
    AsciiBytes(close);
    BytesConcat(open + within, close);
    BytesConcat(open, within);
  }

  lemma JoinedMore(parts: seq<string>)
    requires |parts| > 1
    ensures Utf8Bytes(Joined(parts)) == Utf8Bytes(parts[0]) + 1 + Utf8Bytes(Joined(parts[1..]))
  {
    AsciiBytes(",");
    BytesConcat(parts[0] + ",", Joined(parts[1..]));
    BytesConcat(parts[0], ",");
  }

  lemma {:induction false} ItemsLength(items: seq<Value>, texts: seq<string>)
    requires |texts| == |items| && forall i :: 0 <= i < |items| ==> Utf8Bytes(texts[i]) == ValueBytes(items[i])
    ensures Utf8Bytes(Joined(texts)) == ItemsBytes(items)
    decreases |items|
  {
    hide Utf8Bytes, ValueBytes;
    if |items| > 1 {
      JoinedMore(texts);
      ItemsLength(items[1..], texts[1..]);
    } else if items == [] {
      assert Utf8Bytes("") == 0 by {
        AsciiBytes("");
      }
    }
  }

  lemma PairLength(key: string, text: string, value: Value)
    requires Utf8Bytes(text) == ValueBytes(value)
    ensures Utf8Bytes(Quoted(key) + ":" + text) == PairBytes(key, value)
  {
    hide Quoted;
    AsciiBytes(":");
    BytesConcat(Quoted(key) + ":", text);
    BytesConcat(Quoted(key), ":");
    QuotedBytes(key);
  }

  lemma RestOrders(keys: seq<string>, fields: Fields)
    requires Orders(keys, fields) && keys != []
    ensures Orders(keys[1..], fields - {keys[0]}) && |fields - {keys[0]}| == |fields| - 1
  {
    assert (fields - {keys[0]}).Keys == fields.Keys - {keys[0]};
    assert |(fields - {keys[0]}).Keys| == |fields.Keys| - 1;
  }

  /** In whatever order the keys come, the pairs and the commas between them have the counted length. */
  lemma {:induction false} PairsLength(owner: Value, fields: Fields, keys: seq<string>, texts: seq<string>)
    requires Inside(fields, owner) && Orders(keys, fields) && |texts| == |keys|
    requires forall i :: 0 <= i < |keys| ==> Utf8Bytes(texts[i]) == ValueBytes(fields[keys[i]])
    ensures Utf8Bytes(Joined(Pairs(keys, texts))) == PairsBytes(owner, fields) + Commas(fields)
    decreases |keys|
  {
    hide Utf8Bytes, ValueBytes, PairBytes, Quoted, PairsBytes, Joined;
    if keys == [] {
      NoPairs(owner, fields, texts);
    } else {
      var k, rest := keys[0], fields - {keys[0]};
      PairsSplit(owner, fields, k);
      PairLength(k, texts[0], fields[k]);
      RestOrders(keys, fields);
      PairsLength(owner, rest, keys[1..], texts[1..]);
      var pairs := Pairs(keys, texts);
      assert pairs[1..] == Pairs(keys[1..], texts[1..]);
      if |keys| > 1 {
        JoinedMore(pairs);
        assert |rest| > 0 && |fields| > 1;
        HasCommas(fields);
        HasCommas(rest);
      } else {
        OnePair(owner, fields, rest, pairs);
      }
    }
  }

  lemma HasCommas(fields: Fields)
    requires |fields| > 0
    ensures Commas(fields) == |fields| - 1
  {
  }

  lemma NoPairs(owner: Value, fields: Fields, texts: seq<string>)
    requires Inside(fields, owner) && |fields| == 0 && texts == []
    ensures Utf8Bytes(Joined(Pairs([], texts))) == PairsBytes(owner, fields) + Commas(fields)
  {
    assert fields == map[];
    assert Pairs([], texts) == [];
  }

  lemma OnePair(owner: Value, fields: Fields, rest: Fields, pairs: seq<string>)
    requires Inside(rest, owner) && |fields| == 1 && |rest| == 0 && |pairs| == 1
    ensures Joined(pairs) == pairs[0] && Commas(fields) == 0 && PairsBytes(owner, rest) == 0
  {
    assert rest == map[];
  }

  /** Every compact JSON text of a value has the measured length. */
  lemma {:induction false} JsonLength(v: Value, text: string)
    requires IsJson(v, text)
    ensures Utf8Bytes(text) == ValueBytes(v)
    decreases v, 2
  {
    hide Utf8Bytes, Joined, Pairs, Quoted, StringBytes, PairsBytes, Orders;
    match v
    case Null => AsciiBytes("null");
    case Bool(flag) => AsciiBytes(text);
    case Number(digits, _) => AsciiBytes(digits);
    case Str(s) => QuotedBytes(s);
    case List(items, _) =>
      var texts :| AreJson(items, texts) && text == "[" + Joined(texts) + "]";
      forall i | 0 <= i < |items|
        ensures Utf8Bytes(texts[i]) == ValueBytes(items[i])
      {
        JsonLength(items[i], texts[i]);
      }
      ItemsLength(items, texts);
      BracketBytes("[", Joined(texts), "]");
    case Object(fields, _) =>
      ObjectLength(v, fields, text);
  }

  lemma {:induction false} ObjectLength(v: Value, fields: Fields, text: string)
    requires v.Object? && fields == v.fields && IsJson(v, text)
    ensures Utf8Bytes(text) == ValueBytes(v)
    decreases v, 1
  {
    hide Utf8Bytes, Joined, Quoted, PairsBytes;
    var keys, texts :|
      Orders(keys, fields) && FieldsAre(v, fields, keys, texts) && text == "{" + Joined(Pairs(keys, texts)) + "}";
    forall i | 0 <= i < |keys|
      ensures Utf8Bytes(texts[i]) == ValueBytes(fields[keys[i]])
    {
      JsonLength(fields[keys[i]], texts[i]);
    }
    PairsLength(v, fields, keys, texts);
    BracketBytes("{", Joined(Pairs(keys, texts)), "}");
  }

  /** The size that policy measures is the length in UTF-8 of the metadata's compact JSON text, whatever the
      order of its keys. */
  lemma SizeIsLength(metadata: Fields, shown: string, text: string)
    requires IsJson(Object(metadata, shown), text)
    ensures Size(metadata) == Utf8Bytes(text)
  {
    hide IsJson, Utf8Bytes;
    JsonLength(Object(metadata, shown), text);
    AnyOwner(Object(metadata, shown), Object(metadata, ""), metadata);
  }

  // ---------- There is such a text ----------

  /** Numbers are written in ASCII. */
  ghost predicate PlainNumbers(v: Value)
    decreases v, 2
  {
    match v
    case Number(digits, _) => IsAsciiText(digits)
    case List(items, _) => forall i :: 0 <= i < |items| ==> PlainNumbers(items[i])
    case Object(fields, _) => forall k :: k in fields ==> PlainNumbers(fields[k])
    case _ => true
  }

  lemma {:induction false} HasJson(v: Value) returns (text: string)
    requires PlainNumbers(v)
    ensures IsJson(v, text)
    decreases v, 2
  {
    hide Quoted, Joined, Pairs;
    match v
    case Null => text := "null";
    case Bool(flag) => text := if flag then "true" else "false";
    case Number(digits, _) => text := digits;
    case Str(s) => text := Quoted(s);
    case List(items, _) =>
      var texts := [];
      for i := 0 to |items|
        invariant |texts| == i && forall j :: 0 <= j < i ==> IsJson(items[j], texts[j])
      {
        var one := HasJson(items[i]);
        texts := texts + [one];
      }
      assert AreJson(items, texts);
      text := "[" + Joined(texts) + "]";
    case Object(fields, _) =>
      var keys, texts := FieldTexts(v, fields);
      text := "{" + Joined(Pairs(keys, texts)) + "}";
  }

  lemma {:induction false} FieldTexts(v: Value, fields: Fields) returns (keys: seq<string>, texts: seq<string>)
    requires v.Object? && fields == v.fields && PlainNumbers(v)
    ensures Orders(keys, fields) && FieldsAre(v, fields, keys, texts)
    decreases v, 1
  {
    hide IsJson;
    keys := KeysInOrder(fields);
    texts := [];
    for i := 0 to |keys|
      invariant |texts| == i && forall j :: 0 <= j < i ==> IsJson(fields[keys[j]], texts[j])
    {
      var one := HasJson(fields[keys[i]]);
      texts := texts + [one];
    }
  }

  lemma {:induction false} KeysInOrder(fields: Fields) returns (keys: seq<string>)
    ensures Orders(keys, fields)
    decreases |fields|
  {
    keys := [];
    if k :| k in fields {
      assert (fields - {k}).Keys == fields.Keys - {k};
      assert |(fields - {k}).Keys| == |fields.Keys| - 1;
      var rest := KeysInOrder(fields - {k});
      keys := [k] + rest;
    } else {
      assert fields == map[];
    }
  }
}
