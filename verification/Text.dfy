/** Python's text operations that the store and the policy rely on. */
module Text {
  import opened Results
  import opened CharTables

  // ---------- str.strip ----------

  function StripLeft(s: string): (r: string)
    ensures r != "" ==> !IsSpace(r[0])
  {
    if s != "" && IsSpace(s[0]) then StripLeft(s[1..]) else s
  }

  function StripRight(s: string): (r: string)
    ensures r <= s
    ensures r != "" ==> !IsSpace(r[|r| - 1])
  {
    if s != "" && IsSpace(s[|s| - 1]) then StripRight(s[..|s| - 1]) else s
  }

  function Strip(s: string): string {
    StripRight(StripLeft(s))
  }

  lemma StripKeepsTight(s: string)
    requires s != "" ==> !IsSpace(s[0]) && !IsSpace(s[|s| - 1])
    ensures Strip(s) == s
  {
  }

  ghost predicate AllSpace(s: string) {
    forall i :: 0 <= i < |s| ==> IsSpace(s[i])
  }

  ghost predicate Tight(s: string) {
    s != "" ==> !IsSpace(s[0]) && !IsSpace(s[|s| - 1])
  }

  lemma {:induction false} LeftIs(s: string) returns (front: string)
    ensures AllSpace(front) && s == front + StripLeft(s)
    decreases |s|
  {
    front := "";
    if s != "" && IsSpace(s[0]) {
      var more := LeftIs(s[1..]);
      front := [s[0]] + more;
    }
  }

  lemma {:induction false} RightIs(s: string) returns (back: string)
    ensures AllSpace(back) && s == StripRight(s) + back
    decreases |s|
  {
    back := "";
    if s != "" && IsSpace(s[|s| - 1]) {
      var more := RightIs(s[..|s| - 1]);
      back := more + [s[|s| - 1]];
    }
  }

  /** What `strip` leaves has no space at either end, and only spaces were around it. */
  lemma StripIs(s: string) returns (front: string, back: string)
    ensures AllSpace(front) && AllSpace(back) && Tight(Strip(s)) && s == front + Strip(s) + back
  {
    front := LeftIs(s);
    back := RightIs(StripLeft(s));
    var kept := StripLeft(s);
    assert Strip(s) <= kept;
  }

  // ---------- int and str of an int ----------

  predicate IsDigit(c: char) {
    '0' <= c <= '9'
  }

  function DigitText(d: nat): char
    requires d < 10
  {
    '0' + (d as char)
  }

  function NatText(n: nat): (text: string)
    ensures text != "" && forall i :: 0 <= i < |text| ==> IsDigit(text[i])
  {
    if n < 10 then [DigitText(n)] else NatText(n / 10) + [DigitText(n % 10)]
  }

  function IntText(n: int): string {
    if n < 0 then "-" + NatText(-n) else NatText(n)
  }

  /** Digits, with single underscores allowed between two of them. */
  function ParseDigits(s: string, value: nat, afterDigit: bool): Option<nat> {
    if s == "" then (if afterDigit then Some(value) else None)
    else if IsDigit(s[0]) then ParseDigits(s[1..], 10 * value + (s[0] as int - '0' as int), true)
    else if s[0] == '_' && afterDigit then ParseDigits(s[1..], value, false)
    else None
  }

  /** `int(s)` over ASCII digits. */
  function ParseInt(s: string): Option<int> {
    var body := Strip(s);
    if body != "" && (body[0] == '-' || body[0] == '+') then
      var digits := ParseDigits(body[1..], 0, false);
      if digits.None? then None
      else
        var n: int := digits.value;
        Some(if body[0] == '-' then -n else n)
    else
      var digits := ParseDigits(body, 0, false);
      if digits.None? then None else Some(digits.value)
  }

  lemma {:induction false} DigitsOfNatText(n: nat, rest: string)
    ensures ParseDigits(NatText(n) + rest, 0, false) == ParseDigits(rest, n, true)
    decreases n
  {
    var last := [DigitText(n % 10)];
    if n < 10 {
      assert (last + rest)[1..] == rest;
    } else {
      DigitsOfNatText(n / 10, last + rest);
      assert NatText(n) + rest == NatText(n / 10) + (last + rest);
      assert (last + rest)[1..] == rest;
    }
  }

  /** A cursor is a position written as text, and reads back as that position. */
  lemma IntRoundTrip(n: int)
    ensures ParseInt(IntText(n)) == Some(n)
  {
    var body := IntText(n);
    StripKeepsTight(body);
    if n < 0 {
      assert body[1..] == NatText(-n) + "";
      DigitsOfNatText(-n, "");
    } else {
      assert body == NatText(n) + "";
      DigitsOfNatText(n, "");
    }
  }

  // ---------- Sequences ----------

  lemma Regroup<T>(a: seq<T>, b: seq<T>, c: seq<T>)
    ensures (a + b) + c == a + (b + c)
  {
  }

  /** A slice bound of Python: negative ones count from the end, and both ends are clamped. */
  function Clamp(i: int, length: nat): nat {
    if i < 0 then (if length + i < 0 then 0 else length + i)
    else if i > length then length
    else i
  }

  /** `s[start:stop]` */
  function Slice<T>(s: seq<T>, start: int, stop: int): seq<T> {
    var a, b := Clamp(start, |s|), Clamp(stop, |s|);
    if a <= b then s[a..b] else []
  }
}
