/** Character classes of the keyword scorer.

    The ranges written out in `keyword.py` are written out here. The tables that Python and ICU
    bring along (alphanumeric, mark, format, digit, case folding, dictionary word breaks) are a
    `Tables` value, and `Lawful` lists the only facts about them that the proofs use. */
module CharTables {

  predicate IsAscii(c: char) {
    c < '\U{80}'
  }

  predicate IsAsciiUpper(c: char) {
    'A' <= c <= 'Z'
  }

  /** The regular expression class `[a-z0-9]`. */
  predicate IsAsciiToken(c: char) {
    'a' <= c <= 'z' || '0' <= c <= '9'
  }

  /** `str.isspace`, which is what `str.split()` splits on. */
  predicate IsSpace(c: char) {
    || '\U{9}' <= c <= '\U{d}' || '\U{1c}' <= c <= '\U{20}'
    || c == '\U{85}' || c == '\U{a0}' || c == '\U{1680}'
    || '\U{2000}' <= c <= '\U{200a}' || c == '\U{2028}' || c == '\U{2029}'
    || c == '\U{202f}' || c == '\U{205f}' || c == '\U{3000}'
  }

  /** Han, kana and Hangul: one token per character. */
  predicate IsUnspaced(c: char) {
    || '\U{1100}' <= c <= '\U{11ff}' || '\U{3005}' <= c <= '\U{3007}' || c == '\U{303b}'
    || '\U{3040}' <= c <= '\U{30ff}' || '\U{3130}' <= c <= '\U{318f}' || '\U{31f0}' <= c <= '\U{31ff}'
    || '\U{3400}' <= c <= '\U{4dbf}' || '\U{4e00}' <= c <= '\U{9fff}' || '\U{ac00}' <= c <= '\U{d7af}'
    || '\U{f900}' <= c <= '\U{faff}' || '\U{20000}' <= c <= '\U{3ffff}'
  }

  /** Thai, Lao, Myanmar and Khmer: segmented by dictionary. */
  predicate IsSegmentedChar(c: char) {
    '\U{e00}' <= c <= '\U{eff}' || '\U{1000}' <= c <= '\U{109f}' || '\U{1780}' <= c <= '\U{17ff}'
  }

  predicate IsWordMark(c: char) {
    c == '\U{e46}' || c == '\U{e2f}' || c == '\U{ec6}' || c == '\U{eaf}' || c == '\U{17d7}'
  }

  const ZERO_WIDTH_SPACE := '\U{200b}'

  function AsciiLowerChar(c: char): char {
    if IsAsciiUpper(c) then (c as int + 32) as char else c
  }

  function AsciiLower(s: string): string {
    seq(|s|, i requires 0 <= i < |s| => AsciiLowerChar(s[i]))
  }

  predicate AllAscii(s: string) {
    forall i :: 0 <= i < |s| ==> IsAscii(s[i])
  }

  datatype Tables = Tables(
    alnum: char -> bool,               // str.isalnum of one character
    mark: char -> bool,                // Unicode category M*
    format: char -> bool,              // Unicode category Cf
    digit: char -> bool,               // str.isdigit of one character
    upper: string -> bool,             // str.isupper
    nfkc: string -> string,            // unicodedata.normalize("NFKC", s)
    lower: string -> string,           // str.lower
    dictionary: string -> seq<string>  // ICU's word breaks, after respelling
  )

  ghost predicate LawfulClasses(t: Tables) {
    && (forall c :: IsSpace(c) ==> !t.alnum(c) && !t.mark(c) && !t.format(c))
    && (forall c :: IsAscii(c) ==> !t.mark(c) && !t.format(c) && (t.alnum(c) <==> IsAsciiToken(c) || IsAsciiUpper(c)))
  }

  ghost predicate NoAsciiUpper(s: string) {
    forall i :: 0 <= i < |s| ==> !IsAsciiUpper(s[i])
  }

  ghost predicate LawfulFolding(t: Tables) {
    && (forall s :: AllAscii(s) ==> t.nfkc(s) == s && t.lower(s) == AsciiLower(s))
    && (forall s :: NoAsciiUpper(t.lower(s)))
  }

  ghost predicate Lawful(t: Tables) {
    LawfulClasses(t) && LawfulFolding(t)
  }

  /** `NFKC` then lowercase, as both tokenizers fold their text. */
  function Fold(t: Tables, text: string): string {
    t.lower(t.nfkc(text))
  }

  /** The laws ask for nothing impossible: the tables of plain ASCII keep them. */
  lemma LawfulTablesExist()
    ensures exists t :: Lawful(t)
  {
    var t := Tables(c => IsAsciiToken(c) || IsAsciiUpper(c), c => false, c => false,
                    c => '0' <= c <= '9', s => false, s => s, AsciiLower, s => [s]);
    assert Lawful(t);
  }
}
