/** Option and Result values standing in for Python's None and for a raised exception. */
module Wrappers {

  datatype Option<+T> = None | Some(value: T)

  datatype Result<+T> = Success(value: T) | Failure(error: string)
}

/** Character classes and string helpers shared by the extractors.  Whitespace is the set that
    Python's str.isspace() (and so str.strip() and the regular-expression class \s) accepts;
    digits and letters are the ASCII ones. */
module Text {
  import opened Wrappers

  predicate IsWhitespace(c: char)
  {
    c == ' ' || ('\t' <= c <= '\r') || ('\U{1C}' <= c <= '\U{1F}') || c == '\U{85}' || c == '\U{A0}'
    || c == '\U{1680}' || ('\U{2000}' <= c <= '\U{200A}') || c == '\U{2028}' || c == '\U{2029}'
    || c == '\U{202F}' || c == '\U{205F}' || c == '\U{3000}'
  }

  predicate IsDigit(c: char) { '0' <= c <= '9' }

  predicate IsUpper(c: char) { 'A' <= c <= 'Z' }

  predicate IsLetter(c: char) { 'a' <= c <= 'z' || 'A' <= c <= 'Z' }

  /** The regular-expression class \w. */
  predicate IsWordChar(c: char) { IsLetter(c) || IsDigit(c) || c == '_' }

  predicate AllDigits(s: string) { forall i | 0 <= i < |s| :: IsDigit(s[i]) }

  predicate StartsWith(s: string, prefix: string) { |prefix| <= |s| && s[..|prefix|] == prefix }

  /** `s` holds `p` at position `i`. */
  predicate OccursAt(s: string, p: string, i: nat) { i + |p| <= |s| && s[i..i + |p|] == p }

  /** Python's `p in s`. */
  predicate Contains(s: string, p: string) { exists i: nat | i <= |s| :: OccursAt(s, p, i) }

  /** `n` digits start at position `i`. */
  predicate DigitsAt(s: string, i: nat, n: nat) { i + n <= |s| && forall k | i <= k < i + n :: IsDigit(s[k]) }

  /** The regular-expression `.` (no DOTALL flag) matches the character at `i`. */
  predicate AnyCharAt(s: string, i: nat) { i < |s| && s[i] != '\n' }

  /** Length of the longest run of whitespace that ends `s`. */
  function TrailingRun(s: string): (n: nat)
    ensures n <= |s| && BlankFrom(s, |s| - n)
    ensures n == |s| || !IsWhitespace(s[|s| - n - 1])
    decreases |s|
  {
    if s == [] || !IsWhitespace(s[|s| - 1]) then 0
    else
      var n := 1 + TrailingRun(s[..|s| - 1]);
      assert forall k | |s| - n <= k < |s| - 1 :: s[k] == s[..|s| - 1][k];
      n
  }

  /** `r`, at position `i` of `s`, is `s` without its leading and trailing whitespace. */
  predicate Trims(s: string, r: string, i: nat)
  {
    i + |r| <= |s| && s[i..i + |r|] == r && WhitespaceAt(s, 0, i) && BlankFrom(s, i + |r|)
  }

  /** Python's str.strip(): the text between the leading and the trailing whitespace. */
  function Strip(s: string): (r: string)
    ensures Trims(s, r, WhitespaceRun(s, 0))
    ensures r == [] || (!IsWhitespace(r[0]) && !IsWhitespace(r[|r| - 1]))
  {
    var a := WhitespaceRun(s, 0);
    var n := TrailingRun(s);
    if a == |s| then []
    else
      assert !IsWhitespace(s[a]);
      s[a..|s| - n]
  }

  /** Length of the longest run of whitespace starting at `i`. */
  function WhitespaceRun(s: string, i: nat): (n: nat)
    requires i <= |s|
    ensures i + n <= |s|
    ensures forall k | i <= k < i + n :: IsWhitespace(s[k])
    ensures i + n == |s| || !IsWhitespace(s[i + n])
    ensures forall m: nat | WhitespaceAt(s, i, m) :: m <= n
    decreases |s| - i
  {
    if i == |s| || !IsWhitespace(s[i]) then 0 else 1 + WhitespaceRun(s, i + 1)
  }

  /** Length of the longest run of ASCII digits starting at `i`. */
  function DigitRun(s: string, i: nat): (n: nat)
    requires i <= |s|
    ensures DigitsAt(s, i, n)
    ensures i + n == |s| || !IsDigit(s[i + n])
    ensures forall m: nat | DigitsAt(s, i, m) :: m <= n
    decreases |s| - i
  {
    if i == |s| || !IsDigit(s[i]) then 0 else 1 + DigitRun(s, i + 1)
  }

  /** `n` whitespace characters start at position `i`. */
  predicate WhitespaceAt(s: string, i: nat, n: nat) { i + n <= |s| && forall k | i <= k < i + n :: IsWhitespace(s[k]) }

  /** `n` ASCII letters start at position `i` (the class [a-zA-Z]). */
  predicate LettersAt(s: string, i: nat, n: nat) { i + n <= |s| && forall k | i <= k < i + n :: IsLetter(s[k]) }

  /** The regular-expression tail `\s*$` matches at `i`: only whitespace is left. (A `$` before a
      final line break needs no case of its own, since the line break is whitespace.) */
  predicate BlankFrom(s: string, i: nat) { i <= |s| && forall k | i <= k < |s| :: IsWhitespace(s[k]) }

  /** `s[i..j]` holds no line break, so a `.*` can span it. */
  predicate LineAt(s: string, i: nat, j: nat) { i <= j <= |s| && forall k | i <= k < j :: s[k] != '\n' }

  /** The ten characters `\d{2}.\d{2}.\d{4}` match at `p`. */
  predicate DottedDateAt(s: string, p: nat)
  {
    DigitsAt(s, p, 2) && AnyCharAt(s, p + 2) && DigitsAt(s, p + 3, 2) && AnyCharAt(s, p + 5) && DigitsAt(s, p + 6, 4)
  }

  /** Length of the longest run without a line break starting at `i`. */
  function LineRun(s: string, i: nat): (n: nat)
    requires i <= |s|
    ensures LineAt(s, i, i + n)
    ensures i + n == |s| || s[i + n] == '\n'
    ensures forall j: nat | LineAt(s, i, j) :: j <= i + n
    decreases |s| - i
  {
    if i == |s| || s[i] == '\n' then 0 else 1 + LineRun(s, i + 1)
  }

  /** `s[i..j]` holds neither a digit nor a line break: the class [^\d\n]. */
  predicate NonDigitLineAt(s: string, i: nat, j: nat)
  {
    i <= j <= |s| && forall k | i <= k < j :: !IsDigit(s[k]) && s[k] != '\n'
  }

  /** Length of the longest run of [^\d\n] starting at `i`. */
  function NonDigitLineRun(s: string, i: nat): (n: nat)
    requires i <= |s|
    ensures NonDigitLineAt(s, i, i + n)
    ensures forall j: nat | NonDigitLineAt(s, i, j) :: j <= i + n
    decreases |s| - i
  {
    if i == |s| || IsDigit(s[i]) || s[i] == '\n' then 0
    else
      assert forall j: nat | NonDigitLineAt(s, i, j) && i < j :: NonDigitLineAt(s, i + 1, j);
      1 + NonDigitLineRun(s, i + 1)
  }

  /** The value of a string of decimal digits. */
  function DigitsValue(s: string): nat
    requires AllDigits(s)
  {
    if s == [] then 0 else 10 * DigitsValue(s[..|s| - 1]) + (s[|s| - 1] as int - '0' as int)
  }

  // ---------------------------------------------------------------------------------------------
  // int() on a string: surrounding whitespace, an optional sign, and decimal digits.

  /** Python's int() of a string: None where it raises ValueError. */
  function ParseInt(s: string): Option<int>
  {
    var t := Strip(s);
    if |t| >= 1 && AllDigits(t) then Some(DigitsValue(t))
    else if |t| >= 2 && (t[0] == '+' || t[0] == '-') && AllDigits(t[1..]) then
      var v: int := DigitsValue(t[1..]);
      Some(if t[0] == '-' then -v else v)
    else None
  }

  /** The decimal numeral of `n`, as str() writes it. */
  function Decimal(n: nat): (r: string)
    ensures |r| >= 1 && AllDigits(r)
  {
    var d := ['0' + (n % 10) as char];
    if n < 10 then d else Decimal(n / 10) + d
  }

  function IntText(n: int): string
  {
    if n < 0 then "-" + Decimal(-n) else Decimal(n)
  }

  lemma {:induction false} DecimalValue(n: nat)
    ensures DigitsValue(Decimal(n)) == n
  {
    if n >= 10 {
      DecimalValue(n / 10);
      var r := Decimal(n);
      assert r[..|r| - 1] == Decimal(n / 10);
    }
  }

  /** Text without whitespace is its own stripped form. */
  lemma StripNoWhitespace(s: string)
    requires |s| >= 1 && forall k | 0 <= k < |s| :: !IsWhitespace(s[k])
    ensures Strip(s) == s
  {
    assert WhitespaceRun(s, 0) == 0;
    assert TrailingRun(s) == 0;
  }

  /** int() reads back what str() writes. */
  lemma ParseIntText(n: int)
    ensures ParseInt(IntText(n)) == Some(n)
  {
    var t := IntText(n);
    var m: nat := if n < 0 then -n else n;
    DecimalValue(m);
    var d := Decimal(m);
    assert forall k | 0 <= k < |t| :: !IsWhitespace(t[k]) by {
      forall k | 0 <= k < |t| ensures !IsWhitespace(t[k]) {
        if n < 0 && k >= 1 { assert t[k] == d[k - 1]; }
      }
    }
    StripNoWhitespace(t);
    if n < 0 {
      assert t[1..] == d;
    }
  }
}

/** The token stream that Python's HTMLParser delivers to its handle_starttag, handle_data and
    handle_endtag callbacks; every extractor is a state machine driven by these tokens. */
module Html {
  import opened Wrappers

  /** One attribute of a start tag; an attribute written without a value carries None. */
  datatype Attribute = Attribute(name: string, value: Option<string>)

  datatype Token = StartTag(tag: string, attrs: seq<Attribute>) | Data(text: string) | EndTag(tag: string)
}
