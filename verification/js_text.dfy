/**
 * The parts of JavaScript's string semantics the planner depends on:
 * `trim()` (guest-name check), `parseInt` (monster inputs) and the
 * decimal text of a number (`${id}` in the monster picker).
 */
module JsText {
  import opened Wrappers

  /** The WhiteSpace and LineTerminator code points of ECMAScript: what `trim()` and `parseInt` skip. */
  predicate IsJsWhitespace(c: char) {
    || c == '\t' || c == '\n' || c == '\U{000B}' || c == '\U{000C}' || c == '\r' || c == ' '
    || c == '\U{00A0}' || c == '\U{1680}' || ('\U{2000}' <= c <= '\U{200A}')
    || c == '\U{2028}' || c == '\U{2029}' || c == '\U{202F}' || c == '\U{205F}'
    || c == '\U{3000}' || c == '\U{FEFF}'
  }

  /** Drops leading whitespace. */
  function TrimStart(s: string): (r: string)
    ensures |r| <= |s| && r == s[|s| - |r|..]
    ensures r == [] || !IsJsWhitespace(r[0])
    ensures forall k :: 0 <= k < |s| - |r| ==> IsJsWhitespace(s[k])
  {
    if s != [] && IsJsWhitespace(s[0]) then TrimStart(s[1..]) else s
  }

  /** `s.trim() === ''`: the string is empty once trimmed (trimming the end as well changes nothing here). */
  predicate IsBlank(s: string)
    ensures IsBlank(s) <==> forall k :: 0 <= k < |s| ==> IsJsWhitespace(s[k])
  {
    TrimStart(s) == []
  }

  /** The value of a digit character in radices up to 36; 36 for a character that is no digit. */
  function DigitValue(c: char): nat {
    if '0' <= c <= '9' then (c - '0') as nat
    else if 'a' <= c <= 'z' then (c - 'a') as nat + 10
    else if 'A' <= c <= 'Z' then (c - 'A') as nat + 10
    else 36
  }

  predicate IsDigit(c: char, radix: nat) {
    DigitValue(c) < radix
  }

  /** Length of the longest prefix of `s` made of digits of `radix`. */
  function DigitRun(s: string, radix: nat): (n: nat)
    ensures n <= |s|
    ensures forall k :: 0 <= k < n ==> IsDigit(s[k], radix)
    ensures n < |s| ==> !IsDigit(s[n], radix)
  {
    if s != [] && IsDigit(s[0], radix) then 1 + DigitRun(s[1..], radix) else 0
  }

  /** The number a run of digits denotes in `radix`, most significant digit first. */
  function DigitsValue(s: string, radix: nat): nat {
    if s == [] then 0
    else DigitsValue(s[..|s| - 1], radix) * radix + DigitValue(s[|s| - 1])
  }

  /** Whether `unsigned` starts with `0x` or `0X`, which switches `parseInt` to radix 16. */
  predicate IsHexPrefixed(unsigned: string) {
    |unsigned| >= 2 && unsigned[0] == '0' && (unsigned[1] == 'x' || unsigned[1] == 'X')
  }

  /**
   * Whether a magnitude starts `unsigned`: a hexadecimal digit after the
   * `0x` prefix, or else a decimal digit.
   */
  predicate StartsMagnitude(unsigned: string) {
    if IsHexPrefixed(unsigned) then |unsigned| >= 3 && IsDigit(unsigned[2], 16)
    else unsigned != [] && IsDigit(unsigned[0], 10)
  }

  /** Reads the magnitude after the sign: `0x`/`0X` switches to radix 16; None when no digit follows. */
  function ParseMagnitude(unsigned: string): (r: Option<nat>)
    ensures r.Some? <==> StartsMagnitude(unsigned)
  {
    var hex := IsHexPrefixed(unsigned);
    var radix := if hex then 16 else 10;
    var body := if hex then unsigned[2..] else unsigned;
    var n := DigitRun(body, radix);
    if n == 0 then None else Some(DigitsValue(body[..n], radix))
  }

  /** What follows the optional sign of a trimmed text. */
  function Unsigned(s: string): (u: string)
    ensures |u| <= |s|
  {
    if s != [] && (s[0] == '-' || s[0] == '+') then s[1..] else s
  }

  /**
   * Whether `parseInt` finds a number at the start of the trimmed text
   * `s`: after an optional sign, a magnitude starts. Otherwise the result
   * is NaN.
   */
  predicate StartsNumber(s: string) {
    StartsMagnitude(Unsigned(s))
  }

  /**
   * `parseInt(text)` with no radix argument: skip leading whitespace, take
   * an optional sign, then read the magnitude. None stands for NaN.
   */
  function ParseInt(text: string): (r: Option<int>)
    ensures IsBlank(text) ==> r == None
    ensures r.Some? <==> StartsNumber(TrimStart(text))
    ensures r.Some? && TrimStart(text)[0] == '-' ==> r.value <= 0
    ensures r.Some? && TrimStart(text)[0] != '-' ==> r.value >= 0
  {
    var s := TrimStart(text);
    if s == [] then None
    else
      match ParseMagnitude(Unsigned(s))
      case None => None
      case Some(m) => Some(if s[0] == '-' then -(m as int) else m)
  }

  function DecimalDigit(d: nat): char
    requires d < 10
  {
    "0123456789"[d]
  }

  /** The decimal text of a natural number, as JavaScript prints it. */
  function DecimalText(n: nat): (s: string)
    ensures |s| >= 1
    ensures forall k :: 0 <= k < |s| ==> IsDigit(s[k], 10)
    ensures s[0] == '0' ==> n == 0
  {
    if n < 10 then [DecimalDigit(n)] else DecimalText(n / 10) + [DecimalDigit(n % 10)]
  }

  /** The text of an integer: `${n}`. */
  function IntText(n: int): string {
    if n < 0 then "-" + DecimalText(-n) else DecimalText(n)
  }

  lemma {:induction false} DecimalTextValue(n: nat)
    ensures DigitsValue(DecimalText(n), 10) == n
  {
    var s := DecimalText(n);
    if n < 10 {
      assert s[..0] == [];
      assert DigitValue(DecimalDigit(n)) == n;
    } else {
      var t := DecimalText(n / 10);
      var d := n % 10;
      assert s == t + [DecimalDigit(d)];
      assert s[..|s| - 1] == t;
      assert DigitValue(DecimalDigit(d)) == d;
      DecimalTextValue(n / 10);
    }
  }

  /** A string of digits is read to its end. */
  lemma AllDigitsRun(s: string, radix: nat)
    requires forall k :: 0 <= k < |s| ==> IsDigit(s[k], radix)
    ensures DigitRun(s, radix) == |s|
  {
  }

  /** A string that starts with no whitespace is left alone by TrimStart. */
  lemma TrimStartNoop(s: string)
    requires s != [] && !IsJsWhitespace(s[0])
    ensures TrimStart(s) == s
  {
  }

  /** A run of decimal digits with no leading zero is read whole, in radix 10. */
  lemma ParseDecimalMagnitude(digits: string)
    requires digits != [] && forall k :: 0 <= k < |digits| ==> IsDigit(digits[k], 10)
    requires digits[0] == '0' ==> |digits| == 1
    ensures ParseMagnitude(digits) == Some(DigitsValue(digits, 10))
  {
    AllDigitsRun(digits, 10);
    assert digits[..|digits|] == digits;
  }

  /** parseInt of a text with no leading whitespace or sign is its magnitude. */
  lemma ParseUnsigned(s: string)
    requires s != [] && !IsJsWhitespace(s[0]) && s[0] != '-' && s[0] != '+'
    ensures ParseInt(s) == match ParseMagnitude(s) case None => None case Some(m) => Some(m as int)
  {
    TrimStartNoop(s);
  }

  /** parseInt of `-` followed by a text is the negated magnitude of that text. */
  lemma ParseNegative(digits: string)
    ensures ParseInt("-" + digits) == match ParseMagnitude(digits) case None => None case Some(m) => Some(-(m as int))
  {
    var s := "-" + digits;
    TrimStartNoop(s);
    assert s[1..] == digits;
  }

  /** The magnitude read from the decimal text of a number is that number. */
  lemma DecimalMagnitude(m: nat)
    ensures ParseMagnitude(DecimalText(m)) == Some(m)
  {
    DecimalTextValue(m);
    ParseDecimalMagnitude(DecimalText(m));
  }

  /** parseInt reads back the text of a natural number. */
  lemma ParseNaturalText(m: nat)
    ensures ParseInt(DecimalText(m)) == Some(m)
  {
    var digits := DecimalText(m);
    assert DigitValue(digits[0]) < 10;
    assert !IsJsWhitespace(digits[0]) && digits[0] != '-' && digits[0] != '+';
    DecimalMagnitude(m);
    ParseUnsigned(digits);
  }

  /** parseInt reads back the text of a negative number. */
  lemma ParseNegativeText(m: nat)
    requires m > 0
    ensures ParseInt("-" + DecimalText(m)) == Some(-(m as int))
  {
    DecimalMagnitude(m);
    ParseNegative(DecimalText(m));
  }

  /** parseInt reads back the text of every integer. */
  lemma ParseIntOfIntText(n: int)
    ensures ParseInt(IntText(n)) == Some(n)
  {
    if n < 0 {
      var m: nat := -n;
      var text := "-" + DecimalText(m);
      ParseNegativeText(m);
      assert ParseInt(text) == Some(n);
      assert IntText(n) == text;
    } else {
      assert IntText(n) == DecimalText(n);
      ParseNaturalText(n);
    }
  }
}
