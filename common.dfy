/** Vocabulary shared by every part of the model: optional values, results
    with an error, the character classes Python's string methods use, and
    decimal digit strings. */
module Common {

  /** A value that may be missing: pandas' NaN, or a cell that is not a string. */
  datatype Option<+T> = None | Some(value: T)

  /** The outcome of an operation that may raise. */
  datatype Result<+T, +E> = Ok(value: T) | Err(error: E)

  /** Python's `str.isspace()`: the characters `str.split()` and `str.strip()`
      treat as whitespace, listed by code point. */
  predicate IsSpace(c: char) {
    var n := c as int;
    n == 0x20 || 0x09 <= n <= 0x0D || 0x1C <= n <= 0x1F || n == 0x85 || n == 0xA0
    || n == 0x1680 || 0x2000 <= n <= 0x200A || n == 0x2028 || n == 0x2029
    || n == 0x202F || n == 0x205F || n == 0x3000
  }

  /** The whitespace `float()` trims from its argument. Characters below 128
      are trimmed only if they are C whitespace (tab, line feed, vertical tab,
      form feed, carriage return, space); characters from 128 on that
      `str.isspace()` accepts are first turned into spaces and so are trimmed
      as well. The file, group, record and unit separators U+001C-U+001F are
      `str.isspace()` whitespace but are not trimmed. */
  predicate IsFloatSpace(c: char) {
    IsSpace(c) && !(0x1C <= c as int <= 0x1F)
  }

  /** The two whitespace classes that get trimmed: `str.strip()`'s and
      `float()`'s. */
  datatype SpaceClass = StrSpace | FloatSpace

  predicate InClass(c: char, k: SpaceClass) {
    match k
    case StrSpace => IsSpace(c)
    case FloatSpace => IsFloatSpace(c)
  }

  /** Every character of `s` is of the class `k`. */
  predicate AllOf(s: string, k: SpaceClass) {
    forall i | 0 <= i < |s| :: InClass(s[i], k)
  }

  /** An ASCII decimal digit. */
  predicate IsDigit(c: char) {
    '0' <= c <= '9'
  }

  predicate NoSpace(s: string) {
    forall i | 0 <= i < |s| :: !IsSpace(s[i])
  }

  predicate AllDigits(s: string) {
    forall i | 0 <= i < |s| :: IsDigit(s[i])
  }

  predicate NoDigit(s: string) {
    forall i | 0 <= i < |s| :: !IsDigit(s[i])
  }

  function Min(a: int, b: int): int {
    if a <= b then a else b
  }

  function Pow10(n: nat): (r: nat)
    ensures r >= 1
  {
    if n == 0 then 1 else 10 * Pow10(n - 1)
  }

  function DigitValue(c: char): (v: nat)
    requires IsDigit(c)
    ensures v < 10
  {
    (c as int) - ('0' as int)
  }

  /** The number a string of decimal digits denotes (0 for the empty string). */
  function DigitsValue(d: string): nat
    requires AllDigits(d)
  {
    if d == [] then 0 else 10 * DigitsValue(d[..|d| - 1]) + DigitValue(d[|d| - 1])
  }

  /** Digit strings are closed under concatenation. */
  lemma AllDigitsAppend(a: string, b: string)
    requires AllDigits(a) && AllDigits(b)
    ensures AllDigits(a + b)
  {
    forall i | 0 <= i < |a + b| ensures IsDigit((a + b)[i]) {
      if i < |a| { assert (a + b)[i] == a[i]; } else { assert (a + b)[i] == b[i - |a|]; }
    }
  }

  /** Reading the digits of `a` followed by those of `b` shifts `a` left by |b| places. */
  lemma {:induction false} DigitsValueAppend(a: string, b: string)
    requires AllDigits(a) && AllDigits(b)
    ensures AllDigits(a + b)
    ensures DigitsValue(a + b) == DigitsValue(a) * Pow10(|b|) + DigitsValue(b)
  {
    AllDigitsAppend(a, b);
    if b != [] {
      var ab := a + b;
      var b' := b[..|b| - 1];
      assert ab[..|ab| - 1] == a + b';
      assert ab[|ab| - 1] == b[|b| - 1];
      DigitsValueAppend(a, b');
      ShiftStep(DigitsValue(a), DigitsValue(b'), DigitValue(b[|b| - 1]), Pow10(|b'|));
    } else {
      assert a + b == a;
    }
  }

  /** The arithmetic step of DigitsValueAppend: appending one digit to both
      sides of the shift. */
  lemma ShiftStep(va: int, vb: int, last: int, p: int)
    ensures 10 * (va * p + vb) + last == va * (10 * p) + (10 * vb + last)
  {
    assert 10 * (va * p) == va * (10 * p);
  }
}
