/** The string operations the cleaning rules and the camera parser are built
    from: Python's `str.strip()`, `str.split(sep)`, `s.split('MP')[0]`, and
    `float()` restricted to plain decimal notation. */
module Text {
  import opened Common

  /** Number of characters of the class `k` at the front of `s`. */
  function LeadingSpaces(s: string, k: SpaceClass): (n: nat)
    ensures n <= |s|
    ensures forall i | 0 <= i < n :: InClass(s[i], k)
    ensures n < |s| ==> !InClass(s[n], k)
  {
    if |s| > 0 && InClass(s[0], k) then 1 + LeadingSpaces(s[1..], k) else 0
  }

  /** Number of characters of the class `k` at the end of `s`. */
  function TrailingSpaces(s: string, k: SpaceClass): (n: nat)
    ensures n <= |s|
    ensures forall i | |s| - n <= i < |s| :: InClass(s[i], k)
    ensures n < |s| ==> !InClass(s[|s| - n - 1], k)
  {
    if |s| > 0 && InClass(s[|s| - 1], k) then 1 + TrailingSpaces(s[..|s| - 1], k) else 0
  }

  /** The ensures of LeadingSpaces determine it. */
  lemma {:induction false} LeadingSpacesUnique(s: string, k: SpaceClass, m: nat)
    requires m <= |s|
    requires forall i | 0 <= i < m :: InClass(s[i], k)
    requires m < |s| ==> !InClass(s[m], k)
    ensures LeadingSpaces(s, k) == m
  {
    if m > 0 {
      LeadingSpacesUnique(s[1..], k, m - 1);
    }
  }

  /** The ensures of TrailingSpaces determine it. */
  lemma {:induction false} TrailingSpacesUnique(s: string, k: SpaceClass, m: nat)
    requires m <= |s|
    requires forall i | |s| - m <= i < |s| :: InClass(s[i], k)
    requires m < |s| ==> !InClass(s[|s| - m - 1], k)
    ensures TrailingSpaces(s, k) == m
  {
    if m > 0 {
      TrailingSpacesUnique(s[..|s| - 1], k, m - 1);
    }
  }

  /** `s` with the characters of the class `k` cut from both ends. */
  function StripWith(s: string, k: SpaceClass): string {
    var t := s[LeadingSpaces(s, k)..];
    t[..|t| - TrailingSpaces(t, k)]
  }

  /** Python's `str.strip()` with no argument. */
  function Strip(s: string): string {
    StripWith(s, StrSpace)
  }

  /** The trimming `float()` applies to its argument before reading it. */
  function FloatStrip(s: string): string {
    StripWith(s, FloatSpace)
  }

  /** Stripping keeps the slice of `s` that remains once characters of the
      class are cut from both ends: only such characters lie before and after
      it, and neither end of it is one of them. */
  lemma StripSlice(s: string, k: SpaceClass) returns (i: nat)
    ensures i + |StripWith(s, k)| <= |s| && s[i..i + |StripWith(s, k)|] == StripWith(s, k)
    ensures AllOf(s[..i], k) && AllOf(s[i + |StripWith(s, k)|..], k)
    ensures StripWith(s, k) == []
            || (!InClass(StripWith(s, k)[0], k) && !InClass(StripWith(s, k)[|StripWith(s, k)| - 1], k))
  {
    i := LeadingSpaces(s, k);
    var t := s[i..];
    var n := TrailingSpaces(t, k);
    var r := StripWith(s, k);
    assert r == t[..|t| - n];
    assert s[i..i + |r|] == r;
    var post := s[i + |r|..];
    assert post == t[|t| - n..];
    forall j | 0 <= j < i ensures InClass(s[..i][j], k) {
      assert s[..i][j] == s[j];
    }
    forall j | 0 <= j < |post| ensures InClass(post[j], k) {
      assert post[j] == t[|t| - n + j];
    }
    if r != [] {
      assert r[0] == t[0];
      assert r[|r| - 1] == t[|t| - n - 1];
    }
  }

  /** Stripping text padded with characters of the class gives back the
      text itself, provided it does not itself start or end with one. */
  lemma StripPadded(pre: string, t: string, post: string, k: SpaceClass)
    requires AllOf(pre, k) && AllOf(post, k)
    requires t == [] || (!InClass(t[0], k) && !InClass(t[|t| - 1], k))
    ensures StripWith(pre + t + post, k) == t
  {
    var s := pre + t + post;
    forall j | 0 <= j < |pre| ensures InClass(s[j], k) {
      assert s[j] == pre[j];
    }
    if t == [] {
      assert s == pre + post;
      forall j | |pre| <= j < |s| ensures InClass(s[j], k) {
        assert s[j] == post[j - |pre|];
      }
      LeadingSpacesUnique(s, k, |s|);
    } else {
      assert s[|pre|] == t[0];
      LeadingSpacesUnique(s, k, |pre|);
      var u := s[|pre|..];
      assert u == t + post;
      forall j | |u| - |post| <= j < |u| ensures InClass(u[j], k) {
        assert u[j] == post[j - |t|];
      }
      assert u[|u| - |post| - 1] == t[|t| - 1];
      TrailingSpacesUnique(u, k, |post|);
      assert u[..|u| - |post|] == t;
    }
  }

  /** Text that neither starts nor ends with a character of the class is
      left as it is. */
  lemma StripWithOfTrimmed(t: string, k: SpaceClass)
    requires t == [] || (!InClass(t[0], k) && !InClass(t[|t| - 1], k))
    ensures StripWith(t, k) == t
  {
    var none: string := [];
    assert none + t + none == t;
    StripPadded(none, t, none, k);
  }

  /** `float()` trims a subset of what `strip()` cuts, so text `strip()` has
      already trimmed reaches the number reader unchanged. */
  lemma FloatStripOfStripped(s: string)
    ensures FloatStrip(Strip(s)) == Strip(s)
  {
    var _ := StripSlice(s, StrSpace);
    StripWithOfTrimmed(Strip(s), FloatSpace);
  }

  /** Python's `s.split(sep)` for a one-character separator. */
  function Split(s: string, sep: char): (parts: seq<string>)
    ensures |parts| >= 1
    ensures forall i | 0 <= i < |parts| :: sep !in parts[i]
    ensures Join(parts, sep) == s
  {
    if s == [] then [[]]
    else
      var rest := Split(s[1..], sep);
      if s[0] == sep then
        assert ([[]] + rest)[1..] == rest;
        [[]] + rest
      else
        var parts := [[s[0]] + rest[0]] + rest[1..];
        assert parts[1..] == rest[1..];
        assert |rest| > 1 ==> Join(rest, sep) == rest[0] + [sep] + Join(rest[1..], sep);
        parts
  }

  /** Python's `sep.join(parts)`. */
  function Join(parts: seq<string>, sep: char): string {
    if parts == [] then []
    else if |parts| == 1 then parts[0]
    else parts[0] + [sep] + Join(parts[1..], sep)
  }

  /** The text before the first `sep` in `s`, or all of `s`. */
  function UpToSep(s: string, sep: char): string {
    if s == [] || s[0] == sep then [] else [s[0]] + UpToSep(s[1..], sep)
  }

  lemma {:induction false} UpToSepOf(u: string, rest: string, sep: char)
    requires sep !in u
    requires rest == [] || rest[0] == sep
    ensures UpToSep(u + rest, sep) == u
  {
    if u != [] {
      assert (u + rest)[1..] == u[1..] + rest;
      UpToSepOf(u[1..], rest, sep);
    } else {
      assert u + rest == rest;
    }
  }

  /** Joining pieces that do not contain the separator loses nothing: the
      pieces are determined by the joined text. */
  lemma {:induction false} JoinInjective(p: seq<string>, q: seq<string>, sep: char)
    requires |p| >= 1 && |q| >= 1
    requires forall i | 0 <= i < |p| :: sep !in p[i]
    requires forall i | 0 <= i < |q| :: sep !in q[i]
    requires Join(p, sep) == Join(q, sep)
    ensures p == q
  {
    var s := Join(p, sep);
    JoinHead(p, sep);
    JoinHead(q, sep);
    assert p[0] == q[0] by {
      UpToSepOf(p[0], s[|p[0]|..], sep);
      UpToSepOf(q[0], s[|q[0]|..], sep);
      assert s == p[0] + s[|p[0]|..] == q[0] + s[|q[0]|..];
    }
    if |p| == 1 {
      assert p == [p[0]] && q == [q[0]];
    } else {
      assert Join(p[1..], sep) == s[|p[0]| + 1..] == Join(q[1..], sep);
      JoinInjective(p[1..], q[1..], sep);
      assert p == [p[0]] + p[1..] && q == [q[0]] + q[1..];
    }
  }

  /** How the first piece sits at the front of a join. */
  lemma JoinHead(p: seq<string>, sep: char)
    requires |p| >= 1
    ensures |Join(p, sep)| >= |p[0]| && Join(p, sep)[..|p[0]|] == p[0]
    ensures |p| == 1 <==> |Join(p, sep)| == |p[0]|
    ensures |p| == 1 ==> Join(p, sep) == p[0]
    ensures |p| > 1 ==> |Join(p, sep)| > |p[0]| && Join(p, sep)[|p[0]|] == sep
                        && Join(p, sep)[|p[0]| + 1..] == Join(p[1..], sep)
  {
  }

  /** Splitting undoes joining, for pieces free of the separator. */
  lemma SplitJoin(parts: seq<string>, sep: char)
    requires |parts| >= 1
    requires forall i | 0 <= i < |parts| :: sep !in parts[i]
    ensures Split(Join(parts, sep), sep) == parts
  {
    JoinInjective(Split(Join(parts, sep), sep), parts, sep);
  }

  /** "MP" occurs in `s` starting at index `i`. */
  predicate MPAt(s: string, i: int) {
    0 <= i && i + 1 < |s| && s[i] == 'M' && s[i + 1] == 'P'
  }

  /** Python's `s.split('MP')[0]`: the text before the first "MP", or all of
      `s` when it holds none. */
  function BeforeMP(s: string): (r: string)
    ensures |r| <= |s| && r == s[..|r|]
    ensures |r| < |s| ==> MPAt(s, |r|)
    ensures forall i | 0 <= i < |r| :: !MPAt(s, i)
  {
    if |s| < 2 then s
    else if s[0] == 'M' && s[1] == 'P' then []
    else
      var r' := BeforeMP(s[1..]);
      assert forall i | 1 <= i <= |r'| :: MPAt(s, i) == MPAt(s[1..], i - 1);
      [s[0]] + r'
  }

  /** The longest prefix of `s` made of decimal digits. */
  function DigitPrefix(s: string): (d: string)
    ensures |d| <= |s| && d == s[..|d|] && AllDigits(d)
    ensures |d| < |s| ==> !IsDigit(s[|d|])
  {
    if |s| > 0 && IsDigit(s[0]) then [s[0]] + DigitPrefix(s[1..]) else []
  }

  /** An unsigned decimal numeral: digits, optionally followed by a point and
      more digits, with at least one digit in all ("12", "12.5", "12.", ".5"). */
  function ParseUnsigned(s: string): Option<real> {
    var whole := DigitPrefix(s);
    var rest := s[|whole|..];
    if rest == [] then
      if whole == [] then None else Some(DigitsValue(whole) as real)
    else if rest[0] == '.' && AllDigits(rest[1..]) && (|whole| > 0 || |rest| > 1) then
      Some(DigitsValue(whole) as real + DigitsValue(rest[1..]) as real / Pow10(|rest| - 1) as real)
    else None
  }

  /** A character that may appear in a numeral `ParseDecimal` accepts. */
  predicate IsNumeralChar(s: string, i: int)
    requires 0 <= i < |s|
  {
    IsDigit(s[i]) || s[i] == '.' || (i == 0 && (s[i] == '+' || s[i] == '-'))
  }

  /** Python's `float(s)` on already-stripped text, restricted to an optional
      sign followed by an unsigned decimal numeral. */
  function ParseDecimal(s: string): (r: Option<real>)
    ensures r.Some? ==> |s| > 0 && forall i | 0 <= i < |s| :: IsNumeralChar(s, i)
    ensures r.Some? ==> exists i | 0 <= i < |s| :: IsDigit(s[i])
    ensures r.Some? && s[0] != '-' ==> r.value >= 0.0
  {
    if |s| > 0 && (s[0] == '+' || s[0] == '-') then
      var u := ParseUnsigned(s[1..]);
      UnsignedShape(s[1..]);
      if u.None? then None
      else
        assert forall i | 1 <= i < |s| :: s[i] == s[1..][i - 1];
        Some(if s[0] == '-' then -u.value else u.value)
    else
      UnsignedShape(s);
      ParseUnsigned(s)
  }

  /** What an accepted unsigned numeral looks like. */
  lemma UnsignedShape(s: string)
    ensures ParseUnsigned(s).Some? ==>
              (forall i | 0 <= i < |s| :: IsDigit(s[i]) || s[i] == '.')
              && (exists i | 0 <= i < |s| :: IsDigit(s[i]))
              && ParseUnsigned(s).value >= 0.0
  {
    var whole := DigitPrefix(s);
    var rest := s[|whole|..];
    if ParseUnsigned(s).Some? {
      forall i | 0 <= i < |s| ensures IsDigit(s[i]) || s[i] == '.' {
        if i < |whole| { assert s[i] == whole[i]; }
        else if i > |whole| { assert s[i] == rest[1..][i - |whole| - 1]; }
        else { assert s[i] == rest[0]; }
      }
      if |whole| > 0 {
        assert IsDigit(s[0]);
      } else {
        assert IsDigit(rest[1..][0]) && s[1] == rest[1..][0];
      }
    }
  }

  /** A plain string of digits reads as the number it denotes. */
  lemma ParseDigits(d: string)
    requires |d| > 0 && AllDigits(d)
    ensures ParseDecimal(d) == Some(DigitsValue(d) as real)
  {
    DigitPrefixOfDigits(d);
  }

  lemma {:induction false} DigitPrefixOfDigits(d: string)
    requires AllDigits(d)
    ensures DigitPrefix(d) == d
  {
    if d != [] {
      DigitPrefixOfDigits(d[1..]);
    }
  }

  /** Digits followed by a non-digit or nothing: the digit prefix is exactly
      the digits. */
  lemma {:induction false} DigitPrefixOfDigitsThen(d: string, post: string)
    requires AllDigits(d)
    requires post == [] || !IsDigit(post[0])
    ensures DigitPrefix(d + post) == d
  {
    if d != [] {
      assert (d + post)[1..] == d[1..] + post;
      DigitPrefixOfDigitsThen(d[1..], post);
    } else {
      assert d + post == post;
    }
  }

  /** Python's `float(s)` on a string: trim the whitespace `float()`
      ignores, then read a decimal numeral. */
  function ParseFloat(s: string): (r: Option<real>)
    // blank text raises, and every text read as a number holds a digit
    ensures AllOf(s, FloatSpace) ==> r.None?
    ensures r.Some? ==> exists i | 0 <= i < |s| :: IsDigit(s[i])
  {
    FloatStripFacts(s);
    ParseDecimal(FloatStrip(s))
  }

  lemma FloatStripFacts(s: string)
    ensures AllOf(s, FloatSpace) ==> FloatStrip(s) == []
    ensures ParseDecimal(FloatStrip(s)).Some? ==> exists i | 0 <= i < |s| :: IsDigit(s[i])
  {
    var i := StripSlice(s, FloatSpace);
    var t := FloatStrip(s);
    if ParseDecimal(t).Some? {
      var j :| 0 <= j < |t| && IsDigit(t[j]);
      assert t[j] == s[i + j];
    }
  }

  /** The text of a numeral: a sign ("", "+" or "-"), whole digits and, when
      `point` is set, a decimal point followed by fraction digits. */
  function Numeral(sign: string, w: string, f: string, point: bool): string {
    sign + w + (if point then "." + f else [])
  }

  /** The pieces form a numeral `float()` accepts: at least one digit, and
      fraction digits only after a point. */
  predicate WellFormedNumeral(sign: string, w: string, f: string, point: bool) {
    (sign == [] || sign == "+" || sign == "-") && AllDigits(w) && AllDigits(f)
    && (if point then |w| + |f| > 0 else |w| > 0 && f == [])
  }

  /** The number a numeral denotes: whole part plus fraction digits over the
      matching power of ten, negated under a minus sign. */
  function NumeralValue(sign: string, w: string, f: string): real
    requires AllDigits(w) && AllDigits(f)
  {
    var m := DigitsValue(w) as real + DigitsValue(f) as real / Pow10(|f|) as real;
    if sign == "-" then -m else m
  }

  /** Every well-formed numeral is accepted, with the value it denotes. */
  lemma ParseDecimalOf(sign: string, w: string, f: string, point: bool)
    requires WellFormedNumeral(sign, w, f, point)
    ensures ParseDecimal(Numeral(sign, w, f, point)) == Some(NumeralValue(sign, w, f))
  {
    var tail := if point then "." + f else [];
    var u := w + tail;
    assert Numeral(sign, w, f, point) == sign + u;
    ParseUnsignedOf(w, f, point);
    assert u[0] == '.' || IsDigit(u[0]);
    SignedParse(sign, u);
  }

  /** Conversely, every accepted text is a well-formed numeral, read as the
      value it denotes. */
  lemma ParseDecimalShape(s: string) returns (sign: string, w: string, f: string, point: bool)
    requires ParseDecimal(s).Some?
    ensures WellFormedNumeral(sign, w, f, point)
    ensures s == Numeral(sign, w, f, point)
    ensures ParseDecimal(s).value == NumeralValue(sign, w, f)
  {
    var u: string;
    if |s| > 0 && (s[0] == '+' || s[0] == '-') {
      sign, u := s[..1], s[1..];
      assert sign == "+" || sign == "-";
    } else {
      sign, u := [], s;
    }
    assert s == sign + u;
    SignedParse(sign, u);
    w, f, point := ParseUnsignedShape(u);
    var tail := if point then "." + f else [];
    assert sign + (w + tail) == sign + w + tail;
    var v := ParseUnsigned(u).value;
    assert ParseDecimal(s).value == if sign == "-" then -v else v;
    assert v == NumeralValue([], w, f);
  }

  /** A sign in front of an unsigned numeral negates it or leaves it. */
  lemma SignedParse(sign: string, u: string)
    requires sign == [] || sign == "+" || sign == "-"
    requires sign == [] ==> u == [] || (u[0] != '+' && u[0] != '-')
    ensures ParseDecimal(sign + u)
         == if ParseUnsigned(u).None? then None
            else Some(if sign == "-" then -ParseUnsigned(u).value else ParseUnsigned(u).value)
  {
    var s := sign + u;
    if sign == [] {
      assert s == u;
    } else {
      assert s[0] == sign[0] && s[1..] == u;
    }
  }

  lemma ParseUnsignedOf(w: string, f: string, point: bool)
    requires AllDigits(w) && AllDigits(f)
    requires if point then |w| + |f| > 0 else |w| > 0 && f == []
    ensures ParseUnsigned(w + (if point then "." + f else [])) == Some(NumeralValue([], w, f))
  {
    if point {
      var rest := "." + f;
      DigitPrefixOfDigitsThen(w, rest);
      assert (w + rest)[|w|..] == rest && rest[1..] == f;
    } else {
      DigitPrefixOfDigits(w);
      assert w + [] == w;
    }
  }

  lemma ParseUnsignedShape(u: string) returns (w: string, f: string, point: bool)
    requires ParseUnsigned(u).Some?
    ensures AllDigits(w) && AllDigits(f)
    ensures if point then |w| + |f| > 0 else |w| > 0 && f == []
    ensures u == w + (if point then "." + f else [])
    ensures ParseUnsigned(u).value == NumeralValue([], w, f)
  {
    w := DigitPrefix(u);
    var rest := u[|w|..];
    assert u == w + rest;
    if rest == [] {
      f, point := [], false;
    } else {
      f, point := rest[1..], true;
      assert rest == "." + f;
    }
  }
}
