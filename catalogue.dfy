/** The phone catalogue as `load_data` builds it (app.py:10-22): the brand is
    derived from the model name, the price text loses its currency symbol and
    thousands separators, and RAM and battery are read from the first run of
    digits in their text. The download itself is not modelled; the catalogue's
    raw cells are the input. */
module Catalogue {
  import opened Common
  import opened Text

  /** One row of the downloaded table; `None` is a missing (NaN) or
      non-string cell. */
  datatype RawRow = RawRow(
    model: Option<string>,
    price: Option<string>,
    ram: Option<string>,
    battery: Option<string>,
    camera: Option<string>)

  /** One cleaned catalogue entry. */
  datatype Phone = Phone(
    brand: Option<string>,
    model: Option<string>,
    price: Option<real>,
    ram: Option<real>,
    battery: Option<real>,
    camera: Option<string>)

  /** The two ways cleaning raises, which abort the whole load. */
  datatype LoadError =
    | EmptyModelName   // `str(x).split()[0]` on a model name with no token: IndexError
    | PriceNotNumber   // `astype(float)` on a cleaned price that is not a number: ValueError

  // ---------------------------------------------------------------------
  // Brand: the first whitespace-delimited token of the model name
  // ---------------------------------------------------------------------

  /** The longest prefix of `s` containing no whitespace. */
  function TokenPrefix(s: string): (t: string)
    ensures |t| <= |s| && t == s[..|t|] && NoSpace(t)
    ensures |t| < |s| ==> IsSpace(s[|t|])
  {
    if |s| > 0 && !IsSpace(s[0]) then [s[0]] + TokenPrefix(s[1..]) else []
  }

  /** `s.split()[0]`, or `None` where `s.split()` is empty. */
  function FirstToken(s: string): (r: Option<string>)
    ensures r.None? <==> AllOf(s, StrSpace)
    ensures r.Some? ==> |r.value| > 0 && NoSpace(r.value)
  {
    var n := LeadingSpaces(s, StrSpace);
    if n == |s| then
      None
    else
      assert !AllOf(s, StrSpace) by { assert !InClass(s[n], StrSpace); }
      Some(TokenPrefix(s[n..]))
  }

  /** The token `FirstToken` returns is preceded only by whitespace and
      followed by whitespace or the end of the text. */
  lemma FirstTokenSplit(s: string) returns (pre: string, post: string)
    requires FirstToken(s).Some?
    ensures s == pre + FirstToken(s).value + post
    ensures AllOf(pre, StrSpace)
    ensures post == [] || IsSpace(post[0])
  {
    var n := LeadingSpaces(s, StrSpace);
    var t := TokenPrefix(s[n..]);
    pre, post := s[..n], s[n + |t|..];
    assert s[n..] == t + post;
  }

  /** Conversely, a token placed after whitespace and before whitespace or the
      end is what `FirstToken` finds. */
  lemma FirstTokenOf(pre: string, t: string, post: string)
    requires AllOf(pre, StrSpace) && |t| > 0 && NoSpace(t)
    requires post == [] || IsSpace(post[0])
    ensures FirstToken(pre + t + post) == Some(t)
  {
    var s := pre + t + post;
    assert s[|pre|] == t[0];
    LeadingSpacesUnique(s, StrSpace, |pre|);
    assert s[|pre|..] == t + post;
    TokenPrefixOf(t, post);
  }

  lemma {:induction false} TokenPrefixOf(t: string, post: string)
    requires NoSpace(t)
    requires post == [] || IsSpace(post[0])
    ensures TokenPrefix(t + post) == t
  {
    if t != [] {
      assert (t + post)[1..] == t[1..] + post;
      TokenPrefixOf(t[1..], post);
    } else {
      assert t + post == post;
    }
  }

  /** The brand column: `str(x).split()[0] if isinstance(x, str) else None`
      (app.py:15). A model name with no token raises, so loading fails. */
  function DeriveBrand(model: Option<string>): (r: Result<Option<string>, LoadError>)
    ensures model.None? ==> r == Ok(None)
    ensures model.Some? ==> (r.Err? <==> AllOf(model.value, StrSpace))
    ensures r.Ok? && r.value.Some? ==> |r.value.value| > 0 && NoSpace(r.value.value)
    // the brand is the first token of the name, and the one failure is the blank name
    ensures model.Some? && r.Ok? ==> r.value == FirstToken(model.value)
    ensures r.Err? ==> r.error == EmptyModelName
  {
    match model
    case None => Ok(None)
    case Some(s) =>
      match FirstToken(s)
      case None => Err(EmptyModelName)
      case Some(t) => Ok(Some(t))
  }

  // ---------------------------------------------------------------------
  // Price: delete every '₹' and ',' and read the rest as a number
  // ---------------------------------------------------------------------

  /** The characters the regular expression `[₹,]` matches. */
  predicate IsPriceNoise(c: char) {
    c == '\U{20B9}' || c == ','
  }

  /** `re.sub('[₹,]', '', s)`. */
  function DropPriceNoise(s: string): (r: string)
    ensures |r| <= |s|
    ensures forall i | 0 <= i < |r| :: !IsPriceNoise(r[i])
  {
    if s == [] then []
    else (if IsPriceNoise(s[0]) then [] else [s[0]]) + DropPriceNoise(s[1..])
  }

  /** Deletion works piecewise: cleaning a concatenation cleans each part. */
  lemma {:induction false} DropPriceNoiseAppend(a: string, b: string)
    ensures DropPriceNoise(a + b) == DropPriceNoise(a) + DropPriceNoise(b)
  {
    if a != [] {
      assert (a + b)[1..] == a[1..] + b;
      DropPriceNoiseAppend(a[1..], b);
    } else {
      assert a + b == b;
    }
  }

  /** Text free of '₹' and ',' is left exactly as it is. */
  lemma {:induction false} DropPriceNoiseKeeps(s: string)
    requires forall i | 0 <= i < |s| :: !IsPriceNoise(s[i])
    ensures DropPriceNoise(s) == s
  {
    if s != [] {
      DropPriceNoiseKeeps(s[1..]);
    }
  }

  /** Cleaning twice is cleaning once. */
  lemma DropPriceNoiseIdempotent(s: string)
    ensures DropPriceNoise(DropPriceNoise(s)) == DropPriceNoise(s)
  {
    DropPriceNoiseKeeps(DropPriceNoise(s));
  }

  /** The price column: `replace('[₹,]', '', regex=True).astype(float)`
      (app.py:18). `float()` trims its own whitespace; text that is not a
      number after cleaning raises, so loading fails. A present price is
      therefore never turned into a missing one. */
  function CleanPrice(cell: Option<string>): (r: Result<Option<real>, LoadError>)
    ensures cell.None? ==> r == Ok(None)
    ensures cell.Some? ==> (r.Err? <==> ParseFloat(DropPriceNoise(cell.value)).None?)
    ensures r.Err? ==> r.error == PriceNotNumber
    ensures cell.Some? && r.Ok? ==> r.value.Some?
    // the price loaded is what `float()` reads from the cleaned text
    ensures cell.Some? && r.Ok? ==> r.value == ParseFloat(DropPriceNoise(cell.value))
  {
    match cell
    case None => Ok(None)
    case Some(s) =>
      match ParseFloat(DropPriceNoise(s))
      case None => Err(PriceNotNumber)
      case Some(v) => Ok(Some(v))
  }

  /** A rupee price written with a thousands separator, such as "₹12,999",
      cleans to the number its digits spell. */
  lemma RupeePrice(a: string, b: string)
    requires |a| > 0 && AllDigits(a) && AllDigits(b)
    ensures CleanPrice(Some(['\U{20B9}'] + a + [','] + b))
         == Ok(Some((DigitsValue(a) * Pow10(|b|) + DigitsValue(b)) as real))
  {
    var s := ['\U{20B9}'] + a + [','] + b;
    RupeeNoise(a, b);
    DigitsValueAppend(a, b);
    var n := DigitsValue(a + b);
    assert n == DigitsValue(a) * Pow10(|b|) + DigitsValue(b);
    CleanPriceOfDigits(s, a + b);
    assert CleanPrice(Some(s)) == Ok(Some(n as real));
  }

  lemma RupeeNoise(a: string, b: string)
    requires AllDigits(a) && AllDigits(b)
    ensures DropPriceNoise(['\U{20B9}'] + a + [','] + b) == a + b
  {
    var rupee, comma: string := ['\U{20B9}'], [','];
    var tail := comma + b;
    var mid := a + tail;
    assert rupee + a + comma + b == rupee + mid;
    assert DropPriceNoise(rupee) == [] && DropPriceNoise(comma) == [];
    DropPriceNoiseKeeps(a);
    DropPriceNoiseKeeps(b);
    DropPriceNoiseAppend(comma, b);
    assert DropPriceNoise(tail) == b;
    DropPriceNoiseAppend(a, tail);
    assert DropPriceNoise(mid) == a + b;
    DropPriceNoiseAppend(rupee, mid);
    assert [] + (a + b) == a + b;
  }

  /** Price text that cleans to a plain string of digits is that number. */
  lemma CleanPriceOfDigits(s: string, d: string)
    requires |d| > 0 && AllDigits(d) && DropPriceNoise(s) == d
    ensures CleanPrice(Some(s)) == Ok(Some(DigitsValue(d) as real))
  {
    var none: string := [];
    assert none + d + none == d;
    StripPadded(none, d, none, FloatSpace);
    ParseDigits(d);
  }

  /** `float()` does not trim the separators U+001C-U+001F although
      `strip()` would: a price with one of them after its digits fails the
      load. */
  lemma PriceKeepsSeparators(d: string, c: char)
    requires |d| > 0 && AllDigits(d) && 0x1C <= c as int <= 0x1F
    ensures Strip(d + [c]) == d
    ensures CleanPrice(Some(d + [c])) == Err(PriceNotNumber)
  {
    var none: string := [];
    assert none + d + [c] == d + [c];
    StripPadded(none, d, [c], StrSpace);
    SeparatorNotANumber(d, c);
  }

  /** Digits followed by a separator are not a number for `float()`. */
  lemma SeparatorNotANumber(d: string, c: char)
    requires |d| > 0 && AllDigits(d) && 0x1C <= c as int <= 0x1F
    ensures ParseFloat(DropPriceNoise(d + [c])).None?
  {
    var s := d + [c];
    DigitsThenSeparatorKept(d, c);
    StripWithOfTrimmed(s, FloatSpace);
    assert !IsNumeralChar(s, |s| - 1);
  }

  /** Digits and a separator hold no price noise, and neither end of them
      is whitespace `float()` trims. */
  lemma DigitsThenSeparatorKept(d: string, c: char)
    requires |d| > 0 && AllDigits(d) && 0x1C <= c as int <= 0x1F
    ensures DropPriceNoise(d + [c]) == d + [c]
    ensures !IsFloatSpace((d + [c])[0]) && !IsFloatSpace((d + [c])[|d|])
  {
    var s := d + [c];
    forall i | 0 <= i < |s| ensures !IsPriceNoise(s[i]) {
      if i < |d| { assert s[i] == d[i]; }
    }
    DropPriceNoiseKeeps(s);
  }

  // ---------------------------------------------------------------------
  // RAM and battery: the first run of digits, `str.extract('(\d+)')`
  // ---------------------------------------------------------------------

  /** The leftmost maximal run of decimal digits in `s`, if any. */
  function FirstDigitRun(s: string): (r: Option<string>)
    ensures r.None? <==> NoDigit(s)
    ensures r.Some? ==> |r.value| > 0 && AllDigits(r.value)
  {
    if s == [] then None
    else if IsDigit(s[0]) then Some(DigitPrefix(s))
    else
      var r := FirstDigitRun(s[1..]);
      assert NoDigit(s[1..]) ==> NoDigit(s) by {
        if NoDigit(s[1..]) {
          forall i | 1 <= i < |s| ensures !IsDigit(s[i]) { assert s[i] == s[1..][i - 1]; }
        }
      }
      r
  }

  /** The run is preceded by no digit and followed by a non-digit or the end
      of the text. */
  lemma {:induction false} FirstDigitRunSplit(s: string) returns (pre: string, post: string)
    requires FirstDigitRun(s).Some?
    ensures s == pre + FirstDigitRun(s).value + post
    ensures NoDigit(pre)
    ensures post == [] || !IsDigit(post[0])
  {
    if IsDigit(s[0]) {
      var d := DigitPrefix(s);
      pre, post := [], s[|d|..];
      assert s == d + post;
    } else {
      var pre', post' := FirstDigitRunSplit(s[1..]);
      pre, post := [s[0]] + pre', post';
    }
  }

  /** Conversely, a digit run with no digit before it and none right after it
      is the run `FirstDigitRun` finds. */
  lemma {:induction false} FirstDigitRunOf(pre: string, d: string, post: string)
    requires NoDigit(pre) && |d| > 0 && AllDigits(d)
    requires post == [] || !IsDigit(post[0])
    ensures FirstDigitRun(pre + d + post) == Some(d)
  {
    if pre != [] {
      assert (pre + d + post)[1..] == pre[1..] + d + post;
      FirstDigitRunOf(pre[1..], d, post);
    } else {
      assert pre + d + post == d + post;
      DigitPrefixOfDigitsThen(d, post);
    }
  }

  /** The RAM and battery columns: `str.extract('(\d+)').astype(float)`
      (app.py:19-20); missing when the cell is missing or holds no digit. */
  function ExtractCount(cell: Option<string>): (r: Option<real>)
    ensures r.None? <==> cell.None? || NoDigit(cell.value)
    ensures r.Some? ==> r.value >= 0.0
  {
    match cell
    case None => None
    case Some(s) =>
      match FirstDigitRun(s)
      case None => None
      case Some(d) => Some(DigitsValue(d) as real)
  }

  /** "8 GB RAM" reads as 8 and "5000 mAh" as 5000: the value is the number
      the first digit run spells, whatever surrounds it. */
  lemma ExtractCountOf(pre: string, d: string, post: string)
    requires NoDigit(pre) && |d| > 0 && AllDigits(d)
    requires post == [] || !IsDigit(post[0])
    ensures ExtractCount(Some(pre + d + post)) == Some(DigitsValue(d) as real)
  {
    FirstDigitRunOf(pre, d, post);
  }

  // ---------------------------------------------------------------------
  // Rows and the whole catalogue
  // ---------------------------------------------------------------------

  predicate BrandFails(row: RawRow) {
    DeriveBrand(row.model).Err?
  }

  /** One row through the cleaning rules; the brand column is computed before
      the price column, so a bad model name is the error reported. */
  function CleanRow(row: RawRow): (r: Result<Phone, LoadError>)
    ensures r.Ok? <==> DeriveBrand(row.model).Ok? && CleanPrice(row.price).Ok?
    ensures r.Err? && DeriveBrand(row.model).Err? ==> r.error == EmptyModelName
    ensures r.Err? && DeriveBrand(row.model).Ok? ==> r.error == PriceNotNumber
    // the model and camera cells pass through; the other fields are cleaned
    ensures r.Ok? ==> r.value.model == row.model && r.value.camera == row.camera
                      && r.value.brand == DeriveBrand(row.model).value
                      && r.value.price == CleanPrice(row.price).value
                      && r.value.ram == ExtractCount(row.ram) && r.value.battery == ExtractCount(row.battery)
  {
    match DeriveBrand(row.model)
    case Err(e) => Err(e)
    case Ok(brand) =>
      match CleanPrice(row.price)
      case Err(e) => Err(e)
      case Ok(price) =>
        Ok(Phone(brand, row.model, price, ExtractCount(row.ram), ExtractCount(row.battery), row.camera))
  }

  /** `load_data` on the downloaded rows. The columns are cleaned one after
      another over all rows, so loading succeeds only if every row cleans,
      and a bad model name anywhere is reported ahead of a bad price. */
  function LoadCatalogue(rows: seq<RawRow>): (r: Result<seq<Phone>, LoadError>)
    ensures r.Ok? <==> forall i | 0 <= i < |rows| :: CleanRow(rows[i]).Ok?
    ensures r.Ok? ==> |r.value| == |rows|
    ensures r.Ok? ==> forall i | 0 <= i < |rows| :: r.value[i] == CleanRow(rows[i]).value
    ensures r.Err? ==> (r.error == EmptyModelName <==> exists i | 0 <= i < |rows| :: BrandFails(rows[i]))
  {
    if rows == [] then Ok([])
    else
      var tail := LoadCatalogue(rows[1..]);
      assert forall i | 1 <= i < |rows| :: rows[i] == rows[1..][i - 1];
      var head := CleanRow(rows[0]);
      assert head.Err? ==> (head.error == EmptyModelName <==> BrandFails(rows[0]));
      match head
      case Ok(p) =>
        if tail.Ok? then Ok([p] + tail.value) else tail
      case Err(e) =>
        if tail.Ok? then Err(e)
        else Err(if e == EmptyModelName || tail.error == EmptyModelName then EmptyModelName else PriceNotNumber)
  }

  // ---------------------------------------------------------------------
  // Catalogue-wide maxima: `df["ram"].max()`, `df["battery"].max()`
  // ---------------------------------------------------------------------

  /** pandas' `Series.max()`: the largest present value, skipping missing
      ones; missing when every value is. */
  function MaxPresent(xs: seq<Option<real>>): (m: Option<real>)
    ensures m.None? <==> forall i | 0 <= i < |xs| :: xs[i].None?
    ensures m.Some? ==> forall i | 0 <= i < |xs| && xs[i].Some? :: xs[i].value <= m.value
    ensures m.Some? ==> exists i | 0 <= i < |xs| :: xs[i] == m
  {
    if xs == [] then None
    else
      var rest := MaxPresent(xs[1..]);
      assert forall i | 1 <= i < |xs| :: xs[i] == xs[1..][i - 1];
      match xs[0]
      case None => rest
      case Some(x) => if rest.Some? && rest.value > x then rest else Some(x)
  }

  function RamColumn(catalogue: seq<Phone>): (col: seq<Option<real>>)
    ensures |col| == |catalogue|
  {
    seq(|catalogue|, i requires 0 <= i < |catalogue| => catalogue[i].ram)
  }

  function BatteryColumn(catalogue: seq<Phone>): (col: seq<Option<real>>)
    ensures |col| == |catalogue|
  {
    seq(|catalogue|, i requires 0 <= i < |catalogue| => catalogue[i].battery)
  }
}
