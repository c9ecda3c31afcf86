/** The scorer `score_phone` (app.py:51-85): a budget term, a RAM term, a
    battery term and a camera term are added up, and the sum is scaled once
    by a factor for the chosen priority. Arithmetic is exact (`real`); the
    catalogue-wide RAM and battery maxima are parameters. */
module Scoring {
  import opened Common
  import opened Text
  import opened Catalogue

  /** The choices of the "Main Priority" select box (app.py:45). */
  datatype Priority = Performance | Camera | Battery | Display | Balanced

  // ---------------------------------------------------------------------
  // Camera term (app.py:69-75)
  // ---------------------------------------------------------------------

  /** One `+`-separated lens text read as a megapixel number:
      `float(c.split('MP')[0].strip())`. */
  function SegmentValue(seg: string): (r: Option<real>)
    // after `strip()`, `float()`'s own trimming has nothing left to cut
    ensures r == ParseDecimal(Strip(BeforeMP(seg)))
  {
    FloatStripOfStripped(BeforeMP(seg));
    ParseFloat(Strip(BeforeMP(seg)))
  }

  /** All of `xs`, or nothing as soon as one is missing. */
  function AllPresent(xs: seq<Option<real>>): (r: Option<seq<real>>)
    ensures r.Some? <==> forall i | 0 <= i < |xs| :: xs[i].Some?
    ensures r.Some? ==> |r.value| == |xs|
    ensures r.Some? ==> forall i | 0 <= i < |xs| :: r.value[i] == xs[i].value
  {
    if xs == [] then Some([])
    else
      var rest := AllPresent(xs[1..]);
      assert forall i | 1 <= i < |xs| :: xs[i] == xs[1..][i - 1];
      if xs[0].None? || rest.None? then None else Some([xs[0].value] + rest.value)
  }

  /** The list comprehension of app.py:71: every segment parsed, or nothing
      at all as soon as one segment fails. */
  function SegmentValues(segs: seq<string>): (r: Option<seq<real>>)
    ensures r.Some? <==> forall i | 0 <= i < |segs| :: SegmentValue(segs[i]).Some?
    ensures r.Some? ==> |r.value| == |segs|
    ensures r.Some? ==> forall i | 0 <= i < |segs| :: r.value[i] == SegmentValue(segs[i]).value
  {
    var read := seq(|segs|, i requires 0 <= i < |segs| => SegmentValue(segs[i]));
    assert forall i | 0 <= i < |segs| :: read[i] == SegmentValue(segs[i]);
    AllPresent(read)
  }

  function Sum(xs: seq<real>): real {
    if xs == [] then 0.0 else xs[0] + Sum(xs[1..])
  }

  function Mean(xs: seq<real>): real
    requires |xs| > 0
  {
    Sum(xs) / |xs| as real
  }

  /** The camera term: the mean megapixel rating over the `+`-separated
      lenses, divided by 100; 0 when the cell is missing or not a string, or
      when any lens fails to parse. `Split` always yields a segment, so the
      mean never divides by zero. */
  function CameraTerm(camera: Option<string>): (t: real)
    ensures camera.None? ==> t == 0.0
    ensures t != 0.0 ==> camera.Some? && SegmentValues(Split(camera.value, '+')).Some?
  {
    match camera
    case None => 0.0
    case Some(s) =>
      match SegmentValues(Split(s, '+'))
      case None => 0.0
      case Some(vals) => Mean(vals) / 100.0
  }

  /** The text before a leading "MP" is found exactly, when it holds no 'M'. */
  lemma {:induction false} BeforeMPOf(u: string, rest: string)
    requires forall i | 0 <= i < |u| :: u[i] != 'M'
    requires rest == [] || (|rest| >= 2 && rest[0] == 'M' && rest[1] == 'P')
    ensures BeforeMP(u + rest) == u
  {
    if u != [] {
      assert (u + rest)[1..] == u[1..] + rest;
      BeforeMPOf(u[1..], rest);
    } else {
      assert u + rest == rest;
    }
  }

  /** "50MP" reads as 50: a digit string followed by "MP" is its number. */
  lemma SegmentOfDigits(d: string)
    requires |d| > 0 && AllDigits(d)
    ensures SegmentValue(d + "MP") == Some(DigitsValue(d) as real)
  {
    BeforeMPOf(d, "MP");
    assert BeforeMP(d + "MP") == d;
    StripWithOfTrimmed(d, StrSpace);
    assert Strip(d) == d;
    StripWithOfTrimmed(d, FloatSpace);
    ParseDigits(d);
    assert ParseFloat(d) == Some(DigitsValue(d) as real);
  }

  /** Lens labels "<digits>MP", one per digit string. */
  function MPLabels(ds: seq<string>): (labels: seq<string>)
    ensures |labels| == |ds|
  {
    seq(|ds|, i requires 0 <= i < |ds| => ds[i] + "MP")
  }

  function DigitValues(ds: seq<string>): (vals: seq<real>)
    requires forall i | 0 <= i < |ds| :: AllDigits(ds[i])
    ensures |vals| == |ds|
  {
    seq(|ds|, i requires 0 <= i < |ds| => DigitsValue(ds[i]) as real)
  }

  /** A camera text whose `+`-separated lenses all read as numbers scores
      the mean of those numbers divided by 100. */
  lemma CameraTermOfSegments(parts: seq<string>, vals: seq<real>)
    requires |parts| >= 1 && |parts| == |vals|
    requires forall i | 0 <= i < |parts| :: '+' !in parts[i]
    requires forall i | 0 <= i < |parts| :: SegmentValue(parts[i]) == Some(vals[i])
    ensures CameraTerm(Some(Join(parts, '+'))) == Mean(vals) / 100.0
  {
    SplitJoin(parts, '+');
    SegmentValuesOf(parts, vals);
  }

  /** A camera text such as "50MP+8MP+2MP" scores the mean of its lens
      ratings divided by 100. */
  lemma CameraTermOfLabels(ds: seq<string>)
    requires |ds| >= 1
    requires forall i | 0 <= i < |ds| :: |ds[i]| > 0 && AllDigits(ds[i])
    ensures CameraTerm(Some(Join(MPLabels(ds), '+'))) == Mean(DigitValues(ds)) / 100.0
  {
    var labels := MPLabels(ds);
    var expected := DigitValues(ds);
    forall i | 0 <= i < |labels| ensures '+' !in labels[i] && SegmentValue(labels[i]) == Some(expected[i]) {
      LabelOfDigits(ds[i]);
    }
    CameraTermOfSegments(labels, expected);
  }

  /** Segments that each read as the matching value read as the whole list. */
  lemma SegmentValuesOf(segs: seq<string>, vals: seq<real>)
    requires |segs| == |vals|
    requires forall i | 0 <= i < |segs| :: SegmentValue(segs[i]) == Some(vals[i])
    ensures SegmentValues(segs) == Some(vals)
  {
    var r := SegmentValues(segs);
    assert r.Some?;
    assert r.value == vals;
  }

  /** One label "<digits>MP": free of '+', and read as its number. */
  lemma LabelOfDigits(d: string)
    requires |d| > 0 && AllDigits(d)
    ensures '+' !in d + "MP"
    ensures SegmentValue(d + "MP") == Some(DigitsValue(d) as real)
  {
    SegmentOfDigits(d);
    LabelHasNoPlus(d);
  }

  lemma LabelHasNoPlus(d: string)
    requires AllDigits(d)
    ensures '+' !in d + "MP"
  {
    forall j | 0 <= j < |d + "MP"| ensures (d + "MP")[j] != '+' {
      if j < |d| { assert (d + "MP")[j] == d[j]; }
    }
  }

  /** All or nothing: one lens that fails to parse cancels the whole camera
      term, whatever the others say. */
  lemma CameraTermPartialFailure(parts: seq<string>, k: nat)
    requires |parts| >= 1 && k < |parts|
    requires forall i | 0 <= i < |parts| :: '+' !in parts[i]
    requires SegmentValue(parts[k]).None?
    ensures CameraTerm(Some(Join(parts, '+'))) == 0.0
  {
    SplitJoin(parts, '+');
  }

  // ---------------------------------------------------------------------
  // The other terms and the priority factor
  // ---------------------------------------------------------------------

  /** +1.0 when the price lies in [lo, hi], -0.5 otherwise; a missing price
      fails the comparison (app.py:55-58). */
  function BudgetTerm(price: Option<real>, lo: real, hi: real): (r: real)
    ensures r == 1.0 || r == -0.5
    ensures r == 1.0 <==> price.Some? && lo <= price.value <= hi
  {
    if price.Some? && lo <= price.value <= hi then 1.0 else -0.5
  }

  /** RAM as a share of the catalogue's largest, doubled (app.py:61-62). */
  function RamTerm(ram: Option<real>, maxRam: real): (t: real)
    requires maxRam > 0.0
    ensures ram.None? ==> t == 0.0
    ensures ram.Some? && 0.0 <= ram.value <= maxRam ==> 0.0 <= t <= 2.0
  {
    if ram.Some? then
      if 0.0 <= ram.value <= maxRam then ShareAtMostOne(ram.value, maxRam); ram.value / maxRam * 2.0
      else ram.value / maxRam * 2.0
    else 0.0
  }

  /** Battery as a share of the catalogue's largest (app.py:65-66). */
  function BatteryTerm(battery: Option<real>, maxBattery: real): (t: real)
    requires maxBattery > 0.0
    ensures battery.None? ==> t == 0.0
    ensures battery.Some? && 0.0 <= battery.value <= maxBattery ==> 0.0 <= t <= 1.0
  {
    if battery.Some? then
      if 0.0 <= battery.value <= maxBattery then ShareAtMostOne(battery.value, maxBattery); battery.value / maxBattery
      else battery.value / maxBattery
    else 0.0
  }

  /** The factor for the chosen priority (app.py:78-83). */
  function Multiplier(priority: Priority): (m: real)
    ensures 1.0 <= m <= 1.2
    ensures m == 1.0 <==> priority == Display || priority == Balanced
  {
    match priority
    case Performance => 1.2
    case Camera => 1.1
    case Battery => 1.15
    case Display => 1.0
    case Balanced => 1.0
  }

  /** The sum of the four terms, before the priority factor. */
  function RawScore(p: Phone, lo: real, hi: real, maxRam: real, maxBattery: real): real
    requires maxRam > 0.0 && maxBattery > 0.0
  {
    BudgetTerm(p.price, lo, hi) + RamTerm(p.ram, maxRam) + BatteryTerm(p.battery, maxBattery)
    + CameraTerm(p.camera)
  }

  /** The score `score_phone` returns. */
  function Score(p: Phone, priority: Priority, lo: real, hi: real, maxRam: real, maxBattery: real): (r: real)
    requires maxRam > 0.0 && maxBattery > 0.0
    // Display and Balanced leave the sum as it is
    ensures priority == Display || priority == Balanced ==> r == RawScore(p, lo, hi, maxRam, maxBattery)
  {
    // the if-chain of app.py:78-83: three priorities scale the sum, the
    // other two leave it as it is
    var raw := RawScore(p, lo, hi, maxRam, maxBattery);
    match priority
    case Performance => 1.2 * raw
    case Camera => 1.1 * raw
    case Battery => 1.15 * raw
    case Display => raw
    case Balanced => raw
  }

  /** The score is the priority factor times the sum of the terms. */
  lemma ScoreIsScaledSum(p: Phone, priority: Priority, lo: real, hi: real, maxRam: real, maxBattery: real)
    requires maxRam > 0.0 && maxBattery > 0.0
    ensures Score(p, priority, lo, hi, maxRam, maxBattery)
         == Multiplier(priority) * RawScore(p, lo, hi, maxRam, maxBattery)
  {
    FactorTimes(priority, RawScore(p, lo, hi, maxRam, maxBattery));
  }

  /** Multiplying by `Multiplier(priority)` is multiplying by its constant. */
  lemma FactorTimes(priority: Priority, x: real)
    ensures Multiplier(priority) * x == match priority
                                       case Performance => 1.2 * x
                                       case Camera => 1.1 * x
                                       case Battery => 1.15 * x
                                       case Display => x
                                       case Balanced => x
  {
  }

  /** No priority lowers a sum that is not negative: every factor is at
      least 1. */
  lemma PriorityNeverLowers(p: Phone, priority: Priority, lo: real, hi: real, maxRam: real, maxBattery: real)
    requires maxRam > 0.0 && maxBattery > 0.0
    ensures RawScore(p, lo, hi, maxRam, maxBattery) >= 0.0 ==>
      Score(p, priority, lo, hi, maxRam, maxBattery) >= RawScore(p, lo, hi, maxRam, maxBattery)
  {
    ScoreIsScaledSum(p, priority, lo, hi, maxRam, maxBattery);
    ScaledUp(Multiplier(priority), RawScore(p, lo, hi, maxRam, maxBattery));
  }

  /** Scaling by a factor of at least 1 does not lower a non-negative value. */
  lemma ScaledUp(m: real, x: real)
    requires m >= 1.0
    ensures x >= 0.0 ==> m * x >= x
  {
    if x >= 0.0 {
      assert m * x - x == (m - 1.0) * x;
    }
  }

  /** `score_phone` as written: an accumulator that starts at 0, gains or
      loses each term in turn, and is scaled at the end. */
  method ScorePhone(p: Phone, priority: Priority, lo: real, hi: real, maxRam: real, maxBattery: real)
    returns (score: real)
    requires maxRam > 0.0 && maxBattery > 0.0
    ensures score == Score(p, priority, lo, hi, maxRam, maxBattery)
  {
    score := 0.0;

    if p.price.Some? && lo <= p.price.value <= hi {
      score := score + 1.0;
    } else {
      score := score - 0.5;
    }
    assert score == BudgetTerm(p.price, lo, hi);

    if p.ram.Some? {
      score := score + p.ram.value / maxRam * 2.0;
    }
    assert score == BudgetTerm(p.price, lo, hi) + RamTerm(p.ram, maxRam);

    if p.battery.Some? {
      score := score + p.battery.value / maxBattery;
    }
    assert score == BudgetTerm(p.price, lo, hi) + RamTerm(p.ram, maxRam) + BatteryTerm(p.battery, maxBattery);

    ghost var before := score;
    if p.camera.Some? {
      var vals := SegmentValues(Split(p.camera.value, '+'));
      if vals.Some? {
        var camVal := Sum(vals.value) / |vals.value| as real;
        assert camVal / 100.0 == CameraTerm(p.camera);
        score := score + camVal / 100.0;
      }
    }
    assert score == before + CameraTerm(p.camera);
    ghost var raw := RawScore(p, lo, hi, maxRam, maxBattery);
    assert score == raw;

    if priority == Performance {
      score := score * 1.2;
    } else if priority == Camera {
      score := score * 1.1;
    } else if priority == Battery {
      score := score * 1.15;
    }
    PriorityFactor(p, priority, lo, hi, maxRam, maxBattery, raw, score);
  }

  /** The if-chain of app.py:78-83 multiplies the sum by `Multiplier`, which
      is what `Score` returns. */
  lemma PriorityFactor(p: Phone, priority: Priority, lo: real, hi: real, maxRam: real, maxBattery: real,
                       raw: real, scaled: real)
    requires maxRam > 0.0 && maxBattery > 0.0
    requires raw == RawScore(p, lo, hi, maxRam, maxBattery)
    requires scaled == if priority == Performance then raw * 1.2
                       else if priority == Camera then raw * 1.1
                       else if priority == Battery then raw * 1.15
                       else raw
    ensures scaled == Multiplier(priority) * raw
    ensures scaled == Score(p, priority, lo, hi, maxRam, maxBattery)
  {
    ScoreIsScaledSum(p, priority, lo, hi, maxRam, maxBattery);
  }

  // ---------------------------------------------------------------------
  // Properties of the score
  // ---------------------------------------------------------------------

  /** A price inside the budget is worth exactly 1.5 raw points more than a
      missing one, and a price outside the budget is worth exactly as much as
      a missing one. */
  lemma BudgetSwing(p: Phone, lo: real, hi: real, maxRam: real, maxBattery: real, x: real)
    requires maxRam > 0.0 && maxBattery > 0.0
    ensures lo <= x <= hi ==>
      RawScore(p.(price := Some(x)), lo, hi, maxRam, maxBattery)
      == RawScore(p.(price := None), lo, hi, maxRam, maxBattery) + 1.5
    ensures !(lo <= x <= hi) ==>
      RawScore(p.(price := Some(x)), lo, hi, maxRam, maxBattery)
      == RawScore(p.(price := None), lo, hi, maxRam, maxBattery)
  {
  }

  /** The priority factor is applied once, to the whole sum: each priority's
      score is its factor times the Balanced score, and Display scores like
      Balanced. */
  lemma PriorityScalesOnce(p: Phone, lo: real, hi: real, maxRam: real, maxBattery: real)
    requires maxRam > 0.0 && maxBattery > 0.0
    ensures Score(p, Balanced, lo, hi, maxRam, maxBattery) == RawScore(p, lo, hi, maxRam, maxBattery)
    ensures Score(p, Display, lo, hi, maxRam, maxBattery) == Score(p, Balanced, lo, hi, maxRam, maxBattery)
    ensures Score(p, Performance, lo, hi, maxRam, maxBattery) == 1.2 * Score(p, Balanced, lo, hi, maxRam, maxBattery)
    ensures Score(p, Camera, lo, hi, maxRam, maxBattery) == 1.1 * Score(p, Balanced, lo, hi, maxRam, maxBattery)
    ensures Score(p, Battery, lo, hi, maxRam, maxBattery) == 1.15 * Score(p, Balanced, lo, hi, maxRam, maxBattery)
  {
  }

  /** A missing RAM or battery value scores exactly like a present 0. */
  lemma MissingCountsAsZero(p: Phone, priority: Priority, lo: real, hi: real, maxRam: real, maxBattery: real)
    requires maxRam > 0.0 && maxBattery > 0.0
    ensures Score(p.(ram := None), priority, lo, hi, maxRam, maxBattery)
         == Score(p.(ram := Some(0.0)), priority, lo, hi, maxRam, maxBattery)
    ensures Score(p.(battery := None), priority, lo, hi, maxRam, maxBattery)
         == Score(p.(battery := Some(0.0)), priority, lo, hi, maxRam, maxBattery)
  {
    assert RamTerm(Some(0.0), maxRam) == 0.0 && BatteryTerm(Some(0.0), maxBattery) == 0.0;
    assert RawScore(p.(ram := None), lo, hi, maxRam, maxBattery)
        == RawScore(p.(ram := Some(0.0)), lo, hi, maxRam, maxBattery);
    assert RawScore(p.(battery := None), lo, hi, maxRam, maxBattery)
        == RawScore(p.(battery := Some(0.0)), lo, hi, maxRam, maxBattery);
  }

  /** More RAM never lowers the score, other fields and the maxima fixed. */
  lemma ScoreMonotoneInRam(p: Phone, priority: Priority, lo: real, hi: real, maxRam: real, maxBattery: real,
                           a: real, b: real)
    requires maxRam > 0.0 && maxBattery > 0.0 && a <= b
    ensures Score(p.(ram := Some(a)), priority, lo, hi, maxRam, maxBattery)
         <= Score(p.(ram := Some(b)), priority, lo, hi, maxRam, maxBattery)
  {
    var ra := RawScore(p.(ram := Some(a)), lo, hi, maxRam, maxBattery);
    var rb := RawScore(p.(ram := Some(b)), lo, hi, maxRam, maxBattery);
    RawMonotoneInRam(p, lo, hi, maxRam, maxBattery, a, b);
    PriorityScalesOnce(p.(ram := Some(a)), lo, hi, maxRam, maxBattery);
    PriorityScalesOnce(p.(ram := Some(b)), lo, hi, maxRam, maxBattery);
  }

  lemma RawMonotoneInRam(p: Phone, lo: real, hi: real, maxRam: real, maxBattery: real, a: real, b: real)
    requires maxRam > 0.0 && maxBattery > 0.0 && a <= b
    ensures RawScore(p.(ram := Some(a)), lo, hi, maxRam, maxBattery)
         <= RawScore(p.(ram := Some(b)), lo, hi, maxRam, maxBattery)
  {
    ShareMonotone(a, b, maxRam);
  }

  /** More battery never lowers the score, other fields and the maxima fixed. */
  lemma ScoreMonotoneInBattery(p: Phone, priority: Priority, lo: real, hi: real, maxRam: real, maxBattery: real,
                               a: real, b: real)
    requires maxRam > 0.0 && maxBattery > 0.0 && a <= b
    ensures Score(p.(battery := Some(a)), priority, lo, hi, maxRam, maxBattery)
         <= Score(p.(battery := Some(b)), priority, lo, hi, maxRam, maxBattery)
  {
    var ra := RawScore(p.(battery := Some(a)), lo, hi, maxRam, maxBattery);
    var rb := RawScore(p.(battery := Some(b)), lo, hi, maxRam, maxBattery);
    RawMonotoneInBattery(p, lo, hi, maxRam, maxBattery, a, b);
    PriorityScalesOnce(p.(battery := Some(a)), lo, hi, maxRam, maxBattery);
    PriorityScalesOnce(p.(battery := Some(b)), lo, hi, maxRam, maxBattery);
  }

  lemma RawMonotoneInBattery(p: Phone, lo: real, hi: real, maxRam: real, maxBattery: real, a: real, b: real)
    requires maxRam > 0.0 && maxBattery > 0.0 && a <= b
    ensures RawScore(p.(battery := Some(a)), lo, hi, maxRam, maxBattery)
         <= RawScore(p.(battery := Some(b)), lo, hi, maxRam, maxBattery)
  {
    ShareMonotone(a, b, maxBattery);
  }

  /** A phone with no camera value scores exactly like one whose camera text
      cannot be read, for instance because one lens is not a number. */
  lemma MissingCameraLikeUnreadable(p: Phone, priority: Priority, lo: real, hi: real, maxRam: real,
                                    maxBattery: real, parts: seq<string>, k: nat)
    requires maxRam > 0.0 && maxBattery > 0.0
    requires |parts| >= 1 && k < |parts|
    requires forall i | 0 <= i < |parts| :: '+' !in parts[i]
    requires SegmentValue(parts[k]).None?
    ensures Score(p.(camera := None), priority, lo, hi, maxRam, maxBattery)
         == Score(p.(camera := Some(Join(parts, '+'))), priority, lo, hi, maxRam, maxBattery)
  {
    CameraTermPartialFailure(parts, k);
    assert RawScore(p.(camera := None), lo, hi, maxRam, maxBattery)
        == RawScore(p.(camera := Some(Join(parts, '+'))), lo, hi, maxRam, maxBattery);
  }

  /** Normalising by the catalogue-wide maxima keeps the RAM term within
      [0, 2] and the battery term within [0, 1] for every phone of the
      catalogue whose counts are non-negative, as loaded counts are. */
  lemma NormalisedTermsBounded(catalogue: seq<Phone>, p: Phone)
    requires p in catalogue
    requires MaxPresent(RamColumn(catalogue)).Some? && MaxPresent(RamColumn(catalogue)).value > 0.0
    requires MaxPresent(BatteryColumn(catalogue)).Some? && MaxPresent(BatteryColumn(catalogue)).value > 0.0
    requires p.ram.Some? ==> p.ram.value >= 0.0
    requires p.battery.Some? ==> p.battery.value >= 0.0
    ensures 0.0 <= RamTerm(p.ram, MaxPresent(RamColumn(catalogue)).value) <= 2.0
    ensures 0.0 <= BatteryTerm(p.battery, MaxPresent(BatteryColumn(catalogue)).value) <= 1.0
  {
    var i :| 0 <= i < |catalogue| && catalogue[i] == p;
    assert RamColumn(catalogue)[i] == p.ram;
    assert BatteryColumn(catalogue)[i] == p.battery;
    var mr := MaxPresent(RamColumn(catalogue)).value;
    var mb := MaxPresent(BatteryColumn(catalogue)).value;
    if p.ram.Some? {
      ShareAtMostOne(p.ram.value, mr);
    }
    if p.battery.Some? {
      ShareAtMostOne(p.battery.value, mb);
    }
  }

  /** A column with no value at all never reaches a division (the `isna`
      guards at app.py:61 and app.py:65 skip every row), so any positive
      stand-in for its maximum gives the same score. */
  lemma MissingColumnAnyScale(catalogue: seq<Phone>, p: Phone, priority: Priority, lo: real, hi: real,
                              r1: real, r2: real, b1: real, b2: real)
    requires p in catalogue
    requires r1 > 0.0 && r2 > 0.0 && b1 > 0.0 && b2 > 0.0
    ensures MaxPresent(RamColumn(catalogue)).None? ==>
      Score(p, priority, lo, hi, r1, b1) == Score(p, priority, lo, hi, r2, b1)
    ensures MaxPresent(BatteryColumn(catalogue)).None? ==>
      Score(p, priority, lo, hi, r1, b1) == Score(p, priority, lo, hi, r1, b2)
  {
    var i :| 0 <= i < |catalogue| && catalogue[i] == p;
    assert RamColumn(catalogue)[i] == p.ram;
    assert BatteryColumn(catalogue)[i] == p.battery;
  }

  lemma ShareMonotone(a: real, b: real, m: real)
    requires a <= b && m > 0.0
    ensures a / m <= b / m
  {
  }

  lemma ShareAtMostOne(x: real, m: real)
    requires 0.0 <= x <= m && m > 0.0
    ensures 0.0 <= x / m <= 1.0
  {
  }
}
