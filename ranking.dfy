/** The ranker `recommend` (app.py:90-103): keep the phones whose price lies
    in the budget and, when brands were chosen, whose brand is one of them;
    score each survivor; sort by score, highest first; keep the first three.
    The sort promises no order among equal scores. */
module Ranking {
  import opened Common
  import opened Catalogue
  import opened Scoring

  /** A returned row: the phone's fields and its score column. */
  datatype Recommendation = Recommendation(phone: Phone, score: real)

  /** The number of rows `recommend` returns at most (`head(3)`). */
  const TopCount: nat := 3

  /** `(df["price"] >= lo) & (df["price"] <= hi)`; a missing price fails. */
  predicate InBudget(p: Phone, lo: real, hi: real) {
    p.price.Some? && lo <= p.price.value <= hi
  }

  /** `df["brand"].isin(brands)`; a missing brand is in no set. */
  predicate OfBrand(p: Phone, brands: set<string>) {
    p.brand.Some? && p.brand.value in brands
  }

  /** The brand filter applies only when some brand was chosen. */
  predicate BrandAllowed(p: Phone, brands: set<string>) {
    brands == {} || OfBrand(p, brands)
  }

  /** Boolean-mask selection: the rows that satisfy `keep`. */
  function Filter(xs: seq<Phone>, keep: Phone -> bool): (ys: seq<Phone>)
    ensures forall p :: multiset(ys)[p] == if keep(p) then multiset(xs)[p] else 0
  {
    if xs == [] then []
    else
      var rest := Filter(xs[1..], keep);
      assert xs == [xs[0]] + xs[1..];
      if keep(xs[0]) then [xs[0]] + rest else rest
  }

  /** The rows that reach scoring (app.py:92-96). */
  function Candidates(catalogue: seq<Phone>, lo: real, hi: real, brands: set<string>): (c: seq<Phone>)
    ensures forall p :: multiset(c)[p]
                        == (if InBudget(p, lo, hi) && BrandAllowed(p, brands) then multiset(catalogue)[p] else 0)
  {
    var inBudget := Filter(catalogue, p => InBudget(p, lo, hi));
    if brands == {} then inBudget else Filter(inBudget, p => OfBrand(p, brands))
  }

  /** `df["score"] = df.apply(score_phone, axis=1)` (app.py:99). */
  function ScoreAll(phones: seq<Phone>, priority: Priority, lo: real, hi: real, maxRam: real, maxBattery: real)
    : (rs: seq<Recommendation>)
    requires maxRam > 0.0 && maxBattery > 0.0
    ensures |rs| == |phones|
    ensures forall i | 0 <= i < |rs| :: rs[i].phone == phones[i]
    ensures forall i | 0 <= i < |rs| :: rs[i].score == Score(phones[i], priority, lo, hi, maxRam, maxBattery)
  {
    seq(|phones|, i requires 0 <= i < |phones| =>
      Recommendation(phones[i], Score(phones[i], priority, lo, hi, maxRam, maxBattery)))
  }

  /** Highest score first. */
  predicate SortedByScore(rs: seq<Recommendation>) {
    forall i, j | 0 <= i < j < |rs| :: rs[i].score >= rs[j].score
  }

  /** Put `x` into a list already sorted by descending score. */
  function InsertByScore(x: Recommendation, rs: seq<Recommendation>): (r: seq<Recommendation>)
    requires SortedByScore(rs)
    ensures SortedByScore(r)
    ensures multiset(r) == multiset(rs) + multiset{x}
  {
    if rs == [] || rs[0].score <= x.score then
      [x] + rs
    else
      var rest := InsertByScore(x, rs[1..]);
      assert rs == [rs[0]] + rs[1..];
      InsertedBelowHead(x, rs, rest);
      [rs[0]] + rest
  }

  /** Inserting below the head of a sorted list keeps every row at most the
      head's score, and the whole list sorted. */
  lemma InsertedBelowHead(x: Recommendation, rs: seq<Recommendation>, rest: seq<Recommendation>)
    requires SortedByScore(rs) && rs != [] && x.score < rs[0].score
    requires SortedByScore(rest) && multiset(rest) == multiset(rs[1..]) + multiset{x}
    ensures SortedByScore([rs[0]] + rest)
  {
    forall j | 0 <= j < |rest| ensures rest[j].score <= rs[0].score {
      assert rest[j] in multiset(rest);
      if rest[j] != x {
        assert rest[j] in multiset(rs[1..]);
        var m :| 0 <= m < |rs[1..]| && rs[1..][m] == rest[j];
        assert rs[1 + m] == rest[j];
      }
    }
    var r := [rs[0]] + rest;
    forall i, j | 0 <= i < j < |r| ensures r[i].score >= r[j].score {
      if i == 0 { assert r[j] == rest[j - 1]; }
      else { assert r[i] == rest[i - 1] && r[j] == rest[j - 1]; }
    }
  }

  /** `sort_values(by="score", ascending=False)` (app.py:102). */
  function SortByScore(rs: seq<Recommendation>): (r: seq<Recommendation>)
    ensures SortedByScore(r)
    ensures multiset(r) == multiset(rs)
  {
    if rs == [] then []
    else
      assert rs == [rs[0]] + rs[1..];
      InsertByScore(rs[0], SortByScore(rs[1..]))
  }

  /** `recommend(df, priority, (lo, hi), brands)`, with the RAM and battery
      maxima of the whole catalogue passed in. */
  function Recommend(catalogue: seq<Phone>, priority: Priority, lo: real, hi: real, brands: set<string>,
                     maxRam: real, maxBattery: real): (top: seq<Recommendation>)
    requires maxRam > 0.0 && maxBattery > 0.0
    // as many rows as there are candidates, up to three
    ensures |top| == Min(TopCount, |Candidates(catalogue, lo, hi, brands)|)
    // every row is a catalogue phone that passes both filters, with its score
    ensures forall i | 0 <= i < |top| ::
      top[i].phone in catalogue && InBudget(top[i].phone, lo, hi) && BrandAllowed(top[i].phone, brands)
    ensures forall i | 0 <= i < |top| ::
      top[i].score == Score(top[i].phone, priority, lo, hi, maxRam, maxBattery)
    // best first
    ensures SortedByScore(top)
    // the rows are drawn from the scored candidates, and every candidate left
    // out scores no higher than the last row returned
    ensures multiset(top) <= multiset(ScoreAll(Candidates(catalogue, lo, hi, brands), priority, lo, hi, maxRam, maxBattery))
    ensures forall x | x in multiset(ScoreAll(Candidates(catalogue, lo, hi, brands), priority, lo, hi, maxRam, maxBattery))
                         - multiset(top) ::
      |top| > 0 && x.score <= top[|top| - 1].score
  {
    var candidates := Candidates(catalogue, lo, hi, brands);
    var scored := ScoreAll(candidates, priority, lo, hi, maxRam, maxBattery);
    var ranked := SortByScore(scored);
    var top := ranked[..Min(TopCount, |ranked|)];
    HeadOfSorted(ranked, Min(TopCount, |ranked|));
    ScoredRows(catalogue, lo, hi, brands, priority, maxRam, maxBattery, top);
    top
  }

  /** The divisor used for a column: its largest value, or 1 when no row has
      a value (the divisor is then never used; see
      `Scoring.MissingColumnAnyScale`). */
  function ColumnScale(col: seq<Option<real>>): (m: real)
    requires MaxPresent(col).Some? ==> MaxPresent(col).value > 0.0
    ensures m > 0.0
    ensures MaxPresent(col).Some? ==> m == MaxPresent(col).value
    ensures forall i | 0 <= i < |col| && col[i].Some? :: col[i].value <= m
  {
    if MaxPresent(col).Some? then MaxPresent(col).value else 1.0
  }

  /** `recommend` with the RAM and battery maxima taken over the whole
      catalogue (app.py:62, app.py:66), not over the filtered rows. */
  function RecommendFromCatalogue(catalogue: seq<Phone>, priority: Priority, lo: real, hi: real,
                                  brands: set<string>): (top: seq<Recommendation>)
    requires MaxPresent(RamColumn(catalogue)).Some? ==> MaxPresent(RamColumn(catalogue)).value > 0.0
    requires MaxPresent(BatteryColumn(catalogue)).Some? ==> MaxPresent(BatteryColumn(catalogue)).value > 0.0
    ensures |top| == Min(TopCount, |Candidates(catalogue, lo, hi, brands)|)
    ensures SortedByScore(top)
    ensures forall i | 0 <= i < |top| ::
      top[i].phone in catalogue && InBudget(top[i].phone, lo, hi) && BrandAllowed(top[i].phone, brands)
    ensures forall i | 0 <= i < |top| ::
      top[i].score == Score(top[i].phone, priority, lo, hi,
                            ColumnScale(RamColumn(catalogue)), ColumnScale(BatteryColumn(catalogue)))
    // the top rows: drawn from the scored candidates, and every candidate
    // left out scores no higher than the last row returned
    ensures multiset(top) <= multiset(ScoreAll(Candidates(catalogue, lo, hi, brands), priority, lo, hi,
                                               ColumnScale(RamColumn(catalogue)), ColumnScale(BatteryColumn(catalogue))))
    ensures forall x | x in multiset(ScoreAll(Candidates(catalogue, lo, hi, brands), priority, lo, hi,
                                              ColumnScale(RamColumn(catalogue)), ColumnScale(BatteryColumn(catalogue))))
                         - multiset(top) ::
      |top| > 0 && x.score <= top[|top| - 1].score
  {
    Recommend(catalogue, priority, lo, hi, brands,
              ColumnScale(RamColumn(catalogue)), ColumnScale(BatteryColumn(catalogue)))
  }

  /** The first k rows of a sorted list: none of the rest scores higher than
      the last of them. */
  lemma HeadOfSorted(ranked: seq<Recommendation>, k: nat)
    requires SortedByScore(ranked) && k <= |ranked|
    requires |ranked| > 0 ==> k > 0
    ensures SortedByScore(ranked[..k])
    ensures multiset(ranked[..k]) <= multiset(ranked)
    ensures forall x | x in multiset(ranked) - multiset(ranked[..k]) :: k > 0 && x.score <= ranked[k - 1].score
  {
    assert ranked == ranked[..k] + ranked[k..];
    assert multiset(ranked) == multiset(ranked[..k]) + multiset(ranked[k..]);
    forall x | x in multiset(ranked) - multiset(ranked[..k])
      ensures k > 0 && x.score <= ranked[k - 1].score
    {
      assert x in ranked[k..];
      var j :| 0 <= j < |ranked[k..]| && ranked[k..][j] == x;
      assert ranked[k + j] == x;
    }
  }

  /** Rows drawn from the scored candidates are catalogue phones that pass
      both filters, each with its own score. */
  lemma ScoredRows(catalogue: seq<Phone>, lo: real, hi: real, brands: set<string>, priority: Priority,
                   maxRam: real, maxBattery: real, rows: seq<Recommendation>)
    requires maxRam > 0.0 && maxBattery > 0.0
    requires multiset(rows) <= multiset(ScoreAll(Candidates(catalogue, lo, hi, brands), priority, lo, hi, maxRam, maxBattery))
    ensures forall i | 0 <= i < |rows| ::
      rows[i].phone in catalogue && InBudget(rows[i].phone, lo, hi) && BrandAllowed(rows[i].phone, brands)
    ensures forall i | 0 <= i < |rows| ::
      rows[i].score == Score(rows[i].phone, priority, lo, hi, maxRam, maxBattery)
  {
    var candidates := Candidates(catalogue, lo, hi, brands);
    var scored := ScoreAll(candidates, priority, lo, hi, maxRam, maxBattery);
    forall n | 0 <= n < |rows|
      ensures rows[n].phone in catalogue && InBudget(rows[n].phone, lo, hi) && BrandAllowed(rows[n].phone, brands)
      ensures rows[n].score == Score(rows[n].phone, priority, lo, hi, maxRam, maxBattery)
    {
      assert rows[n] in multiset(rows);
      assert rows[n] in multiset(scored);
      var i :| 0 <= i < |scored| && scored[i] == rows[n];
      assert candidates[i] in multiset(candidates);
    }
  }

  /** Filtering happens before scoring, so every returned row earned the
      +1.0 budget term. */
  lemma RecommendedWithinBudget(catalogue: seq<Phone>, priority: Priority, lo: real, hi: real,
                                brands: set<string>, maxRam: real, maxBattery: real)
    requires maxRam > 0.0 && maxBattery > 0.0
    ensures forall x | x in Recommend(catalogue, priority, lo, hi, brands, maxRam, maxBattery) ::
      BudgetTerm(x.phone.price, lo, hi) == 1.0
  {
  }

  /** With no brand chosen every phone within budget is a candidate; with
      brands chosen, a phone of another brand never is, however it would
      score. */
  lemma BrandFilterScope(catalogue: seq<Phone>, lo: real, hi: real, brands: set<string>, p: Phone)
    requires p in catalogue && InBudget(p, lo, hi)
    ensures brands == {} ==> p in Candidates(catalogue, lo, hi, brands)
    ensures brands != {} ==> (p in Candidates(catalogue, lo, hi, brands) <==> OfBrand(p, brands))
  {
    assert multiset(catalogue)[p] > 0;
    assert p in Candidates(catalogue, lo, hi, brands) <==> multiset(Candidates(catalogue, lo, hi, brands))[p] > 0;
  }
}
