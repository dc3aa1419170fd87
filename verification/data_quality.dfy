/** The arithmetic of the data-quality run (`dq_run`): the counts the quality
    query returns, coerced from SQL NULL, and the coverage percentages derived
    from them. The query itself is not part of this model. */
module DataQuality {
  import opened Wrappers

  /** `int(x or 0)`: a NULL count reads as zero. */
  function CountOrZero(x: Option<int>): (n: int)
    ensures x.None? ==> n == 0
    ensures x.Some? ==> n == x.value
  {
    x.GetOr(0)
  }

  /** `pct` is `part` as a percentage of `universe`, and zero for an empty
      universe. */
  predicate IsPercentage(pct: real, part: int, universe: int)
  {
    && (universe == 0 ==> pct == 0.0)
    && (universe != 0 ==> pct * (universe as real) == (part as real) * 100.0)
  }

  /** `(part / universe * 100.0) if universe else 0.0`, without the rounding
      to two decimals. */
  function Pct(part: int, universe: int): (r: real)
    ensures IsPercentage(r, part, universe)
  {
    if universe != 0 then (part as real) / (universe as real) * 100.0 else 0.0
  }

  /** A share of the universe is a percentage between 0 and 100. */
  lemma PctBounded(part: int, universe: int)
    requires 0 <= part <= universe
    ensures 0.0 <= Pct(part, universe) <= 100.0
  {
    if universe != 0 {
      var r := Pct(part, universe);
      var u := universe as real;
      assert r * u == (part as real) * 100.0;
      assert (part as real) * 100.0 <= u * 100.0;
    }
  }

  /** The percentage determines the count back: `part == pct * universe / 100`. */
  lemma PctRecoversCount(part: int, universe: int)
    requires universe != 0
    ensures Pct(part, universe) * (universe as real) / 100.0 == part as real
  {
  }

  /** The raw row of the quality query; every column may be NULL. */
  datatype DqCounts = DqCounts(
    universeCompanies: Option<int>,
    companiesInDim: Option<int>,
    withPrice: Option<int>,
    missingPrice: Option<int>,
    withMetrics: Option<int>,
    missingMetrics: Option<int>,
    withMa200: Option<int>,
    withRsi: Option<int>,
    duplicatePrices: Option<int>,
    duplicateMetrics: Option<int>,
    nonpositivePrices: Option<int>,
    zeroVolume: Option<int>)

  /** The snapshot payload `dq_run` stores for `dqDate` (a day number). */
  datatype DqSnapshot = DqSnapshot(
    dqDate: int,
    universeCompanies: int,
    companiesInDim: int,
    withPrice: int,
    missingPrice: int,
    pctWithPrice: real,
    withMetrics: int,
    missingMetrics: int,
    pctWithMetrics: real,
    withMa200: int,
    pctWithMa200: real,
    withRsi: int,
    pctWithRsi: real,
    duplicatePrices: int,
    duplicateMetrics: int,
    nonpositivePrices: int,
    zeroVolume: int)

  /** The payload built from one row of counts. */
  function Snapshot(dqDate: int, c: DqCounts): (s: DqSnapshot)
    ensures s.dqDate == dqDate
    ensures s.universeCompanies == CountOrZero(c.universeCompanies)
    ensures s.withPrice == CountOrZero(c.withPrice)
    ensures s.withMetrics == CountOrZero(c.withMetrics)
    ensures s.withMa200 == CountOrZero(c.withMa200)
    ensures s.withRsi == CountOrZero(c.withRsi)
    ensures s.companiesInDim == CountOrZero(c.companiesInDim)
    ensures s.missingPrice == CountOrZero(c.missingPrice)
    ensures s.missingMetrics == CountOrZero(c.missingMetrics)
    ensures s.duplicatePrices == CountOrZero(c.duplicatePrices)
    ensures s.duplicateMetrics == CountOrZero(c.duplicateMetrics)
    ensures s.nonpositivePrices == CountOrZero(c.nonpositivePrices)
    ensures s.zeroVolume == CountOrZero(c.zeroVolume)
    ensures IsPercentage(s.pctWithPrice, s.withPrice, s.universeCompanies)
    ensures IsPercentage(s.pctWithMetrics, s.withMetrics, s.universeCompanies)
    ensures IsPercentage(s.pctWithMa200, s.withMa200, s.universeCompanies)
    ensures IsPercentage(s.pctWithRsi, s.withRsi, s.universeCompanies)
  {
    var universe := CountOrZero(c.universeCompanies);
    var withPrice := CountOrZero(c.withPrice);
    var withMetrics := CountOrZero(c.withMetrics);
    var withMa200 := CountOrZero(c.withMa200);
    var withRsi := CountOrZero(c.withRsi);
    DqSnapshot(
      dqDate, universe, CountOrZero(c.companiesInDim),
      withPrice, CountOrZero(c.missingPrice), Pct(withPrice, universe),
      withMetrics, CountOrZero(c.missingMetrics), Pct(withMetrics, universe),
      withMa200, Pct(withMa200, universe),
      withRsi, Pct(withRsi, universe),
      CountOrZero(c.duplicatePrices), CountOrZero(c.duplicateMetrics),
      CountOrZero(c.nonpositivePrices), CountOrZero(c.zeroVolume))
  }

  /** A NULL universe count never divides: every percentage is zero. */
  lemma NullUniverseGivesZero(dqDate: int, c: DqCounts)
    requires c.universeCompanies.None?
    ensures var s := Snapshot(dqDate, c);
            s.pctWithPrice == 0.0 && s.pctWithMetrics == 0.0 && s.pctWithMa200 == 0.0 && s.pctWithRsi == 0.0
  {
  }
}
