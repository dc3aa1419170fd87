/** The price-change job (`etl_prices.py`): a ticker's daily closes, the
    "latest close on or before a date" lookup, and the percentage changes over
    1, 3, 6 and 12 months. Dates are day numbers. */
module Prices {
  import opened Wrappers

  /** One row of the downloaded history; `close` is missing (NaN) on some days. */
  datatype Bar = Bar(date: int, close: Option<real>)

  /** One observation of the close series after NaNs are dropped. */
  datatype Obs = Obs(date: int, price: real)

  /** The series' index is in date order, as the download returns it. */
  predicate Sorted(p: seq<Obs>) {
    forall i, j :: 0 <= i < j < |p| ==> p[i].date <= p[j].date
  }

  predicate BarsSorted(bars: seq<Bar>) {
    forall i, j :: 0 <= i < j < |bars| ==> bars[i].date <= bars[j].date
  }

  /** `df[['Close']].dropna()`: the bars that have a close, in order. */
  function DropNa(bars: seq<Bar>): (p: seq<Obs>)
    ensures |p| <= |bars|
    ensures |p| == 0 <==> forall i :: 0 <= i < |bars| ==> bars[i].close.None?
    ensures forall k :: 0 <= k < |p| ==> Bar(p[k].date, Some(p[k].price)) in bars
  {
    if |bars| == 0 then []
    else
      var rest := DropNa(bars[1..]);
      assert forall k :: 0 <= k < |rest| ==> Bar(rest[k].date, Some(rest[k].price)) in bars by {
        assert forall b :: b in bars[1..] ==> b in bars;
      }
      match bars[0].close
      case Some(c) => [Obs(bars[0].date, c)] + rest
      case None => rest
  }

  /** Dropping NaNs keeps the series in date order. */
  lemma {:induction false} DropNaSorted(bars: seq<Bar>)
    requires BarsSorted(bars)
    ensures Sorted(DropNa(bars))
  {
    if |bars| > 0 {
      DropNaSorted(bars[1..]);
      var rest := DropNa(bars[1..]);
      forall k | 0 <= k < |rest|
        ensures bars[0].date <= rest[k].date
      {
        var b :| b in bars[1..] && b == Bar(rest[k].date, Some(rest[k].price));
      }
    }
  }

  /** One bar keeps its close as an observation exactly when the close is present. */
  lemma DropNaSingle(b: Bar)
    ensures DropNa([b]) == if b.close.Some? then [Obs(b.date, b.close.value)] else []
  {
    assert [b][1..] == [];
  }

  /** Dropping works bar by bar: every bar with a close contributes its
      observation, in the order of the bars. */
  lemma {:induction false} DropNaAppend(a: seq<Bar>, b: seq<Bar>)
    ensures DropNa(a + b) == DropNa(a) + DropNa(b)
  {
    if |a| == 0 {
      assert a + b == b;
    } else {
      assert (a + b)[0] == a[0];
      assert (a + b)[1..] == a[1..] + b;
      DropNaAppend(a[1..], b);
    }
  }

  /** `prices.loc[:target]`: the leading observations dated on or before
      `target`; every later one is dated after it. */
  function UpTo(p: seq<Obs>, target: int): (r: seq<Obs>)
    requires Sorted(p)
    ensures |r| <= |p| && r == p[..|r|]
    ensures forall i :: 0 <= i < |r| ==> p[i].date <= target
    ensures forall i :: |r| <= i < |p| ==> p[i].date > target
  {
    if |p| == 0 || p[0].date > target then []
    else [p[0]] + UpTo(p[1..], target)
  }

  /** `get_close_price(prices, target)` */
  function ClosePrice(p: seq<Obs>, target: int): (r: Option<real>)
    requires Sorted(p)
    ensures r.None? <==> forall i :: 0 <= i < |p| ==> p[i].date > target
  {
    var past := UpTo(p, target);
    if |past| == 0 then None else Some(past[|past| - 1].price)
  }

  /** The lookup answers with the price of the latest observation on or before
      the target: any observation dated on or before it and followed only by
      later ones. */
  lemma ClosePriceIsLatest(p: seq<Obs>, target: int, i: nat)
    requires Sorted(p)
    requires i < |p| && p[i].date <= target
    requires i + 1 == |p| || p[i + 1].date > target
    ensures ClosePrice(p, target) == Some(p[i].price)
  {
    var past := UpTo(p, target);
    assert |past| == i + 1;
  }

  /** On a date with exactly one observation the lookup returns that day's price. */
  lemma ClosePriceExactDate(p: seq<Obs>, i: nat)
    requires Sorted(p)
    requires i < |p|
    requires forall j :: 0 <= j < |p| && j != i ==> p[j].date != p[i].date
    ensures ClosePrice(p, p[i].date) == Some(p[i].price)
  {
    if i + 1 < |p| {
      assert p[i + 1].date != p[i].date;
    }
    ClosePriceIsLatest(p, p[i].date, i);
  }

  /** Looked up at the last observed date, the lookup yields the last price:
      this is how today's close is read. */
  lemma ClosePriceAtLastDate(p: seq<Obs>)
    requires Sorted(p) && |p| > 0
    ensures ClosePrice(p, p[|p| - 1].date) == Some(p[|p| - 1].price)
  {
    ClosePriceIsLatest(p, p[|p| - 1].date, |p| - 1);
  }

  /** The position `searchsorted(target, side="right")`, which is how the
      slice `loc[:target]` is cut: the number of observations on or before `target`. */
  method SearchRight(p: seq<Obs>, target: int) returns (k: nat)
    requires Sorted(p)
    ensures k <= |p|
    ensures forall i :: 0 <= i < k ==> p[i].date <= target
    ensures forall i :: k <= i < |p| ==> p[i].date > target
  {
    var lo, hi := 0, |p|;
    while lo < hi
      invariant 0 <= lo <= hi <= |p|
      invariant forall i :: 0 <= i < lo ==> p[i].date <= target
      invariant forall i :: hi <= i < |p| ==> p[i].date > target
      decreases hi - lo
    {
      var mid := (lo + hi) / 2;
      if p[mid].date <= target {
        lo := mid + 1;
      } else {
        hi := mid;
      }
    }
    k := lo;
  }

  /** A sorted series has one cut point between the observations on or
      before a date and those after it. */
  lemma CutIsUnique(p: seq<Obs>, target: int, m: nat, n: nat)
    requires m <= |p| && n <= |p|
    requires forall i :: 0 <= i < m ==> p[i].date <= target
    requires forall i :: m <= i < |p| ==> p[i].date > target
    requires forall i :: 0 <= i < n ==> p[i].date <= target
    requires forall i :: n <= i < |p| ==> p[i].date > target
    ensures m == n
  {
    // Were the cuts apart, the observation at the lower one would be dated
    // both on or before and after the target. Naming its date (guarded, so the
    // term is well formed whether or not the cuts differ) brings both facts
    // about it into scope, and the clash between them closes the proof.
    var lo := if m < n then m else n;
    var atLo := if lo < |p| then p[lo].date else target;
  }

  /** The lookup by binary search over the sorted index; it agrees with the
      slice-based definition. */
  method GetClosePrice(p: seq<Obs>, target: int) returns (r: Option<real>)
    requires Sorted(p)
    ensures r == ClosePrice(p, target)
  {
    var k := SearchRight(p, target);
    CutIsUnique(p, target, |UpTo(p, target)|, k);
    if k == 0 {
      r := None;
    } else {
      r := Some(p[k - 1].price);
    }
  }

  /** Moving `past` by `pct` percent gives `now`. */
  predicate ChangedBy(past: real, pct: real, now: real)
  {
    past + past * pct / 100.0 == now
  }

  /** `calc_change(prices, today, offset_days)`, without the rounding to four
      decimals. The source divides by the past price unguarded, so a zero past
      price is excluded here; `PriceUpdate` models what the job does then. */
  function CalcChange(p: seq<Obs>, today: int, offsetDays: int): (r: Option<real>)
    requires Sorted(p)
    requires ClosePrice(p, today - offsetDays) != Some(0.0)
    ensures r.Some? <==> ClosePrice(p, today).Some? && ClosePrice(p, today - offsetDays).Some?
    ensures r.Some? ==> ChangedBy(ClosePrice(p, today - offsetDays).value, r.value, ClosePrice(p, today).value)
  {
    var todayPrice := ClosePrice(p, today);
    var pastPrice := ClosePrice(p, today - offsetDays);
    if todayPrice.Some? && pastPrice.Some? then
      var past := pastPrice.value;
      var pct := (todayPrice.value - past) / past * 100.0;
      assert past * pct / 100.0 == todayPrice.value - past;
      Some(pct)
    else None
  }

  /** A change over zero days is zero whenever there is a price. */
  lemma CalcChangeZeroOffset(p: seq<Obs>, today: int)
    requires Sorted(p)
    requires ClosePrice(p, today).Some? && ClosePrice(p, today) != Some(0.0)
    ensures CalcChange(p, today, 0) == Some(0.0)
  {
  }

  /** The look-back offsets, in days, of `change_1m`, `change_3m`, `change_6m`
      and `change_1y`. */
  const Offsets: seq<int> := [30, 90, 180, 364]

  /** The row the job upserts into `prices` for one ticker. */
  datatype PriceRow = PriceRow(
    priceDate: int,
    closePrice: real,
    change1m: Option<real>,
    change3m: Option<real>,
    change6m: Option<real>,
    change1y: Option<real>)

  /** Why a ticker is skipped: no close at all ("No data"), or a zero past
      close, whose division raises and is caught by the per-ticker handler. */
  datatype Skip = NoData | DivisionByZero

  /** No look-back lookup lands on a zero close. */
  predicate NoZeroPast(p: seq<Obs>, today: int)
    requires Sorted(p)
  {
    && ClosePrice(p, today - Offsets[0]) != Some(0.0)
    && ClosePrice(p, today - Offsets[1]) != Some(0.0)
    && ClosePrice(p, today - Offsets[2]) != Some(0.0)
    && ClosePrice(p, today - Offsets[3]) != Some(0.0)
  }

  /** The row for a non-empty close series: dated at its last observation,
      whose close is read back through the lookup. */
  function SeriesRow(p: seq<Obs>): (r: Result<PriceRow, Skip>)
    requires Sorted(p) && |p| > 0
    ensures r.Failure? <==> !NoZeroPast(p, p[|p| - 1].date)
    ensures r.Failure? ==> r.error == DivisionByZero
    ensures r.Success? ==> r.value.priceDate == p[|p| - 1].date && r.value.closePrice == p[|p| - 1].price
  {
    var today := p[|p| - 1].date;
    ClosePriceAtLastDate(p);
    var todayClose := ClosePrice(p, today).value;
    if !NoZeroPast(p, today) then Failure(DivisionByZero)
    else Success(RowAt(p, today, todayClose))
  }

  /** The row dated `today`, with the four look-back changes. */
  function RowAt(p: seq<Obs>, today: int, todayClose: real): PriceRow
    requires Sorted(p) && NoZeroPast(p, today)
  {
    PriceRow(
      today, todayClose,
      CalcChange(p, today, Offsets[0]), CalcChange(p, today, Offsets[1]),
      CalcChange(p, today, Offsets[2]), CalcChange(p, today, Offsets[3]))
  }

  /** The body of the job's per-ticker loop, from the downloaded bars. */
  function PriceUpdate(bars: seq<Bar>): (r: Result<PriceRow, Skip>)
    requires BarsSorted(bars)
    ensures r == Failure(NoData) <==> forall i :: 0 <= i < |bars| ==> bars[i].close.None?
  {
    var p := DropNa(bars);
    DropNaSorted(bars);
    if |p| == 0 then Failure(NoData) else SeriesRow(p)
  }

  /** Every change in a stored row is the change from the close `offset`
      days before the last observed date to the last close. */
  lemma SeriesRowChanges(p: seq<Obs>)
    requires Sorted(p) && |p| > 0
    requires SeriesRow(p).Success?
    ensures NoZeroPast(p, p[|p| - 1].date)
    ensures var today := p[|p| - 1].date;
            var row := SeriesRow(p).value;
            && row.change1m == CalcChange(p, today, Offsets[0])
            && row.change3m == CalcChange(p, today, Offsets[1])
            && row.change6m == CalcChange(p, today, Offsets[2])
            && row.change1y == CalcChange(p, today, Offsets[3])
  {
  }

  /** A ticker with at least one close gets the row of its close series with
      the missing closes dropped. */
  lemma PriceUpdateUsesCloses(bars: seq<Bar>)
    requires BarsSorted(bars)
    requires PriceUpdate(bars) != Failure(NoData)
    ensures Sorted(DropNa(bars)) && |DropNa(bars)| > 0
    ensures PriceUpdate(bars) == SeriesRow(DropNa(bars))
  {
    DropNaSorted(bars);
  }
}
