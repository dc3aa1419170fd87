/** The series endpoint (`company_series`): the database returns the latest
    `days` observations newest first; the endpoint answers 404 when there are
    none and otherwise turns them around into chart (ascending) order. */
module CompanySeries {
  import opened Wrappers

  /** One day of a ticker's series; `date` is a day number. */
  datatype SeriesPoint = SeriesPoint(
    date: int,
    close: Option<real>,
    volume: Option<int>,
    ma50: Option<real>,
    ma200: Option<real>,
    rsi14: Option<real>)

  datatype SeriesProblem = TickerNotFoundOrNoData

  /** `list(reversed(rows))` */
  function Reverse<T>(s: seq<T>): (r: seq<T>)
    ensures |r| == |s|
    ensures forall i :: 0 <= i < |s| ==> r[i] == s[|s| - 1 - i]
  {
    if |s| == 0 then [] else Reverse(s[1..]) + [s[0]]
  }

  /** Reversing twice gives back the original order. */
  lemma ReverseReverse<T>(s: seq<T>)
    ensures Reverse(Reverse(s)) == s
  {
  }

  /** Reversal keeps exactly the same rows. */
  lemma {:induction false} ReverseKeepsRows<T>(s: seq<T>)
    ensures multiset(Reverse(s)) == multiset(s)
  {
    if |s| > 0 {
      ReverseKeepsRows(s[1..]);
      assert s == [s[0]] + s[1..];
    }
  }

  /** `ORDER BY full_date DESC`: newest first, ties allowed. */
  predicate Descending(rows: seq<SeriesPoint>) {
    forall i, j :: 0 <= i < j < |rows| ==> rows[i].date >= rows[j].date
  }

  /** Oldest first, ties allowed. */
  predicate Ascending(rows: seq<SeriesPoint>) {
    forall i, j :: 0 <= i < j < |rows| ==> rows[i].date <= rows[j].date
  }

  /** The endpoint's answer for the rows the query returned. */
  function SeriesResponse(rows: seq<SeriesPoint>): (r: Result<seq<SeriesPoint>, HttpError<SeriesProblem>>)
    ensures r.Failure? <==> |rows| == 0
    ensures r.Failure? ==> r.error == HttpError(404, TickerNotFoundOrNoData)
    ensures r.Success? ==> |r.value| == |rows|
                           && forall i :: 0 <= i < |rows| ==> r.value[i] == rows[|rows| - 1 - i]
  {
    if |rows| == 0 then Failure(HttpError(404, TickerNotFoundOrNoData)) else Success(Reverse(rows))
  }

  /** Rows fetched newest first come out oldest first, ending with the newest. */
  lemma SeriesResponseAscending(rows: seq<SeriesPoint>)
    requires Descending(rows)
    requires |rows| > 0
    ensures Ascending(SeriesResponse(rows).value)
    ensures SeriesResponse(rows).value[|rows| - 1] == rows[0]
  {
  }
}
