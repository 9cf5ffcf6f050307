/**
 * The provider dashboard's revenue chart (components/dashboard/overview.tsx):
 * twelve month buckets start at zero and every completed booking of the year that
 * has a date and a fee adds its fee to its month's bucket, in place. An empty
 * result or any error shows a fixed sample series instead.
 *
 * The query's rows are an input. The month `new Date(booking_date).getMonth()`
 * yields is a field of the row (None for an Invalid Date); fees are integers in
 * the smallest currency unit, 0 standing for every falsy fee.
 */
module RevenueOverview {

  /** A month index as `getMonth()` returns it. */
  type MonthIndex = m: nat | m < 12

  /** A bar of the chart: the month's name, its total and, for the real series,
      its number (the sample series has none). */
  datatype Bucket = Bucket(name: string, total: int, month: Option<nat>)

  datatype Option<T> = None | Some(value: T)

  /** One row of the query of lines 34-40. */
  datatype RevenueRow = RevenueRow(bookingDate: string, month: Option<MonthIndex>, serviceFee: int)

  /** What the query returns: rows (or null), or an error. */
  datatype QueryResult = Rows(rows: Option<seq<RevenueRow>>) | QueryError

  const MonthNames: seq<string> := ["Jan", "Feb", "Mar", "Apr", "May", "Jun", "Jul", "Aug", "Sep", "Oct", "Nov", "Dec"]

  /** The bucket of month index i before aggregation (lines 27-31). */
  function InitialBucket(i: nat): (b: Bucket)
    requires i < 12
    ensures b.name == MonthNames[i] && b.total == 0 && b.month == Some(i + 1)
  {
    Bucket(MonthNames[i], 0, Some(i + 1))
  }

  /** The series shown when there are no rows or the fetch fails (lines 56-70,
      77-90). */
  const SampleSeries: seq<Bucket> := [
    Bucket("Jan", 4000, None), Bucket("Feb", 3000, None), Bucket("Mar", 5000, None),
    Bucket("Apr", 4000, None), Bucket("May", 7000, None), Bucket("Jun", 6000, None),
    Bucket("Jul", 8000, None), Bucket("Aug", 9000, None), Bucket("Sep", 8000, None),
    Bucket("Oct", 10000, None), Bucket("Nov", 12000, None), Bucket("Dec", 15000, None)]

  /** The test of line 47: a truthy date and a truthy fee. */
  predicate Qualifies(row: RevenueRow)
  {
    row.bookingDate != "" && row.serviceFee != 0
  }

  /** A qualifying row whose date is an Invalid Date: `initialData[NaN]` is
      undefined and the update at line 50 throws. */
  predicate Unplaceable(row: RevenueRow)
  {
    Qualifies(row) && row.month.None?
  }

  /** What one row adds to month m's bucket. */
  function Contribution(row: RevenueRow, m: nat): int
  {
    if Qualifies(row) && row.month == Some(m) then row.serviceFee else 0
  }

  /** The sum of the contributions of the rows to month m. */
  function MonthTotal(rows: seq<RevenueRow>, m: nat): int
  {
    if rows == [] then 0 else MonthTotal(rows[..|rows| - 1], m) + Contribution(rows[|rows| - 1], m)
  }

  /** The fees of all qualifying rows. */
  function QualifyingFees(rows: seq<RevenueRow>): int
  {
    if rows == [] then 0
    else QualifyingFees(rows[..|rows| - 1]) + (if Qualifies(rows[|rows| - 1]) then rows[|rows| - 1].serviceFee else 0)
  }

  /** The index of the first row whose update throws, or |rows| when none does. */
  function FirstUnplaceable(rows: seq<RevenueRow>): (k: nat)
    ensures k <= |rows|
    ensures k < |rows| ==> Unplaceable(rows[k])
    ensures forall j :: 0 <= j < k ==> !Unplaceable(rows[j])
  {
    if rows == [] then 0
    else if Unplaceable(rows[0]) then 0
    else 1 + FirstUnplaceable(rows[1..])
  }

  /** The aggregation of lines 45-53 over an array of buckets. It stops at the
      first row that throws (`failed`); every bucket has gained the contributions
      of the rows before that one, and of no other row. */
  method AggregateRevenue(buckets: array<Bucket>, rows: seq<RevenueRow>) returns (failed: bool)
    requires buckets.Length == 12
    modifies buckets
    ensures failed <==> FirstUnplaceable(rows) < |rows|
    ensures forall m :: 0 <= m < 12 ==>
      buckets[m] == old(buckets[m]).(total := old(buckets[m].total) + MonthTotal(rows[..FirstUnplaceable(rows)], m))
  {
    var stop := FirstUnplaceable(rows);
    var i := 0;
    while i < |rows|
      invariant 0 <= i <= stop
      invariant forall m :: 0 <= m < 12 ==>
        buckets[m] == old(buckets[m]).(total := old(buckets[m].total) + MonthTotal(rows[..i], m))
    {
      var row := rows[i];
      if Qualifies(row) {
        if row.month.None? {
          return true;
        }
        var monthIndex := row.month.value;
        buckets[monthIndex] := buckets[monthIndex].(total := buckets[monthIndex].total + row.serviceFee);
      }
      assert rows[..i + 1][..i] == rows[..i];
      i := i + 1;
    }
    assert rows[..i] == rows;
    return false;
  }

  /** The series the chart shows after a complete aggregation. */
  function Aggregated(rows: seq<RevenueRow>): (series: seq<Bucket>)
    ensures |series| == 12
    ensures forall m :: 0 <= m < 12 ==> series[m] == Bucket(MonthNames[m], MonthTotal(rows, m), Some(m + 1))
  {
    seq(12, m requires 0 <= m < 12 => Bucket(MonthNames[m], MonthTotal(rows, m), Some(m + 1)))
  }

  /** The chart's state: the series shown and the loading flag. */
  class RevenueChart {
    var data: seq<Bucket>
    var loading: bool

    constructor()
      ensures data == [] && loading
    {
      data := [];
      loading := true;
    }

    /** fetchRevenueData (lines 13-94). `signedIn` is whether a session exists;
        `result` is what the query answers. */
    method FetchRevenueData(signedIn: bool, result: QueryResult)
      modifies this
      ensures !loading
      ensures !signedIn ==> data == old(data)
      ensures signedIn && result.QueryError? ==> data == SampleSeries
      ensures signedIn && result == Rows(None) ==> data == Aggregated([])
      ensures signedIn && result.Rows? && result.rows.Some? ==>
        var rows := result.rows.value;
        data == if rows == [] || FirstUnplaceable(rows) < |rows| then SampleSeries else Aggregated(rows)
    {
      loading := false;
      if !signedIn {
        return;
      }
      if result.QueryError? {
        data := SampleSeries;
        return;
      }
      var initialData := new Bucket[12](i requires 0 <= i < 12 => InitialBucket(i));
      var failed := false;
      var rows: seq<RevenueRow> := [];
      if result.rows.Some? && |result.rows.value| > 0 {
        rows := result.rows.value;
        failed := AggregateRevenue(initialData, rows);
      }
      if failed {
        data := SampleSeries;
      } else if result.rows.Some? && |result.rows.value| == 0 {
        data := SampleSeries;
      } else {
        assert rows[..|rows|] == rows;
        data := initialData[..];
        assert forall m :: 0 <= m < 12 ==> data[m] == Aggregated(rows)[m];
      }
    }
  }

  // ---------------------------------------------------------------------------
  // Properties of the aggregation

  /** One qualifying row with a month changes exactly its own month's bucket. */
  lemma OneRowOneBucket(rows: seq<RevenueRow>, row: RevenueRow, m: nat)
    requires Qualifies(row) && row.month.Some?
    ensures row.month == Some(m) ==> MonthTotal(rows + [row], m) == MonthTotal(rows, m) + row.serviceFee
    ensures row.month != Some(m) ==> MonthTotal(rows + [row], m) == MonthTotal(rows, m)
  {
    assert (rows + [row])[..|rows + [row]| - 1] == rows;
  }

  /** A row without a date or without a fee adds nothing anywhere. */
  lemma NonQualifyingAddsNothing(rows: seq<RevenueRow>, row: RevenueRow, m: nat)
    requires row.bookingDate == "" || row.serviceFee == 0
    ensures MonthTotal(rows + [row], m) == MonthTotal(rows, m)
    ensures QualifyingFees(rows + [row]) == QualifyingFees(rows)
  {
    assert (rows + [row])[..|rows + [row]| - 1] == rows;
  }

  /** The contributions of one row to the first n months. */
  function ContributionsBelow(row: RevenueRow, n: nat): int
  {
    if n == 0 then 0 else ContributionsBelow(row, n - 1) + Contribution(row, n - 1)
  }

  /** The totals of the first n months. */
  function MonthsBelow(rows: seq<RevenueRow>, n: nat): int
  {
    if n == 0 then 0 else MonthsBelow(rows, n - 1) + MonthTotal(rows, n - 1)
  }

  /** A placeable row's contributions over all twelve months are its fee once, or
      nothing when it does not qualify. */
  lemma {:induction false} RowCountedOnce(row: RevenueRow, n: nat)
    requires !Unplaceable(row) && n <= 12
    ensures ContributionsBelow(row, n) ==
      if Qualifies(row) && row.month.value < n then row.serviceFee else 0
  {
    if n > 0 {
      RowCountedOnce(row, n - 1);
    }
  }

  /** Adding a row to the list adds its contributions to the month sums. */
  lemma {:induction false} MonthsBelowAppend(rows: seq<RevenueRow>, n: nat)
    requires rows != []
    ensures MonthsBelow(rows, n) == MonthsBelow(rows[..|rows| - 1], n) + ContributionsBelow(rows[|rows| - 1], n)
  {
    if n > 0 {
      MonthsBelowAppend(rows, n - 1);
    }
  }

  lemma {:induction false} NoRowsNoTotal(n: nat)
    ensures MonthsBelow([], n) == 0
  {
    if n > 0 {
      NoRowsNoTotal(n - 1);
    }
  }

  /** With no row that throws, the twelve totals add up to the fees of the
      qualifying rows: nothing is lost and nothing counted twice. */
  lemma {:induction false} TotalsAddUp(rows: seq<RevenueRow>)
    requires FirstUnplaceable(rows) == |rows|
    ensures MonthsBelow(rows, 12) == QualifyingFees(rows)
  {
    if rows != [] {
      var init := rows[..|rows| - 1];
      var last := rows[|rows| - 1];
      assert forall j :: 0 <= j < |init| ==> init[j] == rows[j];
      assert forall j :: 0 <= j < |init| ==> !Unplaceable(init[j]);
      assert !Unplaceable(last);
      TotalsAddUp(init);
      MonthsBelowAppend(rows, 12);
      RowCountedOnce(last, 12);
    } else {
      NoRowsNoTotal(12);
    }
  }

  /** The bars of the chart after a complete aggregation add up to the fees of the
      qualifying rows. */
  lemma {:induction false} ChartTotal(rows: seq<RevenueRow>)
    requires FirstUnplaceable(rows) == |rows|
    ensures SeriesTotal(Aggregated(rows), 12) == QualifyingFees(rows)
  {
    BarsAreMonths(rows, 12);
    TotalsAddUp(rows);
  }

  /** The sum of the first n bars of a series. */
  function SeriesTotal(series: seq<Bucket>, n: nat): int
    requires n <= |series|
  {
    if n == 0 then 0 else SeriesTotal(series, n - 1) + series[n - 1].total
  }

  lemma {:induction false} BarsAreMonths(rows: seq<RevenueRow>, n: nat)
    requires n <= 12
    ensures SeriesTotal(Aggregated(rows), n) == MonthsBelow(rows, n)
  {
    if n > 0 {
      BarsAreMonths(rows, n - 1);
    }
  }

  /** The empty result shows the sample series, which is not the zero series: its
      first bar is 4000. A null result shows twelve zero bars. */
  lemma EmptyIsNotZero()
    ensures |SampleSeries| == 12 && SampleSeries[0].total == 4000
    ensures forall m :: 0 <= m < 12 ==> Aggregated([])[m].total == 0 && SampleSeries[m].name == MonthNames[m]
  {
  }
}
