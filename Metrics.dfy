/** What the dashboard computes from the filtered rows: the two metric figures, the map centre
    and the heat-map points. */
module Metrics {
  import opened Records

  /** The sum of one numeric column of the rows: zero for no rows. */
  function ColumnSum(rows: seq<Record>, col: Record -> real): (total: real)
    ensures rows == [] ==> total == 0.0
  {
    if rows == [] then 0.0 else col(rows[0]) + ColumnSum(rows[1..], col)
  }

  /** A column that is never negative has a non-negative sum. */
  lemma {:induction false} ColumnSumNonNegative(rows: seq<Record>, col: Record -> real)
    ensures (forall x :: x in rows ==> col(x) >= 0.0) ==> ColumnSum(rows, col) >= 0.0
  {
    if rows != [] {
      assert forall x :: x in rows[1..] ==> x in rows;
      ColumnSumNonNegative(rows[1..], col);
      assert rows[0] in rows;
    }
  }

  /** The sum of a concatenation is the sum of the sums. */
  lemma {:induction false} ColumnSumConcat(a: seq<Record>, b: seq<Record>, col: Record -> real)
    ensures ColumnSum(a + b, col) == ColumnSum(a, col) + ColumnSum(b, col)
  {
    if a == [] {
      assert a + b == b;
    } else {
      assert (a + b)[1..] == a[1..] + b;
      ColumnSumConcat(a[1..], b, col);
    }
  }

  /** A column that is nowhere larger than another has no larger sum. */
  lemma {:induction false} ColumnSumMonotone(rows: seq<Record>, f: Record -> real, g: Record -> real)
    requires forall x :: x in rows ==> f(x) <= g(x)
    ensures ColumnSum(rows, f) <= ColumnSum(rows, g)
  {
    if rows != [] {
      assert rows[0] in rows;
      assert forall x :: x in rows[1..] ==> x in rows;
      ColumnSumMonotone(rows[1..], f, g);
    }
  }

  function Constant(c: real): Record -> real
  {
    (x: Record) => c
  }

  /** A column holding `c` on every row sums to n * c. */
  lemma {:induction false} ConstantSum(rows: seq<Record>, c: real)
    ensures ColumnSum(rows, Constant(c)) == c * (|rows| as real)
  {
    if rows != [] {
      ConstantSum(rows[1..], c);
      var k := |rows[1..]| as real;
      assert |rows| as real == k + 1.0;
      assert c * (k + 1.0) == c * k + c;
    }
  }

  function SalesOf(x: Record): real { x.sales }
  function LatitudeOf(x: Record): real { x.latitude }
  function LongitudeOf(x: Record): real { x.longitude }

  /** `filtered_data['Sales'].sum()`: zero for no rows. */
  function TotalSales(rows: seq<Record>): (total: real)
    ensures rows == [] ==> total == 0.0
    ensures (forall x :: x in rows ==> x.sales >= 0.0) ==> total >= 0.0
  {
    ColumnSumNonNegative(rows, SalesOf);
    ColumnSum(rows, SalesOf)
  }

  /** The total of a concatenation is the sum of the totals. */
  lemma TotalSalesConcat(a: seq<Record>, b: seq<Record>)
    ensures TotalSales(a + b) == TotalSales(a) + TotalSales(b)
  {
    ColumnSumConcat(a, b, SalesOf);
  }

  /** The sales of one row is its total. */
  lemma TotalSalesOne(x: Record)
    ensures TotalSales([x]) == x.sales
  {
  }

  /** `frame[column].mean()` of a non-empty frame. */
  function Mean(rows: seq<Record>, col: Record -> real): real
    requires rows != []
  {
    ColumnSum(rows, col) / (|rows| as real)
  }

  /** The mean of a column lies between its least and its largest value. */
  lemma MeanWithin(rows: seq<Record>, col: Record -> real, lo: real, hi: real)
    requires rows != []
    requires forall x :: x in rows ==> lo <= col(x) <= hi
    ensures lo <= Mean(rows, col) <= hi
  {
    ColumnSumMonotone(rows, Constant(lo), col);
    ColumnSumMonotone(rows, col, Constant(hi));
    ConstantSum(rows, lo);
    ConstantSum(rows, hi);
    DivideBounds(ColumnSum(rows, col), |rows| as real, lo, hi);
  }

  lemma DivideBounds(total: real, n: real, lo: real, hi: real)
    requires n > 0.0 && lo * n <= total <= hi * n
    ensures lo <= total / n <= hi
  {
  }

  /** `map_center`: the mean latitude and the mean longitude of the rows. pandas' `mean` of an
      empty column is NaN, so there is no centre for no rows. */
  function MapCentre(rows: seq<Record>): (c: Option<(real, real)>)
    ensures c.None? <==> rows == []
  {
    if rows == [] then None else Some((Mean(rows, LatitudeOf), Mean(rows, LongitudeOf)))
  }

  /** The map centre lies in every latitude/longitude box that holds all the rows. */
  lemma MapCentreWithin(rows: seq<Record>, south: real, north: real, west: real, east: real)
    requires rows != []
    requires forall x :: x in rows ==> south <= x.latitude <= north && west <= x.longitude <= east
    ensures MapCentre(rows).Some?
    ensures south <= MapCentre(rows).value.0 <= north
    ensures west <= MapCentre(rows).value.1 <= east
  {
    MeanWithin(rows, LatitudeOf, south, north);
    MeanWithin(rows, LongitudeOf, west, east);
  }

  datatype MetricSet = MetricSet(totalSales: real, transactions: nat)

  /** The "Total Sales" and "Total Transactions" figures (before their string formatting). */
  function ComputeMetrics(rows: seq<Record>): (m: MetricSet)
    ensures m.totalSales == TotalSales(rows)
    ensures m.transactions == |rows|
    ensures rows == [] ==> m == MetricSet(0.0, 0)
  {
    MetricSet(TotalSales(rows), |rows|)
  }

  /** Metrics of a concatenation add up. */
  lemma MetricsConcat(a: seq<Record>, b: seq<Record>)
    ensures ComputeMetrics(a + b).totalSales == ComputeMetrics(a).totalSales + ComputeMetrics(b).totalSales
    ensures ComputeMetrics(a + b).transactions == ComputeMetrics(a).transactions + ComputeMetrics(b).transactions
  {
    TotalSalesConcat(a, b);
  }

  /** One `[Latitude, Longitude, Sales]` entry of `heat_data`. */
  datatype HeatPoint = HeatPoint(lat: real, lon: real, weight: real)

  /** `filtered_data[['Latitude', 'Longitude', 'Sales']].values.tolist()`. */
  function HeatPoints(rows: seq<Record>): (h: seq<HeatPoint>)
    ensures |h| == |rows|
    ensures forall i :: 0 <= i < |rows| ==>
      h[i] == HeatPoint(rows[i].latitude, rows[i].longitude, rows[i].sales)
  {
    if rows == [] then []
    else [HeatPoint(rows[0].latitude, rows[0].longitude, rows[0].sales)] + HeatPoints(rows[1..])
  }

  /** The heat points carry the whole sales total as their weights. */
  lemma {:induction false} HeatWeightsSumToTotal(rows: seq<Record>)
    ensures WeightSum(HeatPoints(rows)) == TotalSales(rows)
  {
    if rows != [] {
      HeatWeightsSumToTotal(rows[1..]);
      assert HeatPoints(rows)[1..] == HeatPoints(rows[1..]);
    }
  }

  function WeightSum(h: seq<HeatPoint>): real
  {
    if h == [] then 0.0 else h[0].weight + WeightSum(h[1..])
  }
}
