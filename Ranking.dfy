/** `filtered_data.nlargest(10, 'Sales')`: the ten individual records with the largest sales,
    largest first; among equal sales the earlier record wins (`keep='first'`). The ranking is
    over records, not over cities summed per city. */
module Ranking {
  import opened Seqs
  import opened Records

  const TopCount: nat := 10

  /** Non-increasing by sales. */
  predicate Descending(s: seq<Record>)
  {
    forall i, j :: 0 <= i < j < |s| ==> s[i].sales >= s[j].sales
  }

  /** Insertion of `x` before the first record whose sales do not exceed its own, so that `x`
      goes ahead of every record it ties with. */
  function InsertBySales(x: Record, s: seq<Record>): (r: seq<Record>)
    ensures |r| == |s| + 1
    ensures multiset(r) == multiset(s) + multiset{x}
  {
    if s == [] then [x]
    else if s[0].sales <= x.sales then [x] + s
    else
      assert s == [s[0]] + s[1..];
      [s[0]] + InsertBySales(x, s[1..])
  }

  /** Stable sort by sales, largest first. */
  function SortBySales(s: seq<Record>): (r: seq<Record>)
    ensures |r| == |s|
    ensures multiset(r) == multiset(s)
  {
    if s == [] then []
    else
      assert s == [s[0]] + s[1..];
      InsertBySales(s[0], SortBySales(s[1..]))
  }

  /** The `n` records with the largest sales, largest first; `nlargest(n, 'Sales')`. */
  function Top(rows: seq<Record>, n: nat): (t: seq<Record>)
    ensures |t| == Min(n, |rows|)
  {
    Take(SortBySales(rows), n)
  }

  /** The records with sales exactly `v`, in their order. */
  function SalesMask(v: real): Record -> bool
  {
    (x: Record) => x.sales == v
  }

  lemma {:induction false} InsertDescending(x: Record, s: seq<Record>)
    requires Descending(s)
    ensures Descending(InsertBySales(x, s))
  {
    if s != [] && s[0].sales > x.sales {
      InsertDescending(x, s[1..]);
      var r := InsertBySales(x, s[1..]);
      forall y | y in r
        ensures y.sales <= s[0].sales
      {
        assert y in multiset(r);
        if y != x {
          assert y in s[1..];
        }
      }
      forall i, j | 0 <= i < j < |[s[0]] + r|
        ensures ([s[0]] + r)[i].sales >= ([s[0]] + r)[j].sales
      {
        assert ([s[0]] + r)[j] == r[j - 1];
        assert r[j - 1] in r;
        if i > 0 {
          assert ([s[0]] + r)[i] == r[i - 1];
        }
      }
    }
  }

  lemma {:induction false} SortDescending(s: seq<Record>)
    ensures Descending(SortBySales(s))
  {
    if s != [] {
      SortDescending(s[1..]);
      InsertDescending(s[0], SortBySales(s[1..]));
    }
  }

  /** Inserting keeps the relative order of the records of each sales value: `x` goes ahead
      of all records it ties with. */
  lemma {:induction false} InsertStable(x: Record, s: seq<Record>, v: real)
    ensures Filter(InsertBySales(x, s), SalesMask(v)) == Filter([x] + s, SalesMask(v))
  {
    var p := SalesMask(v);
    if s == [] {
      assert [x] + s == [x];
    } else if s[0].sales > x.sales {
      var s0, tail := s[0], s[1..];
      var r := InsertBySales(x, tail);
      InsertStable(x, tail, v);
      assert InsertBySales(x, s) == [s0] + r;
      assert s == [s0] + tail;
      if p(x) {
        FilterConsDropped(s0, r, p);
        FilterConsKept(x, tail, p);
        FilterConsKept(x, s, p);
        FilterConsDropped(s0, tail, p);
      } else if p(s0) {
        FilterConsKept(s0, r, p);
        FilterConsDropped(x, tail, p);
        FilterConsDropped(x, s, p);
        FilterConsKept(s0, tail, p);
      } else {
        FilterConsDropped(s0, r, p);
        FilterConsDropped(x, tail, p);
        FilterConsDropped(x, s, p);
        FilterConsDropped(s0, tail, p);
      }
    }
  }

  /** The sort is stable: for every sales value, the records with that value appear in the
      sorted output exactly as, and in the order in which, they appear in the input. */
  lemma {:induction false} SortStable(s: seq<Record>, v: real)
    ensures Filter(SortBySales(s), SalesMask(v)) == Filter(s, SalesMask(v))
  {
    if s != [] {
      SortStable(s[1..], v);
      InsertStable(s[0], SortBySales(s[1..]), v);
      FilterConcat([s[0]], SortBySales(s[1..]), SalesMask(v));
      FilterConcat([s[0]], s[1..], SalesMask(v));
      assert [s[0]] + s[1..] == s;
    }
  }

  /** Length, membership and order of the top `n`: min(n, |rows|) records of the input, each
      as often as at most it occurs there, largest sales first. */
  lemma TopSpec(rows: seq<Record>, n: nat)
    ensures |Top(rows, n)| == Min(n, |rows|)
    ensures multiset(Top(rows, n)) <= multiset(rows)
    ensures forall x :: x in Top(rows, n) ==> x in rows
    ensures Descending(Top(rows, n))
  {
    var sorted := SortBySales(rows);
    var top := Top(rows, n);
    assert sorted == top + sorted[|top|..];
    SortDescending(rows);
    forall i, j | 0 <= i < j < |top|
      ensures top[i].sales >= top[j].sales
    {
      assert top[i] == sorted[i] && top[j] == sorted[j];
    }
    assert multiset(sorted) == multiset(top) + multiset(sorted[|top|..]);
    forall x | x in top
      ensures x in rows
    {
      assert multiset(top)[x] > 0;
      assert multiset(rows)[x] > 0;
    }
  }

  /** Every record left out of the top `n` sells no more than the last one shown. */
  lemma TopLeftOut(rows: seq<Record>, n: nat, x: Record)
    requires |Top(rows, n)| > 0
    requires multiset(rows)[x] > multiset(Top(rows, n))[x]
    ensures x.sales <= Top(rows, n)[|Top(rows, n)| - 1].sales
  {
    var sorted := SortBySales(rows);
    var top := Top(rows, n);
    var rest := sorted[|top|..];
    assert sorted == top + rest;
    SortDescending(rows);
    assert multiset(sorted) == multiset(top) + multiset(rest);
    assert x in multiset(rest);
    var k :| 0 <= k < |rest| && rest[k] == x;
    assert sorted[|top| + k] == x;
    assert sorted[|top| - 1] == top[|top| - 1];
  }

  /** Ties go to earlier records: among the records of any one sales value, those in the top
      `n` are the earliest ones of the input, in input order. */
  lemma TopTiesFavourEarlier(rows: seq<Record>, n: nat, v: real)
    ensures Filter(Top(rows, n), SalesMask(v)) <= Filter(rows, SalesMask(v))
  {
    FilterPrefix(Top(rows, n), SortBySales(rows), SalesMask(v));
    SortStable(rows, v);
  }

  /** One row of the marker overlay and the "Top 10" table: City, Country, Latitude,
      Longitude and Sales of a top record. */
  datatype Marker = Marker(city: string, country: string, latitude: real, longitude: real, sales: real)

  function ToMarker(x: Record): Marker
  {
    Marker(x.city, x.country, x.latitude, x.longitude, x.sales)
  }

  /** `top_cities`: the top ten records, with the columns the dashboard shows. */
  function TopCities(rows: seq<Record>): (r: seq<Marker>)
    ensures |r| == Min(TopCount, |rows|)
    ensures forall i :: 0 <= i < |r| ==> r[i] == ToMarker(Top(rows, TopCount)[i])
  {
    var top := Top(rows, TopCount);
    seq(|top|, i requires 0 <= i < |top| => ToMarker(top[i]))
  }
}
