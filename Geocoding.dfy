/** `load_data`: the sales rows are left-merged with the city table on (City, Country), and
    rows whose Latitude or Longitude is still missing are dropped. The net effect is an inner
    join with the city rows that carry both coordinates, which `InnerJoin` states directly. */
module Geocoding {
  import opened Seqs
  import opened Records

  /** A row of the left merge: the sales row and the coordinates it picked up. Both are missing
      when no city row matched. */
  datatype MergedRow = MergedRow(sale: SalesRow, latitude: Option<real>, longitude: Option<real>)

  /** The merge keys agree. */
  predicate SameKey(s: SalesRow, c: CityRow)
  {
    s.city == c.city && s.country == c.country
  }

  function KeyMask(s: SalesRow): CityRow -> bool
  {
    c => SameKey(s, c)
  }

  /** The city rows a sales row merges with, in city-table order. */
  function Matches(s: SalesRow, cities: seq<CityRow>): (m: seq<CityRow>)
    ensures forall c :: c in m <==> c in cities && SameKey(s, c)
  {
    Filter(cities, KeyMask(s))
  }

  /** One merged row per matching city row. */
  function Attach(s: SalesRow, m: seq<CityRow>): (r: seq<MergedRow>)
    ensures |r| == |m|
    ensures forall i :: 0 <= i < |m| ==> r[i] == MergedRow(s, m[i].lat, m[i].lng)
  {
    if m == [] then [] else [MergedRow(s, m[0].lat, m[0].lng)] + Attach(s, m[1..])
  }

  /** What `how="left"` makes of one sales row: the row once with missing coordinates when
      nothing matches, otherwise once per matching city row. */
  function MergeRow(s: SalesRow, cities: seq<CityRow>): (r: seq<MergedRow>)
    ensures |r| >= 1
    ensures forall i :: 0 <= i < |r| ==> r[i].sale == s
  {
    var m := Matches(s, cities);
    if m == [] then [MergedRow(s, None, None)] else Attach(s, m)
  }

  /** `sales_data.merge(world_cities, on=["City", "Country"], how="left")`. */
  function LeftMerge(sales: seq<SalesRow>, cities: seq<CityRow>): (r: seq<MergedRow>)
    ensures |r| >= |sales|
    ensures forall x :: x in r ==> x.sale in sales
  {
    if sales == [] then []
    else MergeRow(sales[0], cities) + LeftMerge(sales[1..], cities)
  }

  predicate HasCoordinates(m: MergedRow)
  {
    m.latitude.Some? && m.longitude.Some?
  }

  function ToRecord(m: MergedRow): Record
    requires HasCoordinates(m)
  {
    Record(m.sale.orderDate, m.sale.city, m.sale.country,
           m.latitude.value, m.longitude.value, m.sale.sales)
  }

  /** `dropna(subset=["Latitude", "Longitude"])`: only rows with both coordinates remain. */
  function DropMissing(rows: seq<MergedRow>): (r: seq<Record>)
    ensures |r| <= |rows|
  {
    if rows == [] then [] else Kept(rows[0]) + DropMissing(rows[1..])
  }

  /** `dropna` on one merged row keeps it, as a record, exactly when both coordinates are present. */
  lemma DropMissingOne(m: MergedRow)
    ensures DropMissing([m]) == if HasCoordinates(m) then [ToRecord(m)] else []
  {
    assert [m][1..] == [];
  }

  /** Every merged row with both coordinates is kept, as its record. */
  lemma {:induction false} DropMissingKeeps(rows: seq<MergedRow>, m: MergedRow)
    requires m in rows && HasCoordinates(m)
    ensures ToRecord(m) in DropMissing(rows)
  {
    if rows[0] != m {
      DropMissingKeeps(rows[1..], m);
    }
  }

  /** Every kept record comes from a merged row with both coordinates. */
  lemma {:induction false} DropMissingOnlyLocated(rows: seq<MergedRow>, x: Record)
    requires x in DropMissing(rows)
    ensures exists m :: m in rows && HasCoordinates(m) && ToRecord(m) == x
  {
    if x !in Kept(rows[0]) {
      DropMissingOnlyLocated(rows[1..], x);
      var m :| m in rows[1..] && HasCoordinates(m) && ToRecord(m) == x;
      assert m in rows;
    }
  }

  /** The record a merged row leaves after `dropna`: none, or one. */
  function Kept(m: MergedRow): seq<Record>
  {
    if HasCoordinates(m) then [ToRecord(m)] else []
  }

  /** `load_data()` on already-parsed files: the inner join with the located city rows. */
  function LoadData(sales: seq<SalesRow>, cities: seq<CityRow>): (r: seq<Record>)
    ensures r == InnerJoin(sales, cities)
  {
    LoadDataIsInnerJoin(sales, cities);
    DropMissing(LeftMerge(sales, cities))
  }

  // ---------------------------------------------------------------------------------------
  // The inner join that `load_data` amounts to, written independently of the merge.

  predicate Located(c: CityRow)
  {
    c.lat.Some? && c.lng.Some?
  }

  /** The city rows a sales row joins with: same key and both coordinates present. */
  function UsableMatches(s: SalesRow, cities: seq<CityRow>): (m: seq<CityRow>)
    ensures forall c :: c in m <==> c in cities && SameKey(s, c) && Located(c)
  {
    Filter(Matches(s, cities), Located)
  }

  function Joined(s: SalesRow, c: CityRow): Record
    requires Located(c)
  {
    Record(s.orderDate, s.city, s.country, c.lat.value, c.lng.value, s.sales)
  }

  /** The joined record for each city row of `m`, in order. */
  function JoinAll(s: SalesRow, m: seq<CityRow>): (r: seq<Record>)
    requires forall c :: c in m ==> Located(c)
    ensures |r| == |m|
    ensures forall i :: 0 <= i < |m| ==> r[i] == Joined(s, m[i])
  {
    if m == [] then [] else [Joined(s, m[0])] + JoinAll(s, m[1..])
  }

  /** For each sales row in turn, one record per usable matching city row. */
  function InnerJoin(sales: seq<SalesRow>, cities: seq<CityRow>): seq<Record>
  {
    if sales == [] then []
    else JoinAll(sales[0], UsableMatches(sales[0], cities)) + InnerJoin(sales[1..], cities)
  }

  // ---------------------------------------------------------------------------------------
  // Lemmas

  lemma {:induction false} DropMissingConcat(a: seq<MergedRow>, b: seq<MergedRow>)
    ensures DropMissing(a + b) == DropMissing(a) + DropMissing(b)
  {
    if a == [] {
      assert a + b == b;
    } else {
      assert (a + b)[1..] == a[1..] + b;
      DropMissingConcat(a[1..], b);
      calc {
        DropMissing(a + b);
        Kept(a[0]) + DropMissing(a[1..] + b);
        Kept(a[0]) + (DropMissing(a[1..]) + DropMissing(b));
        (Kept(a[0]) + DropMissing(a[1..])) + DropMissing(b);
      }
    }
  }

  /** Dropping the rows without coordinates from the merged rows of `m` leaves exactly the
      joined records of the city rows of `m` that are located. */
  lemma {:induction false} DropAttached(s: SalesRow, m: seq<CityRow>)
    ensures DropMissing(Attach(s, m)) == JoinAll(s, Filter(m, Located))
  {
    if m != [] {
      DropAttached(s, m[1..]);
      assert Attach(s, m) == [MergedRow(s, m[0].lat, m[0].lng)] + Attach(s, m[1..]);
      DropMissingConcat([MergedRow(s, m[0].lat, m[0].lng)], Attach(s, m[1..]));
      var rest := Filter(m[1..], Located);
      if Located(m[0]) {
        assert Filter(m, Located) == [m[0]] + rest;
        assert JoinAll(s, [m[0]] + rest) == [Joined(s, m[0])] + JoinAll(s, rest) by {
          assert ([m[0]] + rest)[1..] == rest;
        }
      } else {
        assert Filter(m, Located) == rest;
      }
    }
  }

  /** After dropping missing coordinates, one sales row yields exactly its inner-join records. */
  lemma MergeRowDropped(s: SalesRow, cities: seq<CityRow>)
    ensures DropMissing(MergeRow(s, cities)) == JoinAll(s, UsableMatches(s, cities))
  {
    var m := Matches(s, cities);
    if m == [] {
      assert DropMissing([MergedRow(s, None, None)]) == [];
      assert Filter(m, Located) == [];
    } else {
      DropAttached(s, m);
    }
  }

  /** The merge-then-drop pipeline of `load_data` is the inner join. */
  lemma {:induction false} LoadDataIsInnerJoin(sales: seq<SalesRow>, cities: seq<CityRow>)
    ensures DropMissing(LeftMerge(sales, cities)) == InnerJoin(sales, cities)
  {
    if sales != [] {
      LoadDataIsInnerJoin(sales[1..], cities);
      DropMissingConcat(MergeRow(sales[0], cities), LeftMerge(sales[1..], cities));
      MergeRowDropped(sales[0], cities);
    }
  }

  lemma {:induction false} LeftMergeConcat(a: seq<SalesRow>, b: seq<SalesRow>, cities: seq<CityRow>)
    ensures LeftMerge(a + b, cities) == LeftMerge(a, cities) + LeftMerge(b, cities)
  {
    if a == [] {
      assert a + b == b;
    } else {
      assert (a + b)[1..] == a[1..] + b;
      LeftMergeConcat(a[1..], b, cities);
    }
  }

  /** Loading keeps sales-row order: the rows of `a` come before the rows of `b`. */
  lemma LoadDataConcat(a: seq<SalesRow>, b: seq<SalesRow>, cities: seq<CityRow>)
    ensures LoadData(a + b, cities) == LoadData(a, cities) + LoadData(b, cities)
  {
    LeftMergeConcat(a, b, cities);
    DropMissingConcat(LeftMerge(a, cities), LeftMerge(b, cities));
  }

  /** A single sales row that matches k located city rows yields exactly k records, the i-th
      carrying the coordinates of the i-th such city row; an unmatched row yields none. */
  lemma LoadOneRow(s: SalesRow, cities: seq<CityRow>)
    ensures |LoadData([s], cities)| == |UsableMatches(s, cities)|
    ensures forall i :: 0 <= i < |UsableMatches(s, cities)| ==>
      LoadData([s], cities)[i] == Joined(s, UsableMatches(s, cities)[i])
    ensures (forall c :: c in cities ==> !SameKey(s, c)) ==> LoadData([s], cities) == []
  {
    LoadDataIsInnerJoin([s], cities);
    assert [s][1..] == [];
    var u := UsableMatches(s, cities);
    assert InnerJoin([s], cities) == JoinAll(s, u) + [];
    if u != [] {
      assert u[0] in u;
    }
  }

  /** Every loaded record comes from a sales row and a city row with the same key and both
      coordinates, and carries that city row's coordinates and the sales row's fields. */
  lemma {:induction false} LoadedRowsAreMatched(sales: seq<SalesRow>, cities: seq<CityRow>, r: Record)
    requires r in LoadData(sales, cities)
    ensures exists s, c :: s in sales && c in cities && SameKey(s, c) && Located(c) && r == Joined(s, c)
  {
    LoadDataIsInnerJoin(sales, cities);
    InnerJoinMatched(sales, cities, r);
  }

  lemma {:induction false} InnerJoinMatched(sales: seq<SalesRow>, cities: seq<CityRow>, r: Record)
    requires r in InnerJoin(sales, cities)
    ensures exists s, c :: s in sales && c in cities && SameKey(s, c) && Located(c) && r == Joined(s, c)
  {
    var u := UsableMatches(sales[0], cities);
    if r in JoinAll(sales[0], u) {
      var i :| 0 <= i < |u| && JoinAll(sales[0], u)[i] == r;
      assert u[i] in u;
      assert sales[0] in sales;
    } else {
      InnerJoinMatched(sales[1..], cities, r);
      var s, c :| s in sales[1..] && c in cities && SameKey(s, c) && Located(c) && r == Joined(s, c);
      assert s in sales;
    }
  }

  /** Conversely, every same-key pair of a sales row and a located city row is loaded. */
  lemma {:induction false} LoadedRowsAreComplete(sales: seq<SalesRow>, cities: seq<CityRow>, s: SalesRow, c: CityRow)
    requires s in sales && c in cities && SameKey(s, c) && Located(c)
    ensures Joined(s, c) in LoadData(sales, cities)
  {
    InnerJoinComplete(sales, cities, s, c);
  }

  lemma {:induction false} InnerJoinComplete(sales: seq<SalesRow>, cities: seq<CityRow>, s: SalesRow, c: CityRow)
    requires s in sales && c in cities && SameKey(s, c) && Located(c)
    ensures Joined(s, c) in InnerJoin(sales, cities)
  {
    if s == sales[0] {
      var u := UsableMatches(s, cities);
      var i :| 0 <= i < |u| && u[i] == c;
      assert JoinAll(s, u)[i] == Joined(s, c);
    } else {
      InnerJoinComplete(sales[1..], cities, s, c);
    }
  }
}
