/** One run of the dashboard script after the widgets have been read: load, filter, then
    derive the metrics, the heat-map points and the top-ten table from the filtered rows. */
module Dashboard {
  import opened Seqs
  import opened Records
  import opened Geocoding
  import opened Filters
  import opened Countries
  import opened Metrics
  import opened Ranking

  /** Everything the page shows that the script computes. `centre` is `None` when there is
      nothing to centre the map on. */
  datatype View = View(filtered: seq<Record>, metrics: MetricSet, centre: Option<(real, real)>,
                       heat: seq<HeatPoint>, top: seq<Marker>)

  /** The page for the given widget values, with the map left without a centre when no row
      qualifies. */
  function Render(data: seq<Record>, start: int, end: int, selected: seq<string>): View
  {
    var filtered := ApplyFilters(data, start, end, selected);
    View(filtered, ComputeMetrics(filtered), MapCentre(filtered), HeatPoints(filtered), TopCities(filtered))
  }

  /** The whole script as written, from the two parsed files and the widget values. With no
      loaded row, the default dates' `min` raises before anything is shown; otherwise the
      script either stops after the metrics, when no loaded row qualifies, or shows the page. */
  function Run(sales: seq<SalesRow>, cities: seq<CityRow>, start: int, end: int, selected: seq<string>): (o: Outcome)
    ensures o.NoDates? <==> InnerJoin(sales, cities) == []
    ensures o.Stopped? <==> InnerJoin(sales, cities) != [] && ApplyFilters(InnerJoin(sales, cities), start, end, selected) == []
    ensures o.Stopped? ==> o.metrics == MetricSet(0.0, 0)
    ensures o.Shown? ==> o.view == IntendedRun(sales, cities, start, end, selected)
  {
    var data := LoadData(sales, cities);
    if DefaultDateRange(data).None? then NoDates else ScriptAsWritten(data, start, end, selected)
  }

  /** The evidently intended script: load, then always render the page, empty or not. */
  function IntendedRun(sales: seq<SalesRow>, cities: seq<CityRow>, start: int, end: int, selected: seq<string>): (v: View)
    ensures v.filtered == ApplyFilters(InnerJoin(sales, cities), start, end, selected)
    ensures v.centre.None? <==> v.filtered == []
  {
    Render(LoadData(sales, cities), start, end, selected)
  }

  /** An inverted date range stops the whole script as written after the metrics when some row
      is loaded (and at the default dates when none is), where the intended script shows the
      empty page. */
  lemma RunInvertedRange(sales: seq<SalesRow>, cities: seq<CityRow>, start: int, end: int, selected: seq<string>)
    requires end < start
    ensures Run(sales, cities, start, end, selected)
            == if InnerJoin(sales, cities) == [] then NoDates else Stopped(MetricSet(0.0, 0))
    ensures IntendedRun(sales, cities, start, end, selected) == View([], MetricSet(0.0, 0), None, [], [])
  {
    if InnerJoin(sales, cities) != [] {
      InvertedRangeStopsScript(LoadData(sales, cities), start, end, selected);
    }
    EmptyResult(LoadData(sales, cities), start, end, selected);
  }

  /** Two files with no located same-key match load no row, so the script as written stops at
      the default dates, whatever the widgets say. */
  lemma UnmatchedFilesStopAtDates(sales: seq<SalesRow>, cities: seq<CityRow>, start: int, end: int, selected: seq<string>)
    requires forall s, c :: s in sales && c in cities && SameKey(s, c) ==> !Located(c)
    ensures Run(sales, cities, start, end, selected) == NoDates
  {
    var data := LoadData(sales, cities);
    if data != [] {
      LoadedRowsAreMatched(sales, cities, data[0]);
      assert false;
    }
  }

  /** The figures agree with each other: one heat point per counted transaction, heat weights
      summing to the total sales, and at most ten top rows. */
  lemma RenderConsistent(data: seq<Record>, start: int, end: int, selected: seq<string>)
    ensures var v := Render(data, start, end, selected);
      && v.metrics.transactions == |v.filtered| == |v.heat|
      && (v.centre.None? <==> v.filtered == [])
      && WeightSum(v.heat) == v.metrics.totalSales
      && |v.top| == Min(TopCount, |v.filtered|)
  {
    HeatWeightsSumToTotal(ApplyFilters(data, start, end, selected));
  }

  /** What the page evidently should show when no row qualifies: zero metrics, no map centre,
      no heat points and an empty table. The script as written stops before the map instead
      (`ScriptAsWritten`). */
  lemma EmptyResult(data: seq<Record>, start: int, end: int, selected: seq<string>)
    requires forall x :: x in data ==> !Keeps(x, start, end, selected)
    ensures Render(data, start, end, selected) == View([], MetricSet(0.0, 0), None, [], [])
  {
  }

  /** The map centre of a page lies in every latitude/longitude box that holds all its rows. */
  lemma RenderCentreWithin(data: seq<Record>, start: int, end: int, selected: seq<string>,
                           south: real, north: real, west: real, east: real)
    requires forall x :: x in data ==> south <= x.latitude <= north && west <= x.longitude <= east
    requires exists x :: x in data && Keeps(x, start, end, selected)
    ensures Render(data, start, end, selected).centre.Some?
    ensures south <= Render(data, start, end, selected).centre.value.0 <= north
    ensures west <= Render(data, start, end, selected).centre.value.1 <= east
  {
    var filtered := ApplyFilters(data, start, end, selected);
    var x :| x in data && Keeps(x, start, end, selected);
    assert x in filtered;
    MapCentreWithin(filtered, south, north, west, east);
  }

  /** How one run of the script as written ends: it stops at the date widgets because `min` of
      an empty column raises (`NoDates`), it stops after the metrics because `folium.Map`
      rejects the NaN centre of an empty selection (`Stopped`), or the whole page is shown. */
  datatype Outcome = NoDates | Stopped(metrics: MetricSet) | Shown(view: View)

  /** The script as written from the filters on, once the widgets have values: the metrics are
      displayed, then the map is built from the centre, which raises when there is none, so the
      heat points and the table are never reached. */
  function ScriptAsWritten(data: seq<Record>, start: int, end: int, selected: seq<string>): (o: Outcome)
    ensures o.Stopped? <==> ApplyFilters(data, start, end, selected) == []
    ensures o.Shown? ==> o.view == Render(data, start, end, selected)
    ensures o.Stopped? ==> o.metrics == MetricSet(0.0, 0)
    ensures !o.NoDates?
  {
    var v := Render(data, start, end, selected);
    if v.centre.None? then Stopped(v.metrics) else Shown(v)
  }

  /** When no row qualifies, the script as written shows zero metrics and then stops. */
  lemma EmptyFilterStopsScript(data: seq<Record>, start: int, end: int, selected: seq<string>)
    requires forall x :: x in data ==> !Keeps(x, start, end, selected)
    ensures ScriptAsWritten(data, start, end, selected) == Stopped(MetricSet(0.0, 0))
  {
    EmptyResult(data, start, end, selected);
  }

  /** A start date after the end date is one widget setting that stops the script as written,
      whatever the data and the selection. */
  lemma InvertedRangeStopsScript(data: seq<Record>, start: int, end: int, selected: seq<string>)
    requires end < start
    ensures ScriptAsWritten(data, start, end, selected) == Stopped(MetricSet(0.0, 0))
  {
    EmptyFilterStopsScript(data, start, end, selected);
  }

  /** With the widgets' default dates and no country selected, every row is shown. */
  lemma DefaultDatesKeepAll(data: seq<Record>, lo: int, hi: int)
    requires DefaultDateRange(data) == Some((lo, hi))
    ensures ApplyFilters(data, lo, hi, []) == data
  {
    NoOpFilter(data, lo, hi);
  }

  /** With the widgets' default dates and default countries, exactly the rows of the first
      five countries (in ascending order) are shown, in input order. */
  lemma DefaultView(data: seq<Record>, lo: int, hi: int)
    requires DefaultDateRange(data) == Some((lo, hi))
    ensures ApplyFilters(data, lo, hi, DefaultCountries(data)) == CountryFilter(data, DefaultCountries(data))
  {
    assert data[0] in data;
    assert |AllCountries(data)| > 0;
    FilterAll(data, DateMask(lo, hi));
  }

  /** Two French rows, both selected; the single largest sale is the Paris one. */
  lemma ParisLyonExample()
    ensures var paris := Record(0, "Paris", "France", 48.85, 2.35, 100.0);
      var lyon := Record(0, "Lyon", "France", 45.76, 4.83, 50.0);
      && ApplyFilters([paris, lyon], 0, 0, ["France"]) == [paris, lyon]
      && Top([paris, lyon], 1) == [paris]
  {
    var paris := Record(0, "Paris", "France", 48.85, 2.35, 100.0);
    var lyon := Record(0, "Lyon", "France", 45.76, 4.83, 50.0);
    FilterOne(paris, 0, 0, ["France"]);
    FilterOne(lyon, 0, 0, ["France"]);
    FilterOrder([paris], [lyon], 0, 0, ["France"]);
    assert [paris] + [lyon] == [paris, lyon];
    assert [paris, lyon][1..] == [lyon];
    assert SortBySales([lyon]) == [lyon];
  }
}
