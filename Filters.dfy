/** The sidebar filters: the date widgets' defaults, an inclusive order-date range, then country
    membership when at least one country is selected. */
module Filters {
  import opened Seqs
  import opened Records

  /** The (start, end) pair the date widgets show first: the earliest and the latest order
      date. Python's `min` and `max` raise on empty data, which is `None` here. */
  function DefaultDateRange(data: seq<Record>): (r: Option<(int, int)>)
    ensures r.None? <==> data == []
    ensures r.Some? ==> forall x :: x in data ==> r.value.0 <= x.orderDate <= r.value.1
    ensures r.Some? ==> exists x :: x in data && x.orderDate == r.value.0
    ensures r.Some? ==> exists x :: x in data && x.orderDate == r.value.1
  {
    if data == [] then None
    else
      var first := data[0].orderDate;
      match DefaultDateRange(data[1..])
      case None => Some((first, first))
      case Some((lo, hi)) =>
        assert forall x :: x in data[1..] ==> x in data;
        Some((if first <= lo then first else lo, if first >= hi then first else hi))
  }

  predicate InDateRange(r: Record, start: int, end: int)
  {
    start <= r.orderDate <= end
  }

  function DateMask(start: int, end: int): Record -> bool
  {
    (r: Record) => InDateRange(r, start, end)
  }

  function CountryMask(selected: seq<string>): Record -> bool
  {
    (r: Record) => r.country in selected
  }

  /** `data[(data["Order Date"] >= start) & (data["Order Date"] <= end)]`. */
  function DateFilter(data: seq<Record>, start: int, end: int): (r: seq<Record>)
    ensures forall x :: x in r <==> x in data && start <= x.orderDate <= end
  {
    Filter(data, DateMask(start, end))
  }

  /** `frame[frame["Country"].isin(selected)]`. */
  function CountryFilter(data: seq<Record>, selected: seq<string>): (r: seq<Record>)
    ensures forall x :: x in r <==> x in data && x.country in selected
  {
    Filter(data, CountryMask(selected))
  }

  /** Whether a record survives the filters: the date range always applies, the country
      selection only when it is non-empty. */
  predicate Keeps(r: Record, start: int, end: int, selected: seq<string>)
  {
    InDateRange(r, start, end) && (|selected| == 0 || r.country in selected)
  }

  function KeepMask(start: int, end: int, selected: seq<string>): Record -> bool
  {
    (r: Record) => Keeps(r, start, end, selected)
  }

  /** The filtered rows the dashboard shows. */
  function ApplyFilters(data: seq<Record>, start: int, end: int, selected: seq<string>): (r: seq<Record>)
    ensures forall x :: x in r ==> start <= x.orderDate <= end
    ensures |selected| > 0 ==> forall x :: x in r ==> x.country in selected
    ensures forall x :: x in data && Keeps(x, start, end, selected) ==> x in r
  {
    var byDate := DateFilter(data, start, end);
    if |selected| > 0 then CountryFilter(byDate, selected) else byDate
  }

  /** The two-step filter is one selection with the conjunctive mask: the result is exactly the
      subsequence of qualifying records, in input order. */
  lemma {:induction false} ApplyFiltersIsOneMask(data: seq<Record>, start: int, end: int, selected: seq<string>)
    ensures ApplyFilters(data, start, end, selected) == Filter(data, KeepMask(start, end, selected))
  {
    if data != [] {
      ApplyFiltersIsOneMask(data[1..], start, end, selected);
      var x := data[0];
      if |selected| > 0 {
        var d := Filter(data[1..], DateMask(start, end));
        if InDateRange(x, start, end) {
          assert DateFilter(data, start, end) == [x] + d;
          FilterConcat([x], d, CountryMask(selected));
        } else {
          assert DateFilter(data, start, end) == d;
        }
      }
    }
  }

  /** Filtering never reorders: the kept rows of `a` come first, then those of `b`. */
  lemma FilterOrder(a: seq<Record>, b: seq<Record>, start: int, end: int, selected: seq<string>)
    ensures ApplyFilters(a + b, start, end, selected)
         == ApplyFilters(a, start, end, selected) + ApplyFilters(b, start, end, selected)
  {
    ApplyFiltersIsOneMask(a + b, start, end, selected);
    ApplyFiltersIsOneMask(a, start, end, selected);
    ApplyFiltersIsOneMask(b, start, end, selected);
    FilterConcat(a, b, KeepMask(start, end, selected));
  }

  /** A single record is kept exactly when it qualifies. Together with `FilterOrder` this pins
      down the result for every input. */
  lemma FilterOne(x: Record, start: int, end: int, selected: seq<string>)
    ensures ApplyFilters([x], start, end, selected)
         == if Keeps(x, start, end, selected) then [x] else []
  {
    ApplyFiltersIsOneMask([x], start, end, selected);
    assert [x][1..] == [];
  }

  /** Each qualifying record is kept as often as it occurs, and no other record is kept. */
  lemma FilterCounts(data: seq<Record>, start: int, end: int, selected: seq<string>, x: Record)
    ensures multiset(ApplyFilters(data, start, end, selected))[x]
         == if Keeps(x, start, end, selected) then multiset(data)[x] else 0
  {
    ApplyFiltersIsOneMask(data, start, end, selected);
    FilterMultiset(data, KeepMask(start, end, selected), x);
  }

  /** With no country selected only the date range applies. */
  lemma EmptySelectionIsDateOnly(data: seq<Record>, start: int, end: int)
    ensures ApplyFilters(data, start, end, []) == DateFilter(data, start, end)
  {
  }

  /** When every date is in range and no country is selected, the filter keeps the data as is. */
  lemma NoOpFilter(data: seq<Record>, start: int, end: int)
    requires forall x :: x in data ==> start <= x.orderDate <= end
    ensures ApplyFilters(data, start, end, []) == data
  {
    FilterAll(data, DateMask(start, end));
  }
}
