/** The country list of the sidebar: `sorted(data["Country"].unique())` and its first five
    entries as the default selection. */
module Countries {
  import opened Seqs
  import opened Records

  /** Python's `<` on `str`: lexicographic by code point, a proper prefix coming first. */
  predicate LexLess(a: string, b: string)
  {
    if |a| == 0 then |b| > 0
    else if |b| == 0 then false
    else if a[0] != b[0] then a[0] < b[0]
    else LexLess(a[1..], b[1..])
  }

  lemma {:induction false} LexLessIrreflexive(a: string)
    ensures !LexLess(a, a)
  {
    if |a| > 0 {
      LexLessIrreflexive(a[1..]);
    }
  }

  lemma {:induction false} LexLessTransitive(a: string, b: string, c: string)
    requires LexLess(a, b) && LexLess(b, c)
    ensures LexLess(a, c)
  {
    if |a| > 0 && |b| > 0 && |c| > 0 && a[0] == b[0] && b[0] == c[0] {
      LexLessTransitive(a[1..], b[1..], c[1..]);
    }
  }

  lemma {:induction false} LexLessTotal(a: string, b: string)
    ensures a == b || LexLess(a, b) || LexLess(b, a)
  {
    if |a| > 0 && |b| > 0 && a[0] == b[0] {
      LexLessTotal(a[1..], b[1..]);
      if a[1..] == b[1..] {
        assert a == [a[0]] + a[1..] && b == [b[0]] + b[1..];
      }
    }
  }

  predicate NoDuplicates(s: seq<string>)
  {
    forall i, j :: 0 <= i < j < |s| ==> s[i] != s[j]
  }

  /** Non-decreasing under `LexLess`. */
  predicate Sorted(s: seq<string>)
  {
    forall i, j :: 0 <= i < j < |s| ==> !LexLess(s[j], s[i])
  }

  predicate StrictlyAscending(s: seq<string>)
  {
    forall i, j :: 0 <= i < j < |s| ==> LexLess(s[i], s[j])
  }

  /** `Series.unique()`: each value once, in order of first appearance. */
  function Unique(s: seq<string>): (r: seq<string>)
    ensures NoDuplicates(r)
    ensures forall x :: x in r <==> x in s
  {
    if s == [] then []
    else
      var u := Unique(s[..|s| - 1]);
      var last := s[|s| - 1];
      assert s == s[..|s| - 1] + [last];
      if last in u then u else u + [last]
  }

  /** Insertion of `x` before the first element that is not smaller than it. */
  function Insert(x: string, s: seq<string>): (r: seq<string>)
    ensures multiset(r) == multiset(s) + multiset{x}
  {
    if s == [] then [x]
    else if !LexLess(s[0], x) then [x] + s
    else
      assert s == [s[0]] + s[1..];
      [s[0]] + Insert(x, s[1..])
  }

  /** `sorted(...)` on a list of strings. */
  function SortStrings(s: seq<string>): (r: seq<string>)
    ensures multiset(r) == multiset(s)
  {
    if s == [] then []
    else
      assert s == [s[0]] + s[1..];
      Insert(s[0], SortStrings(s[1..]))
  }

  lemma {:induction false} InsertSorted(x: string, s: seq<string>)
    requires Sorted(s)
    ensures Sorted(Insert(x, s))
  {
    if s != [] && LexLess(s[0], x) {
      InsertSorted(x, s[1..]);
      var r := Insert(x, s[1..]);
      forall y | y in r
        ensures !LexLess(y, s[0])
      {
        assert y in multiset(r);
        if y == x {
          LexLessIrreflexive(s[0]);
          if LexLess(x, s[0]) { LexLessTransitive(x, s[0], x); LexLessIrreflexive(x); }
        } else {
          assert y in s[1..];
          var k :| 0 <= k < |s[1..]| && s[1..][k] == y;
          assert s[k + 1] == y;
        }
      }
      forall i, j | 0 <= i < j < |[s[0]] + r|
        ensures !LexLess(([s[0]] + r)[j], ([s[0]] + r)[i])
      {
        if i == 0 {
          assert ([s[0]] + r)[j] == r[j - 1];
          assert r[j - 1] in r;
        } else {
          assert ([s[0]] + r)[j] == r[j - 1] && ([s[0]] + r)[i] == r[i - 1];
        }
      }
    } else if s != [] {
      forall j | 0 <= j < |s|
        ensures !LexLess(s[j], x)
      {
        if j > 0 {
          LexLessTotal(s[0], x);
          if LexLess(s[j], x) && LexLess(x, s[0]) {
            LexLessTransitive(s[j], x, s[0]);
          }
        }
      }
      forall i, j | 0 <= i < j < |[x] + s|
        ensures !LexLess(([x] + s)[j], ([x] + s)[i])
      {
        if i > 0 {
          assert ([x] + s)[j] == s[j - 1] && ([x] + s)[i] == s[i - 1];
        } else {
          assert ([x] + s)[j] == s[j - 1];
        }
      }
    }
  }

  lemma {:induction false} SortStringsSorted(s: seq<string>)
    ensures Sorted(SortStrings(s))
  {
    if s != [] {
      SortStringsSorted(s[1..]);
      InsertSorted(s[0], SortStrings(s[1..]));
    }
  }

  /** A sorted list without duplicates is strictly ascending. */
  lemma SortedDistinctAscending(s: seq<string>)
    requires Sorted(s) && NoDuplicates(s)
    ensures StrictlyAscending(s)
  {
    forall i, j | 0 <= i < j < |s|
      ensures LexLess(s[i], s[j])
    {
      LexLessTotal(s[i], s[j]);
    }
  }

  /** Duplicate-freedom depends only on the multiset of elements. */
  lemma {:induction false} NoDuplicatesMultiset(a: seq<string>, b: seq<string>)
    requires multiset(a) == multiset(b) && NoDuplicates(a)
    ensures NoDuplicates(b)
  {
    forall i, j | 0 <= i < j < |b|
      ensures b[i] != b[j]
    {
      if b[i] == b[j] {
        assert b == b[..i] + [b[i]] + b[i + 1..j] + [b[j]] + b[j + 1..];
        assert multiset(b)[b[i]] >= 2;
        CountAtMostOne(a, b[i]);
      }
    }
  }

  lemma {:induction false} CountAtMostOne(a: seq<string>, x: string)
    requires NoDuplicates(a)
    ensures multiset(a)[x] <= 1
  {
    if a != [] {
      assert a == [a[0]] + a[1..];
      CountAtMostOne(a[1..], x);
    }
  }

  function CountryColumn(data: seq<Record>): (r: seq<string>)
    ensures |r| == |data|
    ensures forall i :: 0 <= i < |data| ==> r[i] == data[i].country
  {
    if data == [] then [] else [data[0].country] + CountryColumn(data[1..])
  }

  /** `all_countries`: the distinct countries of the data, in ascending order. */
  function AllCountries(data: seq<Record>): (r: seq<string>)
    ensures StrictlyAscending(r)
    ensures forall c :: c in r <==> exists x :: x in data && x.country == c
  {
    AllCountriesSpec(data);
    SortStrings(Unique(CountryColumn(data)))
  }

  /** `all_countries[:5]`, the default selection of the country widget. */
  function DefaultCountries(data: seq<Record>): (r: seq<string>)
    ensures |r| == Min(5, |AllCountries(data)|)
    ensures r <= AllCountries(data)
    ensures StrictlyAscending(r)
    ensures forall c, d :: c in r && d in AllCountries(data) && d !in r ==> LexLess(c, d)
  {
    DefaultCountriesSpec(AllCountries(data));
    Take(AllCountries(data), 5)
  }

  /** Sorting the distinct countries gives a strictly ascending list that holds exactly the
      countries of the data. */
  lemma AllCountriesSpec(data: seq<Record>)
    ensures StrictlyAscending(SortStrings(Unique(CountryColumn(data))))
    ensures forall c :: c in SortStrings(Unique(CountryColumn(data))) <==> exists x :: x in data && x.country == c
  {
    var col := CountryColumn(data);
    var u := Unique(col);
    var all := SortStrings(u);
    SortStringsSorted(u);
    NoDuplicatesMultiset(u, all);
    SortedDistinctAscending(all);
    forall c
      ensures c in all <==> exists x :: x in data && x.country == c
    {
      assert c in all <==> c in multiset(u);
      if c in col {
        var i :| 0 <= i < |col| && col[i] == c;
        assert data[i] in data;
      }
      if x :| x in data && x.country == c {
        var i :| 0 <= i < |data| && data[i] == x;
        assert col[i] == c;
      }
    }
  }

  /** The first min(5, n) of n strictly ascending countries are strictly ascending, and every
      country left out of them comes after each of them. */
  lemma DefaultCountriesSpec(all: seq<string>)
    requires StrictlyAscending(all)
    ensures StrictlyAscending(Take(all, 5))
    ensures forall c, d :: c in Take(all, 5) && d in all && d !in Take(all, 5) ==> LexLess(c, d)
  {
    var def := Take(all, 5);
    forall c, d | c in def && d in all && d !in def
      ensures LexLess(c, d)
    {
      var i :| 0 <= i < |def| && def[i] == c;
      var j :| 0 <= j < |all| && all[j] == d;
      assert all[i] == c;
    }
  }
}
