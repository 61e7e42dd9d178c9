/** Sequence operations shared by the pipeline: boolean-mask selection and taking a prefix. */
module Seqs {

  function Min(a: nat, b: nat): nat
  {
    if a <= b then a else b
  }

  /** The elements of `s` for which the mask `p` holds, in their original order.
      This is a dataframe's `frame[mask]` selection. */
  function Filter<T(==,!new)>(s: seq<T>, p: T -> bool): (r: seq<T>)
    ensures |r| <= |s|
    ensures forall x :: x in r <==> x in s && p(x)
  {
    if s == [] then []
    else (if p(s[0]) then [s[0]] else []) + Filter(s[1..], p)
  }

  /** Selection distributes over concatenation: it never reorders rows. */
  lemma {:induction false} FilterConcat<T(!new)>(a: seq<T>, b: seq<T>, p: T -> bool)
    ensures Filter(a + b, p) == Filter(a, p) + Filter(b, p)
  {
    if a == [] {
      assert a + b == b;
    } else {
      assert (a + b)[1..] == a[1..] + b;
      FilterConcat(a[1..], b, p);
    }
  }

  /** Selection keeps every copy of a row the mask accepts and no copy of one it rejects. */
  lemma {:induction false} FilterMultiset<T(!new)>(s: seq<T>, p: T -> bool, x: T)
    ensures multiset(Filter(s, p))[x] == if p(x) then multiset(s)[x] else 0
  {
    if s != [] {
      assert s == [s[0]] + s[1..];
      FilterMultiset(s[1..], p, x);
    }
  }

  /** A row the mask accepts stays at the head of the selection. */
  lemma FilterConsKept<T(!new)>(x: T, s: seq<T>, p: T -> bool)
    requires p(x)
    ensures Filter([x] + s, p) == [x] + Filter(s, p)
  {
  }

  /** A row the mask rejects leaves no trace in the selection. */
  lemma FilterConsDropped<T(!new)>(x: T, s: seq<T>, p: T -> bool)
    requires !p(x)
    ensures Filter([x] + s, p) == Filter(s, p)
  {
  }

  /** A mask that accepts every row selects the whole sequence. */
  lemma {:induction false} FilterAll<T(!new)>(s: seq<T>, p: T -> bool)
    requires forall x :: x in s ==> p(x)
    ensures Filter(s, p) == s
  {
    if s != [] {
      assert s == [s[0]] + s[1..];
      FilterAll(s[1..], p);
    }
  }

  /** Selecting from a prefix gives a prefix of the selection. */
  lemma FilterPrefix<T(!new)>(a: seq<T>, b: seq<T>, p: T -> bool)
    requires a <= b
    ensures Filter(a, p) <= Filter(b, p)
  {
    assert b == a + b[|a|..];
    FilterConcat(a, b[|a|..], p);
  }

  /** The first `n` elements, or all of them when there are fewer (`s[:n]` in Python). */
  function Take<T>(s: seq<T>, n: nat): (r: seq<T>)
    ensures |r| == Min(n, |s|)
    ensures r <= s
  {
    s[..Min(n, |s|)]
  }
}
