/** Descriptive statistics of a column, skipping missing cells the way pandas
    does (`skipna`): mean, median, minimum and maximum, each undefined (None,
    pandas NaN) for a column without observed values. */
module Stats {
  import opened Options

  /** The observed values of a column, in order. */
  function DropMissing(col: seq<Option<real>>): (values: seq<real>)
    ensures |values| <= |col|
    ensures forall x :: x in values <==> Some(x) in col
  {
    if col == [] then []
    else
      assert col == [col[0]] + col[1..];
      (if col[0].Some? then [col[0].value] else []) + DropMissing(col[1..])
  }

  /** Each observed value is kept as often as the column holds it. */
  lemma {:induction false} DropMissingCounts(col: seq<Option<real>>, x: real)
    ensures multiset(DropMissing(col))[x] == multiset(col)[Some(x)]
  {
    if col != [] {
      assert col == [col[0]] + col[1..];
      DropMissingCounts(col[1..], x);
    }
  }

  /** Skipping missing cells keeps the order of the rest: it distributes over
      concatenation. */
  lemma {:induction false} DropMissingConcat(a: seq<Option<real>>, b: seq<Option<real>>)
    ensures DropMissing(a + b) == DropMissing(a) + DropMissing(b)
  {
    if a == [] {
      assert a + b == b;
    } else {
      assert (a + b)[1..] == a[1..] + b;
      DropMissingConcat(a[1..], b);
    }
  }

  function Sum(values: seq<real>): real
  {
    if values == [] then 0.0 else values[0] + Sum(values[1..])
  }

  /** The arithmetic mean: the value whose |values| copies add up to the total. */
  function Mean(values: seq<real>): (m: Option<real>)
    ensures m.Some? <==> values != []
    ensures m.Some? ==> m.value * (|values| as real) == Sum(values)
  {
    if values == [] then None else Some(Sum(values) / (|values| as real))
  }

  function Min(values: seq<real>): (m: Option<real>)
    ensures m.Some? <==> values != []
    ensures m.Some? ==> m.value in values && forall x :: x in values ==> m.value <= x
  {
    if values == [] then None
    else
      var rest := Min(values[1..]);
      assert values == [values[0]] + values[1..];
      if rest.None? || values[0] <= rest.value then Some(values[0]) else rest
  }

  function Max(values: seq<real>): (m: Option<real>)
    ensures m.Some? <==> values != []
    ensures m.Some? ==> m.value in values && forall x :: x in values ==> x <= m.value
  {
    if values == [] then None
    else
      var rest := Max(values[1..]);
      assert values == [values[0]] + values[1..];
      if rest.None? || rest.value <= values[0] then Some(values[0]) else rest
  }

  predicate Ascending(s: seq<real>)
  {
    forall i, j :: 0 <= i <= j < |s| ==> s[i] <= s[j]
  }

  function InsertSorted(x: real, s: seq<real>): (r: seq<real>)
    requires Ascending(s)
    ensures Ascending(r)
    ensures multiset(r) == multiset(s) + multiset{x}
    ensures r[0] == x || (s != [] && r[0] == s[0])
  {
    if s == [] || x <= s[0] then [x] + s
    else
      var rest := InsertSorted(x, s[1..]);
      assert s == [s[0]] + s[1..];
      assert s[0] <= rest[0];
      [s[0]] + rest
  }

  /** The values in ascending order. */
  function Sort(values: seq<real>): (s: seq<real>)
    ensures Ascending(s)
    ensures multiset(s) == multiset(values)
  {
    if values == [] then []
    else
      assert values == [values[0]] + values[1..];
      InsertSorted(values[0], Sort(values[1..]))
  }

  /** The median as pandas computes it: the middle value of the sorted values,
      or the average of the two middle values when their number is even. */
  function Median(values: seq<real>): (m: Option<real>)
    ensures m.Some? <==> values != []
  {
    if values == [] then None
    else
      var s := Sort(values);
      assert |s| == |values| by {
        assert |multiset(s)| == |multiset(values)|;
      }
      Some(Middle(s))
  }

  /** The middle entry of a non-empty sequence, or the average of its two
      middle entries when their number is even. */
  function Middle(s: seq<real>): real
    requires s != []
  {
    var n := |s|;
    if n % 2 == 1 then s[n / 2] else (s[n / 2 - 1] + s[n / 2]) / 2.0
  }

  /** How many values are at most `t`, counted with repeats. */
  function CountAtMost(values: seq<real>, t: real): nat
  {
    if values == [] then 0 else (if values[0] <= t then 1 else 0) + CountAtMost(values[1..], t)
  }

  /** How many values are at least `t`, counted with repeats. */
  function CountAtLeast(values: seq<real>, t: real): nat
  {
    if values == [] then 0 else (if t <= values[0] then 1 else 0) + CountAtLeast(values[1..], t)
  }

  lemma {:induction false} InsertSortedCounts(x: real, s: seq<real>, t: real)
    requires Ascending(s)
    ensures CountAtMost(InsertSorted(x, s), t) == CountAtMost(s, t) + (if x <= t then 1 else 0)
    ensures CountAtLeast(InsertSorted(x, s), t) == CountAtLeast(s, t) + (if t <= x then 1 else 0)
  {
    if s == [] || x <= s[0] {
      assert ([x] + s)[1..] == s;
    } else {
      var rest := InsertSorted(x, s[1..]);
      InsertSortedCounts(x, s[1..], t);
      assert ([s[0]] + rest)[1..] == rest;
    }
  }

  /** Sorting changes no count. */
  lemma {:induction false} SortCounts(values: seq<real>, t: real)
    ensures CountAtMost(Sort(values), t) == CountAtMost(values, t)
    ensures CountAtLeast(Sort(values), t) == CountAtLeast(values, t)
  {
    if values != [] {
      SortCounts(values[1..], t);
      InsertSortedCounts(values[0], Sort(values[1..]), t);
    }
  }

  lemma {:induction false} AtMostPrefix(s: seq<real>, t: real, k: nat)
    requires k <= |s| && forall i :: 0 <= i < k ==> s[i] <= t
    ensures CountAtMost(s, t) >= k
  {
    if k > 0 {
      AtMostPrefix(s[1..], t, k - 1);
    }
  }

  lemma {:induction false} AtLeastSuffix(s: seq<real>, t: real, k: nat)
    requires k <= |s| && forall i :: k <= i < |s| ==> t <= s[i]
    ensures CountAtLeast(s, t) >= |s| - k
  {
    if s != [] {
      AtLeastSuffix(s[1..], t, if k > 0 then k - 1 else 0);
    }
  }

  /** In ascending values, the middle value (or the average of the two middle
      values) has at least half of the values on each side. */
  lemma SortedMiddle(s: seq<real>)
    requires Ascending(s) && s != []
    ensures 2 * CountAtMost(s, Middle(s)) >= |s| && 2 * CountAtLeast(s, Middle(s)) >= |s|
  {
    var n, med := |s|, Middle(s);
    if n % 2 == 1 {
      AtMostPrefix(s, med, n / 2 + 1);
      AtLeastSuffix(s, med, n / 2);
    } else {
      assert s[n / 2 - 1] <= s[n / 2];
      AtMostPrefix(s, med, n / 2);
      AtLeastSuffix(s, med, n / 2);
    }
  }

  /** The median is a middle value: at least half of the values, counted with
      repeats, are at most the median, and at least half are at least it. */
  lemma MedianSplitsValues(values: seq<real>)
    requires values != []
    ensures 2 * CountAtMost(values, Median(values).value) >= |values|
    ensures 2 * CountAtLeast(values, Median(values).value) >= |values|
  {
    var s := Sort(values);
    assert |s| == |values| by {
      assert |multiset(s)| == |multiset(values)|;
    }
    SortedMiddle(s);
    SortCounts(values, Middle(s));
  }

  lemma {:induction false} SumBounds(values: seq<real>, lo: real, hi: real)
    requires forall x :: x in values ==> lo <= x <= hi
    ensures lo * (|values| as real) <= Sum(values) <= hi * (|values| as real)
  {
    if values != [] {
      assert values[0] in values;
      assert forall x :: x in values[1..] ==> x in values;
      SumBounds(values[1..], lo, hi);
      var n := |values[1..]| as real;
      assert (|values| as real) == n + 1.0;
      assert lo * (n + 1.0) == lo * n + lo;
      assert hi * (n + 1.0) == hi * n + hi;
    }
  }

  /** The mean lies between the minimum and the maximum. */
  lemma MeanWithinRange(values: seq<real>)
    requires values != []
    ensures Min(values).value <= Mean(values).value <= Max(values).value
  {
    var lo, hi, n := Min(values).value, Max(values).value, |values| as real;
    SumBounds(values, lo, hi);
    QuotientBounds(Sum(values), n, lo, hi);
  }

  lemma QuotientBounds(total: real, n: real, lo: real, hi: real)
    requires n > 0.0 && lo * n <= total <= hi * n
    ensures lo <= total / n <= hi
  {
    assert total / n * n == total;
    assert (total / n - lo) * n == total - lo * n;
    assert (hi - total / n) * n == hi * n - total;
  }

  /** The smallest and largest values are the ends of the sorted values. */
  lemma SortEnds(values: seq<real>)
    requires values != []
    ensures |Sort(values)| == |values|
    ensures Sort(values)[0] == Min(values).value
    ensures Sort(values)[|values| - 1] == Max(values).value
  {
    var s := Sort(values);
    assert |multiset(s)| == |multiset(values)|;
    assert forall x :: x in s <==> x in values by {
      forall x ensures x in s <==> x in values {
        assert x in s <==> x in multiset(s);
        assert x in values <==> x in multiset(values);
      }
    }
    assert s[0] in s && s[|s| - 1] in s;
    var lo, hi := Min(values).value, Max(values).value;
    assert lo in s && hi in s;
  }

  /** The median lies between the minimum and the maximum. */
  lemma MedianWithinRange(values: seq<real>)
    requires values != []
    ensures Min(values).value <= Median(values).value <= Max(values).value
  {
    SortEnds(values);
    var s, n := Sort(values), |values|;
    assert s[0] <= s[n / 2] <= s[n - 1];
    if n % 2 == 0 {
      assert s[0] <= s[n / 2 - 1] <= s[n - 1];
    }
  }
}
