/** The key insight: the country whose group mean of the chosen metric is
    highest (`idxmax` over the group means) and that highest mean (`max`). */
module Ranking {
  import opened Options
  import opened Dataset
  import opened Grouping
  import opened Stats
  import opened Summary

  /** The mean of the chosen metric over one country's group. */
  function CountryMean(rows: seq<Row>, country: string, m: Metric): (mean: Option<real>)
    ensures mean.Some? <==> exists r :: r in rows && r.country == country && Value(r, m).Some?
    ensures mean == Mean(GroupValues(rows, country, m))
  {
    var values := GroupValues(rows, country, m);
    assert values != [] ==> values[0] in values;
    assert forall r :: r in rows && r.country == country && Value(r, m).Some? ==> Value(r, m).value in values;
    Mean(values)
  }

  /** `groupby("country")[metric].mean()`: one mean per group key, None where
      the group has no observed value. */
  function GroupMeans(rows: seq<Row>, m: Metric): (means: seq<Option<real>>)
    ensures |means| == |GroupKeys(rows)|
    ensures forall i :: 0 <= i < |means| ==> means[i] == CountryMean(rows, GroupKeys(rows)[i], m)
  {
    var keys := GroupKeys(rows);
    seq(|keys|, i requires 0 <= i < |keys| => CountryMean(rows, keys[i], m))
  }

  /** `idxmax` with missing values skipped: the position of the first largest
      defined entry, None when no entry is defined. */
  function FirstArgMax(s: seq<Option<real>>): (k: Option<nat>)
    ensures k.None? <==> forall i :: 0 <= i < |s| ==> s[i].None?
    ensures k.Some? ==> k.value < |s| && s[k.value].Some?
    ensures k.Some? ==> forall i :: 0 <= i < |s| && s[i].Some? ==> s[i].value <= s[k.value].value
    ensures k.Some? ==> forall i :: 0 <= i < k.value && s[i].Some? ==> s[i].value < s[k.value].value
  {
    if s == [] then None
    else
      var n := |s| - 1;
      var prefix := s[..n];
      assert forall i :: 0 <= i < n ==> prefix[i] == s[i];
      var b := FirstArgMax(prefix);
      if s[n].None? then b
      else if b.None? || s[b.value].value < s[n].value then Some(n)
      else b
  }

  /** What the insight line reports: nothing when the filtered table is empty
      (the section is skipped), no best country when every group mean is
      missing, otherwise the best country and its mean. */
  datatype Insight = NoRows | NoMeans | Best(country: string, value: real)

  /** A key of a table's grouping that occurs in the table has a position. */
  lemma KeyPosition(rows: seq<Row>, country: string) returns (j: nat)
    requires Occurs(rows, country)
    ensures j < |GroupKeys(rows)| && GroupKeys(rows)[j] == country
  {
    j :| 0 <= j < |GroupKeys(rows)| && GroupKeys(rows)[j] == country;
  }

  /** Over strictly sorted keys, the first largest entry is the lexically
      first key among those with the largest value. */
  lemma {:induction false} FirstArgMaxInKeyOrder(keys: seq<string>, means: seq<Option<real>>, j: nat)
    requires StrictlySorted(keys) && |keys| == |means|
    requires FirstArgMax(means).Some?
    requires j < |keys| && means[j].Some? && Less(keys[j], keys[FirstArgMax(means).value])
    ensures means[j].value < means[FirstArgMax(means).value].value
  {
    var k := FirstArgMax(means).value;
    if j > k {
      LessAsymmetric(keys[j], keys[k]);
    }
  }

  /** The insight of the dashboard. */
  function BestCountry(rows: seq<Row>, m: Metric): (b: Insight)
    ensures b.NoRows? <==> rows == []
    ensures b.NoMeans? <==> rows != [] && forall i :: 0 <= i < |GroupMeans(rows, m)| ==> GroupMeans(rows, m)[i].None?
    ensures b.Best? ==> Occurs(rows, b.country) && CountryMean(rows, b.country, m) == Some(b.value)
  {
    if rows == [] then NoRows
    else
      var keys, means := GroupKeys(rows), GroupMeans(rows, m);
      match FirstArgMax(means)
      case None => NoMeans
      case Some(k) =>
        assert keys[k] in keys;
        Best(keys[k], means[k].value)
  }

  /** When the table has rows but no best country, no country has an observed
      value of the metric. */
  lemma NoMeansMeansNoValues(rows: seq<Row>, m: Metric, country: string)
    requires BestCountry(rows, m).NoMeans? && Occurs(rows, country)
    ensures GroupValues(rows, country, m) == []
  {
    var j := KeyPosition(rows, country);
    assert GroupMeans(rows, m)[j].None?;
  }

  /** No country's mean exceeds the best country's. */
  lemma BestIsMaximal(rows: seq<Row>, m: Metric, country: string)
    requires BestCountry(rows, m).Best? && Occurs(rows, country) && CountryMean(rows, country, m).Some?
    ensures CountryMean(rows, country, m).value <= BestCountry(rows, m).value
  {
    var j := KeyPosition(rows, country);
    assert GroupMeans(rows, m)[j] == CountryMean(rows, country, m);
  }

  /** Ties go to the first key: a country sorting before the best one has a
      strictly smaller mean. */
  lemma BestIsFirstAmongTies(rows: seq<Row>, m: Metric, country: string)
    requires BestCountry(rows, m).Best? && Occurs(rows, country) && CountryMean(rows, country, m).Some?
    requires Less(country, BestCountry(rows, m).country)
    ensures CountryMean(rows, country, m).value < BestCountry(rows, m).value
  {
    var j := KeyPosition(rows, country);
    assert GroupMeans(rows, m)[j] == CountryMean(rows, country, m);
    FirstArgMaxInKeyOrder(GroupKeys(rows), GroupMeans(rows, m), j);
  }

  /** The first largest entry holds the largest defined value. */
  lemma FirstArgMaxIsMax(s: seq<Option<real>>)
    requires FirstArgMax(s).Some?
    ensures Max(DropMissing(s)) == s[FirstArgMax(s).value]
  {
    var k := FirstArgMax(s).value;
    var observed := DropMissing(s);
    assert s[k].value in observed;
    forall x | x in observed
      ensures x <= s[k].value
    {
      assert Some(x) in s;
    }
  }

  /** The reported best value is the largest group mean, the `max` the
      dashboard computes separately from the `idxmax`. */
  lemma BestValueIsMaxMean(rows: seq<Row>, m: Metric)
    requires BestCountry(rows, m).Best?
    ensures Max(DropMissing(GroupMeans(rows, m))) == Some(BestCountry(rows, m).value)
  {
    FirstArgMaxIsMax(GroupMeans(rows, m));
  }

  /** The mean the insight ranks by is the Mean column of the summary table. */
  lemma CountryMeanIsSummaryMean(rows: seq<Row>, country: string, m: Metric)
    ensures CountryMean(rows, country, m) == Describe(country, GroupValues(rows, country, m)).mean
  {
  }

  /** The best country has a row in the summary table, and its Mean there is
      the reported value. */
  lemma BestMatchesSummary(rows: seq<Row>, m: Metric) returns (i: nat)
    requires BestCountry(rows, m).Best?
    ensures i < |Summarize(rows, m)|
    ensures Summarize(rows, m)[i].country == BestCountry(rows, m).country
    ensures Summarize(rows, m)[i].mean == Some(BestCountry(rows, m).value)
  {
    var b := BestCountry(rows, m);
    i := KeyPosition(rows, b.country);
    CountryMeanIsSummaryMean(rows, b.country, m);
  }
}
