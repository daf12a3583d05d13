/** The summary-statistics table: one row per country present in the
    filtered data, in group-key order, with the mean, median, minimum and
    maximum of the chosen metric over that country's observed values. */
module Summary {
  import opened Options
  import opened Dataset
  import opened Selection
  import opened Grouping
  import opened Stats

  datatype GroupSummary = GroupSummary(country: string, mean: Option<real>, median: Option<real>, min: Option<real>, max: Option<real>)

  /** The observed metric values of a table's rows. */
  lemma ObservedMembers(group: seq<Row>, m: Metric)
    ensures forall x :: x in DropMissing(Column(group, m)) <==> exists r :: r in group && Value(r, m) == Some(x)
  {
    var col := Column(group, m);
    forall x ensures Some(x) in col <==> exists r :: r in group && Value(r, m) == Some(x) {
      if Some(x) in col {
        var i :| 0 <= i < |col| && col[i] == Some(x);
        assert group[i] in group;
      }
    }
  }

  /** The observed values of the chosen metric in one country's group: exactly
      the metric values of the rows with that label, missing cells skipped. */
  function GroupValues(rows: seq<Row>, country: string, m: Metric): (values: seq<real>)
    ensures forall x :: x in values <==> exists r :: r in rows && r.country == country && Value(r, m) == Some(x)
  {
    var group := Keep(rows, [country]);
    ObservedMembers(group, m);
    DropMissing(Column(group, m))
  }

  /** How many rows labelled `country` hold `x` in the metric column. */
  function Occurrences(rows: seq<Row>, country: string, m: Metric, x: real): nat
  {
    if rows == [] then 0 else OneIfHolds(rows[0], country, m, x) + Occurrences(rows[1..], country, m, x)
  }

  function OneIfHolds(r: Row, country: string, m: Metric, x: real): nat
  {
    if r.country == country && Value(r, m) == Some(x) then 1 else 0
  }

  lemma HeadCounts(r: Row, country: string, m: Metric, x: real)
    ensures multiset(DropMissing(Column(if r.country in [country] then [r] else [], m)))[x] == OneIfHolds(r, country, m, x)
  {
    if r.country in [country] {
      assert Column([r], m) == [Value(r, m)];
      assert DropMissing([Value(r, m)]) == if Value(r, m).Some? then [Value(r, m).value] else [];
    }
  }

  /** A group's values hold each value as often as the rows of that country
      hold it, so repeated readings weigh in the mean and the median. */
  lemma {:induction false} GroupValuesCounts(rows: seq<Row>, country: string, m: Metric, x: real)
    ensures multiset(GroupValues(rows, country, m))[x] == Occurrences(rows, country, m, x)
  {
    if rows != [] {
      var head := if rows[0].country in [country] then [rows[0]] else [];
      var rest := Keep(rows[1..], [country]);
      assert Keep(rows, [country]) == head + rest;
      ColumnConcat(head, rest, m);
      DropMissingConcat(Column(head, m), Column(rest, m));
      GroupValuesCounts(rows[1..], country, m, x);
      HeadCounts(rows[0], country, m, x);
      assert DropMissing(Column(Keep(rows, [country]), m)) == DropMissing(Column(head, m)) + DropMissing(Column(rest, m));
    }
  }

  /** The statistics of a summary row agree in being defined, and are ordered
      as a minimum, a median, a mean and a maximum must be. */
  predicate Coherent(g: GroupSummary)
  {
    && g.mean.Some? == g.min.Some?
    && g.median.Some? == g.min.Some?
    && g.max.Some? == g.min.Some?
    && (g.min.Some? ==>
          && g.min.value <= g.median.value <= g.max.value
          && g.min.value <= g.mean.value <= g.max.value)
  }

  /** The `agg` of one group. */
  function Describe(country: string, values: seq<real>): (g: GroupSummary)
    ensures g.country == country
    ensures Coherent(g)
    ensures g.min.Some? <==> values != []
    ensures g.min.Some? ==> g.min.value in values && g.max.value in values
    ensures g.min.Some? ==> forall x :: x in values ==> g.min.value <= x <= g.max.value
    ensures values != [] ==>
      g.mean == Mean(values) && g.median == Median(values) && g.min == Min(values) && g.max == Max(values)
  {
    if values == [] then GroupSummary(country, None, None, None, None)
    else
      MeanWithinRange(values);
      MedianWithinRange(values);
      GroupSummary(country, Mean(values), Median(values), Min(values), Max(values))
  }

  /** `groupby("country")[metric].agg(...)` without the standard deviation. */
  function Summarize(rows: seq<Row>, m: Metric): (summary: seq<GroupSummary>)
    ensures |summary| == |GroupKeys(rows)|
    ensures forall i :: 0 <= i < |summary| ==> summary[i].country == GroupKeys(rows)[i]
    ensures forall i, j :: 0 <= i < j < |summary| ==> Less(summary[i].country, summary[j].country)
    ensures forall c :: (exists i :: 0 <= i < |summary| && summary[i].country == c) <==> Occurs(rows, c)
    ensures forall i :: 0 <= i < |summary| ==> Coherent(summary[i])
    ensures forall i :: 0 <= i < |summary| ==>
      summary[i] == Describe(summary[i].country, GroupValues(rows, summary[i].country, m))
  {
    var keys := GroupKeys(rows);
    var summary := seq(|keys|, i requires 0 <= i < |keys| => Describe(keys[i], GroupValues(rows, keys[i], m)));
    assert forall c :: (exists i :: 0 <= i < |summary| && summary[i].country == c) <==> c in keys by {
      forall c ensures (exists i :: 0 <= i < |summary| && summary[i].country == c) <==> c in keys {
        if c in keys {
          var i :| 0 <= i < |keys| && keys[i] == c;
          assert summary[i].country == c;
        }
      }
    }
    summary
  }

  /** With nothing selected (and no table empty), the summary has a row for
      each of the three countries, in the order Benin, Sierra Leone, Togo. */
  lemma EmptySelectionSummarizesAllCountries(benin: seq<Reading>, sierraLeone: seq<Reading>, togo: seq<Reading>, m: Metric)
    requires benin != [] && sierraLeone != [] && togo != []
    ensures |Summarize(Filter(Combine(benin, sierraLeone, togo), []), m)| == 3
    ensures forall i :: 0 <= i < 3 ==> Summarize(Filter(Combine(benin, sierraLeone, togo), []), m)[i].country == COUNTRIES[i]
  {
    EmptySelectionGroupsAllCountries(benin, sierraLeone, togo);
  }
}
