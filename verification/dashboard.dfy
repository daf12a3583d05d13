/** The script's flow from the loaded tables and the two sidebar choices to
    what the page reports: the summary table, the ANOVA section and the
    insight line. */
module Dashboard {
  import opened Options
  import opened Dataset
  import opened Selection
  import opened Summary
  import opened Comparison
  import opened Ranking

  datatype Page = Page(metric: Metric, filtered: seq<Row>, summary: seq<GroupSummary>,
                       comparison: Comparison, insight: Insight)

  /** One run of the page. The metric name comes from the select box and the
      selection from the multiselect; `oneWay` is the ANOVA p-value. None is
      the KeyError of a metric name outside the display-name table. */
  function Render(benin: seq<Reading>, sierraLeone: seq<Reading>, togo: seq<Reading>,
                  selection: seq<string>, metricName: string,
                  oneWay: seq<seq<Option<real>>> -> Option<real>): (p: Option<Page>)
    ensures p.Some? <==> metricName in MetricNames()
    ensures p.Some? ==> ColumnKey(p.value.metric) == ResolveMetric(metricName).value
    ensures p.Some? ==> p.value.filtered == Filter(Combine(benin, sierraLeone, togo), selection)
    ensures p.Some? ==> p.value.summary == Summarize(p.value.filtered, p.value.metric)
    ensures p.Some? ==> p.value.comparison == Compare(p.value.filtered, selection, p.value.metric, oneWay)
    ensures p.Some? ==> p.value.insight == BestCountry(p.value.filtered, p.value.metric)
  {
    MetricAlwaysResolves(metricName);
    match ResolveMetric(metricName)
    case None => None
    case Some(key) =>
      match MetricOfKey(key)
      case None => None
      case Some(m) =>
        var filtered := Filter(Combine(benin, sierraLeone, togo), selection);
        Some(Page(m, filtered, Summarize(filtered, m), Compare(filtered, selection, m, oneWay), BestCountry(filtered, m)))
  }

  /** The table a country's rows come from; meant for the three labels of
      `COUNTRIES` (any other label falls through to Togo's table). */
  function TableOf(benin: seq<Reading>, sierraLeone: seq<Reading>, togo: seq<Reading>, country: string): seq<Row>
  {
    if country == BENIN then Tag(benin, BENIN)
    else if country == SIERRA_LEONE then Tag(sierraLeone, SIERRA_LEONE)
    else Tag(togo, TOGO)
  }

  /** With all three countries selected, the groups handed to the ANOVA are
      the metric columns of the Benin, Sierra Leone and Togo tables, each in
      full and in its own order. */
  lemma AllCountriesGroups(benin: seq<Reading>, sierraLeone: seq<Reading>, togo: seq<Reading>, m: Metric,
                           oneWay: seq<seq<Option<real>>> -> Option<real>)
    ensures |Compare(Filter(Combine(benin, sierraLeone, togo), COUNTRIES), COUNTRIES, m, oneWay).groups| == |COUNTRIES|
    ensures forall i :: 0 <= i < |COUNTRIES| ==>
      Compare(Filter(Combine(benin, sierraLeone, togo), COUNTRIES), COUNTRIES, m, oneWay).groups[i]
        == Column(TableOf(benin, sierraLeone, togo, COUNTRIES[i]), m)
  {
    GroupsComeFromDataset(Combine(benin, sierraLeone, togo), COUNTRIES, m, oneWay);
    CountryRowsAreTables(benin, sierraLeone, togo);
  }

  /** In the unified dataset, the rows of each country are that country's table. */
  lemma CountryRowsAreTables(benin: seq<Reading>, sierraLeone: seq<Reading>, togo: seq<Reading>)
    ensures forall i :: 0 <= i < |COUNTRIES| ==>
      Keep(Combine(benin, sierraLeone, togo), [COUNTRIES[i]]) == TableOf(benin, sierraLeone, togo, COUNTRIES[i])
  {
    forall i | 0 <= i < |COUNTRIES|
      ensures Keep(Combine(benin, sierraLeone, togo), [COUNTRIES[i]]) == TableOf(benin, sierraLeone, togo, COUNTRIES[i])
    {
      if i == 0 {
        SelectBenin(benin, sierraLeone, togo);
      } else if i == 1 {
        LabelsDistinct();
        SelectSierraLeone(benin, sierraLeone, togo);
      } else {
        LabelsDistinct();
        SelectTogo(benin, sierraLeone, togo);
      }
    }
  }

  /** With the multiselect's default (all three countries), the page runs the
      ANOVA on the three tables' metric columns, in the order Benin, Sierra
      Leone, Togo. */
  lemma DefaultSelectionComparesTables(benin: seq<Reading>, sierraLeone: seq<Reading>, togo: seq<Reading>,
                                       metricName: string, oneWay: seq<seq<Option<real>>> -> Option<real>)
    requires metricName in MetricNames()
    ensures Render(benin, sierraLeone, togo, COUNTRIES, metricName, oneWay).Some?
    ensures var p := Render(benin, sierraLeone, togo, COUNTRIES, metricName, oneWay).value;
      && p.comparison.Compared?
      && |p.comparison.groups| == |COUNTRIES|
      && forall i :: 0 <= i < |COUNTRIES| ==>
           p.comparison.groups[i] == Column(TableOf(benin, sierraLeone, togo, COUNTRIES[i]), p.metric)
  {
    var p := Render(benin, sierraLeone, togo, COUNTRIES, metricName, oneWay).value;
    assert p.comparison == Compare(p.filtered, COUNTRIES, p.metric, oneWay);
    AllCountriesGroups(benin, sierraLeone, togo, p.metric, oneWay);
  }

  /** With one country or none selected the ANOVA is not run, but with none
      selected every country still reaches the summary and the insight. */
  lemma FewSelectedSkipsComparison(benin: seq<Reading>, sierraLeone: seq<Reading>, togo: seq<Reading>,
                                   selection: seq<string>, metricName: string,
                                   oneWay: seq<seq<Option<real>>> -> Option<real>)
    requires metricName in MetricNames() && |selection| < 2
    ensures Render(benin, sierraLeone, togo, selection, metricName, oneWay).Some?
    ensures Render(benin, sierraLeone, togo, selection, metricName, oneWay).value.comparison == TooFewCountries
    ensures selection == [] ==>
      Render(benin, sierraLeone, togo, selection, metricName, oneWay).value.filtered == Combine(benin, sierraLeone, togo)
  {
  }
}
