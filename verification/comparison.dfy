/** The one-way ANOVA section: the gate on the number of selected countries,
    the value groups handed to the test, and the reading of its p-value. */
module Comparison {
  import opened Options
  import opened Dataset
  import opened Selection

  /** The fixed significance level. */
  const SIGNIFICANCE_LEVEL: real := 0.05

  datatype Verdict = Significant | NotSignificant

  /** The interpretation of a p-value: significant only when it is strictly
      below the level. None is a NaN p-value, for which `p < 0.05` is false. */
  function Judge(p: Option<real>): (v: Verdict)
    ensures v == Significant <==> p.Some? && p.value < SIGNIFICANCE_LEVEL
  {
    if p.Some? && p.value < SIGNIFICANCE_LEVEL then Significant else NotSignificant
  }

  /** A p-value equal to the level is read as no significant difference. */
  lemma AtLevelIsNotSignificant()
    ensures Judge(Some(SIGNIFICANCE_LEVEL)) == NotSignificant
  {
  }

  /** How the interpretation text relates the p-value to the level. */
  datatype Claim = BelowLevel | AboveLevel | NotBelowLevel

  /** Whether a claim is true of a p-value (None, a NaN, is below nothing and
      above nothing). */
  predicate ClaimHolds(claim: Claim, p: Option<real>)
  {
    match claim
    case BelowLevel => p.Some? && p.value < SIGNIFICANCE_LEVEL
    case AboveLevel => p.Some? && p.value > SIGNIFICANCE_LEVEL
    case NotBelowLevel => !(p.Some? && p.value < SIGNIFICANCE_LEVEL)
  }

  /** The claim the interpretation text makes as the dashboard writes it: "less
      than 0.05" in the significant branch, "greater than 0.05" otherwise. */
  function StatedClaimAsWritten(p: Option<real>): (claim: Claim)
    ensures claim == BelowLevel <==> Judge(p) == Significant
  {
    if Judge(p) == Significant then BelowLevel else AboveLevel
  }

  /** At the level itself the text as written is false: the p-value is not
      greater than 0.05. */
  lemma AsWrittenClaimFailsAtLevel()
    ensures StatedClaimAsWritten(Some(SIGNIFICANCE_LEVEL)) == AboveLevel
    ensures !ClaimHolds(StatedClaimAsWritten(Some(SIGNIFICANCE_LEVEL)), Some(SIGNIFICANCE_LEVEL))
  {
  }

  /** The claim the text evidently means: below the level, or not below it. */
  function StatedClaim(p: Option<real>): (claim: Claim)
    ensures claim == BelowLevel <==> Judge(p) == Significant
    ensures claim != AboveLevel
  {
    if Judge(p) == Significant then BelowLevel else NotBelowLevel
  }

  /** The corrected text is true of every p-value, the level included. */
  lemma StatedClaimHolds(p: Option<real>)
    ensures ClaimHolds(StatedClaim(p), p)
  {
  }

  /** The value vector of one selected country: that country's metric column
      in the filtered data, missing cells included, one cell per row of the
      country and every such row's cell present. */
  function GroupColumn(filtered: seq<Row>, country: string, m: Metric): (col: seq<Option<real>>)
    ensures |col| <= |filtered|
    ensures |col| == |Keep(filtered, [country])|
    ensures forall k :: 0 <= k < |col| ==> col[k] == Value(Keep(filtered, [country])[k], m)
    ensures forall x :: x in col ==> exists r :: r in filtered && r.country == country && Value(r, m) == x
    ensures forall r :: r in filtered && r.country == country ==> Value(r, m) in col
  {
    var group := Keep(filtered, [country]);
    var col := Column(group, m);
    assert forall k :: 0 <= k < |col| ==> group[k] in group;
    assert forall r :: r in group ==> Value(r, m) in col by {
      forall r | r in group ensures Value(r, m) in col {
        var k :| 0 <= k < |group| && group[k] == r;
        assert col[k] == Value(r, m);
      }
    }
    col
  }

  /** The outcome of the section: the warning branch, or the groups that were
      compared, the p-value the test returned and its interpretation. */
  datatype Comparison =
    | TooFewCountries
    | Compared(groups: seq<seq<Option<real>>>, p: Option<real>, verdict: Verdict, claim: Claim)

  /** `oneWay` stands for the p-value that `stats.f_oneway` returns on the
      groups; the test runs only with at least two countries selected, on one
      group per selected country, in selection order. */
  function Compare(filtered: seq<Row>, selection: seq<string>, m: Metric,
                   oneWay: seq<seq<Option<real>>> -> Option<real>): (c: Comparison)
    ensures c.Compared? <==> |selection| >= 2
    ensures c.Compared? ==> |c.groups| == |selection|
    ensures c.Compared? ==> forall i :: 0 <= i < |selection| ==> c.groups[i] == GroupColumn(filtered, selection[i], m)
    ensures c.Compared? ==> c.p == oneWay(c.groups)
    ensures c.Compared? ==> (c.verdict == Significant <==> c.p.Some? && c.p.value < SIGNIFICANCE_LEVEL)
    ensures c.Compared? ==> (c.claim == BelowLevel <==> c.verdict == Significant)
    ensures c.Compared? ==> ClaimHolds(c.claim, c.p)
  {
    if |selection| >= 2 then
      var groups := seq(|selection|, i requires 0 <= i < |selection| => GroupColumn(filtered, selection[i], m));
      var p := oneWay(groups);
      StatedClaimHolds(p);
      Compared(groups, p, Judge(p), StatedClaim(p))
    else TooFewCountries
  }

  /** On the dashboard's own filtered data, the group of a selected country is
      that country's whole metric column in the unified dataset: the filter
      drops none of its rows and adds none of another country's. */
  lemma GroupsComeFromDataset(all: seq<Row>, selection: seq<string>, m: Metric,
                              oneWay: seq<seq<Option<real>>> -> Option<real>)
    requires |selection| >= 2
    ensures forall i :: 0 <= i < |selection| ==>
      Compare(Filter(all, selection), selection, m, oneWay).groups[i] == Column(Keep(all, [selection[i]]), m)
  {
    forall i | 0 <= i < |selection|
      ensures Keep(Filter(all, selection), [selection[i]]) == Keep(all, [selection[i]])
    {
      KeepOfKeep(all, selection, [selection[i]]);
    }
  }
}
