# Solar dashboard core, modelled in Dafny

The Streamlit dashboard `app/main.py` compares three solar-irradiance metrics
(GHI, DNI, DHI) across three countries: Benin, Sierra Leone and Togo. Most of
the script is page layout and plotting. This project models the small amount of
data logic inside it, as pure functions over sequences of rows, and proves
what that logic promises:

- **Loading** (`Dataset`). Each cleaned country table is stamped with a
  `country` label. The three tables are concatenated in the order Benin,
  Sierra Leone, Togo.
- **Metric choice** (`Dataset`). A fixed display-name dictionary maps the
  select-box label to a column key.
- **Filter** (`Selection`). The explicit empty-selection policy passes the
  whole dataset through. A non-empty selection is an `isin` mask on `country`.
- **Group keys** (`Grouping`). These are the distinct country labels in the
  sorted order pandas gives `groupby` keys. Python's string order is written
  out as `Grouping.Less`.
- **Summary table** (`Stats`, `Summary`). Per country: mean, median, minimum
  and maximum of the chosen metric, with missing cells skipped.
- **ANOVA section** (`Comparison`). It runs only when at least two countries
  are selected, on one value vector per selected country in selection order.
  The result is "significant" exactly when p < 0.05.
- **Key insight** (`Ranking`). The country with the highest group mean
  (`idxmax`, where ties go to the first key) and that mean (`max`).
- **The page** (`Dashboard`). The whole flow, from the three tables and the
  two sidebar choices to the summary, the comparison and the insight.

Missing cells (pandas NaN) are `Option<real>` values equal to `None`. The
p-value of `scipy.stats.f_oneway` is the opaque function parameter `oneWay`,
applied to the groups the dashboard builds. A NaN p-value is `None`, and Python
evaluates `p < 0.05` to false for it.

Some behaviour one might expect of such a dashboard is not in the code, and the
model follows the code:
- The ANOVA groups are the raw `.values` of each country's column, missing
  cells included. The code does not drop missing values or exclude small
  groups.
- The gate counts the selected countries, not the countries present in the
  data.
- The code has no source-schema or aggregation errors. It wraps the whole load
  in one `try`, which is I/O and is left out.
- When every group mean is missing, pandas' `idxmax` depends on the pandas
  version. The model reports a distinct `NoMeans` outcome rather than a
  `NoDataError`.

## Model

| member | source | states |
|---|---|---|
| `Dataset.Tag` | app/main.py:52-54 | every row of a tagged table carries the given label and the reading it came from, position by position |
| `Dataset.ReadingsOfTag` | app/main.py:52-54 | dropping the label again gives back the table unchanged |
| `Dataset.Combine` | app/main.py:57 | the combined length is the sum of the three table lengths |
| `Dataset.CombineLayout` | app/main.py:52-57 | Benin rows come first, then Sierra Leone, then Togo, each at its position within its table, with its own label and its reading unchanged |
| `Dataset.CombineIsLossless` | app/main.py:57 | without the labels, the combined dataset is exactly the three tables one after another |
| `Dataset.CombineLabels` | app/main.py:52-57 | every combined row carries one of the three country labels |
| `Dataset.Readings` | app/main.py:57 | dropping the `country` column keeps every other field of every row, in order |
| `Dataset.MetricOfKey` | app/main.py:135 | a column name selects a metric column exactly when it is `GHI`, `DNI` or `DHI`, and then selects the column of that name |
| `Dataset.Column` | app/main.py:156-157 | a metric column has one cell per row, each being that row's value of the metric |
| `Dataset.MetricNames` | app/main.py:87-90 | the select-box options are the dictionary's display names, in insertion order |
| `Dataset.Lookup` | app/main.py:91 | a dictionary lookup succeeds exactly when the name is a key, and returns that entry's value |
| `Dataset.ResolveMetric` | app/main.py:81-91 | the chosen name resolves exactly when it is a display name of the dictionary, and then to one of `GHI`, `DNI`, `DHI` |
| `Dataset.MetricAlwaysResolves` | app/main.py:81-91 | every select-box option resolves, to one of `GHI`, `DNI`, `DHI`, which is a metric column; each option resolves to its own entry; other names raise (do not resolve) |
| `Selection.Keep` | app/main.py:106 | a row is kept exactly when it is in the input and its country is selected; the result is never longer than the input |
| `Selection.KeepCounts` | app/main.py:106 | every occurrence of a selected row is kept, and no other row |
| `Selection.KeepIsSubsequence` | app/main.py:106 | the kept rows keep their original relative order |
| `Selection.KeepOfKeep` | app/main.py:106 | filtering a filtered table with a selection it already covers equals filtering the original |
| `Selection.Filter` | app/main.py:102-106 | a row is shown exactly when it is in the dataset and either nothing is selected or its country is selected; nothing is added |
| `Selection.EmptySelectionKeepsAll` | app/main.py:102-104 | an empty selection returns the combined dataset unchanged |
| `Selection.FilterSelects` | app/main.py:105-106 | a non-empty selection keeps exactly the rows of the selected countries, every occurrence, as a subsequence of the dataset |
| `Selection.FilterIsSubsequence` | app/main.py:102-106 | whatever the selection, the filtered table is a subsequence of the dataset |
| `Selection.FilterIdempotent` | app/main.py:102-106 | filtering twice with the same selection equals filtering once |
| `Selection.SelectBenin` | app/main.py:52-57 | selecting Benin from the combined dataset gives back exactly Benin's tagged table |
| `Selection.SelectSierraLeone` | app/main.py:52-57 | selecting Sierra Leone from the combined dataset gives back exactly Sierra Leone's tagged table |
| `Selection.SelectTogo` | app/main.py:52-57 | selecting Togo from the combined dataset gives back exactly Togo's tagged table |
| `Grouping.Less` | app/main.py:135 | the key order is irreflexive and a smaller first character sorts first |
| `Grouping.LessIsLexicographic` | app/main.py:135 | `a` sorts before `b` exactly when, after a common prefix, `a` ends while `b` goes on or `a` has the smaller character |
| `Grouping.LessTotal` | app/main.py:135 | the key order compares any two distinct labels |
| `Grouping.LessTransitive` | app/main.py:135 | the key order is transitive |
| `Grouping.InsertKey` | app/main.py:135 | inserting a key into strictly sorted keys keeps them strictly sorted and adds exactly that key |
| `Grouping.GroupKeys` | app/main.py:135 | the group keys are strictly sorted and are exactly the labels occurring in the table |
| `Grouping.SortedUnique` | app/main.py:135 | strictly sorted keys are determined by which keys they contain |
| `Grouping.CountriesSorted` | app/main.py:73 | the three labels, in load order, are already in group-key order |
| `Grouping.EmptySelectionGroupsAllCountries` | app/main.py:102-104 | with nothing selected (and no table empty), the grouping sees exactly Benin, Sierra Leone, Togo, in that order |
| `Stats.DropMissing` | app/main.py:135-141 | the observed values are exactly the non-missing cells |
| `Stats.DropMissingCounts` | app/main.py:135-141 | each observed value is kept as often as the column holds it |
| `Stats.DropMissingConcat` | app/main.py:135-141 | skipping missing cells keeps the order of the rest: it distributes over concatenation |
| `Stats.Mean` | app/main.py:136 | the mean is defined exactly for non-empty values, and n copies of it sum to the total |
| `Stats.Min` | app/main.py:139 | the minimum is defined exactly for non-empty values; it is one of them and no value is smaller |
| `Stats.Max` | app/main.py:140 | the maximum is defined exactly for non-empty values; it is one of them and no value is larger |
| `Stats.Sort` | app/main.py:137 | the sorted values are ascending and a permutation of the input |
| `Stats.Median` | app/main.py:137 | the median is defined exactly for non-empty values |
| `Stats.SortEnds` | app/main.py:137-140 | the sorted values start at the minimum and end at the maximum |
| `Stats.MeanWithinRange` | app/main.py:135-141 | Min <= Mean <= Max |
| `Stats.MedianWithinRange` | app/main.py:135-141 | Min <= Median <= Max, for odd and even counts |
| `Stats.SortCounts` | app/main.py:137 | sorting changes no count of values at most, or at least, a threshold |
| `Stats.SortedMiddle` | app/main.py:137 | in ascending values the middle value, or the average of the two middle ones, has at least half of the values on each side |
| `Stats.MedianSplitsValues` | app/main.py:137 | the median is a middle value: at least half of the values, counted with repeats, are at most it and at least half are at least it |
| `Summary.GroupValues` | app/main.py:135 | a group's values are exactly the observed metric values of the rows with that label |
| `Summary.GroupValuesCounts` | app/main.py:135 | a group holds each value as often as the rows with that label hold it in the metric column |
| `Summary.Describe` | app/main.py:135-141 | a summary row's statistics are all defined or all missing, defined exactly when the group has an observed value, and then equal to the mean, median, minimum and maximum of those values, ordered Min <= Median <= Max and Min <= Mean <= Max, with Min and Max bounding every value |
| `Summary.Summarize` | app/main.py:135-141 | one summary row per distinct country of the filtered rows, in strictly ascending key order, each coherent and computed over that country's observed values |
| `Summary.EmptySelectionSummarizesAllCountries` | app/main.py:135-141 | with nothing selected (and no table empty), the summary has the three countries, Benin, Sierra Leone, Togo |
| `Comparison.Judge` | app/main.py:172-175 | the verdict is significant exactly when p is defined and strictly below 0.05 |
| `Comparison.AtLevelIsNotSignificant` | app/main.py:172-175 | p = 0.05 exactly gives the "no statistically significant differences" branch |
| `Comparison.StatedClaimAsWritten` | app/main.py:172-175 | the text claims "less than 0.05" exactly in the significant branch, and "greater than 0.05" otherwise |
| `Comparison.AsWrittenClaimFailsAtLevel` | app/main.py:175 | at p = 0.05 the text as written claims "greater than 0.05", which is false |
| `Comparison.StatedClaim` | app/main.py:172-175 | the corrected text claims "below" exactly in the significant branch and never claims "greater than" |
| `Comparison.StatedClaimHolds` | app/main.py:172-175 | the corrected claim is true of every p-value |
| `Comparison.GroupColumn` | app/main.py:156-157 | a country's value vector is that country's filtered rows' metric cells, one per row, in row order, missing cells included |
| `Comparison.Compare` | app/main.py:154-175 | the test runs exactly when at least two countries are selected, on one group per selected country in selection order, each being that country's column; the verdict is significant exactly when p < 0.05; the text claims "below" exactly for a significant verdict, and (in its corrected form) what it claims is true |
| `Comparison.GroupsComeFromDataset` | app/main.py:154-157 | on the filtered data, each selected country's group is that country's whole column in the combined dataset |
| `Ranking.CountryMean` | app/main.py:193 | a country's mean is the mean of its group's observed values, defined exactly when some row of that country has an observed value |
| `Ranking.CountryMeanIsSummaryMean` | app/main.py:193 | the mean the insight ranks by is the summary table's Mean for that country |
| `Ranking.BestMatchesSummary` | app/main.py:192-194 | the best country has a summary row whose Mean is the reported best value |
| `Ranking.GroupMeans` | app/main.py:193 | there is one group mean per group key, in key order |
| `Ranking.FirstArgMax` | app/main.py:193 | the result is missing exactly when no mean is defined; otherwise it is a defined entry that no entry exceeds, and that every earlier entry is strictly below |
| `Ranking.FirstArgMaxInKeyOrder` | app/main.py:193 | over strictly sorted keys, every key sorting before the winner has a strictly smaller mean |
| `Ranking.BestCountry` | app/main.py:192-194 | there is no insight exactly when the filtered table is empty, and no best country exactly when every group mean is missing; otherwise the best country occurs in the data and its mean is the reported value |
| `Ranking.NoMeansMeansNoValues` | app/main.py:193 | with rows but no best country, no country has an observed value |
| `Ranking.BestIsMaximal` | app/main.py:193 | no country's mean exceeds the best country's |
| `Ranking.BestIsFirstAmongTies` | app/main.py:193 | a country sorting before the best one has a strictly smaller mean, so ties go to the first key |
| `Ranking.FirstArgMaxIsMax` | app/main.py:193-194 | the first largest entry holds the largest defined mean |
| `Ranking.BestValueIsMaxMean` | app/main.py:193-194 | the reported best value equals `max()` over the group means |
| `Dashboard.Render` | app/main.py:87-194 | the page is produced exactly when the metric name is a select-box option; its metric is the resolved column, its data is the filtered combined dataset, and its summary, comparison and insight are those of the filtered data |
| `Dashboard.CountryRowsAreTables` | app/main.py:52-57 | in the combined dataset, the rows of each country are exactly that country's tagged table |
| `Dashboard.AllCountriesGroups` | app/main.py:154-157 | with all three countries selected, the ANOVA groups are the Benin, Sierra Leone and Togo tables' metric columns, each in full |
| `Dashboard.DefaultSelectionComparesTables` | app/main.py:73-78 | with the default multiselect (all three countries), the page compares the three tables' metric columns |
| `Dashboard.FewSelectedSkipsComparison` | app/main.py:185-186 | with fewer than two countries selected, the warning branch is taken and no comparison exists; with none selected, all rows are kept |

## Left out

- Streamlit page configuration, CSS, titles, sidebar widgets and every `st.*`
  display call. These are presentation. The selection list and the metric
  label are inputs of `Dashboard.Render`.
- Boxplot and histogram rendering, including the loop over the selected
  countries. This is plotting only.
- CSV reading, the `try`/`except` that reports load errors, and
  `@st.cache_data` memoisation. These are I/O and framework caching. The
  three tables are in-memory sequences of readings.
- The F statistic and p-value of `scipy.stats.f_oneway`. This is a
  floating-point library call. The p-value is the opaque parameter `oneWay`,
  and F is not modelled.
- The standard-deviation column, the two-decimal rounding and the number
  formatting in the messages. These are floating-point presentation.
- All arithmetic is exact `real` arithmetic, not IEEE doubles. In particular
  the level 0.05 is exactly 1/20, while Python's `0.05` is the nearest double.
- Ranking.BestCountry: when every group mean is missing, it returns
  `NoMeans` instead of modelling pandas' version-dependent `idxmax` (a
  warning and NaN in older versions, an error in newer ones).
- Comparison.Compare: the page carries the corrected interpretation text
  (`StatedClaim`), not the text line 175 prints; the text as written is
  `StatedClaimAsWritten`, shown false at p = 0.05 by
  `AsWrittenClaimFailsAtLevel`.
- Error kinds the code does not contain (schema errors, no-data errors,
  exclusion of groups with fewer than two values) are not modelled.

## Findings

| source | as written | input that shows it | evidently intended | confidence | as-written member | corrected member |
|---|---|---|---|---|---|---|
| app/main.py:174-175 | the `else` branch of `p_value < 0.05` says the p-value "is greater than 0.05" | p = 0.05 exactly: the branch is taken, and 0.05 is not greater than 0.05 | "is not less than 0.05" (greater than or equal) | high that the text is false at the boundary; not executed | `Comparison.AsWrittenClaimFailsAtLevel` (on `Comparison.StatedClaimAsWritten`) | `Comparison.StatedClaimHolds` (on `Comparison.StatedClaim`, used by `Comparison.Compare`) |
