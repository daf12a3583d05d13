/** The unified dataset of the dashboard: the three cleaned country tables,
    each row stamped with its country label, concatenated in a fixed order;
    and the metric the user picks, resolved through a fixed display-name table. */
module Dataset {
  import opened Options

  /** One row of a cleaned per-country table as read from disk: the three
      irradiance columns (None for a missing cell) and the remaining cells,
      carried through untouched. */
  datatype Reading = Reading(ghi: Option<real>, dni: Option<real>, dhi: Option<real>, others: seq<string>)

  /** A row of the unified dataset: a reading plus its `country` column. */
  datatype Row = Row(country: string, reading: Reading)

  const BENIN: string := "Benin"
  const SIERRA_LEONE: string := "Sierra Leone"
  const TOGO: string := "Togo"

  /** The options of the country multiselect, which are also its default. */
  const COUNTRIES: seq<string> := [BENIN, SIERRA_LEONE, TOGO]

  /** Assigning a constant `country` column: every reading becomes a row with that label. */
  function Tag(table: seq<Reading>, country: string): (rows: seq<Row>)
    ensures |rows| == |table|
    ensures forall i :: 0 <= i < |rows| ==> rows[i].country == country && rows[i].reading == table[i]
  {
    if table == [] then [] else [Row(country, table[0])] + Tag(table[1..], country)
  }

  /** Dropping the `country` column again. */
  function Readings(rows: seq<Row>): (table: seq<Reading>)
    ensures |table| == |rows|
    ensures forall i :: 0 <= i < |rows| ==> table[i] == rows[i].reading
  {
    if rows == [] then [] else [rows[0].reading] + Readings(rows[1..])
  }

  /** Tagging loses nothing: untagging gives back the table. */
  lemma ReadingsOfTag(table: seq<Reading>, country: string)
    ensures Readings(Tag(table, country)) == table
  {
  }

  /** The body of `load_data`: tag each table and concatenate them,
      Benin first, then Sierra Leone, then Togo, renumbering the index. */
  function Combine(benin: seq<Reading>, sierraLeone: seq<Reading>, togo: seq<Reading>): (all: seq<Row>)
    ensures |all| == |benin| + |sierraLeone| + |togo|
  {
    Tag(benin, BENIN) + Tag(sierraLeone, SIERRA_LEONE) + Tag(togo, TOGO)
  }

  /** The layout of the unified dataset: the Benin rows first, then the
      Sierra Leone rows, then the Togo rows, each with its own label and its
      reading unchanged, at its position within its table. */
  lemma CombineLayout(benin: seq<Reading>, sierraLeone: seq<Reading>, togo: seq<Reading>)
    ensures forall i :: 0 <= i < |benin| ==> Combine(benin, sierraLeone, togo)[i] == Row(BENIN, benin[i])
    ensures forall i :: 0 <= i < |sierraLeone| ==>
      Combine(benin, sierraLeone, togo)[|benin| + i] == Row(SIERRA_LEONE, sierraLeone[i])
    ensures forall i :: 0 <= i < |togo| ==>
      Combine(benin, sierraLeone, togo)[|benin| + |sierraLeone| + i] == Row(TOGO, togo[i])
  {
    var b, s, t := Tag(benin, BENIN), Tag(sierraLeone, SIERRA_LEONE), Tag(togo, TOGO);
    var all := b + s + t;
    assert Combine(benin, sierraLeone, togo) == all;
    forall i | 0 <= i < |benin| ensures all[i] == Row(BENIN, benin[i]) {
      assert all[i] == (b + s)[i] == b[i];
    }
    forall i | 0 <= i < |sierraLeone| ensures all[|benin| + i] == Row(SIERRA_LEONE, sierraLeone[i]) {
      assert all[|benin| + i] == (b + s)[|benin| + i] == s[i];
    }
    forall i | 0 <= i < |togo| ensures all[|benin| + |sierraLeone| + i] == Row(TOGO, togo[i]) {
      assert all[|b + s| + i] == t[i];
    }
  }

  lemma {:induction false} ReadingsOfConcat(a: seq<Row>, b: seq<Row>)
    ensures Readings(a + b) == Readings(a) + Readings(b)
  {
    if a == [] {
      assert a + b == b;
    } else {
      assert (a + b)[1..] == a[1..] + b;
      ReadingsOfConcat(a[1..], b);
    }
  }

  /** The concatenation is lossless and keeps the order of the tables and of
      the rows within each table: dropping the labels gives the three tables
      one after the other. */
  lemma CombineIsLossless(benin: seq<Reading>, sierraLeone: seq<Reading>, togo: seq<Reading>)
    ensures Readings(Combine(benin, sierraLeone, togo)) == benin + sierraLeone + togo
  {
    ReadingsOfConcat(Tag(benin, BENIN) + Tag(sierraLeone, SIERRA_LEONE), Tag(togo, TOGO));
    ReadingsOfConcat(Tag(benin, BENIN), Tag(sierraLeone, SIERRA_LEONE));
    ReadingsOfTag(benin, BENIN);
    ReadingsOfTag(sierraLeone, SIERRA_LEONE);
    ReadingsOfTag(togo, TOGO);
  }

  /** Every row of the unified dataset carries one of the three labels. */
  lemma CombineLabels(benin: seq<Reading>, sierraLeone: seq<Reading>, togo: seq<Reading>)
    ensures forall r :: r in Combine(benin, sierraLeone, togo) ==> r.country in COUNTRIES
  {
    CombineLayout(benin, sierraLeone, togo);
  }

  /** The three solar metrics, that is the columns `GHI`, `DNI` and `DHI`. */
  datatype Metric = GHI | DNI | DHI

  /** The column name of a metric. */
  function ColumnKey(m: Metric): string
  {
    match m
    case GHI => "GHI"
    case DNI => "DNI"
    case DHI => "DHI"
  }

  /** Selecting a column by its name: the dataset has exactly these three
      metric columns, any other name is a missing column (a KeyError). */
  function MetricOfKey(key: string): (m: Option<Metric>)
    ensures m.Some? <==> key in ["GHI", "DNI", "DHI"]
    ensures m.Some? ==> ColumnKey(m.value) == key
  {
    if key == "GHI" then Some(GHI)
    else if key == "DNI" then Some(DNI)
    else if key == "DHI" then Some(DHI)
    else None
  }

  /** The cell of a row in a metric column. */
  function Value(r: Row, m: Metric): Option<real>
  {
    match m
    case GHI => r.reading.ghi
    case DNI => r.reading.dni
    case DHI => r.reading.dhi
  }

  /** A metric column of a table, missing cells included (`df[metric].values`). */
  function Column(rows: seq<Row>, m: Metric): (col: seq<Option<real>>)
    ensures |col| == |rows|
    ensures forall i :: 0 <= i < |rows| ==> col[i] == Value(rows[i], m)
  {
    if rows == [] then [] else [Value(rows[0], m)] + Column(rows[1..], m)
  }

  lemma {:induction false} ColumnConcat(a: seq<Row>, b: seq<Row>, m: Metric)
    ensures Column(a + b, m) == Column(a, m) + Column(b, m)
  {
    if a == [] {
      assert a + b == b;
    } else {
      assert (a + b)[1..] == a[1..] + b;
      ColumnConcat(a[1..], b, m);
    }
  }

  /** One entry of the display-name dictionary: a name shown in the metric
      select box and the column key it stands for. */
  datatype MetricOption = MetricOption(name: string, key: string)

  /** The display-name dictionary, in insertion order. */
  const METRIC_OPTIONS: seq<MetricOption> := [
    MetricOption("GHI (Global Horizontal Irradiance)", "GHI"),
    MetricOption("DNI (Direct Normal Irradiance)", "DNI"),
    MetricOption("DHI (Diffuse Horizontal Irradiance)", "DHI")
  ]

  /** The options of the select box: the dictionary's keys, in order. */
  function MetricNames(): (names: seq<string>)
    ensures |names| == |METRIC_OPTIONS|
    ensures forall i :: 0 <= i < |names| ==> names[i] == METRIC_OPTIONS[i].name
  {
    seq(|METRIC_OPTIONS|, i requires 0 <= i < |METRIC_OPTIONS| => METRIC_OPTIONS[i].name)
  }

  /** Dictionary lookup of a name in an association list (first match). */
  function Lookup(options: seq<MetricOption>, name: string): (key: Option<string>)
    ensures key.Some? <==> exists i :: 0 <= i < |options| && options[i].name == name
    ensures key.Some? ==> exists i :: 0 <= i < |options| && options[i] == MetricOption(name, key.value)
  {
    if options == [] then None
    else if options[0].name == name then Some(options[0].key)
    else Lookup(options[1..], name)
  }

  /** `metric_options[selected_metric_name]`; None stands for the KeyError an
      unknown name would raise. */
  function ResolveMetric(name: string): (key: Option<string>)
    ensures key.Some? <==> exists i :: 0 <= i < |METRIC_OPTIONS| && METRIC_OPTIONS[i].name == name
    ensures key.Some? ==> key.value in ["GHI", "DNI", "DHI"]
  {
    Lookup(METRIC_OPTIONS, name)
  }

  /** Every name the select box can offer resolves, to a column key that is
      one of `GHI`, `DNI` and `DHI`, and so to a metric column of the dataset;
      each name resolves to its own entry's key, so the three names pick the
      three columns. Labels outside the select box do not resolve. */
  lemma MetricAlwaysResolves(name: string)
    ensures name in MetricNames() <==> ResolveMetric(name).Some?
    ensures name in MetricNames() ==>
      && ResolveMetric(name).value in ["GHI", "DNI", "DHI"]
      && MetricOfKey(ResolveMetric(name).value).Some?
    ensures forall i :: 0 <= i < |METRIC_OPTIONS| ==> ResolveMetric(METRIC_OPTIONS[i].name) == Some(METRIC_OPTIONS[i].key)
  {
  }
}
