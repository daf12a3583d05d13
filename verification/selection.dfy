/** The country filter: an empty selection shows everything, a non-empty one
    keeps the rows of the selected countries. */
module Selection {
  import opened Dataset

  /** A boolean-mask filter on `country.isin(selection)`: keeps, in order,
      every row whose country is selected and no other. Names in the
      selection that label no row simply match nothing. */
  function Keep(rows: seq<Row>, selection: seq<string>): (kept: seq<Row>)
    ensures |kept| <= |rows|
    ensures forall r :: r in kept <==> r in rows && r.country in selection
  {
    if rows == [] then []
    else (if rows[0].country in selection then [rows[0]] else []) + Keep(rows[1..], selection)
  }

  /** Keep drops no occurrence of a selected row: each appears as often as in the input. */
  lemma {:induction false} KeepCounts(rows: seq<Row>, selection: seq<string>, r: Row)
    ensures multiset(Keep(rows, selection))[r] == if r.country in selection then multiset(rows)[r] else 0
  {
    if rows != [] {
      assert rows == [rows[0]] + rows[1..];
      KeepCounts(rows[1..], selection, r);
    }
  }

  /** The filter of the dashboard, with its explicit empty-selection policy:
      when nothing is selected the whole dataset passes through, so that the
      page does not go blank. */
  function Filter(all: seq<Row>, selection: seq<string>): (shown: seq<Row>)
    ensures |shown| <= |all|
    ensures forall r :: r in shown <==> r in all && (selection == [] || r.country in selection)
  {
    if selection == [] then all else Keep(all, selection)
  }

  /** `a` is obtained from `b` by deleting elements, keeping the order of the rest. */
  predicate IsSubsequence<T(==)>(a: seq<T>, b: seq<T>)
    decreases |b|
  {
    if a == [] then true
    else if b == [] then false
    else (a[0] == b[0] && IsSubsequence(a[1..], b[1..])) || IsSubsequence(a, b[1..])
  }

  /** Filtering never reorders: the kept rows are a subsequence of the input. */
  lemma {:induction false} KeepIsSubsequence(rows: seq<Row>, selection: seq<string>)
    ensures IsSubsequence(Keep(rows, selection), rows)
  {
    if rows != [] {
      var rest := Keep(rows[1..], selection);
      KeepIsSubsequence(rows[1..], selection);
      if rows[0].country in selection {
        assert Keep(rows, selection) == [rows[0]] + rest;
      } else {
        assert Keep(rows, selection) == rest;
      }
    }
  }

  lemma {:induction false} KeepConcat(a: seq<Row>, b: seq<Row>, selection: seq<string>)
    ensures Keep(a + b, selection) == Keep(a, selection) + Keep(b, selection)
  {
    if a == [] {
      assert a + b == b;
    } else {
      assert (a + b)[1..] == a[1..] + b;
      KeepConcat(a[1..], b, selection);
    }
  }

  /** Filtering a filtered table with a selection that selects nothing new is
      the same as filtering the original with that selection. */
  lemma {:induction false} KeepOfKeep(rows: seq<Row>, outer: seq<string>, inner: seq<string>)
    requires forall c :: c in inner ==> c in outer
    ensures Keep(Keep(rows, outer), inner) == Keep(rows, inner)
  {
    if rows != [] {
      KeepOfKeep(rows[1..], outer, inner);
      if rows[0].country in outer {
        assert Keep(rows, outer) == [rows[0]] + Keep(rows[1..], outer);
        assert Keep(rows, outer)[1..] == Keep(rows[1..], outer);
      } else {
        assert rows[0].country !in inner;
        assert Keep(rows, outer) == Keep(rows[1..], outer);
      }
    }
  }

  /** An empty selection hands the whole combined dataset on unchanged. */
  lemma EmptySelectionKeepsAll(all: seq<Row>)
    ensures Filter(all, []) == all
  {
  }

  /** A non-empty selection keeps exactly the selected countries' rows, all
      their occurrences, in their original relative order. */
  lemma FilterSelects(all: seq<Row>, selection: seq<string>)
    requires selection != []
    ensures forall r :: r in Filter(all, selection) <==> r in all && r.country in selection
    ensures forall r :: multiset(Filter(all, selection))[r] == if r.country in selection then multiset(all)[r] else 0
    ensures IsSubsequence(Filter(all, selection), all)
  {
    KeepIsSubsequence(all, selection);
    forall r {
      KeepCounts(all, selection, r);
    }
  }

  /** Whatever the selection, the filtered table is a subsequence of the dataset. */
  lemma FilterIsSubsequence(all: seq<Row>, selection: seq<string>)
    ensures IsSubsequence(Filter(all, selection), all)
  {
    if selection == [] {
      SubsequenceReflexive(all);
    } else {
      KeepIsSubsequence(all, selection);
    }
  }

  lemma {:induction false} SubsequenceReflexive<T>(s: seq<T>)
    ensures IsSubsequence(s, s)
  {
    if s != [] {
      SubsequenceReflexive(s[1..]);
    }
  }

  /** Filtering twice with the same selection is filtering once. */
  lemma FilterIdempotent(all: seq<Row>, selection: seq<string>)
    ensures Filter(Filter(all, selection), selection) == Filter(all, selection)
  {
    if selection != [] {
      KeepOfKeep(all, selection, selection);
    }
  }

  /** A table tagged with a selected label is kept whole. */
  lemma {:induction false} KeepTagSelected(table: seq<Reading>, country: string, selection: seq<string>)
    requires country in selection
    ensures Keep(Tag(table, country), selection) == Tag(table, country)
  {
    if table != [] {
      assert Tag(table, country)[1..] == Tag(table[1..], country);
      KeepTagSelected(table[1..], country, selection);
    }
  }

  /** A table tagged with a label that is not selected is dropped whole. */
  lemma {:induction false} KeepTagUnselected(table: seq<Reading>, country: string, selection: seq<string>)
    requires country !in selection
    ensures Keep(Tag(table, country), selection) == []
  {
    if table != [] {
      assert Tag(table, country)[1..] == Tag(table[1..], country);
      KeepTagUnselected(table[1..], country, selection);
    }
  }

  lemma KeepOfThree(a: seq<Row>, b: seq<Row>, c: seq<Row>, selection: seq<string>)
    ensures Keep(a + b + c, selection) == Keep(a, selection) + Keep(b, selection) + Keep(c, selection)
  {
    KeepConcat(a + b, c, selection);
    KeepConcat(a, b, selection);
  }

  lemma LabelsDistinct()
    ensures BENIN != SIERRA_LEONE && BENIN != TOGO && SIERRA_LEONE != TOGO
  {
    assert |BENIN| == 5 && |SIERRA_LEONE| == 12 && |TOGO| == 4;
  }

  /** Selecting Benin from the unified dataset gives back Benin's table. */
  lemma SelectBenin(benin: seq<Reading>, sierraLeone: seq<Reading>, togo: seq<Reading>)
    ensures Keep(Combine(benin, sierraLeone, togo), [BENIN]) == Tag(benin, BENIN)
  {
    var b, s, t := Tag(benin, BENIN), Tag(sierraLeone, SIERRA_LEONE), Tag(togo, TOGO);
    KeepOfThree(b, s, t, [BENIN]);
    LabelsDistinct();
    KeepTagSelected(benin, BENIN, [BENIN]);
    KeepTagUnselected(sierraLeone, SIERRA_LEONE, [BENIN]);
    KeepTagUnselected(togo, TOGO, [BENIN]);
    assert b + [] + [] == b;
  }

  /** Selecting Sierra Leone from the unified dataset gives back its table. */
  lemma SelectSierraLeone(benin: seq<Reading>, sierraLeone: seq<Reading>, togo: seq<Reading>)
    ensures Keep(Combine(benin, sierraLeone, togo), [SIERRA_LEONE]) == Tag(sierraLeone, SIERRA_LEONE)
  {
    var b, s, t := Tag(benin, BENIN), Tag(sierraLeone, SIERRA_LEONE), Tag(togo, TOGO);
    KeepOfThree(b, s, t, [SIERRA_LEONE]);
    LabelsDistinct();
    KeepTagUnselected(benin, BENIN, [SIERRA_LEONE]);
    KeepTagSelected(sierraLeone, SIERRA_LEONE, [SIERRA_LEONE]);
    KeepTagUnselected(togo, TOGO, [SIERRA_LEONE]);
    assert [] + s + [] == s;
  }

  /** Selecting Togo from the unified dataset gives back Togo's table. */
  lemma SelectTogo(benin: seq<Reading>, sierraLeone: seq<Reading>, togo: seq<Reading>)
    ensures Keep(Combine(benin, sierraLeone, togo), [TOGO]) == Tag(togo, TOGO)
  {
    var b, s, t := Tag(benin, BENIN), Tag(sierraLeone, SIERRA_LEONE), Tag(togo, TOGO);
    KeepOfThree(b, s, t, [TOGO]);
    LabelsDistinct();
    KeepTagUnselected(benin, BENIN, [TOGO]);
    KeepTagUnselected(sierraLeone, SIERRA_LEONE, [TOGO]);
    KeepTagSelected(togo, TOGO, [TOGO]);
    assert [] + [] + t == t;
  }
}
