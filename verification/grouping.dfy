/** `groupby("country")`: the distinct country labels of a table, in the
    sorted order pandas gives group keys, and the rows of one group. */
module Grouping {
  import opened Dataset
  import opened Selection

  /** The order of Python strings: lexicographic on code points, a proper
      prefix coming first. */
  predicate Less(a: string, b: string)
    ensures Less(a, b) ==> a != b
    ensures a != [] && b != [] && a[0] < b[0] ==> Less(a, b)
    decreases |a|
  {
    if a == [] then b != []
    else if b == [] then false
    else if a[0] != b[0] then a[0] < b[0]
    else Less(a[1..], b[1..])
  }

  /** `a` and `b` agree on their first `k` characters, after which `a` ends
      while `b` goes on, or `a` has the smaller character. */
  predicate BreaksAt(a: string, b: string, k: nat)
  {
    && k <= |a| && k <= |b| && a[..k] == b[..k]
    && ((k == |a| && k < |b|) || (k < |a| && k < |b| && a[k] < b[k]))
  }

  lemma CommonPrefixHead(a: string, b: string)
    ensures forall k :: 0 < k <= |a| && k <= |b| && a[..k] == b[..k] ==> a[0] == b[0]
  {
    forall k | 0 < k <= |a| && k <= |b| && a[..k] == b[..k] ensures a[0] == b[0] {
      assert a[..k][0] == a[0] && b[..k][0] == b[0];
    }
  }

  /** The string order is the lexicographic order: `a` sorts before `b`
      exactly when there is a position where `a` breaks ahead of `b`. */
  lemma {:induction false} LessIsLexicographic(a: string, b: string)
    ensures Less(a, b) <==> exists k: nat :: BreaksAt(a, b, k)
    decreases |a|
  {
    CommonPrefixHead(a, b);
    if a == [] || b == [] || a[0] != b[0] {
      if Less(a, b) {
        assert BreaksAt(a, b, 0);
      }
    } else {
      var a', b' := a[1..], b[1..];
      LessIsLexicographic(a', b');
      if Less(a, b) {
        var k: nat :| BreaksAt(a', b', k);
        assert a[..k + 1] == [a[0]] + a'[..k];
        assert b[..k + 1] == [b[0]] + b'[..k];
        assert BreaksAt(a, b, k + 1);
      }
      forall k: nat | BreaksAt(a, b, k) ensures Less(a, b) {
        assert k > 0;
        assert a'[..k - 1] == a[..k][1..] == b[..k][1..] == b'[..k - 1];
        assert BreaksAt(a', b', k - 1);
      }
    }
  }

  lemma {:induction false} LessIrreflexive(a: string)
    ensures !Less(a, a)
  {
    if a != [] {
      LessIrreflexive(a[1..]);
    }
  }

  lemma {:induction false} LessAsymmetric(a: string, b: string)
    ensures Less(a, b) ==> !Less(b, a)
    decreases |a|
  {
    if a != [] && b != [] && a[0] == b[0] {
      LessAsymmetric(a[1..], b[1..]);
    }
  }

  lemma {:induction false} LessTransitive(a: string, b: string, c: string)
    requires Less(a, b) && Less(b, c)
    ensures Less(a, c)
    decreases |a|
  {
    if a != [] && a[0] == b[0] && b[0] == c[0] {
      LessTransitive(a[1..], b[1..], c[1..]);
    }
  }

  lemma {:induction false} LessTotal(a: string, b: string)
    requires a != b
    ensures Less(a, b) || Less(b, a)
    decreases |a|
  {
    if a != [] && b != [] && a[0] == b[0] {
      assert a == [a[0]] + a[1..] && b == [b[0]] + b[1..];
      LessTotal(a[1..], b[1..]);
    }
  }

  predicate StrictlySorted(keys: seq<string>)
  {
    forall i, j :: 0 <= i < j < |keys| ==> Less(keys[i], keys[j])
  }

  /** Some row of the table has this country label. */
  predicate Occurs(rows: seq<Row>, country: string)
  {
    exists r :: r in rows && r.country == country
  }

  /** Adds a key to a sorted list of distinct keys, unless it is there already. */
  function InsertKey(key: string, keys: seq<string>): (r: seq<string>)
    requires StrictlySorted(keys)
    ensures StrictlySorted(r)
    ensures forall c :: c in r <==> c == key || c in keys
  {
    if keys == [] then [key]
    else if key == keys[0] then keys
    else if Less(key, keys[0]) then
      assert forall j :: 0 < j < |keys| ==> Less(key, keys[j]) by {
        forall j | 0 < j < |keys| ensures Less(key, keys[j]) {
          LessTransitive(key, keys[0], keys[j]);
        }
      }
      [key] + keys
    else
      LessTotal(key, keys[0]);
      var rest := InsertKey(key, keys[1..]);
      assert forall c :: c in rest ==> Less(keys[0], c);
      [keys[0]] + rest
  }

  /** The group keys of a table: its distinct country labels, sorted. */
  function GroupKeys(rows: seq<Row>): (keys: seq<string>)
    ensures StrictlySorted(keys)
    ensures forall c :: c in keys <==> Occurs(rows, c)
  {
    if rows == [] then []
    else
      var keys := InsertKey(rows[0].country, GroupKeys(rows[1..]));
      assert forall c :: Occurs(rows, c) <==> c == rows[0].country || Occurs(rows[1..], c) by {
        assert rows == [rows[0]] + rows[1..];
      }
      keys
  }

  /** A sorted list of distinct keys is determined by its elements. */
  lemma {:induction false} SortedUnique(a: seq<string>, b: seq<string>)
    requires StrictlySorted(a) && StrictlySorted(b)
    requires forall c :: c in a <==> c in b
    ensures a == b
  {
    assert a != [] ==> a[0] in a;
    assert b != [] ==> b[0] in b;
    if a != [] && b != [] {
      if a[0] != b[0] {
        assert b[0] in a && a[0] in b;
        var i :| 0 <= i < |a| && a[i] == b[0];
        var j :| 0 <= j < |b| && b[j] == a[0];
        assert i != 0 && j != 0;
        LessAsymmetric(a[0], b[0]);
        assert false;
      }
      assert a == [a[0]] + a[1..] && b == [b[0]] + b[1..];
      LessIrreflexive(a[0]);
      forall c
        ensures c in a[1..] <==> c in b[1..]
      {
        if c in a[1..] {
          var i :| 0 <= i < |a[1..]| && a[1..][i] == c;
          assert Less(a[0], a[i + 1]);
          assert c in b && c != b[0];
          var k :| 0 <= k < |b| && b[k] == c;
          assert b[1..][k - 1] == c;
        }
        if c in b[1..] {
          var j :| 0 <= j < |b[1..]| && b[1..][j] == c;
          assert Less(b[0], b[j + 1]);
          assert c in a && c != a[0];
          var k :| 0 <= k < |a| && a[k] == c;
          assert a[1..][k - 1] == c;
        }
      }
      SortedUnique(a[1..], b[1..]);
    }
  }

  /** The country labels, in the order they are concatenated, are already in
      group-key order. */
  lemma CountriesSorted()
    ensures StrictlySorted(COUNTRIES)
  {
    assert Less(BENIN, SIERRA_LEONE) by {
      assert BENIN[0] == 'B' && SIERRA_LEONE[0] == 'S';
    }
    assert Less(SIERRA_LEONE, TOGO) by {
      assert SIERRA_LEONE[0] == 'S' && TOGO[0] == 'T';
    }
    LessTransitive(BENIN, SIERRA_LEONE, TOGO);
  }

  /** With nothing selected the grouping sees all three countries (as long as
      each table has a row), in the order Benin, Sierra Leone, Togo. */
  lemma EmptySelectionGroupsAllCountries(benin: seq<Reading>, sierraLeone: seq<Reading>, togo: seq<Reading>)
    requires benin != [] && sierraLeone != [] && togo != []
    ensures GroupKeys(Filter(Combine(benin, sierraLeone, togo), [])) == COUNTRIES
  {
    var all := Combine(benin, sierraLeone, togo);
    CombineLayout(benin, sierraLeone, togo);
    assert all[0].country == BENIN;
    assert all[|benin|].country == SIERRA_LEONE;
    assert all[|benin| + |sierraLeone|].country == TOGO;
    forall c
      ensures c in GroupKeys(all) <==> c in COUNTRIES
    {
      if c in COUNTRIES {
        if c == BENIN {
          assert all[0] in all;
        } else if c == SIERRA_LEONE {
          assert all[|benin|] in all;
        } else {
          assert all[|benin| + |sierraLeone|] in all;
        }
      }
      CombineLabels(benin, sierraLeone, togo);
    }
    CountriesSorted();
    SortedUnique(GroupKeys(all), COUNTRIES);
  }
}
