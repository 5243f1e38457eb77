/** Sums over a view: metric totals that skip missing cells, and group-by sums
    whose groups come out in ascending key order, as a pandas groupby-sum
    produces them. */
module Aggregates {
  import opened Records
  import opened KeyOrder

  /** The sum of the metric's present values; a missing cell adds nothing and
      an empty view totals 0. */
  function Total(rows: seq<Row>, m: Metric): (t: real)
    ensures (forall r :: r in rows && MetricOf(r, m).Some? ==> MetricOf(r, m).value >= 0.0) ==> t >= 0.0
  {
    if |rows| == 0 then 0.0
    else
      assert forall r :: r in rows[1..] ==> r in rows;
      match MetricOf(rows[0], m)
      case None => Total(rows[1..], m)
      case Some(x) => x + Total(rows[1..], m)
  }

  /** The present values of a metric, in row order. */
  function PresentValues(rows: seq<Row>, m: Metric): (xs: seq<real>)
    ensures |xs| <= |rows|
  {
    if |rows| == 0 then []
    else
      match MetricOf(rows[0], m)
      case None => PresentValues(rows[1..], m)
      case Some(x) => [x] + PresentValues(rows[1..], m)
  }

  function Sum(xs: seq<real>): real
  {
    if |xs| == 0 then 0.0 else xs[0] + Sum(xs[1..])
  }

  /** The total is the sum over the values that are present: missing cells are
      dropped before summing, so a view whose cells are all missing totals 0. */
  lemma {:induction false} TotalIsSumOfPresent(rows: seq<Row>, m: Metric)
    ensures Total(rows, m) == Sum(PresentValues(rows, m))
    ensures |PresentValues(rows, m)| == 0 ==> Total(rows, m) == 0.0
  {
    if |rows| > 0 {
      TotalIsSumOfPresent(rows[1..], m);
    }
  }

  lemma {:induction false} TotalAppend(a: seq<Row>, b: seq<Row>, m: Metric)
    ensures Total(a + b, m) == Total(a, m) + Total(b, m)
  {
    if |a| > 0 {
      assert (a + b)[1..] == a[1..] + b;
      TotalAppend(a[1..], b, m);
    } else {
      assert a + b == b;
    }
  }

  /** The rows whose grouping key is complete; pandas drops the others. */
  function Keyed(rows: seq<Row>, dims: seq<Dimension>): (k: seq<Row>)
    ensures |k| <= |rows|
    ensures forall r :: r in k <==> r in rows && KeyOf(r, dims).Some?
  {
    if |rows| == 0 then []
    else
      assert rows == [rows[0]] + rows[1..];
      var rest := Keyed(rows[1..], dims);
      if KeyOf(rows[0], dims).Some? then [rows[0]] + rest else rest
  }

  /** The rows of one group, in order. */
  function WithKey(rows: seq<Row>, dims: seq<Dimension>, k: Key): (w: seq<Row>)
    ensures |w| <= |rows|
    ensures forall r :: r in w <==> r in rows && KeyOf(r, dims) == Some(k)
  {
    if |rows| == 0 then []
    else
      assert rows == [rows[0]] + rows[1..];
      var rest := WithKey(rows[1..], dims, k);
      if KeyOf(rows[0], dims) == Some(k) then [rows[0]] + rest else rest
  }

  lemma {:induction false} KeyedAll(rows: seq<Row>, dims: seq<Dimension>)
    requires forall r :: r in rows ==> KeyOf(r, dims).Some?
    ensures Keyed(rows, dims) == rows
  {
    if |rows| > 0 {
      assert rows[0] in rows;
      assert forall r :: r in rows[1..] ==> r in rows;
      KeyedAll(rows[1..], dims);
    }
  }

  /** The rows a grouping keeps, and the rows of one group, each occur as
      often as in the view. */
  lemma {:induction false} KeyedCounts(rows: seq<Row>, dims: seq<Dimension>, k: Key)
    ensures forall r :: multiset(Keyed(rows, dims))[r] == if KeyOf(r, dims).Some? then multiset(rows)[r] else 0
    ensures forall r :: multiset(WithKey(rows, dims, k))[r] == if KeyOf(r, dims) == Some(k) then multiset(rows)[r] else 0
  {
    if |rows| > 0 {
      KeyedCounts(rows[1..], dims, k);
      assert rows == [rows[0]] + rows[1..];
    }
  }

  /** The rows a grouping keeps, and the rows of one group, are in the view's
      order. */
  lemma {:induction false} KeyedInOrder(rows: seq<Row>, dims: seq<Dimension>, k: Key)
    ensures IsSubsequence(Keyed(rows, dims), rows)
    ensures IsSubsequence(WithKey(rows, dims, k), rows)
  {
    if |rows| > 0 {
      KeyedInOrder(rows[1..], dims, k);
      if KeyOf(rows[0], dims).None? {
        SubsequenceSkip(Keyed(rows[1..], dims), rows);
      }
      if KeyOf(rows[0], dims) != Some(k) {
        SubsequenceSkip(WithKey(rows[1..], dims, k), rows);
      }
    }
  }

  /** One line of a grouped result. */
  datatype Group = Group(key: Key, sum: real)

  function KeysOf(g: seq<Group>): set<Key>
  {
    set i | 0 <= i < |g| :: g[i].key
  }

  /** The sum recorded for a key; 0 when the key has no line. */
  function Lookup(g: seq<Group>, k: Key): real
  {
    if |g| == 0 then 0.0
    else if g[0].key == k then g[0].sum
    else Lookup(g[1..], k)
  }

  function SumOf(g: seq<Group>): real
  {
    if |g| == 0 then 0.0 else g[0].sum + SumOf(g[1..])
  }

  /** Keys strictly ascending, hence also pairwise distinct. */
  ghost predicate Ascending(g: seq<Group>)
  {
    forall i, j :: 0 <= i < j < |g| ==> KeyLess(g[i].key, g[j].key)
  }

  lemma AscendingTail(g: seq<Group>)
    requires Ascending(g) && |g| > 0
    ensures Ascending(g[1..])
    ensures forall k :: k in KeysOf(g[1..]) ==> KeyLess(g[0].key, k)
  {
    forall k | k in KeysOf(g[1..]) ensures KeyLess(g[0].key, k) {
      var i :| 0 <= i < |g[1..]| && g[1..][i].key == k;
      assert g[i + 1].key == k;
    }
  }

  lemma {:induction false} LookupAbsent(g: seq<Group>, k: Key)
    requires k !in KeysOf(g)
    ensures Lookup(g, k) == 0.0
  {
    if |g| > 0 {
      assert g[0].key in KeysOf(g);
      assert KeysOf(g[1..]) <= KeysOf(g) by {
        forall x | x in KeysOf(g[1..]) ensures x in KeysOf(g) {
          var i :| 0 <= i < |g[1..]| && g[1..][i].key == x;
          assert g[i + 1].key == x;
        }
      }
      LookupAbsent(g[1..], k);
    }
  }

  /** In an ascending result each line is what Lookup finds for its key. */
  lemma {:induction false} LookupAt(g: seq<Group>, i: nat)
    requires Ascending(g) && i < |g|
    ensures Lookup(g, g[i].key) == g[i].sum
  {
    if i > 0 {
      assert KeyLess(g[0].key, g[i].key);
      KeyLessIrreflexive(g[i].key);
      AscendingTail(g);
      LookupAt(g[1..], i - 1);
    }
  }

  lemma KeysSplit(g: seq<Group>)
    requires |g| > 0
    ensures KeysOf(g) == {g[0].key} + KeysOf(g[1..])
  {
    assert forall x :: x in KeysOf(g[1..]) ==> x in KeysOf(g) by {
      forall x | x in KeysOf(g[1..]) ensures x in KeysOf(g) {
        var i :| 0 <= i < |g[1..]| && g[1..][i].key == x;
        assert g[i + 1].key == x;
      }
    }
    assert forall x :: x in KeysOf(g) ==> x == g[0].key || x in KeysOf(g[1..]) by {
      forall x | x in KeysOf(g) ensures x == g[0].key || x in KeysOf(g[1..]) {
        var i :| 0 <= i < |g| && g[i].key == x;
        if i > 0 {
          assert g[1..][i - 1].key == x;
        }
      }
    }
  }

  /** Add one row's contribution `v` to the line of key `k`, opening a line in
      key order when there is none yet. */
  function Accumulate(g: seq<Group>, k: Key, v: real): seq<Group>
  {
    if |g| == 0 then [Group(k, v)]
    else if g[0].key == k then [Group(k, g[0].sum + v)] + g[1..]
    else if KeyLess(k, g[0].key) then [Group(k, v)] + g
    else [g[0]] + Accumulate(g[1..], k, v)
  }

  lemma {:induction false} AccumulateKeys(g: seq<Group>, k: Key, v: real)
    ensures KeysOf(Accumulate(g, k, v)) == KeysOf(g) + {k}
  {
    var r := Accumulate(g, k, v);
    if |g| > 0 {
      KeysSplit(g);
      KeysSplit(r);
      if g[0].key == k {
        assert r[1..] == g[1..];
      } else if KeyLess(k, g[0].key) {
        assert r[1..] == g;
      } else {
        AccumulateKeys(g[1..], k, v);
        assert r[1..] == Accumulate(g[1..], k, v);
      }
    } else {
      KeysSplit(r);
    }
  }

  lemma {:induction false} AccumulateSum(g: seq<Group>, k: Key, v: real)
    ensures SumOf(Accumulate(g, k, v)) == SumOf(g) + v
  {
    var r := Accumulate(g, k, v);
    if |g| > 0 {
      if g[0].key == k {
        assert r[1..] == g[1..];
      } else if KeyLess(k, g[0].key) {
        assert r[1..] == g;
      } else {
        AccumulateSum(g[1..], k, v);
        assert r[1..] == Accumulate(g[1..], k, v);
      }
    }
  }

  /** A key below the first key of an ascending result is below all of them. */
  lemma BelowAll(g: seq<Group>, k: Key)
    requires Ascending(g) && |g| > 0 && KeyLess(k, g[0].key)
    ensures forall j :: 0 <= j < |g| ==> KeyLess(k, g[j].key)
    ensures k !in KeysOf(g)
  {
    forall j | 0 < j < |g| ensures KeyLess(k, g[j].key) {
      KeyLessTransitive(k, g[0].key, g[j].key);
    }
    if k in KeysOf(g) {
      var i :| 0 <= i < |g| && g[i].key == k;
      KeyLessIrreflexive(k);
    }
  }

  lemma {:induction false} AccumulateAscending(g: seq<Group>, k: Key, v: real)
    requires Ascending(g)
    ensures Ascending(Accumulate(g, k, v))
  {
    var r := Accumulate(g, k, v);
    if |g| > 0 {
      if g[0].key == k {
        assert forall j :: 0 <= j < |r| ==> r[j].key == g[j].key;
      } else if KeyLess(k, g[0].key) {
        BelowAll(g, k);
        assert forall j :: 0 < j < |r| ==> r[j] == g[j - 1];
      } else {
        KeyLessTotal(k, g[0].key);
        AscendingTail(g);
        AccumulateAscending(g[1..], k, v);
        AccumulateKeys(g[1..], k, v);
        var rest := Accumulate(g[1..], k, v);
        assert r == [g[0]] + rest;
        forall j | 0 < j < |r| ensures KeyLess(g[0].key, r[j].key) {
          assert r[j] == rest[j - 1];
          assert rest[j - 1].key in KeysOf(rest);
        }
      }
    }
  }

  lemma {:induction false} AccumulateLookup(g: seq<Group>, k: Key, v: real, x: Key)
    requires Ascending(g)
    ensures Lookup(Accumulate(g, k, v), x) == Lookup(g, x) + (if x == k then v else 0.0)
  {
    var r := Accumulate(g, k, v);
    if |g| > 0 {
      if g[0].key == k {
        assert r[1..] == g[1..];
      } else if KeyLess(k, g[0].key) {
        BelowAll(g, k);
        LookupAbsent(g, k);
        assert r[1..] == g;
      } else {
        AscendingTail(g);
        AccumulateLookup(g[1..], k, v, x);
        assert r[1..] == Accumulate(g[1..], k, v);
      }
    }
  }

  /** `groupby(dims)[metric].sum()`: one line per distinct complete key, in
      ascending key order, holding the total of the metric over that key's
      rows (a group whose cells are all missing sums to 0). */
  function GroupSums(rows: seq<Row>, dims: seq<Dimension>, m: Metric): (g: seq<Group>)
    ensures Ascending(g)
    ensures forall k :: k in KeysOf(g) <==> exists r :: r in rows && KeyOf(r, dims) == Some(k)
    ensures forall k :: Lookup(g, k) == Total(WithKey(rows, dims, k), m)
  {
    if |rows| == 0 then []
    else
      var rest := GroupSums(rows[1..], dims, m);
      assert forall r :: r in rows <==> r == rows[0] || r in rows[1..] by {
        assert rows == [rows[0]] + rows[1..];
      }
      match KeyOf(rows[0], dims)
      case None => rest
      case Some(k) =>
        var v := match MetricOf(rows[0], m) case None => 0.0 case Some(x) => x;
        AccumulateKeys(rest, k, v);
        AccumulateAscending(rest, k, v);
        assert forall x :: Lookup(Accumulate(rest, k, v), x) == Lookup(rest, x) + (if x == k then v else 0.0) by {
          forall x { AccumulateLookup(rest, k, v, x); }
        }
        Accumulate(rest, k, v)
  }

  /** Each line of a grouped result is a key that occurs in the view, and its
      sum is the metric total over exactly the rows carrying that key. */
  lemma GroupLine(rows: seq<Row>, dims: seq<Dimension>, m: Metric, i: nat)
    requires i < |GroupSums(rows, dims, m)|
    ensures var g := GroupSums(rows, dims, m);
            && (exists r :: r in rows && KeyOf(r, dims) == Some(g[i].key))
            && g[i].sum == Total(WithKey(rows, dims, g[i].key), m)
  {
    var g := GroupSums(rows, dims, m);
    assert g[i].key in KeysOf(g);
    LookupAt(g, i);
  }

  /** Grouping partitions the keyed rows: the group sums add up to the total
      over the rows whose key is complete. */
  lemma {:induction false} GroupSumsPartition(rows: seq<Row>, dims: seq<Dimension>, m: Metric)
    ensures SumOf(GroupSums(rows, dims, m)) == Total(Keyed(rows, dims), m)
  {
    if |rows| > 0 {
      GroupSumsPartition(rows[1..], dims, m);
      match KeyOf(rows[0], dims)
      case None =>
      case Some(k) =>
        var v := match MetricOf(rows[0], m) case None => 0.0 case Some(x) => x;
        AccumulateSum(GroupSums(rows[1..], dims, m), k, v);
    }
  }

  /** A grouped result is empty exactly when no row of the view has a
      complete key. */
  lemma GroupSumsEmpty(rows: seq<Row>, dims: seq<Dimension>, m: Metric)
    ensures |GroupSums(rows, dims, m)| == 0 <==> forall r :: r in rows ==> KeyOf(r, dims).None?
  {
    var g := GroupSums(rows, dims, m);
    if |g| > 0 {
      assert g[0].key in KeysOf(g);
    } else {
      assert KeysOf(g) == {};
    }
  }
}
