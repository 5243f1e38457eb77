/** Orderings of grouped results: the descending ranking of a bar chart and the
    category that leads a dimension (`idxmax` over the group sums). */
module Ranking {
  import opened Records
  import opened Aggregates

  ghost predicate NonIncreasing(g: seq<Group>)
  {
    forall i, j :: 0 <= i < j < |g| ==> g[i].sum >= g[j].sum
  }

  /** Put `x` in front of the first line whose sum it reaches. */
  function PlaceDescending(x: Group, s: seq<Group>): seq<Group>
  {
    if |s| == 0 || x.sum >= s[0].sum then [x] + s
    else [s[0]] + PlaceDescending(x, s[1..])
  }

  lemma {:induction false} PlaceKeepsLines(x: Group, s: seq<Group>)
    ensures multiset(PlaceDescending(x, s)) == multiset(s) + multiset{x}
    ensures SumOf(PlaceDescending(x, s)) == x.sum + SumOf(s)
  {
    if |s| > 0 && x.sum < s[0].sum {
      PlaceKeepsLines(x, s[1..]);
      var r := PlaceDescending(x, s);
      assert r[1..] == PlaceDescending(x, s[1..]);
      assert s == [s[0]] + s[1..];
    }
  }

  lemma {:induction false} PlaceKeepsOrder(x: Group, s: seq<Group>)
    requires NonIncreasing(s)
    ensures NonIncreasing(PlaceDescending(x, s))
  {
    var r := PlaceDescending(x, s);
    if |s| == 0 || x.sum >= s[0].sum {
      assert forall j :: 0 < j < |r| ==> r[j] == s[j - 1];
    } else {
      PlaceKeepsOrder(x, s[1..]);
      PlaceKeepsLines(x, s[1..]);
      var rest := PlaceDescending(x, s[1..]);
      assert r == [s[0]] + rest;
      forall j | 0 < j < |r| ensures r[0].sum >= r[j].sum {
        assert r[j] in multiset(rest);
        assert r[j] == x || r[j] in multiset(s[1..]);
      }
    }
  }

  /** `sort_values(ascending=False)` on the summed column: the same lines,
      largest sum first. */
  function RankDescending(g: seq<Group>): (r: seq<Group>)
    ensures multiset(r) == multiset(g)
    ensures |r| == |g|
    ensures SumOf(r) == SumOf(g)
    ensures NonIncreasing(r)
  {
    if |g| == 0 then []
    else
      assert g == [g[0]] + g[1..];
      var rest := RankDescending(g[1..]);
      PlaceKeepsLines(g[0], rest);
      PlaceKeepsOrder(g[0], rest);
      var r := PlaceDescending(g[0], rest);
      assert |r| == |multiset(r)|;
      r
  }

  /** The position `idxmax` returns: a largest sum, the first one on ties. */
  function LeaderIndex(g: seq<Group>): (i: nat)
    requires |g| > 0
    ensures i < |g|
    ensures forall j :: 0 <= j < |g| ==> g[j].sum <= g[i].sum
    ensures forall j :: 0 <= j < i ==> g[j].sum < g[i].sum
  {
    if |g| == 1 then 0
    else
      var i := LeaderIndex(g[..|g| - 1]);
      if g[|g| - 1].sum > g[i].sum then |g| - 1 else i
  }

  ghost predicate IsLeader(g: seq<Group>, k: Key)
  {
    exists i :: 0 <= i < |g| && g[i].key == k
                && (forall j :: 0 <= j < |g| ==> g[j].sum <= g[i].sum)
                && (forall j :: 0 <= j < i ==> g[j].sum < g[i].sum)
  }

  /** The leader of a grouped result is unique: the rule leaves no choice. */
  lemma LeaderIsUnique(g: seq<Group>, k1: Key, k2: Key)
    requires IsLeader(g, k1) && IsLeader(g, k2)
    ensures k1 == k2
  {
    var i1 :| 0 <= i1 < |g| && g[i1].key == k1
              && (forall j :: 0 <= j < |g| ==> g[j].sum <= g[i1].sum)
              && (forall j :: 0 <= j < i1 ==> g[j].sum < g[i1].sum);
    var i2 :| 0 <= i2 < |g| && g[i2].key == k2
              && (forall j :: 0 <= j < |g| ==> g[j].sum <= g[i2].sum)
              && (forall j :: 0 <= j < i2 ==> g[j].sum < g[i2].sum);
    assert g[i1].sum <= g[i2].sum && g[i2].sum <= g[i1].sum;
    assert i1 == i2;
  }

  function Leader(g: seq<Group>): (k: Key)
    requires |g| > 0
    ensures IsLeader(g, k)
  {
    g[LeaderIndex(g)].key
  }

  /** The three leaders shown above the tabs. */
  datatype Podium = Podium(model: Key, region: Key, fuelType: Key)

  /** Leaders are computed only for a non-empty view; each is the category of
      its dimension with the largest summed sales volume. */
  function Leaders(view: seq<Row>): (p: Option<Podium>)
    ensures p.Some? <==> |view| > 0
    ensures p.Some? ==> IsLeader(GroupSums(view, [Model], Sales), p.value.model)
    ensures p.Some? ==> IsLeader(GroupSums(view, [Region], Sales), p.value.region)
    ensures p.Some? ==> IsLeader(GroupSums(view, [FuelType], Sales), p.value.fuelType)
  {
    if |view| == 0 then None
    else
      assert view[0] in view;
      GroupSumsEmpty(view, [Model], Sales);
      GroupSumsEmpty(view, [Region], Sales);
      GroupSumsEmpty(view, [FuelType], Sales);
      Some(Podium(Leader(GroupSums(view, [Model], Sales)),
                  Leader(GroupSums(view, [Region], Sales)),
                  Leader(GroupSums(view, [FuelType], Sales))))
  }

  /** How the leader line can fail: a group-by on a name that is none of the
      six dimension columns (a KeyError in pandas when the name is no column
      at all), or `idxmax` over no groups. */
  datatype Failure = KeyError(column: string) | EmptyArgmax

  /** The leader of the dimension grouped by column `name`. */
  function LeaderOfColumn(view: seq<Row>, name: string): (k: Result<Key, Failure>)
    ensures DimensionNamed(name).None? <==> k == Err(KeyError(name))
    ensures k.Ok? ==> IsLeader(GroupSums(view, [DimensionNamed(name).value], Sales), k.value)
    ensures k == Err(EmptyArgmax) <==>
            DimensionNamed(name).Some? && forall r :: r in view ==> KeyOf(r, [DimensionNamed(name).value]).None?
  {
    match DimensionNamed(name)
    case None => Err(KeyError(name))
    case Some(d) =>
      GroupSumsEmpty(view, [d], Sales);
      var g := GroupSums(view, [d], Sales);
      if |g| == 0 then Err(EmptyArgmax) else Ok(Leader(g))
  }

  /** The leader line with the column names the script passes, the second of
      them misspelt "Regiion": it succeeds only on an empty view, where it is
      skipped, and raises a KeyError for "Regiion" on any other. */
  function LeadersAsWritten(view: seq<Row>): (p: Result<Option<Podium>, Failure>)
    ensures |view| == 0 ==> p == Ok(None)
    ensures |view| > 0 ==> p == Err(KeyError("Regiion"))
  {
    if |view| == 0 then Ok(None)
    else
      assert view[0] in view;
      KeyOfOne(view[0], Model);
      assert DimensionNamed("Model") == Some(Model);
      assert DimensionNamed("Regiion").None? by {
        assert forall e: Dimension :: |ColumnName(e)| != 7;
      }
      match (LeaderOfColumn(view, "Model"), LeaderOfColumn(view, "Regiion"),
             LeaderOfColumn(view, "Fuel_Type"))
      case (Ok(m), Ok(r), Ok(f)) => Ok(Some(Podium(m, r, f)))
      case (Err(e), _, _) => Err(e)
      case (_, Err(e), _) => Err(e)
      case (_, _, Err(e)) => Err(e)
  }

  /** Where the line as written and the corrected leaders part: on every
      non-empty view the first raises, the second yields all three leaders. */
  lemma RegionTypoRaises(view: seq<Row>)
    requires |view| > 0
    ensures LeadersAsWritten(view).Err? && Leaders(view).Some?
    ensures Leaders(view).value.region == Leader(GroupSums(view, [Region], Sales))
  {
  }
}
