/** Year-over-year growth: sales volume summed per year, ascending by year, and
    the percentage change of each year against the one before it. */
module Growth {
  import opened Records
  import opened KeyOrder
  import opened Aggregates

  /** The percentage change from `prev` to `curr`. */
  function Pct(prev: real, curr: real): (p: real)
    requires prev != 0.0
    ensures p * prev == (curr - prev) * 100.0
  {
    var q := (curr - prev) / prev;
    assert q * prev == curr - prev;
    q * 100.0
  }

  /** The growth of one year against the year before; undefined after a 0,
      and otherwise the rate that turns the earlier value into the later. */
  function Step(prev: real, curr: real): (s: Option<real>)
    ensures s.None? <==> prev == 0.0
    ensures s.Some? ==> curr == prev * (1.0 + s.value / 100.0)
  {
    if prev == 0.0 then None
    else
      PctInverse(prev, curr);
      Some(Pct(prev, curr))
  }

  /** Undoing a percentage change gives back the later value. */
  lemma PctInverse(prev: real, curr: real)
    requires prev != 0.0
    ensures curr == prev * (1.0 + Pct(prev, curr) / 100.0)
  {
    var q := (curr - prev) / prev;
    assert q * prev == curr - prev;
    assert Pct(prev, curr) / 100.0 == q;
    assert prev * (1.0 + q) == prev + prev * q;
  }

  /** With a positive base, the change has the sign of the difference. */
  lemma PctSign(prev: real, curr: real)
    requires prev > 0.0
    ensures Pct(prev, curr) > 0.0 <==> curr > prev
    ensures Pct(prev, curr) == 0.0 <==> curr == prev
  {
    var q := (curr - prev) / prev;
    assert q * prev == curr - prev;
    if q > 0.0 {
      assert q * prev > 0.0;
    } else if q < 0.0 {
      assert q * prev < 0.0;
    }
  }

  /** `pct_change() * 100` over a column of sums. The first entry has no
      predecessor; a predecessor of 0 leaves the change undefined. */
  function PctChange(s: seq<real>): (g: seq<Option<real>>)
    ensures |g| == |s|
    ensures |s| > 0 ==> g[0] == None
    ensures forall i :: 0 < i < |s| ==> g[i] == Step(s[i - 1], s[i])
  {
    if |s| == 0 then [] else [None] + Changes(s)
  }

  /** The changes between consecutive entries. */
  function Changes(s: seq<real>): (c: seq<Option<real>>)
    ensures |c| == if |s| == 0 then 0 else |s| - 1
    ensures forall i :: 0 <= i < |c| ==> c[i] == Step(s[i], s[i + 1])
  {
    if |s| < 2 then [] else [Step(s[0], s[1])] + Changes(s[1..])
  }

  /** A defined growth rate rebuilds this year's sales from last year's. */
  lemma GrowthRebuildsSales(s: seq<real>, i: nat)
    requires 0 < i < |s| && PctChange(s)[i].Some?
    ensures s[i] == s[i - 1] * (1.0 + PctChange(s)[i].value / 100.0)
  {
    PctInverse(s[i - 1], s[i]);
  }

  /** After a year with positive sales, growth is defined, positive exactly
      when sales went up and zero exactly when they stayed level. */
  lemma GrowthSign(s: seq<real>, i: nat)
    requires 0 < i < |s| && s[i - 1] > 0.0
    ensures PctChange(s)[i].Some?
    ensures PctChange(s)[i].value > 0.0 <==> s[i] > s[i - 1]
    ensures PctChange(s)[i].value == 0.0 <==> s[i] == s[i - 1]
  {
    PctSign(s[i - 1], s[i]);
  }

  function Sums(g: seq<Group>): (s: seq<real>)
    ensures |s| == |g| && forall i :: 0 <= i < |g| ==> s[i] == g[i].sum
  {
    seq(|g|, i requires 0 <= i < |g| => g[i].sum)
  }

  /** One bar of the growth chart. */
  datatype YearGrowth = YearGrowth(year: real, sales: real, growth: Option<real>)

  /** The year of a line of the per-year grouping. */
  lemma YearKeyShape(view: seq<Row>, i: nat)
    requires i < |GroupSums(view, [Year], Sales)|
    ensures var k := GroupSums(view, [Year], Sales)[i].key;
            |k| == 1 && k[0].Num? && exists r :: r in view && r.year == Some(k[0].number)
  {
    GroupLine(view, [Year], Sales, i);
    var k := GroupSums(view, [Year], Sales)[i].key;
    var r :| r in view && KeyOf(r, [Year]) == Some(k);
    assert k[0] == AtomOf(r, [Year][0]).value;
  }

  /** The year a per-year key stands for. */
  function YearOf(k: Key): real
  {
    if |k| > 0 && k[0].Num? then k[0].number else 0.0
  }

  /** The growth chart: one bar per year of the per-year grouping, in its
      order, with each year's growth against the bar before it. */
  function YearlyGrowth(view: seq<Row>): (y: seq<YearGrowth>)
    ensures |y| == |GroupSums(view, [Year], Sales)|
    ensures forall i :: 0 <= i < |y| ==> y[i].sales == GroupSums(view, [Year], Sales)[i].sum
    ensures |y| > 0 ==> y[0].growth == None
    ensures forall i :: 0 < i < |y| ==> y[i].growth == Step(y[i - 1].sales, y[i].sales)
  {
    var g := GroupSums(view, [Year], Sales);
    var p := PctChange(Sums(g));
    seq(|g|, i requires 0 <= i < |g| => YearGrowth(YearOf(g[i].key), g[i].sum, p[i]))
  }

  /** The bars are the years present in the view, strictly ascending, and each
      carries the total sales volume of that year's rows. */
  lemma YearlyGrowthYears(view: seq<Row>)
    ensures var y := YearlyGrowth(view);
            && (forall i, j :: 0 <= i < j < |y| ==> y[i].year < y[j].year)
            && (forall i :: 0 <= i < |y| ==> exists r :: r in view && r.year == Some(y[i].year))
            && (forall i :: 0 <= i < |y| ==> y[i].sales == Total(WithKey(view, [Year], [Num(y[i].year)]), Sales))
  {
    var g := GroupSums(view, [Year], Sales);
    var y := YearlyGrowth(view);
    forall i | 0 <= i < |y|
      ensures g[i].key == [Num(y[i].year)]
      ensures exists r :: r in view && r.year == Some(y[i].year)
      ensures y[i].sales == Total(WithKey(view, [Year], [Num(y[i].year)]), Sales)
    {
      YearKeyShape(view, i);
      GroupLine(view, [Year], Sales, i);
    }
    forall i, j | 0 <= i < j < |y| ensures y[i].year < y[j].year {
      YearKeyLess(y[i].year, y[j].year);
    }
  }
}
