/** One recomputation of the dashboard: the filtered view and every figure the
    page shows, all derived from that single view. */
module Dashboard {
  import opened Records
  import opened Filtering
  import opened KeyOrder
  import opened Aggregates
  import opened Ranking
  import opened Growth
  import opened Bands
  import opened Correlation

  datatype Report = Report(
    view: seq<Row>,
    totalSales: real,
    totalPrice: real,
    salesBand: Band,
    priceBand: Band,
    leaders: Option<Podium>,
    salesByYearModel: seq<Group>,
    priceByModel: seq<Group>,
    salesByRegion: seq<Group>,
    salesByTransmission: seq<Group>,
    salesByColor: seq<Group>,
    heatmapRows: seq<Row>,
    yearly: seq<YearGrowth>)

  /** Every figure of the page for one selection. */
  function Run(data: seq<Row>, sel: Selection): (rep: Report)
    ensures rep.view == Filter(data, sel)
    ensures rep.leaders.Some? <==> |rep.view| > 0
    ensures NonIncreasing(rep.priceByModel)
    ensures multiset(rep.priceByModel) == multiset(GroupSums(rep.view, [Model], Price))
  {
    var view := Filter(data, sel);
    var sales := Total(view, Sales);
    var price := Total(view, Price);
    Report(
      view := view,
      totalSales := sales,
      totalPrice := price,
      salesBand := BandOf(sales),
      priceBand := BandOf(price),
      leaders := Leaders(view),
      salesByYearModel := GroupSums(view, [Year, Model], Sales),
      priceByModel := RankDescending(GroupSums(view, [Model], Price)),
      salesByRegion := GroupSums(view, [Region], Sales),
      salesByTransmission := GroupSums(view, [Transmission], Sales),
      salesByColor := GroupSums(view, [Color], Sales),
      heatmapRows := CompleteRows(view),
      yearly := YearlyGrowth(view))
  }

  /** Every row of a filtered view has a complete key under any grouping,
      because the year filter only passes rows whose year is present. */
  lemma ViewRowsKeyed(data: seq<Row>, sel: Selection, dims: seq<Dimension>)
    ensures forall r :: r in Filter(data, sel) ==> KeyOf(r, dims).Some?
    ensures Keyed(Filter(data, sel), dims) == Filter(data, sel)
  {
    KeyedAll(Filter(data, sel), dims);
  }

  /** Any grouping of the view accounts for the whole view: its group sums add
      up to the view's total, and it is empty exactly when the view is. */
  lemma GroupingCoversView(data: seq<Row>, sel: Selection, dims: seq<Dimension>, m: Metric)
    ensures SumOf(GroupSums(Filter(data, sel), dims, m)) == Total(Filter(data, sel), m)
    ensures |GroupSums(Filter(data, sel), dims, m)| == 0 <==> |Filter(data, sel)| == 0
  {
    var view := Filter(data, sel);
    ViewRowsKeyed(data, sel, dims);
    GroupSumsPartition(view, dims, m);
    GroupSumsEmpty(view, dims, m);
    if |view| > 0 {
      assert view[0] in view;
    }
  }

  function YearlySales(y: seq<YearGrowth>): real
  {
    if |y| == 0 then 0.0 else y[0].sales + YearlySales(y[1..])
  }

  lemma {:induction false} YearlySalesIsSum(g: seq<Group>, y: seq<YearGrowth>)
    requires |y| == |g| && forall i :: 0 <= i < |g| ==> y[i].sales == g[i].sum
    ensures YearlySales(y) == SumOf(g)
  {
    if |g| > 0 {
      YearlySalesIsSum(g[1..], y[1..]);
    }
  }

  /** Each sales breakdown adds up to the headline sales total, and the price
      ranking to the headline price total. */
  lemma ReportTotalsAgree(data: seq<Row>, sel: Selection)
    ensures var rep := Run(data, sel);
            && SumOf(rep.salesByRegion) == rep.totalSales
            && SumOf(rep.salesByTransmission) == rep.totalSales
            && SumOf(rep.salesByColor) == rep.totalSales
            && SumOf(rep.salesByYearModel) == rep.totalSales
            && SumOf(GroupSums(rep.view, [Model], Sales)) == rep.totalSales
            && SumOf(rep.priceByModel) == rep.totalPrice
            && YearlySales(rep.yearly) == rep.totalSales
  {
    var rep := Run(data, sel);
    GroupingCoversView(data, sel, [Region], Sales);
    GroupingCoversView(data, sel, [Transmission], Sales);
    GroupingCoversView(data, sel, [Color], Sales);
    GroupingCoversView(data, sel, [Year, Model], Sales);
    GroupingCoversView(data, sel, [Model], Sales);
    GroupingCoversView(data, sel, [Model], Price);
    GroupingCoversView(data, sel, [Year], Sales);
    YearlySalesIsSum(GroupSums(rep.view, [Year], Sales), rep.yearly);
  }

  /** Every breakdown is empty exactly when the view is, so the page has one
      "no data" condition. */
  lemma ReportEmptinessAgrees(data: seq<Row>, sel: Selection)
    ensures var rep := Run(data, sel);
            && (|rep.salesByRegion| == 0 <==> |rep.view| == 0)
            && (|rep.salesByTransmission| == 0 <==> |rep.view| == 0)
            && (|rep.salesByColor| == 0 <==> |rep.view| == 0)
            && (|rep.salesByYearModel| == 0 <==> |rep.view| == 0)
            && (|rep.priceByModel| == 0 <==> |rep.view| == 0)
            && (|rep.yearly| == 0 <==> |rep.view| == 0)
            && (rep.leaders.None? <==> |rep.view| == 0)
  {
    GroupingCoversView(data, sel, [Region], Sales);
    GroupingCoversView(data, sel, [Transmission], Sales);
    GroupingCoversView(data, sel, [Color], Sales);
    GroupingCoversView(data, sel, [Year, Model], Sales);
    GroupingCoversView(data, sel, [Model], Price);
    GroupingCoversView(data, sel, [Year], Sales);
  }

  function Sample(model: string, year: real, region: string, sales: real): Row
  {
    Row(model, Some(year), region, "Petrol", "Automatic", "Black",
        Some(50000.0), Some(sales), Some(2.0), Some(10000.0))
  }

  /** Three rows: X3 in 2020 (US, 10), X5 in 2020 (EU, 20), X3 in 2021 (US, 30). */
  function SampleData(): seq<Row>
  {
    [Sample("X3", 2020.0, "US", 10.0), Sample("X5", 2020.0, "EU", 20.0),
     Sample("X3", 2021.0, "US", 30.0)]
  }

  /** Summing sales by model gives X3 = 40 before X5 = 20, and X3 leads. */
  lemma {:induction false} SampleModelSales()
    ensures GroupSums(SampleData(), [Model], Sales)
            == [Group([Str("X3")], 40.0), Group([Str("X5")], 20.0)]
    ensures Leader(GroupSums(SampleData(), [Model], Sales)) == [Str("X3")]
  {
    var data := SampleData();
    var r1, r2, r3 := data[0], data[1], data[2];
    var x3, x5 := [Str("X3")], [Str("X5")];
    KeyOfOne(r1, Model);
    KeyOfOne(r2, Model);
    KeyOfOne(r3, Model);
    assert MetricOf(r1, Sales) == Some(10.0) && MetricOf(r2, Sales) == Some(20.0)
           && MetricOf(r3, Sales) == Some(30.0);
    assert !KeyLess(x5, x3) by {
      assert x5[0] != x3[0];
      assert !TextLess("X5", "X3");
    }
    assert KeyLess(x3, x5) by {
      assert TextLess("X3", "X5");
    }
    assert x3 != x5 by { assert x3[0] != x5[0]; }
    assert data[1..] == [r2, r3] && data[1..][1..] == [r3] && [r3][1..] == [];
    assert KeyOf(r1, [Model]) == Some(x3) && KeyOf(r2, [Model]) == Some(x5)
           && KeyOf(r3, [Model]) == Some(x3);
    assert GroupSums([], [Model], Sales) == [];
    var g3 := GroupSums([r3], [Model], Sales);
    assert g3 == Accumulate([], x3, 30.0);
    var g2 := GroupSums([r2, r3], [Model], Sales);
    assert g2 == Accumulate(g3, x5, 20.0);
    assert g3 == [Group(x3, 30.0)] && g3[1..] == [];
    assert g2 == [Group(x3, 30.0)] + Accumulate([], x5, 20.0);
    var g := GroupSums(data, [Model], Sales);
    assert g == Accumulate(g2, x3, 10.0);
    assert g2[1..] == [Group(x5, 20.0)];
    assert g == [Group(x3, 40.0), Group(x5, 20.0)];
    assert LeaderIndex(g) == 0 by {
      assert g[..1] == [Group(x3, 40.0)];
    }
  }

  /** Every value of the sample selected, as the sidebar defaults do. */
  function SampleSelection(): Selection
  {
    Selection({"X3", "X5"}, {2020.0, 2021.0}, {"US", "EU"}, {"Petrol"}, {"Automatic"})
  }

  /** With every value selected the view is the whole sample. */
  lemma SampleSelectAll()
    ensures Filter(SampleData(), SampleSelection()) == SampleData()
  {
    var data := SampleData();
    assert Keep(SampleSelection(), data[0]) && Keep(SampleSelection(), data[1])
           && Keep(SampleSelection(), data[2]);
    FilterKeepsAll(data, SampleSelection());
  }

  /** Deselecting region EU leaves the two US rows. */
  lemma SampleDropRegion()
    ensures Filter(SampleData(), SampleSelection().(regions := {"US"}))
            == [SampleData()[0], SampleData()[2]]
  {
    var data := SampleData();
    var noEU := SampleSelection().(regions := {"US"});
    assert "EU" != "US" by {
      assert "EU"[0] != "US"[0];
    }
    assert !Keep(noEU, data[1]) && Keep(noEU, data[0]) && Keep(noEU, data[2]);
    assert data[1..] == [data[1], data[2]];
    DropFirstOfPair(data[1], data[2], noEU);
  }

  /** The two US rows left after deselecting region EU sell 40 in total. */
  lemma SampleDropRegionTotal()
    ensures Total(Filter(SampleData(), SampleSelection().(regions := {"US"})), Sales) == 40.0
  {
    SampleDropRegion();
    var v := [SampleData()[0], SampleData()[2]];
    assert v[1..] == [SampleData()[2]] && v[1..][1..] == [];
  }

  lemma DropFirstOfPair(r2: Row, r3: Row, sel: Selection)
    requires !Keep(sel, r2) && Keep(sel, r3)
    ensures Filter([r2, r3], sel) == [r3]
  {
    assert [r2, r3][1..] == [r3] && [r3][1..] == [];
  }

  /** Years 2020 and 2021 with sales 100 and 150: growth is undefined, then 50%. */
  lemma GrowthScenario()
    ensures PctChange([100.0, 150.0]) == [None, Some(50.0)]
  {
  }
}
