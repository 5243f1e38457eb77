/** The input of the correlation heatmap: the four metric columns with every
    row that lacks one of them dropped (`dropna` over whole rows). The Pearson
    matrix itself is not modelled. */
module Correlation {
  import opened Records

  predicate Complete(r: Row)
  {
    r.price.Some? && r.sales.Some? && r.engineSize.Some? && r.mileage.Some?
  }

  /** The rows with all four metrics present, in order. */
  function CompleteRows(view: seq<Row>): (c: seq<Row>)
    ensures |c| <= |view|
    ensures forall r :: r in c <==> r in view && Complete(r)
    ensures forall r :: multiset(c)[r] == if Complete(r) then multiset(view)[r] else 0
  {
    if |view| == 0 then []
    else
      assert view == [view[0]] + view[1..];
      var rest := CompleteRows(view[1..]);
      if Complete(view[0]) then [view[0]] + rest else rest
  }

  /** `dropna` keeps the view's row order. */
  lemma {:induction false} CompleteRowsInOrder(view: seq<Row>)
    ensures IsSubsequence(CompleteRows(view), view)
  {
    if |view| > 0 {
      CompleteRowsInOrder(view[1..]);
      if !Complete(view[0]) {
        SubsequenceSkip(CompleteRows(view[1..]), view);
      }
    }
  }

  /** The heatmap is drawn exactly when some row of the view is complete. */
  function HeatmapAvailable(view: seq<Row>): (ok: bool)
    ensures ok <==> exists r :: r in view && Complete(r)
  {
    var c := CompleteRows(view);
    assert |c| > 0 ==> c[0] in c;
    |c| > 0
  }
}
