/** The sidebar filter: one set of chosen values per filter dimension, and the
    filtered view that every aggregate reads. */
module Filtering {
  import opened Records

  datatype Selection = Selection(
    models: set<string>,
    years: set<real>,
    regions: set<string>,
    fuelTypes: set<string>,
    transmissions: set<string>)

  /** The row mask: all five membership tests hold. A row whose year is
      missing matches no year selection. */
  predicate Keep(sel: Selection, r: Row)
  {
    && r.model in sel.models
    && r.year.Some? && r.year.value in sel.years
    && r.region in sel.regions
    && r.fuelType in sel.fuelTypes
    && r.transmission in sel.transmissions
  }

  /** Adding values to any of the five selections never drops a row, and a
      row is dropped as soon as one of its five values is deselected. */
  lemma KeepMonotone(a: Selection, b: Selection, r: Row)
    requires a.models <= b.models && a.years <= b.years && a.regions <= b.regions
             && a.fuelTypes <= b.fuelTypes && a.transmissions <= b.transmissions
    ensures Keep(a, r) ==> Keep(b, r)
    ensures r.model !in a.models ==> !Keep(a, r)
    ensures r.region !in a.regions ==> !Keep(a, r)
    ensures (r.year.None? || r.year.value !in a.years) ==> !Keep(a, r)
    ensures r.fuelType !in a.fuelTypes ==> !Keep(a, r)
    ensures r.transmission !in a.transmissions ==> !Keep(a, r)
  {
  }

  /** The filtered view: the rows the mask keeps, in their original order. */
  function Filter(rows: seq<Row>, sel: Selection): (view: seq<Row>)
    ensures |view| <= |rows|
    ensures forall r :: r in view <==> r in rows && Keep(sel, r)
    ensures forall r :: multiset(view)[r] == if Keep(sel, r) then multiset(rows)[r] else 0
  {
    if |rows| == 0 then []
    else
      assert rows == [rows[0]] + rows[1..];
      var rest := Filter(rows[1..], sel);
      if Keep(sel, rows[0]) then [rows[0]] + rest else rest
  }

  lemma {:induction false} FilterIsSubsequence(rows: seq<Row>, sel: Selection)
    ensures IsSubsequence(Filter(rows, sel), rows)
  {
    if |rows| > 0 {
      FilterIsSubsequence(rows[1..], sel);
      var rest := Filter(rows[1..], sel);
      if !Keep(sel, rows[0]) {
        SubsequenceSkip(rest, rows);
      }
    }
  }

  /** An empty multiselect in any of the five dimensions empties the view. */
  lemma {:induction false} EmptySelectionEmptiesView(rows: seq<Row>, sel: Selection)
    requires sel.models == {} || sel.years == {} || sel.regions == {}
             || sel.fuelTypes == {} || sel.transmissions == {}
    ensures Filter(rows, sel) == []
  {
    if |rows| > 0 {
      EmptySelectionEmptiesView(rows[1..], sel);
    }
  }

  /** A mask that keeps every row gives back the whole dataset. */
  lemma {:induction false} FilterKeepsAll(rows: seq<Row>, sel: Selection)
    requires forall r :: r in rows ==> Keep(sel, r)
    ensures Filter(rows, sel) == rows
  {
    if |rows| > 0 {
      assert rows[0] in rows;
      assert forall r :: r in rows[1..] ==> r in rows;
      FilterKeepsAll(rows[1..], sel);
    }
  }

  /** The sidebar defaults: every distinct value present in each column, and
      nothing else. */
  function DefaultSelection(rows: seq<Row>): Selection
  {
    if |rows| == 0 then Selection({}, {}, {}, {}, {})
    else
      var rest := DefaultSelection(rows[1..]);
      var r := rows[0];
      Selection(
        models := rest.models + {r.model},
        years := rest.years + (if r.year.Some? then {r.year.value} else {}),
        regions := rest.regions + {r.region},
        fuelTypes := rest.fuelTypes + {r.fuelType},
        transmissions := rest.transmissions + {r.transmission})
  }

  /** The defaults hold only values that occur in their column. */
  lemma {:induction false} DefaultsOnlyPresentValues(rows: seq<Row>)
    ensures forall m :: m in DefaultSelection(rows).models ==> exists r :: r in rows && r.model == m
    ensures forall y :: y in DefaultSelection(rows).years ==> exists r :: r in rows && r.year == Some(y)
    ensures forall g :: g in DefaultSelection(rows).regions ==> exists r :: r in rows && r.region == g
    ensures forall f :: f in DefaultSelection(rows).fuelTypes ==> exists r :: r in rows && r.fuelType == f
    ensures forall t :: t in DefaultSelection(rows).transmissions ==> exists r :: r in rows && r.transmission == t
  {
    if |rows| > 0 {
      var sel, rest, r0 := DefaultSelection(rows), DefaultSelection(rows[1..]), rows[0];
      DefaultsOnlyPresentValues(rows[1..]);
      assert r0 in rows;
      assert forall x :: x in rows[1..] ==> x in rows;
      forall m | m in sel.models ensures exists r :: r in rows && r.model == m {
        if m != r0.model { assert m in rest.models; var r :| r in rows[1..] && r.model == m; }
      }
      forall y | y in sel.years ensures exists r :: r in rows && r.year == Some(y) {
        if r0.year != Some(y) { assert y in rest.years; var r :| r in rows[1..] && r.year == Some(y); }
      }
      forall g | g in sel.regions ensures exists r :: r in rows && r.region == g {
        if g != r0.region { assert g in rest.regions; var r :| r in rows[1..] && r.region == g; }
      }
      forall f | f in sel.fuelTypes ensures exists r :: r in rows && r.fuelType == f {
        if f != r0.fuelType { assert f in rest.fuelTypes; var r :| r in rows[1..] && r.fuelType == f; }
      }
      forall t | t in sel.transmissions ensures exists r :: r in rows && r.transmission == t {
        if t != r0.transmission { assert t in rest.transmissions; var r :| r in rows[1..] && r.transmission == t; }
      }
    }
  }

  /** The defaults select every value present in each column, including the
      values of rows without a year. */
  lemma {:induction false} DefaultsCoverEveryValue(rows: seq<Row>)
    ensures var sel := DefaultSelection(rows);
            forall r :: r in rows ==> && r.model in sel.models && r.region in sel.regions
                                      && r.fuelType in sel.fuelTypes
                                      && r.transmission in sel.transmissions
                                      && (r.year.Some? ==> r.year.value in sel.years)
  {
    if |rows| > 0 {
      var sel := DefaultSelection(rows);
      var rest := DefaultSelection(rows[1..]);
      DefaultsCoverEveryValue(rows[1..]);
      assert rest.models <= sel.models && rest.regions <= sel.regions && rest.years <= sel.years
             && rest.fuelTypes <= sel.fuelTypes && rest.transmissions <= sel.transmissions;
      forall r | r in rows
        ensures && r.model in sel.models && r.region in sel.regions
                && r.fuelType in sel.fuelTypes && r.transmission in sel.transmissions
                && (r.year.Some? ==> r.year.value in sel.years)
      {
        if r != rows[0] {
          assert r in rows[1..] by { assert rows == [rows[0]] + rows[1..]; }
        }
      }
    }
  }

  /** Under the defaults a row is kept exactly when its year is present: the
      view is every row with a year, and the whole dataset when no year is
      missing. */
  lemma DefaultsKeepEveryDatedRow(rows: seq<Row>)
    ensures forall r :: r in rows ==> (Keep(DefaultSelection(rows), r) <==> r.year.Some?)
    ensures forall r :: r in Filter(rows, DefaultSelection(rows)) <==> r in rows && r.year.Some?
    ensures (forall r :: r in rows ==> r.year.Some?) ==> Filter(rows, DefaultSelection(rows)) == rows
  {
    var d := DefaultSelection(rows);
    DefaultsCoverEveryValue(rows);
    if forall r :: r in rows ==> r.year.Some? {
      FilterKeepsAll(rows, d);
    }
  }

  /** Both selections at once: value sets intersected dimension by dimension. */
  function Meet(a: Selection, b: Selection): (c: Selection)
    ensures forall r :: Keep(c, r) <==> Keep(a, r) && Keep(b, r)
  {
    Selection(a.models * b.models, a.years * b.years, a.regions * b.regions,
              a.fuelTypes * b.fuelTypes, a.transmissions * b.transmissions)
  }

  /** Filtering a view again equals filtering once by both selections. */
  lemma {:induction false} FilterTwice(rows: seq<Row>, a: Selection, b: Selection)
    ensures Filter(Filter(rows, a), b) == Filter(rows, Meet(a, b))
  {
    if |rows| > 0 {
      FilterTwice(rows[1..], a, b);
      var r, rest := rows[0], Filter(rows[1..], a);
      if Keep(a, r) {
        assert Filter(rows, a) == [r] + rest;
        assert ([r] + rest)[1..] == rest;
      }
    }
  }

  /** Filtering is idempotent. */
  lemma FilterIdempotent(rows: seq<Row>, a: Selection)
    ensures Filter(Filter(rows, a), a) == Filter(rows, a)
  {
    FilterTwice(rows, a, a);
    assert Meet(a, a) == a;
  }
}
