/** The typed record of one vehicle sales observation, the dimensions a view
    can be filtered or grouped by, and the metrics it can be summed over. */
module Records {

  datatype Option<+T> = None | Some(value: T)

  datatype Result<+T, +E> = Ok(value: T) | Err(error: E)

  /** One normalised row. Category columns are kept as text; every numeric
      column went through coercion, so a cell that did not parse is None. */
  datatype Row = Row(
    model: string,
    year: Option<real>,
    region: string,
    fuelType: string,
    transmission: string,
    color: string,
    price: Option<real>,
    sales: Option<real>,
    engineSize: Option<real>,
    mileage: Option<real>)

  /** The columns a view is grouped by. `Region` and `Year` are the canonical
      column names; the dashboard's "Regiion" and "Yearr" are typos. */
  datatype Dimension = Model | Year | Region | FuelType | Transmission | Color

  datatype Metric = Price | Sales | EngineSize | Mileage

  /** The dataset column a dimension is read from. */
  function ColumnName(d: Dimension): string
  {
    match d
    case Model => "Model"
    case Year => "Year"
    case Region => "Region"
    case FuelType => "Fuel_Type"
    case Transmission => "Transmission"
    case Color => "Color"
  }

  /** Resolving a column name given to a leader group-by; None for a name that
      is none of the six dimension columns. */
  function DimensionNamed(name: string): (d: Option<Dimension>)
    ensures d.Some? ==> ColumnName(d.value) == name
    ensures d.None? <==> forall e: Dimension :: ColumnName(e) != name
  {
    if name == "Model" then Some(Model)
    else if name == "Year" then Some(Year)
    else if name == "Region" then Some(Region)
    else if name == "Fuel_Type" then Some(FuelType)
    else if name == "Transmission" then Some(Transmission)
    else if name == "Color" then Some(Color)
    else None
  }

  /** One component of a group key: a category label or a numeric year. */
  datatype Atom = Str(text: string) | Num(number: real)

  /** A group key: one atom per grouped dimension, in grouping order. */
  type Key = seq<Atom>

  function AtomOf(r: Row, d: Dimension): (a: Option<Atom>)
    ensures a.None? <==> d == Year && r.year.None?
  {
    match d
    case Model => Some(Str(r.model))
    case Year => if r.year.Some? then Some(Num(r.year.value)) else None
    case Region => Some(Str(r.region))
    case FuelType => Some(Str(r.fuelType))
    case Transmission => Some(Str(r.transmission))
    case Color => Some(Str(r.color))
  }

  /** The key of a row under a grouping; None when one of its grouped values
      is missing (such rows fall out of every group). */
  function KeyOf(r: Row, dims: seq<Dimension>): (k: Option<Key>)
    ensures k.Some? <==> forall i :: 0 <= i < |dims| ==> AtomOf(r, dims[i]).Some?
    ensures k.Some? ==> |k.value| == |dims|
    ensures k.Some? ==> forall i :: 0 <= i < |dims| ==> k.value[i] == AtomOf(r, dims[i]).value
  {
    if |dims| == 0 then Some([])
    else
      match AtomOf(r, dims[0])
      case None => None
      case Some(a) =>
        match KeyOf(r, dims[1..])
        case None => None
        case Some(rest) => Some([a] + rest)
  }

  lemma KeyOfOne(r: Row, d: Dimension)
    ensures KeyOf(r, [d]) == if AtomOf(r, d).Some? then Some([AtomOf(r, d).value]) else None
  {
    if AtomOf(r, d).Some? {
      var k := KeyOf(r, [d]).value;
      assert |k| == 1 && k[0] == AtomOf(r, d).value;
      assert k == [AtomOf(r, d).value];
    }
  }

  function MetricOf(r: Row, m: Metric): Option<real>
  {
    match m
    case Price => r.price
    case Sales => r.sales
    case EngineSize => r.engineSize
    case Mileage => r.mileage
  }

  /** The position of the first occurrence of `x` in `s`. */
  function IndexOf<T(==)>(s: seq<T>, x: T): (r: Option<nat>)
    ensures r.Some? ==> r.value < |s| && s[r.value] == x && x !in s[..r.value]
    ensures r.None? <==> x !in s
  {
    if |s| == 0 then None
    else if s[0] == x then Some(0)
    else
      match IndexOf(s[1..], x)
      case None => None
      case Some(i) => Some(i + 1)
  }

  /** `a` is `b` with some elements dropped, the others in the same order. */
  ghost predicate IsSubsequence<T>(a: seq<T>, b: seq<T>)
    decreases |b|
  {
    if |a| == 0 then true
    else if |b| == 0 then false
    else if a[0] == b[0] then IsSubsequence(a[1..], b[1..])
    else IsSubsequence(a, b[1..])
  }

  lemma {:induction false} SubsequenceSkip<T>(a: seq<T>, b: seq<T>)
    requires |b| > 0 && IsSubsequence(a, b[1..])
    ensures IsSubsequence(a, b)
    decreases |a| + |b|
  {
    if |a| > 0 && a[0] == b[0] {
      // The greedy match takes b[0]; a[1..] is still a subsequence of b[1..].
      SubsequenceTail(a, b[1..]);
    }
  }

  lemma {:induction false} SubsequenceTail<T>(a: seq<T>, b: seq<T>)
    requires |a| > 0 && IsSubsequence(a, b)
    ensures IsSubsequence(a[1..], b)
    decreases |a| + |b|
  {
    assert |b| > 0;
    if a[0] == b[0] {
      SubsequenceSkip(a[1..], b);
    } else {
      SubsequenceTail(a, b[1..]);
      SubsequenceSkip(a[1..], b);
    }
  }
}
