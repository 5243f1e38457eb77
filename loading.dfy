/** Loading the sales table: every required column must be present, and each
    numeric cell is coerced on its own, so a bad cell never fails the load. */
module Loading {
  import opened Records
  import opened Coercion

  /** The table as the reader delivers it: a header row and the records, each
      a sequence of text cells. */
  datatype Table = Table(header: seq<string>, records: seq<seq<string>>)

  datatype LoadError = MissingColumn(name: string)

  /** The columns the dashboard reads, in the order it first reads them: the
      five coerced columns, the four filter columns and the colour column. */
  const REQUIRED: seq<string> := ["Year", "Price_USD", "Sales_Volume", "Engine_Size_L", "Mileage_KM",
                                  "Model", "Region", "Fuel_Type", "Transmission", "Color"]

  /** A cell past the end of a short record reads as empty. */
  function Cell(rec: seq<string>, j: nat): string
  {
    if j < |rec| then rec[j] else ""
  }

  /** The cell of a record under the first column with the given name. */
  function Field(header: seq<string>, rec: seq<string>, name: string): string
  {
    match IndexOf(header, name)
    case None => ""
    case Some(j) => Cell(rec, j)
  }

  /** The position of each named column, or the first name that is missing. */
  function Locate(header: seq<string>, names: seq<string>): (r: Result<seq<nat>, LoadError>)
    ensures r.Ok? <==> forall i :: 0 <= i < |names| ==> names[i] in header
    ensures r.Ok? ==> |r.value| == |names|
    ensures r.Ok? ==> forall i :: 0 <= i < |names| ==> IndexOf(header, names[i]) == Some(r.value[i])
    ensures r.Err? ==> exists i :: 0 <= i < |names| && r.error == MissingColumn(names[i])
                                   && names[i] !in header
                                   && forall j :: 0 <= j < i ==> names[j] in header
  {
    if |names| == 0 then Ok([])
    else
      match IndexOf(header, names[0])
      case None => Err(MissingColumn(names[0]))
      case Some(j) =>
        match Locate(header, names[1..])
        case Err(e) =>
          assert forall i :: 0 < i < |names| ==> names[i] == names[1..][i - 1];
          Err(e)
        case Ok(js) =>
          assert forall i :: 0 < i < |names| ==> names[i] == names[1..][i - 1];
          Ok([j] + js)
  }

  /** One record, with the five numeric columns coerced. `ix` holds the
      positions of the REQUIRED columns in `header`; the row holds each
      column's cell, coerced where the column is numeric. */
  function Normalise(header: seq<string>, rec: seq<string>, ix: seq<nat>): (r: Row)
    requires |ix| == |REQUIRED|
    requires forall i :: 0 <= i < |REQUIRED| ==> IndexOf(header, REQUIRED[i]) == Some(ix[i])
    ensures LoadedFrom(r, header, rec)
  {
    Row(model := Cell(rec, ix[5]),
        year := ParseNumber(Cell(rec, ix[0])),
        region := Cell(rec, ix[6]),
        fuelType := Cell(rec, ix[7]),
        transmission := Cell(rec, ix[8]),
        color := Cell(rec, ix[9]),
        price := ParseNumber(Cell(rec, ix[1])),
        sales := ParseNumber(Cell(rec, ix[2])),
        engineSize := ParseNumber(Cell(rec, ix[3])),
        mileage := ParseNumber(Cell(rec, ix[4])))
  }

  /** Load the table: it fails only when a required column is absent, and then
      names the first such column; otherwise there is one row per record,
      categories copied and numeric cells coerced, each read under its
      column's name. */
  function Load(t: Table): (r: Result<seq<Row>, LoadError>)
    ensures r.Ok? <==> forall c :: c in REQUIRED ==> c in t.header
    ensures r.Err? ==> exists i :: 0 <= i < |REQUIRED| && r.error == MissingColumn(REQUIRED[i])
                                   && REQUIRED[i] !in t.header
                                   && forall j :: 0 <= j < i ==> REQUIRED[j] in t.header
    ensures r.Ok? ==> |r.value| == |t.records|
    ensures r.Ok? ==> forall i :: 0 <= i < |t.records| ==> LoadedFrom(r.value[i], t.header, t.records[i])
  {
    match Locate(t.header, REQUIRED)
    case Err(e) => Err(e)
    case Ok(ix) =>
      Ok(seq(|t.records|, i requires 0 <= i < |t.records| => Normalise(t.header, t.records[i], ix)))
  }

  /** What a loaded row holds, stated by column name. */
  ghost predicate LoadedFrom(r: Row, header: seq<string>, rec: seq<string>)
  {
    && r.model == Field(header, rec, "Model")
    && r.region == Field(header, rec, "Region")
    && r.fuelType == Field(header, rec, "Fuel_Type")
    && r.transmission == Field(header, rec, "Transmission")
    && r.color == Field(header, rec, "Color")
    && r.year == ParseNumber(Field(header, rec, "Year"))
    && r.price == ParseNumber(Field(header, rec, "Price_USD"))
    && r.sales == ParseNumber(Field(header, rec, "Sales_Volume"))
    && r.engineSize == ParseNumber(Field(header, rec, "Engine_Size_L"))
    && r.mileage == ParseNumber(Field(header, rec, "Mileage_KM"))
  }

  /** A sales cell holding a written integer loads as that number, and a cell
      that is not a numeral loads as missing, whatever the other cells hold. */
  lemma LoadCoercesSales(t: Table, i: nat, n: int)
    requires Load(t).Ok? && i < |t.records|
    ensures Field(t.header, t.records[i], "Sales_Volume") == ShowInt(n)
            ==> Load(t).value[i].sales == Some(n as real)
    ensures Field(t.header, t.records[i], "Sales_Volume") == "n/a"
            ==> Load(t).value[i].sales == None
  {
    ParseShowInt(n);
    ParseRejectsWords();
  }
}
