/**
 The imperial-to-SI conversion of `load_well_data`: with `units ==
 "imperial"` the `depth` column goes from feet to metres, `permeability` from
 millidarcy to square metres and `temperature` from degrees Fahrenheit to
 degrees Celsius, each only when the column is present. Arithmetic is on
 exact reals.
 */
module Units {
  import opened Results
  import opened Frames

  // ---------------------------------------------------------------------------
  // The three conversions and their inverses.
  // ---------------------------------------------------------------------------

  const FootInMetres: real := 0.3048
  const MillidarcyInSquareMetres: real := 0.000000000000000986923

  function FeetToMetres(x: real): real {
    x * FootInMetres
  }

  function MillidarcyToSquareMetres(x: real): real {
    x * MillidarcyInSquareMetres
  }

  /** `(t - 32) * 5 / 9`. */
  function FahrenheitToCelsius(t: real): real {
    (t - 32.0) * 5.0 / 9.0
  }

  function MetresToFeet(x: real): real {
    x / FootInMetres
  }

  function SquareMetresToMillidarcy(x: real): real {
    x / MillidarcyInSquareMetres
  }

  function CelsiusToFahrenheit(t: real): real {
    t * 9.0 / 5.0 + 32.0
  }

  /** Each conversion is undone by its inverse, in both directions. */
  lemma ConversionsInvert(x: real)
    ensures MetresToFeet(FeetToMetres(x)) == x && FeetToMetres(MetresToFeet(x)) == x
    ensures SquareMetresToMillidarcy(MillidarcyToSquareMetres(x)) == x
    ensures MillidarcyToSquareMetres(SquareMetresToMillidarcy(x)) == x
    ensures CelsiusToFahrenheit(FahrenheitToCelsius(x)) == x
    ensures FahrenheitToCelsius(CelsiusToFahrenheit(x)) == x
  {
  }

  /** Reference points of the temperature scale: water freezes at 32 °F =
      0 °C and boils at 212 °F = 100 °C, and -40 is the same on both. */
  lemma TemperatureReferencePoints()
    ensures FahrenheitToCelsius(32.0) == 0.0
    ensures FahrenheitToCelsius(212.0) == 100.0
    ensures FahrenheitToCelsius(-40.0) == -40.0
  {
  }

  // ---------------------------------------------------------------------------
  // Converting the cells of one named column.
  // ---------------------------------------------------------------------------

  /** Pandas arithmetic on one cell: numbers are converted, a missing value
      stays missing. Text is not converted; see `Numeric`. */
  function ConvertCell(v: Value, conv: real -> real): Value {
    match v
    case Num(x) => Num(conv(x))
    case Str(s) => Str(s)
    case Missing => Missing
  }

  /** No column called `name` holds text; arithmetic on a text column raises
      `TypeError` in pandas. */
  predicate Numeric(f: Frame, name: string) {
    forall r, j | 0 <= r < |f.rows| && 0 <= j < |f.columns| && j < |f.rows[r]| && f.columns[j] == name ::
      !f.rows[r][j].Str?
  }

  /** The row with the cells under `name` converted. */
  function ScaleRow(cols: seq<string>, row: seq<Value>, name: string, conv: real -> real): (out: seq<Value>)
    requires |row| == |cols|
    ensures |out| == |row|
  {
    seq(|row|, j requires 0 <= j < |row| => if cols[j] == name then ConvertCell(row[j], conv) else row[j])
  }

  /** `df[name] = conv(df[name])`: every column called `name` converted cell
      by cell, or the name of the column when it holds text. A table without
      such a column comes back unchanged. */
  function Scale(f: Frame, name: string, conv: real -> real): (r: Result<Frame, string>)
    requires WellFormed(f)
    ensures r.Success? <==> Numeric(f, name)
    ensures r.Failure? ==> r.error == name
    ensures r.Success? ==> WellFormed(r.value) && r.value.columns == f.columns && |r.value.rows| == |f.rows|
  {
    if !Numeric(f, name) then Failure(name)
    else
      Success(Frame(f.columns, seq(|f.rows|, i requires 0 <= i < |f.rows| => ScaleRow(f.columns, f.rows[i], name, conv))))
  }

  /** Converting a column leaves every other column's record entries as they
      were, and turns the entry under `name` into its converted value. */
  lemma {:induction false} ScaleRowRecord(cols: seq<string>, row: seq<Value>, name: string, conv: real -> real)
    requires |row| == |cols|
    ensures forall c | c in cols ::
              Record(cols, ScaleRow(cols, row, name, conv))[c]
              == if c == name then ConvertCell(Record(cols, row)[c], conv) else Record(cols, row)[c]
    decreases |cols|
  {
    if |cols| > 0 {
      var n := |cols| - 1;
      var out := ScaleRow(cols, row, name, conv);
      assert ScaleRow(cols[..n], row[..n], name, conv) == out[..n];
      ScaleRowRecord(cols[..n], row[..n], name, conv);
    }
  }

  /** Converting with `conv` and then with an inverse of `conv` gives the
      table back. */
  lemma ScaleRoundTrip(f: Frame, name: string, conv: real -> real, inv: real -> real)
    requires WellFormed(f) && Numeric(f, name)
    requires forall x :: inv(conv(x)) == x
    ensures Scale(f, name, conv).Success?
    ensures Numeric(Scale(f, name, conv).value, name)
    ensures Scale(Scale(f, name, conv).value, name, inv) == Success(f)
  {
    var g := Scale(f, name, conv).value;
    assert Numeric(g, name) by {
      forall r, j | 0 <= r < |g.rows| && 0 <= j < |g.columns| && g.columns[j] == name
        ensures !g.rows[r][j].Str?
      {
        assert g.rows[r][j] == ConvertCell(f.rows[r][j], conv);
      }
    }
    var h := Scale(g, name, inv).value;
    forall r | 0 <= r < |f.rows| ensures h.rows[r] == f.rows[r] {
      forall j | 0 <= j < |f.columns| ensures h.rows[r][j] == f.rows[r][j] {
        assert g.rows[r][j] == if f.columns[j] == name then ConvertCell(f.rows[r][j], conv) else f.rows[r][j];
        assert h.rows[r][j] == if f.columns[j] == name then ConvertCell(g.rows[r][j], inv) else g.rows[r][j];
      }
    }
    assert h.rows == f.rows;
  }

  /** Converting one column does not change whether another holds text. */
  lemma ScaleKeepsNumeric(f: Frame, name: string, conv: real -> real, other: string)
    requires WellFormed(f) && Numeric(f, name)
    ensures Numeric(Scale(f, name, conv).value, other) <==> Numeric(f, other)
  {
    var g := Scale(f, name, conv).value;
    forall r, j | 0 <= r < |f.rows| && 0 <= j < |f.columns|
      ensures g.rows[r][j].Str? <==> f.rows[r][j].Str?
    {
      assert g.rows[r][j] == if f.columns[j] == name then ConvertCell(f.rows[r][j], conv) else f.rows[r][j];
    }
  }

  // ---------------------------------------------------------------------------
  // The whole conversion step.
  // ---------------------------------------------------------------------------

  /** The unit step of the loader: nothing unless `units == "imperial"`;
      then depth, permeability and temperature, in that order, stopping at
      the first of them that holds text. */
  function ConvertUnits(f: Frame, units: string): (r: Result<Frame, string>)
    requires WellFormed(f)
    ensures r.Success? ==> WellFormed(r.value) && r.value.columns == f.columns && |r.value.rows| == |f.rows|
  {
    if units != "imperial" then Success(f)
    else
      var a :- Scale(f, "depth", FeetToMetres);
      var b :- Scale(a, "permeability", MillidarcyToSquareMetres);
      Scale(b, "temperature", FahrenheitToCelsius)
  }

  /** Back from SI to imperial units: temperature, permeability and depth
      through the inverse conversions. */
  function ConvertBack(f: Frame): Result<Frame, string>
    requires WellFormed(f)
  {
    var a :- Scale(f, "temperature", CelsiusToFahrenheit);
    var b :- Scale(a, "permeability", SquareMetresToMillidarcy);
    Scale(b, "depth", MetresToFeet)
  }

  /** The conversion fails exactly when units are imperial and one of the
      three columns holds text, and it names the first such column in the
      order depth, permeability, temperature; anything but `"imperial"`
      leaves the table untouched. */
  lemma ConvertUnitsOutcome(f: Frame, units: string)
    requires WellFormed(f)
    ensures units != "imperial" ==> ConvertUnits(f, units) == Success(f)
    ensures ConvertUnits(f, units).Failure? <==>
              units == "imperial" && !(Numeric(f, "depth") && Numeric(f, "permeability") && Numeric(f, "temperature"))
    ensures ConvertUnits(f, units).Failure? ==>
              ConvertUnits(f, units).error
              == if !Numeric(f, "depth") then "depth" else if !Numeric(f, "permeability") then "permeability" else "temperature"
  {
    if units == "imperial" && Numeric(f, "depth") {
      var a := Scale(f, "depth", FeetToMetres).value;
      ScaleKeepsNumeric(f, "depth", FeetToMetres, "permeability");
      ScaleKeepsNumeric(f, "depth", FeetToMetres, "temperature");
      if Numeric(a, "permeability") {
        ScaleKeepsNumeric(a, "permeability", MillidarcyToSquareMetres, "temperature");
      }
    }
  }

  /** Imperial conversion is undone by converting back. */
  lemma ConvertUnitsRoundTrip(f: Frame)
    requires WellFormed(f)
    requires ConvertUnits(f, "imperial").Success?
    ensures ConvertBack(ConvertUnits(f, "imperial").value) == Success(f)
  {
    ConvertUnitsOutcome(f, "imperial");
    forall x ensures MetresToFeet(FeetToMetres(x)) == x && SquareMetresToMillidarcy(MillidarcyToSquareMetres(x)) == x
      && CelsiusToFahrenheit(FahrenheitToCelsius(x)) == x
    {
      ConversionsInvert(x);
    }
    var a := Scale(f, "depth", FeetToMetres).value;
    ScaleKeepsNumeric(f, "depth", FeetToMetres, "permeability");
    ScaleKeepsNumeric(f, "depth", FeetToMetres, "temperature");
    var b := Scale(a, "permeability", MillidarcyToSquareMetres).value;
    ScaleKeepsNumeric(a, "permeability", MillidarcyToSquareMetres, "temperature");
    var c := Scale(b, "temperature", FahrenheitToCelsius).value;
    ScaleRoundTrip(b, "temperature", FahrenheitToCelsius, CelsiusToFahrenheit);
    ScaleRoundTrip(a, "permeability", MillidarcyToSquareMetres, SquareMetresToMillidarcy);
    ScaleKeepsNumeric(b, "temperature", FahrenheitToCelsius, "permeability");
    ScaleRoundTrip(f, "depth", FeetToMetres, MetresToFeet);
    ScaleKeepsNumeric(a, "permeability", MillidarcyToSquareMetres, "depth");
    ScaleKeepsNumeric(b, "temperature", FahrenheitToCelsius, "depth");
  }

  /** The conversion the imperial step applies to a column of the given
      name; other columns are left as they are. */
  function ConversionFor(name: string): real -> real {
    if name == "depth" then FeetToMetres
    else if name == "permeability" then MillidarcyToSquareMetres
    else if name == "temperature" then FahrenheitToCelsius
    else x => x
  }

  /** What the unit step does to one entry of a row's record: under imperial
      units the entry of `depth`, `permeability` or `temperature` is
      converted, every other entry is kept, and under any other units
      nothing changes. */
  lemma ConvertUnitsRecord(t: Frame, units: string, i: nat, c: string)
    requires WellFormed(t) && ConvertUnits(t, units).Success?
    requires i < |t.rows| && c in t.columns
    ensures
      var g := ConvertUnits(t, units).value;
      Record(g.columns, g.rows[i])[c]
      == if units == "imperial" then ConvertCell(Record(t.columns, t.rows[i])[c], ConversionFor(c))
         else Record(t.columns, t.rows[i])[c]
  {
    if units == "imperial" {
      var a := Scale(t, "depth", FeetToMetres).value;
      var b := Scale(a, "permeability", MillidarcyToSquareMetres).value;
      ScaleRowRecord(t.columns, t.rows[i], "depth", FeetToMetres);
      ScaleRowRecord(a.columns, a.rows[i], "permeability", MillidarcyToSquareMetres);
      ScaleRowRecord(b.columns, b.rows[i], "temperature", FahrenheitToCelsius);
      var v := Record(t.columns, t.rows[i])[c];
      assert ConvertCell(v, x => x) == v;
    }
  }
}
