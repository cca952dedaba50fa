/**
 `load_well_data` after the CSV has been read: rename the columns, add the
 default lithology, convert units, settle which application the table is
 for, check that application's required columns, and return one record per
 row. Each `ValueError` or `TypeError` the function raises is a `Failure`.
 */
module Loader {
  import opened Results
  import opened Classifier
  import opened Detector
  import opened Frames
  import opened Units

  /** Why loading stops. */
  datatype LoadError =
      /** A column the imperial conversion must do arithmetic on holds text. */
    | NonNumeric(column: string)
      /** The application label is not one the loader knows; carries the
          column list at that point. */
    | InvalidApplication(columns: seq<string>)
      /** Required columns of the application are absent, in the order the
          requirements list them. */
    | MissingRequired(application: string, missing: seq<string>)

  /** The columns each application needs. */
  const RequiredColumns: map<string, seq<string>> := map[
    "geothermal" := ["depth", "temperature"],
    "contamination" := ["depth", "porosity", "permeability"],
    "groundwater" := ["depth", "porosity", "permeability"],
    "hydrocarbon" := ["depth", "porosity", "permeability"]
  ]

  /** The value of the lithology column the loader adds when there is none. */
  const DefaultLithology: Value := Str("sandstone")

  /** The table knows exactly the four application labels: every detection
      result except `"unknown"`, and nothing else. */
  lemma RequiredColumnsKnowApplications()
    ensures forall l :: l in RequiredColumns <==> exists a :: AppName(a) == l
    ensures forall d :: Label(d) in RequiredColumns <==> d.Some?
  {
    forall l | l in RequiredColumns ensures exists a :: AppName(a) == l {
      if l == "geothermal" {
        assert AppName(Geothermal) == l;
      } else if l == "contamination" {
        assert AppName(Contamination) == l;
      } else if l == "groundwater" {
        assert AppName(Groundwater) == l;
      } else {
        assert AppName(Hydrocarbon) == l;
      }
    }
  }

  /** `application` when given, detection when it is `None` or `"auto"`. */
  function Resolve(application: Option<string>, cols: seq<string>): string {
    match application
    case None => Label(Detect(cols))
    case Some(l) => if l == "auto" then Label(Detect(cols)) else l
  }

  /** The required columns not among `present`, in the order of `required`. */
  function Absent(required: seq<string>, present: seq<string>): (m: seq<string>)
    ensures |m| <= |required|
  {
    if |required| == 0 then []
    else (if required[0] in present then [] else [required[0]]) + Absent(required[1..], present)
  }

  /** The missing list holds exactly the required columns not present. */
  lemma {:induction false} AbsentMembers(required: seq<string>, present: seq<string>)
    ensures forall x :: x in Absent(required, present) <==> x in required && x !in present
  {
    if |required| > 0 {
      AbsentMembers(required[1..], present);
      assert forall x :: x in required <==> x == required[0] || x in required[1..];
    }
  }

  /** Filtering distributes over concatenation; together with the one-element
      case this fixes the order of the result. */
  lemma {:induction false} AbsentConcat(a: seq<string>, b: seq<string>, present: seq<string>)
    ensures Absent(a + b, present) == Absent(a, present) + Absent(b, present)
  {
    if |a| > 0 {
      var head := if a[0] in present then [] else [a[0]];
      assert (a + b)[0] == a[0];
      assert (a + b)[1..] == a[1..] + b;
      AbsentConcat(a[1..], b, present);
      assert Absent(a + b, present) == head + (Absent(a[1..], present) + Absent(b, present));
      assert head + (Absent(a[1..], present) + Absent(b, present))
             == (head + Absent(a[1..], present)) + Absent(b, present);
    } else {
      assert a + b == b;
    }
  }

  // ---------------------------------------------------------------------------
  // The pipeline.
  // ---------------------------------------------------------------------------

  /** The table with its columns renamed; rows are untouched. */
  function Renamed(f: Frame): (g: Frame)
    requires WellFormed(f)
    ensures WellFormed(g)
  {
    Frame(Rename(f.columns), f.rows)
  }

  /** Renamed, with the default lithology column added if absent. */
  function Normalised(f: Frame): (g: Frame)
    requires WellFormed(f)
    ensures WellFormed(g)
  {
    AddIfAbsent(Renamed(f), "lithology", DefaultLithology)
  }

  /** The steps after the unit conversion: settle the application, check
      it and its required columns, and turn the rows into records. */
  function Validate(g: Frame, application: Option<string>): Result<seq<map<string, Value>>, LoadError>
    requires WellFormed(g)
  {
    var app := Resolve(application, g.columns);
    if app !in RequiredColumns then Failure(InvalidApplication(g.columns))
    else
      var missing := Absent(RequiredColumns[app], g.columns);
      if missing != [] then Failure(MissingRequired(app, missing))
      else Success(Records(g))
  }

  /** `load_well_data(filepath, application, units)` on the table read from
      `filepath`. */
  function Load(f: Frame, application: Option<string>, units: string): Result<seq<map<string, Value>>, LoadError>
    requires WellFormed(f)
  {
    match ConvertUnits(Normalised(f), units)
    case Failure(c) => Failure(NonNumeric(c))
    case Success(g) => Validate(g, application)
  }

  // ---------------------------------------------------------------------------
  // What loading promises.
  // ---------------------------------------------------------------------------

  /** The column names at validation time: the renamed columns, then
      `lithology` unless the rename already produced one. Every one of them
      is settled: a canonical name or a name no rule renames. */
  lemma NormalisedColumns(f: Frame)
    requires WellFormed(f)
    ensures Normalised(f).columns
            == Rename(f.columns) + (if "lithology" in Rename(f.columns) then [] else ["lithology"])
    ensures "lithology" in Normalised(f).columns
    ensures forall i | 0 <= i < |Normalised(f).columns| :: Settled(Normalised(f).columns[i])
  {
    assert Name(Lithology) == "lithology";
  }

  /** Validation fails with the label error exactly when the resolved
      application is not in the table, with the missing-columns error,
      listing them, exactly when some required column is absent, and
      otherwise returns the records of the table. */
  lemma ValidateOutcome(g: Frame, application: Option<string>)
    requires WellFormed(g)
    ensures
      var app := Resolve(application, g.columns);
      var r := Validate(g, application);
      && (r == Failure(InvalidApplication(g.columns)) <==> app !in RequiredColumns)
      && (r.Failure? && r.error.MissingRequired? <==>
            app in RequiredColumns && exists c :: c in RequiredColumns[app] && c !in g.columns)
      && (r.Failure? && r.error.MissingRequired? ==>
            r.error == MissingRequired(app, Absent(RequiredColumns[app], g.columns)))
      && (r.Success? <==> app in RequiredColumns && forall c :: c in RequiredColumns[app] ==> c in g.columns)
      && (r.Success? ==> r.value == Records(g))
      && (r.Failure? ==> !r.error.NonNumeric?)
  {
    var app := Resolve(application, g.columns);
    if app in RequiredColumns {
      var m := Absent(RequiredColumns[app], g.columns);
      AbsentMembers(RequiredColumns[app], g.columns);
      assert m == [] <==> forall c :: c in RequiredColumns[app] ==> c in g.columns by {
        if m != [] {
          assert m[0] in m;
        }
      }
    }
  }

  /** Loading stops with the conversion error when the unit step fails, and
      is otherwise the validation of the converted table, whose columns are
      the normalised ones. */
  lemma LoadStages(f: Frame, application: Option<string>, units: string)
    requires WellFormed(f)
    ensures
      var t := Normalised(f);
      var r := Load(f, application, units);
      && (r.Failure? && r.error.NonNumeric? <==> ConvertUnits(t, units).Failure?)
      && (ConvertUnits(t, units).Failure? ==> r == Failure(NonNumeric(ConvertUnits(t, units).error)))
      && (ConvertUnits(t, units).Success? ==>
            && ConvertUnits(t, units).value.columns == t.columns
            && r == Validate(ConvertUnits(t, units).value, application))
  {
    if ConvertUnits(Normalised(f), units).Success? {
      ValidateOutcome(ConvertUnits(Normalised(f), units).value, application);
    }
  }

  /** A successful load returns one record per input row, in order; each
      record's keys are the normalised column names, which include
      `lithology` and every column the application requires. */
  lemma LoadRecords(f: Frame, application: Option<string>, units: string)
    requires WellFormed(f) && Load(f, application, units).Success?
    ensures
      var rs := Load(f, application, units).value;
      var cols := Normalised(f).columns;
      var app := Resolve(application, cols);
      && |rs| == |f.rows|
      && app in RequiredColumns
      && (forall i, c | 0 <= i < |rs| :: c in rs[i] <==> c in cols)
      && (forall i | 0 <= i < |rs| :: "lithology" in rs[i])
      && (forall i, c | 0 <= i < |rs| && c in RequiredColumns[app] :: c in rs[i])
  {
    NormalisedColumns(f);
    LoadStages(f, application, units);
    var g := ConvertUnits(Normalised(f), units).value;
    ValidateOutcome(g, application);
    RecordsAreRows(g);
  }

  /** In a successful load, the record of row `i` holds under each renamed
      column name (the last column of that name wins) the cell of row `i`,
      converted when units are imperial and the column is depth,
      permeability or temperature; a `lithology` column the loader added
      holds `"sandstone"`. */
  lemma LoadRecordValues(f: Frame, application: Option<string>, units: string, i: nat)
    requires WellFormed(f) && Load(f, application, units).Success? && i < |f.rows|
    ensures
      var rec := Load(f, application, units).value[i];
      var cols := Rename(f.columns);
      && (forall j | 0 <= j < |cols| && IsLast(cols, j) ::
            rec[cols[j]] == if units == "imperial" then ConvertCell(f.rows[i][j], ConversionFor(cols[j])) else f.rows[i][j])
      && ("lithology" !in cols ==> rec["lithology"] == DefaultLithology)
  {
    var cols := Rename(f.columns);
    forall j | 0 <= j < |cols| && IsLast(cols, j)
      ensures Load(f, application, units).value[i][cols[j]]
              == if units == "imperial" then ConvertCell(f.rows[i][j], ConversionFor(cols[j])) else f.rows[i][j]
    {
      LoadCell(f, application, units, i, j);
    }
    if "lithology" !in cols {
      LoadDefaultLithology(f, application, units, i);
    }
  }

  lemma LoadCell(f: Frame, application: Option<string>, units: string, i: nat, j: nat)
    requires WellFormed(f) && Load(f, application, units).Success? && i < |f.rows|
    requires j < |f.columns| && IsLast(Rename(f.columns), j)
    ensures
      var name := Rename(f.columns)[j];
      Load(f, application, units).value[i][name]
      == if units == "imperial" then ConvertCell(f.rows[i][j], ConversionFor(name)) else f.rows[i][j]
  {
    var t := Normalised(f);
    var cols := Rename(f.columns);
    NormalisedColumns(f);
    LoadStages(f, application, units);
    var g := ConvertUnits(t, units).value;
    ValidateOutcome(g, application);
    assert t.columns[j] == cols[j] && t.rows[i][j] == f.rows[i][j];
    assert IsLast(t.columns, j);
    RecordLastWins(t.columns, t.rows[i], j);
    ConvertUnitsRecord(t, units, i, cols[j]);
  }

  lemma LoadDefaultLithology(f: Frame, application: Option<string>, units: string, i: nat)
    requires WellFormed(f) && Load(f, application, units).Success? && i < |f.rows|
    requires "lithology" !in Rename(f.columns)
    ensures Load(f, application, units).value[i]["lithology"] == DefaultLithology
  {
    var t := Normalised(f);
    var n := |f.columns|;
    NormalisedColumns(f);
    LoadStages(f, application, units);
    var g := ConvertUnits(t, units).value;
    ValidateOutcome(g, application);
    assert t.columns[n] == "lithology" && t.rows[i][n] == DefaultLithology;
    assert IsLast(t.columns, n);
    RecordLastWins(t.columns, t.rows[i], n);
    ConvertUnitsRecord(t, units, i, "lithology");
  }

  /** With no application given, or `"auto"`, validation uses what detection
      finds on the columns. On settled columns it rejects the label exactly
      when detection finds nothing; when it finds geothermal or hydrocarbon
      the only column that can still be missing is `depth`, because the
      detection test already saw the others. */
  lemma AutoDetectedValidate(g: Frame)
    requires WellFormed(g)
    requires forall i | 0 <= i < |g.columns| :: Settled(g.columns[i])
    ensures Validate(g, None) == Validate(g, Some("auto"))
    ensures
      var r := Validate(g, None);
      && (r.Failure? && r.error.InvalidApplication? <==> Detect(g.columns).None?)
      && (Detect(g.columns) == Some(Geothermal) || Detect(g.columns) == Some(Hydrocarbon) ==>
            r.Success? || r == Failure(MissingRequired(Label(Detect(g.columns)), ["depth"])))
  {
    AutoRejectsOnlyUnknown(g);
    if Detect(g.columns) == Some(Geothermal) {
      AutoGeothermal(g);
    } else if Detect(g.columns) == Some(Hydrocarbon) {
      AutoHydrocarbon(g);
    }
  }

  lemma AutoGeothermal(g: Frame)
    requires WellFormed(g)
    requires forall i | 0 <= i < |g.columns| :: Settled(g.columns[i])
    requires Detect(g.columns) == Some(Geothermal)
    ensures Validate(g, None).Success? || Validate(g, None) == Failure(MissingRequired("geothermal", ["depth"]))
  {
    TemperatureOnSettled(g.columns);
    GeothermalNeedsAtMostDepth(g.columns);
    ResolvesTo(g.columns, Geothermal);
    OnlyDepthMissing(g, "geothermal");
  }

  lemma AutoHydrocarbon(g: Frame)
    requires WellFormed(g)
    requires forall i | 0 <= i < |g.columns| :: Settled(g.columns[i])
    requires Detect(g.columns) == Some(Hydrocarbon)
    ensures Validate(g, None).Success? || Validate(g, None) == Failure(MissingRequired("hydrocarbon", ["depth"]))
  {
    HydrocarbonOnSettled(g.columns);
    HydrocarbonNeedsAtMostDepth(g.columns);
    ResolvesTo(g.columns, Hydrocarbon);
    OnlyDepthMissing(g, "hydrocarbon");
  }

  /** With no application given, a detected application is the one used. */
  lemma ResolvesTo(cols: seq<string>, a: Application)
    requires Detect(cols) == Some(a)
    ensures Resolve(None, cols) == AppName(a) && AppName(a) in RequiredColumns
  {
  }

  lemma OnlyDepthMissing(g: Frame, app: string)
    requires WellFormed(g) && Resolve(None, g.columns) == app && app in RequiredColumns
    requires Absent(RequiredColumns[app], g.columns) == if "depth" in g.columns then [] else ["depth"]
    ensures Validate(g, None).Success? || Validate(g, None) == Failure(MissingRequired(app, ["depth"]))
  {
  }

  lemma AutoRejectsOnlyUnknown(g: Frame)
    requires WellFormed(g)
    ensures Validate(g, None) == Failure(InvalidApplication(g.columns)) <==> Detect(g.columns).None?
    ensures Validate(g, None).Failure? && Validate(g, None).error.InvalidApplication? <==> Detect(g.columns).None?
  {
    RequiredColumnsKnowApplications();
  }

  lemma GeothermalNeedsAtMostDepth(cols: seq<string>)
    requires "temperature" in cols
    ensures Absent(RequiredColumns["geothermal"], cols) == if "depth" in cols then [] else ["depth"]
  {
    assert RequiredColumns["geothermal"] == ["depth", "temperature"];
    assert ["depth", "temperature"][1..] == ["temperature"];
    assert ["temperature"][1..] == [];
  }

  lemma HydrocarbonNeedsAtMostDepth(cols: seq<string>)
    requires "porosity" in cols && "permeability" in cols
    ensures Absent(RequiredColumns["hydrocarbon"], cols) == if "depth" in cols then [] else ["depth"]
  {
    assert RequiredColumns["hydrocarbon"] == ["depth", "porosity", "permeability"];
    assert ["depth", "porosity", "permeability"][1..] == ["porosity", "permeability"];
    assert ["porosity", "permeability"][1..] == ["permeability"];
    assert ["permeability"][1..] == [];
    assert Absent(["permeability"], cols) == [];
    assert Absent(["porosity", "permeability"], cols) == [];
  }

  /** The same for the whole loader: with no application given it rejects
      the label exactly when the conversion succeeds and detection on the
      normalised columns finds nothing. */
  lemma AutoDetectedLoad(f: Frame, units: string)
    requires WellFormed(f)
    ensures Load(f, None, units) == Load(f, Some("auto"), units)
    ensures
      var t := Normalised(f);
      var r := Load(f, None, units);
      && (r.Failure? && r.error.InvalidApplication? <==>
            ConvertUnits(t, units).Success? && Detect(t.columns).None?)
      && (Detect(t.columns) == Some(Geothermal) || Detect(t.columns) == Some(Hydrocarbon) ==>
            r.Success? || r.error.NonNumeric? || r == Failure(MissingRequired(Label(Detect(t.columns)), ["depth"])))
  {
    NormalisedColumns(f);
    LoadStages(f, None, units);
    LoadStages(f, Some("auto"), units);
    if ConvertUnits(Normalised(f), units).Success? {
      AutoDetectedValidate(ConvertUnits(Normalised(f), units).value);
    }
  }

  /** With a label other than `"auto"` the loader never consults detection.
      Once the unit step succeeds, a label that is none of the four analyses
      is rejected whatever the columns, and a known label is checked against
      its own required columns: loading succeeds exactly when all of them
      are among the normalised columns, and otherwise names those missing. */
  lemma ExplicitApplication(f: Frame, l: string, units: string)
    requires WellFormed(f) && l != "auto"
    ensures
      var t := Normalised(f);
      var c := ConvertUnits(t, units);
      var r := Load(f, Some(l), units);
      && (r.Failure? && r.error.InvalidApplication? <==> c.Success? && forall a :: AppName(a) != l)
      && (r.Failure? && r.error.InvalidApplication? ==> r.error.columns == t.columns)
      && (c.Success? && l in RequiredColumns ==>
            (r.Success? <==> forall x :: x in RequiredColumns[l] ==> x in t.columns))
      && (c.Success? && l in RequiredColumns && r.Failure? ==>
            r.error == MissingRequired(l, Absent(RequiredColumns[l], t.columns)))
  {
    LoadStages(f, Some(l), units);
    RequiredColumnsKnowApplications();
    var c := ConvertUnits(Normalised(f), units);
    if c.Success? {
      ValidateOutcome(c.value, Some(l));
    }
  }
}
