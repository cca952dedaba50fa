/**
 The loader's result on small concrete tables: an imperial
 geothermal log that is detected and converted, a hydrocarbon table missing
 a column, a table with nothing to detect, and a table whose only
 groundwater evidence is an aquifer column the rename leaves alone.
 */
module Scenarios {
  import opened Results
  import opened Text
  import opened Classifier
  import opened Detector
  import opened Frames
  import opened Units
  import opened Loader
  import opened WordFacts

  // ---------------------------------------------------------------------------
  // How the sample column names classify.
  // ---------------------------------------------------------------------------

  lemma DepthFtIsDepth()
    ensures Classify("Depth_ft") == Some(Depth)
  {
    RawDepthFtIsStripped();
    RawDepthFtLowers();
    DepthFtHasDepth();
    ClassifyVia("Depth_ft", "depth_ft", Some(Depth));
  }

  lemma TempFIsTemperature()
    ensures Classify("Temp_F") == Some(Temperature)
  {
    RawTempFIsStripped();
    RawTempFLowers();
    TempFLacksDepth();
    TempFLacksPoro();
    TempFLacksPerm();
    TempFLacksLith();
    TempFLacksRock();
    TempFHasTemp();
    ClassifyVia("Temp_F", "temp_f", Some(Temperature));
  }

  lemma DepthIsDepth()
    ensures Classify("Depth") == Some(Depth)
  {
    RawDepthIsStripped();
    RawDepthLowers();
    DepthHasDepth();
    ClassifyVia("Depth", "depth", Some(Depth));
  }

  lemma PorosityIsPorosity()
    ensures Classify("Porosity") == Some(Porosity)
  {
    RawPorosityIsStripped();
    RawPorosityLowers();
    PorosityLacksDepth();
    PorosityHasPoro();
    ClassifyVia("Porosity", "porosity", Some(Porosity));
  }

  lemma WellIdIsUnmapped()
    ensures Classify("Well_ID") == None
  {
    RawWellIdIsStripped();
    RawWellIdLowers();
    WellIdLacksDepth();
    WellIdLacksPoro();
    WellIdLacksPerm();
    WellIdLacksLith();
    WellIdLacksRock();
    WellIdLacksTemp();
    WellIdLacksHydraulic();
    WellIdLacksContaminant();
    WellIdLacksRisk();
    ClassifyVia("Well_ID", "well_id", None);
  }

  lemma NotesIsUnmapped()
    ensures Classify("Notes") == None
  {
    RawNotesIsStripped();
    RawNotesLowers();
    NotesLacksDepth();
    NotesLacksPoro();
    NotesLacksPerm();
    NotesLacksLith();
    NotesLacksRock();
    NotesLacksTemp();
    NotesLacksHydraulic();
    NotesLacksContaminant();
    NotesLacksRisk();
    ClassifyVia("Notes", "notes", None);
  }

  lemma AquiferThicknessIsUnmapped()
    ensures Classify("Aquifer_Thickness") == None
  {
    RawAquiferThicknessIsStripped();
    RawAquiferThicknessLowers();
    AquiferThicknessLacksDepth();
    AquiferThicknessLacksPoro();
    AquiferThicknessLacksPerm();
    AquiferThicknessLacksLith();
    AquiferThicknessLacksRock();
    AquiferThicknessLacksTemp();
    AquiferThicknessLacksHydraulic();
    AquiferThicknessLacksContaminant();
    AquiferThicknessLacksRisk();
    ClassifyVia("Aquifer_Thickness", "aquifer_thickness", None);
  }

  // The renames of the sample columns.

  lemma DepthFtRenamed()
    ensures RenameColumn("Depth_ft") == "depth"
  {
    DepthFtIsDepth();
  }

  lemma TempFRenamed()
    ensures RenameColumn("Temp_F") == "temperature"
  {
    TempFIsTemperature();
  }

  lemma DepthRenamed()
    ensures RenameColumn("Depth") == "depth"
  {
    DepthIsDepth();
  }

  lemma PorosityRenamed()
    ensures RenameColumn("Porosity") == "porosity"
  {
    PorosityIsPorosity();
  }

  lemma AquiferThicknessKept()
    ensures RenameColumn("Aquifer_Thickness") == "Aquifer_Thickness"
  {
    AquiferThicknessIsUnmapped();
  }

  /** A two-column rename is the rename of each column. */
  lemma RenameTwo(a: string, b: string)
    ensures Rename([a, b]) == [RenameColumn(a), RenameColumn(b)]
  {
    var r := Rename([a, b]);
    assert r[0] == RenameColumn(a) && r[1] == RenameColumn(b);
  }

  /** Without an existing lithology column the normalised columns are the
      renamed ones followed by `lithology`. */
  lemma NormalisedAppendsLithology(f: Frame)
    requires WellFormed(f) && "lithology" !in Rename(f.columns)
    ensures Normalised(f).columns == Rename(f.columns) + ["lithology"]
  {
  }

  /** Three settled names make a settled column list. */
  lemma SettledThree(a: string, b: string, c: string)
    requires Settled(a) && Settled(b) && Settled(c)
    ensures forall i :: 0 <= i < |[a, b, c]| ==> Settled([a, b, c][i])
  {
  }

  /** `lithology` is the canonical lithology name. */
  lemma LithologySettled()
    ensures Settled("lithology") && Classify("lithology") == Some(Lithology)
  {
    assert Name(Lithology) == "lithology";
    CanonicalNameIsFixed(Lithology);
  }

  // ---------------------------------------------------------------------------
  // The tables.
  // ---------------------------------------------------------------------------

  /** One row of an imperial log: 1000 ft deep at 212 °F. */
  const ImperialWell := Frame(["Depth_ft", "Temp_F"], [[Num(1000.0), Num(212.0)]])

  /** A hydrocarbon table without a permeability column. */
  const NoPermeability := Frame(["Depth", "Porosity"], [[Num(1500.0), Num(0.2)]])

  /** A table none of whose columns the loader recognises. */
  const Unrecognised := Frame(["Well_ID", "Notes"], [[Str("W-1"), Str("cored")]])

  /** A table whose only hint at an application is an aquifer column. */
  const AquiferOnly := Frame(["Depth", "Aquifer_Thickness"], [[Num(20.0), Num(35.0)]])

  // ---------------------------------------------------------------------------
  // An imperial geothermal log.
  // ---------------------------------------------------------------------------

  /** The canonical columns of the imperial log once lithology is added. */
  const GeothermalColumns := ["depth", "temperature", "lithology"]

  lemma ImperialRenamed()
    ensures Rename(ImperialWell.columns) == ["depth", "temperature"]
  {
    RenameTwo("Depth_ft", "Temp_F");
    DepthFtRenamed();
    TempFRenamed();
  }

  lemma ImperialNormalised()
    ensures Normalised(ImperialWell)
            == Frame(GeothermalColumns, [[Num(1000.0), Num(212.0), Str("sandstone")]])
  {
    ImperialRenamed();
    var r := Renamed(ImperialWell);
    assert "lithology" !in r.columns;
    var g := AddIfAbsent(r, "lithology", DefaultLithology);
    assert g.columns == GeothermalColumns;
    assert g.rows[0] == [Num(1000.0), Num(212.0), Str("sandstone")];
  }

  /** Converting one column of a one-row table whose cells in that column
      are numbers or missing. */
  lemma ScaleOneRow(cols: seq<string>, row: seq<Value>, name: string, conv: real -> real)
    requires |row| == |cols|
    requires forall j | 0 <= j < |row| && cols[j] == name :: !row[j].Str?
    ensures Scale(Frame(cols, [row]), name, conv) == Success(Frame(cols, [ScaleRow(cols, row, name, conv)]))
  {
    var f := Frame(cols, [row]);
    assert Numeric(f, name) by {
      forall r, j | 0 <= r < |f.rows| && 0 <= j < |f.columns| && j < |f.rows[r]| && f.columns[j] == name
        ensures !f.rows[r][j].Str?
      {
        assert f.rows[r] == row;
      }
    }
    var g := Scale(f, name, conv).value;
    assert g.rows == [ScaleRow(cols, row, name, conv)];
  }

  lemma ImperialDepth()
    ensures ScaleRow(GeothermalColumns, [Num(1000.0), Num(212.0), Str("sandstone")], "depth", FeetToMetres)
            == [Num(304.8), Num(212.0), Str("sandstone")]
  {
  }

  lemma ImperialPermeability()
    ensures ScaleRow(GeothermalColumns, [Num(304.8), Num(212.0), Str("sandstone")], "permeability", MillidarcyToSquareMetres)
            == [Num(304.8), Num(212.0), Str("sandstone")]
  {
  }

  lemma ImperialTemperature()
    ensures ScaleRow(GeothermalColumns, [Num(304.8), Num(212.0), Str("sandstone")], "temperature", FahrenheitToCelsius)
            == [Num(304.8), Num(100.0), Str("sandstone")]
  {
  }

  lemma ImperialConverted()
    ensures ConvertUnits(Normalised(ImperialWell), "imperial")
            == Success(Frame(GeothermalColumns, [[Num(304.8), Num(100.0), Str("sandstone")]]))
  {
    ImperialNormalised();
    var c := GeothermalColumns;
    ScaleOneRow(c, [Num(1000.0), Num(212.0), Str("sandstone")], "depth", FeetToMetres);
    ImperialDepth();
    ScaleOneRow(c, [Num(304.8), Num(212.0), Str("sandstone")], "permeability", MillidarcyToSquareMetres);
    ImperialPermeability();
    ScaleOneRow(c, [Num(304.8), Num(212.0), Str("sandstone")], "temperature", FahrenheitToCelsius);
    ImperialTemperature();
  }

  lemma GeothermalDetected()
    ensures Detect(GeothermalColumns) == Some(Geothermal)
  {
    TemperatureIsLower();
    ContainsSelf("temperature");
    assert Contains(Lower(GeothermalColumns[1]), "temperature");
  }

  lemma GeothermalRecord()
    ensures Records(Frame(GeothermalColumns, [[Num(304.8), Num(100.0), Str("sandstone")]]))
            == [map["depth" := Num(304.8), "temperature" := Num(100.0), "lithology" := Str("sandstone")]]
  {
    var c := GeothermalColumns;
    var row := [Num(304.8), Num(100.0), Str("sandstone")];
    assert c[..2] == ["depth", "temperature"] && row[..2] == [Num(304.8), Num(100.0)];
    assert c[..2][..1] == ["depth"] && row[..2][..1] == [Num(304.8)];
    assert Record(c, row) == map["depth" := Num(304.8), "temperature" := Num(100.0), "lithology" := Str("sandstone")];
  }

  lemma GeothermalValidated()
    ensures Validate(Frame(GeothermalColumns, [[Num(304.8), Num(100.0), Str("sandstone")]]), None)
            == Success([map["depth" := Num(304.8), "temperature" := Num(100.0), "lithology" := Str("sandstone")]])
  {
    GeothermalDetected();
    GeothermalRecord();
    assert Absent(["depth", "temperature"], GeothermalColumns) == [];
  }

  /** The imperial log is detected as geothermal, passes validation, and comes
      back as one record in metres and degrees Celsius with the default
      lithology. */
  lemma ImperialGeothermalScenario()
    ensures Load(ImperialWell, None, "imperial")
            == Success([map["depth" := Num(304.8), "temperature" := Num(100.0), "lithology" := Str("sandstone")]])
  {
    ImperialConverted();
    GeothermalValidated();
  }

  // ---------------------------------------------------------------------------
  // Tables that fail validation.
  // ---------------------------------------------------------------------------

  /** With metric units the loader validates the normalised table. */
  lemma MetricLoad(f: Frame, application: Option<string>)
    requires WellFormed(f)
    ensures Load(f, application, "metric") == Validate(Normalised(f), application)
  {
  }

  /** Validation reports the absent required columns of the resolved
      application. */
  lemma MissingOutcome(g: Frame, application: Option<string>, app: string, missing: seq<string>)
    requires WellFormed(g) && Resolve(application, g.columns) == app && app in RequiredColumns
    requires Absent(RequiredColumns[app], g.columns) == missing && missing != []
    ensures Validate(g, application) == Failure(MissingRequired(app, missing))
  {
  }

  /** What detection finds on settled columns with no geothermal or
      contamination evidence. */
  lemma DetectedWithoutHeat(cols: seq<string>)
    requires forall i :: 0 <= i < |cols| ==> Settled(cols[i])
    requires "temperature" !in cols && "contaminant_risk" !in cols && "porosity" !in cols
    ensures GroundwaterEvidence(cols) ==> Detect(cols) == Some(Groundwater)
    ensures !GroundwaterEvidence(cols) ==> Detect(cols) == None
  {
    DetectOnSettled(cols);
  }

  /** The columns a metric load of the hydrocarbon table validates. */
  const HydrocarbonColumns := ["depth", "porosity", "lithology"]

  lemma NoPermeabilityRenamed()
    ensures Rename(NoPermeability.columns) == ["depth", "porosity"]
  {
    RenameTwo("Depth", "Porosity");
    DepthRenamed();
    PorosityRenamed();
  }

  lemma NoPermeabilityColumns()
    ensures Normalised(NoPermeability).columns == HydrocarbonColumns
  {
    NoPermeabilityRenamed();
    NormalisedAppendsLithology(NoPermeability);
  }

  lemma HydrocarbonRequires()
    ensures "hydrocarbon" in RequiredColumns && "groundwater" in RequiredColumns
    ensures RequiredColumns["hydrocarbon"] == ["depth", "porosity", "permeability"]
    ensures RequiredColumns["groundwater"] == ["depth", "porosity", "permeability"]
  {
  }

  lemma NoPermeabilityAbsent()
    ensures Absent(["depth", "porosity", "permeability"], HydrocarbonColumns) == ["permeability"]
  {
    var cols := HydrocarbonColumns;
    assert Absent(["permeability"], cols) == ["permeability"];
    assert Absent(["porosity", "permeability"], cols) == ["permeability"];
  }

  /** Asking for hydrocarbon analysis of a table without permeability fails
      and names the one missing column. */
  lemma MissingPermeabilityScenario()
    ensures Load(NoPermeability, Some("hydrocarbon"), "metric")
            == Failure(MissingRequired("hydrocarbon", ["permeability"]))
  {
    MetricLoad(NoPermeability, Some("hydrocarbon"));
    NoPermeabilityColumns();
    HydrocarbonRequires();
    NoPermeabilityAbsent();
    MissingOutcome(Normalised(NoPermeability), Some("hydrocarbon"), "hydrocarbon", ["permeability"]);
  }

  /** The columns a metric load of the unrecognised table validates. */
  const UnrecognisedColumns := ["Well_ID", "Notes", "lithology"]

  lemma UnrecognisedNormalised()
    ensures Normalised(Unrecognised).columns == UnrecognisedColumns
  {
    RenameTwo("Well_ID", "Notes");
    WellIdIsUnmapped();
    NotesIsUnmapped();
    NormalisedAppendsLithology(Unrecognised);
  }

  lemma UnrecognisedSettled()
    ensures forall i :: 0 <= i < |UnrecognisedColumns| ==> Settled(UnrecognisedColumns[i])
  {
    WellIdIsUnmapped();
    NotesIsUnmapped();
    LithologySettled();
    SettledThree("Well_ID", "Notes", "lithology");
  }

  /** One evidence column is groundwater evidence for the table. */
  lemma EvidenceAt(cols: seq<string>, i: nat)
    requires i < |cols| && WaterMention(cols[i])
    ensures GroundwaterEvidence(cols)
  {
  }

  /** Three columns none of which is evidence, and no hydraulic
      conductivity column, give no groundwater evidence. */
  lemma NoEvidenceThree(a: string, b: string, c: string)
    requires "hydraulic_conductivity" !in [a, b, c]
    requires !WaterMention(a) && !WaterMention(b) && !WaterMention(c)
    ensures !GroundwaterEvidence([a, b, c])
  {
    var cols := [a, b, c];
    forall i | 0 <= i < |cols| ensures !WaterMention(cols[i]) {
      assert cols[i] == a || cols[i] == b || cols[i] == c;
    }
  }

  lemma WellIdNoEvidence()
    ensures !WaterMention("Well_ID")
  {
    RawWellIdLowers();
    WellIdLacksHydraulic();
    WellIdLacksAquifer();
  }

  lemma NotesNoEvidence()
    ensures !WaterMention("Notes")
  {
    RawNotesLowers();
    NotesLacksHydraulic();
    NotesLacksAquifer();
  }

  lemma LithologyNoEvidence()
    ensures !WaterMention("lithology")
  {
    LithologySettled();
  }

  lemma UnrecognisedNoGroundwater()
    ensures !GroundwaterEvidence(UnrecognisedColumns)
  {
    WellIdNoEvidence();
    NotesNoEvidence();
    LithologyNoEvidence();
    NoEvidenceThree("Well_ID", "Notes", "lithology");
  }

  lemma UnrecognisedUndetected()
    ensures Detect(UnrecognisedColumns) == None
  {
    UnrecognisedSettled();
    UnrecognisedNoGroundwater();
    UnrecognisedNoHeat();
    DetectedWithoutHeat(UnrecognisedColumns);
  }

  lemma UnrecognisedNoHeat()
    ensures "temperature" !in UnrecognisedColumns && "contaminant_risk" !in UnrecognisedColumns
    ensures "porosity" !in UnrecognisedColumns
  {
  }

  /** A table with nothing to detect resolves to `"unknown"` and is
      rejected, with the column list (lithology included) in the error. */
  lemma UnrecognisedScenario()
    ensures Load(Unrecognised, None, "metric") == Failure(InvalidApplication(["Well_ID", "Notes", "lithology"]))
  {
    MetricLoad(Unrecognised, None);
    UnrecognisedNormalised();
    UnrecognisedUndetected();
  }

  /** The columns a metric load of the aquifer table validates. */
  const AquiferColumns := ["depth", "Aquifer_Thickness", "lithology"]

  lemma AquiferOnlyRenamed()
    ensures Rename(AquiferOnly.columns) == ["depth", "Aquifer_Thickness"]
  {
    RenameTwo("Depth", "Aquifer_Thickness");
    DepthRenamed();
    AquiferThicknessKept();
  }

  lemma AquiferOnlyNormalised()
    ensures Normalised(AquiferOnly).columns == AquiferColumns
  {
    AquiferOnlyRenamed();
    NormalisedAppendsLithology(AquiferOnly);
  }

  lemma AquiferSettled()
    ensures forall i :: 0 <= i < |AquiferColumns| ==> Settled(AquiferColumns[i])
  {
    assert Name(Depth) == "depth";
    CanonicalNameIsFixed(Depth);
    AquiferThicknessIsUnmapped();
    LithologySettled();
    SettledThree("depth", "Aquifer_Thickness", "lithology");
  }

  lemma AquiferThicknessIsEvidence()
    ensures WaterMention("Aquifer_Thickness")
  {
    AquiferThicknessIsUnmapped();
    RawAquiferThicknessLowers();
    AquiferThicknessHasAquifer();
  }

  lemma AquiferEvidence()
    ensures GroundwaterEvidence(AquiferColumns)
  {
    AquiferThicknessIsEvidence();
    EvidenceAt(AquiferColumns, 1);
  }

  lemma AquiferOnlyDetected()
    ensures Detect(AquiferColumns) == Some(Groundwater)
  {
    AquiferSettled();
    AquiferEvidence();
    AquiferNoHeat();
    DetectedWithoutHeat(AquiferColumns);
  }

  lemma AquiferNoHeat()
    ensures "temperature" !in AquiferColumns && "contaminant_risk" !in AquiferColumns && "porosity" !in AquiferColumns
  {
  }

  lemma AquiferAbsent()
    ensures Absent(["depth", "porosity", "permeability"], AquiferColumns) == ["porosity", "permeability"]
  {
    var cols := AquiferColumns;
    assert Absent(["permeability"], cols) == ["permeability"];
    assert Absent(["porosity", "permeability"], cols) == ["porosity", "permeability"];
  }

  /** The aquifer rule is live after renaming: an aquifer column keeps its
      name, detection picks groundwater, and the load fails on the
      groundwater requirements rather than on the label. */
  lemma AquiferGroundwaterScenario()
    ensures Load(AquiferOnly, None, "metric")
            == Failure(MissingRequired("groundwater", ["porosity", "permeability"]))
  {
    MetricLoad(AquiferOnly, None);
    AquiferOnlyNormalised();
    AquiferValidated(Normalised(AquiferOnly));
  }

  lemma AquiferValidated(g: Frame)
    requires WellFormed(g) && g.columns == AquiferColumns
    ensures Validate(g, None) == Failure(MissingRequired("groundwater", ["porosity", "permeability"]))
  {
    AquiferOnlyDetected();
    ResolvesTo(AquiferColumns, Groundwater);
    HydrocarbonRequires();
    AquiferAbsent();
    MissingOutcome(g, None, "groundwater", ["porosity", "permeability"]);
  }
}
