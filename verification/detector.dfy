/**
 `detect_application`: the analysis a well table is meant for, guessed from
 its column names alone by an ordered chain of substring tests on the
 lower-cased (but not stripped) names.
 */
module Detector {
  import opened Text
  import opened Results
  import opened Classifier
  import opened WordFacts

  /** The four analyses the loader knows the required columns of. */
  datatype Application = Geothermal | Contamination | Groundwater | Hydrocarbon

  /** The label `detect_application` returns for an application. */
  function AppName(a: Application): string {
    match a
    case Geothermal => "geothermal"
    case Contamination => "contamination"
    case Groundwater => "groundwater"
    case Hydrocarbon => "hydrocarbon"
  }

  /** The label of a detection outcome: `"unknown"` when no test fired. */
  function Label(d: Option<Application>): string {
    match d
    case None => "unknown"
    case Some(a) => AppName(a)
  }

  /** `cols.str.lower().str.contains(w).any()`: some column name, lower-cased,
      contains `w`. */
  predicate AnyContains(cols: seq<string>, w: string) {
    exists i | 0 <= i < |cols| :: Contains(Lower(cols[i]), w)
  }

  /** The only thing detection looks at: which words occur in some column. */
  function Present(cols: seq<string>): string -> bool {
    w => AnyContains(cols, w)
  }

  // ---------------------------------------------------------------------------
  // The tests as a table: a reference definition of "first test that fires".
  // A regular-expression alternation `a|b` fires when either word occurs; the
  // hydrocarbon test asks for both words, possibly in different columns.
  // ---------------------------------------------------------------------------

  function Rule(a: Application): Pattern {
    match a
    case Geothermal => Has("temperature")
    case Contamination => HasEither("contaminant", "risk")
    case Groundwater => HasEither("hydraulic", "aquifer")
    case Hydrocarbon => HasBoth("porosity", "permeability")
  }

  function Rank(a: Application): nat {
    match a
    case Geothermal => 0
    case Contamination => 1
    case Groundwater => 2
    case Hydrocarbon => 3
  }

  /** `a`'s test fires and no earlier test does. */
  predicate FirstRule(has: string -> bool, a: Application) {
    && Matches(Rule(a), has)
    && forall b :: Rank(b) < Rank(a) ==> !Matches(Rule(b), has)
  }

  /** The `if` chain of `detect_application`, on the words present. */
  function Decide(has: string -> bool): Option<Application> {
    if has("temperature") then Some(Geothermal)
    else if has("contaminant") || has("risk") then Some(Contamination)
    else if has("hydraulic") || has("aquifer") then Some(Groundwater)
    else if has("porosity") && has("permeability") then Some(Hydrocarbon)
    else None
  }

  /** The chain reads nothing but the seven words it tests for. */
  lemma DecideReadsWords(h: string -> bool, g: string -> bool)
    requires h("temperature") == g("temperature")
    requires h("contaminant") == g("contaminant") && h("risk") == g("risk")
    requires h("hydraulic") == g("hydraulic") && h("aquifer") == g("aquifer")
    requires h("porosity") == g("porosity") && h("permeability") == g("permeability")
    ensures Decide(h) == Decide(g)
  {
  }

  /** `detect_application(df)` on a table with column names `cols`. */
  function Detect(cols: seq<string>): Option<Application> {
    Decide(Present(cols))
  }

  /** The chain returns the first application whose test fires, and nothing
      exactly when no test fires. */
  lemma DecideIsFirstRule(has: string -> bool)
    ensures forall a :: Decide(has) == Some(a) <==> FirstRule(has, a)
    ensures Decide(has).None? <==> forall a :: !Matches(Rule(a), has)
  {
    forall a ensures Decide(has) == Some(a) <==> FirstRule(has, a) {
      if FirstRule(has, a) {
        match a
        case Geothermal =>
        case Contamination => assert !Matches(Rule(Geothermal), has);
        case Groundwater =>
          assert !Matches(Rule(Geothermal), has);
          assert !Matches(Rule(Contamination), has);
        case Hydrocarbon =>
          assert !Matches(Rule(Geothermal), has);
          assert !Matches(Rule(Contamination), has);
          assert !Matches(Rule(Groundwater), has);
      }
    }
    if Decide(has).None? {
      forall a ensures !Matches(Rule(a), has) {
        match a
        case Geothermal =>
        case Contamination =>
        case Groundwater =>
        case Hydrocarbon =>
      }
    }
  }

  /** `detect_application` picks the first application, in the order
      geothermal, contamination, groundwater, hydrocarbon, whose test fires on
      the column names, and `"unknown"` when none does. */
  lemma DetectIsFirstRule(cols: seq<string>)
    ensures forall a :: Detect(cols) == Some(a) <==> FirstRule(Present(cols), a)
    ensures Detect(cols).None? <==> forall a :: !Matches(Rule(a), Present(cols))
  {
    DecideIsFirstRule(Present(cols));
  }

  // ---------------------------------------------------------------------------
  // Detection looks at the set of names only.
  // ---------------------------------------------------------------------------

  /** Detection does not depend on the order of the columns or on repeats. */
  lemma DetectIgnoresOrder(a: seq<string>, b: seq<string>)
    requires forall x :: x in a <==> x in b
    ensures Detect(a) == Detect(b)
  {
    AnyContainsSubset(a, b, "temperature");
    AnyContainsSubset(b, a, "temperature");
    AnyContainsSubset(a, b, "contaminant");
    AnyContainsSubset(b, a, "contaminant");
    AnyContainsSubset(a, b, "risk");
    AnyContainsSubset(b, a, "risk");
    AnyContainsSubset(a, b, "hydraulic");
    AnyContainsSubset(b, a, "hydraulic");
    AnyContainsSubset(a, b, "aquifer");
    AnyContainsSubset(b, a, "aquifer");
    AnyContainsSubset(a, b, "porosity");
    AnyContainsSubset(b, a, "porosity");
    AnyContainsSubset(a, b, "permeability");
    AnyContainsSubset(b, a, "permeability");
    DecideReadsWords(Present(a), Present(b));
  }

  lemma AnyContainsSubset(a: seq<string>, b: seq<string>, w: string)
    requires forall x :: x in a ==> x in b
    ensures AnyContains(a, w) ==> AnyContains(b, w)
  {
    if AnyContains(a, w) {
      var i :| 0 <= i < |a| && Contains(Lower(a[i]), w);
      assert a[i] in b;
    }
  }

  lemma AnyContainsAppend(cols: seq<string>, c: string, w: string)
    ensures AnyContains(cols + [c], w) <==> AnyContains(cols, w) || Contains(Lower(c), w)
  {
    if AnyContains(cols, w) {
      var i :| 0 <= i < |cols| && Contains(Lower(cols[i]), w);
      assert (cols + [c])[i] == cols[i];
    }
    if Contains(Lower(c), w) {
      assert (cols + [c])[|cols|] == c;
    }
  }

  /** The name contains none of the words the detection tests look for. */
  predicate Neutral(c: string) {
    var l := Lower(c);
    && !Contains(l, "temperature")
    && !Contains(l, "contaminant") && !Contains(l, "risk")
    && !Contains(l, "hydraulic") && !Contains(l, "aquifer")
    && !Contains(l, "porosity") && !Contains(l, "permeability")
  }

  /** Adding a column whose name contains no detection word leaves the
      detected application as it was. */
  lemma DetectIgnoresNeutral(cols: seq<string>, c: string)
    requires Neutral(c)
    ensures Detect(cols + [c]) == Detect(cols)
  {
    AnyContainsAppend(cols, c, "temperature");
    AnyContainsAppend(cols, c, "contaminant");
    AnyContainsAppend(cols, c, "risk");
    AnyContainsAppend(cols, c, "hydraulic");
    AnyContainsAppend(cols, c, "aquifer");
    AnyContainsAppend(cols, c, "porosity");
    AnyContainsAppend(cols, c, "permeability");
    DecideReadsWords(Present(cols + [c]), Present(cols));
  }

  /** The default `lithology` column is neutral, so adding it does not change
      what is detected. */
  lemma LithologyIsNeutral()
    ensures Neutral("lithology")
  {
    LithologyIsLower();
    LithologyLacksTemperature();
    LithologyLacksContaminant();
    LithologyLacksRisk();
    LithologyLacksHydraulic();
    LithologyLacksAquifer();
    LithologyLacksPorosity();
    LithologyLacksPermeability();
  }

  // ---------------------------------------------------------------------------
  // Detection on renamed columns.
  // ---------------------------------------------------------------------------

  // Which canonical names contain each detection word.

  lemma TemperatureInNames()
    ensures forall c :: Contains(Name(c), "temperature") <==> c == Temperature
  {
    forall c ensures Contains(Name(c), "temperature") <==> c == Temperature {
      match c
      case Depth => DepthLacksTemperature();
      case Porosity => PorosityLacksTemperature();
      case Permeability => PermeabilityLacksTemperature();
      case Lithology => LithologyLacksTemperature();
      case Temperature => TemperatureHasTemperature();
      case HydraulicConductivity => HydraulicConductivityLacksTemperature();
      case ContaminantRisk => ContaminantRiskLacksTemperature();
    }
  }

  lemma ContaminantInNames()
    ensures forall c :: Contains(Name(c), "contaminant") <==> c == ContaminantRisk
  {
    forall c ensures Contains(Name(c), "contaminant") <==> c == ContaminantRisk {
      match c
      case Depth => DepthLacksContaminant();
      case Porosity => PorosityLacksContaminant();
      case Permeability => PermeabilityLacksContaminant();
      case Lithology => LithologyLacksContaminant();
      case Temperature => TemperatureLacksContaminant();
      case HydraulicConductivity => HydraulicConductivityLacksContaminant();
      case ContaminantRisk => ContaminantRiskHasContaminant();
    }
  }

  lemma RiskInNames()
    ensures forall c :: Contains(Name(c), "risk") <==> c == ContaminantRisk
  {
    forall c ensures Contains(Name(c), "risk") <==> c == ContaminantRisk {
      match c
      case Depth => DepthLacksRisk();
      case Porosity => PorosityLacksRisk();
      case Permeability => PermeabilityLacksRisk();
      case Lithology => LithologyLacksRisk();
      case Temperature => TemperatureLacksRisk();
      case HydraulicConductivity => HydraulicConductivityLacksRisk();
      case ContaminantRisk => ContaminantRiskHasRisk();
    }
  }

  lemma HydraulicInNames()
    ensures forall c :: Contains(Name(c), "hydraulic") <==> c == HydraulicConductivity
  {
    forall c ensures Contains(Name(c), "hydraulic") <==> c == HydraulicConductivity {
      match c
      case Depth => DepthLacksHydraulic();
      case Porosity => PorosityLacksHydraulic();
      case Permeability => PermeabilityLacksHydraulic();
      case Lithology => LithologyLacksHydraulic();
      case Temperature => TemperatureLacksHydraulic();
      case HydraulicConductivity => HydraulicConductivityHasHydraulic();
      case ContaminantRisk => ContaminantRiskLacksHydraulic();
    }
  }

  lemma AquiferInNames()
    ensures forall c :: !Contains(Name(c), "aquifer")
  {
    forall c ensures !Contains(Name(c), "aquifer") {
      match c
      case Depth => DepthLacksAquifer();
      case Porosity => PorosityLacksAquifer();
      case Permeability => PermeabilityLacksAquifer();
      case Lithology => LithologyLacksAquifer();
      case Temperature => TemperatureLacksAquifer();
      case HydraulicConductivity => HydraulicConductivityLacksAquifer();
      case ContaminantRisk => ContaminantRiskLacksAquifer();
    }
  }

  lemma PorosityInNames()
    ensures forall c :: Contains(Name(c), "porosity") <==> c == Porosity
  {
    forall c ensures Contains(Name(c), "porosity") <==> c == Porosity {
      match c
      case Depth => DepthLacksPorosity();
      case Porosity => PorosityHasPorosity();
      case Permeability => PermeabilityLacksPorosity();
      case Lithology => LithologyLacksPorosity();
      case Temperature => TemperatureLacksPorosity();
      case HydraulicConductivity => HydraulicConductivityLacksPorosity();
      case ContaminantRisk => ContaminantRiskLacksPorosity();
    }
  }

  lemma PermeabilityInNames()
    ensures forall c :: Contains(Name(c), "permeability") <==> c == Permeability
  {
    forall c ensures Contains(Name(c), "permeability") <==> c == Permeability {
      match c
      case Depth => DepthLacksPermeability();
      case Porosity => PorosityLacksPermeability();
      case Permeability => PermeabilityHasPermeability();
      case Lithology => LithologyLacksPermeability();
      case Temperature => TemperatureLacksPermeability();
      case HydraulicConductivity => HydraulicConductivityLacksPermeability();
      case ContaminantRisk => ContaminantRiskLacksPermeability();
    }
  }

  /** On a settled column (one the rename leaves alone), a detection word
      whose classifier rule would have renamed the column occurs exactly in
      that rule's canonical name. */
  lemma SettledColumnContains(c: string, w: string, k: string, t: Canonical)
    requires Settled(c)
    requires forall x :: Contains(Name(x), w) <==> x == t
    requires |k| > 0 && !IsSpace(k[0]) && !IsSpace(k[|k| - 1]) && Contains(w, k)
    requires forall key :: Contains(key, k) ==> Matches(RuleFor(t), Hits(key))
    ensures Contains(Lower(c), w) <==> c == Name(t)
  {
    if IsCanonicalName(c) {
      var x :| Name(x) == c;
      CanonicalIsLower(x);
      NameInjective(x, t);
    } else {
      LowerReachesKey(c, w, k);
      ClassifyIsFirstMatch(c);
    }
  }

  /** The same, lifted to a whole list of settled columns. */
  lemma AnySettledContains(cols: seq<string>, w: string, k: string, t: Canonical)
    requires forall i :: 0 <= i < |cols| ==> Settled(cols[i])
    requires forall x :: Contains(Name(x), w) <==> x == t
    requires |k| > 0 && !IsSpace(k[0]) && !IsSpace(k[|k| - 1]) && Contains(w, k)
    requires forall key :: Contains(key, k) ==> Matches(RuleFor(t), Hits(key))
    ensures AnyContains(cols, w) <==> Name(t) in cols
  {
    forall i | 0 <= i < |cols|
      ensures Contains(Lower(cols[i]), w) <==> cols[i] == Name(t)
    {
      SettledColumnContains(cols[i], w, k, t);
    }
  }

  lemma TemperatureOnSettled(cols: seq<string>)
    requires forall i :: 0 <= i < |cols| ==> Settled(cols[i])
    ensures AnyContains(cols, "temperature") <==> "temperature" in cols
  {
    TemperatureInNames();
    TemperatureHasTemp();
    AnySettledContains(cols, "temperature", "temp", Temperature);
  }

  lemma ContaminantOnSettled(cols: seq<string>)
    requires forall i :: 0 <= i < |cols| ==> Settled(cols[i])
    ensures AnyContains(cols, "contaminant") <==> "contaminant_risk" in cols
  {
    ContaminantInNames();
    ContainsSelf("contaminant");
    AnySettledContains(cols, "contaminant", "contaminant", ContaminantRisk);
  }

  lemma RiskOnSettled(cols: seq<string>)
    requires forall i :: 0 <= i < |cols| ==> Settled(cols[i])
    ensures AnyContains(cols, "risk") <==> "contaminant_risk" in cols
  {
    RiskInNames();
    ContainsSelf("risk");
    AnySettledContains(cols, "risk", "risk", ContaminantRisk);
  }

  lemma PorosityOnSettled(cols: seq<string>)
    requires forall i :: 0 <= i < |cols| ==> Settled(cols[i])
    ensures AnyContains(cols, "porosity") <==> "porosity" in cols
  {
    PorosityInNames();
    PorosityHasPoro();
    AnySettledContains(cols, "porosity", "poro", Porosity);
  }

  lemma PermeabilityOnSettled(cols: seq<string>)
    requires forall i :: 0 <= i < |cols| ==> Settled(cols[i])
    ensures AnyContains(cols, "permeability") <==> "permeability" in cols
  {
    PermeabilityInNames();
    PermeabilityHasPerm();
    AnySettledContains(cols, "permeability", "perm", Permeability);
  }

  /** What makes the groundwater test fire on renamed columns: the canonical
      `hydraulic_conductivity`, or a column no classifier rule renamed whose
      lower-cased name mentions `hydraulic` or `aquifer`. */
  predicate GroundwaterEvidence(cols: seq<string>) {
    || "hydraulic_conductivity" in cols
    || exists i | 0 <= i < |cols| :: WaterMention(cols[i])
  }

  /** A column no classifier rule renamed whose lower-cased name mentions
      `hydraulic` or `aquifer`. */
  predicate WaterMention(c: string) {
    Classify(c).None? && (Contains(Lower(c), "hydraulic") || Contains(Lower(c), "aquifer"))
  }

  lemma GroundwaterTestOnSettled(cols: seq<string>)
    requires forall i :: 0 <= i < |cols| ==> Settled(cols[i])
    ensures AnyContains(cols, "hydraulic") || AnyContains(cols, "aquifer") <==> GroundwaterEvidence(cols)
  {
    HydraulicInNames();
    AquiferInNames();
    forall i | 0 <= i < |cols|
      ensures Contains(Lower(cols[i]), "hydraulic") <==>
                cols[i] == "hydraulic_conductivity" || (Classify(cols[i]).None? && Contains(Lower(cols[i]), "hydraulic"))
      ensures Contains(Lower(cols[i]), "aquifer") ==> Classify(cols[i]).None?
    {
      if IsCanonicalName(cols[i]) {
        var x :| Name(x) == cols[i];
        CanonicalIsLower(x);
        CanonicalNameIsFixed(x);
        NameInjective(x, HydraulicConductivity);
      } else {
        assert cols[i] != Name(HydraulicConductivity);
      }
    }
    if "hydraulic_conductivity" in cols {
      var i :| 0 <= i < |cols| && cols[i] == "hydraulic_conductivity";
      HydraulicConductivityIsLower();
      HydraulicConductivityHasHydraulic();
      assert Contains(Lower(cols[i]), "hydraulic");
    }
  }

  /** After the rename, detection is decided by which canonical names are
      present: geothermal exactly when there is a `temperature` column,
      contamination when there is a `contaminant_risk` column but no
      `temperature`, then groundwater on `hydraulic_conductivity` or an
      unrenamed hydraulic/aquifer column, then hydrocarbon when both
      `porosity` and `permeability` are present. */
  lemma DetectOnSettled(cols: seq<string>)
    requires forall i :: 0 <= i < |cols| ==> Settled(cols[i])
    ensures Detect(cols) == Some(Geothermal) <==> "temperature" in cols
    ensures Detect(cols) == Some(Contamination) <==> "temperature" !in cols && "contaminant_risk" in cols
    ensures Detect(cols) == Some(Groundwater) <==>
              "temperature" !in cols && "contaminant_risk" !in cols && GroundwaterEvidence(cols)
    ensures Detect(cols) == Some(Hydrocarbon) <==>
              && "temperature" !in cols && "contaminant_risk" !in cols && !GroundwaterEvidence(cols)
              && "porosity" in cols && "permeability" in cols
  {
    TemperatureOnSettled(cols);
    ContaminantOnSettled(cols);
    RiskOnSettled(cols);
    PorosityOnSettled(cols);
    PermeabilityOnSettled(cols);
    GroundwaterTestOnSettled(cols);
  }

  /** The hydrocarbon test on renamed columns needs both canonical columns. */
  lemma HydrocarbonOnSettled(cols: seq<string>)
    requires forall i :: 0 <= i < |cols| ==> Settled(cols[i])
    ensures Detect(cols) == Some(Hydrocarbon) ==> "porosity" in cols && "permeability" in cols
  {
    PorosityOnSettled(cols);
    PermeabilityOnSettled(cols);
  }
}
