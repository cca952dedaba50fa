/**
 The column classifier of `load_well_data`: every column name is stripped and
 lower-cased, then matched against a fixed, ordered chain of substring rules;
 the first rule that matches gives the column its canonical name, and a name
 no rule matches keeps its original spelling.
 */
module Classifier {
  import opened Text
  import opened Results
  import opened WordFacts

  /** The seven canonical fields the loader normalises towards. */
  datatype Canonical =
    | Depth
    | Porosity
    | Permeability
    | Lithology
    | Temperature
    | HydraulicConductivity
    | ContaminantRisk

  /** The column name a canonical field is renamed to. */
  function Name(c: Canonical): string {
    match c
    case Depth => "depth"
    case Porosity => "porosity"
    case Permeability => "permeability"
    case Lithology => "lithology"
    case Temperature => "temperature"
    case HydraulicConductivity => "hydraulic_conductivity"
    case ContaminantRisk => "contaminant_risk"
  }

  predicate IsCanonicalName(n: string) {
    exists c :: Name(c) == n
  }

  /** The text the rules are matched against: `col.strip().lower()`. */
  function Key(name: string): string {
    Lower(Strip(name))
  }

  // ---------------------------------------------------------------------------
  // The rules as a table: a reference definition of "first matching rule wins".
  // ---------------------------------------------------------------------------

  /** The only thing the rules look at: which words a key contains. */
  function Hits(key: string): string -> bool {
    w => Contains(key, w)
  }

  /** The test a rule applies to a key. */
  datatype Pattern =
    | Has(word: string)
    | HasEither(left: string, right: string)
    | HasBoth(left: string, right: string)

  predicate Matches(p: Pattern, has: string -> bool) {
    match p
    case Has(w) => has(w)
    case HasEither(a, b) => has(a) || has(b)
    case HasBoth(a, b) => has(a) && has(b)
  }

  /** The rule that assigns each canonical field. */
  function RuleFor(c: Canonical): Pattern {
    match c
    case Depth => Has("depth")
    case Porosity => Has("poro")
    case Permeability => Has("perm")
    case Lithology => HasEither("lith", "rock")
    case Temperature => Has("temp")
    case HydraulicConductivity => HasBoth("hydraulic", "conductivity")
    case ContaminantRisk => HasEither("contaminant", "risk")
  }

  /** The position of each rule in the chain; lower is tried first. */
  function Priority(c: Canonical): nat {
    match c
    case Depth => 0
    case Porosity => 1
    case Permeability => 2
    case Lithology => 3
    case Temperature => 4
    case HydraulicConductivity => 5
    case ContaminantRisk => 6
  }

  /** `c`'s rule matches and no rule tried before it does. */
  predicate FirstMatch(has: string -> bool, c: Canonical) {
    && Matches(RuleFor(c), has)
    && forall d :: Priority(d) < Priority(c) ==> !Matches(RuleFor(d), has)
  }

  // ---------------------------------------------------------------------------
  // The classifier itself, as the source's if/elif chain.
  // ---------------------------------------------------------------------------

  /** The if/elif chain, given which words the key contains. */
  function Chain(has: string -> bool): Option<Canonical> {
    if has("depth") then Some(Depth)
    else if has("poro") then Some(Porosity)
    else if has("perm") then Some(Permeability)
    else if has("lith") || has("rock") then Some(Lithology)
    else if has("temp") then Some(Temperature)
    else if has("hydraulic") && has("conductivity") then Some(HydraulicConductivity)
    else if has("contaminant") || has("risk") then Some(ContaminantRisk)
    else None
  }

  /** The canonical field a column is mapped to, or `None` when the column is
      left out of the rename map. */
  function Classify(name: string): Option<Canonical> {
    Chain(Hits(Key(name)))
  }

  /** Evaluates `Classify` on a concrete name through its key. */
  lemma ClassifyVia(name: string, k: string, r: Option<Canonical>)
    requires Key(name) == k
    requires Chain(Hits(k)) == r
    ensures Classify(name) == r
  {
  }

  /** The if/elif chain agrees with the rule table: it yields the field of the
      first rule, in the fixed order, that matches, and nothing exactly when no
      rule matches. */
  lemma ChainIsFirstMatch(has: string -> bool)
    ensures forall c :: Chain(has) == Some(c) <==> FirstMatch(has, c)
    ensures Chain(has).None? <==> forall c :: !Matches(RuleFor(c), has)
  {
    var r := Chain(has);
    if r.Some? {
      forall d | Priority(d) < Priority(r.value) ensures !Matches(RuleFor(d), has) {
        match d
        case Depth =>
        case Porosity =>
        case Permeability =>
        case Lithology =>
        case Temperature =>
        case HydraulicConductivity =>
        case ContaminantRisk =>
      }
      forall c | FirstMatch(has, c) ensures c == r.value {
        FirstMatchIsUnique(has, c, r.value);
      }
    } else {
      forall c ensures !Matches(RuleFor(c), has) {
        match c
        case Depth =>
        case Porosity =>
        case Permeability =>
        case Lithology =>
        case Temperature =>
        case HydraulicConductivity =>
        case ContaminantRisk =>
      }
    }
  }

  /** Rules have distinct priorities, so at most one is the first to match. */
  lemma FirstMatchIsUnique(has: string -> bool, c: Canonical, d: Canonical)
    requires FirstMatch(has, c) && FirstMatch(has, d)
    ensures c == d
  {
    assert Priority(c) == Priority(d);
    match c
    case Depth =>
    case Porosity =>
    case Permeability =>
    case Lithology =>
    case Temperature =>
    case HydraulicConductivity =>
    case ContaminantRisk =>
  }

  /** The classifier gives a column the field of the first rule, in the fixed
      order, that matches its stripped, lower-cased name, and leaves it
      unmapped exactly when no rule matches. */
  lemma ClassifyIsFirstMatch(name: string)
    ensures forall c :: Classify(name) == Some(c) <==> FirstMatch(Hits(Key(name)), c)
    ensures Classify(name).None? <==> forall c :: !Matches(RuleFor(c), Hits(Key(name)))
  {
    ChainIsFirstMatch(Hits(Key(name)));
  }

  /** A column whose key contains `depth` becomes `depth`, whatever else its
      name contains. */
  lemma DepthWins(name: string)
    requires Contains(Key(name), "depth")
    ensures Classify(name) == Some(Depth)
  {
    ClassifyIsFirstMatch(name);
  }

  /** `hydraulic_conductivity` needs both words; `hydraulic` alone never
      yields it, and with no other rule matching the column stays unmapped. */
  lemma HydraulicConductivityNeedsBoth(name: string)
    ensures Classify(name) == Some(HydraulicConductivity) ==>
              Contains(Key(name), "hydraulic") && Contains(Key(name), "conductivity")
    ensures !Contains(Key(name), "conductivity") ==> Classify(name) != Some(HydraulicConductivity)
    ensures ((forall c :: c != HydraulicConductivity ==> !Matches(RuleFor(c), Hits(Key(name))))
             && !Contains(Key(name), "conductivity"))
            ==> Classify(name) == None
  {
    ClassifyIsFirstMatch(name);
  }

  /** Each canonical name is classified as its own field. */
  lemma CanonicalNameIsFixed(c: Canonical)
    ensures Classify(Name(c)) == Some(c)
  {
    CanonicalKeyIsName(c);
    match c
    case Depth => DepthNameChain();
    case Porosity => PorosityNameChain();
    case Permeability => PermeabilityNameChain();
    case Lithology => LithologyNameChain();
    case Temperature => TemperatureNameChain();
    case HydraulicConductivity => HydraulicConductivityNameChain();
    case ContaminantRisk => ContaminantRiskNameChain();
  }

  /** Canonical names are already stripped and lower-case. */
  lemma CanonicalKeyIsName(c: Canonical)
    ensures Key(Name(c)) == Name(c)
  {
    CanonicalIsLower(c);
    match c
    case Depth => DepthIsStripped();
    case Porosity => PorosityIsStripped();
    case Permeability => PermeabilityIsStripped();
    case Lithology => LithologyIsStripped();
    case Temperature => TemperatureIsStripped();
    case HydraulicConductivity => HydraulicConductivityIsStripped();
    case ContaminantRisk => ContaminantRiskIsStripped();
  }

  /** Canonical names contain no upper-case letter. */
  lemma CanonicalIsLower(c: Canonical)
    ensures Lower(Name(c)) == Name(c)
  {
    match c
    case Depth => DepthIsLower();
    case Porosity => PorosityIsLower();
    case Permeability => PermeabilityIsLower();
    case Lithology => LithologyIsLower();
    case Temperature => TemperatureIsLower();
    case HydraulicConductivity => HydraulicConductivityIsLower();
    case ContaminantRisk => ContaminantRiskIsLower();
  }

  /** Distinct fields are renamed to distinct names. */
  lemma NameInjective(c: Canonical, d: Canonical)
    ensures Name(c) == Name(d) ==> c == d
  {
    assert |Name(c)| == |Name(d)| ==> c == d;
  }

  /** The classifier ignores letter case: `col` and `col.lower()` get the
      same canonical name, or both none. */
  lemma ClassifyIgnoresCase(name: string)
    ensures Classify(Lower(name)) == Classify(name)
  {
    StripLowerCommute(name);
    LowerNormalises(Strip(name));
  }

  /** A word found in `col.lower()` is found in the rule key
      `col.strip().lower()` too, and so is every part of it that neither
      starts nor ends with whitespace. */
  lemma LowerReachesKey(name: string, w: string, k: string)
    requires |k| > 0 && !IsSpace(k[0]) && !IsSpace(k[|k| - 1])
    requires Contains(w, k)
    ensures Contains(Lower(name), w) ==> Contains(Key(name), k)
  {
    StripLowerCommute(name);
    if Contains(Lower(name), w) {
      ContainsTransitive(Lower(name), w, k);
      ContainsSurvivesStrip(Lower(name), k);
    }
  }

  // The rule chain evaluated on each canonical name.

  lemma DepthNameChain()
    ensures Chain(Hits("depth")) == Some(Depth)
  {
    DepthHasDepth();
  }

  lemma PorosityNameChain()
    ensures Chain(Hits("porosity")) == Some(Porosity)
  {
    PorosityLacksDepth();
    PorosityHasPoro();
  }

  lemma PermeabilityNameChain()
    ensures Chain(Hits("permeability")) == Some(Permeability)
  {
    PermeabilityLacksDepth();
    PermeabilityLacksPoro();
    PermeabilityHasPerm();
  }

  lemma LithologyNameChain()
    ensures Chain(Hits("lithology")) == Some(Lithology)
  {
    LithologyLacksDepth();
    LithologyLacksPoro();
    LithologyLacksPerm();
    LithologyHasLith();
  }

  lemma TemperatureNameChain()
    ensures Chain(Hits("temperature")) == Some(Temperature)
  {
    TemperatureLacksDepth();
    TemperatureLacksPoro();
    TemperatureLacksPerm();
    TemperatureLacksLith();
    TemperatureLacksRock();
    TemperatureHasTemp();
  }

  lemma HydraulicConductivityNameChain()
    ensures Chain(Hits("hydraulic_conductivity")) == Some(HydraulicConductivity)
  {
    HydraulicConductivityLacksDepth();
    HydraulicConductivityLacksPoro();
    HydraulicConductivityLacksPerm();
    HydraulicConductivityLacksLith();
    HydraulicConductivityLacksRock();
    HydraulicConductivityLacksTemp();
    HydraulicConductivityHasHydraulic();
    HydraulicConductivityHasConductivity();
  }

  lemma ContaminantRiskNameChain()
    ensures Chain(Hits("contaminant_risk")) == Some(ContaminantRisk)
  {
    ContaminantRiskLacksDepth();
    ContaminantRiskLacksPoro();
    ContaminantRiskLacksPerm();
    ContaminantRiskLacksLith();
    ContaminantRiskLacksRock();
    ContaminantRiskLacksTemp();
    ContaminantRiskLacksHydraulic();
    ContaminantRiskHasContaminant();
  }

  /** Example: `depth_porosity` matches both the `depth` and the `poro` rule,
      and takes the earlier one. */
  lemma EarliestRuleWins()
    ensures Matches(RuleFor(Depth), Hits("depth_porosity"))
    ensures Matches(RuleFor(Porosity), Hits("depth_porosity"))
    ensures Chain(Hits("depth_porosity")) == Some(Depth)
  {
    DepthPorosityHasDepth();
    ContainsAt("depth_porosity", "poro", 6);
  }

  /** Example: `hydraulic` without `conductivity` matches no rule. */
  lemma HydraulicAloneIsUnmapped()
    ensures Chain(Hits("hydraulic_head")) == None
  {
    HydraulicHeadLacksDepth();
    HydraulicHeadLacksPoro();
    HydraulicHeadLacksPerm();
    HydraulicHeadLacksLith();
    HydraulicHeadLacksRock();
    HydraulicHeadLacksTemp();
    HydraulicHeadHasHydraulic();
    HydraulicHeadLacksConductivity();
    HydraulicHeadLacksContaminant();
    HydraulicHeadLacksRisk();
  }

  /** Example: no rule mentions `aquifer`, so `aquifer_thickness` matches
      nothing and the rename keeps it. */
  lemma AquiferIsUnmapped()
    ensures Chain(Hits("aquifer_thickness")) == None
    ensures RenameColumn("aquifer_thickness") == "aquifer_thickness"
  {
    AquiferKeyIsUnmapped();
    AquiferThicknessIsStripped();
    AquiferThicknessIsLower();
    ClassifyVia("aquifer_thickness", "aquifer_thickness", None);
  }

  lemma AquiferKeyIsUnmapped()
    ensures Chain(Hits("aquifer_thickness")) == None
  {
    AquiferThicknessLacksDepth();
    AquiferThicknessLacksPoro();
    AquiferThicknessLacksPerm();
    AquiferThicknessLacksLith();
    AquiferThicknessLacksRock();
    AquiferThicknessLacksTemp();
    AquiferThicknessLacksHydraulic();
    AquiferThicknessLacksContaminant();
    AquiferThicknessLacksRisk();
  }

  // ---------------------------------------------------------------------------
  // The rename.
  // ---------------------------------------------------------------------------

  /** A name the rename leaves where it is: a canonical name, or a name no
      rule matches. */
  predicate Settled(n: string) {
    IsCanonicalName(n) || Classify(n).None?
  }

  /** The name one column carries after `df.rename(columns=col_map)`. */
  function RenameColumn(name: string): (r: string)
    ensures Settled(r)
    ensures r == name || IsCanonicalName(r)
    ensures IsCanonicalName(r) <==> Classify(name).Some?
  {
    match Classify(name)
    case Some(c) =>
      CanonicalNameIsFixed(c);
      Name(c)
    case None =>
      UnmappedIsNotCanonical(name);
      name
  }

  /** The column list after the rename: same length, each column either its
      first matching rule's canonical name or, when no rule matches, its
      original name unchanged. */
  function Rename(cols: seq<string>): (r: seq<string>)
    ensures |r| == |cols|
    ensures forall i :: 0 <= i < |cols| ==> Settled(r[i])
    ensures forall i :: 0 <= i < |cols| ==>
              if Classify(cols[i]).Some? then r[i] == Name(Classify(cols[i]).value) else r[i] == cols[i]
  {
    seq(|cols|, i requires 0 <= i < |cols| => RenameColumn(cols[i]))
  }

  /** Renaming an already renamed column list changes nothing. */
  lemma RenameIdempotent(cols: seq<string>)
    ensures Rename(Rename(cols)) == Rename(cols)
  {
    var r := Rename(cols);
    forall i | 0 <= i < |r| ensures RenameColumn(r[i]) == r[i] {
      SettledIsFixed(r[i]);
    }
  }

  /** A name no rule matches is not one of the canonical names. */
  lemma UnmappedIsNotCanonical(n: string)
    requires Classify(n).None?
    ensures !IsCanonicalName(n)
  {
    if IsCanonicalName(n) {
      var c :| Name(c) == n;
      CanonicalNameIsFixed(c);
    }
  }

  /** Renaming fixes exactly the settled names. */
  lemma SettledIsFixed(n: string)
    ensures RenameColumn(n) == n <==> Settled(n)
  {
    if IsCanonicalName(n) {
      var c :| Name(c) == n;
      CanonicalNameIsFixed(c);
    }
  }
}
