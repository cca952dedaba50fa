/**
 Concrete substring facts about the canonical column names and a few sample
 keys, one fact per lemma so that each stays a small proof.
 */
module WordFacts {
  import opened Text

  lemma DepthIsLower()
    ensures Lower("depth") == "depth"
  {
    LowerNormalises("depth");
  }

  lemma DepthIsStripped()
    ensures Strip("depth") == "depth"
  {
  }

  lemma PorosityIsLower()
    ensures Lower("porosity") == "porosity"
  {
    LowerNormalises("porosity");
  }

  lemma PorosityIsStripped()
    ensures Strip("porosity") == "porosity"
  {
  }

  lemma PermeabilityIsLower()
    ensures Lower("permeability") == "permeability"
  {
    LowerNormalises("permeability");
  }

  lemma PermeabilityIsStripped()
    ensures Strip("permeability") == "permeability"
  {
  }

  lemma LithologyIsLower()
    ensures Lower("lithology") == "lithology"
  {
    LowerNormalises("lithology");
  }

  lemma LithologyIsStripped()
    ensures Strip("lithology") == "lithology"
  {
  }

  lemma TemperatureIsLower()
    ensures Lower("temperature") == "temperature"
  {
    LowerNormalises("temperature");
  }

  lemma TemperatureIsStripped()
    ensures Strip("temperature") == "temperature"
  {
  }

  lemma HydraulicConductivityIsLower()
    ensures Lower("hydraulic_conductivity") == "hydraulic_conductivity"
  {
    LowerNormalises("hydraulic_conductivity");
  }

  lemma HydraulicConductivityIsStripped()
    ensures Strip("hydraulic_conductivity") == "hydraulic_conductivity"
  {
  }

  lemma ContaminantRiskIsLower()
    ensures Lower("contaminant_risk") == "contaminant_risk"
  {
    LowerNormalises("contaminant_risk");
  }

  lemma ContaminantRiskIsStripped()
    ensures Strip("contaminant_risk") == "contaminant_risk"
  {
  }

  lemma AquiferThicknessIsLower()
    ensures Lower("aquifer_thickness") == "aquifer_thickness"
  {
    LowerNormalises("aquifer_thickness");
  }

  lemma AquiferThicknessIsStripped()
    ensures Strip("aquifer_thickness") == "aquifer_thickness"
  {
  }

  lemma RawDepthFtIsStripped()
    ensures Strip("Depth_ft") == "Depth_ft"
  {
  }

  lemma RawDepthFtLowers()
    ensures Lower("Depth_ft") == "depth_ft"
  {
  }

  lemma RawTempFIsStripped()
    ensures Strip("Temp_F") == "Temp_F"
  {
  }

  lemma RawTempFLowers()
    ensures Lower("Temp_F") == "temp_f"
  {
  }

  lemma RawDepthIsStripped()
    ensures Strip("Depth") == "Depth"
  {
  }

  lemma RawDepthLowers()
    ensures Lower("Depth") == "depth"
  {
  }

  lemma RawPorosityIsStripped()
    ensures Strip("Porosity") == "Porosity"
  {
  }

  lemma RawPorosityLowers()
    ensures Lower("Porosity") == "porosity"
  {
  }

  lemma RawWellIdIsStripped()
    ensures Strip("Well_ID") == "Well_ID"
  {
  }

  lemma RawWellIdLowers()
    ensures Lower("Well_ID") == "well_id"
  {
  }

  lemma RawNotesIsStripped()
    ensures Strip("Notes") == "Notes"
  {
  }

  lemma RawNotesLowers()
    ensures Lower("Notes") == "notes"
  {
  }

  lemma RawAquiferThicknessIsStripped()
    ensures Strip("Aquifer_Thickness") == "Aquifer_Thickness"
  {
  }

  lemma RawAquiferThicknessLowers()
    ensures Lower("Aquifer_Thickness") == "aquifer_thickness"
  {
  }

  lemma DepthHasDepth()
    ensures Contains("depth", "depth")
  {
    ContainsAt("depth", "depth", 0);
  }

  lemma PorosityLacksDepth()
    ensures !Contains("porosity", "depth")
  {
    NotContainsChar("porosity", "depth", 0);
  }

  lemma PorosityHasPoro()
    ensures Contains("porosity", "poro")
  {
    ContainsAt("porosity", "poro", 0);
  }

  lemma PermeabilityLacksDepth()
    ensures !Contains("permeability", "depth")
  {
    NotContainsChar("permeability", "depth", 0);
  }

  lemma PermeabilityLacksPoro()
    ensures !Contains("permeability", "poro")
  {
    NotContainsChar("permeability", "poro", 1);
  }

  lemma PermeabilityHasPerm()
    ensures Contains("permeability", "perm")
  {
    ContainsAt("permeability", "perm", 0);
  }

  lemma LithologyLacksDepth()
    ensures !Contains("lithology", "depth")
  {
    NotContainsChar("lithology", "depth", 0);
  }

  lemma LithologyLacksPoro()
    ensures !Contains("lithology", "poro")
  {
    NotContainsChar("lithology", "poro", 0);
  }

  lemma LithologyLacksPerm()
    ensures !Contains("lithology", "perm")
  {
    NotContainsChar("lithology", "perm", 0);
  }

  lemma LithologyHasLith()
    ensures Contains("lithology", "lith")
  {
    ContainsAt("lithology", "lith", 0);
  }

  lemma TemperatureLacksDepth()
    ensures !Contains("temperature", "depth")
  {
    NotContainsChar("temperature", "depth", 0);
  }

  lemma TemperatureLacksPoro()
    ensures !Contains("temperature", "poro")
  {
    NotContainsChar("temperature", "poro", 1);
  }

  lemma TemperatureLacksPerm()
    ensures !Contains("temperature", "perm")
  {
    NotContainsWindow("temperature", "perm", 3);
  }

  lemma TemperatureLacksLith()
    ensures !Contains("temperature", "lith")
  {
    NotContainsChar("temperature", "lith", 0);
  }

  lemma TemperatureLacksRock()
    ensures !Contains("temperature", "rock")
  {
    NotContainsChar("temperature", "rock", 1);
  }

  lemma TemperatureHasTemp()
    ensures Contains("temperature", "temp")
  {
    ContainsAt("temperature", "temp", 0);
  }

  lemma HydraulicConductivityLacksDepth()
    ensures !Contains("hydraulic_conductivity", "depth")
  {
    NotContainsChar("hydraulic_conductivity", "depth", 1);
  }

  lemma HydraulicConductivityLacksPoro()
    ensures !Contains("hydraulic_conductivity", "poro")
  {
    NotContainsChar("hydraulic_conductivity", "poro", 0);
  }

  lemma HydraulicConductivityLacksPerm()
    ensures !Contains("hydraulic_conductivity", "perm")
  {
    NotContainsChar("hydraulic_conductivity", "perm", 0);
  }

  lemma HydraulicConductivityLacksLith()
    ensures !Contains("hydraulic_conductivity", "lith")
  {
    NotContainsWindow("hydraulic_conductivity", "lith", 3);
  }

  lemma HydraulicConductivityLacksRock()
    ensures !Contains("hydraulic_conductivity", "rock")
  {
    NotContainsChar("hydraulic_conductivity", "rock", 3);
  }

  lemma HydraulicConductivityLacksTemp()
    ensures !Contains("hydraulic_conductivity", "temp")
  {
    NotContainsChar("hydraulic_conductivity", "temp", 1);
  }

  lemma HydraulicConductivityHasHydraulic()
    ensures Contains("hydraulic_conductivity", "hydraulic")
  {
    ContainsAt("hydraulic_conductivity", "hydraulic", 0);
  }

  lemma HydraulicConductivityHasConductivity()
    ensures Contains("hydraulic_conductivity", "conductivity")
  {
    ContainsAt("hydraulic_conductivity", "conductivity", 10);
  }

  lemma ContaminantRiskLacksDepth()
    ensures !Contains("contaminant_risk", "depth")
  {
    NotContainsChar("contaminant_risk", "depth", 0);
  }

  lemma ContaminantRiskLacksPoro()
    ensures !Contains("contaminant_risk", "poro")
  {
    NotContainsChar("contaminant_risk", "poro", 0);
  }

  lemma ContaminantRiskLacksPerm()
    ensures !Contains("contaminant_risk", "perm")
  {
    NotContainsChar("contaminant_risk", "perm", 0);
  }

  lemma ContaminantRiskLacksLith()
    ensures !Contains("contaminant_risk", "lith")
  {
    NotContainsChar("contaminant_risk", "lith", 0);
  }

  lemma ContaminantRiskLacksRock()
    ensures !Contains("contaminant_risk", "rock")
  {
    NotContainsWindow("contaminant_risk", "rock", 2);
  }

  lemma ContaminantRiskLacksTemp()
    ensures !Contains("contaminant_risk", "temp")
  {
    NotContainsChar("contaminant_risk", "temp", 1);
  }

  lemma ContaminantRiskLacksHydraulic()
    ensures !Contains("contaminant_risk", "hydraulic")
  {
    NotContainsChar("contaminant_risk", "hydraulic", 0);
  }

  lemma ContaminantRiskHasContaminant()
    ensures Contains("contaminant_risk", "contaminant")
  {
    ContainsAt("contaminant_risk", "contaminant", 0);
  }

  lemma DepthPorosityHasDepth()
    ensures Contains("depth_porosity", "depth")
  {
    ContainsAt("depth_porosity", "depth", 0);
  }

  lemma HydraulicHeadLacksDepth()
    ensures !Contains("hydraulic_head", "depth")
  {
    NotContainsChar("hydraulic_head", "depth", 2);
  }

  lemma HydraulicHeadLacksPoro()
    ensures !Contains("hydraulic_head", "poro")
  {
    NotContainsChar("hydraulic_head", "poro", 0);
  }

  lemma HydraulicHeadLacksPerm()
    ensures !Contains("hydraulic_head", "perm")
  {
    NotContainsChar("hydraulic_head", "perm", 0);
  }

  lemma HydraulicHeadLacksLith()
    ensures !Contains("hydraulic_head", "lith")
  {
    NotContainsChar("hydraulic_head", "lith", 2);
  }

  lemma HydraulicHeadLacksRock()
    ensures !Contains("hydraulic_head", "rock")
  {
    NotContainsChar("hydraulic_head", "rock", 1);
  }

  lemma HydraulicHeadLacksTemp()
    ensures !Contains("hydraulic_head", "temp")
  {
    NotContainsChar("hydraulic_head", "temp", 0);
  }

  lemma HydraulicHeadHasHydraulic()
    ensures Contains("hydraulic_head", "hydraulic")
  {
    ContainsAt("hydraulic_head", "hydraulic", 0);
  }

  lemma HydraulicHeadLacksConductivity()
    ensures !Contains("hydraulic_head", "conductivity")
  {
    NotContainsChar("hydraulic_head", "conductivity", 1);
  }

  lemma HydraulicHeadLacksContaminant()
    ensures !Contains("hydraulic_head", "contaminant")
  {
    NotContainsChar("hydraulic_head", "contaminant", 1);
  }

  lemma HydraulicHeadLacksRisk()
    ensures !Contains("hydraulic_head", "risk")
  {
    NotContainsChar("hydraulic_head", "risk", 2);
  }

  lemma AquiferThicknessLacksDepth()
    ensures !Contains("aquifer_thickness", "depth")
  {
    NotContainsChar("aquifer_thickness", "depth", 0);
  }

  lemma AquiferThicknessLacksPoro()
    ensures !Contains("aquifer_thickness", "poro")
  {
    NotContainsChar("aquifer_thickness", "poro", 0);
  }

  lemma AquiferThicknessLacksPerm()
    ensures !Contains("aquifer_thickness", "perm")
  {
    NotContainsChar("aquifer_thickness", "perm", 0);
  }

  lemma AquiferThicknessLacksLith()
    ensures !Contains("aquifer_thickness", "lith")
  {
    NotContainsChar("aquifer_thickness", "lith", 0);
  }

  lemma AquiferThicknessLacksRock()
    ensures !Contains("aquifer_thickness", "rock")
  {
    NotContainsChar("aquifer_thickness", "rock", 1);
  }

  lemma AquiferThicknessLacksTemp()
    ensures !Contains("aquifer_thickness", "temp")
  {
    NotContainsChar("aquifer_thickness", "temp", 2);
  }

  lemma AquiferThicknessLacksHydraulic()
    ensures !Contains("aquifer_thickness", "hydraulic")
  {
    NotContainsChar("aquifer_thickness", "hydraulic", 1);
  }

  lemma AquiferThicknessLacksContaminant()
    ensures !Contains("aquifer_thickness", "contaminant")
  {
    NotContainsChar("aquifer_thickness", "contaminant", 1);
  }

  lemma AquiferThicknessLacksRisk()
    ensures !Contains("aquifer_thickness", "risk")
  {
    NotContainsChar("aquifer_thickness"[..10], "risk", 2);
    NotContainsChar("aquifer_thickness"[7..], "risk", 0);
    NotContainsSplit("aquifer_thickness", "risk", 7);
  }

  lemma DepthFtHasDepth()
    ensures Contains("depth_ft", "depth")
  {
    ContainsAt("depth_ft", "depth", 0);
  }

  lemma TempFLacksDepth()
    ensures !Contains("temp_f", "depth")
  {
    NotContainsChar("temp_f", "depth", 0);
  }

  lemma TempFLacksPoro()
    ensures !Contains("temp_f", "poro")
  {
    NotContainsChar("temp_f", "poro", 1);
  }

  lemma TempFLacksPerm()
    ensures !Contains("temp_f", "perm")
  {
    NotContainsChar("temp_f", "perm", 2);
  }

  lemma TempFLacksLith()
    ensures !Contains("temp_f", "lith")
  {
    NotContainsChar("temp_f", "lith", 0);
  }

  lemma TempFLacksRock()
    ensures !Contains("temp_f", "rock")
  {
    NotContainsChar("temp_f", "rock", 0);
  }

  lemma TempFHasTemp()
    ensures Contains("temp_f", "temp")
  {
    ContainsAt("temp_f", "temp", 0);
  }

  lemma WellIdLacksDepth()
    ensures !Contains("well_id", "depth")
  {
    NotContainsChar("well_id", "depth", 2);
  }

  lemma WellIdLacksPoro()
    ensures !Contains("well_id", "poro")
  {
    NotContainsChar("well_id", "poro", 0);
  }

  lemma WellIdLacksPerm()
    ensures !Contains("well_id", "perm")
  {
    NotContainsChar("well_id", "perm", 0);
  }

  lemma WellIdLacksLith()
    ensures !Contains("well_id", "lith")
  {
    NotContainsChar("well_id", "lith", 2);
  }

  lemma WellIdLacksRock()
    ensures !Contains("well_id", "rock")
  {
    NotContainsChar("well_id", "rock", 0);
  }

  lemma WellIdLacksTemp()
    ensures !Contains("well_id", "temp")
  {
    NotContainsChar("well_id", "temp", 0);
  }

  lemma WellIdLacksHydraulic()
    ensures !Contains("well_id", "hydraulic")
  {
    NotContainsChar("well_id", "hydraulic", 0);
  }

  lemma WellIdLacksContaminant()
    ensures !Contains("well_id", "contaminant")
  {
    NotContainsChar("well_id", "contaminant", 0);
  }

  lemma WellIdLacksRisk()
    ensures !Contains("well_id", "risk")
  {
    NotContainsChar("well_id", "risk", 0);
  }

  lemma NotesLacksDepth()
    ensures !Contains("notes", "depth")
  {
    NotContainsChar("notes", "depth", 0);
  }

  lemma NotesLacksPoro()
    ensures !Contains("notes", "poro")
  {
    NotContainsChar("notes", "poro", 0);
  }

  lemma NotesLacksPerm()
    ensures !Contains("notes", "perm")
  {
    NotContainsChar("notes", "perm", 0);
  }

  lemma NotesLacksLith()
    ensures !Contains("notes", "lith")
  {
    NotContainsChar("notes", "lith", 0);
  }

  lemma NotesLacksRock()
    ensures !Contains("notes", "rock")
  {
    NotContainsChar("notes", "rock", 0);
  }

  lemma NotesLacksTemp()
    ensures !Contains("notes", "temp")
  {
    NotContainsChar("notes", "temp", 2);
  }

  lemma NotesLacksHydraulic()
    ensures !Contains("notes", "hydraulic")
  {
    NotContainsChar("notes", "hydraulic", 0);
  }

  lemma NotesLacksContaminant()
    ensures !Contains("notes", "contaminant")
  {
    NotContainsChar("notes", "contaminant", 0);
  }

  lemma NotesLacksRisk()
    ensures !Contains("notes", "risk")
  {
    NotContainsChar("notes", "risk", 0);
  }

  lemma DepthLacksTemperature()
    ensures !Contains("depth", "temperature")
  {
    NotContainsChar("depth", "temperature", 2);
  }

  lemma PorosityLacksTemperature()
    ensures !Contains("porosity", "temperature")
  {
    NotContainsChar("porosity", "temperature", 1);
  }

  lemma PermeabilityLacksTemperature()
    ensures !Contains("permeability", "temperature")
  {
    NotContainsChar("permeability", "temperature", 8);
  }

  lemma LithologyLacksTemperature()
    ensures !Contains("lithology", "temperature")
  {
    NotContainsChar("lithology", "temperature", 1);
  }

  lemma TemperatureHasTemperature()
    ensures Contains("temperature", "temperature")
  {
    ContainsAt("temperature", "temperature", 0);
  }

  lemma HydraulicConductivityLacksTemperature()
    ensures !Contains("hydraulic_conductivity", "temperature")
  {
    NotContainsChar("hydraulic_conductivity", "temperature", 1);
  }

  lemma ContaminantRiskLacksTemperature()
    ensures !Contains("contaminant_risk", "temperature")
  {
    NotContainsChar("contaminant_risk", "temperature", 1);
  }

  lemma DepthLacksContaminant()
    ensures !Contains("depth", "contaminant")
  {
    NotContainsChar("depth", "contaminant", 0);
  }

  lemma PorosityLacksContaminant()
    ensures !Contains("porosity", "contaminant")
  {
    NotContainsChar("porosity", "contaminant", 0);
  }

  lemma PermeabilityLacksContaminant()
    ensures !Contains("permeability", "contaminant")
  {
    NotContainsChar("permeability", "contaminant", 0);
  }

  lemma LithologyLacksContaminant()
    ensures !Contains("lithology", "contaminant")
  {
    NotContainsChar("lithology", "contaminant", 0);
  }

  lemma TemperatureLacksContaminant()
    ensures !Contains("temperature", "contaminant")
  {
    NotContainsChar("temperature", "contaminant", 0);
  }

  lemma HydraulicConductivityLacksContaminant()
    ensures !Contains("hydraulic_conductivity", "contaminant")
  {
    NotContainsChar("hydraulic_conductivity", "contaminant", 5);
  }

  lemma DepthLacksRisk()
    ensures !Contains("depth", "risk")
  {
    NotContainsChar("depth", "risk", 0);
  }

  lemma PorosityLacksRisk()
    ensures !Contains("porosity", "risk")
  {
    NotContainsChar("porosity", "risk", 3);
  }

  lemma PermeabilityLacksRisk()
    ensures !Contains("permeability", "risk")
  {
    NotContainsChar("permeability", "risk", 2);
  }

  lemma LithologyLacksRisk()
    ensures !Contains("lithology", "risk")
  {
    NotContainsChar("lithology", "risk", 0);
  }

  lemma TemperatureLacksRisk()
    ensures !Contains("temperature", "risk")
  {
    NotContainsChar("temperature", "risk", 1);
  }

  lemma HydraulicConductivityLacksRisk()
    ensures !Contains("hydraulic_conductivity", "risk")
  {
    NotContainsChar("hydraulic_conductivity", "risk", 2);
  }

  lemma ContaminantRiskHasRisk()
    ensures Contains("contaminant_risk", "risk")
  {
    ContainsAt("contaminant_risk", "risk", 12);
  }

  lemma DepthLacksHydraulic()
    ensures !Contains("depth", "hydraulic")
  {
    NotContainsChar("depth", "hydraulic", 1);
  }

  lemma PorosityLacksHydraulic()
    ensures !Contains("porosity", "hydraulic")
  {
    NotContainsChar("porosity", "hydraulic", 0);
  }

  lemma PermeabilityLacksHydraulic()
    ensures !Contains("permeability", "hydraulic")
  {
    NotContainsChar("permeability", "hydraulic", 0);
  }

  lemma LithologyLacksHydraulic()
    ensures !Contains("lithology", "hydraulic")
  {
    NotContainsChar("lithology", "hydraulic", 2);
  }

  lemma TemperatureLacksHydraulic()
    ensures !Contains("temperature", "hydraulic")
  {
    NotContainsChar("temperature", "hydraulic", 0);
  }

  lemma DepthLacksAquifer()
    ensures !Contains("depth", "aquifer")
  {
    NotContainsChar("depth", "aquifer", 0);
  }

  lemma PorosityLacksAquifer()
    ensures !Contains("porosity", "aquifer")
  {
    NotContainsChar("porosity", "aquifer", 0);
  }

  lemma PermeabilityLacksAquifer()
    ensures !Contains("permeability", "aquifer")
  {
    NotContainsChar("permeability", "aquifer", 1);
  }

  lemma LithologyLacksAquifer()
    ensures !Contains("lithology", "aquifer")
  {
    NotContainsChar("lithology", "aquifer", 0);
  }

  lemma TemperatureLacksAquifer()
    ensures !Contains("temperature", "aquifer")
  {
    NotContainsChar("temperature", "aquifer", 1);
  }

  lemma HydraulicConductivityLacksAquifer()
    ensures !Contains("hydraulic_conductivity", "aquifer")
  {
    NotContainsChar("hydraulic_conductivity", "aquifer", 1);
  }

  lemma ContaminantRiskLacksAquifer()
    ensures !Contains("contaminant_risk", "aquifer")
  {
    NotContainsChar("contaminant_risk", "aquifer", 1);
  }

  lemma DepthLacksPorosity()
    ensures !Contains("depth", "porosity")
  {
    NotContainsChar("depth", "porosity", 1);
  }

  lemma PorosityHasPorosity()
    ensures Contains("porosity", "porosity")
  {
    ContainsAt("porosity", "porosity", 0);
  }

  lemma PermeabilityLacksPorosity()
    ensures !Contains("permeability", "porosity")
  {
    NotContainsChar("permeability", "porosity", 1);
  }

  lemma LithologyLacksPorosity()
    ensures !Contains("lithology", "porosity")
  {
    NotContainsChar("lithology", "porosity", 0);
  }

  lemma TemperatureLacksPorosity()
    ensures !Contains("temperature", "porosity")
  {
    NotContainsChar("temperature", "porosity", 1);
  }

  lemma HydraulicConductivityLacksPorosity()
    ensures !Contains("hydraulic_conductivity", "porosity")
  {
    NotContainsChar("hydraulic_conductivity", "porosity", 0);
  }

  lemma ContaminantRiskLacksPorosity()
    ensures !Contains("contaminant_risk", "porosity")
  {
    NotContainsChar("contaminant_risk", "porosity", 0);
  }

  lemma DepthLacksPermeability()
    ensures !Contains("depth", "permeability")
  {
    NotContainsChar("depth", "permeability", 2);
  }

  lemma PorosityLacksPermeability()
    ensures !Contains("porosity", "permeability")
  {
    NotContainsChar("porosity", "permeability", 1);
  }

  lemma PermeabilityHasPermeability()
    ensures Contains("permeability", "permeability")
  {
    ContainsAt("permeability", "permeability", 0);
  }

  lemma LithologyLacksPermeability()
    ensures !Contains("lithology", "permeability")
  {
    NotContainsChar("lithology", "permeability", 0);
  }

  lemma TemperatureLacksPermeability()
    ensures !Contains("temperature", "permeability")
  {
    NotContainsChar("temperature", "permeability", 6);
  }

  lemma HydraulicConductivityLacksPermeability()
    ensures !Contains("hydraulic_conductivity", "permeability")
  {
    NotContainsChar("hydraulic_conductivity", "permeability", 0);
  }

  lemma ContaminantRiskLacksPermeability()
    ensures !Contains("contaminant_risk", "permeability")
  {
    NotContainsChar("contaminant_risk", "permeability", 0);
  }

  lemma AquiferThicknessHasAquifer()
    ensures Contains("aquifer_thickness", "aquifer")
  {
    ContainsAt("aquifer_thickness", "aquifer", 0);
  }

  lemma WellIdLacksAquifer()
    ensures !Contains("well_id", "aquifer")
  {
    NotContainsChar("well_id", "aquifer", 0);
  }

  lemma NotesLacksAquifer()
    ensures !Contains("notes", "aquifer")
  {
    NotContainsChar("notes", "aquifer", 0);
  }

}
