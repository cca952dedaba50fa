# Well-data loader: a Dafny model

This project models the well-data loader of the Tyon geoscience toolkit
(`Tyon_geoscience_AI/utils/data_loader.py`). It covers two functions and
proves properties about them:

- `detect_application` guesses the analysis type from column names: geothermal, contamination, groundwater, hydrocarbon or unknown.
- `load_well_data` works on a table read from CSV:
  - it renames each column to a canonical field name (`depth`, `porosity`, `permeability`, `lithology`, `temperature`, `hydraulic_conductivity`, `contaminant_risk`) with an if/elif chain of substring tests;
  - it adds a `lithology` column holding `"sandstone"` when there is none;
  - it converts depth, permeability and temperature from imperial to SI units when asked;
  - it settles the application, either as given or by detection;
  - it checks that application's required columns;
  - it returns one record per row.

The modules follow the program's own structure:

- `Text`: Python's `str.strip()`, `str.lower()` and the substring test `in`.
- `Classifier`: the column-name rules, written two ways:
  - as the if/elif chain of the source (`Chain`);
  - as a rule table with priorities (`RuleFor`, `Priority`, `FirstMatch`).

  It also holds the rename of a column list.
- `Detector`: `detect_application`, again as the if-chain (`Decide`) and as a ranked rule table (`Rule`, `Rank`, `FirstRule`). It also says what detection means on renamed columns.
- `Frames`: a table as column names plus positional rows, `df[name] = v` for a new column, and `to_dict('records')`.
- `Units`: the three unit conversions and the imperial conversion step.
- `Loader`: the whole `load_well_data` pipeline after the CSV is read, with every raised error as a `Failure`.
- `Scenarios`: the loader's result on four small concrete tables.
- `WordFacts`: concrete substring facts about fixed names, one per lemma. It is a helper module.
- `Results`: the `Option` and `Result` types.

Two consequences of the code are easy to miss:

- **The `aquifer` test in detection is reachable.** Detection runs after the rename. A column no rule matches, such as `Aquifer_Thickness`, keeps its original name, so the test still sees the word `aquifer`. `Scenarios.AquiferGroundwaterScenario` shows such a table detected as groundwater.
- **The error for an unknown application includes `lithology`.** The error lists the columns at the moment of failure, and by then the default `lithology` column has been added. For a `[Well_ID, Notes]` table the list is `[Well_ID, Notes, lithology]` (`Scenarios.UnrecognisedScenario`).

## Model

| member | source | states |
|---|---|---|
| Text.StripLowerCommute | Tyon_geoscience_AI/utils/data_loader.py:27 | `col.strip().lower()` equals `col.lower().strip()`: stripping and lowering commute. |
| Text.ContainsSurvivesStrip | Tyon_geoscience_AI/utils/data_loader.py:27 | A word with no whitespace at either end that occurs in a name also occurs in the stripped name. |
| Classifier.ChainIsFirstMatch | Tyon_geoscience_AI/utils/data_loader.py:28-41 | The if/elif chain agrees with the rule table in both directions. It gives field `c` exactly when `c`'s rule matches and no earlier rule does. It gives nothing exactly when no rule matches. |
| Classifier.FirstMatchIsUnique | Tyon_geoscience_AI/utils/data_loader.py:28-41 | At most one field is the first rule to match a key. |
| Classifier.ClassifyIsFirstMatch | Tyon_geoscience_AI/utils/data_loader.py:26-41 | A column is mapped to the field of the first rule its stripped, lower-cased name matches. It is left out of the rename map exactly when no rule matches. |
| Classifier.DepthWins | Tyon_geoscience_AI/utils/data_loader.py:28-29 | Any name whose key contains `depth` becomes `depth`, whatever else it contains. |
| Classifier.HydraulicConductivityNeedsBoth | Tyon_geoscience_AI/utils/data_loader.py:38-39 | `hydraulic_conductivity` needs both `hydraulic` and `conductivity` in the key. A key with only `hydraulic` and no other matching rule stays unmapped. |
| Classifier.CanonicalNameIsFixed | Tyon_geoscience_AI/utils/data_loader.py:28-41 | Each canonical name is classified as its own field. |
| Classifier.NameInjective | Tyon_geoscience_AI/utils/data_loader.py:28-41 | Distinct fields get distinct canonical names. |
| Classifier.ClassifyIgnoresCase | Tyon_geoscience_AI/utils/data_loader.py:27 | A name and its lower-cased form classify alike. |
| Classifier.EarliestRuleWins | Tyon_geoscience_AI/utils/data_loader.py:28-31 | `depth_porosity` matches both the `depth` and the `poro` rule, and the chain gives `depth`, the earlier one. |
| Classifier.HydraulicAloneIsUnmapped | Tyon_geoscience_AI/utils/data_loader.py:38-41 | `hydraulic_head` matches no rule. |
| Classifier.AquiferIsUnmapped | Tyon_geoscience_AI/utils/data_loader.py:28-41 | `aquifer_thickness` matches no rule, so the rename keeps it. |
| Classifier.RenameColumn | Tyon_geoscience_AI/utils/data_loader.py:43 | A renamed column is either its old name or a canonical name. It is canonical exactly when a rule matched. The result is settled: renaming it again does nothing. |
| Classifier.Rename | Tyon_geoscience_AI/utils/data_loader.py:43 | The rename keeps the number and order of columns. Each column becomes its field's name when a rule matches, and keeps its own name otherwise. |
| Classifier.RenameIdempotent | Tyon_geoscience_AI/utils/data_loader.py:43 | Renaming a renamed column list changes nothing. |
| Classifier.SettledIsFixed | Tyon_geoscience_AI/utils/data_loader.py:43 | The rename leaves a name unchanged exactly when it is canonical or matches no rule. |
| Detector.DecideReadsWords | Tyon_geoscience_AI/utils/data_loader.py:7-14 | Detection depends only on which of the seven words some column contains. |
| Detector.DecideIsFirstRule | Tyon_geoscience_AI/utils/data_loader.py:7-15 | The if-chain agrees with the ranked rule table in both directions. It returns application `a` exactly when `a`'s test holds and no earlier test does. It returns `unknown` exactly when no test holds. |
| Detector.DetectIsFirstRule | Tyon_geoscience_AI/utils/data_loader.py:4-15 | The same statement for `detect_application` on a column list. |
| Detector.DetectIgnoresOrder | Tyon_geoscience_AI/utils/data_loader.py:6-15 | Two column lists with the same members are detected alike, whatever their order or repetitions. |
| Detector.DetectIgnoresNeutral | Tyon_geoscience_AI/utils/data_loader.py:6-15 | Adding a column that mentions none of the seven words does not change detection. |
| Detector.LithologyIsNeutral | Tyon_geoscience_AI/utils/data_loader.py:46-47 | The `lithology` column the loader may add mentions none of the seven words. |
| Detector.GroundwaterTestOnSettled | Tyon_geoscience_AI/utils/data_loader.py:11-12 | On renamed columns, the groundwater test fires exactly when there is a `hydraulic_conductivity` column or an unrenamed column mentioning `hydraulic` or `aquifer`. |
| Detector.DetectOnSettled | Tyon_geoscience_AI/utils/data_loader.py:7-15 | On renamed columns detection is decided by the canonical names present, one iff per application. Geothermal needs `temperature`. Contamination needs `contaminant_risk` without `temperature`. Groundwater follows the groundwater test above. Hydrocarbon needs `porosity` and `permeability` and none of the others. |
| Detector.HydrocarbonOnSettled | Tyon_geoscience_AI/utils/data_loader.py:13-14 | A hydrocarbon detection on renamed columns implies both `porosity` and `permeability` columns. |
| Frames.Record | Tyon_geoscience_AI/utils/data_loader.py:78 | A record's keys are exactly the column names. |
| Frames.RecordLastWins | Tyon_geoscience_AI/utils/data_loader.py:78 | When names repeat, the record keeps the cell of the last column with that name. |
| Frames.RecordsAreRows | Tyon_geoscience_AI/utils/data_loader.py:78 | There is one record per row, in row order. Each record's keys are the columns. Each name maps to its row's cell under the last column of that name. |
| Frames.RecordKeepsRow | Tyon_geoscience_AI/utils/data_loader.py:78 | With distinct column names, reading the columns back out of a record gives the row again. |
| Frames.AddIfAbsentRecords | Tyon_geoscience_AI/utils/data_loader.py:46-47 | After the default, every record has `lithology`. A missing column is added as `"sandstone"` with nothing else changed. An existing one is left alone. |
| Units.ConversionsInvert | Tyon_geoscience_AI/utils/data_loader.py:52-56 | Each unit conversion has an exact inverse. |
| Units.TemperatureReferencePoints | Tyon_geoscience_AI/utils/data_loader.py:56 | 32 °F maps to 0 °C, 212 °F to 100 °C, and -40 to -40. |
| Units.ScaleRowRecord | Tyon_geoscience_AI/utils/data_loader.py:52 | Converting a column changes only that column's entry in each record, which becomes the converted value. |
| Units.ScaleRoundTrip | Tyon_geoscience_AI/utils/data_loader.py:52-56 | Converting a column and then converting back gives the original table. |
| Units.ScaleKeepsNumeric | Tyon_geoscience_AI/utils/data_loader.py:50-56 | Converting one column does not change whether another holds text. |
| Units.ConvertUnitsOutcome | Tyon_geoscience_AI/utils/data_loader.py:50-56 | Any units other than `imperial` leave the table unchanged. The imperial step fails exactly when depth, permeability or temperature holds text, and it reports the first such column in that order. |
| Units.ConvertUnitsRoundTrip | Tyon_geoscience_AI/utils/data_loader.py:50-56 | Converting a table back from SI units recovers the imperial table. |
| Units.ConvertUnitsRecord | Tyon_geoscience_AI/utils/data_loader.py:50-56 | Each record entry after the step is the old entry. With imperial units it is converted by that column's conversion. |
| Loader.RequiredColumnsKnowApplications | Tyon_geoscience_AI/utils/data_loader.py:64-69 | The required-columns table knows exactly the four detectable applications. `unknown` is the one detection result it rejects. |
| Loader.AbsentMembers | Tyon_geoscience_AI/utils/data_loader.py:74 | The missing list holds exactly the required columns absent from the table. |
| Loader.AbsentConcat | Tyon_geoscience_AI/utils/data_loader.py:74 | The missing list keeps the requirement order: it distributes over concatenation. |
| Loader.NormalisedColumns | Tyon_geoscience_AI/utils/data_loader.py:43-47 | The columns at validation time are the renamed columns, then `lithology` unless the rename already produced one. All of them are settled. |
| Loader.ValidateOutcome | Tyon_geoscience_AI/utils/data_loader.py:71-78 | There are three outcomes:<br>- An unknown application label is rejected with the column list.<br>- Otherwise, any absent required column gives the missing-columns error, listing them in order.<br>- Otherwise the result is the records. |
| Loader.LoadRecords | Tyon_geoscience_AI/utils/data_loader.py:74-78 | A successful load gives one record per input row. Every record has the normalised columns as keys, including `lithology` and every required column. |
| Loader.LoadRecordValues | Tyon_geoscience_AI/utils/data_loader.py:43-78 | In a successful load each record holds the row's cell under its renamed column, converted for imperial depth, permeability and temperature. An added lithology is `"sandstone"`. |
| Loader.AutoDetectedValidate | Tyon_geoscience_AI/utils/data_loader.py:59-76 | `None` and `"auto"` behave alike. On renamed columns the label is rejected exactly when detection finds nothing. A geothermal or hydrocarbon detection can fail only for a missing `depth`. |
| Loader.AutoRejectsOnlyUnknown | Tyon_geoscience_AI/utils/data_loader.py:59-72 | With no application given, validation raises the invalid-application error exactly when detection finds nothing. |
| Loader.AutoDetectedLoad | Tyon_geoscience_AI/utils/data_loader.py:59-76 | The same statement for the whole loader, after normalisation and the unit step. |
| Loader.ExplicitApplication | Tyon_geoscience_AI/utils/data_loader.py:59-76 | With a label other than `"auto"` detection plays no part. Once the unit step succeeds, a label that is none of the four analyses is rejected with the normalised column list, whatever the columns. A known label succeeds exactly when all its required columns are present, and otherwise fails naming the missing ones. |
| Loader.GeothermalNeedsAtMostDepth | Tyon_geoscience_AI/utils/data_loader.py:65 | With a temperature column present, geothermal can miss only `depth`. |
| Loader.HydrocarbonNeedsAtMostDepth | Tyon_geoscience_AI/utils/data_loader.py:68 | With porosity and permeability present, hydrocarbon can miss only `depth`. |
| Scenarios.ImperialGeothermalScenario | Tyon_geoscience_AI/utils/data_loader.py:22-78 | `[Depth_ft, Temp_F]` = `[1000, 212]` in imperial units with no application is detected as geothermal. It loads as one record: depth 304.8 m, temperature 100 °C, lithology `sandstone`. |
| Scenarios.MissingPermeabilityScenario | Tyon_geoscience_AI/utils/data_loader.py:74-76 | `[Depth, Porosity]` requested as hydrocarbon fails with `permeability` as the only missing column. |
| Scenarios.UnrecognisedScenario | Tyon_geoscience_AI/utils/data_loader.py:71-72 | `[Well_ID, Notes]` with no application detects nothing. It fails with the column list `[Well_ID, Notes, lithology]`. |
| Scenarios.AquiferGroundwaterScenario | Tyon_geoscience_AI/utils/data_loader.py:11-12 | `[Depth, Aquifer_Thickness]` with no application is detected as groundwater through the `aquifer` word. It fails for missing `porosity` and `permeability`. |

## Left out

- Reading the CSV file (line 22) is left out as I/O. The model starts from the table `pandas.read_csv` returns: column names as strings and cells as numbers, text or missing values.
- The `print` of the detected application (line 61) is left out as output only.
- Floating-point rounding is not modelled. The conversions use exact real arithmetic with the source's constants, so results such as 304.8 m are exact where IEEE doubles may differ in the last bit.
- `str.lower` is modelled on ASCII letters only. Non-ASCII case mappings, which Python also applies, are not modelled.
- pandas dtype details beyond number, text and missing are not modelled. Boolean and datetime columns, and mixed-type columns, are covered only as far as any text cell in a converted column raising `TypeError`.
- Column names are strings throughout. `read_csv` with a header row only produces string names, including `Unnamed: n` and suffixed duplicates; a non-string name would raise `AttributeError` at `col.strip()` (line 27), which is not modelled.
- Frames.Record: the order of a record's keys is not modelled, because a Dafny `map` has none. Each Python dict that `to_dict('records')` returns lists its keys in the order of the final columns, `Normalised(f).columns`: the renamed columns, then an added `lithology`. With a repeated name the key keeps its first position and takes its last value.
- Duplicate column names are handled positionally: every column of the name is renamed and converted. pandas' own behaviour for duplicate labels in `df[name] = ...` is not modelled beyond that.
- Exception messages are not modelled. `ValueError` and `TypeError` become the structured `LoadError` values, carrying the application, the missing columns or the column list; the message text is not reproduced.
