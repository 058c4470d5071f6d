# Labelling checklist calculators (Resolutions 810/2021 and 2492/2022) in Dafny

The checklist application helps a reviewer check a food label against the
Colombian nutrition-labelling resolutions 810/2021 and 2492/2022. Around its
forms it runs a handful of small calculations. This project models those
calculations as pure Dafny functions and proves what they promise:

- **Warning seals** (`Seals`, `SealLemmas`). Given energy (kcal), total sugars,
  saturated fat, trans fat (g), sodium (mg), physical state and the
  "beverage without energy" flag, the calculator computes which
  "EXCESO EN ..." seals are due. It lists them in a fixed order.
- **Seal size, Tabla 17** (`Tabla17`). A 13-row table maps an area-range
  label of the principal face to the minimum side of the seal. Above 300 cm²
  the side is 15% of the face width, rounded to two decimals. The model also
  covers the estimated width of a row of seals.
- **Compliance metric** (`Compliance`). Each checklist item holds a status:
  yes, no, not applicable or unanswered. The metric is yes over (yes + no),
  in percent with one decimal, or 0 when nothing is answered. The module
  also covers the report's status labels.
- **Energy arithmetic** (`Energy`). This covers the energy of a nutrient,
  its percentage of the total energy, and the declared-calorie check:
  4·carbohydrate + 4·protein + 9·fat must lie within 20% of the declared
  value. The two helpers `energia_por_gramos` and `porcentaje_energia`
  (App.py:150-163) are defined but never called. The seal calculator
  computes its own percentages (App.py:301-303), and
  `SealLemmas.SugarsPercentIsEnergyPercent` shows that the two agree.
- **Observation text** (`Observation`). Long notes are cut into 100-character
  pieces for the PDF report.
- `Rounding` models Python's `round(x, n)` on exact rationals. `Options`
  holds the `Option` type that stands for Python's `None`.

All quantities are Dafny `real`, which is exact. `round(x, n)` is rounding
to the nearest multiple of 10^-n, and an exact tie goes to the even multiple,
as in Python (`Rounding.RoundTo`). `Rounding.IsRounding` states this property
and `Rounding.RoundingIsUnique` shows that it fixes the result.

Facts about the code that the model keeps:

- The seal calculator has no "CONTIENE EDULCORANTE" seal. The checklist item
  at App.py:110-111 leaves that seal to the reviewer.
- Trans fat is entered in grams (App.py:293) and nothing is converted.
- Tabla 17 is looked up by the area-range label the user picks
  (App.py:342, 355-357), not by a numeric area.
- For several seals, only an estimated total width is computed (App.py:364).
  No aggregate-area limit is checked.
- Sodium criterion a (App.py:305) is false at 0 kcal for every product.
  Criterion b for ordinary liquids (App.py:312) has no energy guard. So a
  liquid with 0 kcal that is not flagged as energy-free gets the sodium seal
  from 1 mg of sodium (`SealLemmas.OrdinaryLiquidWithoutEnergy`).
- Raising a positive energy content never adds a percentage seal. Going from
  0 kcal to a positive value can add one, because zero energy suppresses
  them (`SealLemmas.EnergyFromZeroCanAddSeal`).

## Model

| member | source | states |
|---|---|---|
| Rounding.RoundTo | App.py:354 | the result is the rounding of the input: it has at most the kept decimals, lies within half a unit of the input, and at an exact tie its last digit is even |
| Rounding.RoundHalfEven | App.py:248 | the whole number nearest to the input, the even one when the input lies exactly halfway |
| Rounding.RoundingIsUnique | App.py:248 | two values that both satisfy the rounding property for the same input are equal, so the contract of RoundTo determines its result |
| Rounding.RoundMonotone | App.py:364 | rounding preserves the order of two values |
| Rounding.RoundKeepsGridPoints | App.py:354 | a value that already has at most the kept decimals is left unchanged |
| Rounding.RoundStaysBetween | App.py:248 | a value between two representable bounds rounds to a value between them |
| Energy.EnergyFromGrams | App.py:150-155 | dividing the energy by a non-zero kcal/g factor gives back the grams; a zero factor or zero grams gives 0; non-negative inputs give non-negative energy |
| Energy.EnergyPercent | App.py:157-163 | no value exactly when the total is missing or zero; otherwise percent × total = 100 × nutrient energy |
| Energy.EnergyPercentInverse | App.py:157-163 | with a positive total, percent × total / 100 gives back the nutrient's energy |
| Energy.CheckDeclaredCalories | App.py:269-278 | computed energy is the 4/4/9 kcal-per-gram sum; the difference is the absolute gap; no percentage iff declared ≤ 0, and otherwise percentage × declared = 100 × difference; no verdict iff declared ≤ 0; consistent iff 0.8·declared ≤ computed ≤ 1.2·declared; inconsistent iff outside that band |
| Energy.ToleranceBand | App.py:271-275 | for a positive declaration, "difference ≤ 20%" is the same as difference ≤ 0.2 × declared |
| Energy.ExactDeclarationIsConsistent | App.py:269-276 | declaring exactly the implied energy (when positive) is always consistent |
| Seals.GuardedPercent | App.py:301-303 | the percentage behind Seals.SugarsPercent (4 kcal/g), Seals.SaturatedFatPercent and Seals.TransFatPercent (9 kcal/g): with positive energy, percentage × kcal = 100 × kcal-per-gram × grams; with no energy the percentage is 0 |
| Seals.SodiumCriterionA | App.py:305 | sodium criterion a holds iff kcal > 0 and sodium ≥ max(kcal, 1) |
| Seals.SodiumCriterionB | App.py:306-312 | sodium criterion b: solids iff sodium ≥ 300 mg; energy-free beverages iff sodium ≥ 40 mg; any other liquid iff sodium ≥ max(kcal, 1), with no energy guard |
| Seals.Collect | App.py:319-323 | the list holds a seal exactly when its flag is set, without duplicates, in the order sugars, saturated fat, trans fat, sodium |
| Seals.RequiredSeals | App.py:300-323 | the seal list is strictly ordered and duplicate-free, and each seal is present iff its threshold holds, restated without division: sugars iff 0 < kcal ≤ 40·g, saturated iff 0 < kcal ≤ 90·g, trans iff 0 < kcal ≤ 900·g, sodium by the state rule |
| Seals.RequiredSealNames | App.py:320-323 | one printed label (Seals.SealName) per required seal, in the same order; "EXCESO EN SODIO" appears iff sodium is in excess |
| Seals.SealNameInjective | App.py:320-323 | different seals print different labels |
| Seals.PercentThreshold | App.py:301-303 | the guarded percentage reaches a threshold iff energy is positive and at most (100·kcal-per-gram/threshold)·grams |
| Seals.DensityThreshold | App.py:305 | sodium / d ≥ 1 iff sodium ≥ d, for a floored denominator d ≥ 1 |
| Seals.SugarsFlag | App.py:314 | the sugars flag (≥ 10% of energy) equals the division-free sugars rule |
| Seals.SaturatedFatFlag | App.py:315 | the saturated-fat flag (≥ 10% of energy) equals the division-free rule |
| Seals.TransFatFlag | App.py:316 | the trans-fat flag (≥ 1% of energy) equals the division-free rule |
| Seals.SodiumFlag | App.py:305-317 | criterion a or criterion b holds iff the division-free sodium rule holds |
| SealLemmas.PercentSealRules | App.py:314-316 | sugars seal iff kcal > 0 and 400·g/kcal ≥ 10; saturated iff kcal > 0 and 900·g/kcal ≥ 10; trans iff kcal > 0 and 900·g/kcal ≥ 1 |
| SealLemmas.ZeroEnergySuppressesPercentSeals | App.py:301-303 | with no energy, all three percentages are 0, the density criterion is false, and no sugars, saturated-fat or trans-fat seal is due, whatever the grams |
| SealLemmas.SolidSodiumRule | App.py:305-307 | a solid gets the sodium seal iff sodium ≥ 300 mg, or kcal > 0 and sodium/max(kcal,1) ≥ 1 |
| SealLemmas.EnergyFreeBeverageSodiumRule | App.py:305-310 | a beverage without energy gets the sodium seal iff sodium ≥ 40 mg or the density criterion holds |
| SealLemmas.OrdinaryLiquidSodiumRule | App.py:309-312 | any other liquid gets the sodium seal iff sodium/max(kcal,1) ≥ 1 |
| SealLemmas.OrdinaryLiquidWithoutEnergy | App.py:311-312 | an ordinary liquid with 0 kcal gets the sodium seal iff sodium ≥ 1 mg |
| SealLemmas.EnergyFreeFlagIgnoredForSolids | App.py:295-307 | for a solid, the beverage flag does not change the seals |
| SealLemmas.MoreSugarsKeepSeal | App.py:300-314 | raising sugars with everything else fixed never removes the sugars seal |
| SealLemmas.MoreSaturatedFatKeepsSeal | App.py:302-315 | raising saturated fat never removes the saturated-fat seal |
| SealLemmas.MoreTransFatKeepsSeal | App.py:303-316 | raising trans fat never removes the trans-fat seal |
| SealLemmas.MoreSodiumKeepsSeal | App.py:305-317 | raising sodium never removes the sodium seal |
| SealLemmas.MoreEnergyAddsNoPercentSeal | App.py:301-316 | raising an already positive energy never adds a sugars, saturated-fat or trans-fat seal |
| SealLemmas.EnergyFromZeroCanAddSeal | App.py:301-314 | 10 g of sugars at 0 kcal has no sugars seal, but at 100 kcal it has one |
| SealLemmas.SugarsOnlyScenario | App.py:300-323 | a 100 kcal solid with 10 g sugars and nothing else gets exactly the sugars seal |
| SealLemmas.SodiumBothCriteriaScenario | App.py:305-317 | a 50 kcal solid with 350 mg sodium meets both sodium criteria and gets exactly the sodium seal |
| SealLemmas.SugarsPercentIsEnergyPercent | App.py:157-163 | for non-negative energy, the calculator's guarded sugars percentage equals the general percent helper applied to 4 kcal/g × sugars, with "no value" read as 0 |
| Tabla17.FindRow | App.py:355-357 | the result is the index of the first row with the key, or none exactly when no row has it |
| Tabla17.SealSide | App.py:350-358 | above 300 cm², a side exists iff a face width is given, and it is 15% of the width rounded to two decimals (nearest, even at a tie); for any other label, a side exists iff a row with that label has a fixed side, and then it is that row's side |
| Tabla17.LabelsDistinct | App.py:39-53 | no two rows of the table (Tabla17.Table) share a label |
| Tabla17.EveryRowIsLookedUp | App.py:355-357 | looking up any row's label other than "> 300 cm²" returns that row's value |
| Tabla17.NoSideBelow30OrUnknown | App.py:350-358 | "< 30 cm²" and labels not in the table yield no side |
| Tabla17.FixedSidesIncrease | App.py:41-51 | in Tabla17.Table, rows 2 to 12 all have fixed sides, from 1.7 cm to 4.8 cm, strictly increasing down the table |
| Tabla17.SealSideScenarios | App.py:47 | the 100–125 cm² range needs 3.1 cm; above 300 cm² with a 20 cm face the side is 3.0 cm |
| Tabla17.HalfwaySideRoundsToEven | App.py:354 | in exact arithmetic, a 10.5 cm face above 300 cm² gives exactly 1.575 cm, and the model's side is the even 1.58 cm (the float result differs; see "Left out") |
| Tabla17.RowWidthFormula | App.py:364 | n·side + (n−1)·spacing equals the width of n seals laid side by side with a gap between each pair of neighbours |
| Tabla17.TotalWidth | App.py:364 | the estimated width is the width of the row of seals rounded to two decimals (nearest, even at a tie) |
| Tabla17.MoreSealsNeverNarrower | App.py:364 | with non-negative side and spacing, one more seal never gives a smaller estimate |
| Tabla17.SingleTableSealWidth | App.py:364 | one seal with a side from the table is estimated exactly at that side |
| Tabla17.SizeEstimate | App.py:360-365 | a result exists iff the lookup gives a side; then it carries that side and the row width rounded to two decimals |
| Compliance.ParseStatus | App.py:376-381 | a code read as anything other than unanswered is that status's own code |
| Compliance.ParseCode | App.py:194-201 | storing a status as its code (Compliance.Code: "yes", "no", "na", "none", as App.py:141 and 195-201 store them) and reading it back gives the same status |
| Compliance.StatusLabel | App.py:376-381 | "Cumple" iff the code is "yes", "No cumple" iff "no", "No aplica" iff "na", "Sin responder" for every other code; agrees with the status's label (Compliance.Label) |
| Compliance.LabelInjective | App.py:376-381 | different statuses get different labels under Compliance.Label |
| Compliance.Count | App.py:245-246 | the count of a status is its multiplicity among the items |
| Compliance.CountsCoverAllItems | App.py:250-254 | the four status counts add up to the number of items |
| Compliance.Tally | App.py:245-254 | one pass gives each status's multiplicity, and the four sum to the number of items |
| Compliance.PercentFromCounts | App.py:247-248 | the result is in [0,100] with one decimal, 100·yes/(yes+no) rounded to one decimal (nearest, even at a tie) when something is answered, 0 when no item is yes, and 100 when there are yeses and no nos |
| Compliance.CompliancePercent | App.py:245-248 | the result is in [0,100] (the report repeats it at App.py:423-426), 0 with no yes/no answers, otherwise 100·yes/(yes+no) rounded to one decimal (nearest, even at a tie), and 100 when some item is yes and none is no |
| Compliance.OrderIrrelevant | App.py:245-246 | two checklists with the same statuses, in any order, have the same metric |
| Compliance.NeutralStatusIgnored | App.py:245-248 | inserting a not-applicable or unanswered item anywhere leaves the metric unchanged |
| Compliance.UnanimousAnswers | App.py:245-248 | all yes gives 100%; all no gives 0% |
| Compliance.HalfwayPercentsRoundToEven | App.py:248 | 1 yes of 16 answers gives 6.2% and 3 of 16 give 18.8%: exact halfway shares keep the even tenth |
| Observation.Pieces | App.py:171 | every piece but the last has exactly `chunk` characters, the last has 1 to `chunk`, and their concatenation is the text |
| Observation.Join | App.py:172 | the joined text followed by one more separator is every piece followed by the separator (Observation.Terminated), which determines it; its length is the pieces' plus one separator per neighbour pair; it starts with the first piece; with an empty separator it is the concatenation |
| Observation.SplitObservation | App.py:165-172 | empty text gives ""; text of at most `chunk` characters is unchanged; longer text grows by two characters per separator and holds the separator after every full piece; removing the separators gives back the text |
| Observation.Unsplit | App.py:172 | the inverse used above: never longer than its input, leaves text of at most `chunk` characters alone, and keeps the first `chunk` characters |
| Observation.JoinedSeparators | App.py:171-172 | in the joined pieces of a long text, the two characters after every full piece are the separator |
| Observation.SeparatorCarriesOver | App.py:172 | putting a full piece and the separator in front keeps every later boundary's separator in place |
| Observation.JoinedPiecesRoundTrip | App.py:171-172 | removing the separators from the joined pieces gives back the original text |
| Observation.UnsplitAfterSeparator | App.py:172 | a full piece followed by the separator loses the separator and keeps the piece |
| Observation.SplitUnfolds | App.py:169-172 | a long text splits into its first `chunk` characters, the separator, then the split of the rest |
| Observation.ReportCell | App.py:433-435 | an empty note shows "-"; any other note shows its 100-character split, from which the note can be recovered; the report's separate test for "-" changes nothing |

## Left out

- Streamlit user interface: widgets, buttons, session state and HTML
  rendering. This is presentation and process-global state. The checklist's
  statuses become a sequence of values, in the order the session stores them.
- Evidence upload and image storage. This is file I/O.
- PDF generation with reportlab, temporary files and the current date. This
  is I/O and foreign-library work. Only the observation cell's text, which
  feeds the PDF table, is modelled.
- pandas DataFrame construction. It is a thin library wrapper.
- The `try/except` paths of `energia_por_gramos` and `porcentaje_energia`
  for non-numeric input. Only the numeric path is modelled.
- Python float arithmetic. Arithmetic is exact.
- Rounding.RoundTo: rounds the exact value half to even. Python rounds the
  binary float, whose value can lie just off the exact tie. For the compliance
  metric the two agree on every input. A tie needs exactly 16 answered items
  with an odd number of yeses, and k/16 × 100 is exact in binary.
- Tabla17.SealSide: rounds the exact product 0.15 × width. A width that is an
  odd multiple of 0.5 cm makes the product an exact tie, for example
  10.5 cm gives 1.575. The float product can lie just off the tie. At
  10.5 cm it lies just below, so the code shows 1.57 where the model gives
  1.58.
- Tabla17.HalfwaySideRoundsToEven: pins the model's exact-arithmetic value
  1.58 cm. The code computes 1.57 cm for this input, because its float
  product lies just below the tie.
- Tabla17.TotalWidth: the same float caveat applies. A tie needs a spacing
  with more than two decimals; sides from the table and from SealSide have
  two.
- Observation.SplitObservation: takes `chunk` as a positive natural number.
  A zero chunk raises in the code, and a negative one is never passed (the
  report always uses 100).
- Tabla17.TotalWidth: requires at least one seal. The form offers 1 to 4
  seals.
- The "CONTIENE EDULCORANTE" seal, a mg-to-g trans-fat conversion, a lookup
  from a numeric area and aggregate-area limits for several seals are not
  modelled. The code computes none of them.
