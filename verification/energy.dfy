/**
 The checklist's energy arithmetic: the energy a nutrient contributes
 (`energia_por_gramos`), its share of the total energy (`porcentaje_energia`)
 and the declared-calorie consistency calculator with its fixed 20% tolerance.
 */
module Energy {
  import opened Options

  /** Kilocalories per gram the checklist assigns to each macronutrient. */
  const CarbohydrateKcalPerGram: real := 4.0
  const ProteinKcalPerGram: real := 4.0
  const FatKcalPerGram: real := 9.0

  /** Relative difference, in percent, that a declared energy value may show. */
  const TolerancePercent: real := 20.0

  /** The energy of `grams` of a nutrient that yields `kcalPerGram`. */
  function EnergyFromGrams(grams: real, kcalPerGram: real): (e: real)
    ensures kcalPerGram != 0.0 ==> e / kcalPerGram == grams
    ensures kcalPerGram == 0.0 || grams == 0.0 ==> e == 0.0
    ensures grams >= 0.0 && kcalPerGram >= 0.0 ==> e >= 0.0
  {
    grams * kcalPerGram
  }

  /**
   The share of `totalKcal` that `nutrientKcal` represents, in percent; no
   value when the total is missing or zero.
   */
  function EnergyPercent(nutrientKcal: real, totalKcal: Option<real>): (r: Option<real>)
    ensures r.None? <==> (totalKcal.None? || totalKcal.value == 0.0)
    ensures r.Some? ==> r.value * totalKcal.value == 100.0 * nutrientKcal
  {
    if totalKcal.None? || totalKcal.value == 0.0 then None
    else Some(100.0 * nutrientKcal / totalKcal.value)
  }

  /** A positive total reads back as the nutrient's share: percent and total give back the nutrient's energy. */
  lemma EnergyPercentInverse(nutrientKcal: real, totalKcal: real)
    requires totalKcal > 0.0
    ensures EnergyPercent(nutrientKcal, Some(totalKcal)).Some?
    ensures EnergyPercent(nutrientKcal, Some(totalKcal)).value * totalKcal / 100.0 == nutrientKcal
  {
  }

  datatype Verdict = Consistent | Inconsistent

  /** What the calorie calculator shows for one set of inputs. */
  datatype CalorieReport = CalorieReport(
    calculatedKcal: real,
    differenceKcal: real,
    differencePercent: Option<real>,
    verdict: Option<Verdict>)

  /**
   The energy a label's macronutrients imply, compared with the declared
   value: consistent when it lies within 20% of the declaration; no verdict
   when nothing (zero) is declared.
   */
  function CheckDeclaredCalories(carbG: real, proteinG: real, fatG: real, declaredKcal: real): (r: CalorieReport)
    ensures r.calculatedKcal == EnergyFromGrams(carbG, CarbohydrateKcalPerGram)
                               + EnergyFromGrams(proteinG, ProteinKcalPerGram)
                               + EnergyFromGrams(fatG, FatKcalPerGram)
    ensures r.differenceKcal >= 0.0
    ensures r.differenceKcal == r.calculatedKcal - declaredKcal || r.differenceKcal == declaredKcal - r.calculatedKcal
    ensures r.differencePercent.None? <==> declaredKcal <= 0.0
    ensures r.differencePercent.Some? ==> r.differencePercent.value * declaredKcal == 100.0 * r.differenceKcal
    ensures r.verdict.None? <==> declaredKcal <= 0.0
    ensures r.verdict == Some(Consistent) <==>
              declaredKcal > 0.0 && 0.8 * declaredKcal <= r.calculatedKcal <= 1.2 * declaredKcal
    ensures r.verdict == Some(Inconsistent) <==>
              declaredKcal > 0.0 && (r.calculatedKcal < 0.8 * declaredKcal || r.calculatedKcal > 1.2 * declaredKcal)
  {
    var calculated := CarbohydrateKcalPerGram * carbG + ProteinKcalPerGram * proteinG + FatKcalPerGram * fatG;
    var diff := if calculated >= declaredKcal then calculated - declaredKcal else declaredKcal - calculated;
    if declaredKcal > 0.0 then
      var pct := diff / declaredKcal * 100.0;
      ToleranceBand(diff, declaredKcal);
      CalorieReport(calculated, diff, Some(pct), Some(if pct <= TolerancePercent then Consistent else Inconsistent))
    else
      CalorieReport(calculated, diff, None, None)
  }

  /** A difference is at most 20% of a positive declaration exactly when it is at most a fifth of it. */
  lemma ToleranceBand(diff: real, declared: real)
    requires declared > 0.0
    ensures diff / declared * 100.0 <= TolerancePercent <==> diff <= 0.2 * declared
    ensures diff / declared * 100.0 * declared == 100.0 * diff
  {
    var q := diff / declared;
    assert q * declared == diff;
    if q * 100.0 <= 20.0 {
      assert q <= 0.2;
      assert q * declared <= 0.2 * declared;
    }
    if diff <= 0.2 * declared {
      assert q * declared <= 0.2 * declared;
      assert q <= 0.2;
    }
  }

  /** Declaring exactly the implied energy is always consistent. */
  lemma ExactDeclarationIsConsistent(carbG: real, proteinG: real, fatG: real)
    requires 4.0 * carbG + 4.0 * proteinG + 9.0 * fatG > 0.0
    ensures CheckDeclaredCalories(carbG, proteinG, fatG, 4.0 * carbG + 4.0 * proteinG + 9.0 * fatG).verdict == Some(Consistent)
  {
  }
}
