/** Properties of the warning-seal calculator. */
module SealLemmas {
  import opened Options
  import Energy
  import opened Seals

  /** Each percentage seal is present exactly when the calculator's percentage of energy reaches its threshold. */
  lemma PercentSealRules(p: Product)
    ensures ExcessSugars in RequiredSeals(p) <==> p.kcal > 0.0 && 400.0 * p.totalSugars / p.kcal >= 10.0
    ensures ExcessSaturatedFat in RequiredSeals(p) <==> p.kcal > 0.0 && 900.0 * p.saturatedFat / p.kcal >= 10.0
    ensures ExcessTransFat in RequiredSeals(p) <==> p.kcal > 0.0 && 900.0 * p.transFat / p.kcal >= 1.0
  {
    PercentThreshold(p.totalSugars, 4.0, p.kcal, 10.0);
    PercentThreshold(p.saturatedFat, 9.0, p.kcal, 10.0);
    PercentThreshold(p.transFat, 9.0, p.kcal, 1.0);
    if p.kcal > 0.0 {
      assert 100.0 * (4.0 * p.totalSugars) == 400.0 * p.totalSugars;
      assert 100.0 * (9.0 * p.saturatedFat) == 900.0 * p.saturatedFat;
      assert 100.0 * (9.0 * p.transFat) == 900.0 * p.transFat;
    }
  }

  /** Without energy no percentage can be computed: all three are 0 and none of their seals is required, whatever the grams. */
  lemma ZeroEnergySuppressesPercentSeals(p: Product)
    requires p.kcal <= 0.0
    ensures SugarsPercent(p) == 0.0 && SaturatedFatPercent(p) == 0.0 && TransFatPercent(p) == 0.0
    ensures !SodiumCriterionA(p)
    ensures ExcessSugars !in RequiredSeals(p)
    ensures ExcessSaturatedFat !in RequiredSeals(p)
    ensures ExcessTransFat !in RequiredSeals(p)
  {
  }

  /** A solid needs the sodium seal when it has at least 300 mg, or at least 1 mg per kcal with energy. */
  lemma SolidSodiumRule(p: Product)
    requires p.state == Solid
    ensures ExcessSodium in RequiredSeals(p) <==>
              p.sodiumMg >= 300.0 || (p.kcal > 0.0 && p.sodiumMg / Max(p.kcal, 1.0) >= 1.0)
  {
    DensityThreshold(p.sodiumMg, Max(p.kcal, 1.0));
  }

  /** A beverage without energy needs the sodium seal when it has at least 40 mg, or the density criterion holds. */
  lemma EnergyFreeBeverageSodiumRule(p: Product)
    requires p.state == Liquid && p.energyFreeBeverage
    ensures ExcessSodium in RequiredSeals(p) <==>
              p.sodiumMg >= 40.0 || (p.kcal > 0.0 && p.sodiumMg / Max(p.kcal, 1.0) >= 1.0)
  {
    DensityThreshold(p.sodiumMg, Max(p.kcal, 1.0));
  }

  /** Any other liquid needs the sodium seal exactly when it has at least 1 mg per kcal, less than 1 kcal counting as 1. */
  lemma OrdinaryLiquidSodiumRule(p: Product)
    requires p.state == Liquid && !p.energyFreeBeverage
    ensures ExcessSodium in RequiredSeals(p) <==> p.sodiumMg / Max(p.kcal, 1.0) >= 1.0
  {
    DensityThreshold(p.sodiumMg, Max(p.kcal, 1.0));
  }

  /** Consequently an ordinary liquid without energy is sealed from 1 mg of sodium on. */
  lemma OrdinaryLiquidWithoutEnergy(p: Product)
    requires p.state == Liquid && !p.energyFreeBeverage && p.kcal == 0.0
    ensures ExcessSodium in RequiredSeals(p) <==> p.sodiumMg >= 1.0
  {
    OrdinaryLiquidSodiumRule(p);
    assert p.sodiumMg / Max(p.kcal, 1.0) == p.sodiumMg;
  }

  /** The beverage flag only matters for liquids. */
  lemma EnergyFreeFlagIgnoredForSolids(p: Product, flag: bool)
    requires p.state == Solid
    ensures RequiredSeals(p.(energyFreeBeverage := flag)) == RequiredSeals(p)
  {
  }

  /** More sugars never remove the sugars seal. */
  lemma MoreSugarsKeepSeal(p: Product, sugars: real)
    requires sugars >= p.totalSugars
    ensures ExcessSugars in RequiredSeals(p) ==> ExcessSugars in RequiredSeals(p.(totalSugars := sugars))
  {
  }

  /** More saturated fat never removes the saturated-fat seal. */
  lemma MoreSaturatedFatKeepsSeal(p: Product, saturatedFat: real)
    requires saturatedFat >= p.saturatedFat
    ensures ExcessSaturatedFat in RequiredSeals(p) ==> ExcessSaturatedFat in RequiredSeals(p.(saturatedFat := saturatedFat))
  {
  }

  /** More trans fat never removes the trans-fat seal. */
  lemma MoreTransFatKeepsSeal(p: Product, transFat: real)
    requires transFat >= p.transFat
    ensures ExcessTransFat in RequiredSeals(p) ==> ExcessTransFat in RequiredSeals(p.(transFat := transFat))
  {
  }

  /** More sodium never removes the sodium seal. */
  lemma MoreSodiumKeepsSeal(p: Product, sodiumMg: real)
    requires sodiumMg >= p.sodiumMg
    ensures ExcessSodium in RequiredSeals(p) ==> ExcessSodium in RequiredSeals(p.(sodiumMg := sodiumMg))
  {
  }

  /**
   Raising a positive energy content never adds a sugars, saturated-fat or
   trans-fat seal. (From zero energy it can: see EnergyFromZeroCanAddSeal.)
   */
  lemma MoreEnergyAddsNoPercentSeal(p: Product, kcal: real)
    requires 0.0 < p.kcal <= kcal
    ensures ExcessSugars in RequiredSeals(p.(kcal := kcal)) ==> ExcessSugars in RequiredSeals(p)
    ensures ExcessSaturatedFat in RequiredSeals(p.(kcal := kcal)) ==> ExcessSaturatedFat in RequiredSeals(p)
    ensures ExcessTransFat in RequiredSeals(p.(kcal := kcal)) ==> ExcessTransFat in RequiredSeals(p)
  {
  }

  /** Zero energy suppresses the sugars seal, so going from 0 to 100 kcal with 10 g of sugars adds it. */
  lemma EnergyFromZeroCanAddSeal()
    ensures ExcessSugars !in RequiredSeals(Product(0.0, 10.0, 0.0, 0.0, 0.0, Solid, false))
    ensures ExcessSugars in RequiredSeals(Product(100.0, 10.0, 0.0, 0.0, 0.0, Solid, false))
  {
  }

  /** 10 g of sugars in 100 kcal is 40% of the energy: the sugars seal and nothing else. */
  lemma SugarsOnlyScenario()
    ensures RequiredSeals(Product(100.0, 10.0, 0.0, 0.0, 0.0, Solid, false)) == [ExcessSugars]
  {
    var p := Product(100.0, 10.0, 0.0, 0.0, 0.0, Solid, false);
    var seals := RequiredSeals(p);
    assert ExcessSugars in seals;
    assert forall s :: s in seals ==> s == ExcessSugars;
  }

  /** 350 mg of sodium in a 50 kcal solid meets both sodium criteria: the sodium seal and nothing else. */
  lemma SodiumBothCriteriaScenario()
    ensures SodiumCriterionA(Product(50.0, 0.0, 0.0, 0.0, 350.0, Solid, false))
    ensures SodiumCriterionB(Product(50.0, 0.0, 0.0, 0.0, 350.0, Solid, false))
    ensures RequiredSeals(Product(50.0, 0.0, 0.0, 0.0, 350.0, Solid, false)) == [ExcessSodium]
  {
    var p := Product(50.0, 0.0, 0.0, 0.0, 350.0, Solid, false);
    var seals := RequiredSeals(p);
    assert ExcessSodium in seals;
    assert forall s :: s in seals ==> s == ExcessSodium;
  }

  /**
   For a product with non-negative energy the calculator's guarded sugars
   percentage is `porcentaje_energia` of `energia_por_gramos(sugars, 4)`,
   reading its "no value" (zero energy) as 0.
   */
  lemma SugarsPercentIsEnergyPercent(p: Product)
    requires p.kcal >= 0.0
    ensures SugarsPercent(p) ==
              Energy.EnergyPercent(Energy.EnergyFromGrams(p.totalSugars, 4.0), Some(p.kcal)).GetOr(0.0)
  {
  }
}
