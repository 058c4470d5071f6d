/**
 The warning-seal calculator: given the energy and nutrient content of a
 product per 100 g or 100 mL, the "EXCESO EN ..." seals it must carry.
 Each seal is an independent threshold; the calculator lists the seals that
 apply in a fixed order (sugars, saturated fat, trans fat, sodium).
 */
module Seals {

  datatype PhysicalState = Solid | Liquid

  datatype Seal = ExcessSugars | ExcessSaturatedFat | ExcessTransFat | ExcessSodium

  /**
   The calculator's inputs: energy in kcal, total sugars, saturated and trans
   fat in grams, sodium in milligrams, and for liquids whether the product is
   a beverage without energy.
   */
  datatype Product = Product(
    kcal: real,
    totalSugars: real,
    saturatedFat: real,
    transFat: real,
    sodiumMg: real,
    state: PhysicalState,
    energyFreeBeverage: bool)

  /** The label the calculator prints for each seal. */
  function SealName(s: Seal): string {
    match s
    case ExcessSugars => "EXCESO EN AZÚCARES"
    case ExcessSaturatedFat => "EXCESO EN GRASAS SATURADAS"
    case ExcessTransFat => "EXCESO EN GRASAS TRANS"
    case ExcessSodium => "EXCESO EN SODIO"
  }

  /** Position of a seal in the calculator's output order. */
  function Rank(s: Seal): nat {
    match s
    case ExcessSugars => 0
    case ExcessSaturatedFat => 1
    case ExcessTransFat => 2
    case ExcessSodium => 3
  }

  function Max(a: real, b: real): real {
    if a >= b then a else b
  }

  // ---------------------------------------------------------------------------
  // The computation as the calculator performs it
  // ---------------------------------------------------------------------------

  /** Percentage of the energy that `grams` at `kcalPerGram` represent; 0 when the product has no energy. */
  function GuardedPercent(grams: real, kcalPerGram: real, kcal: real): (r: real)
    ensures kcal > 0.0 ==> r * kcal == 100.0 * kcalPerGram * grams
    ensures kcal <= 0.0 ==> r == 0.0
  {
    if kcal > 0.0 then 100.0 * (kcalPerGram * grams) / kcal else 0.0
  }

  function SugarsPercent(p: Product): real {
    GuardedPercent(p.totalSugars, 4.0, p.kcal)
  }

  function SaturatedFatPercent(p: Product): real {
    GuardedPercent(p.saturatedFat, 9.0, p.kcal)
  }

  function TransFatPercent(p: Product): real {
    GuardedPercent(p.transFat, 9.0, p.kcal)
  }

  /** Sodium density criterion: at least 1 mg of sodium per kcal, for a product with energy. */
  function SodiumCriterionA(p: Product): (due: bool)
    ensures due <==> p.kcal > 0.0 && p.sodiumMg >= Max(p.kcal, 1.0)
  {
    DensityThreshold(p.sodiumMg, Max(p.kcal, 1.0));
    p.kcal > 0.0 && p.sodiumMg / Max(p.kcal, 1.0) >= 1.0
  }

  /**
   State-dependent sodium criterion: an absolute limit for solids and for
   beverages without energy, the per-kcal limit for any other liquid, which
   for a liquid has no energy guard.
   */
  function SodiumCriterionB(p: Product): (due: bool)
    ensures p.state == Solid ==> (due <==> p.sodiumMg >= 300.0)
    ensures p.state == Liquid && p.energyFreeBeverage ==> (due <==> p.sodiumMg >= 40.0)
    ensures p.state == Liquid && !p.energyFreeBeverage ==> (due <==> p.sodiumMg >= Max(p.kcal, 1.0))
  {
    DensityThreshold(p.sodiumMg, Max(p.kcal, 1.0));
    match p.state
    case Solid => p.sodiumMg >= 300.0
    case Liquid =>
      if p.energyFreeBeverage then p.sodiumMg >= 40.0
      else p.sodiumMg / Max(p.kcal, 1.0) >= 1.0
  }

  // ---------------------------------------------------------------------------
  // The thresholds restated without division
  // ---------------------------------------------------------------------------

  /** Sugars supply at least 10% of a positive energy content: 4 kcal/g * g >= kcal / 10. */
  predicate SugarsDue(p: Product) {
    p.kcal > 0.0 && p.kcal <= 40.0 * p.totalSugars
  }

  /** Saturated fat supplies at least 10% of a positive energy content. */
  predicate SaturatedFatDue(p: Product) {
    p.kcal > 0.0 && p.kcal <= 90.0 * p.saturatedFat
  }

  /** Trans fat supplies at least 1% of a positive energy content. */
  predicate TransFatDue(p: Product) {
    p.kcal > 0.0 && p.kcal <= 900.0 * p.transFat
  }

  /**
   Sodium is in excess: at least 1 mg per kcal (counting less than 1 kcal as 1)
   for a product with energy, or above the state's absolute limit: 300 mg for
   solids, 40 mg for beverages without energy; an ordinary liquid only has
   the per-kcal limit, which for it also applies at zero energy.
   */
  predicate SodiumDue(p: Product) {
    var perKcal := p.sodiumMg >= Max(p.kcal, 1.0);
    match p.state
    case Solid => p.sodiumMg >= 300.0 || (p.kcal > 0.0 && perKcal)
    case Liquid =>
      if p.energyFreeBeverage then p.sodiumMg >= 40.0 || (p.kcal > 0.0 && perKcal)
      else perKcal
  }

  /** The seals appear in strictly increasing calculator order. */
  predicate InOrder(seals: seq<Seal>) {
    forall i, j :: 0 <= i < j < |seals| ==> Rank(seals[i]) < Rank(seals[j])
  }

  /** `s` in front of `rest` when `flag` is set; `s` comes before every seal of `rest`. */
  function PrependIf(flag: bool, s: Seal, rest: seq<Seal>): (seals: seq<Seal>)
    requires InOrder(rest)
    requires forall x :: x in rest ==> Rank(s) < Rank(x)
    ensures InOrder(seals)
    ensures forall x :: x in seals <==> (flag && x == s) || x in rest
  {
    if flag then [s] + rest else rest
  }

  /** The seals whose flags are set, in the calculator's order. */
  function Collect(sugars: bool, saturated: bool, trans: bool, sodium: bool): (seals: seq<Seal>)
    ensures InOrder(seals)
    ensures forall i, j :: 0 <= i < j < |seals| ==> seals[i] != seals[j]
    ensures ExcessSugars in seals <==> sugars
    ensures ExcessSaturatedFat in seals <==> saturated
    ensures ExcessTransFat in seals <==> trans
    ensures ExcessSodium in seals <==> sodium
  {
    var last := PrependIf(sodium, ExcessSodium, []);
    var fromTrans := PrependIf(trans, ExcessTransFat, last);
    var fromSaturated := PrependIf(saturated, ExcessSaturatedFat, fromTrans);
    PrependIf(sugars, ExcessSugars, fromSaturated)
  }

  /** The seals a product must carry, in the calculator's order. */
  function RequiredSeals(p: Product): (seals: seq<Seal>)
    ensures InOrder(seals)
    ensures forall i, j :: 0 <= i < j < |seals| ==> seals[i] != seals[j]
    ensures ExcessSugars in seals <==> SugarsDue(p)
    ensures ExcessSaturatedFat in seals <==> SaturatedFatDue(p)
    ensures ExcessTransFat in seals <==> TransFatDue(p)
    ensures ExcessSodium in seals <==> SodiumDue(p)
  {
    SugarsFlag(p);
    SaturatedFatFlag(p);
    TransFatFlag(p);
    SodiumFlag(p);
    Collect(
      SugarsPercent(p) >= 10.0,
      SaturatedFatPercent(p) >= 10.0,
      TransFatPercent(p) >= 1.0,
      SodiumCriterionA(p) || SodiumCriterionB(p))
  }

  lemma SugarsFlag(p: Product)
    ensures SugarsPercent(p) >= 10.0 <==> SugarsDue(p)
  {
    PercentThreshold(p.totalSugars, 4.0, p.kcal, 10.0);
  }

  lemma SaturatedFatFlag(p: Product)
    ensures SaturatedFatPercent(p) >= 10.0 <==> SaturatedFatDue(p)
  {
    PercentThreshold(p.saturatedFat, 9.0, p.kcal, 10.0);
  }

  lemma TransFatFlag(p: Product)
    ensures TransFatPercent(p) >= 1.0 <==> TransFatDue(p)
  {
    PercentThreshold(p.transFat, 9.0, p.kcal, 1.0);
  }

  lemma SodiumFlag(p: Product)
    ensures SodiumCriterionA(p) || SodiumCriterionB(p) <==> SodiumDue(p)
  {
    DensityThreshold(p.sodiumMg, Max(p.kcal, 1.0));
  }

  /** The labels the calculator prints, one per required seal. */
  function RequiredSealNames(p: Product): (names: seq<string>)
    ensures |names| == |RequiredSeals(p)|
    ensures forall i :: 0 <= i < |names| ==> names[i] == SealName(RequiredSeals(p)[i])
    ensures "EXCESO EN SODIO" in names <==> SodiumDue(p)
  {
    var seals := RequiredSeals(p);
    SealNameInjective();
    seq(|seals|, i requires 0 <= i < |seals| => SealName(seals[i]))
  }

  /** Distinct seals print distinct labels. */
  lemma SealNameInjective()
    ensures forall a: Seal, b: Seal :: SealName(a) == SealName(b) ==> a == b
  {
  }

  /** With a positive energy content, a guarded percentage meets a threshold exactly when the energy is small enough. */
  lemma PercentThreshold(grams: real, kcalPerGram: real, kcal: real, threshold: real)
    requires threshold > 0.0
    ensures GuardedPercent(grams, kcalPerGram, kcal) >= threshold <==>
              kcal > 0.0 && kcal <= (100.0 * kcalPerGram / threshold) * grams
  {
    if kcal > 0.0 {
      var e := 100.0 * (kcalPerGram * grams);
      var pct := e / kcal;
      assert pct * kcal == e;
      assert pct >= threshold <==> pct * kcal >= threshold * kcal;
      assert threshold * kcal <= e <==> kcal <= e / threshold;
      assert e / threshold == (100.0 * kcalPerGram / threshold) * grams;
    }
  }

  /** Sodium per (floored) kcal reaches 1 exactly when sodium reaches the floored energy. */
  lemma DensityThreshold(sodiumMg: real, denominator: real)
    requires denominator >= 1.0
    ensures sodiumMg / denominator >= 1.0 <==> sodiumMg >= denominator
  {
    var q := sodiumMg / denominator;
    assert q * denominator == sodiumMg;
    assert q >= 1.0 <==> q * denominator >= denominator;
  }
}
