/**
 Minimum size of the front-of-pack warning seal (Tabla 17 of Resolution
 810/2021). The table maps the label of an area range of the principal
 display face to the minimum side of the octagon in cm; the lookup is by the
 label string. Below 30 cm² there is no minimum in the table, and above
 300 cm² the side is 15% of the face width.
 */
module Tabla17 {
  import opened Options
  import opened Rounding

  datatype MinimumSide = NoMinimum | FixedSide(cm: real) | FifteenPercentOfFace

  datatype Row = Row(area: string, minimum: MinimumSide)

  const Under30Label: string := "< 30 cm²"
  const Over300Label: string := "> 300 cm²"

  /** Share of the face width that gives the side above 300 cm². */
  const FaceShare: real := 0.15

  const Table: seq<Row> := [
    Row(Under30Label, NoMinimum),
    Row("≥30 a <35 cm²", FixedSide(1.7)),
    Row("≥35 a <40 cm²", FixedSide(1.8)),
    Row("≥40 a <50 cm²", FixedSide(2.0)),
    Row("≥50 a <60 cm²", FixedSide(2.2)),
    Row("≥60 a <80 cm²", FixedSide(2.5)),
    Row("≥80 a <100 cm²", FixedSide(2.8)),
    Row("≥100 a <125 cm²", FixedSide(3.1)),
    Row("≥125 a <150 cm²", FixedSide(3.4)),
    Row("≥150 a <200 cm²", FixedSide(3.9)),
    Row("≥200 a <250 cm²", FixedSide(4.4)),
    Row("≥250 a <300 cm²", FixedSide(4.8)),
    Row(Over300Label, FifteenPercentOfFace)
  ]

  /** Index of the first row labelled `key`, if any. */
  function FindRow(rows: seq<Row>, key: string): (r: Option<nat>)
    ensures r.Some? ==> r.value < |rows| && rows[r.value].area == key
    ensures r.Some? ==> forall j :: 0 <= j < r.value ==> rows[j].area != key
    ensures r.None? ==> forall j :: 0 <= j < |rows| ==> rows[j].area != key
  {
    if |rows| == 0 then None
    else if rows[0].area == key then Some(0)
    else
      match FindRow(rows[1..], key)
      case None => None
      case Some(i) => Some(i + 1)
  }

  /** The fixed side a row prescribes, if it prescribes one. */
  function FixedValue(m: MinimumSide): Option<real> {
    match m
    case FixedSide(cm) => Some(cm)
    case _ => None
  }

  /**
   `get_lado_sello`: the minimum seal side for the area range labelled
   `areaKey`. Above 300 cm² it needs the face width; for every other label it
   is the fixed side of the row with that label, and there is none for the
   range below 30 cm² or for a label the table does not have.
   */
  function SealSide(areaKey: string, faceWidth: Option<real>): (r: Option<real>)
    ensures areaKey == Over300Label ==> (r.Some? <==> faceWidth.Some?)
    ensures areaKey == Over300Label && faceWidth.Some? ==>
              IsRounding(FaceShare * faceWidth.value, r.value, TwoDecimals)
    ensures areaKey != Over300Label ==>
              (r.Some? <==> exists i :: 0 <= i < |Table| && Table[i].area == areaKey && Table[i].minimum.FixedSide?)
    ensures areaKey != Over300Label && r.Some? ==>
              exists i :: 0 <= i < |Table| && Table[i].area == areaKey && Table[i].minimum == FixedSide(r.value)
  {
    if areaKey == Over300Label then
      if faceWidth.None? then None
      else Some(RoundTo(FaceShare * faceWidth.value, TwoDecimals))
    else
      match FindRow(Table, areaKey)
      case None => None
      case Some(i) =>
        LabelsDistinct();
        FixedValue(Table[i].minimum)
  }

  /** No two rows of the table share a label. */
  lemma LabelsDistinct()
    ensures forall i, j :: 0 <= i < j < |Table| ==> Table[i].area != Table[j].area
  {
  }

  /** Every row except the last is answered with its own value, looked up by its label. */
  lemma EveryRowIsLookedUp(i: nat, faceWidth: Option<real>)
    requires i < |Table| && Table[i].area != Over300Label
    ensures SealSide(Table[i].area, faceWidth) == FixedValue(Table[i].minimum)
  {
    LabelsDistinct();
    var found := FindRow(Table, Table[i].area);
    assert found == Some(i);
  }

  /** Neither the range below 30 cm² nor a label outside the table yields a side. */
  lemma NoSideBelow30OrUnknown(areaKey: string, faceWidth: Option<real>)
    requires areaKey == Under30Label || forall i :: 0 <= i < |Table| ==> Table[i].area != areaKey
    ensures SealSide(areaKey, faceWidth).None?
  {
    if areaKey == Under30Label {
      EveryRowIsLookedUp(0, faceWidth);
    } else {
      assert Table[12].area != areaKey;
    }
  }

  /** The fixed minimums strictly increase down the table, from 1.7 cm to 4.8 cm. */
  lemma FixedSidesIncrease()
    ensures forall i :: 1 <= i <= 11 ==> Table[i].minimum.FixedSide?
    ensures Table[1].minimum.cm == 1.7 && Table[11].minimum.cm == 4.8
    ensures forall i, j :: 1 <= i < j <= 11 ==> Table[i].minimum.cm < Table[j].minimum.cm
  {
    forall i, j | 1 <= i < j <= 11
      ensures Table[i].minimum.cm < Table[j].minimum.cm
    {
      assert forall k :: 1 <= k < 11 ==> Table[k].minimum.cm < Table[k + 1].minimum.cm;
      StrictChain(i, j);
    }
  }

  lemma StrictChain(i: nat, j: nat)
    requires 1 <= i < j <= 11
    requires forall k :: 1 <= k < 11 ==> Table[k].minimum.cm < Table[k + 1].minimum.cm
    ensures Table[i].minimum.cm < Table[j].minimum.cm
    decreases j - i
  {
    if i + 1 < j {
      StrictChain(i + 1, j);
    }
  }

  /** A range of 100 to 125 cm² needs a 3.1 cm side; a face over 300 cm² that is 20 cm wide needs 3 cm. */
  lemma SealSideScenarios()
    ensures SealSide("≥100 a <125 cm²", None) == Some(3.1)
    ensures SealSide(Over300Label, Some(20.0)) == Some(3.0)
  {
    EveryRowIsLookedUp(7, None);
    assert FaceShare * 20.0 == 3.0;
    assert Whole(3.0 * TwoDecimals);
    RoundKeepsGridPoints(3.0, TwoDecimals);
  }

  /** A face width of 10.5 cm gives an exact share of 1.575 cm, halfway between hundredths; the side keeps the even one. */
  lemma HalfwaySideRoundsToEven()
    ensures SealSide(Over300Label, Some(10.5)) == Some(1.58)
  {
    assert FaceShare * 10.5 == 1.575;
    assert Whole(1.58 * TwoDecimals) && (1.58 * TwoDecimals).Floor == 158;
    RoundingIsUnique(1.575, SealSide(Over300Label, Some(10.5)).value, 1.58, TwoDecimals);
  }

  /** Width of `count` seals of side `side` set in a row with gaps of `spacing` between neighbours. */
  function RowWidth(count: nat, side: real, spacing: real): real
    requires count >= 1
  {
    if count == 1 then side else RowWidth(count - 1, side, spacing) + spacing + side
  }

  /** The closed formula n * side + (n - 1) * spacing measures the row of seals. */
  lemma {:induction false} RowWidthFormula(count: nat, side: real, spacing: real)
    requires count >= 1
    ensures RowWidth(count, side, spacing) == count as real * side + (count - 1) as real * spacing
  {
    if count > 1 {
      RowWidthFormula(count - 1, side, spacing);
    }
  }

  /** Estimated total width of the seals, rounded to two decimals. */
  function TotalWidth(count: nat, side: real, spacing: real): (w: real)
    requires count >= 1
    ensures IsRounding(RowWidth(count, side, spacing), w, TwoDecimals)
  {
    RowWidthFormula(count, side, spacing);
    RoundTo(count as real * side + (count - 1) as real * spacing, TwoDecimals)
  }

  /** One more seal never narrows the estimate, for non-negative side and spacing. */
  lemma MoreSealsNeverNarrower(count: nat, side: real, spacing: real)
    requires count >= 1 && side >= 0.0 && spacing >= 0.0
    ensures TotalWidth(count, side, spacing) <= TotalWidth(count + 1, side, spacing)
  {
    var narrow := count as real * side + (count - 1) as real * spacing;
    var wide := (count + 1) as real * side + count as real * spacing;
    assert wide - narrow == side + spacing;
    assert TotalWidth(count, side, spacing) == RoundTo(narrow, TwoDecimals);
    assert TotalWidth(count + 1, side, spacing) == RoundTo(wide, TwoDecimals);
    RoundMonotone(narrow, wide, TwoDecimals);
  }

  /** A single seal with a side from the table is exactly as wide as its side. */
  lemma SingleTableSealWidth(i: nat, spacing: real)
    requires 1 <= i <= 11
    ensures TotalWidth(1, Table[i].minimum.cm, spacing) == Table[i].minimum.cm
  {
    var cm := Table[i].minimum.cm;
    assert Whole(cm * TwoDecimals);
    RoundKeepsGridPoints(cm, TwoDecimals);
  }

  /**
   The calculator's result for one selection: the minimum side together with
   the estimated width of `count` seals, or nothing when no side is available.
   */
  function SizeEstimate(areaKey: string, faceWidth: Option<real>, count: nat, spacing: real): (r: Option<(real, real)>)
    requires count >= 1
    ensures r.Some? <==> SealSide(areaKey, faceWidth).Some?
    ensures r.Some? ==> r.value.0 == SealSide(areaKey, faceWidth).value
    ensures r.Some? ==> IsRounding(RowWidth(count, r.value.0, spacing), r.value.1, TwoDecimals)
  {
    match SealSide(areaKey, faceWidth)
    case None => None
    case Some(side) => Some((side, TotalWidth(count, side, spacing)))
  }
}
