/**
 Checklist answers and the compliance metric. Every checklist item holds one
 of four statuses (stored as "yes", "no", "na" or "none"); the metric is the
 share of compliant items among the answered ones (yes or no), in percent
 with one decimal, and 0 when nothing is answered.
 */
module Compliance {
  import opened Rounding

  datatype Status = Yes | No | NotApplicable | Unanswered

  /** The code under which the session stores a status. */
  function Code(s: Status): string {
    match s
    case Yes => "yes"
    case No => "no"
    case NotApplicable => "na"
    case Unanswered => "none"
  }

  /** Reads a stored code back; anything unrecognised counts as unanswered. */
  function ParseStatus(code: string): (s: Status)
    ensures s != Unanswered ==> Code(s) == code
  {
    if code == "yes" then Yes
    else if code == "no" then No
    else if code == "na" then NotApplicable
    else Unanswered
  }

  /** Storing a status and reading it back gives the same status. */
  lemma ParseCode(s: Status)
    ensures ParseStatus(Code(s)) == s
  {
  }

  /** The human-readable label of a status in the exported report. */
  function Label(s: Status): string {
    match s
    case Yes => "Cumple"
    case No => "No cumple"
    case NotApplicable => "No aplica"
    case Unanswered => "Sin responder"
  }

  /** The report's label for a stored code: the code's status, any other code reading as unanswered. */
  function StatusLabel(code: string): (text: string)
    ensures text == Label(ParseStatus(code))
    ensures text == "Cumple" <==> code == "yes"
    ensures text == "No cumple" <==> code == "no"
    ensures text == "No aplica" <==> code == "na"
    ensures text == "Sin responder" <==> code !in {"yes", "no", "na"}
  {
    if code == "yes" then "Cumple"
    else if code == "no" then "No cumple"
    else if code == "na" then "No aplica"
    else "Sin responder"
  }

  /** Distinct statuses get distinct labels. */
  lemma LabelInjective(a: Status, b: Status)
    requires Label(a) == Label(b)
    ensures a == b
  {
  }

  /** How many items hold status `s`. */
  function Count(statuses: seq<Status>, s: Status): (n: nat)
    ensures n == multiset(statuses)[s]
    ensures n <= |statuses|
  {
    if |statuses| == 0 then 0
    else
      assert statuses == [statuses[0]] + statuses[1..];
      (if statuses[0] == s then 1 else 0) + Count(statuses[1..], s)
  }

  /** The four counts account for every item. */
  lemma {:induction false} CountsCoverAllItems(statuses: seq<Status>)
    ensures Count(statuses, Yes) + Count(statuses, No)
            + Count(statuses, NotApplicable) + Count(statuses, Unanswered) == |statuses|
  {
    if |statuses| > 0 {
      CountsCoverAllItems(statuses[1..]);
    }
  }

  /** Counts the four statuses in one pass over the items. */
  method Tally(statuses: seq<Status>) returns (yes: nat, no: nat, notApplicable: nat, unanswered: nat)
    ensures yes == multiset(statuses)[Yes] && no == multiset(statuses)[No]
    ensures notApplicable == multiset(statuses)[NotApplicable] && unanswered == multiset(statuses)[Unanswered]
    ensures yes + no + notApplicable + unanswered == |statuses|
  {
    yes, no, notApplicable, unanswered := 0, 0, 0, 0;
    var i := 0;
    while i < |statuses|
      invariant i <= |statuses|
      invariant yes == multiset(statuses[..i])[Yes] && no == multiset(statuses[..i])[No]
      invariant notApplicable == multiset(statuses[..i])[NotApplicable]
      invariant unanswered == multiset(statuses[..i])[Unanswered]
      invariant yes + no + notApplicable + unanswered == i
    {
      assert statuses[..i + 1] == statuses[..i] + [statuses[i]];
      match statuses[i] {
        case Yes => yes := yes + 1;
        case No => no := no + 1;
        case NotApplicable => notApplicable := notApplicable + 1;
        case Unanswered => unanswered := unanswered + 1;
      }
      i := i + 1;
    }
    assert statuses[..i] == statuses;
  }

  /** Number of items answered yes or no. */
  function Answered(statuses: seq<Status>): nat {
    Count(statuses, Yes) + Count(statuses, No)
  }

  /**
   The compliance metric from the two answered counts: compliant over
   answered, in percent, rounded to one decimal; 0 when nothing is answered.
   */
  function PercentFromCounts(yes: nat, no: nat): (pct: real)
    ensures 0.0 <= pct <= 100.0
    ensures OnGrid(pct, OneDecimal)
    ensures yes + no > 0 ==>
              IsRounding(100.0 * yes as real / (yes + no) as real, pct, OneDecimal)
    ensures yes == 0 ==> pct == 0.0
    ensures yes > 0 && no == 0 ==> pct == 100.0
  {
    var answered := yes + no;
    if answered > 0 then
      var ratio := yes as real / answered as real * 100.0;
      ShareBounds(yes, answered);
      assert Whole(0.0 * OneDecimal) && Whole(100.0 * OneDecimal);
      RoundStaysBetween(ratio, 0.0, 100.0, OneDecimal);
      if yes == 0 then
        RoundKeepsGridPoints(0.0, OneDecimal);
        RoundTo(ratio, OneDecimal)
      else if yes == answered then
        RoundKeepsGridPoints(100.0, OneDecimal);
        RoundTo(ratio, OneDecimal)
      else
        RoundTo(ratio, OneDecimal)
    else
      assert Whole(0.0 * OneDecimal);
      0.0
  }

  /** The compliance metric of a checklist: 0 when no item is answered yes or no. */
  function CompliancePercent(statuses: seq<Status>): (pct: real)
    ensures 0.0 <= pct <= 100.0
    ensures Answered(statuses) == 0 ==> pct == 0.0
    ensures Answered(statuses) > 0 ==>
              IsRounding(100.0 * multiset(statuses)[Yes] as real / Answered(statuses) as real, pct, OneDecimal)
    ensures (forall i :: 0 <= i < |statuses| ==> statuses[i] != No) && Yes in statuses ==> pct == 100.0
  {
    PercentFromCounts(Count(statuses, Yes), Count(statuses, No))
  }

  /** A part of a positive whole is between 0% and 100% of it. */
  lemma ShareBounds(part: nat, whole: nat)
    requires 0 < whole && part <= whole
    ensures 0.0 <= part as real / whole as real * 100.0 <= 100.0
    ensures part as real / whole as real * 100.0 == 100.0 * part as real / whole as real
    ensures part == 0 ==> part as real / whole as real * 100.0 == 0.0
    ensures part == whole ==> part as real / whole as real * 100.0 == 100.0
  {
    var p := part as real;
    var w := whole as real;
    MulDivSwap(p, w, 100.0);
    UnscaleMonotone(0.0, p, w);
    UnscaleMonotone(p, w, w);
    var q := p / w;
    assert 0.0 <= q <= 1.0;
    ScaleMonotone(0.0, q, 100.0);
    ScaleMonotone(q, 1.0, 100.0);
  }

  /** The metric depends only on how many items hold each status, not on their order. */
  lemma OrderIrrelevant(a: seq<Status>, b: seq<Status>)
    requires multiset(a) == multiset(b)
    ensures CompliancePercent(a) == CompliancePercent(b)
  {
    assert Count(a, Yes) == Count(b, Yes);
    assert Count(a, No) == Count(b, No);
  }

  /** With every item answered yes, the metric is 100%; with every item answered no, it is 0%. */
  lemma UnanimousAnswers(statuses: seq<Status>)
    requires |statuses| > 0
    ensures (forall i :: 0 <= i < |statuses| ==> statuses[i] == Yes) ==> CompliancePercent(statuses) == 100.0
    ensures (forall i :: 0 <= i < |statuses| ==> statuses[i] == No) ==> CompliancePercent(statuses) == 0.0
  {
    if forall i :: 0 <= i < |statuses| ==> statuses[i] == Yes {
      assert statuses[0] in statuses;
    }
  }

  /** Adding a not-applicable or unanswered item anywhere leaves the metric unchanged. */
  lemma NeutralStatusIgnored(before: seq<Status>, s: Status, after: seq<Status>)
    requires s == NotApplicable || s == Unanswered
    ensures CompliancePercent(before + [s] + after) == CompliancePercent(before + after)
  {
    var with := before + [s] + after;
    var without := before + after;
    assert multiset(with) == multiset(without) + multiset{s};
    assert Count(with, Yes) == Count(without, Yes);
    assert Count(with, No) == Count(without, No);
  }

  /**
   With sixteen items answered, an odd number of yes answers puts the exact
   share halfway between two tenths; the metric keeps the even tenth.
   */
  lemma HalfwayPercentsRoundToEven()
    ensures PercentFromCounts(1, 15) == 6.2
    ensures PercentFromCounts(3, 13) == 18.8
  {
    assert 100.0 * 1.0 / 16.0 == 6.25;
    assert Whole(6.2 * OneDecimal) && (6.2 * OneDecimal).Floor == 62;
    RoundingIsUnique(6.25, PercentFromCounts(1, 15), 6.2, OneDecimal);
    assert 100.0 * 3.0 / 16.0 == 18.75;
    assert Whole(18.8 * OneDecimal) && (18.8 * OneDecimal).Floor == 188;
    RoundingIsUnique(18.75, PercentFromCounts(3, 13), 18.8, OneDecimal);
  }
}
