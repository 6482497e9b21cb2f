/**
 * The precision radio group (frontend/src/components/PrecisionSelector.tsx),
 * without the rendering: which options are shown, in what order, which one is
 * checked, which are disabled, what each is labelled and what choosing it reports.
 */
module PrecisionSelector {
  import opened Precision

  /** allPrecisions: the fixed display order, coarsest first. */
  const AllPrecisions: seq<PrecisionLevel> := [VAGUE, NARROW, EXACT]

  /** isDisabled: the whole selector is disabled, or the tier is not on offer. */
  function IsDisabled(disabled: bool, available: seq<PrecisionLevel>, p: PrecisionLevel): (r: bool)
    ensures disabled ==> r
    ensures !disabled ==> (r <==> p !in available)
  {
    disabled || p !in available
  }

  /** One rendered radio input: its value, checked and disabled states, label, and what onChange reports. */
  datatype RadioOption = RadioOption(
    value: PrecisionLevel,
    checked: bool,
    disabled: bool,
    text: string,
    onChangeReports: PrecisionLevel)

  function DigitChar(d: nat): (c: char)
    requires d < 10
    ensures '0' <= c <= '9'
    ensures c as int - '0' as int == d
  {
    "0123456789"[d]
  }

  /** How JavaScript prints a non-negative integer: its decimal digits, most significant first. */
  function Decimal(n: nat): (s: string)
    ensures |s| > 0
    ensures forall i :: 0 <= i < |s| ==> '0' <= s[i] <= '9'
    ensures s[0] != '0' || n == 0
    decreases n
  {
    if n < 10 then [DigitChar(n)] else Decimal(n / 10) + [DigitChar(n % 10)]
  }

  /** The number a string of decimal digits denotes. */
  function DecimalValue(s: string): nat
    requires forall i :: 0 <= i < |s| ==> '0' <= s[i] <= '9'
  {
    if s == [] then 0
    else 10 * DecimalValue(s[..|s| - 1]) + (s[|s| - 1] as int - '0' as int)
  }

  /** Printing a number in decimal loses nothing: the digits denote the number. */
  lemma {:induction false} DecimalRoundTrip(n: nat)
    ensures DecimalValue(Decimal(n)) == n
    decreases n
  {
    var s := Decimal(n);
    if n >= 10 {
      DecimalRoundTrip(n / 10);
      assert s[..|s| - 1] == Decimal(n / 10);
    }
  }

  /** "{points} point" for exactly one point, "{points} points" otherwise. */
  function PointsLabel(points: nat): (l: string)
    ensures |l| > |Decimal(points)| + 1
    ensures l[..|Decimal(points)|] == Decimal(points) && l[|Decimal(points)|] == ' '
    ensures l[|l| - 1] == 's' <==> points != 1
  {
    Decimal(points) + " " + (if points == 1 then "point" else "points")
  }

  /** After the number and the space comes the word: "point" for one, "points" otherwise. */
  lemma PointsLabelWord(points: nat)
    ensures PointsLabel(points)[|Decimal(points)| + 1..] == (if points == 1 then "point" else "points")
  {
    var d := Decimal(points) + " ";
    assert PointsLabel(points)[|d|..] == (if points == 1 then "point" else "points");
  }

  lemma ConfiguredLabels()
    ensures PointsLabel(Points(VAGUE)) == "5 points"
    ensures PointsLabel(Points(NARROW)) == "10 points"
    ensures PointsLabel(Points(EXACT)) == "25 points"
  {
    assert DigitChar(0) == '0' && DigitChar(1) == '1' && DigitChar(2) == '2' && DigitChar(5) == '5';
    assert Decimal(5) == "5";
    assert Decimal(10) == Decimal(1) + [DigitChar(0)] == "10";
    assert Decimal(25) == Decimal(2) + [DigitChar(5)] == "25";
  }

  function RenderOption(
    selected: PrecisionLevel, available: seq<PrecisionLevel>, disabled: bool, p: PrecisionLevel)
    : (o: RadioOption)
    ensures o.value == p && o.onChangeReports == p
    ensures o.checked <==> selected == p
    ensures o.disabled <==> disabled || p !in available
    ensures o.text == PointsLabel(Points(p))
  {
    RadioOption(p, selected == p, IsDisabled(disabled, available, p), PointsLabel(Points(p)), p)
  }

  /** `allPrecisions.map(...)`: one option per tier in the fixed order. */
  function Options(selected: PrecisionLevel, available: seq<PrecisionLevel>, disabled: bool)
    : (opts: seq<RadioOption>)
    ensures |opts| == |AllPrecisions|
    ensures forall i :: 0 <= i < |opts| ==> opts[i].value == AllPrecisions[i]
    ensures forall i :: 0 <= i < |opts| ==>
      opts[i].onChangeReports == opts[i].value && opts[i].text == PointsLabel(Points(opts[i].value))
    ensures forall i :: 0 <= i < |opts| ==>
      (opts[i].checked <==> opts[i].value == selected)
    ensures forall i :: 0 <= i < |opts| ==>
      (opts[i].disabled <==> disabled || opts[i].value !in available)
  {
    seq(|AllPrecisions|, i requires 0 <= i < |AllPrecisions| =>
      RenderOption(selected, available, disabled, AllPrecisions[i]))
  }

  /** Every tier is shown, and none twice. */
  lemma EveryTierShownOnce()
    ensures forall p :: p in AllPrecisions
    ensures forall i, j :: 0 <= i < j < |AllPrecisions| ==> AllPrecisions[i] != AllPrecisions[j]
  {
    forall p ensures p in AllPrecisions {
      match p
      case VAGUE => assert AllPrecisions[0] == p;
      case NARROW => assert AllPrecisions[1] == p;
      case EXACT => assert AllPrecisions[2] == p;
    }
  }

  /** The order and the labels do not depend on what is on offer or on the selection. */
  lemma OrderIndependentOfOffer(
    s1: PrecisionLevel, a1: seq<PrecisionLevel>, d1: bool,
    s2: PrecisionLevel, a2: seq<PrecisionLevel>, d2: bool, i: nat)
    requires i < |AllPrecisions|
    ensures Options(s1, a1, d1)[i].value == Options(s2, a2, d2)[i].value
    ensures Options(s1, a1, d1)[i].text == Options(s2, a2, d2)[i].text
  {
  }

  /** Exactly one option is checked: the selected tier. */
  lemma ExactlyOneChecked(selected: PrecisionLevel, available: seq<PrecisionLevel>, disabled: bool)
    ensures var opts := Options(selected, available, disabled);
      && (exists i :: 0 <= i < |opts| && opts[i].checked)
      && (forall i, j :: 0 <= i < |opts| && 0 <= j < |opts| && opts[i].checked && opts[j].checked ==> i == j)
  {
    var opts := Options(selected, available, disabled);
    var k := match selected case VAGUE => 0 case NARROW => 1 case EXACT => 2;
    assert opts[k].checked;
  }

  /** With the disabled flag set, no option can be chosen. */
  lemma DisabledDisablesAll(selected: PrecisionLevel, available: seq<PrecisionLevel>)
    ensures forall i :: 0 <= i < |Options(selected, available, true)| ==>
      Options(selected, available, true)[i].disabled
  {
  }

  /**
   * Fed the offer of a scored guess, the selector enables exactly the tiers
   * finer than the one just achieved, and nothing after a miss.
   */
  lemma EnabledAfterEvaluation(distanceKm: real, requested: PrecisionLevel, selected: PrecisionLevel)
    ensures var e := Evaluate(distanceKm, requested);
      forall i :: 0 <= i < |Options(selected, e.availablePrecisions, false)| ==>
        (!Options(selected, e.availablePrecisions, false)[i].disabled <==>
          e.isCorrect && RadiusKm(AllPrecisions[i]) < RadiusKm(requested))
  {
  }
}
