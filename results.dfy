/**
 * The results dialog shown when a practice ends: the elapsed time, the colour
 * and width of the progress bar against the test's goal, the axis and goal
 * marker, and the verdict.
 */
module Results {
  import opened Options
  import opened Text

  /** `formatTime`: whole minutes, a colon, and the seconds padded to two digits; reading them back gives the time. */
  function FormatElapsed(seconds: nat): (r: string)
    ensures |r| == |NatToString(seconds / 60)| + 3 && r[|r| - 3] == ':'
    ensures AllDigits(r[..|r| - 3]) && AllDigits(r[|r| - 2..])
    ensures DigitsValue(r[..|r| - 3]) * 60 + DigitsValue(r[|r| - 2..]) == seconds
    ensures DigitsValue(r[|r| - 2..]) < 60
  {
    var mm := NatToString(seconds / 60);
    var ss := PadZeros(NatToString(seconds % 60), 2);
    assert |ss| == 2;
    var r := mm + ":" + ss;
    assert r[..|r| - 3] == mm;
    assert r[|r| - 2..] == ss;
    r
  }

  /** The goal of a selected test. */
  datatype TestInfo = TestInfo(minutos: nat, minimoPalabras: nat, nombre: string)

  datatype BarColor =
    | Gray
    | Red | RedOrange | OrangeYellow | Yellow
    | LightGreen | MediumGreen | BrightGreen | DeepGreen

  /**
   * A JavaScript number produced by `a / b * 100` for naturals `a`, `b`: the
   * rational `num / den` when `b > 0`, `Infinity` for `a > 0 = b`, `NaN` for `0 / 0`.
   */
  datatype Percent = Ratio(num: nat, den: nat) | Infinite | NotANumber

  /** `(correct / minimo) * 100`. */
  function ProgressPercent(correct: nat, minimo: nat): (p: Percent)
    ensures minimo > 0 ==> p == Ratio(100 * correct, minimo)
    ensures minimo == 0 ==> (p == NotANumber <==> correct == 0)
    ensures minimo == 0 ==> (p == Infinite <==> correct > 0)
  {
    if minimo == 0 then (if correct == 0 then NotANumber else Infinite)
    else Ratio(100 * correct, minimo)
  }

  /** `p <= bound`: false for `NaN`, and for `Infinity` against a finite bound. */
  predicate AtMost(p: Percent, bound: nat) {
    p.Ratio? && p.den > 0 && p.num <= bound * p.den
  }

  /** `getProgressBarColor`: gray without a test, otherwise red to yellow up to 100% and ever deeper green above. */
  function ProgressBarColor(testInfo: Option<TestInfo>, correct: nat): (c: BarColor)
    ensures c == Gray <==> testInfo.None?
  {
    if testInfo.None? then Gray
    else
      var p := ProgressPercent(correct, testInfo.value.minimoPalabras);
      if AtMost(p, 100) then
        if AtMost(p, 25) then Red
        else if AtMost(p, 50) then RedOrange
        else if AtMost(p, 75) then OrangeYellow
        else Yellow
      else if AtMost(p, 125) then LightGreen
      else if AtMost(p, 150) then MediumGreen
      else if AtMost(p, 200) then BrightGreen
      else DeepGreen
  }

  /** The inclusive upper bounds of the colour buckets, in percent. */
  const THRESHOLDS: seq<nat> := [25, 50, 75, 100, 125, 150, 200]

  /** The colour of each bucket; the last one is for everything above 200%. */
  const BUCKETS: seq<BarColor> :=
    [Red, RedOrange, OrangeYellow, Yellow, LightGreen, MediumGreen, BrightGreen, DeepGreen]

  /** How many of the bounds `p` exceeds. */
  function Exceeded(p: Percent, bounds: seq<nat>): (n: nat)
    ensures n <= |bounds|
  {
    if bounds == [] then 0 else (if AtMost(p, bounds[0]) then 0 else 1) + Exceeded(p, bounds[1..])
  }

  /** When `p` exceeds exactly the first `i` bounds, it exceeds `i` of them. */
  lemma {:induction false} ExceededSorted(p: Percent, bounds: seq<nat>, i: nat)
    requires i <= |bounds|
    requires forall k :: 0 <= k < i ==> !AtMost(p, bounds[k])
    requires forall k :: i <= k < |bounds| ==> AtMost(p, bounds[k])
    ensures Exceeded(p, bounds) == i
  {
    if bounds != [] {
      if i > 0 {
        ExceededSorted(p, bounds[1..], i - 1);
      } else {
        ExceededSorted(p, bounds[1..], 0);
      }
    }
  }

  /**
   * With a test, exactly one bucket is chosen: the one whose index is the number
   * of bounds the percentage exceeds (so `NaN` and `Infinity` fall in the last).
   */
  lemma ColorByThresholds(info: TestInfo, correct: nat)
    ensures ProgressBarColor(Some(info), correct)
         == BUCKETS[Exceeded(ProgressPercent(correct, info.minimoPalabras), THRESHOLDS)]
  {
    var p := ProgressPercent(correct, info.minimoPalabras);
    var i := if AtMost(p, 25) then 0 else if AtMost(p, 50) then 1 else if AtMost(p, 75) then 2
      else if AtMost(p, 100) then 3 else if AtMost(p, 125) then 4 else if AtMost(p, 150) then 5
      else if AtMost(p, 200) then 6 else 7;
    ExceededSorted(p, THRESHOLDS, i);
  }

  /** `Math.min(p, bound)`. */
  function MinPercent(p: Percent, bound: nat): Percent {
    if p.NotANumber? then NotANumber else if AtMost(p, bound) then p else Ratio(bound, 1)
  }

  /** The bar's width, `min(correct / minimo * 100, 100)` percent: within 0 to 100 whenever the goal is positive. */
  function BarWidth(correct: nat, minimo: nat): (w: Percent)
    ensures minimo > 0 ==> w.Ratio? && w.den > 0 && w.num <= 100 * w.den
    ensures minimo > 0 && correct <= minimo ==> w == ProgressPercent(correct, minimo)
    ensures minimo > 0 && correct >= minimo ==> w.num == 100 * w.den
  {
    MinPercent(ProgressPercent(correct, minimo), 100)
  }

  /** The right end of the axis, `Math.max(minimo, correct)`. */
  function AxisMax(correct: nat, minimo: nat): (m: nat)
    ensures m >= correct && m >= minimo && (m == correct || m == minimo)
  {
    if minimo >= correct then minimo else correct
  }

  /** The goal marker's offset, `minimo / AxisMax * 100` percent: never past the right end. */
  function GoalOffset(correct: nat, minimo: nat): (p: Percent)
    ensures p.Ratio? ==> p.den > 0 && p.num <= 100 * p.den
    ensures minimo > 0 ==> p.Ratio?
    ensures minimo > 0 && correct <= minimo ==> p.num == 100 * p.den
  {
    var m := AxisMax(correct, minimo);
    if m == 0 then NotANumber else Ratio(100 * minimo, m)
  }

  datatype Verdict = Excellent | Approved | Shortfall(missing: nat)

  /**
   * The closing message: approved from the goal on, excellent from one and a
   * half times the goal on (which is always also approved), and otherwise the
   * positive number of words still missing.
   */
  function Grade(correct: nat, minimo: nat): (v: Verdict)
    ensures v.Shortfall? <==> correct < minimo
    ensures v == Excellent <==> 2 * correct >= 3 * minimo
    ensures v == Excellent ==> correct >= minimo
    ensures v.Shortfall? ==> v.missing > 0 && correct + v.missing == minimo
  {
    if correct >= minimo then
      if 2 * correct >= 3 * minimo then Excellent else Approved
    else Shortfall(minimo - correct)
  }
}
