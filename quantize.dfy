/**
 * get_closest_round_angle: the nearest of the 25 candidates 0, 15, ..., 360
 * by absolute difference, the first one in the list winning a tie (numpy's
 * argmin returns the first minimum), with 360 folded to 0.
 */
module Quantize {

  /** `round_angles`, in the order the source lists them. */
  const RoundAngles: seq<int> := [
    0, 15, 30, 45, 60, 75, 90,
    105, 120, 135, 150, 165, 180,
    195, 210, 225, 240, 255, 270,
    285, 300, 315, 330, 345, 360
  ]

  /** The candidate at index i is 15 * i. */
  lemma RoundAnglesAreMultiples()
    ensures |RoundAngles| == 25
    ensures forall i :: 0 <= i < |RoundAngles| ==> RoundAngles[i] == 15 * i
  {
    assert RoundAngles == seq(25, i => 15 * i);
  }

  function Abs(x: real): real {
    if x < 0.0 then -x else x
  }

  /** `np.abs(np.array([angle - c for c in round_angles]))`. */
  function AbsDifferences(angle: real): (d: seq<real>)
    ensures |d| == |RoundAngles|
  {
    seq(|RoundAngles|, i requires 0 <= i < |RoundAngles| => Abs(angle - RoundAngles[i] as real))
  }

  /** numpy's argmin: the index of the smallest element, the first one when
      several are equally small. */
  function ArgMin(xs: seq<real>): (k: nat)
    requires |xs| > 0
    ensures k < |xs|
    ensures forall j :: 0 <= j < |xs| ==> xs[k] <= xs[j]
    ensures forall j :: 0 <= j < k ==> xs[k] < xs[j]
    decreases |xs|
  {
    if |xs| == 1 then 0
    else
      var k := ArgMin(xs[..|xs| - 1]);
      if xs[|xs| - 1] < xs[k] then |xs| - 1 else k
  }

  /** get_closest_round_angle(angle): always one of the 24 multiples of 15
      in [0, 345], never 360. */
  function ClosestRoundAngle(angle: real): (r: int)
    ensures 0 <= r <= 345 && r % 15 == 0
  {
    RoundAnglesAreMultiples();
    var closest := RoundAngles[ArgMin(AbsDifferences(angle))];
    if closest == 360 then 0 else closest
  }

  /** An independent statement of the same rounding: the index of the
      nearest multiple of 15, ceiling(angle / 15 - 1/2) (so that a midpoint
      goes to the smaller multiple), clamped to the candidates 0..24. */
  function NearestIndex(angle: real): int {
    var up := -((0.5 - angle / 15.0).Floor);
    if up < 0 then 0 else if up > 24 then 24 else up
  }

  /** Round to the nearest multiple of 15, halves down, 360 read as 0. */
  function RoundHalfDown(angle: real): int {
    var k := NearestIndex(angle);
    if k == 24 then 0 else 15 * k
  }

  /** The reference index is a first minimum of the differences. */
  lemma NearestIndexIsFirstMinimum(angle: real)
    ensures 0 <= NearestIndex(angle) < |RoundAngles|
    ensures var d := AbsDifferences(angle); var m := NearestIndex(angle);
            forall j :: 0 <= j < |d| ==> d[m] <= d[j] && (j < m ==> d[m] < d[j])
  {
    RoundAnglesAreMultiples();
    var d := AbsDifferences(angle);
    var m := NearestIndex(angle);
    var f := (0.5 - angle / 15.0).Floor;
    var up := -f;
    assert f as real <= 0.5 - angle / 15.0 < f as real + 1.0;
    assert 15.0 * up as real - 7.5 < angle <= 15.0 * up as real + 7.5;
    forall j | 0 <= j < |d|
      ensures d[m] <= d[j] && (j < m ==> d[m] < d[j])
    {
      assert d[j] == Abs(angle - 15.0 * j as real);
      assert d[m] == Abs(angle - 15.0 * m as real);
    }
  }

  /** A sequence has only one first minimum. */
  lemma FirstMinimumIsUnique(xs: seq<real>, k: nat, m: nat)
    requires k < |xs| && m < |xs|
    requires forall j :: 0 <= j < |xs| ==> xs[k] <= xs[j] && (j < k ==> xs[k] < xs[j])
    requires forall j :: 0 <= j < |xs| ==> xs[m] <= xs[j] && (j < m ==> xs[m] < xs[j])
    ensures k == m
  {
    assert xs[k] <= xs[m] && xs[m] <= xs[k];
  }

  /** The argmin scan and rounding to the nearest multiple of 15 with
      halves going down agree on every real angle. */
  lemma {:induction false} ClosestIsRoundHalfDown(angle: real)
    ensures ClosestRoundAngle(angle) == RoundHalfDown(angle)
  {
    RoundAnglesAreMultiples();
    var d := AbsDifferences(angle);
    NearestIndexIsFirstMinimum(angle);
    FirstMinimumIsUnique(d, ArgMin(d), NearestIndex(angle));
  }

  /** Midpoints go to the smaller candidate (7.5 to 0, 352.5 to 345), and
      358 is nearest to 360, which folds to 0. */
  lemma {:induction false} TieBreaksAndWrapAround()
    ensures ClosestRoundAngle(7.5) == 0
    ensures ClosestRoundAngle(352.5) == 345
    ensures ClosestRoundAngle(358.0) == 0
  {
    ClosestIsRoundHalfDown(7.5);
    ClosestIsRoundHalfDown(352.5);
    ClosestIsRoundHalfDown(358.0);
  }

  /** Every round angle 0, 15, ..., 345 maps to itself. */
  lemma {:induction false} RoundAnglesAreFixedPoints(k: int)
    requires 0 <= k < 24
    ensures ClosestRoundAngle(15.0 * k as real) == 15 * k
  {
    ClosestIsRoundHalfDown(15.0 * k as real);
    assert (0.5 - (15.0 * k as real) / 15.0).Floor == -k;
  }

  /** Quantizing a quantized angle changes nothing. */
  lemma {:induction false} QuantizeIsIdempotent(angle: real)
    ensures ClosestRoundAngle(ClosestRoundAngle(angle) as real) == ClosestRoundAngle(angle)
  {
    var r := ClosestRoundAngle(angle);
    var k := r / 15;
    assert r == 15 * k && 0 <= k < 24;
    RoundAnglesAreFixedPoints(k);
    assert r as real == 15.0 * k as real;
  }
}
