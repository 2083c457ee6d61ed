/**
 The two pure per-event rules of the map: the fill colour chosen from an
 event's depth (in kilometres) and the circle radius chosen from its magnitude.
 */
module Markers {
  import opened Colors

  /** The exclusive lower bounds of the five upper depth bands, ascending. */
  const Thresholds: seq<int> := [10, 30, 50, 70, 90]

  /**
   The depth classifier: the first of the strict tests `depth > 90`, `> 70`,
   `> 50`, `> 30`, `> 10` that holds picks the colour; otherwise green.
   */
  function GetColor(depth: real): (c: Color)
    ensures Hex(c) in Palette
  {
    if depth > 90.0 then Red
    else if depth > 70.0 then OrangeRed
    else if depth > 50.0 then Orange
    else if depth > 30.0 then Yellow
    else if depth > 10.0 then LightGreen
    else Green
  }

  /** Reference definition: how many of the thresholds `ts` lie strictly below `d`. */
  function Exceeded(ts: seq<int>, d: real): (n: nat)
    ensures n <= |ts|
  {
    if |ts| == 0 then 0
    else (if (ts[0] as real) < d then 1 else 0) + Exceeded(ts[1..], d)
  }

  ghost predicate StrictlyIncreasing(ts: seq<int>)
  {
    forall i, j :: 0 <= i < j < |ts| ==> ts[i] < ts[j]
  }

  /** Raising the depth never lowers the count of thresholds passed. */
  lemma {:induction false} ExceededMonotone(ts: seq<int>, d1: real, d2: real)
    requires d1 <= d2
    ensures Exceeded(ts, d1) <= Exceeded(ts, d2)
  {
    if |ts| > 0 {
      ExceededMonotone(ts[1..], d1, d2);
    }
  }

  /**
   For strictly increasing thresholds, a depth in the half-open band
   (ts[k-1], ts[k]] has passed exactly `k` of them; the outer bands are
   open-ended below (k = 0) and above (k = |ts|).
   */
  lemma {:induction false} ExceededInBand(ts: seq<int>, k: nat, d: real)
    requires StrictlyIncreasing(ts)
    requires k <= |ts|
    requires k > 0 ==> (ts[k - 1] as real) < d
    requires k < |ts| ==> d <= (ts[k] as real)
    ensures Exceeded(ts, d) == k
  {
    if |ts| > 0 {
      var rest := ts[1..];
      assert StrictlyIncreasing(rest) by {
        forall i, j | 0 <= i < j < |rest| ensures rest[i] < rest[j] {
          assert rest[i] == ts[i + 1] && rest[j] == ts[j + 1];
        }
      }
      if k > 0 {
        assert ts[0] <= ts[k - 1];
        if k - 1 > 0 {
          assert rest[k - 2] == ts[k - 1];
        }
        if k - 1 < |rest| {
          assert rest[k - 1] == ts[k];
        }
        ExceededInBand(rest, k - 1, d);
      } else {
        assert d <= (ts[0] as real);
        if 0 < |rest| {
          assert rest[0] == ts[1];
        }
        ExceededInBand(rest, 0, d);
      }
    }
  }

  /** The band of `GetColor(d)` is the number of thresholds `d` exceeds. */
  lemma GetColorCountsThresholds(d: real)
    ensures Rank(GetColor(d)) == Exceeded(Thresholds, d)
  {
    assert StrictlyIncreasing(Thresholds);
    var k := Rank(GetColor(d));
    ExceededInBand(Thresholds, k, d);
  }

  /**
   The band rules with exclusive lower bounds, in both directions: a depth
   of exactly 90 is orange-red and a depth of exactly 10 (or any negative
   depth) is green.
   */
  lemma BandRules(d: real)
    ensures GetColor(d) == Red <==> d > 90.0
    ensures GetColor(d) == OrangeRed <==> 70.0 < d <= 90.0
    ensures GetColor(d) == Orange <==> 50.0 < d <= 70.0
    ensures GetColor(d) == Yellow <==> 30.0 < d <= 50.0
    ensures GetColor(d) == LightGreen <==> 10.0 < d <= 30.0
    ensures GetColor(d) == Green <==> d <= 10.0
  {
  }

  /** Deeper events never get a shallower-band colour. */
  lemma GetColorMonotone(d1: real, d2: real)
    requires d1 <= d2
    ensures Rank(GetColor(d1)) <= Rank(GetColor(d2))
  {
    GetColorCountsThresholds(d1);
    GetColorCountsThresholds(d2);
    ExceededMonotone(Thresholds, d1, d2);
  }

  /**
   The radius rule: four pixels per unit of magnitude, except that a
   magnitude of exactly zero is drawn with radius 1 so it stays visible.
   Negative magnitudes are not guarded against.
   */
  function GetRadius(magnitude: real): (r: real)
    ensures magnitude > 0.0 ==> r > 0.0
    ensures magnitude != 0.0 ==> r / 4.0 == magnitude
  {
    if magnitude == 0.0 then 1.0 else magnitude * 4.0
  }

  /** Away from zero the radius is linear and recovers the magnitude. */
  lemma RadiusRule(m: real)
    ensures GetRadius(0.0) == 1.0
    ensures m != 0.0 ==> GetRadius(m) == 4.0 * m && GetRadius(m) / 4.0 == m
  {
  }

  /** On positive magnitudes the radius is positive and strictly increasing. */
  lemma RadiusPositiveIncreasing(m1: real, m2: real)
    requires 0.0 < m1 < m2
    ensures 0.0 < GetRadius(m1) < GetRadius(m2)
  {
  }

  /**
   Consequences of the zero special case and the missing guard: magnitude
   0 is drawn larger than magnitude 0.1 and as large as magnitude 0.25, and
   every negative magnitude yields a negative radius.
   */
  lemma RadiusEdgeCases(m: real)
    ensures GetRadius(0.0) > GetRadius(0.1)
    ensures GetRadius(0.0) == GetRadius(0.25)
    ensures m < 0.0 ==> GetRadius(m) < 0.0
  {
  }
}
