/**
 * The center of buoyancy: the per-coordinate mean of the points of a cloud
 * that lie at or below the waterline.
 */
module Buoyancy {
  import opened Geometry
  import opened Outcomes
  import opened Arith

  /** `points[points[:, 2] <= z_level]`: the submerged points, in cloud order. */
  function Submerged(points: seq<Vec3>, zLevel: real): (r: seq<Vec3>)
    ensures |r| <= |points|
    ensures forall i :: 0 <= i < |r| ==> r[i].z <= zLevel
  {
    if points == [] then []
    else (if points[0].z <= zLevel then [points[0]] else []) + Submerged(points[1..], zLevel)
  }

  /** Each submerged point appears as often as in the cloud; every other point not at all. */
  lemma {:induction false} SubmergedMultiplicity(points: seq<Vec3>, zLevel: real)
    ensures forall p :: multiset(Submerged(points, zLevel))[p] == if p.z <= zLevel then multiset(points)[p] else 0
  {
    if points != [] {
      SubmergedMultiplicity(points[1..], zLevel);
      assert points == [points[0]] + points[1..];
    }
  }

  /** Filtering twice by the same level keeps the same points. */
  lemma {:induction false} SubmergedIdempotent(points: seq<Vec3>, zLevel: real)
    ensures Submerged(Submerged(points, zLevel), zLevel) == Submerged(points, zLevel)
  {
    if points != [] {
      SubmergedIdempotent(points[1..], zLevel);
      var head := if points[0].z <= zLevel then [points[0]] else [];
      SubmergedAppend(head, Submerged(points[1..], zLevel), zLevel);
    }
  }

  lemma {:induction false} SubmergedAppend(a: seq<Vec3>, b: seq<Vec3>, zLevel: real)
    ensures Submerged(a + b, zLevel) == Submerged(a, zLevel) + Submerged(b, zLevel)
  {
    if a != [] {
      assert (a + b)[1..] == a[1..] + b;
      SubmergedAppend(a[1..], b, zLevel);
    } else {
      assert a + b == b;
    }
  }

  /** The sum of one coordinate over a sequence of points. */
  function SumAt(s: seq<Vec3>, a: Axis): real {
    if s == [] then 0.0 else SumAt(s[..|s| - 1], a) + s[|s| - 1].At(a)
  }

  /** `np.mean(points, axis=0)` of a non-empty sequence. */
  function Mean(s: seq<Vec3>): Vec3
    requires |s| > 0
  {
    Vec3(SumAt(s, 0) / |s| as real, SumAt(s, 1) / |s| as real, SumAt(s, 2) / |s| as real)
  }

  /** The smallest value of one coordinate over a non-empty sequence. */
  function MinAt(s: seq<Vec3>, a: Axis): (m: real)
    requires |s| > 0
    ensures forall i :: 0 <= i < |s| ==> m <= s[i].At(a)
    ensures exists i :: 0 <= i < |s| && s[i].At(a) == m
  {
    if |s| == 1 then s[0].At(a)
    else
      var rest := MinAt(s[1..], a);
      assert forall i :: 1 <= i < |s| ==> s[i] == s[1..][i - 1];
      if s[0].At(a) <= rest then s[0].At(a) else rest
  }

  /** The largest value of one coordinate over a non-empty sequence. */
  function MaxAt(s: seq<Vec3>, a: Axis): (m: real)
    requires |s| > 0
    ensures forall i :: 0 <= i < |s| ==> s[i].At(a) <= m
    ensures exists i :: 0 <= i < |s| && s[i].At(a) == m
  {
    if |s| == 1 then s[0].At(a)
    else
      var rest := MaxAt(s[1..], a);
      assert forall i :: 1 <= i < |s| ==> s[i] == s[1..][i - 1];
      if s[0].At(a) >= rest then s[0].At(a) else rest
  }

  /** If a coordinate stays within `[lo, hi]` over the sequence, its sum stays within `[n lo, n hi]`. */
  lemma {:induction false} SumBetween(s: seq<Vec3>, a: Axis, lo: real, hi: real)
    requires forall i :: 0 <= i < |s| ==> lo <= s[i].At(a) <= hi
    ensures |s| as real * lo <= SumAt(s, a) <= |s| as real * hi
  {
    if s != [] {
      var init := s[..|s| - 1];
      assert forall i :: 0 <= i < |init| ==> init[i] == s[i];
      SumBetween(init, a, lo, hi);
      assert |s| as real * lo == |init| as real * lo + lo;
      assert |s| as real * hi == |init| as real * hi + hi;
    }
  }

  /** A coordinate that stays within `[lo, hi]` over the sequence has its average `SumAt / n` there too. */
  lemma AverageAtBetween(s: seq<Vec3>, a: Axis, lo: real, hi: real)
    requires |s| > 0
    requires forall i :: 0 <= i < |s| ==> lo <= s[i].At(a) <= hi
    ensures lo <= SumAt(s, a) / |s| as real <= hi
  {
    SumBetween(s, a, lo, hi);
    AverageBetween(SumAt(s, a), |s| as real, lo, hi);
  }

  lemma MeanAt(s: seq<Vec3>, a: Axis)
    requires |s| > 0
    ensures Mean(s).At(a) == SumAt(s, a) / |s| as real
  {
  }

  /** The mean of a coordinate lies between its least and its greatest value. */
  lemma MeanBetween(s: seq<Vec3>, a: Axis)
    requires |s| > 0
    ensures MinAt(s, a) <= Mean(s).At(a) <= MaxAt(s, a)
  {
    AverageAtBetween(s, a, MinAt(s, a), MaxAt(s, a));
    MeanAt(s, a);
  }

  /** The mean is the point whose every coordinate, times the number of points, is that coordinate's sum. */
  lemma MeanTimesCount(s: seq<Vec3>, a: Axis)
    requires |s| > 0
    ensures Mean(s).At(a) * |s| as real == SumAt(s, a)
  {
    MeanAt(s, a);
  }

  /**
   * `center_of_buoyancy`: the mean of the points at or below `zLevel`. The mean of an
   * empty subset is undefined (numpy gives nan) and is `None` here.
   */
  function CenterOfBuoyancy(points: seq<Vec3>, zLevel: real): (r: Option<Vec3>)
    ensures r.Some? <==> exists i :: 0 <= i < |points| && points[i].z <= zLevel
    ensures r.Some? ==> |Submerged(points, zLevel)| > 0 && r.value == Mean(Submerged(points, zLevel))
    ensures r.Some? ==> r.value.z <= zLevel
    ensures r.Some? ==> forall a: Axis ::
              MinAt(Submerged(points, zLevel), a) <= r.value.At(a) <= MaxAt(Submerged(points, zLevel), a)
  {
    var sub := Submerged(points, zLevel);
    SubmergedNonEmpty(points, zLevel);
    if |sub| == 0 then None
    else
      MeanOfSubmerged(sub, zLevel);
      Some(Mean(sub))
  }

  /** The mean of points at or below a level is at or below it and within each coordinate's range. */
  lemma MeanOfSubmerged(sub: seq<Vec3>, zLevel: real)
    requires |sub| > 0
    requires forall i :: 0 <= i < |sub| ==> sub[i].z <= zLevel
    ensures Mean(sub).z <= zLevel
    ensures forall a: Axis :: MinAt(sub, a) <= Mean(sub).At(a) <= MaxAt(sub, a)
  {
    MeanBetween(sub, 0);
    MeanBetween(sub, 1);
    MeanBetween(sub, 2);
    var j :| 0 <= j < |sub| && sub[j].At(2) == MaxAt(sub, 2);
    assert MaxAt(sub, 2) <= zLevel;
    forall a: Axis ensures MinAt(sub, a) <= Mean(sub).At(a) <= MaxAt(sub, a) {
      MeanBetween(sub, a);
    }
  }

  /** Something is submerged exactly when some point of the cloud is at or below the level. */
  lemma SubmergedNonEmpty(points: seq<Vec3>, zLevel: real)
    ensures |Submerged(points, zLevel)| > 0 <==> exists i :: 0 <= i < |points| && points[i].z <= zLevel
  {
    var sub := Submerged(points, zLevel);
    SubmergedMultiplicity(points, zLevel);
    if i :| 0 <= i < |points| && points[i].z <= zLevel {
      assert multiset(points)[points[i]] > 0;
      assert multiset(sub)[points[i]] > 0;
    }
    if |sub| > 0 {
      assert sub[0] in multiset(sub);
      assert sub[0] in multiset(points);
    }
  }
}
