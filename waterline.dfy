/**
 * The waterline locator: sort the cloud by z, treat each point as an equal
 * share `volume / n` of the solid, and interpolate linearly between the two
 * order statistics that bracket the required submerged volume `mass / density`.
 */
module Waterline {
  import opened Geometry
  import opened Outcomes
  import opened Arith

  predicate SortedByZ(s: seq<Vec3>) {
    forall i, j :: 0 <= i <= j < |s| ==> s[i].z <= s[j].z
  }

  /** Puts `p` into a z-sorted sequence in front of the first point that is not below it. */
  function InsertByZ(p: Vec3, s: seq<Vec3>): (r: seq<Vec3>)
    requires SortedByZ(s)
    ensures SortedByZ(r)
    ensures multiset(r) == multiset(s) + multiset{p}
    ensures |r| == |s| + 1 && (r[0] == p || (s != [] && r[0] == s[0]))
  {
    if s == [] then [p]
    else if p.z <= s[0].z then [p] + s
    else
      var rest := InsertByZ(p, s[1..]);
      var r := [s[0]] + rest;
      assert SortedByZ(r) by {
        assert s[0].z <= rest[0].z;
        forall i, j | 0 <= i <= j < |r| ensures r[i].z <= r[j].z {
          if 0 < i {
            assert r[i] == rest[i - 1] && r[j] == rest[j - 1];
          } else if 0 < j {
            assert r[j] == rest[j - 1];
          }
        }
      }
      assert multiset(r) == multiset(s) + multiset{p} by {
        assert s == [s[0]] + s[1..];
      }
      r
  }

  /** `points[np.argsort(points[:, 2])]`: a permutation of the cloud, non-decreasing in z. */
  function SortByZ(s: seq<Vec3>): (r: seq<Vec3>)
    ensures SortedByZ(r)
    ensures multiset(r) == multiset(s)
    ensures |r| == |s|
  {
    if s == [] then []
    else
      assert s == [s[0]] + s[1..];
      InsertByZ(s[0], SortByZ(s[1..]))
  }

  /**
   * The number of whole point shares in the submerged volume: the floor of the required
   * submerged volume over one point's share of the solid's volume.
   */
  function SubmergedCount(n: nat, mass: real, volume: real, density: real): (k: int)
    requires n > 0 && volume != 0.0 && density != 0.0
    ensures k as real <= (mass / density) / (volume / n as real) < k as real + 1.0
  {
    ((mass / density) / (volume / n as real)).Floor
  }

  /** k and k + 1 are both valid Python indices into an array of length n (negative ones wrap). */
  predicate BracketIndexable(n: nat, k: int) {
    -(n as int) <= k && k + 1 < n
  }

  /** Python's `s[i]`, where a negative index counts from the end. */
  function PyIndex<T>(s: seq<T>, i: int): (r: T)
    requires -|s| <= i < |s|
  {
    if i < 0 then s[|s| + i] else s[i]
  }

  /** Within its range, Python's index is the index taken modulo the length. */
  lemma PyIndexWraps<T>(s: seq<T>, i: int)
    requires -|s| <= i < |s|
    ensures PyIndex(s, i) == s[i % |s|]
  {
    if i < 0 {
      assert i == -1 * |s| + (|s| + i);
    }
  }

  /** With `k` the floor of `v / share` and `share > 0`, `k * share <= v <= (k + 1) * share`. */
  lemma VolumeBracket(v: real, share: real)
    requires share > 0.0
    ensures (v / share).Floor as real * share <= v
    ensures v <= ((v / share).Floor + 1) as real * share
  {
    var x := v / share;
    var k := x.Floor as real;
    var k1 := ((v / share).Floor + 1) as real;
    assert k <= x < k1;
    assert v == x * share;
    MulMonotone(k, x, share);
    MulMonotone(x, k1, share);
    assert v <= k1 * share;
  }

  /**
   * With a negative share the bracket is reversed: `v` lies strictly above `(k + 1) * share`,
   * so `v_lower <= v_submerged <= v_upper` cannot hold.
   */
  lemma VolumeBracketNegative(v: real, share: real)
    requires share < 0.0
    ensures ((v / share).Floor + 1) as real * share < v
  {
    var x := v / share;
    var k1 := ((v / share).Floor + 1) as real;
    assert x < k1;
    assert v == x * share;
    MulStrict(x, k1, -share);
    assert -(k1 * share) == k1 * -share;
  }

  /** Both cases of the bracket, by the sign of the share. */
  lemma VolumeBracketSigned(v: real, share: real)
    requires share != 0.0
    ensures share > 0.0 ==> (v / share).Floor as real * share <= v <= ((v / share).Floor + 1) as real * share
    ensures share < 0.0 ==> ((v / share).Floor + 1) as real * share < v
  {
    if share > 0.0 {
      VolumeBracket(v, share);
    } else {
      VolumeBracketNegative(v, share);
    }
  }

  /**
   * Lines 133-144 of `locate_waterline` on the sorted cloud: the bracketing z values,
   * the bracketing volumes, the assertion and the linear interpolation between them.
   */
  function Interpolate(sorted: seq<Vec3>, k: int, vSubmerged: real, share: real): (r: Result<real>)
    requires SortedByZ(sorted) && BracketIndexable(|sorted|, k)
    requires share != 0.0 && k == (vSubmerged / share).Floor
    ensures r.Success? <==> share > 0.0
    ensures r.Failure? ==> r.error == AssertionFailed
  {
    var zLower := PyIndex(sorted, k).z;
    var zUpper := PyIndex(sorted, k + 1).z;
    var vLower := k as real * share;
    var vUpper := (k + 1) as real * share;
    VolumeBracketSigned(vSubmerged, share);
    if !(vLower <= vSubmerged <= vUpper) then Failure(AssertionFailed)
    else
      assert vUpper - vLower == share;
      var t := (vSubmerged - vLower) / (vUpper - vLower);
      Success(zLower + t * (zUpper - zLower))
  }

  /**
   * The interpolated level lies within the z range of the cloud and, for a non-negative
   * `k`, between the z values of the two order statistics `k` and `k + 1`.
   */
  lemma InterpolateWithinBracket(sorted: seq<Vec3>, k: int, vSubmerged: real, share: real)
    requires SortedByZ(sorted) && BracketIndexable(|sorted|, k)
    requires share > 0.0 && k == (vSubmerged / share).Floor
    ensures sorted[0].z <= Interpolate(sorted, k, vSubmerged, share).value <= sorted[|sorted| - 1].z
    ensures k >= 0 ==> sorted[k].z <= Interpolate(sorted, k, vSubmerged, share).value <= sorted[k + 1].z
  {
    var n := |sorted|;
    var zLower := PyIndex(sorted, k).z;
    var zUpper := PyIndex(sorted, k + 1).z;
    var vLower := k as real * share;
    var vUpper := (k + 1) as real * share;
    VolumeBracket(vSubmerged, share);
    assert vUpper - vLower == share;
    var t := (vSubmerged - vLower) / (vUpper - vLower);
    FractionInUnit(vSubmerged, vLower, vUpper);
    InterpolationBetween(zLower, zUpper, t);
    assert Interpolate(sorted, k, vSubmerged, share).value == zLower + t * (zUpper - zLower);
    assert sorted[0].z <= zLower <= sorted[n - 1].z;
    assert sorted[0].z <= zUpper <= sorted[n - 1].z;
    assert k >= 0 ==> zLower == sorted[k].z && zUpper == sorted[k + 1].z && zLower <= zUpper;
  }

  /**
   * `locate_waterline`. An index out of range is Python's IndexError. The assertion
   * `v_lower <= v_submerged <= v_upper` holds for a positive volume and fails for a
   * negative one, whatever the mass and density.
   */
  function LocateWaterline(points: seq<Vec3>, mass: real, volume: real, density: real): (r: Result<real>)
    requires |points| > 0 && volume != 0.0 && density != 0.0
    ensures r.Success? <==> volume > 0.0 && BracketIndexable(|points|, SubmergedCount(|points|, mass, volume, density))
    ensures r == Failure(AssertionFailed) <==>
              volume < 0.0 && BracketIndexable(|points|, SubmergedCount(|points|, mass, volume, density))
    ensures !BracketIndexable(|points|, SubmergedCount(|points|, mass, volume, density)) ==> r == Failure(IndexError)
  {
    var sorted := SortByZ(points);
    var share := volume / |sorted| as real;
    var vSubmerged := mass / density;
    var k := (vSubmerged / share).Floor;
    QuotientSign(volume, |sorted| as real);
    if !BracketIndexable(|sorted|, k) then Failure(IndexError)
    else Interpolate(sorted, k, vSubmerged, share)
  }

  /**
   * A located waterline lies within the z range of the cloud and, when the submerged
   * count `k` is not negative, between the z values of the `k`-th and `(k + 1)`-th lowest points.
   */
  lemma WaterlineWithinCloud(points: seq<Vec3>, mass: real, volume: real, density: real)
    requires |points| > 0 && volume > 0.0 && density != 0.0
    requires BracketIndexable(|points|, SubmergedCount(|points|, mass, volume, density))
    ensures LocateWaterline(points, mass, volume, density).Success?
    ensures var level := LocateWaterline(points, mass, volume, density).value;
            SortByZ(points)[0].z <= level <= SortByZ(points)[|points| - 1].z
    ensures var level := LocateWaterline(points, mass, volume, density).value;
            var k := SubmergedCount(|points|, mass, volume, density);
            k >= 0 ==> SortByZ(points)[k].z <= level <= SortByZ(points)[k + 1].z
  {
    var sorted := SortByZ(points);
    var share := volume / |points| as real;
    var vSubmerged := mass / density;
    var k := (vSubmerged / share).Floor;
    QuotientSign(volume, |points| as real);
    assert k == SubmergedCount(|points|, mass, volume, density);
    assert LocateWaterline(points, mass, volume, density) == Interpolate(sorted, k, vSubmerged, share);
    InterpolateWithinBracket(sorted, k, vSubmerged, share);
  }

  /** A located waterline always has at least one point of the cloud at or below it. */
  lemma WaterlineSubmergesSomePoint(points: seq<Vec3>, mass: real, volume: real, density: real)
    requires |points| > 0 && volume > 0.0 && density != 0.0
    requires BracketIndexable(|points|, SubmergedCount(|points|, mass, volume, density))
    ensures LocateWaterline(points, mass, volume, density).Success?
    ensures exists i :: 0 <= i < |points| && points[i].z <= LocateWaterline(points, mass, volume, density).value
  {
    WaterlineWithinCloud(points, mass, volume, density);
    var lowest := SortByZ(points)[0];
    assert lowest in multiset(SortByZ(points));
    assert lowest in points;
  }
}
