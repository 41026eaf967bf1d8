/**
 * The righting-arm (GZ) curve: for each heel angle, move the sampled cloud by
 * the homogeneous transform built from `-COM` and the angle, locate the
 * waterline, take the center of buoyancy of the submerged points and store
 * its x offset from the center of mass.
 */
module Curve {
  import opened Geometry
  import opened Outcomes
  import Core
  import opened VolumeSampler
  import opened Waterline
  import opened Buoyancy

  /** A heel angle in radians, given by its cosine and sine. */
  datatype Angle = Angle(cos: real, sin: real)

  predicate IsUnit(a: Angle) {
    a.cos * a.cos + a.sin * a.sin == 1.0
  }

  /** The cloud after the transform `[R | -COM]`: each point becomes `R p - COM`. */
  function Heeled(points: seq<Vec3>, com: Vec3, a: Angle): seq<Vec3> {
    Core.ApplyAll(Core.RotationBlock(a.cos, a.sin), Neg(com), points)
  }

  /**
   * The heeled cloud has one point per point of the cloud: its y is only shifted by `-COM.y`,
   * and, as the rotation is about the origin, shifting back by `COM` gives a point as far
   * from the origin as the original.
   */
  lemma HeeledAt(points: seq<Vec3>, com: Vec3, a: Angle, i: nat)
    requires IsUnit(a) && i < |points|
    ensures |Heeled(points, com, a)| == |points|
    ensures Heeled(points, com, a)[i] == Core.Apply(Core.RotationBlock(a.cos, a.sin), Neg(com), points[i])
    ensures Heeled(points, com, a)[i].y == points[i].y - com.y
    ensures Core.NormSquared(Add(Heeled(points, com, a)[i], com)) == Core.NormSquared(points[i])
  {
    var r := Core.RotationBlock(a.cos, a.sin);
    Core.ApplyAllAt(r, Neg(com), points, i);
    Core.TransformKeepsY(a.cos, a.sin, Neg(com), points[i]);
    Core.RotationPreservesLength(a.cos, a.sin, points[i]);
    assert Add(Heeled(points, com, a)[i], com) == Core.MulVec(r, points[i]);
  }

  /** The value `gz[i]` that one angle contributes, or the waterline locator's failure. */
  function RightingArm(points: seq<Vec3>, mass: real, volume: real, density: real, com: Vec3, a: Angle)
    : (r: Result<real>)
    requires |points| > 0 && volume != 0.0 && density != 0.0
    ensures r.Success? <==> LocateWaterline(Heeled(points, com, a), mass, volume, density).Success?
    ensures r.Failure? ==> r.error == LocateWaterline(Heeled(points, com, a), mass, volume, density).error
  {
    var moved := Heeled(points, com, a);
    match LocateWaterline(moved, mass, volume, density)
    case Failure(e) => Failure(e)
    case Success(level) =>
      var submerged := Submerged(moved, level);
      WaterlineSubmergesSomePoint(moved, mass, volume, density);
      SubmergedNonEmpty(moved, level);
      assert submerged[0].z <= level;
      var cob := CenterOfBuoyancy(submerged, level);
      Success(cob.value.x - com.x)
  }

  /** The submerged points' x range lies within the whole cloud's x range. */
  lemma SubsetRange(points: seq<Vec3>, zLevel: real)
    requires |Submerged(points, zLevel)| > 0
    ensures |points| > 0
    ensures MinAt(points, 0) <= MinAt(Submerged(points, zLevel), 0)
    ensures MaxAt(Submerged(points, zLevel), 0) <= MaxAt(points, 0)
  {
    var sub := Submerged(points, zLevel);
    SubmergedMultiplicity(points, zLevel);
    assert sub[0] in multiset(points);
    var i :| 0 <= i < |sub| && sub[i].At(0) == MinAt(sub, 0);
    var j :| 0 <= j < |sub| && sub[j].At(0) == MaxAt(sub, 0);
    assert sub[i] in multiset(sub) && sub[j] in multiset(sub);
    assert sub[i] in points && sub[j] in points;
  }

  /**
   * A righting arm, shifted back by `COM.x`, is the mean x of the heeled points at or
   * below the located waterline, and so lies within the heeled cloud's x range.
   */
  lemma RightingArmIsBuoyancyOffset(points: seq<Vec3>, mass: real, volume: real, density: real, com: Vec3, a: Angle)
    requires |points| > 0 && volume > 0.0 && density != 0.0
    requires BracketIndexable(|points|, SubmergedCount(|points|, mass, volume, density))
    ensures RightingArm(points, mass, volume, density, com, a).Success?
    ensures var moved := Heeled(points, com, a);
            var level := LocateWaterline(moved, mass, volume, density).value;
            var arm := RightingArm(points, mass, volume, density, com, a).value;
            |Submerged(moved, level)| > 0 &&
            arm + com.x == Mean(Submerged(moved, level)).x &&
            MinAt(moved, 0) <= arm + com.x <= MaxAt(moved, 0)
  {
    var moved := Heeled(points, com, a);
    var level := LocateWaterline(moved, mass, volume, density).value;
    var sub := Submerged(moved, level);
    WaterlineSubmergesSomePoint(moved, mass, volume, density);
    SubmergedNonEmpty(moved, level);
    SubmergedIdempotent(moved, level);
    var cob := CenterOfBuoyancy(sub, level);
    assert sub[0].z <= level;
    assert RightingArm(points, mass, volume, density, com, a).value == cob.value.x - com.x;
    assert MinAt(sub, 0) <= cob.value.At(0) <= MaxAt(sub, 0);
    SubsetRange(moved, level);
  }

  /**
   * Lines 29-30 of `gz_curve`: build the homogeneous transform from `-COM` and the angle
   * and apply it to every point of the cloud.
   */
  method HeelCloud(cloud: seq<Vec3>, com: Vec3, a: Angle) returns (moved: seq<Vec3>)
    requires IsUnit(a)
    ensures moved == Heeled(cloud, com, a)
  {
    var m := Core.RotationMatrix(Neg(com), a.cos, a.sin);
    assert Core.IsHomogeneous(m, Core.RotationBlock(a.cos, a.sin), Neg(com));
    moved := Core.TransformPoints(m, cloud);
    Core.HomogeneousIsRotateThenTranslate(m, Core.RotationBlock(a.cos, a.sin), Neg(com), cloud);
  }

  /**
   * The body of the loop of `gz_curve` for `angles[i]`: move the cloud, locate the
   * waterline, average the submerged points, take the x offset.
   */
  method HeelAndMeasure(cloud: seq<Vec3>, mass: real, volume: real, density: real, com: Vec3,
                        angles: seq<Angle>, i: nat)
    returns (g: Result<real>)
    requires |cloud| > 0 && volume != 0.0 && density != 0.0 && i < |angles| && IsUnit(angles[i])
    ensures g == Arms(cloud, mass, volume, density, com, angles)[i]
  {
    var a := angles[i];
    var moved := HeelCloud(cloud, com, a);
    ghost var expected := RightingArm(cloud, mass, volume, density, com, a);
    var level := LocateWaterline(moved, mass, volume, density);
    if level.Failure? {
      g := Failure(level.error);
    } else {
      var submerged := Submerged(moved, level.value);
      WaterlineSubmergesSomePoint(moved, mass, volume, density);
      SubmergedNonEmpty(moved, level.value);
      assert submerged[0].z <= level.value;
      var cob := CenterOfBuoyancy(submerged, level.value);
      g := Success(cob.value.x - com.x);
      assert expected == Success(cob.value.x - com.x);
    }
    assert g == expected;
    ArmsAt(cloud, mass, volume, density, com, angles, i);
  }

  /** The outcome of each angle, in input order. */
  function Arms(cloud: seq<Vec3>, mass: real, volume: real, density: real, com: Vec3, angles: seq<Angle>)
    : (r: seq<Result<real>>)
    requires |cloud| > 0 && volume != 0.0 && density != 0.0
    ensures |r| == |angles|
  {
    if angles == [] then []
    else Arms(cloud, mass, volume, density, com, angles[..|angles| - 1])
         + [RightingArm(cloud, mass, volume, density, com, angles[|angles| - 1])]
  }

  lemma {:induction false} ArmsAt(cloud: seq<Vec3>, mass: real, volume: real, density: real, com: Vec3,
                                  angles: seq<Angle>, i: nat)
    requires |cloud| > 0 && volume != 0.0 && density != 0.0 && i < |angles|
    ensures Arms(cloud, mass, volume, density, com, angles)[i] == RightingArm(cloud, mass, volume, density, com, angles[i])
  {
    if i < |angles| - 1 {
      var init := angles[..|angles| - 1];
      ArmsAt(cloud, mass, volume, density, com, init, i);
      assert init[i] == angles[i];
    }
  }

  /**
   * Whether `r` is what a loop over per-angle outcomes `arms` yields: all the values in
   * order when every angle succeeds, otherwise the error of the first angle that fails.
   */
  predicate CurveFrom(r: Result<seq<real>>, arms: seq<Result<real>>) {
    (r.Success? ==>
       |r.value| == |arms| && forall i :: 0 <= i < |arms| ==> arms[i] == Success(r.value[i])) &&
    (r.Failure? ==>
       exists i :: 0 <= i < |arms| && arms[i] == Failure(r.error) && forall j :: 0 <= j < i ==> arms[j].Success?)
  }

  /**
   * The loop of `gz_curve` over a fixed cloud: `gz[i]` for each angle in order,
   * stopping at the first failure.
   */
  method MeasureAngles(cloud: seq<Vec3>, mass: real, volume: real, density: real, com: Vec3, angles: seq<Angle>)
    returns (r: Result<seq<real>>)
    requires |cloud| > 0 && volume != 0.0 && density != 0.0
    requires forall i :: 0 <= i < |angles| ==> IsUnit(angles[i])
    ensures CurveFrom(r, Arms(cloud, mass, volume, density, com, angles))
  {
    ghost var arms := Arms(cloud, mass, volume, density, com, angles);
    var gz := new real[|angles|];
    var i := 0;
    while i < |angles|
      invariant 0 <= i <= |angles|
      invariant forall j :: 0 <= j < i ==> arms[j] == Success(gz[j])
    {
      var g := HeelAndMeasure(cloud, mass, volume, density, com, angles, i);
      if g.Failure? {
        return Failure(g.error);
      }
      gz[i] := g.value;
      i := i + 1;
    }
    r := Success(gz[..]);
  }

  /**
   * `gz_curve`. With `points` given the cloud is used as it is and no batch is drawn;
   * otherwise it is sampled once from `batches`. Each angle is processed in input order
   * and the first failure aborts the whole curve.
   */
  method GzCurve(solid: Solid, nPoints: nat, mass: real, density: real, com: Vec3,
                 angles: seq<Angle>, points: Option<seq<Vec3>>, batches: seq<seq<Vec3>>)
    returns (r: Result<seq<real>>)
    requires density != 0.0 && solid.volume != 0.0
    requires forall i :: 0 <= i < |angles| ==> IsUnit(angles[i])
    requires points.Some? ==> |points.value| > 0
    requires points.None? ==>
               nPoints > 0 && forall i :: 0 <= i < |batches| ==> IsCandidateBatch(batches[i], solid.bounds, nPoints)
    ensures points.Some? ==> CurveFrom(r, Arms(points.value, mass, solid.volume, density, com, angles))
    ensures points.None? && nPoints <= |AcceptedAll(solid.contains, batches)| ==>
              CurveFrom(r, Arms(AcceptedAll(solid.contains, batches)[..nPoints], mass, solid.volume, density, com, angles))
    ensures points.None? && |AcceptedAll(solid.contains, batches)| < nPoints ==> r == Failure(SamplesExhausted)
  {
    var cloud: seq<Vec3>;
    if points.Some? {
      cloud := points.value;
    } else {
      var sampled, drawn := SampleVolumePoints(solid, nPoints, batches);
      if sampled.Failure? {
        return Failure(sampled.error);
      }
      cloud := sampled.value;
    }
    r := MeasureAngles(cloud, mass, solid.volume, density, com, angles);
  }
}
