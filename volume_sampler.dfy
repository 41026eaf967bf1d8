/**
 * Rejection sampling of points inside a solid. The solid is a containment
 * oracle plus a bounding box and a volume; the uniform random draws are a
 * supplied, finite sequence of candidate batches.
 */
module VolumeSampler {
  import opened Geometry
  import opened Outcomes

  /** The mesh as the pipeline sees it: `contains`, `bounds` and `volume`. */
  datatype Solid = Solid(contains: Vec3 -> bool, bounds: Box, volume: real)

  /** One draw of the random source: `n` candidates inside the box. */
  predicate IsCandidateBatch(batch: seq<Vec3>, box: Box, n: nat) {
    |batch| == n && forall i :: 0 <= i < |batch| ==> InBox(batch[i], box)
  }

  /** The points of one batch the oracle accepts, in batch order (`batch[mask]`). */
  function Accepted(contains: Vec3 -> bool, batch: seq<Vec3>): (r: seq<Vec3>)
    ensures |r| <= |batch|
    ensures forall i :: 0 <= i < |r| ==> contains(r[i]) && r[i] in batch
  {
    if batch == [] then []
    else (if contains(batch[0]) then [batch[0]] else []) + Accepted(contains, batch[1..])
  }

  /** Each candidate the oracle accepts is kept as often as it occurs in the batch; the others are dropped. */
  lemma {:induction false} AcceptedMultiplicity(contains: Vec3 -> bool, batch: seq<Vec3>, p: Vec3)
    ensures multiset(Accepted(contains, batch))[p] == if contains(p) then multiset(batch)[p] else 0
  {
    if batch != [] {
      AcceptedMultiplicity(contains, batch[1..], p);
      assert batch == [batch[0]] + batch[1..];
    }
  }

  /** Filtering keeps batch order: it distributes over concatenation. */
  lemma {:induction false} AcceptedAppend(contains: Vec3 -> bool, a: seq<Vec3>, b: seq<Vec3>)
    ensures Accepted(contains, a + b) == Accepted(contains, a) + Accepted(contains, b)
  {
    if a != [] {
      AcceptedAppend(contains, a[1..], b);
      assert (a + b)[1..] == a[1..] + b;
    } else {
      assert a + b == b;
    }
  }

  /** The accepted points of all batches, batch after batch, in order. */
  function AcceptedAll(contains: Vec3 -> bool, batches: seq<seq<Vec3>>): seq<Vec3> {
    if batches == [] then []
    else AcceptedAll(contains, batches[..|batches| - 1]) + Accepted(contains, batches[|batches| - 1])
  }

  /** Accumulating over two runs of batches concatenates what each run accepts. */
  lemma {:induction false} AcceptedAllConcat(contains: Vec3 -> bool, a: seq<seq<Vec3>>, b: seq<seq<Vec3>>)
    ensures AcceptedAll(contains, a + b) == AcceptedAll(contains, a) + AcceptedAll(contains, b)
    decreases |b|
  {
    if b == [] {
      assert a + b == a;
    } else {
      var init := b[..|b| - 1];
      AcceptedAllConcat(contains, a, init);
      assert (a + b)[..|a + b| - 1] == a + init;
    }
  }

  /** Every accepted point passed the oracle and, coming from a candidate batch, lies in the box. */
  lemma {:induction false} AcceptedAllInBox(contains: Vec3 -> bool, batches: seq<seq<Vec3>>, box: Box, n: nat)
    requires forall i :: 0 <= i < |batches| ==> IsCandidateBatch(batches[i], box, n)
    ensures forall p :: p in AcceptedAll(contains, batches) ==> contains(p) && InBox(p, box)
  {
    if batches != [] {
      var init, last := batches[..|batches| - 1], batches[|batches| - 1];
      AcceptedAllInBox(contains, init, box, n);
      forall p | p in Accepted(contains, last) ensures contains(p) && InBox(p, box) {
        var i :| 0 <= i < |Accepted(contains, last)| && Accepted(contains, last)[i] == p;
        var j :| 0 <= j < |last| && last[j] == p;
      }
    }
  }

  /** Drawing fewer batches yields a prefix of what drawing them all yields. */
  lemma {:induction false} AcceptedAllPrefix(contains: Vec3 -> bool, batches: seq<seq<Vec3>>, k: nat)
    requires k <= |batches|
    ensures AcceptedAll(contains, batches[..k]) <= AcceptedAll(contains, batches)
    decreases |batches| - k
  {
    if k < |batches| {
      AcceptedAllPrefix(contains, batches, k + 1);
      assert batches[..k + 1][..k] == batches[..k];
    } else {
      assert batches[..k] == batches;
    }
  }

  /**
   * `sample_volume_points`: draw batches until at least `nPoints` candidates have been
   * accepted, then keep the first `nPoints` of them. `drawn` is how many batches were used.
   */
  method SampleVolumePoints(solid: Solid, nPoints: nat, batches: seq<seq<Vec3>>)
    returns (r: Result<seq<Vec3>>, drawn: nat)
    requires forall i :: 0 <= i < |batches| ==> IsCandidateBatch(batches[i], solid.bounds, nPoints)
    ensures drawn <= |batches|
    ensures r.Success? <==> nPoints <= |AcceptedAll(solid.contains, batches)|
    ensures r.Success? ==> r.value == AcceptedAll(solid.contains, batches)[..nPoints]
    ensures r.Success? ==> |r.value| == nPoints
    ensures r.Success? ==> forall i :: 0 <= i < |r.value| ==>
                             solid.contains(r.value[i]) && InBox(r.value[i], solid.bounds)
    ensures r.Success? ==> nPoints <= |AcceptedAll(solid.contains, batches[..drawn])|
    ensures r.Success? && drawn > 0 ==> |AcceptedAll(solid.contains, batches[..drawn - 1])| < nPoints
    ensures r.Failure? ==> r.error == SamplesExhausted && drawn == |batches|
  {
    var points: seq<Vec3> := [];
    drawn := 0;
    while |points| < nPoints
      invariant drawn <= |batches|
      invariant points == AcceptedAll(solid.contains, batches[..drawn])
      invariant drawn > 0 ==> |AcceptedAll(solid.contains, batches[..drawn - 1])| < nPoints
      decreases |batches| - drawn, nPoints - |points|
    {
      if drawn == |batches| {
        assert batches[..drawn] == batches;
        return Failure(SamplesExhausted), drawn;
      }
      var batch := batches[drawn];
      assert batches[..drawn + 1][..drawn] == batches[..drawn];
      points := points + Accepted(solid.contains, batch);
      drawn := drawn + 1;
    }
    AcceptedAllPrefix(solid.contains, batches, drawn);
    AcceptedAllInBox(solid.contains, batches, solid.bounds, nPoints);
    r := Success(points[..nPoints]);
    assert forall i :: 0 <= i < nPoints ==> r.value[i] in AcceptedAll(solid.contains, batches);
  }
}
