# gzpy sampled-buoyancy core, modelled in Dafny

gzpy estimates the righting-arm (GZ) curve of a floating hull from a cloud of
points sampled inside the hull's mesh. This project models the sampled pipeline
of `src/gzpy/sampling/sampling.py` and the transform builder it calls in
`src/gzpy/core/core.py`, over real numbers:

- **Rejection sampler** (`VolumeSampler`). This models `sample_volume_points`.
  - The mesh is a `Solid`: a `contains` oracle, a bounding `Box` and a `volume`.
  - The random source is a supplied finite sequence of candidate batches. Each batch
    holds `nPoints` points inside the box.
  - The `while` loop extends `points` batch by batch, then keeps the first `nPoints`.
  - When the supplied batches run out first, the method returns `Failure(SamplesExhausted)`.
- **Waterline locator** (`Waterline`). This models `locate_waterline` as a pure function.
  - It sorts by z with an insertion sort.
  - It computes `k = floor((mass / density) / (volume / n))`.
  - It reads `z[k]` and `z[k+1]` with Python's negative-index wrap.
  - It keeps the assertion `v_lower <= v_submerged <= v_upper` as a `Failure(AssertionFailed)` branch. For a positive volume this branch is proved unreachable. For a negative volume (the signed volume of an inside-out mesh) it is taken exactly when both indices are valid.
  - It interpolates linearly.
  - An out-of-range index is `Failure(IndexError)`.
- **Center of buoyancy** (`Buoyancy`). This models `center_of_buoyancy`.
  - It filters the points with `z <= z_level` and takes their per-coordinate mean.
  - The mean of an empty subset is `None`.
- **Transform builder** (`Core`). This models `__rotation_matrix`.
  - The 3×3 Euler product is taken with `rx = rz = 0`.
  - An imperative method builds the 4×4 `array2` from `np.eye(4)`, then overwrites the upper block and the last column in place.
  - `trimesh.transform_points` is the homogeneous product, one point at a time.
- **GZ curve** (`Curve`). This models `gz_curve`.
  - A `while` loop over the angles writes `gz[i] = cob[0] - COM[0]` into a preallocated array.
  - The sampled cloud is drawn once. A supplied cloud is used as it is.

Each angle is given by its cosine and sine (`Angle(cos, sin)` with `cos² + sin² = 1`).
The model follows what the code does:

- The transform is `[R | -COM]`, so each point becomes `R p - COM`. The rotation is about the coordinate origin, not about the centre of mass.
- The stored value is the centre of buoyancy's x minus `COM.x`, without any sign convention.
- The code has no boundary policy. When `k + 1` is past the last point, Python raises `IndexError`. For a positive volume this already happens once `mass / density >= volume · (n − 1) / n`, that is, within one point's share of full displacement. A negative `k` (from a negative mass, volume or density) wraps around the array as Python's indexing does.

## Model

| member | source | states |
|---|---|---|
| Core.EulerBlockIsXYZProduct | src/gzpy/core/core.py:22-30 | applying the written-out Euler matrix to a point equals rotating it about z, then about y, then about x: the matrix is the product `Rx·Ry·Rz` |
| Core.RotationBlock | src/gzpy/core/core.py:20-30 | the Euler product with rx = rz = 0 is exactly `[[c,0,s],[0,1,0],[-s,0,c]]`, a rotation about the y axis |
| Core.RotationBlockIsRotation | src/gzpy/core/core.py:23-30 | given `c² + s² = 1` the block is orthogonal both ways (`RᵀR = RRᵀ = I`) and has determinant 1 |
| Core.RotationPreservesLength | src/gzpy/core/core.py:26-30 | given `c² + s² = 1` the block keeps squared lengths of points |
| Core.TransformKeepsY | src/gzpy/core/core.py:26-34 | the transformed point's y is the original y plus the translation's y, because the middle row is `[0,1,0]` |
| Core.ZeroAngleIsTranslation | src/gzpy/core/core.py:20-34 | at angle 0 the block is the identity and the transform only adds the translation |
| Core.Eye4 | src/gzpy/core/core.py:32 | a fresh 4×4 array holding the identity |
| Core.RotationMatrix | src/gzpy/core/core.py:4-36 | the result is a fresh 4×4 array: its upper 3×3 block is the rotation block, rows 0-2 of its last column are the translation, and its bottom row is `[0,0,0,1]` |
| Core.TransformPoints | src/gzpy/sampling/sampling.py:32 | one output point per input point, each the homogeneous product of the matrix with that point |
| Core.ApplyAll | src/gzpy/sampling/sampling.py:32 | one moved point per point of the cloud |
| Core.ApplyAllAt | src/gzpy/sampling/sampling.py:32 | the i-th moved point is the i-th point rotated by the block and then translated |
| Core.HomogeneousPoint | src/gzpy/core/core.py:32-34 | `ApplyMatrix`, the per-point homogeneous product: for a matrix with rotation block `R`, translation column `t` and bottom row `[0,0,0,1]` the homogeneous product of a point is `R p + t` |
| Core.HomogeneousIsRotateThenTranslate | src/gzpy/sampling/sampling.py:29-32 | transforming a cloud by the matrix with block `R` and translation `t` equals rotating each point and then translating it, in order |
| VolumeSampler.Accepted | src/gzpy/sampling/sampling.py:92-93 | the kept points of one batch were all accepted by the oracle and come from the batch |
| VolumeSampler.AcceptedMultiplicity | src/gzpy/sampling/sampling.py:92-93 | every candidate the oracle accepts is kept as often as it occurs in the batch, and every rejected one is dropped |
| VolumeSampler.AcceptedAppend | src/gzpy/sampling/sampling.py:92-93 | the mask keeps batch order: filtering distributes over concatenation |
| VolumeSampler.AcceptedAllConcat | src/gzpy/sampling/sampling.py:90-93 | `AcceptedAll`, the accumulation of `points.extend`: the points accepted from two runs of batches are those of the first run followed by those of the second |
| VolumeSampler.AcceptedAllInBox | src/gzpy/sampling/sampling.py:91-93 | every point accepted from candidate batches passed the oracle and lies in the bounding box componentwise |
| VolumeSampler.AcceptedAllPrefix | src/gzpy/sampling/sampling.py:90-93 | drawing fewer batches yields a prefix of the points accepted from more batches |
| VolumeSampler.SampleVolumePoints | src/gzpy/sampling/sampling.py:86-101 | succeeds iff the batches accept at least `nPoints` points; the result is exactly the first `nPoints` accepted points in batch order, each accepted and inside the bounds; it stops at the first batch that reaches `nPoints`; otherwise `SamplesExhausted` after using every batch |
| Waterline.InsertByZ | src/gzpy/sampling/sampling.py:118 | inserting into a z-sorted sequence keeps it z-sorted and adds exactly the one point to the multiset |
| Waterline.SortByZ | src/gzpy/sampling/sampling.py:118 | the sorted cloud is non-decreasing in z and a permutation of the input |
| Waterline.SubmergedCount | src/gzpy/sampling/sampling.py:122-128 | `k` is the floor of the required submerged volume over one point's share: `k <= (mass/density)/(volume/n) < k+1` |
| Waterline.PyIndexWraps | src/gzpy/sampling/sampling.py:133-134 | `PyIndex`, Python's indexing: within `[-n, n)` the index reads the element at the index modulo `n` |
| Waterline.VolumeBracket | src/gzpy/sampling/sampling.py:122-142 | with `k = floor(v / share)` and `share > 0`, `k·share <= v <= (k+1)·share`, so the assertion cannot fire |
| Waterline.VolumeBracketNegative | src/gzpy/sampling/sampling.py:136-142 | with a negative share, `v` lies strictly above `(k+1)·share`, so the assertion fails |
| Waterline.Interpolate | src/gzpy/sampling/sampling.py:133-146 | the interpolation step succeeds iff the share is positive; otherwise it fails with `AssertionFailed` |
| Waterline.InterpolateWithinBracket | src/gzpy/sampling/sampling.py:133-144 | the interpolated level lies within the cloud's z range and, for `k >= 0`, between the z values of sorted points `k` and `k+1` |
| Waterline.LocateWaterline | src/gzpy/sampling/sampling.py:103-146 | succeeds iff the volume is positive and `k` and `k+1` are valid Python indices for `n` points; fails with `AssertionFailed` iff the volume is negative and the indices are valid; fails with `IndexError` whenever an index is invalid |
| Waterline.WaterlineWithinCloud | src/gzpy/sampling/sampling.py:118-144 | when `k` and `k+1` are valid indices the locator succeeds, and the level lies within the sorted cloud's z range and, for `k >= 0`, in `[z_lower, z_upper]` of the k-th and (k+1)-th lowest points |
| Waterline.WaterlineSubmergesSomePoint | src/gzpy/sampling/sampling.py:118-146 | when `k` and `k+1` are valid indices the locator succeeds and some point of the cloud lies at or below the level |
| Buoyancy.Submerged | src/gzpy/sampling/sampling.py:58 | the filtered points are no more than the input and all lie at or below the level |
| Buoyancy.SubmergedMultiplicity | src/gzpy/sampling/sampling.py:58 | each point with `z <= z_level` is kept as often as it occurs, and every other point is dropped |
| Buoyancy.SubmergedIdempotent | src/gzpy/sampling/sampling.py:36-58 | filtering the already-filtered points again at the same level changes nothing |
| Buoyancy.SubmergedAppend | src/gzpy/sampling/sampling.py:58 | filtering distributes over concatenation |
| Buoyancy.SubmergedNonEmpty | src/gzpy/sampling/sampling.py:58-60 | the subset is non-empty iff some point lies at or below the level |
| Buoyancy.MinAt | src/gzpy/sampling/sampling.py:60 | a lower bound of a coordinate over the points that some point attains |
| Buoyancy.MaxAt | src/gzpy/sampling/sampling.py:60 | an upper bound of a coordinate over the points that some point attains |
| Buoyancy.SumBetween | src/gzpy/sampling/sampling.py:60 | a coordinate bounded by `[lo, hi]` sums to within `[n·lo, n·hi]` |
| Buoyancy.AverageAtBetween | src/gzpy/sampling/sampling.py:60 | a coordinate bounded by `[lo, hi]` has its average in `[lo, hi]` |
| Buoyancy.MeanTimesCount | src/gzpy/sampling/sampling.py:60 | `Mean`, `np.mean(axis=0)`: each coordinate of the mean, times the number of points, is that coordinate's sum |
| Buoyancy.MeanBetween | src/gzpy/sampling/sampling.py:60 | each coordinate of the mean lies between that coordinate's minimum and maximum |
| Buoyancy.MeanOfSubmerged | src/gzpy/sampling/sampling.py:58-60 | the mean of points at or below a level is itself at or below it, with each coordinate within its range |
| Buoyancy.CenterOfBuoyancy | src/gzpy/sampling/sampling.py:47-62 | defined iff some point is at or below the level; then it is the mean of exactly the submerged points, its z is at or below the level, and each coordinate lies between the submerged points' minimum and maximum |
| Curve.HeeledAt | src/gzpy/sampling/sampling.py:29-32 | `Heeled`: one heeled point per point, each `R p − COM`; its y is only shifted by `−COM.y`; shifting it back by `COM` gives a point as far from the origin as the original, as the rotation is about the origin |
| Curve.RightingArm | src/gzpy/sampling/sampling.py:29-43 | one angle's value exists iff the waterline of the heeled cloud can be located; otherwise the failure is the locator's (`IndexError` or `AssertionFailed`) |
| Curve.SubsetRange | src/gzpy/sampling/sampling.py:36 | the submerged points' x range lies within the whole cloud's x range |
| Curve.RightingArmIsBuoyancyOffset | src/gzpy/sampling/sampling.py:29-43 | when `k` and `k+1` are valid indices the angle's value exists; then `gz + COM.x` is the mean x of the heeled points at or below the waterline, and it lies within the heeled cloud's x range |
| Curve.HeelCloud | src/gzpy/sampling/sampling.py:29-32 | the cloud after the transform with block `R` and translation `-COM` is each point rotated and then shifted by `-COM` |
| Curve.HeelAndMeasure | src/gzpy/sampling/sampling.py:28-43 | the loop body for angle `i` yields the i-th per-angle outcome |
| Curve.Arms | src/gzpy/sampling/sampling.py:26-27 | one per-angle outcome for each angle |
| Curve.ArmsAt | src/gzpy/sampling/sampling.py:27-43 | the i-th per-angle outcome is the righting arm of `angles[i]`, in input order |
| Curve.MeasureAngles | src/gzpy/sampling/sampling.py:26-45 | when every angle succeeds, the result has one value per angle in input order, each that angle's righting arm; otherwise it is the error of the first angle that fails |
| Curve.GzCurve | src/gzpy/sampling/sampling.py:9-45 | with a supplied cloud, the curve is computed from that cloud and no batch is used; otherwise it is computed from the first `nPoints` accepted sampled points, or it fails with `SamplesExhausted` when the batches run out |

## Left out

- Degrees to radians (sampling.py:20) and `np.cos`/`np.sin` (core.py:22-24): Dafny has no trigonometry. Each angle is passed as its cosine and sine, with `cos² + sin² = 1` required.
- Floating-point rounding and `float32`: all quantities are exact reals.
- `np.random.uniform` (sampling.py:91): replaced by a supplied finite sequence of candidate batches. The source loop has no bound; running out of batches is `Failure(SamplesExhausted)`, which the source cannot produce.
- `mesh.contains`, `mesh.bounds` and `mesh.volume`: an abstract oracle, box and number. `mesh.py` (trimesh file loading) is not part of this model.
- `trimesh.transform_points` (sampling.py:32): modelled as the plain homogeneous product. The division by the homogeneous coordinate (1 for these matrices) is left out.
- tqdm progress reporting (sampling.py:89, 96-97): a side channel with no effect on the result.
- The unused `n_underwater` (sampling.py:130): it affects nothing.
- A negative `n_points`: `nPoints` is a `nat`.
- Python's `points is None` test: modelled as `Option<seq<Vec3>>`.
- The sampled case requires `nPoints > 0`, and a supplied cloud must be non-empty. With zero points, `locate_waterline` divides by zero.
- Waterline.LocateWaterline: requires a non-zero `volume` and a non-zero `density`. With either zero, the source divides by zero: Python raises `ZeroDivisionError` for plain floats, and numpy gives an infinity. Neither is modelled. Negative values are modelled. Curve.RightingArm and Curve.GzCurve carry the same requirement.
- `np.argsort` is not stable by contract: the model sorts with a stable insertion sort. Only the z order, the permutation and the z values read at `k` and `k + 1` are stated.
- Buoyancy.CenterOfBuoyancy: numpy returns `nan` (with a warning) for the mean of an empty subset. The model returns `None` there, and in `gz_curve` the subset is proved non-empty.
- Curve.RightingArm: no sign convention. The stored value is the unsigned `cob[0] - COM[0]`, as in the source (see the TODO at sampling.py:42).
- `visualize.py` (both), `exact.py`, the example scripts and the tests are not part of this model: they are plotting, an unimplemented method, demos and mesh-loading checks.
