# DC resistivity app core: a Dafny model

This project models the computational core of `dc_app.py`, an interactive
direct-current resistivity sounding app. The app builds a 2D conductivity model
made of a half-space, a horizontal layer and a cylinder (or a rotated plate). It
hands the model to a simulation engine and post-processes the solution.

The model covers:

- **the single-slot response cache** `model_fields` and its `_cache` dict
  (module `ResponseCache`). `FieldCache` is a class whose fields are the ten key
  slots and the stored result tuple, plus a count of solver invocations;
- **the painting of conductivity arrays** (module `ModelBuilder`). This is
  `addLayer2Mod`, which writes in place, and `addcylinder2Mod` and `addPlate2Mod`,
  which copy first. All three work on `array<real>`;
- **the geometry** (module `Geometry`): `getCylinderPoints` (250 vertices on
  [-pi, pi]), the path-building loop, `getPlateCorners` and the plate polygon 0, 1, 3, 2, 0;
- **surface potential extraction** `get_Surface_Potentials` (module `SurfacePotentials`);
- **apparent resistivity** `calculateRhoA` for the four standard arrays, with
  `eps = 1e-9` (module `ApparentResistivity`);
- **charge aggregation** `sumCylinderCharges` (module `Charges`): the sign
  partition, the sums, the weighted centres and the fixed fallbacks.

`Arrays` holds the few numpy operations the code relies on: `np.where`, fancy
indexing and `np.sum`. `Wrappers` holds `Option`.

Several things the code calls into are parameters of the model:

- the cell centres of the mesh (`centers`);
- `np.log`, `np.cos` and `np.sin` (`ln`, `cos`, `sin`);
- matplotlib's `Path.contains_points` (`inside`);
- the reference cell from `closestPoints` (`refInd`);
- the simulation engine's `fields` (`solve`). It returns `None` when the engine raises.

Numbers are mathematical reals.

### Behaviour of the code worth knowing

- `addLayer2Mod` overwrites the array it is given and returns that same array
  (`dc_app.py:187-188`). `ModelBuilder.AddLayer` does the same.
  `ResponseCache.BuildModels` shows why `model_fields` is still right: it reads
  `mhalf` before the overwrite.
- `eps` does not keep every denominator non-zero. A Pole-Dipole array with
  |A - M| = |N - A| gives inf or nan, and so can Dipole-Pole (|A - M| = |M - B|)
  and Dipole-Dipole. `ApparentResistivity.RhoA.NonFinite` is that outcome.
  `PoleDipoleNonFinite` and `DipolePoleNonFinite` say exactly when it happens.
- The first and last outline vertices share their x whenever cos(-pi) = cos(pi).
  Their heights differ by (sin(pi) - sin(-pi)) * r, which is not zero for the
  decimal `np.pi`, neither over the reals nor in floating point
  (`Geometry.OutlineEnds`). The polygon is closed by its CLOSEPOLY code, not by
  repeating a vertex.

## Model

| member | source | states |
|---|---|---|
| ResponseCache.FieldCache.constructor | dc_app.py:98-109 | The cache starts with all ten keys `None` and no results, and it satisfies the never-stale invariant |
| ResponseCache.FieldCache.ModelFields | dc_app.py:112-173 | The result is what a simulation of the ten arguments computes. The invariant is preserved, so the cache is never stale. The solver is invoked exactly when some argument differs from its key. A hit returns the stored tuple unchanged. A successful miss stores all ten keys and all five results. A solver failure leaves the cache as it was |
| ResponseCache.FieldCache.Compute | dc_app.py:126-148 | A re-run solves the full model first and then the half-space with the same source. It makes one solve if the first fails and two otherwise, and the first failure is passed on |
| ResponseCache.BuildModels | dc_app.py:127-139 | The models built on a miss are the logarithm of the half-space (taken before the in-place layer write), the logarithm of the layer-then-cylinder model, and the source |
| ResponseCache.RepeatedCallHits | dc_app.py:114-173 | Of two identical consecutive calls, the first makes at most two solves. When the first succeeds, the second makes no solve and returns exactly what the first stored |
| ResponseCache.FirstCallMisses | dc_app.py:98-126 | Before the first call every key is `None`, so any first call re-runs |
| ResponseCache.StaleIffArgumentsDiffer | dc_app.py:114-125 | After storing `p`, a call re-runs if and only if its ten arguments differ from `p` |
| ResponseCache.KeyParams | dc_app.py:150-159 | Filled key slots give back the arguments that filled them |
| ResponseCache.KeyParamsOfSlots | dc_app.py:150-159 | Storing the ten arguments and reading them back gives the same arguments |
| ResponseCache.SourceFor | dc_app.py:136-139 | The source is a pole at (A, 0) exactly when `B == []`, and otherwise a dipole at (A, 0), (B, 0) |
| ResponseCache.HalfSpaceLogUniform | dc_app.py:128-131 | Whatever the layer, `mhalf` is log(sigHalf) in every cell |
| ResponseCache.LogBeforeLayerMatters | dc_app.py:128-131 | Taking the logarithm after `addLayer2Mod` would change `mhalf` as soon as one cell lies in the band, so the order of the two lines matters |
| ResponseCache.FullModelCells | dc_app.py:128-135 | Each cell of the full model holds sigTarget inside the cylinder, otherwise sigLayer in the band, otherwise sigHalf |
| ModelBuilder.AssignCells | dc_app.py:187 | `mod[inds] = v` overwrites exactly the listed cells and keeps every other one |
| ModelBuilder.CopyArray | dc_app.py:202 | `copy.copy` gives a fresh array with the same contents |
| ModelBuilder.AddLayer | dc_app.py:176-188 | The array passed in is overwritten with sigLayer exactly on the closed band, and every other cell is kept. That same array is returned |
| ModelBuilder.AddCylinder | dc_app.py:198-233 | A fresh array holds sigCylinder in the cells the outline contains and the input value elsewhere. The input is not modified |
| ModelBuilder.AddPlate | dc_app.py:261-293 | A fresh array holds sigPlate in the cells the plate polygon contains and the input value elsewhere. The input is not modified |
| ModelBuilder.LayerBoundsInclusive | dc_app.py:180-185 | A cell centre exactly on either face of the band is painted |
| ModelBuilder.ZeroThicknessLayer | dc_app.py:180-185 | A layer of zero thickness paints exactly the cells at height zcLayer |
| ModelBuilder.NegativeThicknessPaintsNothing | dc_app.py:180-185 | A negative thickness leaves the model unchanged |
| ModelBuilder.PaintLayerIdempotent | dc_app.py:183-187 | Painting the same layer twice is the same as painting it once |
| ModelBuilder.AnomalyOverridesLayer | dc_app.py:131-134 | When the cylinder is painted after the layer, the anomaly wins in their overlap, the layer wins in the rest of the band, and the background is kept elsewhere |
| Geometry.Linspace | dc_app.py:192 | `np.linspace` has `num` values, from start to stop inclusive |
| Geometry.LinspaceEvenlySpaced | dc_app.py:192 | Consecutive values are one step (stop - start) / (num - 1) apart |
| Geometry.CylinderPoints | dc_app.py:191-195 | The outline has exactly 250 vertices |
| Geometry.OutlineOnCircle | dc_app.py:191-195 | Every outline vertex lies on the circle of radius r about (xc, zc) |
| Geometry.OutlineEnds | dc_app.py:192-195 | The angles run from -pi to pi. So the first and last vertices share their x when cos agrees at both ends, and their heights differ by (sin(pi) - sin(-pi)) * r |
| Geometry.BuildOutlinePath | dc_app.py:204-216 | The loop appends every point in order, with MOVETO first, CLOSEPOLY last and LINETO in between |
| Geometry.ChargeRegionCodes | dc_app.py:319-321 | The code list has one code per vertex |
| Geometry.CodeConventionsAgree | dc_app.py:319-321 | Writing all LINETO and then setting the ends gives the same codes as the loop of `addcylinder2Mod`, and they form a closed path |
| Geometry.CylinderPath | dc_app.py:204-216 | The cylinder path is one closed polygon of 250 vertices |
| Geometry.PlateCorners | dc_app.py:236-258 | There are four corners |
| Geometry.PlateCornersCentred | dc_app.py:245-258 | Diagonally opposite corners are symmetric about the plate centre at any rotation |
| Geometry.PlateUnrotated | dc_app.py:239-258 | At angle 0 the corners are the axis-aligned left-top, right-top, left-bottom and right-bottom corners |
| Geometry.RotationKeepsDistance | dc_app.py:239-254 | The row-vector product with [[c, -s], [s, c]] keeps distances when c*c + s*s = 1 |
| Geometry.PlatePath | dc_app.py:266-276 | The plate polygon visits corners 0, 1, 3, 2 and then 0 again, with MOVETO, three LINETOs and CLOSEPOLY |
| Geometry.PlateSidesPreserved | dc_app.py:245-272 | Consecutive polygon vertices are dx, dz, dx and dz apart at any rotation |
| SurfacePotentials.MaxZ | dc_app.py:300 | `np.max` of the heights is at least every height and is one of them |
| SurfacePotentials.SurfaceCells | dc_app.py:299-301 | The selected cells are in increasing order. Every one is at the top height, and every cell at the top height is selected |
| SurfacePotentials.GetSurfacePotentials | dc_app.py:296-314 | xSurface holds the x of each selected cell, and each phiSurface value plus phiScale is that cell's potential. phiScale is phi[refInd] for the pole-source surveys and 0 otherwise |
| SurfacePotentials.DipoleSurveysRaw | dc_app.py:304-314 | For the other surveys the values are the raw potentials |
| SurfacePotentials.ReferenceReadsZero | dc_app.py:306-312 | For a pole survey, the reference cell reads zero if it is at the surface |
| SurfacePotentials.DifferencesIndependentOfSurvey | dc_app.py:304-314 | Differences between surface potentials do not depend on the survey |
| SurfacePotentials.PoleProfileIgnoresOffset | dc_app.py:306-312 | For a pole survey, adding a constant to every potential leaves the profile unchanged |
| ApparentResistivity.InvSep | dc_app.py:396 | `1 / (abs(d) + eps)` is positive for every d |
| ApparentResistivity.InvSepSymmetric | dc_app.py:396-399 | The stabilised inverse separation does not depend on the direction |
| ApparentResistivity.ParseSurvey | dc_app.py:394-408 | Each of the four survey strings, and only it, selects its branch |
| ApparentResistivity.Denominator | dc_app.py:395-409 | The reciprocal of each array's geometric factor, built from the stabilised separations. For Pole-Pole it is always positive |
| ApparentResistivity.Evaluate | dc_app.py:394-411 | A branch is non-finite exactly when its denominator is zero. Otherwise rho_a times the denominator is the voltage times 2 pi, with VM - VN for a dipole receiver and VM for a pole receiver |
| ApparentResistivity.CalculateRhoA | dc_app.py:390-412 | A string other than the four gives no value (the unbound `rho_a`). Each of the four gives its branch |
| ApparentResistivity.HalfSpaceVoltage | dc_app.py:394-410 | Over a half-space of resistivity rho, each array measures rho / (2 pi) times its denominator |
| ApparentResistivity.HalfSpaceRecovered | dc_app.py:394-411 | Over a homogeneous half-space every array returns the true resistivity, whenever its denominator is non-zero |
| ApparentResistivity.Recover | dc_app.py:394-411 | A voltage of rho / (2 pi) times a non-zero denominator gives back rho |
| ApparentResistivity.PolePoleClosedForm | dc_app.py:408-410 | Pole-Pole gives VM times 2 pi times (abs(A - M) + eps) and is always finite |
| ApparentResistivity.PoleReceiverIgnoresVN | dc_app.py:405-410 | Dipole-Pole and Pole-Pole do not read VN |
| ApparentResistivity.PoleElectrodesIgnored | dc_app.py:402-410 | A pole source does not read B, and a pole receiver does not read N |
| ApparentResistivity.DipoleDipoleReciprocity | dc_app.py:394-400 | Exchanging the current pair with the potential pair leaves the Dipole-Dipole geometric factor unchanged |
| ApparentResistivity.PoleDipoleNonFinite | dc_app.py:402-404 | Pole-Dipole divides by zero exactly when M and N are equally far from A |
| ApparentResistivity.DipolePoleNonFinite | dc_app.py:405-407 | Dipole-Pole divides by zero exactly when A and B are equally far from M |
| Charges.CaptureRegion | dc_app.py:317-323 | The capture region is the cylinder outline at radius r + 0.5 and is a closed path |
| Charges.CapturedCells | dc_app.py:323-325 | Exactly the cells the polygon test accepts are captured, each once, in increasing order |
| Charges.NegMaskIsComplement | dc_app.py:329-330 | The mask `< 0` is the complement of the mask `>= 0` |
| Charges.ExactlyOneGroup | dc_app.py:329-330 | A captured charge is among the non-negative indices if it is >= 0, and among the negative ones if it is < 0 |
| Charges.SplitBySign | dc_app.py:327-335 | qPos and posLocs are the charges at the positions `np.where(c >= 0)` selects, each paired with its own location, and they are all >= 0. qNeg and negLocs are the same for `c < 0`, and they are all < 0 |
| Charges.SplitCoversAll | dc_app.py:327-335 | The two group sizes add up to the number captured, and the two group sums add up to the captured total |
| Charges.Centroid | dc_app.py:344-345 | Each coordinate of `np.average` times the total weight is the weighted sum of that coordinate |
| Charges.Summarize | dc_app.py:340-348 | qPosSum >= 0 and qNegSum <= 0. If either group is empty, both centres are the fallbacks (10, -10) and (-10, -10). Otherwise both sums are strictly signed and the centres are the weighted averages |
| Charges.SumCylinderCharges | dc_app.py:316-364 | The result is the summary of the captured groups, and qPosSum + qNegSum is the total captured charge |
| Charges.WeightedSumBounds | dc_app.py:344-345 | With non-negative weights, a weighted sum of values in [lo, hi] lies between lo and hi times the total weight |
| Charges.NegatedWeights | dc_app.py:344-345 | Negating the weights negates both sums |
| Charges.AverageWithinRange | dc_app.py:344-345 | An average with weights of one sign stays within the range of the averaged values |
| Charges.NonNegativeAverageWithinRange | dc_app.py:345 | The same, for non-negative weights |
| Charges.CentroidsWithinGroups | dc_app.py:343-345 | When both groups are non-empty, the positive centre lies in every box that holds the positive locations |
| Charges.NegativeCentroidWithinGroup | dc_app.py:343-344 | When both groups are non-empty, the negative centre lies in every box that holds the negative locations |
| Charges.AllNonNegativeFallsBack | dc_app.py:329-348 | When every charge is non-negative, the negative sum is 0 and both centres are the fallbacks |
| Arrays.Where | dc_app.py:329-330 | `np.where` gives, in increasing order, exactly the positions where the mask holds |
| Arrays.Pick | dc_app.py:328 | Fancy indexing `s[idx]` holds `s[idx[k]]` at position k |
| Arrays.SumFront | dc_app.py:347-348 | `np.sum` taken from the front agrees with the sum taken from the back |
| Arrays.WhereNone | dc_app.py:330 | A mask that holds nowhere selects nothing |
| Arrays.WhereCountsPartition | dc_app.py:329-330 | A mask and its negation select all positions between them |
| Arrays.SumOverPartition | dc_app.py:347-348 | The sums over a mask and over its negation add up to the whole sum |
| Arrays.SumNonNegative | dc_app.py:347 | A sum of non-negative values is non-negative |
| Arrays.SumNonPositive | dc_app.py:348 | A sum of non-positive values is non-positive |
| Arrays.SumNegative | dc_app.py:348 | A non-empty sum of negative values is negative |

## Left out

- The widgets (`MyApp`, `widgetify`, `ResLayerApp`) and the plotting function `PLOT` are user interface and rendering.
- `getSensitivity` is a thin call into the simulation engine's Jacobian. It also names a class, `Simulation2dcellCentered`, that differs in spelling from the one used elsewhere in the file.
- Mesh construction and the mesh queries `cell_centers` and `closestPoints` are not modelled. The cell centres and the reference index are parameters.
- The simulation engine is opaque. A solution object is a `FieldObject` handle that the cache stores and returns but never reads. A failure of the engine is `None`.
- `Path.contains_points` is the parameter `inside`. Its boundary convention is not modelled.
- `np.log`, `np.cos` and `np.sin` are parameters. Floating point is not modelled: numbers are reals and `np.pi` is the real 3.141592653589793. NaN keys, which compare unequal to themselves, cannot arise.
- `model_fields` writes the fifteen dict entries one by one. In the model, `FieldCache.ModelFields` writes the keys and the results as two records in one step. Nothing can fail between those writes, so no torn state is observable.
- `phi[refInd]` in numpy is a one-element array. It is taken as a scalar.
- `ApparentResistivity.Evaluate`: numpy's `inf` and `nan` after a division by zero are one outcome, `NonFinite`, without telling the sign or nan apart.
- `ApparentResistivity.CalculateRhoA`: the `UnboundLocalError` raised for an unknown survey string is the outcome `UnrecognizedSurvey`.
- `Charges.SumCylinderCharges`: one case is a precondition rather than a modelled error: both groups non-empty and the non-negative charges summing to zero. There numpy's `np.average` raises because the weights sum to zero.
- `Geometry.ChargeRegionCodes` requires at least one vertex. Setting `codes[0]` of an empty list raises in the source, and the outline always has 250 vertices.
- `Geometry.OutlineOnCircle` is stated under cos² + sin² = 1 at the sampled angle, and `Geometry.OutlineEnds` under cos(-pi) = cos(pi), because cos and sin are parameters. The real cos and sin meet both exactly (cos is even, and cos² + sin² = 1 at every angle). The doubles numpy computes meet the first only up to rounding.
