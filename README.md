# A verified model of the epsglide geometry engine

This project models `epsglide/algbr.py`, the small 3D geometry engine of the
python-epsg repository, in Dafny, and proves properties of it. The engine has
four parts:

- **Vectors.** `Vector` is a list of reals. It offers component-wise `+` and
  `-` over the pairs `zip` forms, negation, scaling and division by a number,
  floor division, the dot product (`*` with an iterable), the cross product
  (`@`, which pads short operands with zeros in place), `norm` and
  `normalize`.
- **Matrices.** `Matrix(*vectors)` pads every vector to the longest one in
  place and stores the vector objects. `zip(*m)` reads the stored vectors as
  columns. `m @ x` combines them with the coefficients `x`, `m @ n` multiplies
  column by column, and `m @ k` scales. `transpose` makes the rows into stored
  vectors, and `ned2efec` builds the north/east/down to earth-centred
  rotation.
- **Points and fusion.** A `Point` is a vector with per-axis uncertainties
  `dx`, `dy` and `dz`. Its `+` and `-` add half of the operand's uncertainty
  to its own. `barycentre` takes an uncertainty-weighted mean, axis by axis.
- **Triangulation.** `triangulate` computes the two closest points of two
  lines in closed form and fuses them. `localize` triangulates every pair of
  observations and fuses the results.

Files:

- `results.dfy`: the engine's exceptions and the `Result` type that carries
  them.
- `vectors.dfy`: vector values as `seq<real>`, plus the class `Vector`, whose
  cross product pads its operands in place.
- `points.dfy`: the `Point` datatype and its `+` and `-`.
- `fusion.dfy`: `barycentre`, as a specification function and as the loop
  the source runs.
- `triangulation.dfy`: `triangulate` and its closed-form solution.
- `localization.dfy`: `localize`, as nested loops proved against a
  specification.
- `matrices.dfy`: matrix values as `seq<seq<real>>`, the products,
  `transpose` and `ned2efec`, plus the class `Matrix`, whose constructor pads
  the caller's vector objects in place.

Numbers are exact reals. The square root is a parameter `root` about which
only `IsSqrt(root)` is assumed: it is non-negative and squares back to its
argument. Likewise `ned2efec` takes the cosines and sines `cl`, `sl`, `cp`
and `sp` of its two angles, with `cl² + sl² = 1` and `cp² + sp² = 1` where a
property needs them.

Errors follow the code. A cross product above three dimensions is a
`NotImplementedError`, modelled as `DimensionTooLarge`. An empty `max()` is a
`ValueError`, modelled as `EmptyArgument`. A point with fewer than three
components is an `IndexError`, and a zero divisor is a `ZeroDivisionError`.
Where a `Point` is expected, a plain `Vector` is a point with zero
uncertainties. This is exact in `barycentre` and `triangulate`, which read a
missing uncertainty as `0.`. The one case where a plain vector behaves
differently is the right operand of a point's `+` and `-`, which lends the
left operand's own uncertainty. The datatype `Addend` keeps that case apart.

## Model

| member | source | states |
|---|---|---|
| Vectors.AddCommutes | epsglide/algbr.py:16-26 | `a + b` is `b + a`, with as many components as the shorter operand |
| Vectors.SubUndoesAdd | epsglide/algbr.py:16-38 | subtracting `b` undoes adding it and the other way round, when `b` is not shorter than `a` |
| Vectors.NegProperties | epsglide/algbr.py:40-47 | `-(-a) == a`, `a + (-b) == a - b`, `a + (-a)` is the zero vector |
| Vectors.DotOfPairs | epsglide/algbr.py:90-91 | the dot product only reads the pairs `zip` forms (the shorter length) |
| Vectors.DotSymmetric | epsglide/algbr.py:90-91 | the dot product is symmetric |
| Vectors.MulSequenceSymmetric | epsglide/algbr.py:79-94 | `a * b` for iterable `b` equals `b * a` and sums the products over the shorter length |
| Vectors.MulScalarScales | epsglide/algbr.py:92-93 | `a * k` scales every component, keeps the length, and scales every dot product with `a` by `k` |
| Vectors.DotScaleLeft | epsglide/algbr.py:90-93 | scaling the left operand by `p` scales the dot product by `p` |
| Vectors.DotScaleBoth | epsglide/algbr.py:90-93 | scaling the operands by `p` and `q` scales the dot product by `p q` |
| Vectors.DotAddLeft | epsglide/algbr.py:16-26 | the dot product distributes over `+` of operands of equal length |
| Vectors.DotSubLeft | epsglide/algbr.py:28-38 | the dot product distributes over `-` of operands of equal length |
| Vectors.ScaleScale | epsglide/algbr.py:92-93 | scaling by `p` then `q` is scaling by `p q` |
| Vectors.DotZeros | epsglide/algbr.py:90-91 | all-zero components give a zero dot product |
| Vectors.DotZeroExtension | epsglide/algbr.py:108-111 | appending zeros, as the cross product's padding does, leaves dot products unchanged |
| Vectors.DotSelf | epsglide/algbr.py:10 | the sum of squares under `norm` is non-negative, and zero exactly for an all-zero vector |
| Vectors.DivisionRoundTrip | epsglide/algbr.py:49-62 | `/` refuses an iterable divisor and a zero divisor of a non-empty vector; otherwise the quotient has the same length and scaling it back gives the vector |
| Vectors.DivIsScale | epsglide/algbr.py:59-62 | dividing by a non-zero `k` is scaling by `1 / k` |
| Vectors.FloorDivisionBounds | epsglide/algbr.py:64-77 | `//` fails exactly when `/` fails, with the same error; otherwise each component is an integer at most the true quotient and within one of it |
| Vectors.CrossOrthogonal | epsglide/algbr.py:106-116 | `@` fails exactly when an operand has more than three components; otherwise the result has three components and is orthogonal to both operands |
| Vectors.CrossSelfIsZero | epsglide/algbr.py:106-116 | `v @ v` is the zero vector |
| Vectors.CrossAnticommutes | epsglide/algbr.py:112-116 | swapping the operands negates the cross product, and neither order fails without the other |
| Vectors.CrossLagrange | epsglide/algbr.py:106-116 | Lagrange's identity: the squared length of `a @ b` is `(a . a)(b . b) - (a . b)^2`, so the product is zero only when the operands are parallel |
| Vectors.NormalizeIsUnit | epsglide/algbr.py:118-125 | `normalize` fails (zero division) exactly on a non-empty zero vector; otherwise the result keeps the length and, unless empty, has norm one |
| Vectors.Vector.Cross | epsglide/algbr.py:96-116 | returns the cross product of the operands as they were; on success both operand objects end padded with zeros to three components (once when both are the same object), on failure both are unchanged |
| Points.UncertaintyGrowth | epsglide/algbr.py:228-256 | `+` and `-` add half the operand's uncertainty (or half the point's own for a plain vector), agree with each other on uncertainty, and never shrink a non-negative one |
| Points.MoveAndBack | epsglide/algbr.py:228-256 | adding and then subtracting a vector restores the position while each uncertainty grows to 2.25 times |
| Fusion.Barycentre | epsglide/algbr.py:264-300 | the loop that collects the six lists and then fuses them returns exactly `BarycentreOf(points)`, error cases included |
| Fusion.MaxBounds | epsglide/algbr.py:287-289 | `max(s)` bounds every element from above and is one of them |
| Fusion.MinBounds | epsglide/algbr.py:287-289 | `min(s)` bounds every element from below and is one of them |
| Fusion.DotAtLeast | epsglide/algbr.py:296-298 | with non-negative weights the weighted sum is at least the smallest term times the weight total |
| Fusion.DotAtMost | epsglide/algbr.py:296-298 | with non-negative weights the weighted sum is at most the largest term times the weight total |
| Fusion.DotConstant | epsglide/algbr.py:296-298 | equal terms `c` give the weighted sum `c` times the weight total |
| Fusion.DotUnitWeights | epsglide/algbr.py:296-298 | unit weights give the plain sum, and the weight total is the count |
| Fusion.WeightBounded | epsglide/algbr.py:287-293 | the weight of a non-negative uncertainty lies between `min'` and one; it is exactly one for the least uncertainty and exactly `min'` for the greatest, when that is positive |
| Fusion.WeightsBounded | epsglide/algbr.py:287-293 | with non-negative uncertainties every weight lies in `[min', 1]`, `min' >= 0`, the least uncertain points weigh one, the most uncertain weigh `min'` (when the greatest uncertainty is positive), and the weights sum to at least one |
| Fusion.WeightsAntitone | epsglide/algbr.py:287-293 | a point with a larger non-negative uncertainty never weighs more than one with a smaller one |
| Fusion.AxisMeanBetween | epsglide/algbr.py:287-298 | for a well-formed batch, each axis mean exists and lies between the smallest and largest coordinate on that axis |
| Fusion.BarycentreWithinRange | epsglide/algbr.py:264-300 | a well-formed batch has a barycentre with three coordinates, each within its axis range, and each uncertainty the mean of the inputs' |
| Fusion.BarycentreEqualUncertainties | epsglide/algbr.py:287-298 | when all uncertainties on an axis are equal, zero included, that coordinate is the plain mean |
| Fusion.BarycentreOfOne | epsglide/algbr.py:264-300 | the barycentre of one point is that point cut to three components |
| Fusion.AxisMeanOfConstant | epsglide/algbr.py:296-298 | equal coordinates on an axis have that coordinate as their weighted mean |
| Fusion.BarycentreOfCoincident | epsglide/algbr.py:295-299 | points at one position have that position as their barycentre |
| Triangulation.Offsets | epsglide/algbr.py:321-334 | the two offsets solve the 2×2 system that makes the joining segment orthogonal to both unit directions |
| Triangulation.OffsetsUnique | epsglide/algbr.py:321-334 | any solution of that system is the one `Offsets` returns |
| Triangulation.UnitCosine | epsglide/algbr.py:319-328 | unit-scaled directions have a squared dot product of one exactly when the directions are parallel |
| Triangulation.MultipleIsParallel | epsglide/algbr.py:325-328 | a non-zero multiple of a non-zero direction is parallel to it |
| Triangulation.NotParallelNonZero | epsglide/algbr.py:319-320 | non-parallel directions are both non-zero, so both normalise |
| Triangulation.UnitDirection | epsglide/algbr.py:319-320 | a non-zero direction normalises to itself scaled by the inverse of its positive norm, with unit squared length |
| Triangulation.AcceptedDirection | epsglide/algbr.py:319-320 | a three-component direction that normalises is non-zero |
| Triangulation.CosineOfDirections | epsglide/algbr.py:319-328 | after normalisation, `alpha * alpha == 1.0` exactly when the given directions are parallel |
| Triangulation.SolveFails | epsglide/algbr.py:327-329 | the solving step fails, with `NoConvergence`, exactly when `alpha * alpha == 1.0` |
| Triangulation.JoiningSegment | epsglide/algbr.py:321-334 | offsets solving the system give a joining segment orthogonal to both unit directions |
| Triangulation.SolveOrthogonal | epsglide/algbr.py:321-334 | the two points of the solving step are closest points of the two lines |
| Triangulation.MeetingOffsets | epsglide/algbr.py:321-334 | when the lines meet, `Offsets` returns the offsets of the meeting point |
| Triangulation.SolveMeeting | epsglide/algbr.py:321-334 | when the lines meet, the solving step returns the meeting point twice, with each uncertainty grown by half |
| Triangulation.FuseCoincidentPair | epsglide/algbr.py:331-335 | two points at one position fuse to that position |
| Triangulation.TriangulateFailsOnParallel | epsglide/algbr.py:319-329 | for non-zero directions, `triangulate` raises the no-convergence error exactly when the lines are parallel |
| Triangulation.TriangulateRefusesMultiple | epsglide/algbr.py:319-329 | a direction and a non-zero multiple of it are refused |
| Triangulation.ClosestApproach | epsglide/algbr.py:303-339 | the two points `triangulate` fuses lie on the two lines and their joining segment is orthogonal to both directions |
| Triangulation.FuseCoincident | epsglide/algbr.py:331-339 | coincident closest points give that position with the mean of the two observations' uncertainties |
| Triangulation.TriangulateMeetingLines | epsglide/algbr.py:303-339 | two non-parallel lines that meet triangulate to the meeting point, with the mean uncertainties |
| Triangulation.TriangulateSkew | epsglide/algbr.py:303-339 | any two non-parallel lines through three-dimensional points with non-negative uncertainties triangulate successfully, to the mean uncertainties, and each coordinate of the result lies between the same coordinates of the two closest points |
| Triangulation.FuseEnds | epsglide/algbr.py:331-339 | the last step of `triangulate`: the barycentre of two well-formed closest points carries the mean uncertainties and lies between them on every axis |
| Triangulation.TriangulateExample | epsglide/algbr.py:303-339 | the x axis and the line down through (5, 5, 0) triangulate to (5, 0, 0) |
| Localization.TriangulateRow | epsglide/algbr.py:345-346 | the inner loop appends the triangulations of row `i` or stops at the first error, in agreement with triangulating every pair still to visit |
| Localization.LocalizeBy | epsglide/algbr.py:342-347 | the nested loops and the barycentre return exactly `LocalizeWith(items, tri)` for any pair function |
| Localization.Localize | epsglide/algbr.py:342-347 | `localize` returns exactly `LocalizeOf(items, root)` |
| Localization.PairsBounded | epsglide/algbr.py:344-345 | the loops only visit pairs of distinct indices in range, the smaller first |
| Localization.PairsFromExactly | epsglide/algbr.py:344-345 | from `(i, j)` on, the loops visit exactly the pairs `p < q < n` not before `(i, j)` |
| Localization.PairsExactly | epsglide/algbr.py:344-345 | the loops visit exactly the pairs `p < q < n` |
| Localization.PairsFromIncreasing | epsglide/algbr.py:344-345 | from `(i, j)` on, the pairs come in strictly increasing lexicographic order |
| Localization.PairsIncreasing | epsglide/algbr.py:344-345 | the pairs come in lexicographic order, each once |
| Localization.PairsFromCount | epsglide/algbr.py:344-345 | the number of pairs still to visit from `(i, j)` |
| Localization.PairsCount | epsglide/algbr.py:344-346 | `n` observations give `n (n - 1) / 2` triangulations |
| Localization.TriangulateAllOutcome | epsglide/algbr.py:344-346 | when all pairs triangulate, result `k` is the triangulation of pair `k`; otherwise the error is that of the first failing pair |
| Localization.LocalizeTooFew | epsglide/algbr.py:342-347 | fewer than two observations fail as the barycentre of nothing |
| Localization.TriangulatedSpatial | epsglide/algbr.py:331-339 | a triangulated point has three coordinates |
| Localization.LocalizeTwo | epsglide/algbr.py:342-347 | two observations localize exactly as they triangulate, errors included |
| Localization.LocalizeFailsFirst | epsglide/algbr.py:344-346 | if some pair fails, `localize` fails with the error of the first failing pair in visiting order |
| Localization.TriangulateThrough | epsglide/algbr.py:346 | two non-parallel observations whose lines pass through `p` triangulate to `p` |
| Localization.LocalizeCommonPoint | epsglide/algbr.py:342-347 | observations whose lines all pass through `p`, no two parallel, localize to `p` |
| Matrices.Longest | epsglide/algbr.py:138 | the padding length is at least every vector's length, and some vector has it |
| Matrices.Shortest | epsglide/algbr.py:169 | `zip(*m)` forms as many rows as the shortest stored vector has components |
| Matrices.PaddedShape | epsglide/algbr.py:138-143 | padding fails only without vectors; otherwise it keeps the order and the components and fills with zeros to the longest length |
| Matrices.PaddedRectangular | epsglide/algbr.py:138-143 | vectors of one length are padded to themselves |
| Matrices.PaddedIdempotent | epsglide/algbr.py:138-143 | padding twice pads no further |
| Matrices.RowCombination | epsglide/algbr.py:168-170 | component `i` of `m @ x` is `Σ_j m[j][i] x[j]` |
| Matrices.MatVecCombination | epsglide/algbr.py:165-170 | `m @ x` fails with a size error exactly when `len(m) != len(x)`; otherwise it is the combination of the stored vectors with coefficients `x` |
| Matrices.MatMatColumns | epsglide/algbr.py:171-177 | `m @ n` fails for an empty `n` (index error) or `len(m) != len(n[0])` (size error); otherwise stored vector `k` of the result is `m @ n[k]` |
| Matrices.MatScale | epsglide/algbr.py:178-179 | `m @ k` fails only without vectors and otherwise scales every stored vector |
| Matrices.TransposeEntries | epsglide/algbr.py:202-209 | `transpose` fails exactly when there is no row; otherwise `t[i][j] == m[j][i]` |
| Matrices.TransposeTwice | epsglide/algbr.py:202-209 | transposing a non-empty rectangular matrix twice gives it back |
| Matrices.Ned2EcefRows | epsglide/algbr.py:196-200 | the rows of the rotation, written out |
| Matrices.Ned2EcefOrthonormal | epsglide/algbr.py:193-200 | the stored vectors of the rotation are orthonormal |
| Matrices.Ned2EcefRowsOrthonormal | epsglide/algbr.py:193-200 | the rows of the rotation are orthonormal |
| Matrices.Ned2EcefCross | epsglide/algbr.py:196-200 | north `@` east is down |
| Matrices.Ned2EcefPadded | epsglide/algbr.py:196-200 | building the rotation through the constructor pads nothing |
| Matrices.TransposeSquare | epsglide/algbr.py:202-209 | the transpose of a square matrix is its list of rows |
| Matrices.TimesTransposeEntries | epsglide/algbr.py:171-177 | entry `(k, i)` of `m @ m.transpose()` is the dot product of rows `i` and `k` |
| Matrices.TimesTransposeIdentity | epsglide/algbr.py:171-177 | a square matrix with orthonormal rows times its transpose is the identity |
| Matrices.Ned2EcefTimesTranspose | epsglide/algbr.py:181-209 | `m @ m.transpose()` is the identity for the rotation |
| Matrices.Matrix.PadAt | epsglide/algbr.py:140-142 | one loop step pads the `i`-th vector object to the longest length and keeps every earlier object padded |
| Matrices.Matrix.Create | epsglide/algbr.py:131-143 | without vectors `max()` fails; otherwise the new matrix stores the caller's objects in order, and their components are now the padded form of what they were |

## Left out

- `__repr__` of the three classes and the `__main__` demo are not modelled. The demo's three calls appear as `Ned2EcefCross` (N @ E is D), `Ned2EcefTimesTranspose` (the rotation times its transpose is the identity) and `TriangulateRefusesMultiple` with `LocalizeTwo` (localizing two observations whose directions are equal is refused).
- `math.radians`, `math.cos` and `math.sin` are not modelled: `ned2efec` takes the cosines and sines of its angles as parameters.
- `pow(…, 0.5)` in `norm` is the parameter `root`, of which only `IsSqrt` is known.
- IEEE floating-point rounding is not modelled. Numbers are exact reals, so `alpha2 == 1.0` is an exact test and the closed-form solution is exact.
- `Point.__init__` is the datatype constructor `Point`; its keyword defaults of `0.` are the zero uncertainties of a plain vector.
- Matrix products and `transpose` build new vector objects, so they are modelled on values; only `Matrix(*vectors)` and the cross product work on the caller's objects.
- A right operand of `Matrix.__matmul__` that is neither a `Vector`, a `Matrix` nor a number (for example a plain list) is not modelled.
- The loops of `localize` are proved for any pair function (`LocalizeBy`), and `Localize` applies them to `triangulate`. Nothing beyond the triangulation of each pair is assumed about it.
- Integer components and Python's integer arithmetic are not modelled separately from reals.
