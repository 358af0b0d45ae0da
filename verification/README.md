# Scalar-field cache coordinator and fixed-size linear algebra

This project models the `aether` graphics utilities in Dafny, in two parts.

**Scalar-field coordinator (main part).** A `ScalarFieldInstanceImpl` owns a grid of 4-component field samples and a mesh tessellated from it. The grid and the mesh are held in two nested arena regions, opened with `mem.enter()` and closed with `mem.leave()`. Changes to the parameters (`resolution`, `sampler`, `contourValue`) only mark levels stale. A read then recomputes only the stale levels.

There are two versions:

- `latest/js/scalarField.js` has three levels: resolution (the grid allocation), sampling (the values in it) and vertices (the mesh). It is modelled in `LatestField`.
- `src/prod/js/scalarField.ts` has two levels: sampling and vertices. It is modelled in `ProdField`.

Each instance is a value of a datatype, and each setter, getter and private method is a function from the old instance to the new one.

- The arena is the stack of region tags the instance holds above its starting depth (`Arena`).
- The WebAssembly exports are call counters, plus a record of what each call was given.
- `FieldGrid` models the arithmetic of the TypeScript version:
  - the grid length;
  - `normalize`, `denormalize` and `wrap`;
  - the memory layout written by the triple sampling loop;
  - the weights and corner strides of `get`.

**Linear algebra (second part).** `Vectors`, `MutableVectors`, `Matrices`, `Determinants`, `Quaternions` and `Projection` model `vector.ts`, `vector.js`, `matrix.ts`, `quaternion.ts` and `projection.ts`.

- Arithmetic is exact, over `real`.
- Vectors are `seq<real>` of any dimension, so one definition covers `Vec2`, `Vec3` and `Vec4`.
- Matrices are sequences of columns, as in `matrix.ts`: `m[j][i]` is row `i` of column `j`.
- The laws the test suites check within a tolerance are proved here as identities.
- The projection's matrix pairs are proved to be mutual inverses.

Where the TypeScript field and its own test suite disagree, the model follows the code:

- **Out-of-range queries.** `src/test/js/scalarField.test.ts:48-54` expects `(0, 0, 0, 0)` from `get` at ±1.01. `src/prod/js/scalarField.ts:254-260` has no such check; it wraps every coordinate into [-1, 1].
- **Corner weights.** The expected values at `src/test/js/scalarField.test.ts:18-31` are products of complementary distances. The code at `src/prod/js/scalarField.ts:148-155` uses `1 - product` (see Findings).

## Model

| member | source | states |
|---|---|---|
| Arena.Enter | latest/js/scalarField.js:66-67 | opening a region pushes it on top and keeps every open region below it |
| Arena.Leave | latest/js/scalarField.js:124-131 | a leave is only allowed when the innermost open region is the one the caller means to close; it pops exactly that region |
| Arena.Holding | latest/js/scalarField.js:124-145 | the regions held for given cache flags: grid iff the grid is valid, mesh iff the mesh is valid, mesh inside grid, never a scratch region |
| LatestField.InvalidateVertices | latest/js/scalarField.js:139-145 | marks the mesh stale and releases only the mesh region; the cascade and region invariant are kept and nothing else changes |
| LatestField.InvalidateSampling | latest/js/scalarField.js:132-138 | marks sampling and mesh stale, releases the mesh region, keeps the grid allocation and region |
| LatestField.InvalidateResolution | latest/js/scalarField.js:124-131 | marks all three levels stale and releases every region the instance holds |
| LatestField.New | latest/js/scalarField.js:51-69 | a new instance has all three levels stale, holds no region (both entered regions were left), has made no foreign call, and starts at resolution 1 |
| LatestField.SetResolution | latest/js/scalarField.js:80-83 | any resolution, even the current one, invalidates the resolution level and releases all regions; the sampler, contour value and call counts are unchanged |
| LatestField.SetSampler | latest/js/scalarField.js:87-94 | invalidates sampling but keeps the grid allocation; with a valid resolution, only the grid region stays held |
| LatestField.SetContourValue | latest/js/scalarField.js:98-101 | invalidates only the mesh; the resolution and sampling flags and the grid stay as they were |
| LatestField.DoSample | latest/js/scalarField.js:157-170 | afterwards resolution and sampling are valid. It allocates (`sampleScalarField`) exactly when resolution was stale, and resamples in place (`resampleScalarField`) exactly when only sampling was stale |
| LatestField.DoTesselate | latest/js/scalarField.js:146-156 | afterwards all levels are valid. It tessellates exactly when the mesh was stale, and does the sampling work of `doSample` first |
| LatestField.Vertices | latest/js/scalarField.js:102-105 | the mesh returned is the instance's cached mesh, built from a grid allocated and sampled at the current resolution with the current sampler and contour value |
| LatestField.Get | latest/js/scalarField.js:106-114 | resolves sampling only. The mesh flag and region are unchanged, and exactly one `interpolatedSample` call is added; its scratch region is released again. Nothing else differs from the instance `doSample` leaves |
| LatestField.GetNearest | latest/js/scalarField.js:115-123 | as `Get`, with one `nearestSample` call; nothing else differs from the instance `doSample` leaves |
| LatestField.InvalidateIdempotent | latest/js/scalarField.js:124-145 | invalidating a level that is already stale changes nothing, and invalidating twice is invalidating once |
| LatestField.VerticesRecomputesStaleLevels | latest/js/scalarField.js:146-170 | a `vertices` read makes at most one call of each export, and exactly the calls its stale levels need |
| LatestField.SecondReadIsCached | latest/js/scalarField.js:102-105 | a second `vertices` read with no setter in between changes nothing and makes no foreign call |
| LatestField.ContourValueRetessellatesOnly | latest/js/scalarField.js:98-101 | from a clean instance, a new contour value leaves only the grid region held, and the next read tessellates once without sampling |
| LatestField.SamplerResamplesInPlace | latest/js/scalarField.js:157-170 | with a valid resolution, a new sampler is resampled into the same allocation with one `resampleScalarField` call and no new region |
| LatestField.ResolutionReallocates | latest/js/scalarField.js:80-83 | after setting a resolution, the next sampling makes a fresh allocation for that resolution with one `sampleScalarField` call |
| LatestField.GetResolvesSamplingOnly | latest/js/scalarField.js:106-123 | `get` and `getNearest` leave resolution and sampling valid, the mesh flag unchanged and no tessellation |
| LatestField.Step | latest/js/scalarField.js:80-123 | every public operation keeps the invariants and never decreases a call count; setters make no foreign call |
| LatestField.Run | latest/js/scalarField.js:51-170 | along any sequence of public operations, at most two regions are held and never a scratch region |
| LatestField.RunCallsGrow | latest/js/scalarField.js:51-170 | call counts never decrease along any sequence of operations |
| ProdField.InvalidateVertices | src/prod/js/scalarField.ts:201-208 | marks the mesh stale and releases only the mesh region, keeping the invariants |
| ProdField.InvalidateSampling | src/prod/js/scalarField.ts:190-199 | marks sampling and mesh stale and releases the mesh region, then the grid region |
| ProdField.New | src/prod/js/scalarField.ts:85-89 | a new instance has both levels stale, holds no region, has allocated and tessellated nothing, and starts at resolution 1 |
| ProdField.SetResolution | src/prod/js/scalarField.ts:95-98 | changes the resolution, invalidates sampling and releases both regions |
| ProdField.SetSampler | src/prod/js/scalarField.ts:104-107 | changes the sampler, invalidates sampling and releases both regions |
| ProdField.SetContourValue | src/prod/js/scalarField.ts:113-116 | changes the contour value and releases only the mesh region |
| ProdField.DoSample | src/prod/js/scalarField.ts:222-244 | afterwards sampling is valid; it allocates a new grid exactly when sampling was stale and never tessellates |
| ProdField.DoTesselate | src/prod/js/scalarField.ts:210-220 | afterwards both levels are valid; it tessellates exactly when the mesh was stale |
| ProdField.Vertices | src/prod/js/scalarField.ts:118-121 | the mesh returned was tessellated from a grid of `GridLength(resolution)` slots sampled with the current sampler at the current resolution and contour value |
| ProdField.InvalidateIdempotent | src/prod/js/scalarField.ts:190-208 | invalidating a stale level changes nothing, and invalidating twice is invalidating once |
| ProdField.SecondReadIsCached | src/prod/js/scalarField.ts:118-121 | a second `vertices` read with no setter in between changes nothing |
| ProdField.SamplerReallocates | src/prod/js/scalarField.ts:222-244 | after a new sampler, the next sampling allocates a fresh grid (not in place, unlike the three-level version) |
| ProdField.ContourValueRetessellatesOnly | src/prod/js/scalarField.ts:113-116 | from a clean instance, a new contour value costs one tessellation and no allocation |
| ProdField.Get | src/prod/js/scalarField.ts:123-184 | corrected `get`: resolves sampling first, so the grid it reads is the one for the current sampler and resolution |
| ProdField.GetGridAsWritten | src/prod/js/scalarField.ts:173 | the grid `get` reads as written: whatever allocation `fieldRef` last pointed to, current or not |
| ProdField.GetAfterSetSamplerIsStale | src/prod/js/scalarField.ts:123-184 | as written, `get` after a sampler change reads the old grid, sampled with the old sampler, though its region was released; the corrected `Get` reads the new one |
| ProdField.GetBeforeFirstSample | src/prod/js/scalarField.ts:123-184 | as written, `get` on a fresh instance has no grid to read; the corrected `Get` samples one first |
| FieldGrid.GridLength | src/prod/js/scalarField.ts:227 | the grid length is at least one point of eight slots |
| FieldGrid.GridLengthCube | src/prod/js/scalarField.ts:227 | the length is eight slots for each of the `(res + 1)^3` points |
| FieldGrid.Normalize | src/prod/js/scalarField.ts:246-248 | index 0 maps to -1 and index `res` to 1 |
| FieldGrid.NormalizeRange | src/prod/js/scalarField.ts:246-248 | indices in `[0, res]` map into `[-1, 1]` |
| FieldGrid.RemainderOne | src/prod/js/scalarField.ts:254-260 | the JavaScript `% 1`, which truncates: the remainder has the sign of `x`, lies strictly within 1 of zero, and differs from `x` by an integer |
| FieldGrid.Wrap | src/prod/js/scalarField.ts:254-260 | every real lands in `[-1, 1]`, differing from the input by an integer; values already in `[-1, 1]` are unchanged |
| FieldGrid.Denormalize | src/prod/js/scalarField.ts:250-252 | every real maps into `[0, res]` |
| FieldGrid.DenormalizeNormalize | src/prod/js/scalarField.ts:246-252 | `denormalize` undoes `normalize` on `[0, res]` |
| FieldGrid.NormalizeDenormalize | src/prod/js/scalarField.ts:246-252 | `normalize` undoes `denormalize` on `[-1, 1]` |
| FieldGrid.PointContents | src/prod/js/scalarField.ts:234-239 | a grid point's eight slots are its normalized position in `[-1, 1]^3` with `w = 1`, then the sampler's four outputs at that same position |
| FieldGrid.Layout | src/prod/js/scalarField.ts:227-242 | the layout fills exactly `GridLength(res)` slots |
| FieldGrid.SlotIndexRowMajor | src/prod/js/scalarField.ts:230-242 | point `(x, y, z)` starts at slot `8 * ((z * (res + 1) + y) * (res + 1) + x)`: `x` fastest, `z` slowest |
| FieldGrid.LayoutSlot | src/prod/js/scalarField.ts:231-242 | slot `j` of point `(x, y, z)` in the layout is slot `j` of that point's eight values |
| FieldGrid.SampleRow | src/prod/js/scalarField.ts:233-240 | the inner loop writes one row of points at the cursor, advancing it by `8 * (res + 1)`, and leaves every other slot unchanged |
| FieldGrid.SamplePlane | src/prod/js/scalarField.ts:232-241 | the middle loop writes one plane of rows at the cursor and leaves every other slot unchanged |
| FieldGrid.SampleCube | src/prod/js/scalarField.ts:231-242 | the outer loop writes every plane in order from the cursor and leaves every other slot unchanged |
| FieldGrid.SampleGrid | src/prod/js/scalarField.ts:222-244 | sampling overwrites exactly the `GridLength(res)` slots at the grid's base with the layout, and nothing outside them |
| FieldGrid.PointSample | src/prod/js/scalarField.ts:231-241 | reading four slots at a point's slot index plus 4 yields the sampler's value at that point's normalized position |
| FieldGrid.Distances | src/prod/js/scalarField.ts:128-141 | the distances to the floor and ceiling are in `[0, 1)` and add back to `x` |
| FieldGrid.Weights | src/prod/js/scalarField.ts:148-155 | each of the eight weights `1 - product` lies in `(0, 1]` |
| FieldGrid.Normalized | src/prod/js/scalarField.ts:174-183 | each weight divided by the total reproduces the weight when multiplied back |
| FieldGrid.NormalizedWeightsSumToOne | src/prod/js/scalarField.ts:148-183 | the total weight is positive, and the normalized weights `w_c / w` sum to 1 |
| FieldGrid.Trunc | src/prod/js/scalarField.ts:254-260 | the integer part behind JavaScript's `x % 1`, rounded toward zero: within 1 of `x`, on the side of zero |
| FieldGrid.SlotIndex | src/prod/js/scalarField.ts:230-242 | the first slot of a grid point, 8 slots per point in x-fastest order (its layout is proved in `LayoutSlot`) |
| FieldGrid.CornerOffsets | src/prod/js/scalarField.ts:160-169 | eight corner offsets, one per corner |
| FieldGrid.CornerStride | src/prod/js/scalarField.ts:160-169 | the corner offsets are the slot distances to the neighbouring points: 8 along x, `8(res+1)` along y, `8(res+1)^2` along z, and their sums |
| FieldGrid.CornerSample | src/prod/js/scalarField.ts:171-183 | with the corrected base offset, each corner read yields the sampler's value at that corner of the cell |
| FieldGrid.BaseOffsetAsWritten | src/prod/js/scalarField.ts:171 | the base offset as written, counting points instead of slots |
| FieldGrid.BaseOffset | src/prod/js/scalarField.ts:171 | the corrected base offset: the first sampled value of the base corner |
| FieldGrid.OffsetMissesCorner | src/prod/js/scalarField.ts:171 | as written, the base offset for cell `(1, 0, 0)` is slot 5, inside point 0, where the corrected offset is slot 12; the read there mixes point 0's sample with point 1's x position |
| FieldGrid.AsWrittenRead | src/prod/js/scalarField.ts:171 | the four slots at offset 5 are the last three sampler outputs of point 0 followed by point 1's normalized x |
| FieldGrid.TrilinearWeights | src/test/js/scalarField.test.ts:18-31 | corrected weights: each of the eight lies in `[0, 1]` |
| FieldGrid.TrilinearInterpolates | src/test/js/scalarField.test.ts:18-31 | the corrected weights sum to 1 and reproduce each coordinate as the weighted position of the corners, as trilinear interpolation does |
| FieldGrid.TrilinearAtGridPoint | src/test/js/scalarField.test.ts:39-46 | at a grid point the corrected weights put everything on the base corner, as the bounds test expects at `(+1, +1, +1)` |
| FieldGrid.WeightsAreNotTrilinear | src/prod/js/scalarField.ts:148-155 | at `x = 0.25` on a lattice line, the normalized weights as written give the upper x corners a share of 0.5 where trilinear interpolation gives 0.25 |
| Vectors.Add | src/prod/js/vector.ts:184-191 | componentwise sum, same dimension |
| Vectors.Sub | src/prod/js/vector.ts:193-200 | componentwise difference, same dimension |
| Vectors.Mul | src/prod/js/vector.ts:202-209 | componentwise product, same dimension |
| Vectors.Div | src/prod/js/vector.ts:211-218 | componentwise quotient: each component times the divisor's component gives back the dividend's |
| Vectors.DivUndoesMul | src/prod/js/vector.ts:202-218 | dividing by a vector with no zero component undoes multiplying by it |
| Vectors.Scale | src/prod/js/vector.ts:220-227 | every component multiplied by the factor |
| Vectors.Neg | src/prod/js/vector.ts:247-254 | every component negated |
| Vectors.Max | src/prod/js/vector.ts:229-236 | each component is the larger of the two, so at least both and equal to one of them |
| Vectors.Min | src/prod/js/vector.ts:238-245 | each component is the smaller of the two, so at most both and equal to one of them |
| Vectors.Cross | src/prod/js/vector.ts:382-388 | the 3-D cross product is a 3-vector (its meaning is in `CrossOrthogonal`, `CrossAntiCommutative`, `TripleProductCyclic`) |
| Vectors.Dot | src/prod/js/vector.ts:265-272 | the dot product of two vectors of one dimension (its laws are the `Dot*` lemmas below) |
| Vectors.Cross2 | src/prod/js/vector.ts:501-506 | the 2-D cross product, a scalar (its laws are `Cross2Scale` and `Det2Transpose`) |
| Vectors.LengthSquared | src/prod/js/vector.ts:115-117 | the dot product of a vector with itself |
| Vectors.Mix | src/prod/js/vector.ts:127-129 | on the immutable instances, the affine combination of two vectors, returned fresh (its meaning is `MixIsAffineCombination`; the mutable instances are `MutableVectors.Mix`) |
| Vectors.WeightedSum | src/prod/js/vector.ts:131-133 | on the immutable instances, the weighted sum divided by the total weight, returned fresh (its meaning is `WeightedSumIsMix`; the mutable instances are `MutableVectors.WeightedSum`) |
| Vectors.AddAll | src/prod/js/vector.ts:149-151 | the immutable `addAll` (its meaning is `AddAllSums`) |
| Vectors.SubAll | src/prod/js/vector.ts:153-155 | the immutable `subAll` (its meaning is `SubAllSubtracts`) |
| Vectors.Project | latest/js/vector.js:46-48 | `v2` scaled by `dot(v1, v2) / lengthSquared(v2)` (its meaning is `ProjectPlusReject`) |
| Vectors.Reject | latest/js/vector.js:49-51 | `v1` minus its projection (its meaning is `RejectOrthogonal`) |
| Vectors.Prod | src/prod/js/vector.ts:274-283 | component `i` is the dot product of the vector with column `i`; `Matrices.ProdIsTransposeApply` relates it to the matrix product |
| Vectors.From | latest/js/vector.js:60-62 | the `d` consecutive elements of the array starting at `offset` |
| Vectors.Swizzle | src/prod/js/vector.ts:256-263 | position `i` holds `v[components[i]]`; it fails exactly when some component is absent from `v` |
| Vectors.MaxAll | src/prod/js/vector.ts:533-545 | each component is at least that component of every argument and equal to that component of one of them |
| Vectors.MinAll | src/prod/js/vector.ts:533-545 | each component is at most that component of every argument and equal to that component of one of them |
| Vectors.DeleteComponent | src/prod/js/vector.ts:778-786 | one element shorter; earlier positions keep their element, later ones take the following element |
| Vectors.DeleteComponentLoop | latest/js/vector.js:576-585 | the two copying loops compute exactly `DeleteComponent` |
| Vectors.AddCommutative | src/test/js/vector.test.ts:8-13 | addition is commutative |
| Vectors.AddAssociative | src/test/js/vector.test.ts:15-22 | addition is associative |
| Vectors.SubUndoesAdd | src/test/js/vector.test.ts:54-59 | subtraction undoes addition |
| Vectors.ScaleAssociative | src/test/js/vector.test.ts:26-32 | scaling twice is scaling by the product |
| Vectors.ScaleDistributesOverAdd | src/test/js/vector.test.ts:34-40 | scaling distributes over vector addition |
| Vectors.ScaleDistributesOverScalarAdd | src/test/js/vector.test.ts:42-49 | scaling by a sum of factors is the sum of the scaled vectors |
| Vectors.DotCommutative | src/prod/js/vector.ts:265-272 | the dot product is symmetric |
| Vectors.DotAddLeft | src/prod/js/vector.ts:265-272 | the dot product is additive in its first argument |
| Vectors.DotAddRight | src/prod/js/vector.ts:265-272 | the dot product is additive in its second argument |
| Vectors.DotScaleLeft | src/prod/js/vector.ts:265-272 | the dot product is homogeneous in its first argument |
| Vectors.DotScaleRight | src/prod/js/vector.ts:265-272 | the dot product is homogeneous in its second argument |
| Vectors.DotBasis | src/prod/js/vector.ts:265-272 | dotting with a basis vector picks out that component |
| Vectors.Dot2 | src/prod/js/vector.ts:487-492 | the generic dot product agrees with the 2-D formula |
| Vectors.Dot3 | src/prod/js/vector.ts:374-380 | the generic dot product agrees with the 3-D formula |
| Vectors.Dot4 | src/prod/js/vector.ts:265-272 | the generic dot product agrees with the 4-D formula |
| Vectors.CrossOrthogonal | src/prod/js/vector.ts:382-388 | the cross product is orthogonal to both factors |
| Vectors.CrossAntiCommutative | src/prod/js/vector.ts:382-388 | swapping the factors negates the cross product |
| Vectors.TripleProductCyclic | src/prod/js/vector.ts:382-388 | the scalar triple product is invariant under cyclic permutation |
| Vectors.NegIsScale | src/prod/js/vector.ts:220-254 | `neg(v)` is `scale(v, -1)` |
| Vectors.CrossScale | src/prod/js/vector.ts:382-388 | the cross product is bilinear under scaling |
| Vectors.Cross2Scale | src/prod/js/vector.ts:501-506 | the 2-D cross product is bilinear under scaling |
| Vectors.MixIsAffineCombination | src/prod/js/vector.ts:127-129 | `mix(w, v1, v2)` is `w v1 + (1 - w) v2` componentwise; it gives `v1` at `w = 1` and `v2` at `w = 0` |
| Vectors.WeightedSumIsMix | src/prod/js/vector.ts:131-133 | `weightedSum(w1, v1, w2, v2)` is the mix with weight `w1 / (w1 + w2)` |
| Vectors.AddAllSums | src/prod/js/vector.ts:149-151 | `addAll` adds, component by component, the sum of every vector in the list |
| Vectors.SubAllSubtracts | src/prod/js/vector.ts:153-155 | `subAll` subtracts, component by component, the sum of every vector in the list |
| Vectors.ProjectPlusReject | latest/js/vector.js:46-51 | the projection and rejection of `v1` on `v2` add up to `v1` |
| Vectors.RejectOrthogonal | latest/js/vector.js:49-51 | the rejection is orthogonal to `v2` |
| MutableVectors.Combine | src/prod/js/vector.ts:575-637 | each component is the binary operation applied to the two components |
| MutableVectors.Apply | src/prod/js/vector.ts:575-637 | updates `v1` in place with the componentwise result, returns `v1` itself, and leaves `v2` unchanged unless it is `v1` itself |
| MutableVectors.Scale | src/prod/js/vector.ts:607-613 | scales the array in place and returns it |
| MutableVectors.Neg | src/prod/js/vector.ts:631-637 | negates the array in place and returns it |
| MutableVectors.Fold | src/prod/js/vector.ts:519-545 | folding a list keeps the dimension |
| MutableVectors.FoldIsImmutableFold | src/prod/js/vector.ts:519-545 | the in-place folds compute `AddAll`, `SubAll`, `MaxAll` and `MinAll` |
| MutableVectors.AliasedFold | latest/js/vector.js:359-382 | the in-place fold from a given list position on, where some list elements are `v` itself; such an element contributes the value accumulated so far |
| MutableVectors.AliasedFoldWithoutAliases | latest/js/vector.js:359-382 | when no element is flagged as `v`, the in-place fold from position `k` is the fold of the values at the call over the list from `k` |
| MutableVectors.NoAliasFold | latest/js/vector.js:359-382 | when no array of the list is `v`, the in-place fold of the whole list is the fold of the values at the call |
| MutableVectors.SelfAddAllDoubles | latest/js/vector.js:359-364 | `addAll(a, a, a)` with `a = [1]` leaves `[4]`, while the fold of the values at the call is `[3]` |
| MutableVectors.FoldAll | latest/js/vector.js:359-382 | folds every list element into `v` in place and returns `v` itself. The list may contain `v`, whose elements then read the running value. The result is the fold of the values at the call when no element is `v`. List arrays other than `v` are unchanged |
| MutableVectors.Mix | latest/js/vector.js:17-19 | the inherited `mix` on a mutable instance returns `v1` itself. With two distinct arrays, `v1` ends as the immutable mix and `v2` is overwritten with itself scaled by `1 - w`. With one array passed twice, it ends as `2w(1 - w)` times its contents |
| MutableVectors.WeightedSum | latest/js/vector.js:20-22 | the inherited `weightedSum` on a mutable instance returns `v1` itself. With two distinct arrays, `v1` ends as the immutable weighted sum and `v2` is overwritten with itself scaled by `w2`. With one array passed twice, it ends as `2 w1 w2 / (w1 + w2)` times its contents |
| MutableVectors.ScaleTwiceDoubled | latest/js/vector.js:17-22 | scaling by `f` then `g`, adding the result to itself and scaling by `h` is one scaling by `2fgh`: what an aliased `mix`/`weightedSum` does |
| MutableVectors.SelfMixIsSelf | src/prod/js/vector.ts:127-133 | the immutable `mix` and `weightedSum` of a vector with itself give the vector back, for every weight |
| MutableVectors.SelfMixShrinks | latest/js/vector.js:17-22 | in place, `mix(1/2, a, a)` with `a = [1]` leaves `[0.5]`, and `weightedSum(1, a, 3, a)` leaves `[1.5]`, where the immutable versions give `[1]` |
| MutableVectors.ImmutableFoldAll | src/prod/js/vector.ts:149-163 | copies `v` before folding, so it returns a fresh array and modifies no input |
| MutableVectors.From | latest/js/vector.js:356-358 | a fresh array holding the same elements as the immutable `from` |
| MutableVectors.Project | latest/js/vector.js:395-397 | a fresh array holding the immutable projection |
| MutableVectors.Reject | latest/js/vector.js:398-400 | a fresh array holding the immutable rejection |
| Quaternions.Mul | src/prod/js/quaternion.ts:16-25 | the product is a quaternion (its meaning is `MulVectorForm`) |
| Quaternions.LengthSquared | src/prod/js/quaternion.ts:47-49 | the 4-D squared length of the tuple (expanded in `LengthSquaredExpanded`) |
| Quaternions.Conj | src/prod/js/quaternion.ts:35-37 | negates x, y and z and keeps w |
| Quaternions.MulVectorForm | src/prod/js/quaternion.ts:16-25 | the product written per component is the Hamilton product `(v1 × v2 + w1 v2 + w2 v1, w1 w2 - v1 · v2)` |
| Quaternions.LengthSquaredExpanded | src/prod/js/quaternion.ts:47-49 | the squared length is the sum of the four squares |
| Quaternions.MulOne | src/prod/js/quaternion.ts:16-25 | `(0, 0, 0, 1)` is a two-sided unit of the product |
| Quaternions.ConjInvolution | src/prod/js/quaternion.ts:35-37 | conjugating twice gives the quaternion back |
| Quaternions.AddSubConj | src/test/js/quaternion.test.ts:9-19 | `q + conj q = (0, 0, 0, 2w)` and `q - conj q = (2x, 2y, 2z, 0)` |
| Quaternions.MulConj | src/test/js/quaternion.test.ts:21-28 | `q conj q = conj q q = (0, 0, 0, lengthSquared q)` |
| Quaternions.ConjMul | src/test/js/quaternion.test.ts:34-38 | `conj (q1 q2) = conj q2 conj q1` |
| Quaternions.MulScaleRight | src/prod/js/quaternion.ts:16-29 | the product is homogeneous in its second factor |
| Quaternions.MulScaleLeft | src/prod/js/quaternion.ts:16-29 | the product is homogeneous in its first factor |
| Quaternions.Inverse | src/prod/js/quaternion.ts:43-45 | the inverse is a quaternion (its meaning is in `MulInverse`) |
| Quaternions.MulInverse | src/test/js/quaternion.test.ts:71-79 | for nonzero `q`, both products of `q` and its inverse are `(0, 0, 0, 1)` |
| Matrices.Apply | src/prod/js/matrix.ts:181-188 | the matrix applied to a vector gives a vector of the same dimension (its entries are `ApplyEntry`) |
| Matrices.ProjectionOn | src/prod/js/matrix.ts:327-329 | a square matrix of the vector's dimension (its meaning is `ApplyProjectionOn`) |
| Matrices.ScalingAlong | src/prod/js/matrix.ts:331-341 | a square matrix of the vector's dimension (its meaning is `ApplyScalingAlong` and `ScalingAlongUniform`) |
| Matrices.ColumnMajorArray | src/prod/js/matrix.ts:274-281 | the columns one after the other (its meaning is `ColumnMajorArrayLength` and `ColumnMajorArrayEntry`) |
| Matrices.ProdIsTransposeApply | src/prod/js/vector.ts:274-283 | `prod(v, m)` multiplies the row vector `v` by `m`: it is the transpose of `m` applied to `v` |
| Matrices.Row | src/prod/js/matrix.ts:181-188 | row `i` collects component `i` of every column |
| Matrices.Diagonal | src/prod/js/matrix.ts:52-59 | the given values on the diagonal, zero elsewhere |
| Matrices.Identity | src/prod/js/matrix.ts:48-50 | column `j` is the unit vector along axis `j` |
| Matrices.Outer | src/prod/js/matrix.ts:61-68 | entry `(i, j)` is `v1[i] * v2[j]` |
| Matrices.Neg | src/prod/js/matrix.ts:190-197 | every column negated |
| Matrices.Scale | src/prod/js/matrix.ts:199-206 | every column scaled |
| Matrices.Add | src/prod/js/matrix.ts:208-215 | columnwise sum |
| Matrices.Sub | src/prod/js/matrix.ts:217-224 | columnwise difference |
| Matrices.Mul | src/prod/js/matrix.ts:226-233 | column `j` of the product is the first matrix applied to column `j` of the second |
| Matrices.Transpose | src/prod/js/matrix.ts:245-252 | entry `(j, i)` of the transpose is entry `(i, j)` of the matrix |
| Matrices.Cast | src/prod/js/matrix.ts:167-179 | the smaller matrix in the top-left corner, the identity elsewhere |
| Matrices.ApplyEntry | src/prod/js/matrix.ts:181-188 | component `i` of `m v` is row `i` dotted with `v` |
| Matrices.MulEntry | src/prod/js/matrix.ts:226-233 | entry `(j, i)` of a product is row `i` of the first dotted with column `j` of the second |
| Matrices.Mul2Entries | src/prod/js/matrix.ts:605-610 | the generic product agrees with the 2×2 formula |
| Matrices.Mul3Entries | src/prod/js/matrix.ts:476-482 | the generic product agrees with the 3×3 formula |
| Matrices.Mul4Entries | src/prod/js/matrix.ts:226-233 | the generic product agrees with the 4×4 formula |
| Matrices.ApplyAdd | src/prod/js/matrix.ts:181-188 | applying a matrix is additive in the vector |
| Matrices.ApplyScale | src/prod/js/matrix.ts:181-188 | applying a matrix is homogeneous in the vector |
| Matrices.ApplyAddMat | src/prod/js/matrix.ts:181-215 | applying a sum of matrices is the sum of the applications |
| Matrices.ApplyScaleMat | src/prod/js/matrix.ts:181-206 | applying a scaled matrix scales the result |
| Matrices.NegIsScale | src/prod/js/matrix.ts:190-206 | `neg(m)` is `scale(m, -1)` |
| Matrices.ApplyNeg | src/prod/js/matrix.ts:181-197 | applying a negated matrix negates the result |
| Matrices.ApplyMul | src/prod/js/matrix.ts:181-233 | applying a product is applying its factors in turn |
| Matrices.ApplyIdentity | src/prod/js/matrix.ts:48-50 | the identity leaves every vector unchanged |
| Matrices.ApplyBasis | src/prod/js/matrix.ts:181-188 | applying a matrix to the unit vector `j` gives column `j` |
| Matrices.AddCommutative | src/test/js/matrix.test.ts:8-13 | matrix addition is commutative |
| Matrices.AddAssociative | src/test/js/matrix.test.ts:15-21 | matrix addition is associative |
| Matrices.SubUndoesAdd | src/test/js/matrix.test.ts:26-32 | subtraction undoes addition |
| Matrices.ScaleAssociative | src/test/js/matrix.test.ts:37-43 | scaling twice is scaling by the product |
| Matrices.ScaleDistributesOverAdd | src/test/js/matrix.test.ts:45-51 | scaling distributes over matrix addition |
| Matrices.ScaleDistributesOverScalarAdd | src/test/js/matrix.test.ts:53-60 | scaling by a sum of factors is the sum of the scaled matrices |
| Matrices.MulIdentity | src/test/js/matrix.test.ts:65-72 | the identity is a two-sided unit of the product |
| Matrices.MulAssociative | src/test/js/matrix.test.ts:74-79 | the product is associative |
| Matrices.MulDistributesRight | src/test/js/matrix.test.ts:81-86 | the product distributes over a sum on the left factor |
| Matrices.MulDistributesLeft | src/test/js/matrix.test.ts:88-93 | the product distributes over a sum on the right factor |
| Matrices.MulScalarFactorization | src/test/js/matrix.test.ts:95-103 | a scalar factor moves out of either factor of a product |
| Matrices.RowOfTranspose | src/prod/js/matrix.ts:245-252 | the rows of the transpose are the columns of the matrix |
| Matrices.TransposeInvolution | src/prod/js/matrix.ts:245-252 | transposing twice gives the matrix back |
| Matrices.TransposeMul | src/test/js/matrix.test.ts:105-110 | the transpose of a product is the product of the transposes in reverse order |
| Matrices.ColumnMajorArrayLength | src/prod/js/matrix.ts:274-281 | the flattened array has `D * D` elements |
| Matrices.ColumnMajorArrayEntry | src/prod/js/matrix.ts:274-281 | element `D * j + i` of the flattened array is entry `i` of column `j` |
| Matrices.ApplyOuter | src/prod/js/matrix.ts:61-68 | the outer product maps `w` to `v1` scaled by `v2 · w` |
| Matrices.ApplyProjectionOn | src/prod/js/matrix.ts:327-329 | `projectionOn(v)` maps `w` to its projection on `v` |
| Matrices.ScalingAlongUniform | src/prod/js/matrix.ts:331-341 | with equal factors, `scalingAlong` is the uniform diagonal, whatever `v`, and scales every vector by that factor |
| Matrices.ApplyScalingAlong | src/prod/js/matrix.ts:331-341 | with different factors, it scales the part parallel to `v` by one factor and the perpendicular part by the other |
| Matrices.ScalingAlongParallel | src/prod/js/matrix.ts:331-341 | `v` itself is scaled by the parallel factor |
| Matrices.ScalingAlongPerpendicular | src/prod/js/matrix.ts:331-341 | vectors orthogonal to `v` are scaled by the perpendicular factor |
| Matrices.CastIdentity | src/prod/js/matrix.ts:167-179 | casting an identity gives the larger identity |
| Determinants.Det2 | src/prod/js/matrix.ts:612-614 | the 2×2 determinant, the 2-D cross product of the columns |
| Determinants.Det3 | src/prod/js/matrix.ts:484-486 | the 3×3 determinant, the triple product of the columns |
| Determinants.Minor | src/prod/js/matrix.ts:283-285 | the determinant of the 3×3 matrix left after deleting a column and a row |
| Determinants.Det4 | src/prod/js/matrix.ts:235-243 | the 4×4 determinant, expanded along column 0 |
| Determinants.Adjugate2 | src/prod/js/matrix.ts:623-631 | the 2×2 matrix `inverse` scales (its meaning is `Adjugate2Product`) |
| Determinants.Adjugate4 | src/prod/js/matrix.ts:254-272 | the 4×4 matrix `inverse` scales: entry `(j, i)` is the signed minor `(i, j)` |
| Determinants.Inverse2 | src/prod/js/matrix.ts:623-631 | the 2×2 inverse (its meaning is `Inverse2IsInverse`) |
| Determinants.Inverse3 | src/prod/js/matrix.ts:496-502 | the 3×3 inverse (its meaning is `Inverse3IsInverse`) |
| Determinants.Inverse4 | src/prod/js/matrix.ts:254-272 | the 4×4 inverse: the adjugate divided by the determinant |
| Determinants.SubMat | src/prod/js/matrix.ts:287-294 | the 3×3 matrix left after deleting one column and one row, the rest in order |
| Determinants.Adjugate3 | src/prod/js/matrix.ts:496-502 | the matrix `inverse` scales: the transpose of `[m1 × m2, m2 × m0, m0 × m1]`, entry by entry |
| Determinants.Adjugate3Rows | src/prod/js/matrix.ts:496-502 | row `k` of the adjugate is the cross product of the two other columns, in cyclic order |
| Determinants.DetIdentity | src/test/js/matrix.test.ts:116-118 | the determinant of the identity is 1 in 2, 3 and 4 dimensions |
| Determinants.Det2Transpose | src/test/js/matrix.test.ts:120-124 | a 2×2 matrix and its transpose have the same determinant |
| Determinants.Det3Transpose | src/test/js/matrix.test.ts:120-124 | a 3×3 matrix and its transpose have the same determinant |
| Determinants.Det2Mul | src/test/js/matrix.test.ts:134-139 | the determinant of a 2×2 product is the product of the determinants |
| Determinants.Det3Mul | src/test/js/matrix.test.ts:134-139 | the determinant of a 3×3 product is the product of the determinants |
| Determinants.Det2Outer | src/test/js/matrix.test.ts:141-146 | a 2×2 outer product has determinant 0 |
| Determinants.Det3Outer | src/test/js/matrix.test.ts:141-146 | a 3×3 outer product has determinant 0 |
| Determinants.Det2Scale | src/prod/js/matrix.ts:612-614 | scaling a 2×2 matrix scales its determinant by the square of the factor |
| Determinants.Det3Scale | src/prod/js/matrix.ts:484-486 | scaling a 3×3 matrix scales its determinant by the cube of the factor |
| Determinants.ScaledAdjugateIsInverse | src/prod/js/matrix.ts:496-502 | a matrix whose products with `m` are `d` times the identity becomes the inverse of `m` when divided by `d` |
| Determinants.Adjugate2Product | src/prod/js/matrix.ts:623-631 | both products of a 2×2 matrix with its adjugate are the determinant times the identity |
| Determinants.Adjugate3Product | src/prod/js/matrix.ts:496-502 | both products of a 3×3 matrix with its adjugate are the determinant times the identity |
| Determinants.Adjugate3Transpose | src/prod/js/matrix.ts:496-502 | the adjugate of the transpose is the transpose of the adjugate |
| Determinants.Inverse2IsInverse | src/test/js/matrix.test.ts:151-158 | a 2×2 matrix with nonzero determinant times its inverse is the identity, on both sides |
| Determinants.Inverse3IsInverse | src/test/js/matrix.test.ts:151-158 | a 3×3 matrix with nonzero determinant times its inverse is the identity, on both sides |
| Determinants.Det2Inverse | src/test/js/matrix.test.ts:126-132 | the determinant of a 2×2 inverse is the reciprocal of the determinant |
| Determinants.Det3Inverse | src/test/js/matrix.test.ts:126-132 | the determinant of a 3×3 inverse is the reciprocal of the determinant |
| Determinants.Det3Cast | src/prod/js/matrix.ts:428-434 | embedding a 2×2 matrix in 3×3 keeps its determinant |
| Determinants.Det4Cast | src/prod/js/matrix.ts:167-179 | embedding a 3×3 matrix in 4×4 keeps its determinant |
| Projection.Infinite | src/prod/js/projection.ts:58-74 | the matrix pair for a far plane at infinity (its meaning is `InfiniteIsInverse` and `InfiniteDepth`) |
| Projection.Finite | src/prod/js/projection.ts:76-92 | the matrix pair for a finite far plane (its meaning is `FiniteIsInverse` and `FiniteDepth`) |
| Projection.InfiniteLimits | src/prod/js/projection.ts:17-23 | the limits passed to `infinite`: the first is nonzero, and their difference is the depth of the near plane: -1 in legacy mode, 1 with reversed Z, else 0 |
| Projection.Bounded | src/prod/js/projection.ts:25-29 | the finite pair for the given plane order and mode (its meaning is `BoundedIsInverse` and `BoundedDepth`) |
| Projection.Construct | src/prod/js/projection.ts:16-30 | the constructor's pair (its meaning is `ConstructIsInverse` and the `ConstructDepth*` lemmas) |
| Projection.ScaledPair | src/prod/js/projection.ts:33-41 | `matrices(f, a)` (its meaning is `ScaledPairIsInverse`) |
| Projection.Matrix | src/prod/js/projection.ts:43-48 | `matrix(f, a)` (its meaning is `MatrixAndInverseMatrix`) |
| Projection.InverseMatrix | src/prod/js/projection.ts:50-56 | `inverseMatrix(f, a)` (its meaning is `MatrixAndInverseMatrix`) |
| Projection.ScaleFactors | src/prod/js/projection.ts:33-41 | the y factor is the x factor times the aspect ratio; y gets the focal length when the aspect ratio exceeds 1, otherwise x does |
| Projection.ProjectionMatrix | src/prod/js/projection.ts:96-103 | `scaleX` and `scaleY` on the diagonal of columns 0 and 1, columns 2 and 3 copied from the perspective matrix |
| Projection.BlockDiagMul | src/prod/js/projection.ts:96-103 | products of matrices with a scaled top-left diagonal and a 2×2 bottom-right block multiply block by block |
| Projection.BlockDiagInverse | src/prod/js/projection.ts:33-41 | reciprocal scales and mutually inverse 2×2 blocks give mutually inverse 4×4 matrices |
| Projection.InfiniteIsInverse | src/prod/js/projection.ts:58-74 | the pair `infinite(near, l1, l2)` returns is mutually inverse whenever `near * l1 != 0` |
| Projection.FiniteIsInverse | src/prod/js/projection.ts:76-92 | the pair `finite(near, far, sum, prod)` returns is mutually inverse whenever `far != near` and `prod != 0` |
| Projection.BoundedIsInverse | src/prod/js/projection.ts:25-29 | each of the four finite branches of the constructor gives a mutually inverse pair |
| Projection.ConstructIsInverse | src/prod/js/projection.ts:16-30 | every branch of the constructor gives a mutually inverse pair |
| Projection.Depth | src/prod/js/projection.ts:58-92 | a depth exists exactly when the projected `w` is nonzero |
| Projection.FiniteDepth | src/prod/js/projection.ts:76-92 | the finite matrix maps view depth `z` to `(z sum - prod) / (z (far - near))` |
| Projection.InfiniteDepth | src/prod/js/projection.ts:58-74 | the infinite matrix maps view depth `z` to `l2 - near l1 / z` |
| Projection.BoundedDepth | src/prod/js/projection.ts:25-29 | the first plane argument maps to -1 (legacy) or 0, the second to 1 |
| Projection.ConstructDepthBounded | src/prod/js/projection.ts:16-30 | the near plane maps to 0 (or -1 in legacy) and the far plane to 1; with reversed Z, near maps to 1 and far to 0 (or -1) |
| Projection.InfiniteDepthAtNear | src/prod/js/projection.ts:58-74 | the near plane maps to `l2 - l1` |
| Projection.ConstructDepthInfinite | src/prod/js/projection.ts:17-23 | without a far plane, the near plane maps to the same depth as in the finite case: 0, or -1 in legacy mode, or 1 with reversed Z |
| Projection.ProjectionMatrixBlock | src/prod/js/projection.ts:96-103 | on a perspective matrix in block form, `projectionMatrix` only replaces the top-left scales |
| Projection.ProjectionMatrixDepth | src/prod/js/projection.ts:96-103 | replacing the scales does not change the depth any point maps to |
| Projection.ScaledPairIsInverse | src/prod/js/projection.ts:33-41 | for nonzero focal length and aspect ratio, `matrices(f, a)` returns a mutually inverse pair |
| Projection.InverseScaleFactors | src/prod/js/projection.ts:50-56 | the reciprocal scales `inverseMatrix` computes are the reciprocals of the scales `matrices` uses |
| Projection.MatrixAndInverseMatrix | src/prod/js/projection.ts:43-56 | `matrix(f, a)` is `matrices(f, a)[0]` and `inverseMatrix(f, a)` is `matrices(f, a)[1]` |

## Left out

- WebAssembly loading and linking, and the sampler proxy that forwards to the current sampler: foreign glue. The sampler is an abstract value in the coordinators and a pure function in `FieldGrid`.
- The proxy's initial `sampleAt`, which throws `Unimplemented!` until a sampler is set (latest/js/scalarField.js:33-37): exceptions are not modelled, and the model's instances always hold a sampler.
- Exceptions from the exports: the model takes every export call to return. In the source, `doSample` enters the grid region before `sampleScalarField` (latest/js/scalarField.js:157-170), so a throw there leaves that region open with `resolutionDirty` still true. Likewise `get` and `getNearest` (latest/js/scalarField.js:106-123) leave their scratch region open when the export throws.
- The work done inside the WebAssembly exports (`sampleScalarField`, `resampleScalarField`, `tesselateScalarField`, `interpolatedSample`, `nearestSample`): foreign code. The coordinators record each call and its arguments; the interpolated values themselves are not modelled.
- Arena internals (`allocate32`, `allocate64`, typed-array views, `view64` re-creation when the buffer grows): only the nesting of regions is modelled.
- Floating point: all arithmetic is over `real`. Rounding, NaN and infinities are not modelled. Every member that divides requires a nonzero divisor, where JavaScript would produce an infinity or NaN.
- Everything built on `sqrt`, `acos`, `sin` or `cos`: `length`, `unit`, `setLength`, `angle`, `equal`, matrix rotations, `crossProdRotation`, `lookTowards`, `lookAt`, `Mat4.projection`, quaternion `rotation`, `transform`, `toMatrix` and `unit`.
- `gen`, `of`, `scaling`, `translation`, `translated` and `affine`: constructors by display, with nothing to prove beyond their definition.
- The mutable `div`: only the immutable `Div` is modelled.
- `Determinants.Adjugate4` and `Determinants.Inverse4`: only their shape is stated. For 4×4, the only laws proved are `Det4Cast` and the identity case of `DetIdentity`.
- Resolutions below 1: `FieldGrid.Layout` and `FieldGrid.SampleGrid` require `resolution >= 1`, and the coordinators record the resolution as given.
- The weight and stride arithmetic of the TypeScript `get` is modelled in `FieldGrid`. Reading the eight samples through a Float64Array view and summing them with `addAll` is not.
- FieldGrid.CornerSample: requires every corner of the cell to be a grid point (`x0 + cx <= resolution`, likewise for y and z). At `+1` on an axis the floor index is `resolution`, so the upper corners along that axis lie outside the grid, and reads there are not modelled. For the point `(+1, +1, +1)`, which src/test/js/scalarField.test.ts:39-46 reads, `FieldGrid.TrilinearAtGridPoint` shows that the corrected weights give those reads weight 0.
- FieldGrid.CornerOffsets: its own contract only gives the count; the distances the offsets stand for are `FieldGrid.CornerStride`.
- FieldGrid.SlotIndex, FieldGrid.BaseOffset and FieldGrid.BaseOffsetAsWritten carry no contract of their own. The slot layout is `FieldGrid.LayoutSlot`; the two offsets are compared in `FieldGrid.OffsetMissesCorner` and used in `FieldGrid.CornerSample`.
- FieldGrid.GridLength: its own contract only gives a lower bound; the exact count is `FieldGrid.GridLengthCube`.
- FieldGrid.Layout: its own contract only gives the length; the position of every slot is `FieldGrid.LayoutSlot` and `FieldGrid.PointContents`.
- Vectors.Cross: its own contract only gives the dimension; its meaning is in `Vectors.CrossOrthogonal`, `Vectors.CrossAntiCommutative` and `Vectors.TripleProductCyclic`.
- Quaternions.Inverse: its own contract only gives the shape; its meaning is in `Quaternions.MulInverse`.
- Quaternions.Mul: its own contract only gives the shape; its meaning is in `Quaternions.MulVectorForm`.
- Vectors.From: requires `offset + d <= |a|`. JavaScript reads `undefined` past the end of the array, a value with no counterpart among the reals.
- MutableVectors.From: requires `offset + d <= a.Length`, for the same reason as `Vectors.From`.
- MutableVectors.Fold: its own contract only gives the dimension; `MutableVectors.FoldIsImmutableFold` relates it to `AddAll`, `SubAll`, `MaxAll` and `MinAll`.
- Vectors.Dot, Vectors.Cross2, Vectors.LengthSquared, Vectors.Mix, Vectors.WeightedSum, Vectors.AddAll, Vectors.SubAll, Vectors.Project and Vectors.Reject carry no contract of their own. Their laws are the lemmas named in their rows.
- Matrices.Apply, Matrices.ProjectionOn and Matrices.ScalingAlong: their own contracts only give the dimension, and Matrices.ColumnMajorArray carries none. Their meaning is in the lemmas named in their rows.
- Determinants.Det2, Determinants.Det3, Determinants.Det4 and Determinants.Minor carry no contract of their own, and Determinants.Adjugate2, Determinants.Inverse2 and Determinants.Inverse3 only state their shape. Their laws are the determinant and inverse lemmas.
- Projection.Infinite, Projection.Finite, Projection.Bounded, Projection.Construct, Projection.ScaledPair, Projection.Matrix and Projection.InverseMatrix: their own contracts only give the shape. Their meaning is in the `*IsInverse` and `*Depth` lemmas named in their rows.
- ProdField.GetGridAsWritten carries no contract of its own; `ProdField.GetAfterSetSamplerIsStale` and `ProdField.GetBeforeFirstSample` state what it reads.

## Findings

| source | as written | input that shows it | evidently intended | confidence | as-written member | corrected member |
|---|---|---|---|---|---|---|
| src/prod/js/scalarField.ts:171 | `offset = (z0 * r + y0) * r + x0 + 4` counts points, not slots, while the corner strides at lines 160-169 count slots (8 per point) | cell `(1, 0, 0)`, any resolution: offset 5 reads point 0's last three outputs and point 1's x position | `offset = 8 * ((z0 * r + y0) * r + x0) + 4`, the first output of point `(x0, y0, z0)` | not executed | FieldGrid.OffsetMissesCorner | FieldGrid.CornerSample |
| src/prod/js/scalarField.ts:148-155 | corner weight `1 - dx * dy * dz`, normalized by the total | `(0.25, 0, 0)` on a lattice line: the upper x corners get 0.5 of the weight | trilinear weights (products of complementary distances), as the expected values in src/test/js/scalarField.test.ts:18-31 use | not executed | FieldGrid.WeightsAreNotTrilinear | FieldGrid.TrilinearInterpolates |
| src/prod/js/scalarField.ts:123-184 | `get` reads the grid without calling `doSample` first | `get` right after a sampler change reads the grid of the old sampler, whose region was already released; on a fresh instance there is no grid | resolve sampling first, as latest/js/scalarField.js:106-114 does | not executed | ProdField.GetAfterSetSamplerIsStale | ProdField.Get |
