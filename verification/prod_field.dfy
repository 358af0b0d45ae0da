/**
 * `ScalarFieldInstanceImpl` of `src/prod/js/scalarField.ts`: the two-level
 * version of the scalar-field cache.
 *
 *  - sampling: the grid, allocated in the arena and filled by `doSample`'s
 *    own loop (its layout is modelled in `FieldGrid`);
 *  - vertices: the tessellated mesh, made by `tesselateScalarField`.
 *
 * Changing the resolution or the sampler discards the grid; there is no
 * in-place resampling. As in `LatestField`, the instance is a value, the
 * foreign tessellation is counted rather than computed, and allocations are
 * identified by their sequence number.
 */
module ProdField {
  import opened Wrappers
  import opened Arena
  import FieldGrid

  /** The grid: allocation number `allocation` of `length` float64 slots, sampled at `resolution` from `sampler`. */
  datatype Sampling<S> = Sampling(allocation: nat, length: int, resolution: int, sampler: S)

  /** A mesh: tessellation number `number` of `grid` at `resolution` and `contourValue`. */
  datatype Tessellation<S> = Tessellation(number: nat, grid: Sampling<S>, resolution: int, contourValue: real)

  /**
   * The instance's fields. `allocations` counts the grids allocated and
   * `tessellations` the calls of `tesselateScalarField`.
   */
  datatype Instance<S> = Instance(
    resolution: int,
    sampler: S,
    contourValue: real,
    samplingDirty: bool,
    verticesDirty: bool,
    length: int,
    grid: Option<Sampling<S>>,
    vertices: Option<Tessellation<S>>,
    regions: Stack,
    allocations: nat,
    tessellations: nat)

  // ---------------------------------------------------------------------
  // Invariants
  // ---------------------------------------------------------------------

  /**
   * Stale sampling makes the vertices stale, and the instance holds the
   * grid region exactly when the sampling is clean and, inside it, the mesh
   * region exactly when the vertices are clean.
   */
  predicate RegionsMatch<S>(st: Instance<S>) {
    (st.samplingDirty ==> st.verticesDirty) && st.regions == Holding(!st.samplingDirty, !st.verticesDirty)
  }

  /**
   * Every clean level holds what recomputing it now would produce: the grid
   * is the latest allocation, as long as `length` says and sampled from the
   * current sampler at the current resolution, and the mesh is the latest
   * tessellation of that grid at the current contour value.
   */
  ghost predicate Coherent<S>(st: Instance<S>) {
    (!st.samplingDirty ==>
      st.grid == Some(Sampling(st.allocations, st.length, st.resolution, st.sampler))
      && st.length == FieldGrid.GridLength(st.resolution))
    && (!st.verticesDirty ==>
      st.grid.Some? &&
      st.vertices == Some(Tessellation(st.tessellations, st.grid.value, st.resolution, st.contourValue)))
  }

  ghost predicate Valid<S>(st: Instance<S>) {
    RegionsMatch(st) && Coherent(st)
  }

  // ---------------------------------------------------------------------
  // Invalidation
  // ---------------------------------------------------------------------

  /** `invalidateVertices`: releases the mesh region unless the mesh is already stale. */
  function InvalidateVertices<S>(st: Instance<S>): (r: Instance<S>)
    requires RegionsMatch(st)
    ensures RegionsMatch(r) && (Coherent(st) ==> Coherent(r))
    ensures r == st.(verticesDirty := true, regions := Holding(!st.samplingDirty, false))
  {
    if st.verticesDirty then st
    else st.(regions := Leave(st.regions, MeshRegion), verticesDirty := true)
  }

  /** `invalidateSampling`: invalidates the vertices, then releases the grid region, unless already stale. */
  function InvalidateSampling<S>(st: Instance<S>): (r: Instance<S>)
    requires RegionsMatch(st)
    ensures RegionsMatch(r) && (Coherent(st) ==> Coherent(r))
    ensures r == st.(samplingDirty := true, verticesDirty := true, regions := [])
  {
    if st.samplingDirty then st
    else
      var s := InvalidateVertices(st);
      assert s.regions == [GridRegion];
      s.(regions := Leave(s.regions, GridRegion), samplingDirty := true)
  }

  // ---------------------------------------------------------------------
  // Construction and setters
  // ---------------------------------------------------------------------

  /**
   * The constructor: both flags start clean, two `mem.enter()` calls open
   * the regions a clean instance holds, and `invalidateSampling` releases
   * both and marks both levels stale.
   */
  function New<S>(sampler: S): (st: Instance<S>)
    ensures Valid(st)
    ensures st.samplingDirty && st.verticesDirty && st.regions == []
    ensures st.allocations == 0 && st.tessellations == 0
    ensures st.resolution == 1 && st.contourValue == 0.0 && st.sampler == sampler
  {
    var initial := Instance(1, sampler, 0.0, false, false, 0, None, None,
      Enter(Enter([], GridRegion), MeshRegion), 0, 0);
    InvalidateSampling(initial)
  }

  /** The `resolution` setter: releases the mesh region, then the grid region. */
  function SetResolution<S>(st: Instance<S>, resolution: int): (r: Instance<S>)
    requires Valid(st)
    ensures Valid(r)
    ensures r == st.(resolution := resolution, samplingDirty := true, verticesDirty := true, regions := [])
  {
    InvalidateSampling(st.(resolution := resolution))
  }

  /**
   * The `sampler` setter: releases the mesh region, then the grid region.
   * It acts exactly as the `resolution` setter does, on the other field,
   * because both setters call the same invalidation.
   */
  function SetSampler<S>(st: Instance<S>, sampler: S): (r: Instance<S>)
    requires Valid(st)
    ensures Valid(r)
    ensures r == st.(sampler := sampler, samplingDirty := true, verticesDirty := true, regions := [])
  {
    InvalidateSampling(st.(sampler := sampler))
  }

  /** The `contourValue` setter: releases only the mesh region. */
  function SetContourValue<S>(st: Instance<S>, contourValue: real): (r: Instance<S>)
    requires Valid(st)
    ensures Valid(r)
    ensures r == st.(contourValue := contourValue, verticesDirty := true, regions := Holding(!st.samplingDirty, false))
  {
    InvalidateVertices(st.(contourValue := contourValue))
  }

  // ---------------------------------------------------------------------
  // Lazy recomputation
  // ---------------------------------------------------------------------

  /**
   * `doSample`: nothing when the sampling is clean; otherwise a new region
   * and a new allocation of `GridLength(resolution)` slots, filled by the
   * sampling loop.
   */
  function DoSample<S>(st: Instance<S>): (r: Instance<S>)
    requires Valid(st)
    ensures Valid(r) && !r.samplingDirty && r.verticesDirty == st.verticesDirty
    ensures r.allocations == st.allocations + (if st.samplingDirty then 1 else 0)
    ensures r.tessellations == st.tessellations && r.vertices == st.vertices
    ensures r.resolution == st.resolution && r.sampler == st.sampler && r.contourValue == st.contourValue
  {
    if !st.samplingDirty then st
    else
      var n := st.allocations + 1;
      var length := FieldGrid.GridLength(st.resolution);
      st.(regions := Enter(st.regions, GridRegion),
          length := length,
          grid := Some(Sampling(n, length, st.resolution, st.sampler)),
          allocations := n,
          samplingDirty := false)
  }

  /** `doTesselate`: brings the sampling up to date, then tessellates in a new region if the vertices are stale. */
  function DoTesselate<S>(st: Instance<S>): (r: Instance<S>)
    requires Valid(st)
    ensures Valid(r) && !r.samplingDirty && !r.verticesDirty
    ensures r.allocations == DoSample(st).allocations && r.grid == DoSample(st).grid
    ensures r.tessellations == st.tessellations + (if st.verticesDirty then 1 else 0)
    ensures r.resolution == st.resolution && r.sampler == st.sampler && r.contourValue == st.contourValue
  {
    var s := DoSample(st);
    if !s.verticesDirty then s
    else
      var n := s.tessellations + 1;
      s.(regions := Enter(s.regions, MeshRegion),
         vertices := Some(Tessellation(n, s.grid.value, s.resolution, s.contourValue)),
         verticesDirty := false,
         tessellations := n)
  }

  /**
   * The `vertices` getter: the instance after `doTesselate` and the mesh it
   * returns, the tessellation of a grid sampled from the current sampler
   * at the current resolution, at the current contour value.
   */
  function Vertices<S>(st: Instance<S>): (r: (Instance<S>, Tessellation<S>))
    requires Valid(st)
    ensures Valid(r.0) && !r.0.samplingDirty && !r.0.verticesDirty
    ensures r.1.grid.sampler == st.sampler && r.1.grid.resolution == st.resolution
    ensures r.1.grid.length == FieldGrid.GridLength(st.resolution)
    ensures r.1.resolution == st.resolution && r.1.contourValue == st.contourValue
    ensures Some(r.1) == r.0.vertices
  {
    var s := DoTesselate(st);
    (s, s.vertices.value)
  }

  // ---------------------------------------------------------------------
  // Properties
  // ---------------------------------------------------------------------

  /** Invalidating a level that is already stale changes nothing, and invalidating twice is invalidating once. */
  lemma InvalidateIdempotent<S>(st: Instance<S>)
    requires RegionsMatch(st)
    ensures st.verticesDirty ==> InvalidateVertices(st) == st
    ensures st.samplingDirty ==> InvalidateSampling(st) == st
    ensures InvalidateVertices(InvalidateVertices(st)) == InvalidateVertices(st)
    ensures InvalidateSampling(InvalidateSampling(st)) == InvalidateSampling(st)
  {
  }

  /** A second `vertices` read with nothing in between allocates nothing, tessellates nothing and returns the same mesh. */
  lemma SecondReadIsCached<S>(st: Instance<S>)
    requires Valid(st)
    ensures Vertices(Vertices(st).0) == Vertices(st)
  {
    var s := Vertices(st).0;
    assert DoSample(s) == s;
  }

  /**
   * Unlike the three-level version, a new sampler discards the grid: the
   * next read allocates and fills a fresh one in a fresh region.
   */
  lemma SamplerReallocates<S>(st: Instance<S>, sampler: S)
    requires Valid(st)
    ensures var s := DoSample(SetSampler(st, sampler));
      && s.allocations == st.allocations + 1
      && s.grid == Some(Sampling(st.allocations + 1, FieldGrid.GridLength(st.resolution), st.resolution, sampler))
      && s.regions == [GridRegion]
  {
  }

  /**
   * Setting `contourValue` on a clean instance keeps the grid: the next read
   * tessellates again without allocating.
   */
  lemma ContourValueRetessellatesOnly<S>(st: Instance<S>, contourValue: real)
    requires Valid(st) && !st.samplingDirty && !st.verticesDirty
    ensures var (s, mesh) := Vertices(SetContourValue(st, contourValue));
      && s.allocations == st.allocations && s.grid == st.grid
      && s.tessellations == st.tessellations + 1
      && s.regions == [GridRegion, MeshRegion]
      && mesh.contourValue == contourValue
  {
    var s := SetContourValue(st, contourValue);
    assert DoSample(s) == s;
  }

  // ---------------------------------------------------------------------
  // The grid `get` reads
  // ---------------------------------------------------------------------

  /**
   * The grid `get` reads, as written: the allocation `fieldRef` last
   * pointed to, whether or not the sampling is current, and nothing before
   * the first sampling. `get` changes nothing in the instance.
   */
  function GetGridAsWritten<S>(st: Instance<S>): Option<Sampling<S>> {
    st.grid
  }

  /**
   * `get` with the sampling brought up to date first, as the three-level
   * version does: the grid read is the current one, sampled from the
   * current sampler at the current resolution, and the mesh is untouched.
   */
  function Get<S>(st: Instance<S>): (r: (Instance<S>, Sampling<S>))
    requires Valid(st)
    ensures Valid(r.0) && !r.0.samplingDirty && r.0.verticesDirty == st.verticesDirty
    ensures r.0.grid == Some(r.1) && r.0.vertices == st.vertices
    ensures r.1.sampler == st.sampler && r.1.resolution == st.resolution
    ensures r.1.length == FieldGrid.GridLength(st.resolution)
    ensures r.0.regions == Holding(true, !st.verticesDirty)
  {
    var s := DoSample(st);
    (s, s.grid.value)
  }

  /**
   * As written, `get` after a new sampler reads the old grid, sampled from
   * the old sampler, although its region has been released; brought up to
   * date first, it reads a grid of the new sampler.
   */
  lemma GetAfterSetSamplerIsStale<S>(st: Instance<S>, sampler: S)
    requires Valid(st) && !st.samplingDirty && sampler != st.sampler
    ensures GetGridAsWritten(SetSampler(st, sampler)) == st.grid
    ensures st.grid.Some? && st.grid.value.sampler != sampler
    ensures SetSampler(st, sampler).regions == []
    ensures Get(SetSampler(st, sampler)).1.sampler == sampler
  {
  }

  /** As written, `get` on a new instance has no grid to read; brought up to date first, it reads the first allocation. */
  lemma GetBeforeFirstSample<S>(sampler: S)
    ensures GetGridAsWritten(New(sampler)) == None
    ensures Get(New(sampler)).1 == Sampling(1, FieldGrid.GridLength(1), 1, sampler)
  {
  }
}

