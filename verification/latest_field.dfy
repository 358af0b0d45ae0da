/**
 * `ScalarFieldInstanceImpl` of `latest/js/scalarField.js`: a lazily
 * recomputed, three-level cache over a sampled scalar field.
 *
 *  - resolution: the grid allocation, made by `sampleScalarField`;
 *  - sampling:   the sampled values, refreshed in place by `resampleScalarField`;
 *  - vertices:   the tessellated mesh, made by `tesselateScalarField`.
 *
 * Each level has a dirty flag, and dirtiness cascades from coarser to finer
 * levels. The grid lives in an arena region and the mesh in a region nested
 * inside it. The instance is a value here and each method or accessor is a
 * function from the old instance to the new one. The WebAssembly exports are
 * foreign: the model counts their calls and records what each call was
 * given. Allocations are identified by their sequence number.
 */
module LatestField {
  import opened Wrappers
  import opened Arena

  /** How often each WebAssembly export has been called. */
  datatype Calls = Calls(sample: nat, resample: nat, tessellate: nat, interpolated: nat, nearest: nat)

  /**
   * The sampled grid: allocation number `allocation`, sized for resolution
   * `allocatedFor`, last filled at resolution `sampledAt` from `sampler`.
   */
  datatype Sampling<S> = Sampling(allocation: nat, allocatedFor: int, sampledAt: int, sampler: S)

  /** A mesh: tessellation number `number` of `grid` at `resolution` and `contourValue`. */
  datatype Tessellation<S> = Tessellation(number: nat, grid: Sampling<S>, resolution: int, contourValue: real)

  /** The instance's fields. `regions` are the arena regions it holds. */
  datatype Instance<S> = Instance(
    resolution: int,
    sampler: S,
    contourValue: real,
    resolutionDirty: bool,
    samplingDirty: bool,
    verticesDirty: bool,
    grid: Option<Sampling<S>>,
    vertices: Option<Tessellation<S>>,
    regions: Stack,
    calls: Calls)

  // ---------------------------------------------------------------------
  // Invariants
  // ---------------------------------------------------------------------

  /** A stale coarser level makes every finer level stale. */
  predicate Cascade<S>(st: Instance<S>) {
    (st.resolutionDirty ==> st.samplingDirty) && (st.samplingDirty ==> st.verticesDirty)
  }

  /**
   * The cascade holds, and the instance holds the grid region exactly when
   * the resolution level is clean and, inside it, the mesh region exactly
   * when the vertices level is clean.
   */
  predicate RegionsMatch<S>(st: Instance<S>) {
    Cascade(st) && st.regions == Holding(!st.resolutionDirty, !st.verticesDirty)
  }

  /**
   * Every clean level holds what recomputing it now would produce: the grid
   * is the latest allocation and sized for the current resolution, its
   * values come from the current sampler at that resolution, and the mesh
   * is the latest tessellation of that grid at the current contour value.
   */
  ghost predicate Coherent<S>(st: Instance<S>) {
    (!st.resolutionDirty ==>
      st.grid.Some? && st.grid.value.allocation == st.calls.sample && st.grid.value.allocatedFor == st.resolution)
    && (!st.samplingDirty ==>
      st.grid.Some? && st.grid.value.sampledAt == st.resolution && st.grid.value.sampler == st.sampler)
    && (!st.verticesDirty ==>
      st.grid.Some? &&
      st.vertices == Some(Tessellation(st.calls.tessellate, st.grid.value, st.resolution, st.contourValue)))
  }

  ghost predicate Valid<S>(st: Instance<S>) {
    RegionsMatch(st) && Coherent(st)
  }

  /** All three levels are clean. */
  predicate Clean<S>(st: Instance<S>) {
    !st.resolutionDirty && !st.samplingDirty && !st.verticesDirty
  }

  // ---------------------------------------------------------------------
  // Invalidation
  // ---------------------------------------------------------------------

  /** `invalidateVertices`: releases the mesh region unless the mesh is already stale. */
  function InvalidateVertices<S>(st: Instance<S>): (r: Instance<S>)
    requires RegionsMatch(st)
    ensures RegionsMatch(r) && (Coherent(st) ==> Coherent(r))
    ensures r.verticesDirty
    ensures r == st.(verticesDirty := r.verticesDirty, regions := r.regions)
    ensures r.regions == Holding(!st.resolutionDirty, false)
  {
    if st.verticesDirty then st
    else st.(regions := Leave(st.regions, MeshRegion), verticesDirty := true)
  }

  /** `invalidateSampling`: invalidates the vertices too, unless the sampling is already stale. */
  function InvalidateSampling<S>(st: Instance<S>): (r: Instance<S>)
    requires RegionsMatch(st)
    ensures RegionsMatch(r) && (Coherent(st) ==> Coherent(r))
    ensures r.samplingDirty && r.verticesDirty
    ensures r == st.(samplingDirty := true, verticesDirty := true, regions := r.regions)
    ensures r.regions == Holding(!st.resolutionDirty, false)
  {
    if st.samplingDirty then st
    else InvalidateVertices(st).(samplingDirty := true)
  }

  /** `invalidateResolution`: invalidates the sampling too and releases the grid region, unless already stale. */
  function InvalidateResolution<S>(st: Instance<S>): (r: Instance<S>)
    requires RegionsMatch(st)
    ensures RegionsMatch(r) && (Coherent(st) ==> Coherent(r))
    ensures r.resolutionDirty && r.samplingDirty && r.verticesDirty
    ensures r == st.(resolutionDirty := true, samplingDirty := true, verticesDirty := true, regions := [])
  {
    if st.resolutionDirty then st
    else
      var s := InvalidateSampling(st);
      s.(regions := Leave(s.regions, GridRegion), resolutionDirty := true)
  }

  // ---------------------------------------------------------------------
  // Construction and setters
  // ---------------------------------------------------------------------

  /**
   * The constructor: every flag starts clean, the two `mem.enter()` calls
   * open the regions a clean instance holds, and `invalidateResolution`
   * releases both and marks every level stale.
   */
  function New<S>(sampler: S): (st: Instance<S>)
    ensures Valid(st)
    ensures st.resolutionDirty && st.samplingDirty && st.verticesDirty
    ensures st.regions == []
    ensures st.calls == Calls(0, 0, 0, 0, 0)
    ensures st.resolution == 1 && st.contourValue == 0.0 && st.sampler == sampler
  {
    var initial := Instance(1, sampler, 0.0, false, false, false, None, None,
      Enter(Enter([], GridRegion), MeshRegion), Calls(0, 0, 0, 0, 0));
    InvalidateResolution(initial)
  }

  /** The `resolution` setter: always invalidates the resolution, whatever the value. */
  function SetResolution<S>(st: Instance<S>, resolution: int): (r: Instance<S>)
    requires Valid(st)
    ensures Valid(r)
    ensures r.resolution == resolution && r.resolutionDirty && r.regions == []
    ensures r.sampler == st.sampler && r.contourValue == st.contourValue && r.calls == st.calls
  {
    InvalidateResolution(st.(resolution := resolution))
  }

  /** The `sampler` setter: invalidates the sampling but keeps the grid allocation. */
  function SetSampler<S>(st: Instance<S>, sampler: S): (r: Instance<S>)
    requires Valid(st)
    ensures Valid(r)
    ensures r.sampler == sampler && r.samplingDirty
    ensures r.resolutionDirty == st.resolutionDirty && r.grid == st.grid
    ensures r.regions == Holding(!st.resolutionDirty, false)
    ensures r.resolution == st.resolution && r.contourValue == st.contourValue && r.calls == st.calls
  {
    InvalidateSampling(st.(sampler := sampler))
  }

  /** The `contourValue` setter: invalidates only the vertices. */
  function SetContourValue<S>(st: Instance<S>, contourValue: real): (r: Instance<S>)
    requires Valid(st)
    ensures Valid(r)
    ensures r.contourValue == contourValue && r.verticesDirty
    ensures r.resolutionDirty == st.resolutionDirty && r.samplingDirty == st.samplingDirty
    ensures r.grid == st.grid && r.regions == Holding(!st.resolutionDirty, false)
    ensures r.resolution == st.resolution && r.sampler == st.sampler && r.calls == st.calls
  {
    InvalidateVertices(st.(contourValue := contourValue))
  }

  // ---------------------------------------------------------------------
  // Lazy recomputation
  // ---------------------------------------------------------------------

  /**
   * `doSample`: nothing when the sampling is clean; otherwise a fresh grid
   * allocation in a new region when the resolution is stale, or an
   * in-place resample of the existing grid when it is not.
   */
  function DoSample<S>(st: Instance<S>): (r: Instance<S>)
    requires Valid(st)
    ensures Valid(r)
    ensures !r.resolutionDirty && !r.samplingDirty && r.verticesDirty == st.verticesDirty
    ensures r.calls.sample == st.calls.sample + (if st.resolutionDirty then 1 else 0)
    ensures r.calls.resample == st.calls.resample + (if st.samplingDirty && !st.resolutionDirty then 1 else 0)
    ensures r.calls.(sample := st.calls.sample, resample := st.calls.resample) == st.calls
    ensures !st.resolutionDirty ==> r.grid.value.allocation == st.grid.value.allocation
    ensures r.vertices == st.vertices
    ensures r.resolution == st.resolution && r.sampler == st.sampler && r.contourValue == st.contourValue
  {
    if !st.samplingDirty then st
    else if st.resolutionDirty then
      var n := st.calls.sample + 1;
      st.(regions := Enter(st.regions, GridRegion),
          grid := Some(Sampling(n, st.resolution, st.resolution, st.sampler)),
          resolutionDirty := false,
          samplingDirty := false,
          calls := st.calls.(sample := n))
    else
      st.(grid := Some(st.grid.value.(sampledAt := st.resolution, sampler := st.sampler)),
          samplingDirty := false,
          calls := st.calls.(resample := st.calls.resample + 1))
  }

  /** `doTesselate`: brings the sampling up to date, then tessellates in a new region if the vertices are stale. */
  function DoTesselate<S>(st: Instance<S>): (r: Instance<S>)
    requires Valid(st)
    ensures Valid(r) && Clean(r)
    ensures r.calls.tessellate == st.calls.tessellate + (if st.verticesDirty then 1 else 0)
    ensures r.calls.(tessellate := st.calls.tessellate) == DoSample(st).calls
    ensures r.grid == DoSample(st).grid
    ensures r.resolution == st.resolution && r.sampler == st.sampler && r.contourValue == st.contourValue
  {
    var s := DoSample(st);
    if !s.verticesDirty then s
    else
      var n := s.calls.tessellate + 1;
      s.(regions := Enter(s.regions, MeshRegion),
         vertices := Some(Tessellation(n, s.grid.value, s.resolution, s.contourValue)),
         verticesDirty := false,
         calls := s.calls.(tessellate := n))
  }

  /**
   * The `vertices` getter: the instance after `doTesselate` and the mesh it
   * returns, which is the tessellation of a grid sampled from the current
   * sampler at the current resolution, at the current contour value.
   */
  function Vertices<S>(st: Instance<S>): (r: (Instance<S>, Tessellation<S>))
    requires Valid(st)
    ensures Valid(r.0) && Clean(r.0)
    ensures r.1.grid.sampler == st.sampler && r.1.grid.sampledAt == st.resolution && r.1.grid.allocatedFor == st.resolution
    ensures r.1.resolution == st.resolution && r.1.contourValue == st.contourValue
    ensures Some(r.1) == r.0.vertices
  {
    var s := DoTesselate(st);
    (s, s.vertices.value)
  }

  /**
   * `get`: brings the sampling up to date, then asks `interpolatedSample`
   * for the value inside a scratch region it releases before returning.
   * The value itself is computed by the foreign code and is not modelled.
   */
  function Get<S>(st: Instance<S>): (r: Instance<S>)
    requires Valid(st)
    ensures Valid(r)
    ensures !r.resolutionDirty && !r.samplingDirty && r.verticesDirty == st.verticesDirty
    ensures r.regions == DoSample(st).regions
    ensures r.calls == DoSample(st).calls.(interpolated := st.calls.interpolated + 1)
    ensures r == DoSample(st).(calls := DoSample(st).calls.(interpolated := st.calls.interpolated + 1))
  {
    var s := DoSample(st);
    var inside := Enter(s.regions, ScratchRegion);
    var s' := s.(calls := s.calls.(interpolated := s.calls.interpolated + 1));
    s'.(regions := Leave(inside, ScratchRegion))
  }

  /** `getNearest`: as `get`, with `nearestSample`. */
  function GetNearest<S>(st: Instance<S>): (r: Instance<S>)
    requires Valid(st)
    ensures Valid(r)
    ensures !r.resolutionDirty && !r.samplingDirty && r.verticesDirty == st.verticesDirty
    ensures r.regions == DoSample(st).regions
    ensures r.calls == DoSample(st).calls.(nearest := st.calls.nearest + 1)
    ensures r == DoSample(st).(calls := DoSample(st).calls.(nearest := st.calls.nearest + 1))
  {
    var s := DoSample(st);
    var inside := Enter(s.regions, ScratchRegion);
    var s' := s.(calls := s.calls.(nearest := s.calls.nearest + 1));
    s'.(regions := Leave(inside, ScratchRegion))
  }

  // ---------------------------------------------------------------------
  // Properties
  // ---------------------------------------------------------------------

  /** Invalidating a level that is already stale changes nothing, and invalidating twice is invalidating once. */
  lemma InvalidateIdempotent<S>(st: Instance<S>)
    requires RegionsMatch(st)
    ensures st.verticesDirty ==> InvalidateVertices(st) == st
    ensures st.samplingDirty ==> InvalidateSampling(st) == st
    ensures st.resolutionDirty ==> InvalidateResolution(st) == st
    ensures InvalidateVertices(InvalidateVertices(st)) == InvalidateVertices(st)
    ensures InvalidateSampling(InvalidateSampling(st)) == InvalidateSampling(st)
    ensures InvalidateResolution(InvalidateResolution(st)) == InvalidateResolution(st)
  {
  }

  /**
   * A `vertices` read calls each WebAssembly export only for the levels that
   * are stale: one allocation if the resolution is, one in-place resample
   * if only the sampling is, one tessellation if the vertices are.
   */
  lemma VerticesRecomputesStaleLevels<S>(st: Instance<S>)
    requires Valid(st)
    ensures var c := Vertices(st).0.calls;
      && c.sample == st.calls.sample + (if st.resolutionDirty then 1 else 0)
      && c.resample == st.calls.resample + (if st.samplingDirty && !st.resolutionDirty then 1 else 0)
      && c.tessellate == st.calls.tessellate + (if st.verticesDirty then 1 else 0)
      && c.interpolated == st.calls.interpolated && c.nearest == st.calls.nearest
  {
    var s := DoSample(st);
    assert s.verticesDirty == st.verticesDirty;
  }

  /** A second `vertices` read with nothing in between calls nothing and returns the same mesh. */
  lemma SecondReadIsCached<S>(st: Instance<S>)
    requires Valid(st)
    ensures Vertices(Vertices(st).0) == Vertices(st)
  {
    var s := Vertices(st).0;
    assert DoSample(s) == s;
  }

  /**
   * Setting `contourValue` on a clean instance makes only the vertices
   * stale; the next read tessellates the same grid again, without sampling,
   * resampling or opening a grid region.
   */
  lemma ContourValueRetessellatesOnly<S>(st: Instance<S>, contourValue: real)
    requires Valid(st) && Clean(st)
    ensures var s := SetContourValue(st, contourValue);
      && !s.resolutionDirty && !s.samplingDirty && s.verticesDirty
      && s.regions == [GridRegion]
    ensures var (s, mesh) := Vertices(SetContourValue(st, contourValue));
      && s.calls == st.calls.(tessellate := st.calls.tessellate + 1)
      && s.grid == st.grid
      && s.regions == [GridRegion, MeshRegion]
      && mesh.contourValue == contourValue
  {
    var s := SetContourValue(st, contourValue);
    assert DoSample(s) == s;
  }

  /**
   * Setting `sampler` while the resolution is clean resamples the existing
   * grid in place on the next read: no new allocation and no new grid region.
   */
  lemma SamplerResamplesInPlace<S>(st: Instance<S>, sampler: S)
    requires Valid(st) && !st.resolutionDirty
    ensures var s := DoSample(SetSampler(st, sampler));
      && s.calls == st.calls.(resample := st.calls.resample + 1)
      && s.grid.value.allocation == st.grid.value.allocation
      && s.grid.value.sampler == sampler
      && s.regions == [GridRegion]
  {
  }

  /**
   * Setting `resolution`, even to its current value, makes the next read
   * allocate and sample a fresh grid in a fresh region.
   */
  lemma ResolutionReallocates<S>(st: Instance<S>, resolution: int)
    requires Valid(st)
    ensures var s := DoSample(SetResolution(st, resolution));
      && s.calls == st.calls.(sample := st.calls.sample + 1)
      && s.grid.value.allocation == st.calls.sample + 1
      && s.grid.value.allocatedFor == resolution
      && s.regions == [GridRegion]
  {
  }

  /** `get` and `getNearest` bring only the sampling up to date and hold no region afterwards beyond the grid's. */
  lemma GetResolvesSamplingOnly<S>(st: Instance<S>)
    requires Valid(st)
    ensures var s := Get(st);
      && !s.resolutionDirty && !s.samplingDirty && s.verticesDirty == st.verticesDirty
      && s.regions == Holding(true, !st.verticesDirty)
      && s.calls.tessellate == st.calls.tessellate
    ensures var s := GetNearest(st);
      && !s.resolutionDirty && !s.samplingDirty && s.verticesDirty == st.verticesDirty
      && s.regions == Holding(true, !st.verticesDirty)
      && s.calls.tessellate == st.calls.tessellate
  {
  }

  // ---------------------------------------------------------------------
  // Every reachable instance
  // ---------------------------------------------------------------------

  /** What a client can do with an instance. */
  datatype Op<S> =
    | SetResolutionOp(resolution: int)
    | SetSamplerOp(sampler: S)
    | SetContourValueOp(contourValue: real)
    | ReadVertices
    | GetOp
    | GetNearestOp

  /** Every count in `c2` is at least the one in `c1`. */
  predicate NoFewer(c1: Calls, c2: Calls) {
    c1.sample <= c2.sample && c1.resample <= c2.resample && c1.tessellate <= c2.tessellate
    && c1.interpolated <= c2.interpolated && c1.nearest <= c2.nearest
  }

  /** One client operation; only reads call the WebAssembly exports. */
  function Step<S>(st: Instance<S>, op: Op<S>): (r: Instance<S>)
    requires Valid(st)
    ensures Valid(r)
    ensures NoFewer(st.calls, r.calls)
    ensures op.SetResolutionOp? || op.SetSamplerOp? || op.SetContourValueOp? ==> r.calls == st.calls
  {
    match op
    case SetResolutionOp(resolution) => SetResolution(st, resolution)
    case SetSamplerOp(sampler) => SetSampler(st, sampler)
    case SetContourValueOp(contourValue) => SetContourValue(st, contourValue)
    case ReadVertices => Vertices(st).0
    case GetOp => Get(st)
    case GetNearestOp => GetNearest(st)
  }

  /**
   * The instance after running `ops` in order. Every instance reached this
   * way keeps the invariants, so no `mem.leave()` ever finds its region
   * missing, and it holds at most the grid and the mesh region.
   */
  function Run<S>(st: Instance<S>, ops: seq<Op<S>>): (r: Instance<S>)
    requires Valid(st)
    ensures Valid(r)
    ensures |r.regions| <= 2 && ScratchRegion !in r.regions
    decreases |ops|
  {
    if |ops| == 0 then st else Run(Step(st, ops[0]), ops[1..])
  }

  /** Call counts never go down along a run. */
  lemma {:induction false} RunCallsGrow<S>(st: Instance<S>, ops: seq<Op<S>>)
    requires Valid(st)
    ensures NoFewer(st.calls, Run(st, ops).calls)
    decreases |ops|
  {
    if |ops| > 0 {
      RunCallsGrow(Step(st, ops[0]), ops[1..]);
    }
  }
}
