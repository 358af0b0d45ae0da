/**
 * The part of the arena allocator (`mem.enter()` / `mem.leave()`) that the
 * scalar-field instances rely on: a stack of nested regions. A region holds
 * every allocation made after its `enter` and is released as a whole by the
 * matching `leave`. Only the regions an instance holds above the depth it
 * started from are modelled; each is tagged with what it holds.
 */
module Arena {

  /** What an open region holds. */
  datatype Region =
    | GridRegion     // the sampled field
    | MeshRegion     // the tessellated vertices
    | ScratchRegion  // the temporary result of a single `get`

  /** The regions an instance holds, outermost first. */
  type Stack = seq<Region>

  /** `mem.enter()`: opens a region above every open one. */
  function Enter(s: Stack, r: Region): (t: Stack)
    ensures |t| == |s| + 1 && t[..|s|] == s && t[|s|] == r
  {
    s + [r]
  }

  /**
   * `mem.leave()`, annotated with the region the caller means to close: it
   * releases the innermost open region, which must be that one.
   */
  function Leave(s: Stack, expected: Region): (t: Stack)
    requires |s| > 0 && s[|s| - 1] == expected
    ensures |t| == |s| - 1 && s == t + [expected]
  {
    s[..|s| - 1]
  }

  /**
   * The regions an instance holds when its grid and mesh caches are valid
   * as flagged: the grid region, then the mesh region inside it.
   */
  function Holding(grid: bool, mesh: bool): (s: Stack)
    ensures |s| == (if grid then 1 else 0) + (if mesh then 1 else 0)
    ensures grid && mesh ==> s == [GridRegion, MeshRegion]
    ensures GridRegion in s <==> grid
    ensures MeshRegion in s <==> mesh
    ensures ScratchRegion !in s
  {
    (if grid then [GridRegion] else []) + (if mesh then [MeshRegion] else [])
  }
}
