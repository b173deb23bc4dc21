/** Routes on the grid: sequences of cells each of which `neighbours` lists for the one before. */
module Routes {
  import opened Grids
  import opened Heuristic

  /** `p` walks from `s` to `g`, each cell a `Step` from the one before. */
  ghost predicate IsRoute(grid: Grid, p: seq<Location>, s: Location, g: Location)
    reads grid
  {
    && |p| >= 1 && p[0] == s && p[|p| - 1] == g
    && forall i :: 0 < i < |p| ==> grid.Step(p[i - 1], p[i])
  }

  /** The cells visited by a route. */
  ghost function Cells(p: seq<Location>): set<Location> {
    set i | 0 <= i < |p| :: p[i]
  }

  /**
   * The heuristic never overestimates: from any cell of a route that starts
   * within the grid, `hx` to the route's end is at most the steps left.
   */
  lemma {:induction false} RouteAdmissible(grid: Grid, p: seq<Location>, s: Location, g: Location, k: nat)
    requires IsRoute(grid, p, s, g) && grid.Within(s) && k < |p|
    ensures grid.Within(p[k])
    ensures Hx(p[k], g) <= |p| - 1 - k
    decreases |p| - k
  {
    if k > 0 {
      assert grid.Step(p[k - 1], p[k]);
    }
    if k == |p| - 1 {
      HxZero(p[k], g);
    } else {
      RouteAdmissible(grid, p, s, g, k + 1);
      assert grid.Step(p[k], p[k + 1]);
      HxStep(p[k], p[k + 1], g);
    }
  }
}
