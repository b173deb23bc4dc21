/** The route that the predecessor links of a search spell out. */
module Chains {
  import opened Grids
  import opened Routes
  import opened Track
  import opened SearchState

  /** Follows `prev` back from `c` to `start`, listing the cells from `start` on. */
  ghost function ChainRoute(prev: map<Location, Location>, costs: map<Location, nat>,
                            start: Location, c: Location): seq<Location>
    requires Descends(prev, costs, start) && c in costs
    decreases costs[c]
  {
    if c == start then [start] else ChainRoute(prev, costs, start, prev[c]) + [c]
  }

  /** The chain from a cell with a cost is a route of at most that many steps. */
  lemma {:induction false} ChainRouteIsRoute(grid: Grid, prev: map<Location, Location>, costs: map<Location, nat>,
                                             start: Location, c: Location)
    requires Descends(prev, costs, start) && LinksAreSteps(grid, prev, costs, start) && c in costs
    ensures IsRoute(grid, ChainRoute(prev, costs, start, c), start, c)
    ensures |ChainRoute(prev, costs, start, c)| - 1 <= costs[c]
    decreases costs[c]
  {
    if c != start {
      var r := ChainRoute(prev, costs, start, c);
      var r0 := ChainRoute(prev, costs, start, prev[c]);
      ChainRouteIsRoute(grid, prev, costs, start, prev[c]);
      assert r == r0 + [c];
      forall i | 0 < i < |r|
        ensures grid.Step(r[i - 1], r[i])
      {
        if i < |r0| {
          assert r[i] == r0[i] && r[i - 1] == r0[i - 1];
        }
      }
    }
  }

  /** `get_track` can follow the chain from a cell with a cost, within that many links. */
  lemma {:induction false} ChainReachesStart(prev: map<Location, Location>, costs: map<Location, nat>,
                                             start: Location, c: Location)
    requires Descends(prev, costs, start) && c in costs
    ensures ChainReaches(prev, c, start, costs[c])
    decreases costs[c]
  {
    if c != start {
      ChainReachesStart(prev, costs, start, prev[c]);
      ChainReachesMore(prev, prev[c], start, costs[prev[c]], costs[c] - 1);
    }
  }

  /** What `get_track` collects along the chain is exactly the cells of the chain's route. */
  lemma {:induction false} ChainRouteCells(prev: map<Location, Location>, costs: map<Location, nat>,
                                           start: Location, c: Location)
    requires Descends(prev, costs, start) && c in costs
    ensures ChainReaches(prev, c, start, costs[c])
    ensures ChainCells(prev, c, start, costs[c]) == Routes.Cells(ChainRoute(prev, costs, start, c))
    decreases costs[c]
  {
    ChainReachesStart(prev, costs, start, c);
    var r := ChainRoute(prev, costs, start, c);
    if c == start {
      assert r[0] == start;
    } else {
      var b := prev[c];
      var r0 := ChainRoute(prev, costs, start, b);
      ChainRouteCells(prev, costs, start, b);
      ChainReachesMore(prev, b, start, costs[b], costs[c] - 1);
      assert r == r0 + [c];
      forall x | x in Routes.Cells(r)
        ensures x in Routes.Cells(r0) + {c}
      {
        var i :| 0 <= i < |r| && r[i] == x;
        if i < |r0| {
          assert r0[i] == x;
        }
      }
      forall x | x in Routes.Cells(r0) + {c}
        ensures x in Routes.Cells(r)
      {
        if x == c {
          assert r[|r0|] == x;
        } else {
          var i :| 0 <= i < |r0| && r0[i] == x;
          assert r[i] == x;
        }
      }
    }
  }
}
