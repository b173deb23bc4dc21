/**
 * Why `a_search` finds a shortest route: along every route from the start to
 * the goal, each cell the search reached no later than its position on the
 * route either still has a good enough queue entry or has passed this on to
 * the next cell of the route.
 */
module Coverage {
  import opened Grids
  import opened Heuristic
  import opened Frontier
  import opened Routes
  import opened SearchState

  /** Cell j of `p` is the start, or has a cost of at most j. */
  ghost predicate Reached(p: seq<Location>, j: nat, costs: map<Location, nat>, start: Location)
    requires j < |p|
  {
    p[j] == start || (p[j] in costs && costs[p[j]] <= j)
  }

  /** Cell j of `p` has a queue entry with priority at most j + hx. */
  ghost predicate Open(p: seq<Location>, j: nat, q: multiset<Entry>, goal: Location)
    requires j < |p|
  {
    exists e :: e in q && e.loc == p[j] && e.priority <= j + Hx(p[j], goal)
  }

  /**
   * Along `p`, a reached cell is open or its successor is reached, except
   * where `current` is being expanded and the successor is not yet in `done`.
   */
  ghost predicate Covered(p: seq<Location>, costs: map<Location, nat>, q: multiset<Entry>,
                          start: Location, goal: Location, current: Location, done: seq<Location>)
  {
    forall j: nat :: j < |p| - 1 && Reached(p, j, costs, start) ==>
      Open(p, j, q, goal) || Reached(p, j + 1, costs, start) || (p[j] == current && p[j + 1] !in done)
  }

  ghost predicate AllCovered(grid: Grid, start: Location, goal: Location, costs: map<Location, nat>,
                             q: multiset<Entry>, current: Location, done: seq<Location>)
    reads grid
  {
    forall p :: IsRoute(grid, p, start, goal) ==> Covered(p, costs, q, start, goal, current, done)
  }

  lemma InitCovered(grid: Grid, start: Location, goal: Location)
    ensures AllCovered(grid, start, goal, map[], multiset{Entry(0, start)}, start, grid.NeighbourList(start))
  {
    forall p | IsRoute(grid, p, start, goal)
      ensures Covered(p, map[], multiset{Entry(0, start)}, start, goal, start, grid.NeighbourList(start))
    {
      forall j: nat | j < |p| - 1 && Reached(p, j, map[], start)
        ensures Open(p, j, multiset{Entry(0, start)}, goal)
      {
        assert Entry(0, start) in multiset{Entry(0, start)};
      }
    }
  }

  /** Popping `top` after the expansion of `last` was complete. */
  lemma PopCovered(grid: Grid, start: Location, goal: Location, costs: map<Location, nat>,
                   q: multiset<Entry>, last: Location, top: Entry)
    requires AllCovered(grid, start, goal, costs, q, last, grid.NeighbourList(last))
    requires top in q && grid.Within(start)
    ensures AllCovered(grid, start, goal, costs, q - multiset{top}, top.loc, [])
  {
    var q' := q - multiset{top};
    forall p | IsRoute(grid, p, start, goal)
      ensures Covered(p, costs, q', start, goal, top.loc, [])
    {
      RouteSteps(grid, p, start, goal, last);
      forall j: nat | j < |p| - 1 && Reached(p, j, costs, start)
        ensures Open(p, j, q', goal) || Reached(p, j + 1, costs, start) || (p[j] == top.loc && p[j + 1] !in [])
      {
        if !Reached(p, j + 1, costs, start) {
          var e :| e in q && e.loc == p[j] && e.priority <= j + Hx(p[j], goal);
          if e != top {
            assert e in q';
          }
        }
      }
    }
  }

  /** Inserting `start` with cost 0 changes no Reached. */
  lemma InsertStartCovered(grid: Grid, start: Location, goal: Location, costs: map<Location, nat>,
                           q: multiset<Entry>, current: Location, done: seq<Location>)
    requires AllCovered(grid, start, goal, costs, q, current, done)
    ensures AllCovered(grid, start, goal, costs[start := 0], q, current, done)
  {
    var costs' := costs[start := 0];
    forall p | IsRoute(grid, p, start, goal)
      ensures Covered(p, costs', q, start, goal, current, done)
    {
      forall j: nat | j < |p| - 1 && Reached(p, j, costs', start)
        ensures Open(p, j, q, goal) || Reached(p, j + 1, costs', start) || (p[j] == current && p[j + 1] !in done)
      {
        assert Reached(p, j, costs, start);
        if Reached(p, j + 1, costs, start) {
          assert Reached(p, j + 1, costs', start);
        }
      }
    }
  }

  /** Relaxing neighbour `nb` of `current` moves it into `done` and keeps every route covered. */
  lemma RelaxCovered(grid: Grid, start: Location, goal: Location, costs: map<Location, nat>,
                     q: multiset<Entry>, current: Location, done: seq<Location>, nb: Location, t: nat,
                     costs': map<Location, nat>, q': multiset<Entry>)
    requires AllCovered(grid, start, goal, costs, q, current, done)
    requires StartFirst(costs, start) && current in costs && t == costs[current] + 1
    requires nb !in costs || t < costs[nb]
    requires costs' == costs[nb := t] && q' == q + multiset{Pushed(t, nb, goal)}
    ensures AllCovered(grid, start, goal, costs', q', current, done + [nb])
  {
    forall p | IsRoute(grid, p, start, goal)
      ensures Covered(p, costs', q', start, goal, current, done + [nb])
    {
      forall j: nat | j < |p| - 1 && Reached(p, j, costs', start)
        ensures Open(p, j, q', goal) || Reached(p, j + 1, costs', start)
                || (p[j] == current && p[j + 1] !in done + [nb])
      {
        if p[j] == nb && p[j] != start {
          assert Pushed(t, nb, goal) in q';
        } else {
          assert Reached(p, j, costs, start);
          if Open(p, j, q, goal) {
            var e :| e in q && e.loc == p[j] && e.priority <= j + Hx(p[j], goal);
            assert e in q';
          } else if Reached(p, j + 1, costs, start) {
            assert Reached(p, j + 1, costs', start);
          } else if p[j + 1] == nb {
            assert Reached(p, j + 1, costs', start);
          }
        }
      }
    }
  }

  /** A neighbour `nb` of `current` whose cost is not improved keeps every route covered. */
  lemma KeepCovered(grid: Grid, start: Location, goal: Location, costs: map<Location, nat>,
                    q: multiset<Entry>, current: Location, done: seq<Location>, nb: Location,
                    costs': map<Location, nat>, q': multiset<Entry>)
    requires AllCovered(grid, start, goal, costs, q, current, done)
    requires StartFirst(costs, start) && current in costs
    requires nb in costs && costs[nb] <= costs[current] + 1
    requires costs' == costs && q' == q
    ensures AllCovered(grid, start, goal, costs', q', current, done + [nb])
  {
    forall p | IsRoute(grid, p, start, goal)
      ensures Covered(p, costs', q', start, goal, current, done + [nb])
    {
      forall j: nat | j < |p| - 1 && Reached(p, j, costs', start)
        ensures Open(p, j, q', goal) || Reached(p, j + 1, costs', start)
                || (p[j] == current && p[j + 1] !in done + [nb])
      {
      }
    }
  }

  /** From a reached cell, walk the route forward to an open cell or to its reached end. */
  lemma {:induction false} FindOpen(p: seq<Location>, costs: map<Location, nat>, q: multiset<Entry>,
                                    start: Location, goal: Location, last: Location, done: seq<Location>, j: nat)
      returns (k: nat)
    requires Covered(p, costs, q, start, goal, last, done)
    requires forall i :: 0 <= i < |p| - 1 && p[i] == last ==> p[i + 1] in done
    requires j < |p| && Reached(p, j, costs, start)
    ensures j <= k < |p| && Reached(p, k, costs, start)
    ensures k < |p| - 1 ==> Open(p, k, q, goal)
    decreases |p| - j
  {
    if j == |p| - 1 || Open(p, j, q, goal) {
      k := j;
    } else {
      assert Reached(p, j + 1, costs, start);
      k := FindOpen(p, costs, q, start, goal, last, done, j + 1);
    }
  }

  /** Wherever a route from a cell within the grid passes `last`, the next cell is among `neighbours(last)`. */
  lemma RouteSteps(grid: Grid, p: seq<Location>, start: Location, goal: Location, last: Location)
    requires IsRoute(grid, p, start, goal) && grid.Within(start)
    ensures forall i :: 0 <= i < |p| - 1 && p[i] == last ==> p[i + 1] in grid.NeighbourList(last)
  {
    forall i | 0 <= i < |p| - 1 && p[i] == last
      ensures p[i + 1] in grid.NeighbourList(last)
    {
      if i > 0 {
        assert grid.Step(p[i - 1], p[i]);
      }
      assert grid.Step(p[i], p[i + 1]);
      grid.NeighbourListFacts(last);
    }
  }

  /**
   * When the goal's entry is on top, the goal's cost is at most the length of
   * any route: the goal was reached along it, or an open cell of it has a
   * priority no smaller than the top's and at most the route's length.
   */
  lemma GoalTopOptimal(grid: Grid, start: Location, goal: Location, prev0: map<Location, Location>,
                       costs: map<Location, nat>, q: multiset<Entry>, prev: map<Location, Location>,
                       last: Location, top: Entry, p: seq<Location>)
    requires Bookkeeping(grid, start, goal, prev0, costs, q, prev)
    requires AllCovered(grid, start, goal, costs, q, last, grid.NeighbourList(last))
    requires IsTop(top, q) && top.loc == goal && start != goal
    requires IsRoute(grid, p, start, goal)
    ensures goal in costs && costs[goal] <= |p| - 1
  {
    TopExists(q);
    assert goal in costs && top.priority >= costs[goal] + Hx(goal, goal);
    RouteSteps(grid, p, start, goal, last);
    var k := FindOpen(p, costs, q, start, goal, last, grid.NeighbourList(last), 0);
    if k < |p| - 1 {
      var e :| e in q && e.loc == p[k] && e.priority <= k + Hx(p[k], goal);
      RouteAdmissible(grid, p, start, goal, k);
      HxZero(goal, goal);
    }
  }

  /** An exhausted frontier means no route from the start reaches the goal. */
  lemma ExhaustedNoRoute(grid: Grid, start: Location, goal: Location, prev0: map<Location, Location>,
                         costs: map<Location, nat>, prev: map<Location, Location>, last: Location)
    requires Bookkeeping(grid, start, goal, prev0, costs, multiset{}, prev)
    requires AllCovered(grid, start, goal, costs, multiset{}, last, grid.NeighbourList(last))
    requires start != goal
    ensures goal !in costs
    ensures forall p :: !IsRoute(grid, p, start, goal)
  {
    forall p | IsRoute(grid, p, start, goal)
      ensures false
    {
      RouteSteps(grid, p, start, goal, last);
      var k := FindOpen(p, costs, multiset{}, start, goal, last, grid.NeighbourList(last), 0);
    }
  }
}
