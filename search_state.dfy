/**
 * The state of `a_search` at the head of its loop and the facts it keeps:
 * the `costs` table, the `min_queue` frontier and the caller's
 * `previous_location` map, related to each other and to the grid.
 */
module SearchState {
  import opened Grids
  import opened Heuristic
  import opened Frontier

  ghost predicate EndpointsOk(grid: Grid, start: Location, goal: Location)
    reads grid
  {
    grid.Within(start) && grid.Within(goal) && grid.Operational(start) && grid.Operational(goal)
  }

  /** Every cell with a cost is within the grid and not a wall. */
  ghost predicate KeysPassable(grid: Grid, costs: map<Location, nat>)
    reads grid
  {
    forall c :: c in costs ==> grid.Within(c) && grid.Operational(c)
  }

  /** `start` is the first cell to get a cost, and that cost is 0. */
  ghost predicate StartFirst(costs: map<Location, nat>, start: Location) {
    (costs != map[] ==> start in costs) && (start in costs ==> costs[start] == 0)
  }

  /** Along predecessor links the costs go strictly down. */
  ghost predicate Descends(prev: map<Location, Location>, costs: map<Location, nat>, start: Location) {
    forall c :: c in costs && c != start ==>
      c in prev && prev[c] in costs && costs[prev[c]] < costs[c]
  }

  /** Every cell with a cost, other than `start`, is a `Step` from its predecessor. */
  ghost predicate LinksAreSteps(grid: Grid, prev: map<Location, Location>, costs: map<Location, nat>, start: Location)
    reads grid
  {
    forall c :: c in costs && c != start && c in prev ==> grid.Step(prev[c], c)
  }

  /** The search writes the predecessors of the cells it relaxes and nothing else. */
  ghost predicate PrevFrame(prev0: map<Location, Location>, prev: map<Location, Location>,
                            costs: map<Location, nat>, start: Location) {
    && prev.Keys == prev0.Keys + (costs.Keys - {start})
    && forall k :: k in prev0 && (k !in costs || k == start) ==> prev[k] == prev0[k]
  }

  /**
   * Every queued entry is the initial (0, start) or was pushed with priority
   * cost + hx when its cell got that cost; costs only went down since.
   */
  ghost predicate FrontierSound(q: multiset<Entry>, costs: map<Location, nat>, start: Location, goal: Location) {
    forall e :: e in q ==>
      (e.loc == start && e.priority == 0) || (e.loc in costs && e.priority >= costs[e.loc] + Hx(e.loc, goal))
  }

  /** Once the goal has a cost, an entry for it stays queued (the loop never pops the goal). */
  ghost predicate GoalQueued(q: multiset<Entry>, costs: map<Location, nat>, start: Location, goal: Location) {
    goal in costs && goal != start ==> exists e :: e in q && e.loc == goal
  }

  ghost predicate Bookkeeping(grid: Grid, start: Location, goal: Location, prev0: map<Location, Location>,
                              costs: map<Location, nat>, q: multiset<Entry>, prev: map<Location, Location>)
    reads grid
  {
    && EndpointsOk(grid, start, goal)
    && KeysPassable(grid, costs)
    && StartFirst(costs, start)
    && Descends(prev, costs, start)
    && LinksAreSteps(grid, prev, costs, start)
    && PrevFrame(prev0, prev, costs, start)
    && FrontierSound(q, costs, start, goal)
    && GoalQueued(q, costs, start, goal)
  }

  lemma InitBookkeeping(grid: Grid, start: Location, goal: Location, prev0: map<Location, Location>)
    requires EndpointsOk(grid, start, goal)
    ensures Bookkeeping(grid, start, goal, prev0, map[], multiset{Entry(0, start)}, prev0)
  {
  }

  /** Popping an entry that is not the goal's keeps the bookkeeping. */
  lemma PopBookkeeping(grid: Grid, start: Location, goal: Location, prev0: map<Location, Location>,
                       costs: map<Location, nat>, q: multiset<Entry>, prev: map<Location, Location>, top: Entry)
    requires Bookkeeping(grid, start, goal, prev0, costs, q, prev)
    requires top in q && top.loc != goal
    ensures Bookkeeping(grid, start, goal, prev0, costs, q - multiset{top}, prev)
    ensures top.loc == start || top.loc in costs
    ensures grid.Within(top.loc) && grid.Operational(top.loc)
  {
    var q' := q - multiset{top};
    if goal in costs && goal != start {
      var e :| e in q && e.loc == goal;
      assert e != top;
      assert e in q';
    }
  }

  /** `costs[current]` on the start's first expansion inserts `start` with cost 0. */
  lemma InsertStartBookkeeping(grid: Grid, start: Location, goal: Location, prev0: map<Location, Location>,
                               costs: map<Location, nat>, q: multiset<Entry>, prev: map<Location, Location>)
    requires Bookkeeping(grid, start, goal, prev0, costs, q, prev)
    requires start !in costs
    ensures costs == map[]
    ensures Bookkeeping(grid, start, goal, prev0, costs[start := 0], q, prev)
  {
  }

  /**
   * A relaxation in the neighbour loop: `nb` had no cost or gets a strictly
   * lower one; its cost is set, cost + hx is pushed and `current` recorded.
   */
  lemma RelaxBookkeeping(grid: Grid, start: Location, goal: Location, prev0: map<Location, Location>,
                         costs: map<Location, nat>, q: multiset<Entry>, prev: map<Location, Location>,
                         current: Location, nb: Location,
                         costs': map<Location, nat>, q': multiset<Entry>, prev': map<Location, Location>)
    requires Bookkeeping(grid, start, goal, prev0, costs, q, prev)
    requires current in costs && nb in grid.NeighbourList(current)
    requires nb !in costs || costs[current] + 1 < costs[nb]
    requires costs' == costs[nb := costs[current] + 1]
    requires q' == q + multiset{Pushed(costs[current] + 1, nb, goal)}
    requires prev' == prev[nb := current]
    ensures Bookkeeping(grid, start, goal, prev0, costs', q', prev')
  {
    grid.NeighbourListFacts(current);
    assert grid.Step(current, nb);
    assert nb != current;
    assert nb != start;
    RelaxDescends(prev, costs, start, current, nb, prev', costs');
    RelaxLinks(grid, prev, costs, start, current, nb, prev', costs');
    RelaxFrame(prev0, prev, costs, start, current, nb, prev', costs');
    RelaxFrontier(q, costs, start, goal, current, nb, q', costs');
    assert KeysPassable(grid, costs');
    assert StartFirst(costs', start);
  }

  lemma RelaxDescends(prev: map<Location, Location>, costs: map<Location, nat>, start: Location,
                      current: Location, nb: Location,
                      prev': map<Location, Location>, costs': map<Location, nat>)
    requires Descends(prev, costs, start)
    requires current in costs && nb != current && nb != start
    requires nb !in costs || costs[current] + 1 < costs[nb]
    requires prev' == prev[nb := current] && costs' == costs[nb := costs[current] + 1]
    ensures Descends(prev', costs', start)
  {
    forall c | c in costs' && c != start
      ensures c in prev' && prev'[c] in costs' && costs'[prev'[c]] < costs'[c]
    {
      if c != nb {
        assert c in costs;
      }
    }
  }

  lemma RelaxLinks(grid: Grid, prev: map<Location, Location>, costs: map<Location, nat>, start: Location,
                   current: Location, nb: Location,
                   prev': map<Location, Location>, costs': map<Location, nat>)
    requires LinksAreSteps(grid, prev, costs, start)
    requires grid.Step(current, nb) && current in costs
    requires prev' == prev[nb := current] && costs' == costs[nb := costs[current] + 1]
    ensures LinksAreSteps(grid, prev', costs', start)
  {
  }

  lemma RelaxFrame(prev0: map<Location, Location>, prev: map<Location, Location>, costs: map<Location, nat>,
                   start: Location, current: Location, nb: Location,
                   prev': map<Location, Location>, costs': map<Location, nat>)
    requires PrevFrame(prev0, prev, costs, start) && nb != start && current in costs
    requires prev' == prev[nb := current] && costs' == costs[nb := costs[current] + 1]
    ensures PrevFrame(prev0, prev', costs', start)
  {
  }

  lemma RelaxFrontier(q: multiset<Entry>, costs: map<Location, nat>, start: Location, goal: Location,
                      current: Location, nb: Location, q': multiset<Entry>, costs': map<Location, nat>)
    requires FrontierSound(q, costs, start, goal) && GoalQueued(q, costs, start, goal)
    requires current in costs && (nb !in costs || costs[current] + 1 < costs[nb])
    requires q' == q + multiset{Pushed(costs[current] + 1, nb, goal)} && costs' == costs[nb := costs[current] + 1]
    ensures FrontierSound(q', costs', start, goal)
    ensures GoalQueued(q', costs', start, goal)
  {
    var pushed := Pushed(costs[current] + 1, nb, goal);
    forall e | e in q'
      ensures (e.loc == start && e.priority == 0) || (e.loc in costs' && e.priority >= costs'[e.loc] + Hx(e.loc, goal))
    {
      if e != pushed {
        assert e in q;
      }
    }
    if goal in costs' && goal != start {
      if goal == nb {
        assert pushed in q';
      } else {
        var e :| e in q && e.loc == goal;
        assert e in q';
      }
    }
  }
}
