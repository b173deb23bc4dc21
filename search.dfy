/** `a_search`: A* from `start` to `goal` over the grid, with unit step costs. */
module AStar {
  import opened Grids
  import opened Heuristic
  import opened Frontier
  import opened Routes
  import opened Track
  import opened CostLog
  import opened SearchState
  import opened Coverage
  import opened Measure
  import opened Chains

  /**
   * Returns `costs[goal]` after the search (0 when the goal was not reached,
   * or when it is the start) and the caller's `previous_location` map with the
   * predecessors of every relaxed cell written in. `costs` is the search's
   * final cost table, `log` the writes that built it, and `heads` the cost
   * table at the start of each iteration of the main loop.
   */
  method ASearch(grid: Grid, start: Location, goal: Location, previous: map<Location, Location>)
    returns (cost: nat, prev: map<Location, Location>, ghost costs: map<Location, nat>, ghost log: seq<CostWrite>,
             ghost heads: seq<map<Location, nat>>)
    ensures !EndpointsOk(grid, start, goal) ==> cost == 0 && prev == previous && costs == map[]
    ensures cost == (if goal in costs then costs[goal] else 0)
    ensures start == goal ==> cost == 0
    ensures costs == Replay(log) && OnlyImproving(log)
    ensures |heads| > 0 && heads[0] == map[] && heads[|heads| - 1] == costs && CostsNeverRaised(heads)
    ensures KeysPassable(grid, costs) && StartFirst(costs, start)
    ensures Descends(prev, costs, start) && LinksAreSteps(grid, prev, costs, start)
    ensures PrevFrame(previous, prev, costs, start)
    ensures EndpointsOk(grid, start, goal) && start != goal ==>
              (cost > 0 <==> exists p :: IsRoute(grid, p, start, goal))
    ensures cost > 0 ==> forall p :: IsRoute(grid, p, start, goal) ==> cost <= |p| - 1
    ensures cost > 0 ==> goal in costs
    ensures cost > 0 ==> IsRoute(grid, ChainRoute(prev, costs, start, goal), start, goal)
                         && |ChainRoute(prev, costs, start, goal)| == cost + 1
    ensures cost > 0 ==> ChainReaches(prev, goal, start, cost)
                         && ChainCells(prev, goal, start, cost) == Routes.Cells(ChainRoute(prev, costs, start, goal))
    ensures cost > 0 ==> Hx(start, goal) <= cost
  {
    if !grid.Within(start) || !grid.Within(goal) || !grid.Operational(start) || !grid.Operational(goal) {
      return 0, previous, map[], [], [map[]];
    }
    var table: map<Location, nat>, queue: multiset<Entry>;
    ghost var last, found, goalTop;
    table, queue, prev, log, heads, last, found, goalTop := MainLoop(grid, start, goal, previous);
    costs := table;
    cost := if goal in table then table[goal] else 0;
    SearchOutcome(grid, start, goal, previous, table, queue, prev, last, found, goalTop);
  }

  /**
   * The main loop of `a_search` from the initial frontier (0, start): pops the
   * entry with the lowest priority and expands its cell, until the frontier is
   * empty or the goal's entry is on top.
   */
  method MainLoop(grid: Grid, start: Location, goal: Location, previous: map<Location, Location>)
    returns (table: map<Location, nat>, queue: multiset<Entry>, prev: map<Location, Location>,
             ghost log: seq<CostWrite>, ghost heads: seq<map<Location, nat>>,
             ghost last: Location, ghost found: bool, ghost goalTop: Entry)
    requires EndpointsOk(grid, start, goal)
    ensures Bookkeeping(grid, start, goal, previous, table, queue, prev)
    ensures table == Replay(log) && OnlyImproving(log)
    ensures |heads| > 0 && heads[0] == map[] && heads[|heads| - 1] == table && CostsNeverRaised(heads)
    ensures AllCovered(grid, start, goal, table, queue, last, grid.NeighbourList(last))
    ensures if found then IsTop(goalTop, queue) && goalTop.loc == goal else queue == multiset{}
  {
    queue := multiset{Entry(0, start)};
    table := map[];
    prev := previous;
    log := [];
    heads := [map[]];
    var current := start;
    last := start;
    found := false;
    goalTop := Entry(0, start);
    InitBookkeeping(grid, start, goal, previous);
    InitCovered(grid, start, goal);
    while queue != multiset{}
      invariant Bookkeeping(grid, start, goal, previous, table, queue, prev)
      invariant table == Replay(log) && OnlyImproving(log)
      invariant |heads| > 0 && heads[0] == map[] && heads[|heads| - 1] == table && CostsNeverRaised(heads)
      invariant AllCovered(grid, start, goal, table, queue, last, grid.NeighbourList(last))
      invariant !found
      decreases Unresolved(grid, table), Rank(grid, table, queue)
    {
      TopExists(queue);
      var top :| top in queue && IsTop(top, queue);
      current := top.loc;
      if !NotEqual(current, goal) {
        found, goalTop := true, top;
        break;
      }
      PopBookkeeping(grid, start, goal, previous, table, queue, prev, top);
      PopCovered(grid, start, goal, table, queue, last, top);
      ghost var table0, queue0 := table, queue;
      queue := queue - multiset{top};
      var nbs := grid.Neighbours(current);
      table, queue, prev, log := Expand(grid, start, goal, previous, current, nbs, table, queue, prev, log);
      PopThenNoWorse(grid, table0, queue0, top, table, queue);
      AppendHead(heads, table);
      heads := heads + [table];
      last := current;
    }
  }

  /**
   * The loop over `neighbours(current)`: relaxes each neighbour in turn. It
   * keeps the invariants, completes the expansion of `current` and does not
   * increase the termination measure.
   */
  method Expand(grid: Grid, start: Location, goal: Location, ghost previous: map<Location, Location>,
                current: Location, nbs: seq<Location>,
                table: map<Location, nat>, queue: multiset<Entry>, prev: map<Location, Location>,
                ghost log: seq<CostWrite>)
    returns (table': map<Location, nat>, queue': multiset<Entry>, prev': map<Location, Location>,
             ghost log': seq<CostWrite>)
    requires nbs == grid.NeighbourList(current)
    requires Bookkeeping(grid, start, goal, previous, table, queue, prev)
    requires current == start || current in table
    requires table == Replay(log) && OnlyImproving(log)
    requires AllCovered(grid, start, goal, table, queue, current, [])
    ensures Bookkeeping(grid, start, goal, previous, table', queue', prev')
    ensures table' == Replay(log') && OnlyImproving(log')
    ensures log <= log' && NoCostRaised(table, table')
    ensures AllCovered(grid, start, goal, table', queue', current, nbs)
    ensures NoWorse(grid, table, queue, table', queue')
  {
    table', queue', prev', log' := table, queue, prev, log;
    assert nbs[..0] == [];
    for i := 0 to |nbs|
      invariant Bookkeeping(grid, start, goal, previous, table', queue', prev')
      invariant current == start || current in table'
      invariant table' == Replay(log') && OnlyImproving(log')
      invariant log <= log'
      invariant AllCovered(grid, start, goal, table', queue', current, nbs[..i])
      invariant NoWorse(grid, table, queue, table', queue')
    {
      var t, q, p := RelaxNeighbour(goal, current, nbs[i], table', queue', prev');
      ghost var t0, q0, l0 := table', queue', log';
      RelaxPreserves(grid, start, goal, previous, current, nbs[i], nbs[..i], table', queue', prev', t, q, p);
      log' := PassLog(goal, current, nbs[i], table', queue', prev', log', t, q, p);
      NoWorseTrans(grid, table, queue, t0, q0, t, q);
      PrefixGrows(nbs, i);
      assert log <= l0 <= log';
      table', queue', prev' := t, q, p;
    }
    assert nbs[..|nbs|] == nbs;
    ExtensionNoCostRaised(log, log');
  }

  lemma PrefixGrows(s: seq<Location>, i: nat)
    requires i < |s|
    ensures s[..i + 1] == s[..i] + [s[i]]
  {
  }

  /** The table after `costs[current]`, which inserts a missing key with cost 0. */
  function WithCurrent(table: map<Location, nat>, current: Location): (r: map<Location, nat>)
    ensures current in r && r.Keys == table.Keys + {current}
    ensures forall k :: k in table ==> r[k] == table[k]
    ensures current !in table ==> r[current] == 0
  {
    if current in table then table else table[current := 0]
  }

  /** The relaxation test `!costs.count(nb) || cost < costs[nb]` with cost = costs[current] + 1. */
  predicate Improves(table: map<Location, nat>, current: Location, nb: Location)
    requires current in table
  {
    nb !in table || table[current] + 1 < table[nb]
  }

  /**
   * The relaxation of `nb` once `current` has a cost: a cell without a cost,
   * or with a higher one, gets cost + 1, is queued with priority cost + hx and
   * remembers `current` as predecessor; otherwise nothing changes.
   */
  predicate RelaxedFrom(goal: Location, current: Location, nb: Location,
                        table: map<Location, nat>, queue: multiset<Entry>, prev: map<Location, Location>,
                        table': map<Location, nat>, queue': multiset<Entry>, prev': map<Location, Location>)
    requires current in table
    ensures RelaxedFrom(goal, current, nb, table, queue, prev, table', queue', prev') ==>
              && NoCostRaised(table, table') && current in table' && nb in table'
              && table'[nb] <= table'[current] + 1
  {
    if Improves(table, current, nb)
    then && table' == table[nb := table[current] + 1]
         && queue' == queue + multiset{Pushed(table[current] + 1, nb, goal)}
         && prev' == prev[nb := current]
    else table' == table && queue' == queue && prev' == prev
  }

  /**
   * The state after one pass of the neighbour loop: `costs[current]`, which
   * inserts `current` with cost 0 the first time, then the relaxation of `nb`.
   */
  predicate RelaxedTo(goal: Location, current: Location, nb: Location,
                      table: map<Location, nat>, queue: multiset<Entry>, prev: map<Location, Location>,
                      table': map<Location, nat>, queue': multiset<Entry>, prev': map<Location, Location>)
    ensures RelaxedTo(goal, current, nb, table, queue, prev, table', queue', prev') ==>
              && NoCostRaised(table, table') && current in table' && nb in table'
              && table'[nb] <= table'[current] + 1
  {
    RelaxedFrom(goal, current, nb, WithCurrent(table, current), queue, prev, table', queue', prev')
  }

  /** The cost write `costs[current]` makes: cost 0 for `current` the first time, none after. */
  function InsertWrites(table: map<Location, nat>, current: Location): seq<CostWrite> {
    if current in table then [] else [CostWrite(current, 0)]
  }

  /** The cost write the relaxation of `nb` makes: `costs[current] + 1` when it improves, none otherwise. */
  function RelaxWrites(table: map<Location, nat>, current: Location, nb: Location): seq<CostWrite>
    requires current in table
  {
    if Improves(table, current, nb) then [CostWrite(nb, table[current] + 1)] else []
  }

  /** The cost writes of one pass of the neighbour loop, in the order the source makes them. */
  function PassWrites(table: map<Location, nat>, current: Location, nb: Location): seq<CostWrite> {
    InsertWrites(table, current) + RelaxWrites(WithCurrent(table, current), current, nb)
  }

  /** One pass of the neighbour loop of `a_search`. */
  method RelaxNeighbour(goal: Location, current: Location, nb: Location,
                        table: map<Location, nat>, queue: multiset<Entry>, prev: map<Location, Location>)
    returns (table': map<Location, nat>, queue': multiset<Entry>, prev': map<Location, Location>)
    ensures RelaxedTo(goal, current, nb, table, queue, prev, table', queue', prev')
  {
    table', queue', prev' := table, queue, prev;
    if current !in table' {
      table' := table'[current := 0];
    }
    var cost := table'[current];
    cost := cost + 1;
    if nb !in table' || cost < table'[nb] {
      table' := table'[nb := cost];
      queue' := queue' + multiset{Pushed(cost, nb, goal)};
      prev' := prev'[nb := current];
    }
  }

  /**
   * One pass of the neighbour loop keeps the search's invariants, completes
   * the step for `nb`, and does not increase the termination measure.
   */
  lemma RelaxPreserves(grid: Grid, start: Location, goal: Location, previous: map<Location, Location>,
                       current: Location, nb: Location, done: seq<Location>,
                       table: map<Location, nat>, queue: multiset<Entry>, prev: map<Location, Location>,
                       table': map<Location, nat>, queue': multiset<Entry>, prev': map<Location, Location>)
    requires Bookkeeping(grid, start, goal, previous, table, queue, prev)
    requires current == start || current in table
    requires nb in grid.NeighbourList(current)
    requires AllCovered(grid, start, goal, table, queue, current, done)
    requires RelaxedTo(goal, current, nb, table, queue, prev, table', queue', prev')
    ensures Bookkeeping(grid, start, goal, previous, table', queue', prev')
    ensures current in table'
    ensures AllCovered(grid, start, goal, table', queue', current, done + [nb])
    ensures NoWorse(grid, table, queue, table', queue')
  {
    var base := WithCurrent(table, current);
    InsertCurrent(grid, start, goal, previous, current, done, table, queue, prev);
    RelaxFromBase(grid, start, goal, previous, current, nb, done, base, queue, prev, table', queue', prev');
    NoWorseTrans(grid, table, queue, base, queue, table', queue');
  }

  /** The relaxation step once `current` has a cost. */
  lemma RelaxFromBase(grid: Grid, start: Location, goal: Location, previous: map<Location, Location>,
                      current: Location, nb: Location, done: seq<Location>,
                      table: map<Location, nat>, queue: multiset<Entry>, prev: map<Location, Location>,
                      table': map<Location, nat>, queue': multiset<Entry>, prev': map<Location, Location>)
    requires Bookkeeping(grid, start, goal, previous, table, queue, prev)
    requires current in table && nb in grid.NeighbourList(current)
    requires AllCovered(grid, start, goal, table, queue, current, done)
    requires RelaxedFrom(goal, current, nb, table, queue, prev, table', queue', prev')
    ensures Bookkeeping(grid, start, goal, previous, table', queue', prev')
    ensures current in table'
    ensures AllCovered(grid, start, goal, table', queue', current, done + [nb])
    ensures NoWorse(grid, table, queue, table', queue')
  {
    if Improves(table, current, nb) {
      ImprovedCase(grid, start, goal, previous, current, nb, done, table, queue, prev, table', queue', prev');
    } else {
      KeptCase(grid, start, goal, previous, current, nb, done, table, queue, prev, table', queue', prev');
    }
  }

  /** A neighbour whose cost is not improved leaves the state as it is and completes its step. */
  lemma KeptCase(grid: Grid, start: Location, goal: Location, previous: map<Location, Location>,
                 current: Location, nb: Location, done: seq<Location>,
                 table: map<Location, nat>, queue: multiset<Entry>, prev: map<Location, Location>,
                 table': map<Location, nat>, queue': multiset<Entry>, prev': map<Location, Location>)
    requires Bookkeeping(grid, start, goal, previous, table, queue, prev)
    requires current in table && !Improves(table, current, nb)
    requires AllCovered(grid, start, goal, table, queue, current, done)
    requires table' == table && queue' == queue && prev' == prev
    ensures Bookkeeping(grid, start, goal, previous, table', queue', prev')
    ensures AllCovered(grid, start, goal, table', queue', current, done + [nb])
    ensures NoWorse(grid, table, queue, table', queue')
  {
    KeepCovered(grid, start, goal, table, queue, current, done, nb, table', queue');
  }

  /** A relaxation keeps the invariants and does not increase the termination measure. */
  lemma ImprovedCase(grid: Grid, start: Location, goal: Location, previous: map<Location, Location>,
                     current: Location, nb: Location, done: seq<Location>,
                     table: map<Location, nat>, queue: multiset<Entry>, prev: map<Location, Location>,
                     table': map<Location, nat>, queue': multiset<Entry>, prev': map<Location, Location>)
    requires Bookkeeping(grid, start, goal, previous, table, queue, prev)
    requires current in table && Improves(table, current, nb)
    requires nb in grid.NeighbourList(current)
    requires AllCovered(grid, start, goal, table, queue, current, done)
    requires table' == table[nb := table[current] + 1]
    requires queue' == queue + multiset{Pushed(table[current] + 1, nb, goal)}
    requires prev' == prev[nb := current]
    ensures Bookkeeping(grid, start, goal, previous, table', queue', prev')
    ensures AllCovered(grid, start, goal, table', queue', current, done + [nb])
    ensures NoWorse(grid, table, queue, table', queue')
  {
    RelaxBookkeeping(grid, start, goal, previous, table, queue, prev, current, nb, table', queue', prev');
    ImprovedCoverage(grid, start, goal, current, nb, done, table, queue, table', queue');
  }

  /** The route coverage and the termination measure after a relaxation of `nb`. */
  lemma ImprovedCoverage(grid: Grid, start: Location, goal: Location, current: Location, nb: Location,
                         done: seq<Location>, table: map<Location, nat>, queue: multiset<Entry>,
                         table': map<Location, nat>, queue': multiset<Entry>)
    requires KeysPassable(grid, table) && StartFirst(table, start)
    requires current in table && Improves(table, current, nb)
    requires nb in grid.NeighbourList(current)
    requires AllCovered(grid, start, goal, table, queue, current, done)
    requires table' == table[nb := table[current] + 1]
    requires queue' == queue + multiset{Pushed(table[current] + 1, nb, goal)}
    ensures AllCovered(grid, start, goal, table', queue', current, done + [nb])
    ensures NoWorse(grid, table, queue, table', queue')
  {
    var t := table[current] + 1;
    grid.NeighbourListFacts(current);
    RelaxCovered(grid, start, goal, table, queue, current, done, nb, t, table', queue');
    RelaxMeasure(grid, table, queue, nb, t, goal);
  }

  /** `costs[current]` keeps the invariants; it gives `current` cost 0 the first time. */
  lemma InsertCurrent(grid: Grid, start: Location, goal: Location, previous: map<Location, Location>,
                      current: Location, done: seq<Location>,
                      table: map<Location, nat>, queue: multiset<Entry>, prev: map<Location, Location>)
    requires Bookkeeping(grid, start, goal, previous, table, queue, prev)
    requires current == start || current in table
    requires AllCovered(grid, start, goal, table, queue, current, done)
    ensures Bookkeeping(grid, start, goal, previous, WithCurrent(table, current), queue, prev)
    ensures AllCovered(grid, start, goal, WithCurrent(table, current), queue, current, done)
    ensures NoWorse(grid, table, queue, WithCurrent(table, current), queue)
  {
    if current !in table {
      InsertStartBookkeeping(grid, start, goal, previous, table, queue, prev);
      InsertStartCovered(grid, start, goal, table, queue, current, done);
      KeysInCells(grid, table);
      WithinCells(grid, current);
    }
  }

  /**
   * The cost history of one pass of the neighbour loop: the pass appends
   * exactly its writes, each of which lowers the cost it overwrites.
   */
  lemma PassLog(goal: Location, current: Location, nb: Location,
                table: map<Location, nat>, queue: multiset<Entry>, prev: map<Location, Location>,
                log: seq<CostWrite>,
                table': map<Location, nat>, queue': multiset<Entry>, prev': map<Location, Location>)
      returns (log': seq<CostWrite>)
    requires table == Replay(log) && OnlyImproving(log)
    requires RelaxedTo(goal, current, nb, table, queue, prev, table', queue', prev')
    ensures table' == Replay(log') && OnlyImproving(log')
    ensures log' == log + PassWrites(table, current, nb)
  {
    var base := WithCurrent(table, current);
    var log1 := InsertLog(current, table, log);
    log' := RelaxLog(goal, current, nb, base, queue, prev, log1, table', queue', prev');
    Regroup(log, InsertWrites(table, current), RelaxWrites(base, current, nb));
  }

  lemma Regroup(a: seq<CostWrite>, b: seq<CostWrite>, c: seq<CostWrite>)
    ensures a + b + c == a + (b + c)
  {
  }

  /** The cost history of `costs[current]`: a write of cost 0 when `current` has no cost yet. */
  lemma InsertLog(current: Location, table: map<Location, nat>, log: seq<CostWrite>)
      returns (log': seq<CostWrite>)
    requires table == Replay(log) && OnlyImproving(log)
    ensures WithCurrent(table, current) == Replay(log') && OnlyImproving(log')
    ensures log' == log + InsertWrites(table, current)
  {
    if current in table {
      log' := log;
      assert log' == log + [];
    } else {
      Append(log, CostWrite(current, 0));
      log' := log + [CostWrite(current, 0)];
    }
  }

  /** The cost history of the relaxation of `nb`: a write of cost + 1 exactly when it improves. */
  lemma RelaxLog(goal: Location, current: Location, nb: Location,
                 table: map<Location, nat>, queue: multiset<Entry>, prev: map<Location, Location>,
                 log: seq<CostWrite>,
                 table': map<Location, nat>, queue': multiset<Entry>, prev': map<Location, Location>)
      returns (log': seq<CostWrite>)
    requires current in table
    requires table == Replay(log) && OnlyImproving(log)
    requires RelaxedFrom(goal, current, nb, table, queue, prev, table', queue', prev')
    ensures table' == Replay(log') && OnlyImproving(log')
    ensures log' == log + RelaxWrites(table, current, nb)
  {
    if Improves(table, current, nb) {
      log' := ImprovedLog(current, nb, table, log, table');
    } else {
      log' := log;
      assert log' == log + [];
    }
  }

  /** The cost history after a relaxation of `nb`: one more write, which lowers the cost of `nb`. */
  lemma ImprovedLog(current: Location, nb: Location, table: map<Location, nat>, log: seq<CostWrite>,
                    table': map<Location, nat>)
      returns (log': seq<CostWrite>)
    requires current in table && Improves(table, current, nb)
    requires table == Replay(log) && OnlyImproving(log)
    requires table' == table[nb := table[current] + 1]
    ensures table' == Replay(log') && OnlyImproving(log')
    ensures log' == log + [CostWrite(nb, table[current] + 1)]
  {
    var w := CostWrite(nb, table[current] + 1);
    Append(log, w);
    log' := log + [w];
  }
  /**
   * What the final state says when the loop ends: with the frontier exhausted
   * there is no route; with the goal's entry on top its cost is optimal and
   * the predecessor chain spells out a shortest route.
   */
  lemma SearchOutcome(grid: Grid, start: Location, goal: Location, previous: map<Location, Location>,
                      costs: map<Location, nat>, q: multiset<Entry>, prev: map<Location, Location>,
                      last: Location, found: bool, goalTop: Entry)
    requires Bookkeeping(grid, start, goal, previous, costs, q, prev)
    requires AllCovered(grid, start, goal, costs, q, last, grid.NeighbourList(last))
    requires if found then IsTop(goalTop, q) && goalTop.loc == goal else q == multiset{}
    ensures start == goal ==> goal !in costs || costs[goal] == 0
    ensures start != goal ==> (goal in costs <==> exists p :: IsRoute(grid, p, start, goal))
    ensures goal in costs && start != goal ==>
              && costs[goal] > 0
              && (forall p :: IsRoute(grid, p, start, goal) ==> costs[goal] <= |p| - 1)
              && IsRoute(grid, ChainRoute(prev, costs, start, goal), start, goal)
              && |ChainRoute(prev, costs, start, goal)| == costs[goal] + 1
              && ChainReaches(prev, goal, start, costs[goal])
              && ChainCells(prev, goal, start, costs[goal]) == Routes.Cells(ChainRoute(prev, costs, start, goal))
              && Hx(start, goal) <= costs[goal]
  {
    if start != goal {
      if found {
        forall p | IsRoute(grid, p, start, goal)
          ensures costs[goal] <= |p| - 1
        {
          GoalTopOptimal(grid, start, goal, previous, costs, q, prev, last, goalTop, p);
        }
        TopExists(q);
        assert goal in costs;
        ChainRouteIsRoute(grid, prev, costs, start, goal);
        ChainRouteCells(prev, costs, start, goal);
        RouteAdmissible(grid, ChainRoute(prev, costs, start, goal), start, goal, 0);
      } else {
        ExhaustedNoRoute(grid, start, goal, previous, costs, prev, last);
      }
    }
  }
}
