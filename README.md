# A* search on a grid with walls

This project models the core of a small C++ program that finds a shortest
route between two cells of a rectangular grid with walls, by A* search with
unit step costs and the Manhattan-distance heuristic. The model covers:

- The `Grid` class: `width`, `height` and the `walls` set as fields of a Dafny
  `class`, with the bounds check `within`, the wall test `operational`, the
  ordered neighbourhood `neighbours`, `setWalls` and `unsetWalls`, which change
  the wall set in place, and both constructors.
- `Grid::Location`: a plain `(x, y)` datatype with `operator==` and `operator!=`.
- Coordinates are `unsigned int`. They are the subset type `U32`, and the
  `x + 1`, `x - 1`, `y + 1` and `y - 1` of `neighbours` wrap modulo 2^32, as the
  C++ does. The wrapped `x - 1` at 0 becomes 2^32 - 1, which `within` then
  rejects.
- `diff` and `hx`: the Manhattan heuristic.
- The priority-only `operator<` of frontier entries.
- `a_search` as imperative code: a `while` loop over a frontier, a `for` loop
  over the neighbours, a `costs` map and the caller's `previous_location` map.
  The frontier is a `multiset` of entries. Each pop takes any entry of least
  priority, because `std::priority_queue` breaks ties in an unspecified way.
  `costs[current]` default-inserts 0 for a cell without a cost, exactly as
  `operator[]` on the `unordered_map` does.
- `get_track`: a loop that follows the predecessor links back to the start.
- `add_rectangle`: two nested loops that append the cells of an inclusive
  rectangle.

What is proved about `a_search`:

- it terminates. Each round either gives a new cell of the finite grid a
  cost, or lowers the sum of the costs by more than the queue grows.
- a recorded cost only ever goes down. Each pass of the neighbour loop appends
  exactly its own writes to the cost history, each of which gives a cell its
  first cost or a strictly lower one (`PassLog`), and one expansion of a cell
  keeps every cost it found and raises none (`Expand`). The main loop records
  the table at the start of each iteration; this is a fact about that loop's
  body, since any table is the replay of some such history.
- every relaxed cell is within the grid and not a wall, and is a step from its
  predecessor.
- costs go strictly down along predecessor links.
- only the relaxed cells' predecessors are written.
- every queued entry is `(0, start)` or has a priority at least its cell's
  current cost plus `hx` to the goal.
- it returns 0 for bad endpoints (leaving `previous_location` as it was) and
  when no route exists.
- otherwise the goal's cost is the length of a shortest route, at least
  `hx(start, goal)`, and the predecessor chain that `get_track` follows spells
  out such a route.

## Model

| member | source | states |
|---|---|---|
| Grids.Equal | src/Grid.cpp:127-130 | `==` holds exactly when the two locations are the same value |
| Grids.NotEqual | src/Grid.cpp:132-135 | `!=` is the exact negation of `==` |
| Grids.WrapSucc | src/Grid.cpp:30-31 | unsigned `x + 1` is x + 1, except that 2^32 - 1 wraps to 0 |
| Grids.WrapPred | src/Grid.cpp:32-33 | unsigned `x - 1` is x - 1, except that 0 wraps to 2^32 - 1 |
| Grids.Candidates | src/Grid.cpp:28-34 | the four cells `neighbours` tries, east, south, west, north, with wrapping coordinates; specified by the next row |
| Grids.CandidatesDistinct | src/Grid.cpp:28-34 | the four candidate cells are pairwise different and none is `loc`, wrap-around included |
| Grids.Grid.Default | src/Grid.cpp:4-17 | `Grid()` has width and height 0 and no walls, so no cell is within it |
| Grids.Grid.constructor | src/Grid.cpp:9-12 | `Grid(w, h)` has width w, height h and no walls |
| Grids.Grid.Within | src/Grid.cpp:14-17 | the bounds check x < width and y < height, used by the contracts below |
| Grids.Grid.Operational | src/Grid.cpp:19-24 | not in the wall set, with no bounds check, used by the contracts below |
| Grids.Grid.Passable | src/Grid.cpp:36-41 | the filter loop of `neighbours`; specified by the next row |
| Grids.Grid.PassableFacts | src/Grid.cpp:36-41 | the filter keeps exactly the cells that are within and operational, keeps no more cells than it is given, and adds no duplicate |
| Grids.Grid.NeighbourList | src/Grid.cpp:26-43 | what `neighbours(loc)` returns, the candidates passed through the filter; specified by the next rows |
| Grids.Grid.NeighbourListFacts | src/Grid.cpp:26-43 | at most 4 neighbours, none twice, never `loc`; a cell is a neighbour iff it is a candidate that is within and operational; for `loc` within the grid, iff it is orthogonally adjacent, within and operational (the wrapped cells never appear) |
| Grids.Grid.WithinCandidatesAreAdjacent | src/Grid.cpp:28-39 | for `loc` within the grid, the candidates within the grid are exactly its adjacent cells within the grid |
| Grids.Grid.Neighbours | src/Grid.cpp:26-43 | the loop returns the candidates east, south, west, north that are within and operational, in that order |
| Grids.Grid.UnsetWalls | src/Grid.cpp:45-48 | the wall set becomes empty, so every cell is operational; width and height are unchanged |
| Grids.Grid.SetWalls | src/Grid.cpp:50-56 | the wall set becomes the old one plus every given cell, duplicates collapsed; width and height are unchanged |
| Grids.SetWallsTwice | src/Grid.cpp:50-56 | setting the same walls twice gives the same wall set as setting them once |
| Grids.ResetThenSet | src/Grid.cpp:45-56 | clearing the walls and setting new ones gives what a fresh grid of the same size gets from the same walls |
| Heuristic.Diff | src/main.cpp:53-56 | `diff(a, b)` is the absolute difference; its unsigned subtraction never wraps |
| Heuristic.Hx | src/main.cpp:65-69 | `hx` is the Manhattan distance, the sum of the two true coordinate differences |
| Heuristic.HxSymmetric | src/main.cpp:65-69 | `hx` is symmetric |
| Heuristic.HxZero | src/main.cpp:65-69 | `hx(a, b)` is 0 iff a and b are the same cell |
| Heuristic.HxTriangle | src/main.cpp:65-69 | `hx` satisfies the triangle inequality |
| Heuristic.HxStep | src/main.cpp:65-69 | along one orthogonal step `hx` to any goal changes by at most 1, and adjacent cells are at distance 1 (consistency) |
| Frontier.Pushed | src/main.cpp:127 | the entry pushed for `nb` names `nb`, its priority is never below the cost, and it equals the cost when `nb` is the goal |
| Frontier.Less | src/main.cpp:59-62 | `operator<` compares the priorities only; its order properties are the next row |
| Frontier.LessIsStrictWeakOrder | src/main.cpp:59-62 | `operator<` is irreflexive, asymmetric and transitive, and two entries are unordered exactly when their priorities tie, whatever their cells |
| Frontier.IsTop | src/main.cpp:108-110 | an entry `top()` may return: queued, with no entry `operator<` below it; characterised by the next row |
| Frontier.IsTopIsLeast | src/main.cpp:108-110 | an entry is a possible top exactly when it is queued and its priority is the least in the queue |
| Frontier.TopExists | src/main.cpp:59-62 | a non-empty frontier has an entry no other is `operator<` below, and every such top has the least priority |
| Frontier.TiesAreTops | src/main.cpp:59-62 | an entry whose priority ties with a top's is a top too, so the order alone does not fix the pop |
| Routes.RouteAdmissible | src/main.cpp:65-69 | along a route from a cell within the grid every cell is within it and `hx` to the end is at most the steps left (admissible) |
| CostLog.Append | src/main.cpp:121-124 | a write that gives a cell its first cost or a strictly lower one extends an only-improving history, and the table is the old one with that entry updated |
| CostLog.CostsOnlyDecrease | src/main.cpp:116-124 | across any later stretch of an only-improving history a cell with a cost keeps one, and it never goes up |
| CostLog.ExtensionNoCostRaised | src/main.cpp:116-124 | an only-improving history that extends another never raises or drops a cost of the table the shorter one built |
| CostLog.AppendHead | src/main.cpp:106-133 | a sequence of tables in which none raises a cost of an earlier one stays so when a table that raises none of the last one's costs is appended |
| SearchState.InitBookkeeping | src/main.cpp:88-103 | the state after the early-exit test, with `(0, start)` queued and no costs, satisfies the search invariants |
| SearchState.PopBookkeeping | src/main.cpp:108-110 | popping an entry other than the goal's keeps the invariants; the popped cell is the start or has a cost, and is within and operational |
| SearchState.InsertStartBookkeeping | src/main.cpp:116 | the first default-insert of `costs[current]` can only happen while `costs` is empty, and giving `start` cost 0 keeps the invariants |
| SearchState.RelaxBookkeeping | src/main.cpp:112-131 | the relaxation of a neighbour keeps every invariant of the search |
| SearchState.RelaxDescends | src/main.cpp:116-130 | after the relaxation, costs still go strictly down along predecessor links |
| SearchState.RelaxLinks | src/main.cpp:112-130 | after the relaxation, each relaxed cell is a step from its predecessor |
| SearchState.RelaxFrame | src/main.cpp:130 | `previous_location` gains exactly the relaxed cells as keys and keeps the caller's other entries |
| SearchState.RelaxFrontier | src/main.cpp:124-127 | each queued entry is `(0, start)` or has priority at least the cell's current cost plus `hx`, and the goal stays queued once it has a cost |
| Coverage.InitCovered | src/main.cpp:100 | with only `(0, start)` queued, every route from the start is covered |
| Coverage.PopCovered | src/main.cpp:108-112 | popping the top after an expansion is complete keeps every route covered |
| Coverage.InsertStartCovered | src/main.cpp:116 | giving `start` cost 0 keeps every route covered |
| Coverage.RelaxCovered | src/main.cpp:121-131 | relaxing a neighbour keeps every route covered and marks that neighbour done |
| Coverage.KeepCovered | src/main.cpp:121 | a neighbour whose cost is not improved keeps every route covered and is marked done |
| Coverage.FindOpen | src/main.cpp:108-133 | on a covered route whose pass through the last expanded cell is done, a reached cell is followed by a reached cell that is open or is the route's end |
| Coverage.RouteSteps | src/Grid.cpp:26-43 | wherever a route from a cell within the grid passes a cell, the next cell is among that cell's `neighbours` |
| Coverage.GoalTopOptimal | src/main.cpp:108-137 | when the goal's entry is on top, the goal has a cost no greater than the length of any route |
| Coverage.ExhaustedNoRoute | src/main.cpp:108-137 | when the frontier runs empty, the goal has no cost and no route from the start reaches it |
| Measure.WithinCells | src/Grid.cpp:14-17 | a cell within the grid is one of its finitely many cells |
| Measure.RowSumUpdate | src/main.cpp:124 | updating one entry changes a row sum by the difference at that entry |
| Measure.TableSumUpdate | src/main.cpp:124 | updating one entry changes the grid-wide sum by the difference at that entry |
| Measure.LowerCost | src/main.cpp:121-124 | lowering a cost within the grid lowers the sum of the costs |
| Measure.KeysInCells | src/main.cpp:124 | the cells with a cost lie among the grid's cells |
| Measure.RelaxMeasure | src/main.cpp:121-127 | a relaxation with its push does not increase the termination measure |
| Measure.PopThenNoWorse | src/main.cpp:110 | a pop followed by an expansion that does no worse decreases the measure strictly |
| Chains.ChainRouteIsRoute | src/main.cpp:116-130 | the predecessor chain from a cell with a cost is a route from the start with at most that many steps |
| Chains.ChainReachesStart | src/main.cpp:141-156 | from a cell with a cost, following predecessors reaches the start within that many links |
| Chains.ChainRouteCells | src/main.cpp:141-156 | the cells met while following predecessors are exactly the cells of the chain's route |
| Track.ChainCells | src/main.cpp:146-153 | the cells met while following `came_from` from the goal to the first `start`; specified by the next rows |
| Track.ChainReachesMore | src/main.cpp:149-153 | reaching the start within n links means within any m >= n, and the same cells are met |
| Track.ChainCellsEnds | src/main.cpp:146-153 | the cells met along a chain include both its ends |
| Track.GetTrack | src/main.cpp:141-156 | the returned set is exactly the cells from the goal back to the start along the chain, both ends included |
| Rectangles.ColumnCells | src/main.cpp:26-27 | one column holds hi - lo cells: x fixed and y from lo up to hi |
| Rectangles.BlockLength | src/main.cpp:25-27 | the block of columns holds width times height cells |
| Rectangles.BlockCells | src/main.cpp:25-27 | a cell is in the block iff both of its coordinates are in range |
| Rectangles.Rectangle | src/main.cpp:18-28 | the cells `add_rectangle` appends, with each axis's ends put in order; specified by the three lemmas below |
| Rectangles.RectangleLength | src/main.cpp:18-28 | the rectangle has (abs(x_end - x_start) + 1) * (abs(y_end - y_start) + 1) cells |
| Rectangles.RectangleCells | src/main.cpp:18-28 | the rectangle holds exactly the cells between the ends on both axes, ends included |
| Rectangles.RectangleSymmetric | src/main.cpp:20-23 | swapping the ends of either axis gives the same cells in the same order |
| Rectangles.AddRectangle | src/main.cpp:18-28 | the old contents stay as a prefix, followed by the rectangle's cells column by column |
| Rectangles.InnerAsWritten | src/main.cpp:26-27 | the inner loop as written on its `unsigned int` counter: the cells appended in its first k iterations, with `++y` wrapping from 2^32 - 1 to 0; specified by the three lemmas below |
| Rectangles.CounterNeverPassesMax | src/main.cpp:26-27 | with `y_end` = 2^32 - 1 the guard `y <= y_end` holds at every counter value: any number k of iterations appends exactly k cells, so the loop never ends |
| Rectangles.WrapsToZero | src/main.cpp:26-27 | from y = 2^32 - 1 the next cell appended is (x, 0): outside the rectangle when `y_start > 0`, and a repeat of the column's first cell when `y_start == 0` |
| Rectangles.InnerAgrees | src/main.cpp:26-27 | with `y_end` below 2^32 - 1 the loop as written stops and appends exactly the column that `AddRectangle` appends |
| AStar.ASearch | src/main.cpp:80-138 | bad endpoints give 0 with the caller's map unchanged; start = goal gives 0; a cost greater than 0 iff a route exists; a positive cost is at most the length of every route and at least `hx(start, goal)`; the predecessor chain is a route of exactly that length, and `get_track` collects its cells; its ghost history and loop-head tables are those the body built (no cost is raised between loop heads, by `Expand`), which the final table alone does not imply; the final table's cells are within and operational, and only the relaxed cells' predecessors are written |
| AStar.MainLoop | src/main.cpp:100-133 | the loop ends with the invariants intact and, either the frontier empty, or the goal's entry on top; the body appends each iteration's starting table to a ghost sequence, and `Expand`'s contract makes that sequence non-raising (the returned sequence alone says nothing a caller could not pick for itself) |
| AStar.Expand | src/main.cpp:112-132 | the neighbour loop keeps the invariants, marks every neighbour done and does not increase the termination measure; it only appends to the cost history, and no cell loses its cost or gets a higher one |
| AStar.WithCurrent | src/main.cpp:116 | `costs[current]` leaves the table as it was and adds `current` with cost 0 when it had none |
| AStar.Improves | src/main.cpp:121 | the test of the relaxation: `nb` has no cost yet, or `costs[current] + 1` is below it; used by the next rows |
| AStar.RelaxedFrom | src/main.cpp:121-131 | the relaxation of `nb` once `current` has a cost: no cost goes up, and afterwards `nb` has a cost at most one more than `current`'s |
| AStar.RelaxedTo | src/main.cpp:115-131 | a whole pass of the neighbour loop: no cost goes up, and afterwards `current` and `nb` have costs, `nb`'s at most one more than `current`'s |
| AStar.RelaxNeighbour | src/main.cpp:115-131 | one pass of the neighbour loop is the default-insert of `current` followed by the relaxation of `nb` |
| AStar.RelaxPreserves | src/main.cpp:115-131 | one pass of the neighbour loop keeps the invariants, leaves `current` with a cost, marks `nb` done and does not increase the measure |
| AStar.RelaxFromBase | src/main.cpp:120-131 | the relaxation step once `current` has a cost does the same |
| AStar.KeptCase | src/main.cpp:121 | a neighbour whose cost is not improved changes nothing and completes its step |
| AStar.ImprovedCase | src/main.cpp:121-131 | an improving relaxation keeps the invariants, marks `nb` done and does not increase the measure |
| AStar.PassLog | src/main.cpp:115-131 | one pass of the neighbour loop appends exactly its writes to the cost history: (current, 0) when `current` had no cost, then (nb, costs[current] + 1) when that improves; the history stays only-improving and replays to the new table |
| AStar.InsertLog | src/main.cpp:116 | `costs[current]` appends (current, 0) when `current` has no cost and nothing otherwise |
| AStar.RelaxLog | src/main.cpp:121-124 | the relaxation appends (nb, costs[current] + 1) exactly when it improves, and nothing otherwise |
| AStar.ImprovedLog | src/main.cpp:124 | the write of an improving relaxation is exactly (nb, costs[current] + 1), and it keeps the history only-improving with the new table as its replay |
| AStar.ImprovedCoverage | src/main.cpp:121-127 | an improving relaxation keeps every route covered and does not increase the measure |
| AStar.InsertCurrent | src/main.cpp:116 | the default-insert of `costs[current]` keeps the invariants, the coverage of routes and the measure |
| AStar.SearchOutcome | src/main.cpp:108-137 | at loop exit: with the frontier empty there is no route; with the goal on top its cost is optimal, at least 1 and at least `hx(start, goal)`, and the predecessor chain is a shortest route |

Proof helpers without a row of their own: `Rectangles.RowsAdd`,
`Rectangles.ColumnGrows`, `Rectangles.BlockGrows`, `Rectangles.SpanWidth`,
`Rectangles.ColumnFront`, `Measure.NoWorseTrans`, `CostLog.NoCostRaisedTrans`,
`AStar.PrefixGrows` and `AStar.Regroup`.

## Left out

- `main` is left out: console input and output, `exit` on invalid sizes, `system("PAUSE")`.
- `generateWalls` is left out: it depends on `std::random_device` and `mt19937`. Its output goes through `AddRectangle` and `SetWalls`, which are modelled.
- The two `Grid::print` overloads are left out: they only format output with `setw`.
- The hash `Location::operator()` is left out: Dafny's `set` and `map` on the value type take its place.
- `Location::operator=` and the `Location` constructors are not modelled separately: the datatype's value semantics subsume them.
- The internals of `std::priority_queue` and its tie order are not modelled: the frontier is a multiset and a pop may take any entry of least priority.
- Hx: the sum of the two distances is a natural number, not reduced modulo 2^32. It matches the source while the two distances add up to less than 2^32.
- ASearch: the cost counter and the priority `cost + hx` are natural numbers. Their 32-bit wrap-around on grids whose routes are near 2^32 cells long is not modelled.
- ASearch: `previous_location` is passed in and returned as a map value, not aliased to the caller's object. `costs` and the cost history are ghost outputs, so the proofs can speak of them.
- GetTrack: requires an unbroken chain from the goal to the start, as after a successful search. For a missing key, `came_from[current]` default-inserts a default `Location` and may loop forever; that is not modelled.

## Findings

| source | as written | input that shows it | evidently intended | confidence | as-written member | corrected member |
|---|---|---|---|---|---|---|
| src/main.cpp:25-26 | the `unsigned int` counters of `add_rectangle` are compared with `x <= x_end` and `y <= y_end`, and `++y` wraps from 2^32 - 1 to 0; the as-written member models the inner `y` loop, and the outer `x` loop has the same guard and counter but is not modelled on its own | `y_end` equal to 2^32 - 1 (`UINT_MAX`): the guard never fails, k iterations append k cells for every k, and after (x, 2^32 - 1) comes (x, 0) | the loops stop after the larger end, appending each cell of the inclusive rectangle once | medium, not executed | Rectangles.CounterNeverPassesMax | Rectangles.AddRectangle |
