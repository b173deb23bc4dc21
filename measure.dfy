/**
 * Why `a_search` stops: each round either gives a new cell of the grid a
 * cost, or lowers the sum of the costs by more than the queue grows.
 */
module Measure {
  import opened Grids
  import opened Frontier

  /** The cells within a `w` x `h` grid. */
  ghost function GridCells(w: U32, h: U32): set<Location> {
    set x: U32, y: U32 | x < w && y < h :: Location(x, y)
  }

  lemma WithinCells(grid: Grid, c: Location)
    requires grid.Within(c)
    ensures c in GridCells(grid.width, grid.height)
  {
    assert c == Location(c.x, c.y);
  }

  /** The table entry of `k`, or 0 when it has none. */
  ghost function Val(m: map<Location, nat>, k: Location): nat {
    if k in m then m[k] else 0
  }

  /** The sum of the entries of cells (x, y) with x < n. */
  ghost function RowSum(m: map<Location, nat>, y: U32, n: nat): nat
    requires n <= 0x1_0000_0000
    decreases n
  {
    if n == 0 then 0 else RowSum(m, y, n - 1) + Val(m, Location(n - 1, y))
  }

  /** The sum of the entries of cells (x, y) with x < w and y < h. */
  ghost function TableSum(m: map<Location, nat>, w: nat, h: nat): nat
    requires w <= 0x1_0000_0000 && h <= 0x1_0000_0000
    decreases h
  {
    if h == 0 then 0 else TableSum(m, w, h - 1) + RowSum(m, h - 1, w)
  }

  lemma {:induction false} RowSumUpdate(m: map<Location, nat>, k: Location, v: nat, y: U32, n: nat)
    requires n <= 0x1_0000_0000
    ensures RowSum(m[k := v], y, n) == RowSum(m, y, n) + (if k.y == y && k.x < n then v - Val(m, k) else 0)
    decreases n
  {
    if n > 0 {
      RowSumUpdate(m, k, v, y, n - 1);
    }
  }

  lemma {:induction false} TableSumUpdate(m: map<Location, nat>, k: Location, v: nat, w: nat, h: nat)
    requires w <= 0x1_0000_0000 && h <= 0x1_0000_0000
    ensures TableSum(m[k := v], w, h) == TableSum(m, w, h) + (if k.x < w && k.y < h then v - Val(m, k) else 0)
    decreases h
  {
    if h > 0 {
      TableSumUpdate(m, k, v, w, h - 1);
      RowSumUpdate(m, k, v, h - 1, w);
    }
  }

  /** Lowering the cost of a cell within the grid lowers the sum. */
  lemma LowerCost(grid: Grid, m: map<Location, nat>, k: Location, v: nat)
    requires k in m && v < m[k] && grid.Within(k)
    ensures TableSum(m[k := v], grid.width, grid.height) < TableSum(m, grid.width, grid.height)
  {
    TableSumUpdate(m, k, v, grid.width, grid.height);
  }

  /** The cells with a table entry all lie within the grid. */
  lemma KeysInCells(grid: Grid, m: map<Location, nat>)
    requires forall c :: c in m ==> grid.Within(c)
    ensures m.Keys <= GridCells(grid.width, grid.height)
  {
    forall c | c in m
      ensures c in GridCells(grid.width, grid.height)
    {
      WithinCells(grid, c);
    }
  }

  /** The cells of the grid that have no table entry yet. */
  ghost function Unresolved(grid: Grid, m: map<Location, nat>): set<Location>
    reads grid
  {
    GridCells(grid.width, grid.height) - m.Keys
  }

  /** The second component of the search's termination measure. */
  ghost function Rank(grid: Grid, m: map<Location, nat>, q: multiset<Entry>): nat
    reads grid
  {
    2 * TableSum(m, grid.width, grid.height) + |q|
  }

  /** The measure of (m', q') is at most that of (m, q), lexicographically. */
  ghost predicate NoWorse(grid: Grid, m: map<Location, nat>, q: multiset<Entry>,
                          m': map<Location, nat>, q': multiset<Entry>)
    reads grid
  {
    && Unresolved(grid, m') <= Unresolved(grid, m)
    && (Unresolved(grid, m') == Unresolved(grid, m) ==> Rank(grid, m', q') <= Rank(grid, m, q))
  }

  /** Relaxing a cell within the grid and queueing it does not increase the measure. */
  lemma RelaxMeasure(grid: Grid, m: map<Location, nat>, q: multiset<Entry>, nb: Location, t: nat, goal: Location)
    requires forall c :: c in m ==> grid.Within(c)
    requires grid.Within(nb) && (nb !in m || t < m[nb])
    ensures NoWorse(grid, m, q, m[nb := t], q + multiset{Pushed(t, nb, goal)})
  {
    KeysInCells(grid, m);
    if nb in m {
      LowerCost(grid, m, nb, t);
      assert m[nb := t].Keys == m.Keys;
    } else {
      WithinCells(grid, nb);
      assert nb in Unresolved(grid, m) && nb !in Unresolved(grid, m[nb := t]);
    }
  }

  lemma NoWorseTrans(grid: Grid, m1: map<Location, nat>, q1: multiset<Entry>, m2: map<Location, nat>,
                     q2: multiset<Entry>, m3: map<Location, nat>, q3: multiset<Entry>)
    requires NoWorse(grid, m1, q1, m2, q2) && NoWorse(grid, m2, q2, m3, q3)
    ensures NoWorse(grid, m1, q1, m3, q3)
  {
  }

  /** Popping an entry and then doing no worse lowers the measure strictly. */
  lemma PopThenNoWorse(grid: Grid, m: map<Location, nat>, q: multiset<Entry>, top: Entry,
                       m': map<Location, nat>, q': multiset<Entry>)
    requires top in q && NoWorse(grid, m, q - multiset{top}, m', q')
    ensures Unresolved(grid, m') < Unresolved(grid, m)
            || (Unresolved(grid, m') == Unresolved(grid, m) && Rank(grid, m', q') < Rank(grid, m, q))
  {
    assert |q - multiset{top}| == |q| - 1;
  }
}
