/** `get_track`: collects the cells of the predecessor chain from the goal back to the start. */
module Track {
  import opened Grids

  /** Following `prev` from `c` reaches `start` in at most `n` links, every one of them present. */
  ghost predicate ChainReaches(prev: map<Location, Location>, c: Location, start: Location, n: nat)
    decreases n
  {
    c == start || (n > 0 && c in prev && ChainReaches(prev, prev[c], start, n - 1))
  }

  /** The cells met while following `prev` from `c` up to and including the first `start`. */
  ghost function ChainCells(prev: map<Location, Location>, c: Location, start: Location, n: nat): set<Location>
    requires ChainReaches(prev, c, start, n)
    decreases n
  {
    if c == start then {c} else {c} + ChainCells(prev, prev[c], start, n - 1)
  }

  lemma {:induction false} ChainReachesMore(prev: map<Location, Location>, c: Location, start: Location, n: nat, m: nat)
    requires ChainReaches(prev, c, start, n) && n <= m
    ensures ChainReaches(prev, c, start, m)
    ensures ChainCells(prev, c, start, m) == ChainCells(prev, c, start, n)
    decreases n
  {
    if c != start {
      ChainReachesMore(prev, prev[c], start, n - 1, m - 1);
    }
  }

  /** The chain's cells hold both of its ends. */
  lemma {:induction false} ChainCellsEnds(prev: map<Location, Location>, c: Location, start: Location, n: nat)
    requires ChainReaches(prev, c, start, n)
    ensures c in ChainCells(prev, c, start, n) && start in ChainCells(prev, c, start, n)
    decreases n
  {
    if c != start {
      ChainCellsEnds(prev, prev[c], start, n - 1);
    }
  }

  /**
   * Starts from {start, goal} and adds each predecessor until `start` is met.
   * The chain must be unbroken, as after a successful search.
   */
  method GetTrack(start: Location, goal: Location, cameFrom: map<Location, Location>, ghost n: nat)
    returns (track: set<Location>)
    requires ChainReaches(cameFrom, goal, start, n)
    ensures track == ChainCells(cameFrom, goal, start, n)
    ensures start in track && goal in track
    ensures start == goal ==> track == {start}
  {
    ChainCellsEnds(cameFrom, goal, start, n);
    track := {start, goal};
    var current := goal;
    ghost var k := n;
    while current != start
      invariant ChainReaches(cameFrom, current, start, k)
      invariant current in track
      invariant track + ChainCells(cameFrom, current, start, k) == ChainCells(cameFrom, goal, start, n)
      decreases k
    {
      current := cameFrom[current];
      track := track + {current};
      k := k - 1;
    }
  }
}
