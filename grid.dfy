/**
 * The grid on which the search runs: a width, a height and a set of wall cells.
 * Coordinates are C++ `unsigned int`, so they are modelled as 32-bit naturals and
 * the increments and decrements that compute neighbour candidates wrap modulo 2^32.
 */
module Grids {

  /** An `unsigned int` value. */
  type U32 = x: int | 0 <= x < 0x1_0000_0000

  /** Reduces an integer modulo 2^32, as unsigned C++ arithmetic does. */
  function Wrap(n: int): U32 {
    n % 0x1_0000_0000
  }

  lemma WrapSucc(x: U32)
    ensures Wrap(x + 1) == if x == 0xFFFF_FFFF then 0 else x + 1
  {
  }

  lemma WrapPred(x: U32)
    ensures Wrap(x - 1) == if x == 0 then 0xFFFF_FFFF else x - 1
  {
  }

  /** A cell of the grid: a plain (x, y) value. */
  datatype Location = Location(x: U32, y: U32)

  /** `Location::operator==`: compares both coordinates. */
  function Equal(a: Location, b: Location): (r: bool)
    ensures r <==> a == b
  {
    a.x == b.x && a.y == b.y
  }

  /** `Location::operator!=`: true when either coordinate differs. */
  function NotEqual(a: Location, b: Location): (r: bool)
    ensures r <==> !Equal(a, b)
  {
    a.x != b.x || a.y != b.y
  }

  function Abs(n: int): nat {
    if n < 0 then -n else n
  }

  /** Orthogonal adjacency on the integer plane, with no wrap-around. */
  predicate Adjacent(a: Location, b: Location) {
    Abs(a.x - b.x) + Abs(a.y - b.y) == 1
  }

  predicate Distinct(s: seq<Location>) {
    forall i, j :: 0 <= i < j < |s| ==> s[i] != s[j]
  }

  /**
   * The four cells `neighbours` considers, in its fixed order: east, south,
   * west, north. The decrements wrap to 2^32 - 1 at 0.
   */
  function Candidates(loc: Location): seq<Location> {
    [ Location(Wrap(loc.x + 1), loc.y),
      Location(loc.x, Wrap(loc.y + 1)),
      Location(Wrap(loc.x - 1), loc.y),
      Location(loc.x, Wrap(loc.y - 1)) ]
  }

  lemma CandidatesDistinct(loc: Location)
    ensures Distinct(Candidates(loc)) && loc !in Candidates(loc)
  {
    WrapSucc(loc.x);
    WrapSucc(loc.y);
    WrapPred(loc.x);
    WrapPred(loc.y);
  }

  class Grid {
    var width: U32
    var height: U32
    var walls: set<Location>

    /** `Grid()`: an empty 0 x 0 grid. */
    constructor Default()
      ensures width == 0 && height == 0 && walls == {}
      ensures forall loc :: !Within(loc)
    {
      width, height, walls := 0, 0, {};
    }

    /** `Grid(w, h)`: a w x h grid without walls. */
    constructor (w: U32, h: U32)
      ensures width == w && height == h && walls == {}
    {
      width, height, walls := w, h, {};
    }

    /** `within`: the bounds check. */
    predicate Within(loc: Location)
      reads this
    {
      loc.x < width && loc.y < height
    }

    /** `operational`: not a wall; says nothing about the bounds. */
    predicate Operational(loc: Location)
      reads this
    {
      loc !in walls
    }

    /** The cells of `cs` that are within the grid and not walls, in their order. */
    function Passable(cs: seq<Location>): seq<Location>
      reads this
    {
      if cs == [] then []
      else
        var last := cs[|cs| - 1];
        Passable(cs[..|cs| - 1]) + (if Within(last) && Operational(last) then [last] else [])
    }

    /** One move of the search: to an orthogonally adjacent cell within the grid that is not a wall. */
    predicate Step(a: Location, b: Location)
      reads this
    {
      Adjacent(a, b) && Within(b) && Operational(b)
    }

    /** `Passable` keeps exactly the cells within the grid and not walls, and no cell twice. */
    lemma {:induction false} PassableFacts(cs: seq<Location>)
      ensures |Passable(cs)| <= |cs|
      ensures forall c :: c in Passable(cs) <==> c in cs && Within(c) && Operational(c)
      ensures Distinct(cs) ==> Distinct(Passable(cs))
      decreases |cs|
    {
      if cs != [] {
        var init := cs[..|cs| - 1];
        PassableFacts(init);
        assert cs == init + [cs[|cs| - 1]];
      }
    }

    /** What `neighbours(loc)` returns. */
    function NeighbourList(loc: Location): seq<Location>
      reads this
    {
      Passable(Candidates(loc))
    }

    /**
     * At most four neighbours, none twice and not `loc` itself: the candidates
     * within the grid and not walls, which for a cell within the grid are its
     * orthogonally adjacent cells within it that are not walls.
     */
    lemma NeighbourListFacts(loc: Location)
      ensures |NeighbourList(loc)| <= 4 && Distinct(NeighbourList(loc)) && loc !in NeighbourList(loc)
      ensures forall n :: n in NeighbourList(loc) <==> n in Candidates(loc) && Within(n) && Operational(n)
      ensures Within(loc) ==> forall n :: n in NeighbourList(loc) <==> Step(loc, n)
    {
      CandidatesDistinct(loc);
      WithinCandidatesAreAdjacent(loc);
      PassableFacts(Candidates(loc));
    }

    /** For a cell within the grid, the candidates within it are exactly its adjacent cells within it. */
    lemma WithinCandidatesAreAdjacent(loc: Location)
      ensures Within(loc) ==>
                forall n :: n in Candidates(loc) && Within(n) <==> Adjacent(loc, n) && Within(n)
    {
      if !Within(loc) { return; }
      WrapSucc(loc.x);
      WrapSucc(loc.y);
      WrapPred(loc.x);
      WrapPred(loc.y);
      forall n | Adjacent(loc, n) && Within(n)
        ensures n in Candidates(loc)
      {
        if n.x == loc.x + 1 {
          assert n == Candidates(loc)[0];
        } else if n.y == loc.y + 1 {
          assert n == Candidates(loc)[1];
        } else if n.x + 1 == loc.x {
          assert n == Candidates(loc)[2];
        } else {
          assert n == Candidates(loc)[3];
        }
      }
    }

    /** `neighbours`: keeps each candidate that is within and operational, in order. */
    method Neighbours(loc: Location) returns (nbs: seq<Location>)
      ensures nbs == NeighbourList(loc)
    {
      var potential := Candidates(loc);
      nbs := [];
      for i := 0 to 4
        invariant nbs == Passable(potential[..i])
      {
        assert potential[..i + 1][..i] == potential[..i];
        if Within(potential[i]) && Operational(potential[i]) {
          nbs := nbs + [potential[i]];
        }
      }
      assert potential[..4] == potential;
    }

    /** `unsetWalls`: clears the wall set, so every cell is operational. */
    method UnsetWalls()
      modifies this`walls
      ensures walls == {}
      ensures forall loc :: Operational(loc)
      ensures width == old(width) && height == old(height)
    {
      walls := {};
    }

    /** `setWalls`: inserts every given cell into the wall set. */
    method SetWalls(newWalls: seq<Location>)
      modifies this`walls
      ensures walls == old(walls) + (set w | w in newWalls)
      ensures width == old(width) && height == old(height)
    {
      for i := 0 to |newWalls|
        invariant walls == old(walls) + (set j | 0 <= j < i :: newWalls[j])
      {
        walls := walls + {newWalls[i]};
      }
      assert (set j | 0 <= j < |newWalls| :: newWalls[j]) == (set w | w in newWalls);
    }
  }

  /** Setting the same walls twice leaves the same wall set as setting them once. */
  method SetWallsTwice(g: Grid, ws: seq<Location>)
    modifies g
    ensures g.walls == old(g.walls) + (set w | w in ws)
    ensures g.width == old(g.width) && g.height == old(g.height)
  {
    g.SetWalls(ws);
    g.SetWalls(ws);
  }

  /** Clearing and then setting walls gives what a fresh grid of the same size gets from the same walls. */
  method ResetThenSet(g: Grid, ws: seq<Location>) returns (f: Grid)
    modifies g
    ensures fresh(f)
    ensures g.walls == (set w | w in ws) && f.walls == (set w | w in ws)
    ensures g.width == old(g.width) && g.height == old(g.height)
    ensures f.width == g.width && f.height == g.height
  {
    g.UnsetWalls();
    g.SetWalls(ws);
    f := new Grid(g.width, g.height);
    f.SetWalls(ws);
  }
}
