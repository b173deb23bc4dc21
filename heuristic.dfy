/** The Manhattan-distance heuristic of the search (`diff` and `hx`). */
module Heuristic {
  import opened Grids

  /** Unsigned subtraction, which wraps below zero. */
  function Sub(a: U32, b: U32): U32 {
    Wrap(a - b)
  }

  /** `diff`: subtracts the smaller value from the larger, so it never wraps. */
  function Diff(a: U32, b: U32): (r: U32)
    ensures r == Abs(a - b)
  {
    if a > b then Sub(a, b) else Sub(b, a)
  }

  /** `hx`: the sum of the two coordinate distances, the Manhattan distance. */
  function Hx(a: Location, b: Location): (r: nat)
    ensures r == Abs(a.x - b.x) + Abs(a.y - b.y)
  {
    Diff(a.x, b.x) + Diff(a.y, b.y)
  }

  lemma HxSymmetric(a: Location, b: Location)
    ensures Hx(a, b) == Hx(b, a)
  {
  }

  lemma HxZero(a: Location, b: Location)
    ensures Hx(a, b) == 0 <==> a == b
  {
  }

  lemma HxTriangle(a: Location, b: Location, c: Location)
    ensures Hx(a, c) <= Hx(a, b) + Hx(b, c)
  {
  }

  /** One orthogonal step changes the estimate by at most one (consistency). */
  lemma HxStep(c: Location, nb: Location, goal: Location)
    requires Adjacent(c, nb)
    ensures Hx(c, goal) <= 1 + Hx(nb, goal)
    ensures Hx(nb, goal) <= 1 + Hx(c, goal)
    ensures Hx(c, nb) == 1
  {
  }
}
