/** `add_rectangle`: appends every cell of an inclusive axis-aligned rectangle. */
module Rectangles {
  import opened Grids

  function Min(a: int, b: int): int { if a <= b then a else b }
  function Max(a: int, b: int): int { if a <= b then b else a }

  /** The cells (x, y) for lo <= y < hi, by increasing y. */
  function Column(x: U32, lo: U32, hi: int): seq<Location>
    requires hi <= 0x1_0000_0000
    decreases hi - lo
  {
    if hi <= lo then [] else Column(x, lo, hi - 1) + [Location(x, hi - 1)]
  }

  /** The columns lox <= x < hix of rows loy <= y < hiy, column after column. */
  function Block(lox: U32, hix: int, loy: U32, hiy: int): seq<Location>
    requires hix <= 0x1_0000_0000 && hiy <= 0x1_0000_0000
    decreases hix - lox
  {
    if hix <= lox then [] else Block(lox, hix - 1, loy, hiy) + Column(hix - 1, loy, hiy)
  }

  lemma {:induction false} ColumnCells(x: U32, lo: U32, hi: int)
    requires lo <= hi <= 0x1_0000_0000
    ensures |Column(x, lo, hi)| == hi - lo
    ensures forall c :: c in Column(x, lo, hi) <==> c.x == x && lo <= c.y < hi
    decreases hi - lo
  {
    if hi > lo {
      ColumnCells(x, lo, hi - 1);
    }
  }

  lemma {:induction false} BlockLength(lox: U32, hix: int, loy: U32, hiy: int)
    requires lox <= hix <= 0x1_0000_0000 && loy <= hiy <= 0x1_0000_0000
    ensures |Block(lox, hix, loy, hiy)| == (hix - lox) * (hiy - loy)
    decreases hix - lox
  {
    if hix > lox {
      BlockLength(lox, hix - 1, loy, hiy);
      ColumnCells(hix - 1, loy, hiy);
      RowsAdd(hix - lox, hiy - loy);
    }
  }

  /** One more column of `h` cells: (n - 1) * h + h == n * h. */
  lemma RowsAdd(n: int, h: int)
    ensures (n - 1) * h + h == n * h
  {
  }

  lemma {:induction false} BlockCells(lox: U32, hix: int, loy: U32, hiy: int)
    requires lox <= hix <= 0x1_0000_0000 && loy <= hiy <= 0x1_0000_0000
    ensures forall c :: c in Block(lox, hix, loy, hiy) <==> lox <= c.x < hix && loy <= c.y < hiy
    decreases hix - lox
  {
    if hix > lox {
      BlockCells(lox, hix - 1, loy, hiy);
      ColumnCells(hix - 1, loy, hiy);
    }
  }

  lemma ColumnGrows(pre: seq<Location>, x: U32, lo: U32, y: U32)
    requires lo <= y
    ensures pre + Column(x, lo, y) + [Location(x, y)] == pre + Column(x, lo, y + 1)
  {
  }

  lemma BlockGrows(pre: seq<Location>, lox: U32, x: U32, loy: U32, hiy: int)
    requires lox <= x && hiy <= 0x1_0000_0000
    ensures pre + Block(lox, x, loy, hiy) + Column(x, loy, hiy) == pre + Block(lox, x + 1, loy, hiy)
  {
  }

  /** The number of values from the smaller to the larger of two ends. */
  lemma SpanWidth(a: int, b: int)
    ensures Abs(b - a) + 1 == Max(a, b) + 1 - Min(a, b)
  {
  }

  /**
   * The cells `add_rectangle` appends: with the ends of each axis put in
   * order, every x from the smaller end to the larger, and for each x every
   * y likewise.
   */
  function Rectangle(xStart: U32, xEnd: U32, yStart: U32, yEnd: U32): seq<Location>
  {
    Block(Min(xStart, xEnd), Max(xStart, xEnd) + 1, Min(yStart, yEnd), Max(yStart, yEnd) + 1)
  }

  /** The rectangle has (|xEnd - xStart| + 1) * (|yEnd - yStart| + 1) cells. */
  lemma RectangleLength(xStart: U32, xEnd: U32, yStart: U32, yEnd: U32)
    ensures |Rectangle(xStart, xEnd, yStart, yEnd)| == (Abs(xEnd - xStart) + 1) * (Abs(yEnd - yStart) + 1)
  {
    BlockLength(Min(xStart, xEnd), Max(xStart, xEnd) + 1, Min(yStart, yEnd), Max(yStart, yEnd) + 1);
    SpanWidth(xStart, xEnd);
    SpanWidth(yStart, yEnd);
  }

  /** The rectangle holds exactly the cells between the ends, both ends included. */
  lemma RectangleCells(xStart: U32, xEnd: U32, yStart: U32, yEnd: U32)
    ensures forall c :: c in Rectangle(xStart, xEnd, yStart, yEnd) <==>
              Min(xStart, xEnd) <= c.x <= Max(xStart, xEnd) && Min(yStart, yEnd) <= c.y <= Max(yStart, yEnd)
  {
    BlockCells(Min(xStart, xEnd), Max(xStart, xEnd) + 1, Min(yStart, yEnd), Max(yStart, yEnd) + 1);
  }

  /** Swapping the ends of an axis does not change the rectangle. */
  lemma RectangleSymmetric(xStart: U32, xEnd: U32, yStart: U32, yEnd: U32)
    ensures Rectangle(xStart, xEnd, yStart, yEnd) == Rectangle(xEnd, xStart, yStart, yEnd)
    ensures Rectangle(xStart, xEnd, yStart, yEnd) == Rectangle(xStart, xEnd, yEnd, yStart)
  {
  }

  /**
   * Swaps the ends into order and appends the rectangle's cells column by column.
   * The counters here are unbounded, so the loops also stop when an end is
   * 2^32 - 1 (see `InnerAsWritten` for the `unsigned int` counters).
   */
  method AddRectangle(rect: seq<Location>, xStart: U32, xEnd: U32, yStart: U32, yEnd: U32)
    returns (r: seq<Location>)
    ensures r == rect + Rectangle(xStart, xEnd, yStart, yEnd)
  {
    var x0, x1, y0, y1 := xStart, xEnd, yStart, yEnd;
    if x0 > x1 {
      x0, x1 := x1, x0;
    }
    if y0 > y1 {
      y0, y1 := y1, y0;
    }
    r := rect;
    var x: int := x0;
    while x <= x1
      invariant x0 <= x <= x1 + 1
      invariant r == rect + Block(x0, x, y0, y1 + 1)
    {
      ghost var before := r;
      var y: int := y0;
      while y <= y1
        invariant y0 <= y <= y1 + 1
        invariant r == before + Column(x, y0, y)
      {
        ColumnGrows(before, x, y0, y);
        r := r + [Location(x, y)];
        y := y + 1;
      }
      BlockGrows(rect, x0, x, y0, y1 + 1);
      x := x + 1;
    }
  }

  /** The `unsigned int` counter of the source loops: `++y` wraps from 2^32 - 1 to 0. */
  function Increment(y: U32): U32 {
    Wrap(y + 1)
  }

  /**
   * The inner loop of `add_rectangle` as written, on its `unsigned int`
   * counter: the cells that `y <= yEnd`, `push_back((x, y))`, `++y` appends
   * from `y` in its first `k` iterations (fewer once the guard fails).
   */
  function InnerAsWritten(x: U32, y: U32, yEnd: U32, k: nat): seq<Location>
    decreases k
  {
    if k == 0 || y > yEnd then [] else [Location(x, y)] + InnerAsWritten(x, Increment(y), yEnd, k - 1)
  }

  /**
   * With an end of 2^32 - 1 the guard holds at every value the counter can
   * take: any number `k` of iterations appends `k` cells, so the loop never ends.
   */
  lemma {:induction false} CounterNeverPassesMax(x: U32, y: U32, k: nat)
    ensures |InnerAsWritten(x, y, 0xFFFF_FFFF, k)| == k
    decreases k
  {
    if k > 0 {
      CounterNeverPassesMax(x, Increment(y), k - 1);
    }
  }

  /**
   * From 2^32 - 1 the counter wraps to 0, so the loop appends (x, 0): a cell
   * outside the rectangle when it starts above row 0, and a repeat of the
   * column's first cell when it starts at row 0.
   */
  lemma WrapsToZero(x: U32)
    ensures InnerAsWritten(x, 0xFFFF_FFFF, 0xFFFF_FFFF, 2) == [Location(x, 0xFFFF_FFFF), Location(x, 0)]
  {
    WrapSucc(0xFFFF_FFFF);
    assert InnerAsWritten(x, 0, 0xFFFF_FFFF, 1) == [Location(x, 0)];
  }

  /**
   * Below 2^32 - 1 the loop as written stops after `yEnd + 1 - y` iterations
   * and appends the column the unbounded counter of `AddRectangle` appends.
   */
  lemma {:induction false} InnerAgrees(x: U32, y: U32, yEnd: U32, k: nat)
    requires yEnd < 0xFFFF_FFFF && y <= yEnd + 1 && yEnd + 1 - y <= k
    ensures InnerAsWritten(x, y, yEnd, k) == Column(x, y, yEnd + 1)
    decreases k
  {
    if y <= yEnd {
      WrapSucc(y);
      InnerAgrees(x, y + 1, yEnd, k - 1);
      ColumnFront(x, y, yEnd + 1);
    }
  }

  /** A column is its first cell followed by the rest. */
  lemma {:induction false} ColumnFront(x: U32, lo: U32, hi: int)
    requires lo < hi <= 0xFFFF_FFFF
    ensures Column(x, lo, hi) == [Location(x, lo)] + Column(x, lo + 1, hi)
    decreases hi - lo
  {
    if hi - 1 > lo {
      ColumnFront(x, lo, hi - 1);
    }
  }
}
