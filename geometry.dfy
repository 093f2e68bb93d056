/**
 * The grid the capture game is played on: cells, the fixed wall layout, Manhattan
 * distance, the 4-connected legal moves, and the flat row-major numbering that a
 * numpy array of shape (width, height) uses for its cells.
 */
module Geometry {

  /** A grid coordinate (x, y): x is the column, y the row. */
  type Cell = (int, int)

  function Abs(n: int): nat
  {
    if n < 0 then -n else n
  }

  /** Manhattan distance |dx| + |dy|, as the game's distance calculator computes it. */
  function Manhattan(a: Cell, b: Cell): nat
  {
    Abs(a.0 - b.0) + Abs(a.1 - b.1)
  }

  lemma ManhattanSymmetric(a: Cell, b: Cell)
    ensures Manhattan(a, b) == Manhattan(b, a)
  {
  }

  lemma ManhattanTriangle(a: Cell, b: Cell, c: Cell)
    ensures Manhattan(a, c) <= Manhattan(a, b) + Manhattan(b, c)
  {
  }

  /** The board: its dimensions and the cells that are walls, fixed for a whole match. */
  datatype Board = Board(width: nat, height: nat, walls: set<Cell>)
  {
    predicate InBounds(c: Cell)
    {
      0 <= c.0 < width && 0 <= c.1 < height
    }

    /** A cell an agent may stand on: inside the board and not a wall. */
    predicate Open(c: Cell)
    {
      InBounds(c) && c !in walls
    }

    /** A single legal move from `a` to `b`: one step up, down, left or right onto an open cell. */
    predicate Step(a: Cell, b: Cell)
    {
      Manhattan(a, b) == 1 && Open(b)
    }

    /** Every cell of the board. */
    function Cells(): (r: set<Cell>)
      ensures forall c :: c in r <==> InBounds(c)
    {
      set x, y | 0 <= x < width && 0 <= y < height :: (x, y)
    }

    /** Number of cells, width * height. */
    function Area(): nat
    {
      Product(width, height)
    }

    /** Flat position of an in-bounds cell: x * height + y (row-major over (x, y)). */
    function Index(c: Cell): (i: int)
      requires InBounds(c)
      ensures 0 <= i < Area()
    {
      ProductStep(c.0, width, height);
      Product(c.0, height) + c.1
    }

    /** The cell at a flat position, as numpy's unravel_index gives it: (i / height, i % height). */
    function CellAt(i: int): (c: Cell)
      requires 0 <= i < Area()
      ensures InBounds(c) && Index(c) == i
      decreases i
    {
      ProductPositive(width, height);
      if i < height then
        (0, i)
      else
        var d := CellAt(i - height);
        assert d.0 + 1 < width;
        (d.0 + 1, d.1)
    }

    lemma CellAtIndex(c: Cell)
      requires InBounds(c)
      ensures CellAt(Index(c)) == c
    {
      var d := CellAt(Index(c));
      IndexInjective(c.0, c.1, d.0, d.1, height);
    }

    /** Successors of (x, y) in the order the belief filter lists them: (x+1,y), (x-1,y), (x,y+1), (x,y-1), kept when open. */
    function Neighbors(c: Cell): (r: seq<Cell>)
      ensures |r| <= 4
      ensures forall p :: p in r <==> Step(c, p)
      ensures forall p :: p in r ==> InBounds(p)
    {
      OpenAmong(Candidates(c))
    }

    function OpenAmong(s: seq<Cell>): (r: seq<Cell>)
      ensures |r| <= |s|
      ensures forall p :: p in r <==> p in s && Open(p)
    {
      if s == [] then []
      else (if Open(s[0]) then [s[0]] else []) + OpenAmong(s[1..])
    }
  }

  /** The four cells one step away from `c`. */
  function Candidates(c: Cell): (r: seq<Cell>)
    ensures forall p :: p in r <==> Manhattan(c, p) == 1
  {
    [(c.0 + 1, c.1), (c.0 - 1, c.1), (c.0, c.1 + 1), (c.0, c.1 - 1)]
  }

  /** A walk over the board: every consecutive pair is a legal move. */
  predicate IsWalk(board: Board, w: seq<Cell>)
  {
    forall i, j :: 0 <= i && j == i + 1 < |w| ==> board.Step(w[i], w[j])
  }

  /** A walk of k moves cannot end farther than k from where it starts. */
  lemma {:induction false} WalkLength(board: Board, w: seq<Cell>)
    requires |w| > 0 && IsWalk(board, w)
    ensures Manhattan(w[0], w[|w| - 1]) <= |w| - 1
  {
    if |w| > 1 {
      var v := w[..|w| - 1];
      assert IsWalk(board, v) by {
        forall i, j | 0 <= i && j == i + 1 < |v| ensures board.Step(v[i], v[j]) {
          assert v[i] == w[i] && v[j] == w[j];
        }
      }
      WalkLength(board, v);
      var j := |w| - 1;
      assert board.Step(w[j - 1], w[j]);
      ManhattanTriangle(w[0], w[|w| - 2], w[|w| - 1]);
    }
  }

  /**
   * a * b, spelled out by recursion: flat indices then stay linear arithmetic for
   * the solver, and AreaIsProduct ties it back to multiplication.
   */
  function Product(a: nat, b: nat): nat
  {
    if a == 0 then 0 else Product(a - 1, b) + b
  }

  lemma {:induction false} ProductIsMultiplication(a: nat, b: nat)
    ensures Product(a, b) == a * b
  {
    if a > 0 {
      ProductIsMultiplication(a - 1, b);
    }
  }

  lemma AreaIsProduct(board: Board)
    ensures board.Area() == board.width * board.height
  {
    ProductIsMultiplication(board.width, board.height);
  }

  lemma {:induction false} ProductPositive(a: nat, b: nat)
    requires Product(a, b) > 0
    ensures a > 0 && b > 0
  {
    if b == 0 {
      ProductIsMultiplication(a, b);
    }
  }

  lemma {:induction false} ProductMonotone(a: nat, b: nat, k: nat)
    requires a <= b
    ensures Product(a, k) <= Product(b, k)
    decreases b
  {
    if a < b {
      ProductMonotone(a, b - 1, k);
    }
  }

  lemma ProductStep(x: nat, w: nat, h: nat)
    requires x < w
    ensures Product(x, h) + h <= Product(w, h)
  {
    ProductMonotone(x + 1, w, h);
  }

  lemma IndexInjective(x: nat, y: nat, q: nat, r: nat, h: nat)
    requires y < h && r < h
    requires Product(x, h) + y == Product(q, h) + r
    ensures x == q && y == r
  {
    if x < q {
      ProductStep(x, q, h);
    } else if q < x {
      ProductStep(q, x, h);
    }
  }
}
