/**
 * The per-opponent belief filter: a grid of non-negative weights, one per cell, that
 * estimates where an unseen opponent stands. The grid is kept flat in row-major
 * order over (x, y), the layout of a numpy array of shape (width, height), so that
 * the arg-max and its unravelled cell are the ones numpy computes.
 */
module BeliefFilters {
  import opened Geometry

  /** Python's sum over the flattened grid. */
  function Sum(s: seq<real>): real
  {
    if s == [] then 0.0 else Sum(s[..|s| - 1]) + s[|s| - 1]
  }

  predicate NonNegative(s: seq<real>)
  {
    forall i :: 0 <= i < |s| ==> 0.0 <= s[i]
  }

  lemma {:induction false} SumNonNegative(s: seq<real>)
    requires NonNegative(s)
    ensures Sum(s) >= 0.0
  {
    if s != [] {
      SumNonNegative(s[..|s| - 1]);
    }
  }

  /** With non-negative weights no single weight exceeds the total. */
  lemma {:induction false} ElementBelowSum(s: seq<real>, i: int)
    requires NonNegative(s) && 0 <= i < |s|
    ensures s[i] <= Sum(s)
  {
    var p := s[..|s| - 1];
    if i == |s| - 1 {
      SumNonNegative(p);
    } else {
      ElementBelowSum(p, i);
    }
  }

  /** Overwriting one weight moves the total by the difference. */
  lemma {:induction false} SumUpdate(s: seq<real>, i: int, v: real)
    requires 0 <= i < |s|
    ensures Sum(s[i := v]) == Sum(s) - s[i] + v
  {
    var t := s[i := v];
    if i == |s| - 1 {
      assert t[..|t| - 1] == s[..|s| - 1];
    } else {
      assert t[..|t| - 1] == s[..|s| - 1][i := v];
      SumUpdate(s[..|s| - 1], i, v);
    }
  }

  function Scaled(s: seq<real>, t: real): (r: seq<real>)
    requires t != 0.0
    ensures |r| == |s| && forall i :: 0 <= i < |s| ==> r[i] == s[i] / t
  {
    seq(|s|, i requires 0 <= i < |s| => s[i] / t)
  }

  lemma {:induction false} SumScaled(s: seq<real>, t: real)
    requires t != 0.0
    ensures Sum(Scaled(s, t)) == Sum(s) / t
  {
    if s != [] {
      var p := s[..|s| - 1];
      var x := s[|s| - 1];
      assert Scaled(s, t)[..|s| - 1] == Scaled(p, t);
      SumScaled(p, t);
      calc {
        Sum(Scaled(s, t));
        Sum(Scaled(p, t)) + x / t;
        Sum(p) / t + x / t;
        { DivideAdds(Sum(p), x, t); }
        (Sum(p) + x) / t;
      }
    }
  }

  /** Proof step for `SumScaled`: division by t distributes over a sum. */
  lemma DivideAdds(a: real, b: real, t: real)
    requires t != 0.0
    ensures a / t + b / t == (a + b) / t
  {
  }

  /** `__normalize`: every weight divided by the grid's total. */
  function Normalized(s: seq<real>): (r: seq<real>)
    requires Sum(s) > 0.0
    ensures |r| == |s|
  {
    Scaled(s, Sum(s))
  }

  lemma NormalizedSumsToOne(s: seq<real>)
    requires Sum(s) > 0.0
    ensures Sum(Normalized(s)) == 1.0
  {
    var total := Sum(s);
    SumScaled(s, total);
    assert total / total == 1.0;
  }

  /** Normalising keeps the ratio between any two cells. */
  lemma NormalizedKeepsRatios(s: seq<real>, i: int, j: int)
    requires Sum(s) > 0.0 && 0 <= i < |s| && 0 <= j < |s|
    ensures Normalized(s)[i] * s[j] == Normalized(s)[j] * s[i]
  {
    var t := Sum(s);
    var r := Normalized(s);
    assert r[i] == s[i] / t && r[j] == s[j] / t;
    DivideSwap(s[i], s[j], t);
  }

  /** Proof step for `NormalizedKeepsRatios`: dividing both sides of a ratio by t keeps it. */
  lemma DivideSwap(a: real, b: real, t: real)
    requires t != 0.0
    ensures (a / t) * b == (b / t) * a
  {
    assert (a / t) * b == (a * b) / t;
    assert (b / t) * a == (b * a) / t;
  }

  /** Normalising keeps the order between any two cells, and keeps zero cells at zero. */
  lemma NormalizedKeepsOrder(s: seq<real>, i: int, j: int)
    requires Sum(s) > 0.0 && 0 <= i < |s| && 0 <= j < |s|
    ensures Normalized(s)[i] <= Normalized(s)[j] <==> s[i] <= s[j]
    ensures Normalized(s)[i] == 0.0 <==> s[i] == 0.0
  {
    var total := Sum(s);
    DivideMonotone(s[i], s[j], total);
    DivideMonotone(s[i], 0.0, total);
    DivideMonotone(0.0, s[i], total);
  }

  lemma NormalizedNonNegative(s: seq<real>)
    requires Sum(s) > 0.0 && NonNegative(s)
    ensures NonNegative(Normalized(s))
  {
    forall i | 0 <= i < |s|
      ensures 0.0 <= Normalized(s)[i]
    {
      DivideMonotone(0.0, s[i], Sum(s));
    }
  }

  /** A non-negative grid with some weight normalises to a distribution: non-negative and summing to 1. */
  lemma NormalizedIsDistribution(s: seq<real>)
    requires Sum(s) > 0.0 && NonNegative(s)
    ensures NonNegative(Normalized(s)) && Sum(Normalized(s)) == 1.0
  {
    NormalizedSumsToOne(s);
    NormalizedNonNegative(s);
  }

  /** Normalising leaves exactly the zero cells at zero. */
  lemma NormalizedZeros(s: seq<real>)
    requires Sum(s) > 0.0
    ensures forall i :: 0 <= i < |s| ==> (Normalized(s)[i] == 0.0 <==> s[i] == 0.0)
  {
    forall i | 0 <= i < |s|
      ensures Normalized(s)[i] == 0.0 <==> s[i] == 0.0
    {
      NormalizedKeepsOrder(s, i, i);
    }
  }

  /** Proof step for `NormalizedKeepsOrder`: division by a positive t keeps the order. */
  lemma DivideMonotone(a: real, b: real, t: real)
    requires t > 0.0
    ensures a / t <= b / t <==> a <= b
  {
    assert a == (a / t) * t && b == (b / t) * t;
    if a / t <= b / t {
      assert (a / t) * t <= (b / t) * t;
    }
  }

  /** numpy's argmax: the first position holding the greatest weight. */
  function ArgMax(s: seq<real>): (k: nat)
    requires |s| > 0
    ensures k < |s|
    ensures forall j :: 0 <= j < |s| ==> s[j] <= s[k]
    ensures forall j :: 0 <= j < k ==> s[j] < s[k]
    decreases |s|
  {
    if |s| == 1 then 0
    else
      var k := ArgMax(s[..|s| - 1]);
      if s[|s| - 1] > s[k] then |s| - 1 else k
  }

  /**
   * Pinning a cell with weight 1 in a normalised grid makes it maximal, and it is
   * the arg-max exactly when no earlier cell already carried the whole mass.
   */
  lemma PinnedArgMax(s: seq<real>, k: int)
    requires NonNegative(s) && Sum(s) == 1.0 && 0 <= k < |s|
    ensures Sum(s[k := 1.0]) >= 1.0
    ensures var r := Normalized(s[k := 1.0]); forall j :: 0 <= j < |s| ==> r[j] <= r[k]
    ensures ArgMax(Normalized(s[k := 1.0])) == k <==> forall j :: 0 <= j < k ==> s[j] < 1.0
  {
    var t := s[k := 1.0];
    SumUpdate(s, k, 1.0);
    ElementBelowSum(s, k);
    var r := Normalized(t);
    forall j | 0 <= j < |s|
      ensures r[j] <= r[k]
    {
      ElementBelowSum(s, j);
      NormalizedKeepsOrder(t, j, k);
    }
    forall j | 0 <= j < k
      ensures r[j] < r[k] <==> s[j] < 1.0
    {
      NormalizedKeepsOrder(t, k, j);
    }
  }

  /** Total old weight of a list of in-bounds cells. */
  function WeightOf(board: Board, s: seq<real>, cells: seq<Cell>): (w: real)
    requires |s| == board.Area()
    requires forall p :: p in cells ==> board.InBounds(p)
    ensures NonNegative(s) ==> w >= 0.0
  {
    if cells == [] then 0.0
    else WeightOf(board, s, cells[..|cells| - 1]) + s[board.Index(cells[|cells| - 1])]
  }

  /** Every cell holding weight has a legal successor to average over. */
  predicate Movable(board: Board, s: seq<real>)
    requires |s| == board.Area()
  {
    forall i :: 0 <= i < |s| && s[i] != 0.0 ==> |board.Neighbors(board.CellAt(i))| > 0
  }

  /**
   * One cell after `time_passes` and before renormalising: a zero cell stays 0, any
   * other cell takes the average of its legal successors' old weights.
   */
  function GatheredAt(board: Board, s: seq<real>, i: int): (w: real)
    requires |s| == board.Area() && 0 <= i < |s|
    requires Movable(board, s)
    ensures s[i] == 0.0 ==> w == 0.0
    ensures NonNegative(s) ==> w >= 0.0
  {
    if s[i] == 0.0 then 0.0
    else
      var successors := board.Neighbors(board.CellAt(i));
      WeightOf(board, s, successors) / (|successors| as real)
  }

  /** The whole grid after `time_passes` and before renormalising. */
  function Gathered(board: Board, s: seq<real>): (r: seq<real>)
    requires |s| == board.Area()
    requires Movable(board, s)
    ensures |r| == |s|
    ensures forall i :: 0 <= i < |s| ==> r[i] == GatheredAt(board, s, i)
  {
    seq(|s|, i requires 0 <= i < |s| => GatheredAt(board, s, i))
  }

  lemma GatheredNonNegative(board: Board, s: seq<real>)
    requires |s| == board.Area()
    requires Movable(board, s) && NonNegative(s)
    ensures NonNegative(Gathered(board, s))
  {
  }

  lemma {:induction false} WeightOfUniform(board: Board, s: seq<real>, cells: seq<Cell>, u: real)
    requires |s| == board.Area()
    requires forall p :: p in cells ==> board.InBounds(p)
    requires forall i :: 0 <= i < |s| ==> s[i] == u
    ensures WeightOf(board, s, cells) == (|cells| as real) * u
  {
    if cells != [] {
      WeightOfUniform(board, s, cells[..|cells| - 1], u);
    }
  }

  /** A uniform grid on which every cell can move is a fixed point of the gather step. */
  lemma GatherKeepsUniform(board: Board, s: seq<real>, u: real)
    requires |s| == board.Area()
    requires Movable(board, s)
    requires forall i :: 0 <= i < |s| ==> s[i] == u
    ensures Gathered(board, s) == s
  {
    var r := Gathered(board, s);
    forall i | 0 <= i < |s|
      ensures r[i] == s[i]
    {
      GatheredAtUniform(board, s, u, i);
    }
  }

  lemma GatheredAtUniform(board: Board, s: seq<real>, u: real, i: int)
    requires |s| == board.Area() && 0 <= i < |s|
    requires Movable(board, s)
    requires forall j :: 0 <= j < |s| ==> s[j] == u
    ensures GatheredAt(board, s, i) == s[i]
  {
    if s[i] != 0.0 {
      UniformAverage(board, s, board.Neighbors(board.CellAt(i)), u);
    }
  }

  /** Averaging the weights of any non-empty list of cells of a uniform grid gives the common weight. */
  lemma UniformAverage(board: Board, s: seq<real>, cells: seq<Cell>, u: real)
    requires |s| == board.Area() && |cells| > 0
    requires forall p :: p in cells ==> board.InBounds(p)
    requires forall j :: 0 <= j < |s| ==> s[j] == u
    ensures WeightOf(board, s, cells) / (|cells| as real) == u
  {
    WeightOfUniform(board, s, cells, u);
    DivideExact(WeightOf(board, s, cells), |cells| as real, u);
  }

  /** Proof step for `UniformAverage`: n copies of u divided by n is u. */
  lemma DivideExact(a: real, n: real, u: real)
    requires n > 0.0 && a == n * u
    ensures a / n == u
  {
  }

  /** The arg-max of a pinned grid, read as a cell: the pinned cell unless an earlier cell held all the mass. */
  lemma PinnedMostLikely(board: Board, s: seq<real>, c: Cell)
    requires |s| == board.Area() && board.InBounds(c)
    requires NonNegative(s) && Sum(s) == 1.0
    ensures Sum(s[board.Index(c) := 1.0]) > 0.0
    ensures board.CellAt(ArgMax(Normalized(s[board.Index(c) := 1.0]))) == c
      <==> forall d :: board.InBounds(d) && board.Index(d) < board.Index(c) ==> s[board.Index(d)] < 1.0
  {
    var k := board.Index(c);
    PinnedArgMax(s, k);
    board.CellAtIndex(c);
    var m := ArgMax(Normalized(s[k := 1.0]));
    if board.CellAt(m) == c {
      assert m == k;
      forall d | board.InBounds(d) && board.Index(d) < k
        ensures s[board.Index(d)] < 1.0
      {
      }
    }
    if forall d :: board.InBounds(d) && board.Index(d) < k ==> s[board.Index(d)] < 1.0 {
      forall j | 0 <= j < k
        ensures s[j] < 1.0
      {
        var d := board.CellAt(j);
        assert board.Index(d) == j;
      }
      assert m == k;
    }
  }

  /**
   * Setting one cell of a distribution to `value` and normalising: the result is a
   * distribution again, the cell is zero exactly when `value` is, no other zero cell
   * gains weight, and a value of 1 makes the cell maximal.
   */
  lemma EvidenceSetsWeight(board: Board, s: seq<real>, c: Cell, value: real)
    requires |s| == board.Area() && board.InBounds(c)
    requires NonNegative(s) && Sum(s) == 1.0
    requires 0.0 <= value && (value > 0.0 || s[board.Index(c)] < 1.0)
    ensures Sum(s[board.Index(c) := value]) > 0.0
    ensures var r := Normalized(s[board.Index(c) := value]);
      && NonNegative(r) && Sum(r) == 1.0
      && (r[board.Index(c)] == 0.0 <==> value == 0.0)
      && (forall d :: board.InBounds(d) && (d != c || value == 0.0) && s[board.Index(d)] == 0.0 ==> r[board.Index(d)] == 0.0)
    ensures var r := Normalized(s[board.Index(c) := value]);
      value == 1.0 ==> forall d :: board.InBounds(d) ==> r[board.Index(d)] <= r[board.Index(c)]
    ensures value == 1.0 ==>
      (board.CellAt(ArgMax(Normalized(s[board.Index(c) := value]))) == c <==>
         forall d :: board.InBounds(d) && board.Index(d) < board.Index(c) ==> s[board.Index(d)] < 1.0)
  {
    var k := board.Index(c);
    var t := s[k := value];
    SumUpdate(s, k, value);
    ElementBelowSum(s, k);
    NonNegativeUpdate(s, k, value);
    NormalizedIsDistribution(t);
    NormalizedZeros(t);
    forall d | board.InBounds(d) && d != c
      ensures t[board.Index(d)] == s[board.Index(d)]
    {
      board.CellAtIndex(d);
      board.CellAtIndex(c);
    }
    if value == 1.0 {
      PinnedArgMax(s, k);
      PinnedMostLikely(board, s, c);
    }
  }

  lemma NonNegativeUpdate(s: seq<real>, k: int, v: real)
    requires NonNegative(s) && 0 <= k < |s| && 0.0 <= v
    ensures NonNegative(s[k := v])
  {
  }

  /** The grid before the first normalisation: 1 on every cell, 0 on every wall. */
  function WallsMarked(board: Board): (r: seq<real>)
    ensures |r| == board.Area()
    ensures forall i :: 0 <= i < |r| ==> r[i] == if board.CellAt(i) in board.walls then 0.0 else 1.0
  {
    seq(board.Area(), i requires 0 <= i < board.Area() => if board.CellAt(i) in board.walls then 0.0 else 1.0)
  }

  /** The starting belief is a distribution, zero on the walls and the same positive weight on every open cell. */
  lemma InitialBelief(board: Board)
    requires exists c :: board.Open(c)
    ensures Sum(WallsMarked(board)) > 0.0
    ensures var r := Normalized(WallsMarked(board));
      && NonNegative(r) && Sum(r) == 1.0
      && (forall c :: c in board.walls && board.InBounds(c) ==> r[board.Index(c)] == 0.0)
      && (forall c, d :: board.Open(c) && board.Open(d) ==> r[board.Index(c)] == r[board.Index(d)] > 0.0)
  {
    var s := WallsMarked(board);
    var open :| board.Open(open);
    board.CellAtIndex(open);
    ElementBelowSum(s, board.Index(open));
    NormalizedIsDistribution(s);
    var r := Normalized(s);
    forall c | c in board.walls && board.InBounds(c)
      ensures r[board.Index(c)] == 0.0
    {
      board.CellAtIndex(c);
      NormalizedKeepsOrder(s, board.Index(c), board.Index(c));
    }
    forall c, d | board.Open(c) && board.Open(d)
      ensures r[board.Index(c)] == r[board.Index(d)] > 0.0
    {
      board.CellAtIndex(c);
      board.CellAtIndex(d);
      NormalizedKeepsOrder(s, board.Index(c), board.Index(d));
      NormalizedKeepsOrder(s, board.Index(d), board.Index(c));
    }
  }

  class BeliefFilter {
    const board: Board
    var belief: array<real>

    /** The weights are non-negative and sum to 1. */
    ghost predicate Valid()
      reads this, belief
    {
      && board.width > 0 && board.height > 0
      && belief.Length == board.Area()
      && NonNegative(belief[..])
      && Sum(belief[..]) == 1.0
    }

    ghost predicate WallsZero()
      reads this, belief
      requires belief.Length == board.Area()
    {
      forall c :: c in board.walls && board.InBounds(c) ==> belief[board.Index(c)] == 0.0
    }

    function Weight(c: Cell): real
      reads this, belief
      requires belief.Length == board.Area() && board.InBounds(c)
    {
      belief[board.Index(c)]
    }

    /** Every open cell carries the same positive weight. */
    ghost predicate Uniform()
      reads this, belief
    {
      && belief.Length == board.Area()
      && forall c, d :: board.Open(c) && board.Open(d) ==> Weight(c) == Weight(d) > 0.0
    }

    /** Every cell starts at weight 1 and every wall at 0, then the grid is normalised. */
    constructor (board: Board)
      requires board.width > 0 && board.height > 0
      requires forall c :: c in board.walls ==> board.InBounds(c)
      requires exists c :: board.Open(c)
      ensures this.board == board && fresh(belief)
      ensures Valid() && WallsZero() && Uniform()
    {
      this.board := board;
      var ones := new real[board.Area()](_ => 1.0);
      var rest := board.walls;
      while rest != {}
        invariant rest <= board.walls
        invariant forall i :: 0 <= i < ones.Length ==>
          ones[i] == if board.CellAt(i) in board.walls - rest then 0.0 else 1.0
        invariant ones.Length == board.Area()
        decreases rest
      {
        var wall :| wall in rest;
        board.CellAtIndex(wall);
        ones[board.Index(wall)] := 0.0;
        rest := rest - {wall};
      }
      assert ones[..] == WallsMarked(board);
      belief := ones;
      new;
      InitialBelief(board);
      Normalize();
    }

    /** `__normalize`: a new grid holding every weight divided by the total. */
    method Normalize()
      requires Sum(belief[..]) > 0.0
      modifies this
      ensures fresh(belief)
      ensures belief[..] == Normalized(old(belief[..]))
    {
      var grid := belief;
      var total := Sum(grid[..]);
      var scaled := new real[grid.Length];
      for i := 0 to grid.Length
        invariant forall j :: 0 <= j < i ==> scaled[j] == grid[j] / total
      {
        scaled[i] := grid[i] / total;
      }
      assert scaled[..] == Normalized(grid[..]);
      belief := scaled;
    }

    /**
     * `time_passes`: every non-zero cell takes the average of its legal successors'
     * old weights, zero cells are copied unchanged, then the grid is normalised.
     */
    method TimePasses()
      requires Valid()
      requires Movable(board, belief[..])
      requires Sum(Gathered(board, belief[..])) > 0.0
      modifies this
      ensures Valid() && fresh(belief)
      ensures belief[..] == Normalized(Gathered(board, old(belief[..])))
      ensures forall c :: board.InBounds(c) && old(Weight(c)) == 0.0 ==> Weight(c) == 0.0
      ensures old(WallsZero()) ==> WallsZero()
    {
      var grid := belief;
      ghost var old_ := grid[..];
      var newBelief := Gather(grid);
      belief := newBelief;
      Normalize();
      GatheredNonNegative(board, old_);
      NormalizedIsDistribution(Gathered(board, old_));
      NormalizedZeros(Gathered(board, old_));
    }

    /** The loops of `time_passes`: a copy of the grid in which every cell holding weight is replaced by its average. */
    method Gather(grid: array<real>) returns (newBelief: array<real>)
      requires grid.Length == board.Area()
      requires Movable(board, grid[..])
      ensures fresh(newBelief)
      ensures newBelief[..] == Gathered(board, grid[..])
    {
      newBelief := new real[grid.Length];
      for i := 0 to grid.Length
        invariant forall j :: 0 <= j < i ==> newBelief[j] == grid[j]
      {
        newBelief[i] := grid[i];
      }
      for i := 0 to grid.Length
        invariant forall j :: 0 <= j < i ==> newBelief[j] == GatheredAt(board, grid[..], j)
        invariant forall j :: i <= j < grid.Length ==> newBelief[j] == grid[j]
      {
        if grid[i] == 0.0 {
          continue;
        }
        newBelief[i] := Averaged(grid, i);
      }
    }

    /** The new weight of a cell holding weight: the average of its legal successors' old weights. */
    method Averaged(grid: array<real>, i: int) returns (w: real)
      requires grid.Length == board.Area() && 0 <= i < grid.Length
      requires Movable(board, grid[..]) && grid[i] != 0.0
      ensures w == GatheredAt(board, grid[..], i)
    {
      var successors := board.Neighbors(board.CellAt(i));
      var newProb := Mass(grid, successors);
      w := newProb / (|successors| as real);
    }

    /** The inner loop of `time_passes`: the old weights of the successors, added up. */
    method Mass(grid: array<real>, successors: seq<Cell>) returns (total: real)
      requires grid.Length == board.Area()
      requires forall p :: p in successors ==> board.InBounds(p)
      ensures total == WeightOf(board, grid[..], successors)
    {
      total := 0.0;
      for k := 0 to |successors|
        invariant total == WeightOf(board, grid[..], successors[..k])
      {
        assert successors[..k + 1][..k] == successors[..k];
        total := total + grid[board.Index(successors[k])];
      }
      assert successors[..|successors|] == successors;
    }

    /** `add_evidence`: overwrite one cell's weight, then normalise. */
    method AddEvidence(evidence: Cell, value: real)
      requires Valid() && board.InBounds(evidence)
      requires 0.0 <= value
      requires value > 0.0 || Weight(evidence) < 1.0
      modifies this, belief
      ensures Valid() && fresh(belief)
      ensures Sum(old(belief[..])[board.Index(evidence) := value]) > 0.0
        && belief[..] == Normalized(old(belief[..])[board.Index(evidence) := value])
      ensures Weight(evidence) == 0.0 <==> value == 0.0
      ensures forall c :: board.InBounds(c) && c != evidence && old(Weight(c)) == 0.0 ==> Weight(c) == 0.0
      ensures old(WallsZero()) && (value == 0.0 || evidence !in board.walls) ==> WallsZero()
      ensures value == 1.0 ==> forall c :: board.InBounds(c) ==> Weight(c) <= Weight(evidence)
      ensures value == 1.0 ==>
        (MostLikely() == evidence <==>
           forall c :: board.InBounds(c) && board.Index(c) < board.Index(evidence) ==> old(Weight(c)) < 1.0)
    {
      ghost var before := belief[..];
      var k := board.Index(evidence);
      EvidenceSetsWeight(board, before, evidence, value);
      belief[k] := value;
      assert belief[..] == before[k := value];
      Normalize();
    }

    /** `most_likely`: the first cell of greatest weight in row-major order. */
    function MostLikely(): (c: Cell)
      reads this, belief
      requires Valid()
      ensures board.InBounds(c)
      ensures forall d :: board.InBounds(d) ==> Weight(d) <= Weight(c)
      ensures forall d :: board.InBounds(d) && board.Index(d) < board.Index(c) ==> Weight(d) < Weight(c)
    {
      board.CellAt(ArgMax(belief[..]))
    }
  }
}
