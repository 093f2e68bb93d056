/**
 * The planner: A* over the board's legal moves with unit step cost, the walk back
 * along recorded predecessors, the first move of a plan, and the two selection
 * helpers used to pick goals.
 */
module Planning {
  import opened Wrappers
  import opened Geometry
  import opened Selection

  /** A g- or f-score: a number, or infinity for a cell not reached yet. */
  datatype Score = Infinity | Finite(n: int)
  {
    /** Strictly below, with infinity above every number. */
    predicate Below(other: Score)
    {
      Finite? && (other.Infinity? || n < other.n)
    }
  }

  /** The grids of a search cover the board, each indexed [x, y]. */
  ghost predicate Sized<T>(board: Board, a: array2<T>)
    reads {}
  {
    a.Length0 == board.width && a.Length1 == board.height
  }

  /**
   * The predecessor grid and the g-score grid agree: a recorded predecessor is a
   * legal move away, both have finite scores, the predecessor's is smaller by at
   * least one, and every finite score is non-negative.
   */
  ghost predicate Chained(board: Board, cameFrom: array2<Option<Cell>>, gScore: array2<Score>)
    reads cameFrom, gScore
    requires Sized(board, cameFrom) && Sized(board, gScore)
  {
    && (forall x, y :: 0 <= x < board.width && 0 <= y < board.height && gScore[x, y].Finite? ==> gScore[x, y].n >= 0)
    && (forall x, y :: 0 <= x < board.width && 0 <= y < board.height && cameFrom[x, y].Some? ==>
          var p := cameFrom[x, y].value;
          && board.InBounds(p)
          && board.Step(p, (x, y))
          && gScore[p.0, p.1].Finite? && gScore[x, y].Finite?
          && gScore[p.0, p.1].n + 1 <= gScore[x, y].n)
  }

  /** The only reached cell without a predecessor is `start`. */
  ghost predicate Rooted(board: Board, cameFrom: array2<Option<Cell>>, gScore: array2<Score>, start: Cell)
    reads cameFrom, gScore
    requires Sized(board, cameFrom) && Sized(board, gScore)
  {
    forall x, y {:trigger cameFrom[x, y]} :: 0 <= x < board.width && 0 <= y < board.height && gScore[x, y].Finite? && cameFrom[x, y].None? ==> (x, y) == start
  }

  /** Python's list.reverse, as a value. */
  function Reverse<T>(s: seq<T>): (r: seq<T>)
    ensures |r| == |s| && forall i :: 0 <= i < |s| ==> r[i] == s[|s| - 1 - i]
  {
    if s == [] then [] else Reverse(s[1..]) + [s[0]]
  }

  /** The cells of a list of options that are all present. */
  function Values(s: seq<Option<Cell>>): (r: seq<Cell>)
    requires forall i :: 0 <= i < |s| ==> s[i].Some?
    ensures |r| == |s| && forall i :: 0 <= i < |s| ==> s[i] == Some(r[i])
  {
    if s == [] then [] else [s[0].value] + Values(s[1..])
  }

  /**
   * A trail built walking back from a cell: every entry but the last is a reached
   * cell, and each entry is the recorded predecessor of the one before it.
   */
  ghost predicate Backward(board: Board, cameFrom: array2<Option<Cell>>, gScore: array2<Score>, trail: seq<Option<Cell>>)
    reads cameFrom, gScore
    requires Sized(board, cameFrom) && Sized(board, gScore)
  {
    && (forall i :: 0 <= i < |trail| - 1 ==> trail[i].Some?)
    && (forall i :: 0 <= i < |trail| ==> trail[i].Some? ==>
          board.InBounds(trail[i].value) && gScore[trail[i].value.0, trail[i].value.1].Finite?)
    && (forall i, j :: 0 <= i && j == i + 1 < |trail| ==> trail[j] == cameFrom[trail[i].value.0, trail[i].value.1])
  }

  /** One more step back along the predecessors keeps a trail backward. */
  lemma BackwardExtend(board: Board, cameFrom: array2<Option<Cell>>, gScore: array2<Score>, trail: seq<Option<Cell>>)
    requires Sized(board, cameFrom) && Sized(board, gScore)
    requires Chained(board, cameFrom, gScore) && Backward(board, cameFrom, gScore, trail)
    requires |trail| > 0 && trail[|trail| - 1].Some?
    ensures var c := trail[|trail| - 1].value;
      Backward(board, cameFrom, gScore, trail + [cameFrom[c.0, c.1]])
  {
    var c := trail[|trail| - 1].value;
    var next := cameFrom[c.0, c.1];
    var t := trail + [next];
    forall i, j | 0 <= i && j == i + 1 < |t|
      ensures t[j] == cameFrom[t[i].value.0, t[i].value.1]
    {
      if j < |trail| {
        assert t[i] == trail[i] && t[j] == trail[j];
      }
    }
  }

  /** Reversing a trail that ends in its only None and dropping that None lists the cells back to front. */
  lemma ReversedValues(trail: seq<Option<Cell>>)
    requires |trail| >= 2 && forall i :: 0 <= i < |trail| - 1 ==> trail[i].Some?
    ensures forall i :: 1 <= i < |trail| ==> Reverse(trail)[i].Some?
    ensures var path := Values(Reverse(trail)[1..]);
      |path| == |trail| - 1 && forall i :: 0 <= i < |path| ==> path[i] == trail[|trail| - 2 - i].value
  {
    var n := |trail|;
    var reversed := Reverse(trail);
    forall i | 1 <= i < n
      ensures reversed[i].Some?
    {
      assert reversed[i] == trail[n - 1 - i];
    }
    var path := Values(reversed[1..]);
    forall i | 0 <= i < |path|
      ensures path[i] == trail[n - 2 - i].value
    {
      assert reversed[1..][i] == reversed[1 + i] == trail[n - 2 - i];
    }
  }

  /** A finished trail read back to front, without its None, is a walk from `start` to the cell it began at. */
  lemma BackwardIsWalk(board: Board, cameFrom: array2<Option<Cell>>, gScore: array2<Score>, start: Cell,
                       trail: seq<Option<Cell>>, path: seq<Cell>)
    requires Sized(board, cameFrom) && Sized(board, gScore)
    requires Chained(board, cameFrom, gScore) && Rooted(board, cameFrom, gScore, start)
    requires Backward(board, cameFrom, gScore, trail)
    requires |trail| >= 2 && trail[|trail| - 1] == None
    requires |path| == |trail| - 1 && forall i :: 0 <= i < |path| ==> path[i] == trail[|trail| - 2 - i].value
    ensures path[0] == start && path[|path| - 1] == trail[0].value
    ensures IsWalk(board, path)
  {
    var n := |trail|;
    assert trail[n - 1] == cameFrom[trail[n - 2].value.0, trail[n - 2].value.1];
    assert path[0] == trail[n - 2].value;
    forall i, j | 0 <= i && j == i + 1 < |path|
      ensures board.Step(path[i], path[j])
    {
      var k := n - 2 - j;
      assert trail[k + 1] == cameFrom[trail[k].value.0, trail[k].value.1];
      assert path[i] == trail[k + 1].value && path[j] == trail[k].value;
    }
  }

  /**
   * `reconstructPath`: follow predecessors back from `goal` until the None of the
   * start cell, then reverse and drop that None. The g-scores, which strictly fall
   * along the chain, are only needed to see that the walk back ends.
   */
  method ReconstructPath(board: Board, cameFrom: array2<Option<Cell>>, goal: Cell,
                         ghost gScore: array2<Score>, ghost start: Cell)
    returns (path: seq<Cell>)
    requires Sized(board, cameFrom) && Sized(board, gScore)
    requires Chained(board, cameFrom, gScore) && Rooted(board, cameFrom, gScore, start)
    requires board.InBounds(goal) && gScore[goal.0, goal.1].Finite?
    ensures |path| > 0 && path[0] == start && path[|path| - 1] == goal
    ensures IsWalk(board, path)
    ensures cameFrom[goal.0, goal.1].None? ==> path == [goal]
  {
    var current: Option<Cell> := Some(goal);
    var trail: seq<Option<Cell>> := [current];
    while current != None
      invariant |trail| > 0 && trail[0] == Some(goal) && trail[|trail| - 1] == current
      invariant Backward(board, cameFrom, gScore, trail)
      invariant cameFrom[goal.0, goal.1].None? ==> |trail| <= 2
      decreases if current.Some? then gScore[current.value.0, current.value.1].n + 1 else 0
    {
      BackwardExtend(board, cameFrom, gScore, trail);
      current := cameFrom[current.value.0, current.value.1];
      trail := trail + [current];
    }
    ReversedValues(trail);
    var reversed := Reverse(trail);
    path := Values(reversed[1..]);
    BackwardIsWalk(board, cameFrom, gScore, start, trail, path);
    if cameFrom[goal.0, goal.1].None? {
      assert |path| == 1 && path[0] == goal;
    }
  }

  /** The cells waiting in the fringe. */
  function Queued(fringe: seq<(Cell, int)>): (r: set<Cell>)
    ensures forall i :: 0 <= i < |fringe| ==> fringe[i].0 in r
    ensures forall c :: c in r ==> exists i :: 0 <= i < |fringe| && fringe[i].0 == c
  {
    set i | 0 <= i < |fringe| :: fringe[i].0
  }

  /** No cell is queued twice. */
  ghost predicate Distinct(fringe: seq<(Cell, int)>)
  {
    forall i, j :: 0 <= i < j < |fringe| ==> fringe[i].0 != fringe[j].0
  }

  /** Removing entry m from a fringe without repeats leaves none, and drops its cell. */
  lemma DistinctAfterPop(fringe: seq<(Cell, int)>, m: int)
    requires 0 <= m < |fringe|
    ensures Distinct(fringe) ==> Distinct(fringe[..m] + fringe[m + 1..])
    ensures Distinct(fringe) ==> fringe[m].0 !in Queued(fringe[..m] + fringe[m + 1..])
  {
    var rest := fringe[..m] + fringe[m + 1..];
    assert forall i :: 0 <= i < |rest| ==> rest[i] == fringe[if i < m then i else i + 1];
  }

  /** Popping entry m loses at most that entry's cell from the fringe. */
  lemma QueuedAfterPop(fringe: seq<(Cell, int)>, m: int)
    requires 0 <= m < |fringe|
    ensures Queued(fringe[..m] + fringe[m + 1..]) <= Queued(fringe)
    ensures Queued(fringe) <= Queued(fringe[..m] + fringe[m + 1..]) + {fringe[m].0}
  {
    var rest := fringe[..m] + fringe[m + 1..];
    forall c | c in Queued(rest)
      ensures c in Queued(fringe)
    {
      var i :| 0 <= i < |rest| && rest[i].0 == c;
      if i < m {
        assert rest[i] == fringe[i];
      } else {
        assert rest[i] == fringe[i + 1];
      }
    }
    forall c | c in Queued(fringe)
      ensures c in Queued(rest) + {fringe[m].0}
    {
      var i :| 0 <= i < |fringe| && fringe[i].0 == c;
      if i < m {
        assert rest[i] == fringe[i];
      } else if i > m {
        assert rest[i - 1] == fringe[i];
      }
    }
  }

  /**
   * The fringe's pop: remove and return the entry of least priority, the earliest
   * pushed among equal priorities (the queue breaks ties in push order).
   */
  function Pop(fringe: seq<(Cell, int)>): (r: ((Cell, int), seq<(Cell, int)>))
    requires |fringe| > 0
    ensures |r.1| == |fringe| - 1
    ensures multiset(fringe) == multiset(r.1) + multiset{r.0}
    ensures forall i :: 0 <= i < |fringe| ==> r.0.1 <= fringe[i].1
    ensures Queued(r.1) <= Queued(fringe) <= Queued(r.1) + {r.0.0}
    ensures Distinct(fringe) ==> Distinct(r.1) && r.0.0 !in Queued(r.1)
  {
    var k := ArgMinBy(fringe, Priority);
    RemoveAt(fringe, k);
    QueuedAfterPop(fringe, k);
    DistinctAfterPop(fringe, k);
    (fringe[k], fringe[..k] + fringe[k + 1..])
  }

  /** The priority an entry was pushed with. */
  function Priority(e: (Cell, int)): int
  {
    e.1
  }

  /** Removing the entry at `k` shortens the fringe by exactly that entry. */
  lemma RemoveAt<T>(s: seq<T>, k: int)
    requires 0 <= k < |s|
    ensures |s[..k] + s[k + 1..]| == |s| - 1
    ensures multiset(s) == multiset(s[..k] + s[k + 1..]) + multiset{s[k]}
  {
    assert s == s[..k] + [s[k]] + s[k + 1..];
  }

  /** Pushing a cell that is not queued yet keeps the fringe free of repeats. */
  lemma DistinctAfterPush(fringe: seq<(Cell, int)>, e: (Cell, int))
    requires e.0 !in Queued(fringe)
    ensures Distinct(fringe) ==> Distinct(fringe + [e])
  {
    var longer := fringe + [e];
    assert forall i :: 0 <= i < |fringe| ==> longer[i] == fringe[i];
  }

  /** Pushing at the back keeps every queued cell and adds the new one. */
  lemma QueuedAfterPush(fringe: seq<(Cell, int)>, e: (Cell, int))
    ensures Queued(fringe + [e]) == Queued(fringe) + {e.0}
  {
    var longer := fringe + [e];
    assert longer[|fringe|] == e;
    forall c | c in Queued(fringe)
      ensures c in Queued(longer)
    {
      var i :| 0 <= i < |fringe| && fringe[i].0 == c;
      assert longer[i] == fringe[i];
    }
  }

  /** A subset has no more elements than its superset. */
  lemma SubsetCard<T>(a: set<T>, b: set<T>)
    requires a <= b
    ensures |a| <= |b|
  {
    assert b == a + (b - a);
    assert a * (b - a) == {};
  }

  /**
   * One round of the search makes progress: either it opens a new cell of the
   * board, leaving fewer unopened, or it opens none and the fringe got shorter.
   */
  lemma Progress(board: Board, before: set<Cell>, after: set<Cell>, sizeBefore: int, sizeAfter: int)
    requires before <= after && forall c :: c in after ==> board.InBounds(c)
    requires before == after ==> sizeAfter < sizeBefore
    ensures || board.Cells() - after < board.Cells() - before
            || (board.Cells() - after == board.Cells() - before && sizeAfter < sizeBefore)
  {
    if before != after {
      var added :| added in after && added !in before;
      assert added in board.Cells() - before;
    }
  }

  /** `goal` can be reached from `start` by a walk. */
  ghost predicate Reachable(board: Board, start: Cell, goal: Cell)
  {
    exists w :: |w| > 0 && w[0] == start && w[|w| - 1] == goal && IsWalk(board, w)
  }

  /** A walk reaches its last cell from its first. */
  lemma WalkReaches(board: Board, w: seq<Cell>)
    requires |w| > 0 && IsWalk(board, w)
    ensures Reachable(board, w[0], w[|w| - 1])
  {
  }

  /** A set closed under legal moves holds every cell a walk from inside it reaches. */
  lemma {:induction false} WalkStaysInside(board: Board, inside: set<Cell>, w: seq<Cell>)
    requires |w| > 0 && w[0] in inside && IsWalk(board, w)
    requires forall c, d :: c in inside && board.Step(c, d) ==> d in inside
    ensures w[|w| - 1] in inside
  {
    if |w| > 1 {
      var v := w[..|w| - 1];
      assert IsWalk(board, v) by {
        forall i, j | 0 <= i && j == i + 1 < |v| ensures board.Step(v[i], v[j]) {
          assert v[i] == w[i] && v[j] == w[j];
        }
      }
      WalkStaysInside(board, inside, v);
      var j := |w| - 1;
      assert board.Step(w[j - 1], w[j]);
    }
  }

  /** A set holding `start`, closed under legal moves and missing `goal`, shows `goal` unreachable. */
  lemma Unreachable(board: Board, inside: set<Cell>, start: Cell, goal: Cell)
    requires start in inside && goal !in inside
    requires forall c, d :: c in inside && board.Step(c, d) ==> d in inside
    ensures !Reachable(board, start, goal)
  {
    if Reachable(board, start, goal) {
      var w :| |w| > 0 && w[0] == start && w[|w| - 1] == goal && IsWalk(board, w);
      WalkStaysInside(board, inside, w);
    }
  }

  /** Cells are open exactly when their g-score is finite. */
  ghost predicate Opened(board: Board, gScore: array2<Score>, openSet: set<Cell>)
    reads gScore
    requires Sized(board, gScore)
  {
    && (forall c :: c in openSet ==> board.InBounds(c) && gScore[c.0, c.1].Finite?)
    && (forall x, y :: 0 <= x < board.width && 0 <= y < board.height && gScore[x, y].Finite? ==> (x, y) in openSet)
  }

  /**
   * The search grids: sized to the board, distinct, predecessors chained by
   * g-score and rooted at `start`, `start` at g-score 0 with no predecessor, and
   * the open cells exactly those with a finite g-score.
   */
  ghost predicate Grids(board: Board, cameFrom: array2<Option<Cell>>, gScore: array2<Score>, fScore: array2<Score>,
                        start: Cell, openSet: set<Cell>)
    reads cameFrom, gScore, fScore
  {
    && Sized(board, cameFrom) && Sized(board, gScore) && Sized(board, fScore) && gScore != fScore
    && Chained(board, cameFrom, gScore) && Rooted(board, cameFrom, gScore, start)
    && board.InBounds(start) && gScore[start.0, start.1] == Finite(0) && cameFrom[start.0, start.1].None?
    && Opened(board, gScore, openSet)
  }

  /**
   * The frontier of the search: every queued cell is open, every open cell is
   * queued or closed, `goal` has not been closed, every legal move out of a
   * closed cell ends in an open cell, and no cell is queued twice or after it
   * was closed.
   */
  ghost predicate Frontier(board: Board, openSet: set<Cell>, fringe: seq<(Cell, int)>, closed: set<Cell>, goal: Cell)
  {
    && Queued(fringe) <= openSet && openSet <= closed + Queued(fringe)
    && closed <= openSet && goal !in closed
    && (forall c, d :: c in closed && board.Step(c, d) ==> d in openSet)
    && Distinct(fringe) && Queued(fringe) !! closed
  }

  /**
   * The body of `makePlan`'s improvement branch: `nb`, one legal move from
   * `current`, gets `current` as predecessor, g-score one more than `current`'s,
   * and f-score `f`; no other cell changes.
   */
  method Relax(board: Board, cameFrom: array2<Option<Cell>>, gScore: array2<Score>, fScore: array2<Score>,
               ghost start: Cell, current: Cell, nb: Cell, f: int)
    requires Sized(board, cameFrom) && Sized(board, gScore) && Sized(board, fScore) && gScore != fScore
    requires Chained(board, cameFrom, gScore) && Rooted(board, cameFrom, gScore, start)
    requires board.InBounds(current) && board.Step(current, nb)
    requires gScore[current.0, current.1].Finite?
    requires Finite(gScore[current.0, current.1].n + 1).Below(gScore[nb.0, nb.1])
    modifies cameFrom, gScore, fScore
    ensures Chained(board, cameFrom, gScore) && Rooted(board, cameFrom, gScore, start)
    ensures cameFrom[nb.0, nb.1] == Some(current)
    ensures gScore[nb.0, nb.1] == Finite(old(gScore[current.0, current.1].n) + 1)
    ensures fScore[nb.0, nb.1] == Finite(f)
    ensures forall x, y :: 0 <= x < board.width && 0 <= y < board.height && (x, y) != nb ==>
      cameFrom[x, y] == old(cameFrom[x, y]) && gScore[x, y] == old(gScore[x, y]) && fScore[x, y] == old(fScore[x, y])
  {
    var g := gScore[current.0, current.1].n + 1;
    cameFrom[nb.0, nb.1] := Some(current);
    gScore[nb.0, nb.1] := Finite(g);
    fScore[nb.0, nb.1] := Finite(f);
  }

  /**
   * One pass of `makePlan`'s inner loop: if going through `current` improves the
   * g-score of the neighbour `nb`, record it, and push `nb` when it is opened for
   * the first time. Afterwards `nb` is open.
   */
  method Visit(board: Board, cameFrom: array2<Option<Cell>>, gScore: array2<Score>, fScore: array2<Score>,
               ghost start: Cell, goal: Cell, h: (Cell, Cell) -> int, current: Cell, nb: Cell,
               openSet1: set<Cell>, fringe1: seq<(Cell, int)>)
    returns (openSet: set<Cell>, fringe: seq<(Cell, int)>)
    requires Grids(board, cameFrom, gScore, fScore, start, openSet1)
    requires current in openSet1 && board.Step(current, nb)
    requires Queued(fringe1) <= openSet1
    modifies cameFrom, gScore, fScore
    ensures Grids(board, cameFrom, gScore, fScore, start, openSet) && nb in openSet
    ensures nb in openSet1 ==> openSet == openSet1 && fringe == fringe1
    ensures nb !in openSet1 ==>
      && openSet == openSet1 + {nb} && |fringe| == |fringe1| + 1
      && fringe[..|fringe1|] == fringe1 && fringe[|fringe1|].0 == nb
      && fScore[nb.0, nb.1] == Finite(fringe[|fringe1|].1)
  {
    openSet, fringe := openSet1, fringe1;
    var tentativeGScore := gScore[current.0, current.1].n + 1;
    if Finite(tentativeGScore).Below(gScore[nb.0, nb.1]) {
      Relax(board, cameFrom, gScore, fScore, start, current, nb, tentativeGScore + h(nb, goal));
      assert Opened(board, gScore, openSet1 + {nb});
      if nb !in openSet {
        openSet, fringe := Push(openSet, fringe, nb, tentativeGScore + h(nb, goal));
      }
    }
  }

  /** Open `nb` and queue it with priority `f`, at the back of the fringe. */
  method Push(openSet1: set<Cell>, fringe1: seq<(Cell, int)>, nb: Cell, f: int)
    returns (openSet: set<Cell>, fringe: seq<(Cell, int)>)
    requires Queued(fringe1) <= openSet1 && nb !in openSet1
    ensures openSet == openSet1 + {nb} && fringe == fringe1 + [(nb, f)]
    ensures |fringe| == |fringe1| + 1 && fringe[..|fringe1|] == fringe1 && fringe[|fringe1|] == (nb, f)
  {
    openSet := openSet1 + {nb};
    fringe := fringe1 + [(nb, f)];
  }

  /** Opening a new cell and queueing it at the back is growth. */
  lemma PushGrows(openSet1: set<Cell>, fringe1: seq<(Cell, int)>, nb: Cell, f: int)
    requires Queued(fringe1) <= openSet1 && nb !in openSet1
    ensures Grown(openSet1, fringe1, openSet1 + {nb}, fringe1 + [(nb, f)])
  {
    CardAddNew(openSet1, nb);
    QueuedAfterPush(fringe1, (nb, f));
    DistinctAfterPush(fringe1, (nb, f));
  }

  /** What `Visit` does to the open set and the fringe is growth. */
  lemma VisitGrows(openSet1: set<Cell>, fringe1: seq<(Cell, int)>, openSet: set<Cell>, fringe: seq<(Cell, int)>, nb: Cell)
    requires Queued(fringe1) <= openSet1
    requires nb in openSet1 ==> openSet == openSet1 && fringe == fringe1
    requires nb !in openSet1 ==>
      && openSet == openSet1 + {nb} && |fringe| == |fringe1| + 1
      && fringe[..|fringe1|] == fringe1 && fringe[|fringe1|].0 == nb
    ensures Grown(openSet1, fringe1, openSet, fringe)
  {
    if nb !in openSet1 {
      assert fringe == fringe1 + [(nb, fringe[|fringe1|].1)];
      PushGrows(openSet1, fringe1, nb, fringe[|fringe1|].1);
    }
  }


  /**
   * How the open set and the fringe grow during an expansion: cells are only
   * added, each new one is queued, the fringe only gains entries, one per newly
   * opened cell, and it changes only when a cell was opened.
   */
  ghost predicate Grown(openSet0: set<Cell>, fringe0: seq<(Cell, int)>, openSet: set<Cell>, fringe: seq<(Cell, int)>)
  {
    && openSet0 <= openSet && (openSet == openSet0 ==> fringe == fringe0)
    && Queued(fringe0) <= Queued(fringe) <= openSet && openSet <= openSet0 + Queued(fringe)
    && Queued(fringe) <= Queued(fringe0) + (openSet - openSet0)
    && (Distinct(fringe0) ==> Distinct(fringe))
    && |openSet| - |openSet0| == |fringe| - |fringe0|
  }

  /** Adding a new element to a set adds one to its size. */
  lemma CardAddNew<T>(s: set<T>, x: T)
    requires x !in s
    ensures |s + {x}| == |s| + 1
  {
    assert s * {x} == {};
  }

  lemma GrownTransitive(o0: set<Cell>, f0: seq<(Cell, int)>, o1: set<Cell>, f1: seq<(Cell, int)>,
                        o2: set<Cell>, f2: seq<(Cell, int)>)
    requires Grown(o0, f0, o1, f1) && Grown(o1, f1, o2, f2)
    ensures Grown(o0, f0, o2, f2)
  {
  }

  /**
   * The inner loop of `makePlan`: every legal move from `current` that improves a
   * neighbour's g-score is recorded, and a neighbour opened for the first time is
   * pushed on the fringe. Afterwards every legal move from `current` ends in an
   * open cell.
   */
  method Expand(board: Board, cameFrom: array2<Option<Cell>>, gScore: array2<Score>, fScore: array2<Score>,
                ghost start: Cell, goal: Cell, h: (Cell, Cell) -> int, current: Cell,
                openSet0: set<Cell>, fringe0: seq<(Cell, int)>)
    returns (openSet: set<Cell>, fringe: seq<(Cell, int)>)
    requires Grids(board, cameFrom, gScore, fScore, start, openSet0)
    requires current in openSet0 && Queued(fringe0) <= openSet0
    modifies cameFrom, gScore, fScore
    ensures Grids(board, cameFrom, gScore, fScore, start, openSet)
    ensures Grown(openSet0, fringe0, openSet, fringe)
    ensures forall d :: d in board.Neighbors(current) ==> d in openSet
  {
    openSet, fringe := openSet0, fringe0;
    var neighbors := board.Neighbors(current);
    assert forall j :: 0 <= j < |neighbors| ==> board.Step(current, neighbors[j]) by {
      forall j | 0 <= j < |neighbors| ensures board.Step(current, neighbors[j]) {
        assert neighbors[j] in neighbors;
      }
    }
    for i := 0 to |neighbors|
      invariant Grids(board, cameFrom, gScore, fScore, start, openSet)
      invariant Grown(openSet0, fringe0, openSet, fringe)
      invariant forall j :: 0 <= j < i ==> neighbors[j] in openSet
    {
      openSet, fringe := VisitNext(board, cameFrom, gScore, fScore, start, goal, h, current, neighbors, i,
                                   openSet0, fringe0, openSet, fringe);
    }
  }

  /** One turn of `Expand`'s loop: visit the `i`-th neighbour, keeping the loop's invariants. */
  method VisitNext(board: Board, cameFrom: array2<Option<Cell>>, gScore: array2<Score>, fScore: array2<Score>,
                   ghost start: Cell, goal: Cell, h: (Cell, Cell) -> int, current: Cell, neighbors: seq<Cell>, i: int,
                   ghost openSet0: set<Cell>, ghost fringe0: seq<(Cell, int)>, openSet1: set<Cell>, fringe1: seq<(Cell, int)>)
    returns (openSet: set<Cell>, fringe: seq<(Cell, int)>)
    requires Grids(board, cameFrom, gScore, fScore, start, openSet1)
    requires Grown(openSet0, fringe0, openSet1, fringe1) && current in openSet0
    requires 0 <= i < |neighbors| && forall j :: 0 <= j < |neighbors| ==> board.Step(current, neighbors[j])
    requires forall j :: 0 <= j < i ==> neighbors[j] in openSet1
    modifies cameFrom, gScore, fScore
    ensures Grids(board, cameFrom, gScore, fScore, start, openSet)
    ensures Grown(openSet0, fringe0, openSet, fringe)
    ensures forall j :: 0 <= j < i + 1 ==> neighbors[j] in openSet
  {
    var nb := neighbors[i];
    openSet, fringe := Visit(board, cameFrom, gScore, fScore, start, goal, h, current, nb, openSet1, fringe1);
    VisitGrows(openSet1, fringe1, openSet, fringe, nb);
    GrownTransitive(openSet0, fringe0, openSet1, fringe1, openSet, fringe);
    CoverageGrows(neighbors, i, openSet1, openSet);
  }

  /** The cells of a prefix stay covered by a growing set that takes in the next one. */
  lemma CoverageGrows(cells: seq<Cell>, i: int, before: set<Cell>, after: set<Cell>)
    requires 0 <= i < |cells| && before <= after && cells[i] in after
    requires forall j :: 0 <= j < i ==> cells[j] in before
    ensures forall j :: 0 <= j < i + 1 ==> cells[j] in after
  {
  }

  /**
   * One round of `makePlan` after `current`, not the goal, has been popped:
   * expand it, after which it counts as closed. Either a new cell was opened or
   * the fringe is no longer than just after the pop.
   */
  method Round(board: Board, cameFrom: array2<Option<Cell>>, gScore: array2<Score>, fScore: array2<Score>,
               ghost start: Cell, goal: Cell, h: (Cell, Cell) -> int, current: Cell,
               openSet0: set<Cell>, fringe0: seq<(Cell, int)>, ghost closed: set<Cell>)
    returns (openSet: set<Cell>, fringe: seq<(Cell, int)>)
    requires Grids(board, cameFrom, gScore, fScore, start, openSet0)
    requires current in openSet0 && current != goal
    requires Queued(fringe0) <= openSet0 && openSet0 <= closed + {current} + Queued(fringe0)
    requires closed <= openSet0 && goal !in closed
    requires forall c, d :: c in closed && board.Step(c, d) ==> d in openSet0
    requires Distinct(fringe0) && Queued(fringe0) !! closed + {current}
    modifies cameFrom, gScore, fScore
    ensures Grids(board, cameFrom, gScore, fScore, start, openSet)
    ensures Frontier(board, openSet, fringe, closed + {current}, goal)
    ensures || board.Cells() - openSet < board.Cells() - openSet0
            || (board.Cells() - openSet == board.Cells() - openSet0 && |fringe| <= |fringe0|)
    ensures |openSet| - |openSet0| == |fringe| - |fringe0|
  {
    openSet, fringe := Expand(board, cameFrom, gScore, fScore, start, goal, h, current, openSet0, fringe0);
    ExpandCloses(board, openSet0, openSet, fringe0, fringe, closed, current, goal);
    Progress(board, openSet0, openSet, |fringe0| + 1, |fringe|);
  }

  /** The frontier facts after `current` has been expanded and closed. */
  lemma ExpandCloses(board: Board, openSet0: set<Cell>, openSet: set<Cell>, fringe0: seq<(Cell, int)>,
                     fringe: seq<(Cell, int)>, closed: set<Cell>, current: Cell, goal: Cell)
    requires current in openSet0 && current != goal
    requires openSet0 <= closed + {current} + Queued(fringe0)
    requires closed <= openSet0 && goal !in closed
    requires forall c, d :: c in closed && board.Step(c, d) ==> d in openSet0
    requires Distinct(fringe0) && Queued(fringe0) !! closed + {current}
    requires Grown(openSet0, fringe0, openSet, fringe)
    requires forall d :: d in board.Neighbors(current) ==> d in openSet
    ensures Frontier(board, openSet, fringe, closed + {current}, goal)
  {
    forall c, d | c in closed + {current} && board.Step(c, d)
      ensures d in openSet
    {
      if c == current {
        assert d in board.Neighbors(current);
      }
    }
  }

  /**
   * The start of `makePlan`: every cell at infinite scores and without a
   * predecessor except `start`, at g-score 0 and f-score `h(start, goal)`, the
   * only open cell and the only entry of the fringe.
   */
  method Init(board: Board, start: Cell, goal: Cell, h: (Cell, Cell) -> int)
    returns (cameFrom: array2<Option<Cell>>, gScore: array2<Score>, fScore: array2<Score>,
             openSet: set<Cell>, fringe: seq<(Cell, int)>)
    requires board.InBounds(start)
    ensures fresh(cameFrom) && fresh(gScore) && fresh(fScore)
    ensures Grids(board, cameFrom, gScore, fScore, start, openSet)
    ensures Frontier(board, openSet, fringe, {}, goal)
    ensures openSet == {start} && fringe == [(start, h(start, goal))]
  {
    var fScoreStart := h(start, goal);
    fringe := [(start, fScoreStart)];
    cameFrom := new Option<Cell>[board.width, board.height]((x, y) => None);
    gScore := new Score[board.width, board.height]((x, y) => Infinity);
    fScore := new Score[board.width, board.height]((x, y) => Infinity);
    assert gScore != fScore;
    openSet := {start};
    fScore[start.0, start.1] := Finite(fScoreStart);
    gScore[start.0, start.1] := Finite(0);
    assert fringe[0].0 == start;
  }

  /**
   * One pass of `makePlan`'s outer loop: pop the entry of least priority; if its
   * cell is the goal, the plan is the walk back from it, otherwise expand it and
   * count it as closed. Without a plan, the search has made progress.
   */
  method Iterate(board: Board, cameFrom: array2<Option<Cell>>, gScore: array2<Score>, fScore: array2<Score>,
                 ghost start: Cell, goal: Cell, h: (Cell, Cell) -> int,
                 openSet0: set<Cell>, fringe0: seq<(Cell, int)>, ghost closed0: set<Cell>)
    returns (found: Option<seq<Cell>>, openSet: set<Cell>, fringe: seq<(Cell, int)>, ghost closed: set<Cell>)
    requires Grids(board, cameFrom, gScore, fScore, start, openSet0)
    requires Frontier(board, openSet0, fringe0, closed0, goal) && fringe0 != []
    modifies cameFrom, gScore, fScore
    ensures found.Some? ==>
      var p := found.value;
      |p| > 0 && p[0] == start && p[|p| - 1] == goal && IsWalk(board, p) && (start == goal ==> p == [start])
    ensures found.None? ==> Grids(board, cameFrom, gScore, fScore, start, openSet)
    ensures found.None? ==> Frontier(board, openSet, fringe, closed, goal)
    ensures found.None? ==>
      || board.Cells() - openSet < board.Cells() - openSet0
      || (board.Cells() - openSet == board.Cells() - openSet0 && |fringe| < |fringe0|)
    ensures found.None? ==> |openSet| - |openSet0| == |fringe| + 1 - |fringe0|
  {
    var popped := Pop(fringe0);
    var current := popped.0.0;
    fringe := popped.1;
    if current == goal {
      var path := ReconstructPath(board, cameFrom, goal, gScore, start);
      if start == goal {
        assert cameFrom[goal.0, goal.1].None?;
      }
      return Some(path), openSet0, fringe0, closed0;
    }
    openSet, fringe := Round(board, cameFrom, gScore, fScore, start, goal, h, current, openSet0, fringe, closed0);
    closed := closed0 + {current};
    found := None;
  }

  /**
   * `makePlan`: A* from `start` towards `goal` with unit step cost and heuristic
   * `h`. The fringe pops the entry of least priority, the earliest pushed among
   * equals; a cell enters the fringe only on first being opened, with the f-score
   * it has then. The plan, when there is one, is the predecessor walk to `goal`.
   * `rounds` counts the entries popped: no more than the board has cells.
   */
  method MakePlan(board: Board, start: Cell, goal: Cell, h: (Cell, Cell) -> int)
    returns (plan: Option<seq<Cell>>, ghost rounds: nat)
    requires board.InBounds(start)
    ensures plan.Some? ==>
      var p := plan.value;
      |p| > 0 && p[0] == start && p[|p| - 1] == goal && IsWalk(board, p)
    ensures plan.None? <==> !Reachable(board, start, goal)
    ensures start == goal ==> plan == Some([start])
    ensures rounds <= |board.Cells()|
  {
    var cameFrom, gScore, fScore, openSet, fringe := Init(board, start, goal, h);
    ghost var closed: set<Cell> := {};
    rounds := 0;
    while fringe != []
      invariant Grids(board, cameFrom, gScore, fScore, start, openSet)
      invariant Frontier(board, openSet, fringe, closed, goal)
      invariant rounds + |fringe| == |openSet|
      decreases board.Cells() - openSet, |fringe|
    {
      SubsetCard(openSet, board.Cells());
      var found;
      found, openSet, fringe, closed := Iterate(board, cameFrom, gScore, fScore, start, goal, h, openSet, fringe, closed);
      rounds := rounds + 1;
      if found.Some? {
        WalkReaches(board, found.value);
        return found, rounds;
      }
    }
    SubsetCard(openSet, board.Cells());
    assert start in openSet;
    assert openSet <= closed by {
      forall c | c in Queued(fringe)
        ensures false
      {
      }
    }
    Unreachable(board, openSet, start, goal);
    return None, rounds;
  }

  /**
   * `followPlan`: the displacement from `myPosition` to the plan's second cell,
   * or to its only cell when the plan has one. Moving by it lands on that cell.
   */
  function FollowPlan(myPosition: Cell, plan: seq<Cell>): (d: (int, int))
    requires |plan| > 0
    ensures |plan| >= 2 ==> (myPosition.0 + d.0, myPosition.1 + d.1) == plan[1]
    ensures |plan| == 1 ==> (myPosition.0 + d.0, myPosition.1 + d.1) == plan[0]
  {
    var goal := if |plan| >= 2 then plan[1] else plan[0];
    (goal.0 - myPosition.0, goal.1 - myPosition.1)
  }

  /**
   * Following a plan that starts where the agent stands is one legal move when
   * the plan has a next cell, and standing still exactly when it does not.
   */
  lemma FollowPlanMoves(board: Board, myPosition: Cell, plan: seq<Cell>)
    requires |plan| > 0 && plan[0] == myPosition && IsWalk(board, plan)
    ensures var d := FollowPlan(myPosition, plan);
      && (|plan| >= 2 ==> Abs(d.0) + Abs(d.1) == 1 && board.Open((myPosition.0 + d.0, myPosition.1 + d.1)))
      && (d == (0, 0) <==> |plan| == 1)
  {
    if |plan| >= 2 {
      assert board.Step(plan[0], plan[1]);
    }
  }

  /** After the move a plan prescribes, the plan's last cell is still reachable. */
  lemma FollowPlanReaches(board: Board, myPosition: Cell, plan: seq<Cell>)
    requires |plan| > 0 && plan[0] == myPosition && IsWalk(board, plan)
    ensures var d := FollowPlan(myPosition, plan);
      Reachable(board, (myPosition.0 + d.0, myPosition.1 + d.1), plan[|plan| - 1])
  {
    if |plan| >= 2 {
      var rest := plan[1..];
      forall i, j | 0 <= i && j == i + 1 < |rest|
        ensures board.Step(rest[i], rest[j])
      {
        assert board.Step(plan[i + 1], plan[j + 1]);
      }
      WalkReaches(board, rest);
    } else {
      WalkReaches(board, plan);
    }
  }

  /** `nearestPosition`: the first of `positions` at least Manhattan distance from `myPosition`. */
  function NearestPosition(myPosition: Cell, positions: seq<Cell>): (p: Cell)
    requires |positions| > 0
    ensures p in positions
    ensures forall q :: q in positions ==> Manhattan(myPosition, p) <= Manhattan(myPosition, q)
  {
    positions[ArgMinBy(positions, (q: Cell) => Manhattan(myPosition, q))]
  }

  /** Ties go to the earliest position: a nearest cell preceded only by strictly farther ones is the answer. */
  lemma NearestPositionFirst(myPosition: Cell, positions: seq<Cell>, k: int)
    requires 0 <= k < |positions|
    requires forall j :: 0 <= j < |positions| ==> Manhattan(myPosition, positions[k]) <= Manhattan(myPosition, positions[j])
    requires forall j :: 0 <= j < k ==> Manhattan(myPosition, positions[k]) < Manhattan(myPosition, positions[j])
    ensures NearestPosition(myPosition, positions) == positions[k]
  {
    ArgMinUnique(positions, (q: Cell) => Manhattan(myPosition, q), k);
  }

  /** The first of `cells` at greatest Manhattan distance from `origin`. */
  function Farthest(origin: Cell, cells: seq<Cell>): (f: Cell)
    requires |cells| > 0
    ensures f in cells
    ensures forall c :: c in cells ==> Manhattan(origin, c) <= Manhattan(origin, f)
  {
    cells[ArgMaxBy(cells, (c: Cell) => Manhattan(origin, c))]
  }

  /**
   * `applyField`: the first attractor farthest from the deflector that is itself
   * farthest from `origin`.
   */
  function ApplyField(origin: Cell, attractors: seq<Cell>, deflectors: seq<Cell>): (a: Cell)
    requires |attractors| > 0 && |deflectors| > 0
    ensures a in attractors
    ensures var pole := Farthest(origin, deflectors);
      forall b :: b in attractors ==> Manhattan(pole, b) <= Manhattan(pole, a)
  {
    Farthest(Farthest(origin, deflectors), attractors)
  }

  /** Ties go to the earliest cell: a farthest cell preceded only by strictly nearer ones is the answer. */
  lemma FarthestFirst(origin: Cell, cells: seq<Cell>, k: int)
    requires 0 <= k < |cells|
    requires forall j :: 0 <= j < |cells| ==> Manhattan(origin, cells[j]) <= Manhattan(origin, cells[k])
    requires forall j :: 0 <= j < k ==> Manhattan(origin, cells[j]) < Manhattan(origin, cells[k])
    ensures Farthest(origin, cells) == cells[k]
  {
    ArgMaxUnique(cells, (c: Cell) => Manhattan(origin, c), k);
  }
}
