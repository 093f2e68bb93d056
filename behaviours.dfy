/**
 * The goal an agent heads for under each of its behaviours. Every behaviour reads
 * the opponents' most likely cells (one per belief filter, in filter order), the
 * opponent food and capsules still on the board, and a random draw, and names a
 * cell to plan towards, no cell, or the failure the original would raise.
 */
module Behaviours {
  import opened Wrappers
  import opened Geometry
  import opened Selection
  import opened Planning

  /** Where the team patrols and what counts as the centre of the board. */
  const Centre: Cell := (18, 7)
  const LowerPatrol: Cell := (18, 9)
  /** The column an agent retreats to. */
  const RetreatColumn := 18
  /** Cells with x beyond this are on the team's own side. */
  const HomeLine := 16
  /** Distance below which an opponent counts as close. */
  const Threat := 6
  /** Initial best distance of the nearest-enemy scan: farther opponents are ignored. */
  const FarAway := 999
  /** Initial best value of the retreat scan. */
  const RetreatCap: real := 999999.0

  /** What the original raises on the way to a move. */
  datatype Fault =
    | NoEnemy           // defensiveBehaviour indexes the None of nearest_enemy_to
    | NoViableCell      // retreatBehaviour indexes an empty list of column cells
    | NoBehaviour       // chooseAction calls a behaviour that was never chosen
    | NoPlan            // followPlan indexes the None of an unreachable goal
    | DegenerateBelief  // a belief update divides by a zero total or a cell with no successors

  /** The behaviours an agent can be following. */
  datatype Behaviour = PatrolBehaviour | DefensiveBehaviour | RetreatBehaviour | IncursionBehaviour | HeroBehaviour

  /** Everything the goal of a behaviour depends on in one turn. */
  datatype Situation = Situation(
    board: Board,
    myPosition: Cell,
    likely: seq<Cell>,     // the opponents' most likely cells
    foods: seq<Cell>,      // the opponent food still on the board, in the host's list order
    capsules: seq<Cell>,   // the opponent capsules still on the board
    patrolDraw: bool)      // random.uniform(0, 1) > 0.5

  /**
   * The outcome of `nearest_enemy_to`: index -1 and no cell when no opponent is
   * closer than `FarAway`, otherwise the first opponent at least distance.
   */
  function NearestEnemy(position: Cell, likely: seq<Cell>): (r: (int, Option<Cell>))
    ensures r.0 == -1 <==> forall i :: 0 <= i < |likely| ==> Manhattan(position, likely[i]) >= FarAway
    ensures r.0 == -1 ==> r.1 == None
    ensures r.0 != -1 ==>
      && 0 <= r.0 < |likely| && r.1 == Some(likely[r.0]) && Manhattan(position, likely[r.0]) < FarAway
      && (forall j :: 0 <= j < |likely| ==> Manhattan(position, likely[r.0]) <= Manhattan(position, likely[j]))
      && (forall j :: 0 <= j < r.0 ==> Manhattan(position, likely[r.0]) < Manhattan(position, likely[j]))
  {
    if |likely| == 0 then (-1, None)
    else
      var k: int := ArgMinBy(likely, (c: Cell) => Manhattan(position, c));
      if Manhattan(position, likely[k]) < FarAway then (k, Some(likely[k])) else (-1, None)
  }

  /** `nearest_enemy_to`: scan the opponents keeping the strictly nearest one seen so far. */
  method NearestEnemyTo(position: Cell, likely: seq<Cell>) returns (nearestIdx: int, nearest: Option<Cell>)
    ensures (nearestIdx, nearest) == NearestEnemy(position, likely)
  {
    nearestIdx, nearest := -1, None;
    var nearestDistance := FarAway;
    for idx := 0 to |likely|
      invariant nearestIdx == -1 ==> nearest == None && nearestDistance == FarAway
      invariant nearestIdx == -1 ==> forall j :: 0 <= j < idx ==> Manhattan(position, likely[j]) >= FarAway
      invariant nearestIdx != -1 ==>
        && 0 <= nearestIdx < idx && nearest == Some(likely[nearestIdx])
        && nearestDistance == Manhattan(position, likely[nearestIdx]) < FarAway
        && (forall j :: 0 <= j < idx ==> nearestDistance <= Manhattan(position, likely[j]))
        && (forall j :: 0 <= j < nearestIdx ==> nearestDistance < Manhattan(position, likely[j]))
    {
      var d := Manhattan(position, likely[idx]);
      if d < nearestDistance {
        nearestDistance := d;
        nearestIdx := idx;
        nearest := Some(likely[idx]);
      }
    }
    if nearestIdx != -1 {
      ArgMinUnique(likely, (c: Cell) => Manhattan(position, c), nearestIdx);
    }
  }

  /** `patrolBehaviour`: one of the two patrol cells, chosen by the draw. */
  function Patrol(draw: bool): (g: Cell)
    ensures g == Centre || g == LowerPatrol
    ensures g == Centre <==> draw
  {
    if draw then Centre else LowerPatrol
  }

  /**
   * `defensiveBehaviour`: chase the nearest opponent when it is on the team's
   * side, otherwise patrol.
   */
  function Defensive(sit: Situation): (r: Result<Option<Cell>, Fault>)
    ensures r.Err? <==> NearestEnemy(sit.myPosition, sit.likely).1.None?
    ensures r.Ok? ==> r.value.Some?
    ensures r.Ok? ==>
      var nearby := NearestEnemy(sit.myPosition, sit.likely).1.value;
      r.value.value == if nearby.0 > HomeLine then nearby else Patrol(sit.patrolDraw)
  {
    var (_, nearby) := NearestEnemy(sit.myPosition, sit.likely);
    if nearby.None? then Err(NoEnemy)
    else if nearby.value.0 > HomeLine then Ok(Some(nearby.value))
    else Ok(Some(Patrol(sit.patrolDraw)))
  }

  /** The cells (`RetreatColumn`, y) below row `n` that are not walls, by increasing y. */
  function ColumnBelow(board: Board, n: nat): (r: seq<Cell>)
    ensures forall c :: c in r <==> c.0 == RetreatColumn && 0 <= c.1 < n && c !in board.walls
    ensures forall i, j :: 0 <= i < j < |r| ==> r[i].1 < r[j].1
  {
    if n == 0 then []
    else
      var below := ColumnBelow(board, n - 1);
      if (RetreatColumn, n - 1) in board.walls then below
      else
        assert forall i :: 0 <= i < |below| ==> below[i] in below;
        below + [(RetreatColumn, n - 1)]
  }

  /** The cells an agent may retreat to, `viable` in the original. */
  function Viable(board: Board): (r: seq<Cell>)
    ensures forall c :: c in r <==> c.0 == RetreatColumn && 0 <= c.1 < board.height && c !in board.walls
  {
    ColumnBelow(board, board.height)
  }

  /** The summed Manhattan distance from every cell of `cells` to `target`. */
  function TotalDistance(target: Cell, cells: seq<Cell>): nat
  {
    if cells == [] then 0 else TotalDistance(target, cells[..|cells| - 1]) + Manhattan(cells[|cells| - 1], target)
  }

  /** The shared inner loop of the retreat and incursion scans: add up the distances to `target`. */
  method SumDistances(target: Cell, cells: seq<Cell>) returns (total: nat)
    ensures total == TotalDistance(target, cells)
  {
    total := 0;
    for o := 0 to |cells|
      invariant total == TotalDistance(target, cells[..o])
    {
      assert cells[..o + 1][..o] == cells[..o];
      total := total + Manhattan(cells[o], target);
    }
    assert cells[..|cells|] == cells;
  }

  /** A cell's danger: the mean distance of the opponents from it. */
  function Danger(likely: seq<Cell>, target: Cell): real
    requires |likely| > 0
  {
    (TotalDistance(target, likely) as real) / (|likely| as real)
  }

  /** The distance from `myPosition` to each cell, `distance` in the original. */
  function Distances(myPosition: Cell, cells: seq<Cell>): (r: seq<nat>)
    ensures |r| == |cells| && forall i :: 0 <= i < |cells| ==> r[i] == Manhattan(myPosition, cells[i])
  {
    seq(|cells|, i requires 0 <= i < |cells| => Manhattan(myPosition, cells[i]))
  }

  /** The danger of each cell, `dangers` in the original. */
  function Dangers(likely: seq<Cell>, cells: seq<Cell>): (r: seq<real>)
    requires |likely| > 0
    ensures |r| == |cells| && forall i :: 0 <= i < |cells| ==> r[i] == Danger(likely, cells[i])
  {
    seq(|cells|, i requires 0 <= i < |cells| => Danger(likely, cells[i]))
  }

  /** Each cell's retreat value, distance over danger, or None when its danger is not positive. */
  function Ratios(distance: seq<nat>, dangers: seq<real>): (r: seq<Option<real>>)
    requires |distance| == |dangers|
    ensures |r| == |distance|
    ensures forall i :: 0 <= i < |distance| ==>
      r[i] == if dangers[i] > 0.0 then Some((distance[i] as real) / dangers[i]) else None
  {
    seq(|distance|, i requires 0 <= i < |distance| =>
      if dangers[i] > 0.0 then Some((distance[i] as real) / dangers[i]) else None)
  }

  /**
   * The position the retreat scan settles on: the first value strictly below
   * every earlier one and below `cap`, or -1 when no value is below `cap`.
   */
  function FirstBest(s: seq<Option<real>>, cap: real): (b: int)
    ensures -1 <= b < |s|
    ensures b == -1 <==> forall i :: 0 <= i < |s| && s[i].Some? ==> s[i].value >= cap
    ensures b != -1 ==>
      && s[b].Some? && s[b].value < cap
      && (forall i :: 0 <= i < |s| && s[i].Some? ==> s[b].value <= s[i].value)
      && (forall i :: 0 <= i < b && s[i].Some? ==> s[b].value < s[i].value)
    decreases |s|
  {
    if s == [] then -1
    else
      var b := FirstBest(s[..|s| - 1], cap);
      var best := if b == -1 then cap else s[b].value;
      var last := s[|s| - 1];
      if last.Some? && last.value < best then |s| - 1 else b
  }

  /**
   * The goal of `retreatBehaviour`: the viable cell of least distance over danger,
   * the first among equals, or the last viable cell when none qualifies; no cell
   * when the column has none.
   */
  function RetreatGoal(board: Board, myPosition: Cell, likely: seq<Cell>): (r: Option<Cell>)
    requires |likely| > 0
    ensures r.None? <==> Viable(board) == []
    ensures r.Some? ==> r.value in Viable(board)
    ensures r.Some? ==>
      var viable := Viable(board);
      var b := FirstBest(Ratios(Distances(myPosition, viable), Dangers(likely, viable)), RetreatCap);
      r.value == viable[if b == -1 then |viable| - 1 else b]
  {
    var viable := Viable(board);
    if viable == [] then None
    else
      var b := FirstBest(Ratios(Distances(myPosition, viable), Dangers(likely, viable)), RetreatCap);
      Some(viable[if b == -1 then |viable| - 1 else b])
  }

  /** Proof step for `BestRoute`: a non-negative distance over a positive danger is non-negative. */
  lemma RatioNonNegative(a: real, b: real)
    requires 0.0 <= a && 0.0 < b
    ensures 0.0 <= a / b
  {
  }

  /** `retreatBehaviour`: compute every viable cell's danger, then scan for the best value. */
  method Retreat(board: Board, myPosition: Cell, likely: seq<Cell>) returns (goal: Option<Cell>)
    requires |likely| > 0
    ensures goal == RetreatGoal(board, myPosition, likely)
  {
    var viable := Viable(board);
    var distance := Distances(myPosition, viable);
    var dangers := DangerScan(likely, viable);
    var bestRetreatRoute := BestRoute(distance, dangers);
    if viable == [] {
      return None;
    }
    goal := Some(viable[if bestRetreatRoute == -1 then |viable| - 1 else bestRetreatRoute]);
  }

  /** The danger loop of `retreatBehaviour`: the mean opponent distance of each cell, in order. */
  method DangerScan(likely: seq<Cell>, viable: seq<Cell>) returns (dangers: seq<real>)
    requires |likely| > 0
    ensures dangers == Dangers(likely, viable)
  {
    dangers := [];
    for t := 0 to |viable|
      invariant |dangers| == t
      invariant forall j :: 0 <= j < t ==> dangers[j] == Danger(likely, viable[j])
    {
      var danger := SumDistances(viable[t], likely);
      dangers := dangers + [(danger as real) / (|likely| as real)];
    }
  }

  /** The scan result is the only position meeting `FirstBest`'s description. */
  lemma FirstBestUnique(s: seq<Option<real>>, cap: real, b: int)
    requires -1 <= b < |s|
    requires b == -1 <==> forall i :: 0 <= i < |s| && s[i].Some? ==> s[i].value >= cap
    requires b != -1 ==>
      && s[b].Some? && s[b].value < cap
      && (forall i :: 0 <= i < |s| && s[i].Some? ==> s[b].value <= s[i].value)
      && (forall i :: 0 <= i < b && s[i].Some? ==> s[b].value < s[i].value)
    ensures FirstBest(s, cap) == b
  {
  }

  /** The selection loop of `retreatBehaviour`: the running best distance over positive danger. */
  method BestRoute(distance: seq<nat>, dangers: seq<real>) returns (bestRetreatRoute: int)
    requires |distance| == |dangers|
    ensures bestRetreatRoute == FirstBest(Ratios(distance, dangers), RetreatCap)
  {
    ghost var values := Ratios(distance, dangers);
    bestRetreatRoute := -1;
    var bestRetreatValue := RetreatCap;
    for idx := 0 to |distance|
      invariant -1 <= bestRetreatRoute < idx
      invariant bestRetreatRoute == -1 ==>
        && bestRetreatValue == RetreatCap
        && forall i :: 0 <= i < idx && values[i].Some? ==> values[i].value >= RetreatCap
      invariant bestRetreatRoute != -1 ==>
        && values[bestRetreatRoute].Some? && bestRetreatValue == values[bestRetreatRoute].value < RetreatCap
        && (forall i :: 0 <= i < idx && values[i].Some? ==> bestRetreatValue <= values[i].value)
        && (forall i :: 0 <= i < bestRetreatRoute && values[i].Some? ==> bestRetreatValue < values[i].value)
      invariant bestRetreatValue >= 0.0
    {
      if dangers[idx] > 0.0 {
        var value := (distance[idx] as real) / dangers[idx];
        RatioNonNegative(distance[idx] as real, dangers[idx]);
        if value < bestRetreatValue || bestRetreatValue == -1.0 {
          bestRetreatRoute := idx;
          bestRetreatValue := value;
        }
      }
    }
    FirstBestUnique(values, RetreatCap, bestRetreatRoute);
  }

  /** How safe a food cell is: its summed distance from the opponents. */
  function Safeness(likely: seq<Cell>): Cell -> int
  {
    (food: Cell) => TotalDistance(food, likely)
  }

  /**
   * The goal of `incursionBehaviour`: no cell exactly when there is no opponent
   * food, otherwise the first food cell of greatest summed distance from the
   * opponents.
   */
  function IncursionGoal(foods: seq<Cell>, likely: seq<Cell>): (r: Option<Cell>)
    ensures r.None? <==> foods == []
    ensures r.Some? ==> r.value in foods
    ensures r.Some? ==> forall f :: f in foods ==> TotalDistance(f, likely) <= TotalDistance(r.value, likely)
    ensures r.Some? ==> exists i :: 0 <= i < |foods| && foods[i] == r.value &&
                                    (forall j :: 0 <= j < i ==> TotalDistance(foods[j], likely) < TotalDistance(r.value, likely))
  {
    if foods == [] then None else
      var k := ArgMaxBy(foods, Safeness(likely));
      Some(foods[k])
  }

  /** `incursionBehaviour`: scan the food, keeping the strictly safest one seen so far. */
  method Incursion(foods: seq<Cell>, likely: seq<Cell>) returns (safestFood: Option<Cell>)
    ensures safestFood == IncursionGoal(foods, likely)
  {
    safestFood := None;
    var safestFoodSafeness := 0;
    ghost var k := 0;
    for i := 0 to |foods|
      invariant safestFood.None? <==> i == 0
      invariant i > 0 ==>
        && 0 <= k < i && safestFood == Some(foods[k]) && safestFoodSafeness == TotalDistance(foods[k], likely)
        && (forall j :: 0 <= j < i ==> TotalDistance(foods[j], likely) <= safestFoodSafeness)
        && (forall j :: 0 <= j < k ==> TotalDistance(foods[j], likely) < safestFoodSafeness)
    {
      var food := foods[i];
      var safeness := SumDistances(food, likely);
      if safeness > safestFoodSafeness || safestFood == None {
        safestFood := Some(food);
        safestFoodSafeness := safeness;
        k := i;
      }
    }
    if foods != [] {
      ArgMaxUnique(foods, Safeness(likely), k);
    }
  }

  /**
   * The goal of `scaredBehaviour`: the retreat goal when some opponent is closer
   * than `Threat`, otherwise no cell.
   */
  function ScaredGoal(sit: Situation): (r: Result<Option<Cell>, Fault>)
    requires |sit.likely| > 0
    ensures (forall i :: 0 <= i < |sit.likely| ==> Manhattan(sit.myPosition, sit.likely[i]) >= Threat) ==> r == Ok(None)
    ensures (exists i :: 0 <= i < |sit.likely| && Manhattan(sit.myPosition, sit.likely[i]) < Threat) ==>
      r == match RetreatGoal(sit.board, sit.myPosition, sit.likely)
           case None => Err(NoViableCell)
           case Some(c) => Ok(Some(c))
  {
    if exists i :: 0 <= i < |sit.likely| && Manhattan(sit.myPosition, sit.likely[i]) < Threat then
      match RetreatGoal(sit.board, sit.myPosition, sit.likely)
      case None => Err(NoViableCell)
      case Some(c) => Ok(Some(c))
    else Ok(None)
  }

  /** `scaredBehaviour`: look for an opponent within `Threat` and retreat from the first one found. */
  method Scared(sit: Situation) returns (r: Result<Option<Cell>, Fault>)
    requires |sit.likely| > 0
    ensures r == ScaredGoal(sit)
  {
    for i := 0 to |sit.likely|
      invariant forall j :: 0 <= j < i ==> Manhattan(sit.myPosition, sit.likely[j]) >= Threat
    {
      if Manhattan(sit.myPosition, sit.likely[i]) < Threat {
        var goal := Retreat(sit.board, sit.myPosition, sit.likely);
        return if goal.None? then Err(NoViableCell) else Ok(Some(goal.value));
      }
    }
    return Ok(None);
  }

  /**
   * The goal of `heroBehaviour`: the nearest opponent capsule while there is one,
   * otherwise the scared goal.
   */
  function HeroGoal(sit: Situation): (r: Result<Option<Cell>, Fault>)
    requires |sit.likely| > 0
    ensures sit.capsules != [] ==>
      && r.Ok? && r.value.Some? && r.value.value in sit.capsules
      && forall c :: c in sit.capsules ==> Manhattan(sit.myPosition, r.value.value) <= Manhattan(sit.myPosition, c)
    ensures sit.capsules == [] ==> r == ScaredGoal(sit)
  {
    if |sit.capsules| > 0 then Ok(Some(NearestPosition(sit.myPosition, sit.capsules))) else ScaredGoal(sit)
  }

  /** The goal of a behaviour in a situation: a cell, no cell, or the failure the original raises. */
  function GoalOf(b: Behaviour, sit: Situation): Result<Option<Cell>, Fault>
    requires |sit.likely| > 0
  {
    match b
    case PatrolBehaviour => Ok(Some(Patrol(sit.patrolDraw)))
    case DefensiveBehaviour => Defensive(sit)
    case RetreatBehaviour =>
      (match RetreatGoal(sit.board, sit.myPosition, sit.likely)
       case None => Err(NoViableCell)
       case Some(c) => Ok(Some(c)))
    case IncursionBehaviour => Ok(IncursionGoal(sit.foods, sit.likely))
    case HeroBehaviour => HeroGoal(sit)
  }

  /** Which behaviours may leave the agent without a goal: only incursion and the scared branch of hero. */
  lemma OnlyIncursionAndHeroGiveUp(b: Behaviour, sit: Situation)
    requires |sit.likely| > 0
    ensures GoalOf(b, sit) == Ok(None) ==>
      || (b == IncursionBehaviour && sit.foods == [])
      || (b == HeroBehaviour && sit.capsules == []
          && forall i :: 0 <= i < |sit.likely| ==> Manhattan(sit.myPosition, sit.likely[i]) >= Threat)
  {
  }

  /** Following a behaviour: run the scans of the chosen behaviour. */
  method Pursue(b: Behaviour, sit: Situation) returns (r: Result<Option<Cell>, Fault>)
    requires |sit.likely| > 0
    ensures r == GoalOf(b, sit)
  {
    match b
    case PatrolBehaviour =>
      r := Ok(Some(Patrol(sit.patrolDraw)));
    case DefensiveBehaviour =>
      r := Defend(sit);
    case RetreatBehaviour =>
      var goal := Retreat(sit.board, sit.myPosition, sit.likely);
      r := if goal.None? then Err(NoViableCell) else Ok(Some(goal.value));
    case IncursionBehaviour =>
      var goal := Incursion(sit.foods, sit.likely);
      r := Ok(goal);
    case HeroBehaviour =>
      if |sit.capsules| > 0 {
        r := Ok(Some(NearestPosition(sit.myPosition, sit.capsules)));
      } else {
        r := Scared(sit);
      }
  }

  /** `defensiveBehaviour`, running the nearest-enemy scan. */
  method Defend(sit: Situation) returns (r: Result<Option<Cell>, Fault>)
    ensures r == Defensive(sit)
  {
    var _, nearby := NearestEnemyTo(sit.myPosition, sit.likely);
    if nearby.None? {
      return Err(NoEnemy);
    }
    if nearby.value.0 > HomeLine {
      return Ok(Some(nearby.value));
    }
    return Ok(Some(Patrol(sit.patrolDraw)));
  }
}
