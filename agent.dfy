/**
 * One agent of the team: a belief filter per opponent, the shared mailbox, and
 * the state and behaviour `chooseAction` updates every turn.
 */
module Agents {
  import opened Wrappers
  import opened Geometry
  import opened BeliefFilters
  import opened Planning
  import opened Communication
  import opened Events
  import opened Arbitration
  import B = Behaviours

  /** A belief grid over `board`: one non-negative weight per cell, summing to 1. */
  predicate Grid(board: Board, s: seq<real>)
  {
    board.width > 0 && board.height > 0 && |s| == board.Area() && NonNegative(s) && Sum(s) == 1.0
  }

  /** The grids of a non-empty list of filters over `board`. */
  predicate Distributions(board: Board, bs: seq<seq<real>>)
  {
    |bs| > 0 && forall i :: 0 <= i < |bs| ==> Grid(board, bs[i])
  }

  /** The most likely cell of every grid, in order. */
  function LikelyOf(board: Board, bs: seq<seq<real>>): (r: seq<Cell>)
    requires Distributions(board, bs)
    ensures |r| == |bs|
    ensures forall i :: 0 <= i < |bs| ==> r[i] == board.CellAt(ArgMax(bs[i]))
  {
    seq(|bs|, i requires 0 <= i < |bs| => board.CellAt(ArgMax(bs[i])))
  }

  /**
   * `add_evidence(c, value)` on a grid: the grid with one cell set to `value`,
   * normalised. It is a grid again, the cell is zero exactly when `value` is,
   * other zero cells stay zero, and a value of 1 makes the cell maximal.
   */
  function WithEvidence(board: Board, s: seq<real>, c: Cell, value: real): (r: seq<real>)
    requires Grid(board, s) && board.InBounds(c)
    requires 0.0 <= value && (value > 0.0 || s[board.Index(c)] < 1.0)
    ensures Grid(board, r)
    ensures r[board.Index(c)] == 0.0 <==> value == 0.0
    ensures forall d :: board.InBounds(d) && (d != c || value == 0.0) && s[board.Index(d)] == 0.0 ==> r[board.Index(d)] == 0.0
    ensures value == 1.0 ==> forall d :: board.InBounds(d) ==> r[board.Index(d)] <= r[board.Index(c)]
  {
    EvidenceSetsWeight(board, s, c, value);
    Normalized(s[board.Index(c) := value])
  }

  /**
   * The opponent `nearest_enemy_to` blames for an eaten cell: the first one whose
   * most likely cell is nearest, or the last one (index -1 in the original) when
   * none is nearer than `FarAway`.
   */
  function CulpritOf(likely: seq<Cell>, food: Cell): (k: nat)
    requires |likely| > 0
    ensures k < |likely|
    ensures k == |likely| - 1 || B.NearestEnemy(food, likely) == (k, Some(likely[k]))
    ensures B.NearestEnemy(food, likely).0 == -1 ==> k == |likely| - 1
    ensures B.NearestEnemy(food, likely).0 != -1 ==> k == B.NearestEnemy(food, likely).0
  {
    var (i, _) := B.NearestEnemy(food, likely);
    if i == -1 then |likely| - 1 else i
  }

  /** One pass of the first loop of `update_beliefs`: the eaten cell pins the culprit's grid. */
  function BlameOne(board: Board, bs: seq<seq<real>>, food: Cell): (r: seq<seq<real>>)
    requires Distributions(board, bs) && board.Open(food)
    ensures Distributions(board, r) && |r| == |bs|
    ensures var k := CulpritOf(LikelyOf(board, bs), food);
      && r[k] == WithEvidence(board, bs[k], food, 1.0)
      && forall j :: 0 <= j < |bs| && j != k ==> r[j] == bs[j]
  {
    var k := CulpritOf(LikelyOf(board, bs), food);
    bs[k := WithEvidence(board, bs[k], food, 1.0)]
  }

  /** The first loop of `update_beliefs`: every eaten cell in turn, in the order given. */
  function Blamed(board: Board, bs: seq<seq<real>>, eaten: seq<Cell>): (r: seq<seq<real>>)
    requires Distributions(board, bs) && forall c :: c in eaten ==> board.Open(c)
    ensures Distributions(board, r) && |r| == |bs|
    decreases |eaten|
  {
    if eaten == [] then bs
    else BlameOne(board, Blamed(board, bs, eaten[..|eaten| - 1]), eaten[|eaten| - 1])
  }

  /** `s` lists every cell of `cells` exactly once, in some order: a set as the host hands it over. */
  ghost predicate Lists(s: seq<Cell>, cells: set<Cell>)
  {
    && (forall c :: c in s <==> c in cells)
    && (forall i, j :: 0 <= i < j < |s| ==> s[i] != s[j])
  }

  /** Where the agent stands is on the board, and an opponent, if seen, was seen on an open cell. */
  predicate InSight(board: Board, sighting: Option<Cell>, myPosition: Cell)
  {
    board.InBounds(myPosition) && (sighting.Some? ==> board.Open(sighting.value))
  }

  /**
   * The second loop of `update_beliefs` for one opponent: a sighting pins its
   * cell; otherwise the agent's own cell is cleared and time passes. No grid
   * where the original would divide by zero.
   */
  function Sighted(board: Board, s: seq<real>, sighting: Option<Cell>, myPosition: Cell): (r: Option<seq<real>>)
    requires Grid(board, s) && InSight(board, sighting, myPosition)
    ensures r.Some? ==> Grid(board, r.value)
    ensures sighting.Some? ==> r == Some(WithEvidence(board, s, sighting.value, 1.0))
    ensures sighting.None? && r.Some? ==> r.value[board.Index(myPosition)] == 0.0
    ensures sighting.None? && r.Some? ==>
      forall d :: board.InBounds(d) && s[board.Index(d)] == 0.0 ==> r.value[board.Index(d)] == 0.0
    ensures sighting.None? ==> (r.None? <==>
      || s[board.Index(myPosition)] >= 1.0
      || !Movable(board, WithEvidence(board, s, myPosition, 0.0))
      || Sum(Gathered(board, WithEvidence(board, s, myPosition, 0.0))) <= 0.0)
  {
    match sighting
    case Some(p) => Some(WithEvidence(board, s, p, 1.0))
    case None =>
      if s[board.Index(myPosition)] >= 1.0 then None
      else
        var t := WithEvidence(board, s, myPosition, 0.0);
        if !Movable(board, t) || Sum(Gathered(board, t)) <= 0.0 then None
        else
          GatheredNonNegative(board, t);
          NormalizedIsDistribution(Gathered(board, t));
          NormalizedZeros(Gathered(board, t));
          Some(Normalized(Gathered(board, t)))
  }

  /** Every opponent's sighting, if any, is on the board, and so is the agent. */
  predicate Sightings(board: Board, observed: seq<Option<Cell>>, myPosition: Cell)
  {
    forall i :: 0 <= i < |observed| ==> InSight(board, observed[i], myPosition)
  }

  /** The second loop of `update_beliefs` over every opponent; no grids when any one of them fails. */
  function Observed(board: Board, bs: seq<seq<real>>, observed: seq<Option<Cell>>, myPosition: Cell): (r: Option<seq<seq<real>>>)
    requires Distributions(board, bs) && |observed| == |bs| && Sightings(board, observed, myPosition)
    ensures r.Some? <==> forall i :: 0 <= i < |bs| ==> Sighted(board, bs[i], observed[i], myPosition).Some?
    ensures r.Some? ==> Distributions(board, r.value) && |r.value| == |bs|
    ensures r.Some? ==> forall i :: 0 <= i < |bs| ==> r.value[i] == Sighted(board, bs[i], observed[i], myPosition).value
  {
    if forall i :: 0 <= i < |bs| ==> Sighted(board, bs[i], observed[i], myPosition).Some? then
      Some(seq(|bs|, i requires 0 <= i < |bs| => Sighted(board, bs[i], observed[i], myPosition).value))
    else None
  }

  /** `update_beliefs`: blame the eaten cells, then take every opponent's sighting into account. */
  function Updated(board: Board, bs: seq<seq<real>>, eaten: seq<Cell>, observed: seq<Option<Cell>>, myPosition: Cell): (r: Option<seq<seq<real>>>)
    requires Distributions(board, bs) && |observed| == |bs| && Sightings(board, observed, myPosition)
    requires forall c :: c in eaten ==> board.Open(c)
    ensures r.Some? ==> Distributions(board, r.value) && |r.value| == |bs|
    ensures (forall i :: 0 <= i < |observed| ==> observed[i].Some?) ==> r.Some?
  {
    Observed(board, Blamed(board, bs, eaten), observed, myPosition)
  }

  /** One more eaten cell blamed on top of the cells before it. */
  lemma BlamedStep(board: Board, bs: seq<seq<real>>, eaten: seq<Cell>, n: nat)
    requires Distributions(board, bs) && n < |eaten| && forall c :: c in eaten ==> board.Open(c)
    ensures BlameOne(board, Blamed(board, bs, eaten[..n]), eaten[n]) == Blamed(board, bs, eaten[..n + 1])
  {
    var prefix := eaten[..n + 1];
    assert prefix[..|prefix| - 1] == eaten[..n];
  }

  /** The grids `bs` after the sightings of the first `k` opponents were taken into account in `blamed`. */
  predicate SightedUpTo(board: Board, bs: seq<seq<real>>, blamed: seq<seq<real>>, observed: seq<Option<Cell>>, myPosition: Cell, k: nat)
    requires Distributions(board, blamed) && |observed| == |blamed| && Sightings(board, observed, myPosition)
  {
    && |bs| == |blamed| && k <= |bs|
    && (forall i :: k <= i < |bs| ==> bs[i] == blamed[i])
    && (forall i :: 0 <= i < k ==>
          Sighted(board, blamed[i], observed[i], myPosition).Some?
          && bs[i] == Sighted(board, blamed[i], observed[i], myPosition).value)
  }

  lemma SightedStep(board: Board, before: seq<seq<real>>, after: seq<seq<real>>, blamed: seq<seq<real>>,
                    observed: seq<Option<Cell>>, myPosition: Cell, k: nat)
    requires Distributions(board, blamed) && |observed| == |blamed| && Sightings(board, observed, myPosition)
    requires SightedUpTo(board, before, blamed, observed, myPosition, k) && k < |before|
    requires Sighted(board, blamed[k], observed[k], myPosition).Some?
    requires after == before[k := Sighted(board, blamed[k], observed[k], myPosition).value]
    ensures SightedUpTo(board, after, blamed, observed, myPosition, k + 1)
  {
  }

  lemma SightFails(board: Board, before: seq<seq<real>>, blamed: seq<seq<real>>,
                   observed: seq<Option<Cell>>, myPosition: Cell, k: nat)
    requires Distributions(board, blamed) && |observed| == |blamed| && Sightings(board, observed, myPosition)
    requires SightedUpTo(board, before, blamed, observed, myPosition, k) && k < |before|
    requires Sighted(board, blamed[k], observed[k], myPosition).None?
    ensures Observed(board, blamed, observed, myPosition).None?
  {
  }

  lemma SightedAll(board: Board, bs: seq<seq<real>>, blamed: seq<seq<real>>, observed: seq<Option<Cell>>, myPosition: Cell)
    requires Distributions(board, blamed) && |observed| == |blamed| && Sightings(board, observed, myPosition)
    requires SightedUpTo(board, bs, blamed, observed, myPosition, |blamed|)
    ensures Observed(board, blamed, observed, myPosition) == Some(bs)
  {
    assert Observed(board, blamed, observed, myPosition).value == bs;
  }

  /**
   * The cell the agent heads for this turn: its behaviour's goal, or the
   * defensive goal when the behaviour gives none.
   */
  function Aim(b: B.Behaviour, sit: B.Situation): (r: Result<Cell, B.Fault>)
    requires |sit.likely| > 0
    ensures B.GoalOf(b, sit).Ok? && B.GoalOf(b, sit).value.Some? ==> r == Ok(B.GoalOf(b, sit).value.value)
    ensures B.GoalOf(b, sit) == Ok(None) ==>
      (r.Ok? <==> B.Defensive(sit).Ok?) && (r.Ok? ==> B.Defensive(sit) == Ok(Some(r.value)))
    ensures B.GoalOf(b, sit).Err? ==> r == Err(B.GoalOf(b, sit).error)
    ensures r.Err? ==> r.error == B.NoEnemy || r.error == B.NoViableCell
  {
    match B.GoalOf(b, sit)
    case Err(e) => Err(e)
    case Ok(Some(g)) => Ok(g)
    case Ok(None) =>
      match B.Defensive(sit)
      case Err(e) => Err(e)
      case Ok(g) => Ok(g.value)
  }

  /**
   * What the end of `chooseAction` achieves: an error when the behaviour has no
   * goal, `NoPlan` when the goal cannot be reached, and otherwise a move that
   * stays put exactly when the agent already stands on the goal, is one legal
   * step when it does not, and leaves the goal reachable.
   */
  ghost predicate Acted(b: B.Behaviour, sit: B.Situation, r: Result<(int, int), B.Fault>)
    requires |sit.likely| > 0
  {
    Moved(sit, Aim(b, sit), r)
  }

  /** The move `chooseAction` makes towards an already chosen goal, or the error in its place. */
  ghost predicate Moved(sit: B.Situation, goal: Result<Cell, B.Fault>, r: Result<(int, int), B.Fault>)
  {
    match goal
    case Err(e) => r == Err(e)
    case Ok(g) =>
      if !Reachable(sit.board, sit.myPosition, g) then r == Err(B.NoPlan)
      else
        && r.Ok?
        && var next := (sit.myPosition.0 + r.value.0, sit.myPosition.1 + r.value.1);
        && (r.value == (0, 0) <==> g == sit.myPosition)
        && (g != sit.myPosition ==> sit.board.Step(sit.myPosition, next))
        && Reachable(sit.board, next, g)
  }

  /**
   * The end of `chooseAction`: the behaviour's goal, or the defensive goal when it
   * gives none, then an A* plan to it and the plan's first move.
   */
  method Act(b: B.Behaviour, sit: B.Situation) returns (r: Result<(int, int), B.Fault>)
    requires |sit.likely| > 0 && sit.board.InBounds(sit.myPosition)
    ensures Acted(b, sit, r)
  {
    var goal := Target(b, sit);
    r := Move(sit, goal);
  }

  /** The last lines of `chooseAction`: an A* plan to the goal and the plan's first move. */
  method Move(sit: B.Situation, goal: Result<Cell, B.Fault>) returns (r: Result<(int, int), B.Fault>)
    requires sit.board.InBounds(sit.myPosition)
    ensures Moved(sit, goal, r)
  {
    if goal.Err? {
      return Err(goal.error);
    }
    var g := goal.value;
    var plan, _ := MakePlan(sit.board, sit.myPosition, g, (a, c) => Manhattan(a, c));
    if plan.None? {
      return Err(B.NoPlan);
    }
    FollowPlanMoves(sit.board, sit.myPosition, plan.value);
    FollowPlanReaches(sit.board, sit.myPosition, plan.value);
    r := Ok(FollowPlan(sit.myPosition, plan.value));
  }

  /** The goal lines of `chooseAction`: the behaviour's goal, and the defensive goal when it gives none. */
  method Target(b: B.Behaviour, sit: B.Situation) returns (r: Result<Cell, B.Fault>)
    requires |sit.likely| > 0
    ensures r == Aim(b, sit)
  {
    var goal := B.Pursue(b, sit);
    if goal == Ok(None) {
      goal := B.Defend(sit);
    }
    if goal.Err? {
      return Err(goal.error);
    }
    return Ok(goal.value.value);
  }

  class Agent {
    const index: int
    const red: bool
    const board: Board
    const filters: seq<BeliefFilter>
    const bus: Bus
    var state: State
    var currentBehaviour: Option<B.Behaviour>

    /** The filters and their belief arrays. */
    ghost var Repr: set<object>

    /**
     * One valid filter per opponent over the agent's board, zero on every wall,
     * no two sharing an object or an array.
     */
    ghost predicate Valid()
      reads this`Repr, Repr
    {
      && |filters| > 0 && board.width > 0 && board.height > 0
      && (forall i :: 0 <= i < |filters| ==>
            && filters[i] in Repr && filters[i].belief in Repr
            && filters[i].board == board && filters[i].Valid() && filters[i].WallsZero())
      && (forall i, j :: 0 <= i < |filters| && 0 <= j < |filters| && i != j ==>
            filters[i] != filters[j] && filters[i].belief != filters[j].belief)
    }

    /** The filters' grids, in opponent order. */
    ghost function Beliefs(): (r: seq<seq<real>>)
      reads this`Repr, Repr
      requires Valid()
      ensures Distributions(board, r) && |r| == |filters|
      ensures forall i :: 0 <= i < |filters| ==> r[i] == filters[i].belief[..]
    {
      var fs, repr := filters, Repr;
      seq(|fs|, i reads repr requires 0 <= i < |fs| && fs[i] in repr && fs[i].belief in repr => fs[i].belief[..])
    }

    /** `registerInitialState`: a fresh uniform filter per opponent, in the start state with no behaviour. */
    constructor (index: int, red: bool, board: Board, bus: Bus, opponents: nat)
      requires opponents > 0 && board.width > 0 && board.height > 0
      requires forall c :: c in board.walls ==> board.InBounds(c)
      requires exists c :: board.Open(c)
      ensures Valid() && |filters| == opponents
      ensures this.index == index && this.red == red && this.board == board && this.bus == bus
      ensures state == Start && currentBehaviour == None
      ensures forall i :: 0 <= i < opponents ==> filters[i].Uniform()
      ensures forall i :: 0 <= i < opponents ==> fresh(filters[i]) && fresh(filters[i].belief)
      ensures bus !in Repr && this !in Repr
    {
      var fs: seq<BeliefFilter> := [];
      ghost var repr: set<object> := {};
      for n := 0 to opponents
        invariant |fs| == n
        invariant forall i :: 0 <= i < n ==> fs[i] in repr && fs[i].belief in repr
        invariant bus !in repr && forall o :: o in repr ==> o is BeliefFilter || o is array<real>
        invariant forall i :: 0 <= i < n ==> fresh(fs[i]) && fresh(fs[i].belief)
        invariant forall i :: 0 <= i < n ==> fs[i].board == board && fs[i].Valid() && fs[i].WallsZero()
        invariant forall i :: 0 <= i < n ==> fs[i].Uniform()
        invariant forall i, j :: 0 <= i < n && 0 <= j < n && i != j ==> fs[i] != fs[j] && fs[i].belief != fs[j].belief
      {
        var f := new BeliefFilter(board);
        fs := fs + [f];
        repr := repr + {f, f.belief};
      }
      this.index, this.red, this.board, this.bus, this.filters := index, red, board, bus, fs;
      Repr := repr;
      state, currentBehaviour := Start, None;
    }

    /** `most_likely` of every filter, in opponent order. */
    function Likely(): (r: seq<Cell>)
      reads this`Repr, Repr
      requires Valid()
      ensures r == LikelyOf(board, Beliefs())
    {
      var fs, repr := filters, Repr;
      seq(|fs|, i reads repr requires 0 <= i < |fs| && fs[i] in repr && fs[i].belief in repr
                  && fs[i].Valid() => fs[i].MostLikely())
    }

    /** `add_evidence` on filter `k`, at an open cell unless it clears it; every other filter is left as it was. */
    method Evidence(k: nat, c: Cell, value: real)
      requires Valid() && k < |filters| && board.InBounds(c) && (value == 0.0 || board.Open(c))
      requires 0.0 <= value && (value > 0.0 || Beliefs()[k][board.Index(c)] < 1.0)
      modifies this`Repr, filters[k], filters[k].belief
      ensures Valid() && fresh(Repr - old(Repr))
      ensures Beliefs() == old(Beliefs())[k := WithEvidence(board, old(Beliefs())[k], c, value)]
    {
      filters[k].AddEvidence(c, value);
      Repr := Repr + {filters[k].belief};
    }

    /** `time_passes` on filter `k`; every other filter is left as it was. */
    method Passes(k: nat)
      requires Valid() && k < |filters|
      requires Movable(board, Beliefs()[k]) && Sum(Gathered(board, Beliefs()[k])) > 0.0
      modifies this`Repr, filters[k]
      ensures Valid() && fresh(Repr - old(Repr))
      ensures Beliefs() == old(Beliefs())[k := Normalized(Gathered(board, old(Beliefs())[k]))]
    {
      filters[k].TimePasses();
      Repr := Repr + {filters[k].belief};
    }

    /** One pass of the first loop of `update_beliefs`: pin the eaten cell on the nearest opponent's filter. */
    method Blame(food: Cell)
      requires Valid() && board.Open(food)
      modifies this`Repr, Repr
      ensures Valid() && fresh(Repr - old(Repr))
      ensures Beliefs() == BlameOne(board, old(Beliefs()), food)
    {
      var culprit := CulpritOf(Likely(), food);
      Evidence(culprit, food, 1.0);
    }

    /** One pass of the second loop of `update_beliefs`: the sighting of opponent `k`, or its absence. */
    method Sight(k: nat, sighting: Option<Cell>, myPosition: Cell) returns (ok: bool)
      requires Valid() && k < |filters| && InSight(board, sighting, myPosition)
      modifies this`Repr, Repr
      ensures Valid() && fresh(Repr - old(Repr))
      ensures ok <==> Sighted(board, old(Beliefs())[k], sighting, myPosition).Some?
      ensures ok ==> Beliefs() == old(Beliefs())[k := Sighted(board, old(Beliefs())[k], sighting, myPosition).value]
    {
      if sighting.Some? {
        Evidence(k, sighting.value, 1.0);
        ok := true;
      } else {
        ok := Unseen(k, myPosition);
      }
    }

    /** An opponent out of sight: it is not on the agent's own cell, then time passes for it. */
    method Unseen(k: nat, myPosition: Cell) returns (ok: bool)
      requires Valid() && k < |filters| && board.InBounds(myPosition)
      modifies this`Repr, Repr
      ensures Valid() && fresh(Repr - old(Repr))
      ensures ok <==> Sighted(board, old(Beliefs())[k], None, myPosition).Some?
      ensures ok ==> Beliefs() == old(Beliefs())[k := Sighted(board, old(Beliefs())[k], None, myPosition).value]
    {
      if filters[k].Weight(myPosition) >= 1.0 {
        return false;
      }
      Evidence(k, myPosition, 0.0);
      var grid := filters[k].belief[..];
      if !Movable(board, grid) || Sum(Gathered(board, grid)) <= 0.0 {
        return false;
      }
      Passes(k);
      return true;
    }

    /**
     * `update_beliefs`: blame every eaten cell, in the order given, then take each
     * opponent's sighting into account. Fails where the original would divide by zero.
     */
    method UpdateBeliefs(eaten: seq<Cell>, observed: seq<Option<Cell>>, myPosition: Cell) returns (ok: bool)
      requires Valid() && |observed| == |filters| && Sightings(board, observed, myPosition)
      requires forall c :: c in eaten ==> board.Open(c)
      modifies this`Repr, Repr
      ensures Valid() && fresh(Repr - old(Repr))
      ensures ok <==> Updated(board, old(Beliefs()), eaten, observed, myPosition).Some?
      ensures ok ==> Beliefs() == Updated(board, old(Beliefs()), eaten, observed, myPosition).value
    {
      BlameAll(eaten);
      ok := SightAll(observed, myPosition);
    }

    /** The first loop of `update_beliefs`. */
    method BlameAll(eaten: seq<Cell>)
      requires Valid() && forall c :: c in eaten ==> board.Open(c)
      modifies this`Repr, Repr
      ensures Valid() && fresh(Repr - old(Repr))
      ensures Beliefs() == Blamed(board, old(Beliefs()), eaten)
    {
      ghost var start := Beliefs();
      for n := 0 to |eaten|
        invariant Valid() && fresh(Repr - old(Repr))
        invariant Beliefs() == Blamed(board, start, eaten[..n])
      {
        Blame(eaten[n]);
        BlamedStep(board, start, eaten, n);
      }
      assert eaten[..|eaten|] == eaten;
    }

    /** The second loop of `update_beliefs`, stopping at the first opponent whose update fails. */
    method SightAll(observed: seq<Option<Cell>>, myPosition: Cell) returns (ok: bool)
      requires Valid() && |observed| == |filters| && Sightings(board, observed, myPosition)
      modifies this`Repr, Repr
      ensures Valid() && fresh(Repr - old(Repr))
      ensures ok <==> Observed(board, old(Beliefs()), observed, myPosition).Some?
      ensures ok ==> Beliefs() == Observed(board, old(Beliefs()), observed, myPosition).value
    {
      ghost var blamed := Beliefs();
      for k := 0 to |filters|
        invariant Valid() && fresh(Repr - old(Repr))
        invariant SightedUpTo(board, Beliefs(), blamed, observed, myPosition, k)
      {
        ghost var before := Beliefs();
        ok := Sight(k, observed[k], myPosition);
        if !ok {
          SightFails(board, before, blamed, observed, myPosition, k);
          return;
        }
        SightedStep(board, before, Beliefs(), blamed, observed, myPosition, k);
      }
      SightedAll(board, Beliefs(), blamed, observed, myPosition);
      ok := true;
    }

    /** The `say` calls of one turn, in order. */
    method Announce(said: seq<string>)
      modifies bus
      ensures bus.messages == old(bus.messages) + Announced(said, index)
    {
      for n := 0 to |said|
        invariant bus.messages == old(bus.messages) + Announced(said[..n], index)
      {
        assert Announced(said[..n + 1], index) == Announced(said[..n], index) + [(said[n], index)];
        bus.Say(said[n], index);
      }
      assert said[..|said|] == said;
    }

    /** Enter the turn's state and behaviour, say what the turn says, then clear this agent's messages. */
    method Arbitrate(t: Turn)
      modifies this`state, this`currentBehaviour, bus
      ensures state == t.state && currentBehaviour == t.behaviour
      ensures bus.messages == Without(old(bus.messages), index)
    {
      Announce(t.said);
      bus.Clear(index);
      AnnouncedThenCleared(old(bus.messages), t.said, index);
      state, currentBehaviour := t.state, t.behaviour;
    }

    /**
     * `chooseAction`: update the beliefs, read the turn's events, step the state
     * machine, announce and clear this agent's messages, then move towards the goal
     * of the behaviour in force. `eaten` is the team's own food and capsules that
     * vanished since the previous observation, in the order the host's set yields them;
     * `foods` and `capsules` are the opponents' food and capsules in the current
     * observation, as `incursionBehaviour` and `heroBehaviour` read them.
     */
    method ChooseAction(before: Option<Observation>, now: Observation, eaten: seq<Cell>,
                        observed: seq<Option<Cell>>, myPosition: Cell,
                        foods: seq<Cell>, capsules: seq<Cell>, patrolDraw: bool, heroDraw: bool)
      returns (r: Result<(int, int), B.Fault>)
      requires Valid() && bus !in Repr && this !in Repr && board.InBounds(myPosition)
      requires |observed| == |filters| && Sightings(board, observed, myPosition)
      requires forall c :: c in eaten <==> c in FoodDisparity(before, now, red) + CapsuleDisparity(before, now, red)
      requires forall c :: c in eaten ==> board.Open(c)
      requires forall i, j :: 0 <= i < j < |eaten| ==> eaten[i] != eaten[j]
      requires Lists(foods, OpponentFood(now, red)) && Lists(capsules, OpponentCapsules(now, red))
      modifies this`state, this`currentBehaviour, this`Repr, Repr, bus
      ensures Valid() && fresh(Repr - old(Repr)) && bus !in Repr && this !in Repr
      ensures Updated(board, old(Beliefs()), eaten, observed, myPosition).None? ==>
        && r == Err(B.DegenerateBelief)
        && state == old(state) && currentBehaviour == old(currentBehaviour) && bus.messages == old(bus.messages)
      ensures Updated(board, old(Beliefs()), eaten, observed, myPosition).Some? ==>
        var t := Step(old(state), old(currentBehaviour), index, EnvEvents(before, now, myPosition), myPosition, heroDraw);
        && Beliefs() == Updated(board, old(Beliefs()), eaten, observed, myPosition).value
        && state == t.state && currentBehaviour == t.behaviour
        && bus.messages == Without(old(bus.messages), index)
        && (t.behaviour.None? ==> r == Err(B.NoBehaviour))
        && (t.behaviour.Some? ==>
              Acted(t.behaviour.value, B.Situation(board, myPosition, LikelyOf(board, Beliefs()), foods, capsules, patrolDraw), r))
    {
      var st, bh := state, currentBehaviour;
      var ok := UpdateBeliefs(eaten, observed, myPosition);
      if !ok {
        return Err(B.DegenerateBelief);
      }
      var t := Step(st, bh, index, EnvEvents(before, now, myPosition), myPosition, heroDraw);
      r := Deliberate(t, myPosition, foods, capsules, patrolDraw);
    }

    /** The second half of `chooseAction`, once the beliefs are updated: enter the turn, then move. */
    method Deliberate(t: Turn, myPosition: Cell, foods: seq<Cell>, capsules: seq<Cell>, patrolDraw: bool)
      returns (r: Result<(int, int), B.Fault>)
      requires Valid() && this !in Repr && bus !in Repr && board.InBounds(myPosition)
      modifies this`state, this`currentBehaviour, bus
      ensures state == t.state && currentBehaviour == t.behaviour
      ensures bus.messages == Without(old(bus.messages), index)
      ensures t.behaviour.None? ==> r == Err(B.NoBehaviour)
      ensures t.behaviour.Some? ==>
        Acted(t.behaviour.value, B.Situation(board, myPosition, LikelyOf(board, Beliefs()), foods, capsules, patrolDraw), r)
    {
      var sit := B.Situation(board, myPosition, Likely(), foods, capsules, patrolDraw);
      Arbitrate(t);
      if t.behaviour.None? {
        return Err(B.NoBehaviour);
      }
      r := Act(t.behaviour.value, sit);
    }
  }
}
