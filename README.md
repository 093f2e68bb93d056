# Gluttony capture team, modelled in Dafny

This project models the decision logic of "Gluttony", a two-agent team for the
capture variant of the Pacman game. The model covers:

- the per-opponent **belief filter**, a grid of weights that is constructed
  uniform, diffused by `time_passes`, pinned by `add_evidence` and read by
  `most_likely`;
- the **A\* planner** (`makePlan`, `reconstructPath`) and the pure helpers
  `followPlan`, `nearestPosition` and `applyField`;
- the shared **message bus** (`say`, `pending`, `clear`);
- the **behaviour arbitration** of an agent:
  - the nearest-enemy scan;
  - the food and capsule disparities;
  - the event record;
  - the goal of each behaviour (patrol, defensive, retreat, incursion, scared,
    hero);
  - the turn of `chooseAction`: update the beliefs, step the state machine,
    announce, clear, fall back to the defensive goal, plan, move.

Modules, from the leaves up:

| file | module | what |
|---|---|---|
| wrappers.dfy | Wrappers | `Option` and `Result` in place of `None` and raised errors |
| geometry.dfy | Geometry | cells, Manhattan distance, the board with its walls, legal moves, walks, the row-major cell numbering |
| selection.dfy | Selection | first arg-min / arg-max under a key, as Python's `min`/`max` with `key=` |
| belief_filter.dfy | BeliefFilters | the grid maths as functions on `seq<real>`, and the `BeliefFilter` class over an `array<real>` |
| planning.dfy | Planning | A\* over `array2` score and predecessor grids, path reconstruction, the pure helpers |
| communication.dfy | Communication | `Without` (the list comprehension) and the `Bus` class |
| behaviours.dfy | Behaviours | the goal of each behaviour, as a function and as the looping method the original runs |
| events.dfy | Events | set differences between two observations, and the event record |
| arbitration.dfy | Arbitration | the state machine of `chooseAction` and its reachability lemmas |
| agent.dfy | Agents | the `Agent` class: its filters, `update_beliefs` and `chooseAction` |

The host game, the random draws and the observations are parameters:
- food, capsules and positions arrive as sets or sequences;
- each random draw arrives as a boolean (`patrolDraw`, `heroDraw`);
- the opponents' sightings arrive as `Option<Cell>`.

A failure the original would raise is returned as `Err` of a `Fault`:
- `TypeError` when indexing a `None`;
- `IndexError` on an empty list;
- division by zero, or NaN weights.

## Model

| member | source | states |
|---|---|---|
| Geometry.Board.Neighbors | beliefFilter.py:18-29 | the legal successors are exactly the in-bounds, non-wall cells one step away; at most four of them |
| Geometry.Board.OpenAmong | beliefFilter.py:21-29 | the filter keeps exactly the listed cells that are open |
| Geometry.Candidates | beliefFilter.py:19-20 | the four candidates are exactly the cells at Manhattan distance 1 |
| Geometry.Board.Cells | planning.py:20-21 | the cells the score grids cover are exactly the in-bounds cells |
| Geometry.Board.Index | beliefFilter.py:49-50 | a cell's row-major index lies in the grid |
| Geometry.Board.CellAt | beliefFilter.py:49-50 | `unravel_index`: an index names an in-bounds cell whose index it is |
| Geometry.Board.CellAtIndex | beliefFilter.py:49-50 | unravelling a cell's index gives the cell back |
| Geometry.WalkLength | planning.py:35-38 | a walk of k moves ends within Manhattan distance k of its start |
| Geometry.AreaIsProduct | beliefFilter.py:8 | the grid has width × height cells |
| Selection.ArgMinBy | planning.py:69-70 | `min(..., key=)`: an index of a minimum, and the first such |
| Selection.ArgMaxBy | planning.py:73-83 | `max(..., key=)`: an index of a maximum, and the first such |
| Selection.ArgMinUnique | planning.py:69-70 | any first minimiser is the one `min` picks |
| Selection.ArgMaxUnique | planning.py:73-83 | any first maximiser is the one `max` picks |
| BeliefFilters.SumNonNegative | beliefFilter.py:16 | a non-negative grid has a non-negative total |
| BeliefFilters.ElementBelowSum | beliefFilter.py:16 | no cell of a non-negative grid outweighs the total |
| BeliefFilters.SumUpdate | beliefFilter.py:46 | overwriting one cell changes the total by the difference |
| BeliefFilters.Scaled | beliefFilter.py:16 | dividing every cell by t |
| BeliefFilters.SumScaled | beliefFilter.py:16 | the total of a scaled grid is the total divided by t |
| BeliefFilters.NormalizedSumsToOne | beliefFilter.py:15-16 | with a positive total, normalisation sums to 1 |
| BeliefFilters.NormalizedKeepsRatios | beliefFilter.py:15-16 | normalisation keeps every ratio between two cells |
| BeliefFilters.NormalizedKeepsOrder | beliefFilter.py:15-16 | normalisation keeps the order between cells and which cells are zero |
| BeliefFilters.NormalizedNonNegative | beliefFilter.py:15-16 | normalising a non-negative grid keeps it non-negative |
| BeliefFilters.NormalizedIsDistribution | beliefFilter.py:15-16 | a normalised non-negative grid is a distribution |
| BeliefFilters.NormalizedZeros | beliefFilter.py:15-16 | normalisation zeroes exactly the cells that were zero |
| BeliefFilters.ArgMax | beliefFilter.py:50 | `np.argmax`: a maximal cell, and the first in row-major order |
| BeliefFilters.PinnedArgMax | beliefFilter.py:45-50 | after pinning cell k at 1 on a distribution, k is maximal, and it is the arg-max exactly when no earlier cell already weighs 1 |
| BeliefFilters.WeightOf | beliefFilter.py:38-40 | the summed old weight of a list of successors is non-negative on a non-negative grid |
| BeliefFilters.GatheredAt | beliefFilter.py:33-41 | a zero cell is skipped and stays 0; a non-zero cell becomes the average of its successors' old weights, non-negative |
| BeliefFilters.Gathered | beliefFilter.py:32-42 | the gathered grid is computed cell by cell from the old grid |
| BeliefFilters.GatheredNonNegative | beliefFilter.py:32-42 | gathering keeps the grid non-negative |
| BeliefFilters.WeightOfUniform | beliefFilter.py:38-40 | on a uniform grid the successors' mass is their number times the weight |
| BeliefFilters.GatherKeepsUniform | beliefFilter.py:32-42 | gathering a uniform grid leaves it as it is |
| BeliefFilters.GatheredAtUniform | beliefFilter.py:37-41 | on a uniform grid each gathered cell keeps its weight |
| BeliefFilters.UniformAverage | beliefFilter.py:41 | the average of equal weights is that weight |
| BeliefFilters.PinnedMostLikely | beliefFilter.py:45-50 | after `add_evidence(c)` on a distribution, `most_likely` is c exactly when no cell before c weighs 1 |
| BeliefFilters.EvidenceSetsWeight | beliefFilter.py:45-47 | `add_evidence(c, v)` yields a distribution where c is zero iff v is; other zero cells stay zero; with v = 1, c is maximal and the arg-max condition above |
| BeliefFilters.NonNegativeUpdate | beliefFilter.py:46 | overwriting a cell with a non-negative weight keeps the grid non-negative |
| BeliefFilters.WallsMarked | beliefFilter.py:8-11 | the grid before normalisation: 1 everywhere, 0 on walls |
| BeliefFilters.InitialBelief | beliefFilter.py:8-13 | with an open cell, the initial grid is a distribution, zero on every wall, equal and positive on every open cell |
| BeliefFilters.BeliefFilter.constructor | beliefFilter.py:5-13 | a fresh grid that is a distribution, zero on the walls, uniform and positive on the open cells |
| BeliefFilters.BeliefFilter.Normalize | beliefFilter.py:15-16 | the new grid is the old one normalised |
| BeliefFilters.BeliefFilter.TimePasses | beliefFilter.py:31-43 | the new grid is the normalised gather of the old one; zero cells and walls stay zero; still a distribution |
| BeliefFilters.BeliefFilter.Gather | beliefFilter.py:32-42 | the loop over all cells builds the gathered grid from the old one |
| BeliefFilters.BeliefFilter.Averaged | beliefFilter.py:37-41 | one non-zero cell's new weight |
| BeliefFilters.BeliefFilter.Mass | beliefFilter.py:38-40 | the accumulation of `new_prob` |
| BeliefFilters.BeliefFilter.AddEvidence | beliefFilter.py:45-47 | the new grid is the old one with the cell overwritten, normalised; the properties of `EvidenceSetsWeight` on the filter |
| BeliefFilters.BeliefFilter.MostLikely | beliefFilter.py:49-50 | an in-bounds cell of maximal weight, the first in row-major order |
| Planning.Reverse | planning.py:53 | `path.reverse()` |
| Planning.Values | planning.py:54 | the cells of a trail with no `None` in it |
| Planning.BackwardExtend | planning.py:50-52 | one more step back along the predecessors keeps the trail a backward chain |
| Planning.ReversedValues | planning.py:53-54 | reversing and dropping the sentinel gives the trail's cells in forward order |
| Planning.BackwardIsWalk | planning.py:47-54 | a predecessor chain read forwards is a walk from the start to the goal |
| Planning.ReconstructPath | planning.py:47-54 | the path starts at the start, ends at the goal, and is a walk; `[goal]` when the goal has no predecessor |
| Planning.Queued | planning.py:12-13 | the cells on the fringe |
| Planning.QueuedAfterPop | planning.py:30 | popping removes at most the popped cell from the fringe's cells |
| Planning.Pop | planning.py:30 | the popped entry has the least priority and the rest is the fringe without it; on a fringe without repeats, the popped cell is no longer queued |
| Planning.RemoveAt | planning.py:30 | removing one entry keeps the rest as a multiset |
| Planning.DistinctAfterPop | planning.py:30 | removing one entry from a fringe without repeated cells leaves none and drops that cell |
| Planning.Push | planning.py:42-44 | `openSet.add(nb)` and `fringe.push`: the cell is opened and its entry is the fringe's new last one, after all the old entries |
| Planning.PushGrows | planning.py:42-44 | opening a cell not yet open and queueing it is growth: one more open cell and one more entry, the fringe still free of repeats, every queued cell open |
| Planning.VisitGrows | planning.py:35-44 | what one neighbour visit does to the open set and the fringe is growth, so the fringe grows exactly as the open set does |
| Planning.DistinctAfterPush | planning.py:44 | pushing a cell that is not queued keeps the fringe free of repeats |
| Planning.QueuedAfterPush | planning.py:44 | pushing adds exactly the pushed cell |
| Planning.Progress | planning.py:29-44 | each round shrinks the unopened cells or the fringe, so the loop ends |
| Planning.WalkReaches | planning.py:32-33 | a walk witnesses reachability |
| Planning.WalkStaysInside | planning.py:35-44 | a walk cannot leave a set closed under legal moves |
| Planning.Unreachable | planning.py:29-44 | a goal outside a set closed under moves from the start is unreachable |
| Planning.Relax | planning.py:36-40 | a better score records the predecessor and the g and f scores of one neighbour; the predecessor-chain invariants hold; nothing else changes |
| Planning.Visit | planning.py:35-44 | one neighbour is visited and ends up open; an already open neighbour leaves the open set and the fringe as they were; a new one is opened and pushed once, at the back, with its f-score |
| Planning.GrownTransitive | planning.py:42-44 | the open set and the fringe only grow, over several steps |
| Planning.Expand | planning.py:35-44 | after the neighbour loop every legal neighbour of the popped cell is open |
| Planning.VisitNext | planning.py:35-44 | one more neighbour of the popped cell is open |
| Planning.CoverageGrows | planning.py:35-44 | the visited prefix of the neighbours grows by one |
| Planning.Round | planning.py:29-44 | one pop-and-expand round keeps the frontier invariant (including: no cell queued twice, none queued after it is closed) and makes progress |
| Planning.ExpandCloses | planning.py:35-44 | after expanding, the popped cell is closed: all its moves lead into the open set |
| Planning.Init | planning.py:6-27 | fresh grids at infinity, `start` at g = 0, the fringe and open set hold only `start` |
| Planning.Iterate | planning.py:29-44 | a found path is a walk from start to goal (`[start]` if they are equal); otherwise the invariants hold and the search progressed |
| Planning.MakePlan | planning.py:5-44 | `Some` path is a walk from start to goal; `None` exactly when the goal is unreachable; `[start]` when start is the goal; the ghost count of popped entries is at most the number of cells of the board |
| Planning.FollowPlan | planning.py:57-66 | the displacement to `plan[1]`, or to `plan[0]` for a one-cell plan |
| Planning.FollowPlanMoves | planning.py:57-66 | following a walk from the agent's cell is one legal step, and no move exactly when the plan is one cell |
| Planning.FollowPlanReaches | planning.py:57-66 | after the move, the plan's goal is still reachable |
| Planning.NearestPosition | planning.py:69-70 | a listed position at minimal Manhattan distance |
| Planning.NearestPositionFirst | planning.py:69-70 | the first position at minimal distance is the one returned |
| Planning.Farthest | planning.py:77-80 | a deflector farthest from the origin |
| Planning.ApplyField | planning.py:73-83 | an attractor farthest from the farthest deflector |
| Planning.FarthestFirst | planning.py:77-80 | the first farthest deflector is the one chosen |
| Communication.Without | communication.py:5-6 | exactly the messages not sent by the sender, never more than before |
| Communication.WithoutConcat | communication.py:11-12 | filtering distributes over concatenation, so order is kept |
| Communication.WithoutNothing | communication.py:11-12 | a list with no message from the sender is left unchanged |
| Communication.WithoutIdempotent | communication.py:11-12 | `clear` twice is `clear` once |
| Communication.WithoutCommutes | communication.py:11-12 | clearing two senders in either order gives the same list |
| Communication.SayThenClear | communication.py:8-12 | saying then clearing as the same sender leaves the list as clearing alone would |
| Communication.Bus.constructor | communication.py:2-3 | a new bus has no messages |
| Communication.Bus.Pending | communication.py:5-6 | the messages not sent by `index`; the bus is not changed |
| Communication.Bus.Say | communication.py:8-9 | the message is appended, and the earlier messages are unchanged |
| Communication.Bus.Clear | communication.py:11-12 | the new list is the old `pending(index)`; no message of `index` is left |
| Behaviours.NearestEnemy | myTeam.py:76-87 | `(-1, None)` exactly when no opponent is nearer than 999; otherwise the first opponent at least distance, with its cell |
| Behaviours.NearestEnemyTo | myTeam.py:76-87 | the running-minimum loop computes `NearestEnemy` |
| Behaviours.Patrol | myTeam.py:157-161 | (18,7) when the draw exceeds one half, (18,9) otherwise |
| Behaviours.Defensive | myTeam.py:163-171 | fails exactly when there is no nearest enemy; the enemy's cell when its x exceeds 16, the patrol goal otherwise |
| Behaviours.ColumnBelow | myTeam.py:177 | the non-wall cells of column 18 below row n, by increasing y |
| Behaviours.Viable | myTeam.py:177 | exactly the non-wall cells of column 18 |
| Behaviours.SumDistances | myTeam.py:182-184 | the accumulation loop computes the summed distance |
| Behaviours.Distances | myTeam.py:178 | the distance to each viable cell |
| Behaviours.Dangers | myTeam.py:180-185 | the average distance of the opponents to each viable cell |
| Behaviours.Ratios | myTeam.py:189-191 | distance ÷ danger where the danger is positive, nothing elsewhere |
| Behaviours.FirstBest | myTeam.py:187-194 | -1 exactly when no ratio is below the cap; otherwise the first minimal ratio |
| Behaviours.RetreatGoal | myTeam.py:173-195 | no goal exactly when column 18 has no open cell; otherwise the first best ratio's cell, or the last cell when none qualifies |
| Behaviours.Retreat | myTeam.py:173-195 | the loops compute `RetreatGoal` |
| Behaviours.DangerScan | myTeam.py:180-185 | the nested loop computes `Dangers` |
| Behaviours.FirstBestUnique | myTeam.py:187-194 | any index meeting `FirstBest`'s contract is its result |
| Behaviours.BestRoute | myTeam.py:187-194 | the running-best loop computes `FirstBest` |
| Behaviours.IncursionGoal | myTeam.py:197-219 | `None` exactly when there is no food; otherwise a food cell with the largest summed distance to the opponents, every earlier food cell being strictly less safe (the first among ties) |
| Behaviours.Incursion | myTeam.py:208-219 | the running-best loop, which replaces its pick only on a strictly safer cell, returns `IncursionGoal`: the first safest food |
| Behaviours.ScaredGoal | myTeam.py:221-227 | the retreat goal when an opponent is nearer than 6, no goal otherwise |
| Behaviours.Scared | myTeam.py:221-227 | the loop computes `ScaredGoal` |
| Behaviours.HeroGoal | myTeam.py:229-239 | the nearest opponent capsule when there is one, the scared goal otherwise |
| Behaviours.OnlyIncursionAndHeroGiveUp | myTeam.py:208-239 | only incursion with no food, and hero with no capsule and no close opponent, give no goal |
| Behaviours.Pursue | myTeam.py:328 | calling the behaviour in force computes its goal |
| Behaviours.Defend | myTeam.py:163-171 | the defensive behaviour as run |
| Events.Vanished | myTeam.py:100-105 | exactly the cells that were there before and are not now |
| Events.VanishedPartitions | myTeam.py:100-105 | what vanished and what stayed are disjoint and make up what was there |
| Events.OwnFood | myTeam.py:99-105 | the red food for the red team, the blue food for the blue team |
| Events.OpponentFood | myTeam.py:203-206 | the blue food for the red team, the red food for the blue team: what `incursionBehaviour` reads |
| Events.OpponentCapsules | myTeam.py:232-235 | the blue capsules for the red team, the red capsules for the blue team: what `heroBehaviour` reads |
| Events.OwnCapsules | myTeam.py:116-123 | the red capsules for the red team, the blue capsules for the blue team |
| Events.FoodDisparity | myTeam.py:89-105 | empty with no previous observation; otherwise own food before minus own food now |
| Events.CapsuleDisparity | myTeam.py:107-123 | the same for the team's own capsules |
| Events.DisparityPartitions | myTeam.py:89-123 | nothing reported eaten is still on the board, and eaten plus kept is what was there |
| Events.EnvEventsAsWritten | myTeam.py:241-283 | the record as written: the zero record with no previous observation; the food counts are "before minus now"; the capsules "we ate" are "now minus before" |
| Events.EnvEvents | myTeam.py:241-283 | the record with the capsules "we ate" as "before minus now"; `didIeatFood`, `didIeatCapsule` and `atCenter` as membership and distance tests |
| Events.RecordsAgreeOffCapsules | myTeam.py:258-283 | the record as written and the corrected one agree on the food counts, `didIeatFood`, `atCenter` and the opponents' capsule count; they differ only in the capsules this team ate |
| Events.AsWrittenNeverSeesCapsules | myTeam.py:268 | when capsules only disappear, the record as written never counts one eaten |
| Events.AsWrittenMissesEatenCapsule | myTeam.py:268 | an agent on the capsule it just ate: the record as written misses it, the corrected one sees it |
| Arbitration.Transition | myTeam.py:296-320 | the state machine: start leaves only away from the centre; fellingGood never changes state and only agents 1 and 3 switch and say; incursion, retreat and hero move on their events; defense is final |
| Arbitration.Step | myTeam.py:322-325 | the hero draw says "hero" and switches to the hero behaviour without changing the state |
| Arbitration.StepKeepsSettled | myTeam.py:296-325 | an agent past the start state keeps a behaviour after a step |
| Arbitration.FirstTurnSetsBehaviour | myTeam.py:249-255 | the first turn (no previous observation) leaves start with a behaviour |
| Arbitration.OnlyStartAndFellingGood | myTeam.py:296-320 | from start, any run stays in start or fellingGood: incursion, retreat, hero and defense are never reached |
| Arbitration.FellingGoodForever | myTeam.py:300-306 | once in fellingGood, always in fellingGood |
| Arbitration.RunKeepsSettled | myTeam.py:296-325 | an agent past the start state keeps a behaviour over any run |
| Arbitration.AnnouncedThenCleared | myTeam.py:303-327 | whatever the agent says in a turn, the clear at its end leaves the mailbox as clearing alone would |
| Arbitration.Announced | myTeam.py:303-324 | the messages the turn's `say` calls append, in order |
| Agents.LikelyOf | myTeam.py:81 | the most likely cell of each filter's grid |
| Agents.WithEvidence | beliefFilter.py:45-47 | evidence on a distribution gives a distribution; the pinned cell is zero iff the value is; other zeros stay zero; with value 1 the cell is maximal |
| Agents.CulpritOf | myTeam.py:136-137 | the filter of the enemy `nearest_enemy_to` names whenever it names one; the last filter exactly when it returns -1 |
| Agents.BlameOne | myTeam.py:135-137 | one eaten cell pins that cell on the culprit's grid and changes no other grid |
| Agents.Blamed | myTeam.py:135-137 | blaming a list of eaten cells keeps every grid a distribution |
| Agents.BlamedStep | myTeam.py:135-137 | blaming one more cell extends the blame of the prefix |
| Agents.Sighted | myTeam.py:139-148 | a sighted opponent's cell is pinned at 1; an unseen one loses the agent's own cell, then time passes; zero cells stay zero; fails exactly where the original divides by zero |
| Agents.Observed | myTeam.py:139-148 | the sighting loop succeeds exactly when every opponent's update does, and then gives each grid its update |
| Agents.Updated | myTeam.py:131-148 | `update_beliefs` on values: the blame loop then the sighting loop; always defined when every opponent is in sight |
| Agents.SightedStep | myTeam.py:139-148 | one more opponent's update extends the sighting loop's prefix |
| Agents.SightFails | myTeam.py:139-148 | one failed update makes the whole update fail |
| Agents.SightedAll | myTeam.py:139-148 | a completed sighting loop gives the update |
| Agents.Aim | myTeam.py:328-331 | the behaviour's goal, or the defensive goal when it gives none; fails only with no enemy or no viable cell |
| Agents.Act | myTeam.py:328-334 | an error for no goal; `NoPlan` for an unreachable goal; otherwise one legal step (or none when on the goal) that keeps the goal reachable |
| Agents.Move | myTeam.py:333-334 | towards a chosen goal: the goal's error passed on; `NoPlan` for an unreachable goal; otherwise one legal step (or none when on the goal) that keeps the goal reachable |
| Agents.Target | myTeam.py:328-331 | the goal lines compute `Aim` |
| Agents.Agent.Beliefs | myTeam.py:71 | the filters' grids are distributions, one per opponent |
| Agents.Agent.constructor | myTeam.py:53-71 | one fresh, valid, uniform filter per opponent, zero on every wall; state start, no behaviour |
| Agents.Agent.Likely | myTeam.py:81 | `most_likely` of every filter |
| Agents.Agent.Evidence | myTeam.py:137 | `add_evidence` on one filter, at an open cell unless the value is 0, so the filter stays zero on every wall; the other filters are unchanged |
| Agents.Agent.Passes | myTeam.py:148 | `time_passes` on one filter; the other filters are unchanged |
| Agents.Agent.Blame | myTeam.py:135-137 | one pass of the blame loop computes `BlameOne` |
| Agents.Agent.Sight | myTeam.py:139-148 | one pass of the sighting loop computes `Sighted`, and reports failure exactly when it fails |
| Agents.Agent.Unseen | myTeam.py:146-148 | the unseen branch computes `Sighted` for an opponent out of sight |
| Agents.Agent.UpdateBeliefs | myTeam.py:131-148 | succeeds exactly when `Updated` is defined, and then the grids are `Updated` |
| Agents.Agent.BlameAll | myTeam.py:135-137 | the blame loop computes `Blamed` |
| Agents.Agent.SightAll | myTeam.py:139-148 | the sighting loop computes `Observed` |
| Agents.Agent.Announce | myTeam.py:303-324 | the turn's `say` calls append `Announced` |
| Agents.Agent.Arbitrate | myTeam.py:296-327 | the turn's state and behaviour are entered and the agent's messages are gone |
| Agents.Agent.ChooseAction | myTeam.py:285-334 | given the eaten cells, the food and the capsules each listed once, as in the current observation, and open sightings: the grids are `Updated` with the eaten cells and the sightings and stay zero on every wall (`Valid`); state and behaviour follow `Step` on the corrected record; the mailbox loses exactly this agent's messages; the move is `Act`'s, or the failure the original would raise |
| Agents.Agent.Deliberate | myTeam.py:296-334 | after the beliefs: the turn is entered, the mailbox is cleared, and the move meets `Acted` |

## Left out

- Host glue is not part of this model: `createTeam`, `addComm`, the game-state queries, and `getPreviousObservation`/`getCurrentObservation`. Observations, food, capsules, positions and sightings are parameters. `ChooseAction` requires that they agree with the observations: `foods` and `capsules` list the opponents' food and capsules of the current observation, each once. Sightings and eaten cells are open cells, as the host only places agents and food off the walls.
- `debug_beliefs` and `__coloredIndex` only draw on the screen.
- Randomness: the draw `random.uniform(0, 1) > 0.5` of `patrolBehaviour` and `random.random() < 0.05` of `chooseAction` are boolean inputs.
- Floating point is modelled as `real`, and distances as `int`. When a normalisation total or a successor count is zero, the original goes on with NaN weights or raises. The model has preconditions on the filter methods instead, and `UpdateBeliefs` reports failure (`Err(DegenerateBelief)` in `ChooseAction`).
- `np.inf` scores are a `Score` datatype with an infinite value.
- `util.PriorityQueue` is not part of this model. The fringe is a sequence of (cell, priority) pairs in push order, and `Pop` takes the first entry of least priority. No proved property depends on how ties are broken.
- `Actions.getLegalNeighbors` also yields the STOP position, the cell itself. The model lists only the four moves: the cell's own g-score can never improve, so that entry never changes anything.
- `Actions.vectorToDirection` is left out: the move is the raw displacement.
- Planning.MakePlan: the optimality of A\* (that the path is shortest) is not proved. The following are proved: termination; soundness of the path; completeness (`None` exactly when unreachable); that no cell is queued twice; and that the search pops at most as many entries as the board has cells (its w × h in-bounds cells). The last bound is counted against `|board.Cells()|`, not against the product `width * height`.
- The heuristic `h` is any function. Nothing in the proofs depends on its admissibility.
- `belief` is a class-level list of `Gluttony` (myTeam.py:46, appended to at myTeam.py:71), so the two agents of a team append their filters to one shared list and `belief[-1]` is whichever filter was appended last. The model gives each agent its own list of filters. `state` and `currentBehaviour` are assigned through `self` (myTeam.py:298-320), so each agent has its own in the original too, as in the model.
- `retreatBehaviour` and `incursionBehaviour` index the filters by opponent agent index, while `update_beliefs` indexes them by ordinal. The model takes the opponents' most likely cells as one sequence in filter order.
- The filter size is the board's size, a parameter, instead of the fixed (32, 16).
- Python set iteration order in `update_beliefs` is the order of the `eaten` sequence parameter. `ChooseAction` requires that it list exactly the food and capsule disparities, each cell once, as iterating over a set does.
- `envEvents` reads the opponent food and capsules from the blue colour and the team's own from the red colour, whatever the team's colour. The model keeps that.
- With no previous observation, `envEvents` reports the scalar 0 for `foodEaten` and `capsulesEaten`. The model reports (0, 0). No transition can tell the two apart. The only transition that reads `foodEaten` is the `hero` one (myTeam.py:318), where `0[1]` would raise `TypeError`. But the only turn without a previous observation is the first, which is in `start`, and the `hero` state is never entered at all (`Arbitration.OnlyStartAndFellingGood`).
- Arbitration.Transition: the `elif "hero" in messages` branch is left out. It sits under a guard that has already taken the branch before it, and the test compares a string with (message, sender) pairs, so it is never true. The `messages = pending(...)` line only feeds that test.
- Behaviours.FirstBest: the clause `bestRetreatValue == -1` never holds, because the value starts at 999999 and only takes non-negative ratios. It is dropped.
- Crashes are `Err` values:
  - `defensiveBehaviour` indexes `None` when no enemy is nearer than 999: `NoEnemy`.
  - `retreatBehaviour` indexes an empty list: `NoViableCell`.
  - `chooseAction` calls a behaviour that was never chosen, in the start state at the centre: `NoBehaviour`.
  - `followPlan` receives the `None` plan of an unreachable goal: `NoPlan`.

## Findings

| source | as written | input that shows it | evidently intended | confidence | as-written member | corrected member |
|---|---|---|---|---|---|---|
| myTeam.py:268 | `capsulesWeAte = opponentCapsulesNow - opponentCapsulesBefore`, the reverse of every other difference in the method | before: one blue capsule at (20,5); now: none; agent at (20,5). `didIeatCapsule` is False and the count is 0 | before minus now, as for the food: `didIeatCapsule` True and a count of 1 | high (not executed) | Events.AsWrittenMissesEatenCapsule | Events.EnvEvents |
