/**
 * The per-turn state machine of an agent: from its state, the behaviour it is
 * following, its index, the turn's events and a random draw, the next state, the
 * next behaviour and what it announces to its team mate.
 */
module Arbitration {
  import opened Wrappers
  import opened Geometry
  import opened Events
  import B = Behaviours
  import opened Communication

  /** The agent's state; "fellingGood" keeps the original's spelling. */
  datatype State = Start | FellingGood | Incursion | Retreat | Hero | Defense

  /** The outcome of one turn's transition. */
  datatype Turn = Turn(state: State, behaviour: Option<B.Behaviour>, said: seq<string>)

  /**
   * The transitions of `chooseAction`, before the hero draw. The hero message
   * test is left out: it sits behind a guard that has already taken the branch
   * before it.
   */
  function Transition(state: State, behaviour: Option<B.Behaviour>, index: int, evts: Events, myPosition: Cell): (t: Turn)
    ensures state == Start ==> (t.state == FellingGood <==> !evts.atCenter) && t.state in {Start, FellingGood}
    ensures state == Start && !evts.atCenter ==> t.behaviour == Some(B.PatrolBehaviour)
    ensures state == FellingGood ==> t.state == FellingGood
    ensures state == FellingGood ==>
      && (t.said != [] <==> evts.atCenter && (index == 1 || index == 3))
      && (t.behaviour != behaviour ==> evts.atCenter && (index == 1 || index == 3))
    ensures state == Incursion ==> (t.state == Retreat <==> evts.didIeatFood) && t.state in {Incursion, Retreat}
    ensures state == Retreat ==> (t.state == Incursion <==> myPosition.0 > B.HomeLine) && t.state in {Incursion, Retreat}
    ensures state == Hero ==> (t.state == Defense <==> evts.foodEaten.1 > 2) && t.state in {Hero, Defense}
    ensures state == Defense ==> t == Turn(Defense, behaviour, [])
    ensures t.state == state ==> t.said != [] || t.behaviour == behaviour
    ensures forall m :: m in t.said ==> m == "defense" || m == "incursion"
    ensures behaviour.Some? ==> t.behaviour.Some?
    ensures t.state != state ==> t.behaviour.Some?
  {
    match state
    case Start =>
      if !evts.atCenter then Turn(FellingGood, Some(B.PatrolBehaviour), []) else Turn(state, behaviour, [])
    case FellingGood =>
      if !evts.atCenter then Turn(state, behaviour, [])
      else if index == 1 then Turn(state, Some(B.DefensiveBehaviour), ["defense"])
      else if index == 3 then Turn(state, Some(B.IncursionBehaviour), ["incursion"])
      else Turn(state, behaviour, [])
    case Incursion =>
      if evts.didIeatFood then Turn(Retreat, Some(B.RetreatBehaviour), []) else Turn(state, behaviour, [])
    case Retreat =>
      if myPosition.0 > B.HomeLine then Turn(Incursion, Some(B.IncursionBehaviour), []) else Turn(state, behaviour, [])
    case Hero =>
      if evts.foodEaten.1 > 2 then Turn(Defense, Some(B.DefensiveBehaviour), []) else Turn(state, behaviour, [])
    case Defense =>
      Turn(state, behaviour, [])
  }

  /** The hero draw of `chooseAction`: announce "hero" and switch to the hero behaviour, leaving the state alone. */
  function Step(state: State, behaviour: Option<B.Behaviour>, index: int, evts: Events, myPosition: Cell, heroDraw: bool): (t: Turn)
    ensures var u := Transition(state, behaviour, index, evts, myPosition);
      && t.state == u.state
      && (heroDraw ==> t.behaviour == Some(B.HeroBehaviour) && t.said == u.said + ["hero"])
      && (!heroDraw ==> t == u)
  {
    var u := Transition(state, behaviour, index, evts, myPosition);
    if heroDraw then Turn(u.state, Some(B.HeroBehaviour), u.said + ["hero"]) else u
  }

  /** Outside the start state an agent always has a behaviour, and a step keeps it so. */
  predicate Settled(state: State, behaviour: Option<B.Behaviour>)
  {
    state != Start ==> behaviour.Some?
  }

  lemma StepKeepsSettled(state: State, behaviour: Option<B.Behaviour>, index: int, evts: Events, myPosition: Cell, heroDraw: bool)
    requires Settled(state, behaviour)
    ensures var t := Step(state, behaviour, index, evts, myPosition, heroDraw);
      Settled(t.state, t.behaviour)
  {
    var u := Transition(state, behaviour, index, evts, myPosition);
    assert state != Start ==> u.behaviour.Some?;
  }

  /** The first turn has no previous observation, so the agent is not "at the centre" and leaves the start state with a behaviour. */
  lemma FirstTurnSetsBehaviour(behaviour: Option<B.Behaviour>, index: int, myPosition: Cell, heroDraw: bool)
    ensures var t := Step(Start, behaviour, index, NoEvents, myPosition, heroDraw);
      t.state == FellingGood && t.behaviour.Some?
  {
    assert !NoEvents.atCenter;
  }

  /** What a turn depends on besides the agent's state: its events, its position and its hero draw. */
  datatype Input = Input(evts: Events, myPosition: Cell, heroDraw: bool)

  /** The state and behaviour after a sequence of turns. */
  function Run(state: State, behaviour: Option<B.Behaviour>, index: int, inputs: seq<Input>): (r: (State, Option<B.Behaviour>))
    decreases |inputs|
  {
    if inputs == [] then (state, behaviour)
    else
      var (s, b) := Run(state, behaviour, index, inputs[..|inputs| - 1]);
      var i := inputs[|inputs| - 1];
      var t := Step(s, b, index, i.evts, i.myPosition, i.heroDraw);
      (t.state, t.behaviour)
  }

  /**
   * Nothing leads out of the start state but to "fellingGood", and nothing leads
   * out of "fellingGood": the incursion, retreat, hero and defense states are
   * never reached from the start.
   */
  lemma {:induction false} OnlyStartAndFellingGood(behaviour: Option<B.Behaviour>, index: int, inputs: seq<Input>)
    ensures Run(Start, behaviour, index, inputs).0 in {Start, FellingGood}
    decreases |inputs|
  {
    if inputs != [] {
      OnlyStartAndFellingGood(behaviour, index, inputs[..|inputs| - 1]);
    }
  }

  /** Once out of the start state the agent stays in "fellingGood" for good. */
  lemma {:induction false} FellingGoodForever(behaviour: Option<B.Behaviour>, index: int, inputs: seq<Input>)
    ensures Run(FellingGood, behaviour, index, inputs).0 == FellingGood
    decreases |inputs|
  {
    if inputs != [] {
      FellingGoodForever(behaviour, index, inputs[..|inputs| - 1]);
    }
  }

  /** An agent that starts settled stays settled over any run. */
  lemma {:induction false} RunKeepsSettled(state: State, behaviour: Option<B.Behaviour>, index: int, inputs: seq<Input>)
    requires Settled(state, behaviour)
    ensures Settled(Run(state, behaviour, index, inputs).0, Run(state, behaviour, index, inputs).1)
    decreases |inputs|
  {
    if inputs != [] {
      RunKeepsSettled(state, behaviour, index, inputs[..|inputs| - 1]);
      var (s, b) := Run(state, behaviour, index, inputs[..|inputs| - 1]);
      var i := inputs[|inputs| - 1];
      StepKeepsSettled(s, b, index, i.evts, i.myPosition, i.heroDraw);
    }
  }

  /**
   * When the agent's own messages are announced and then cleared in the same turn,
   * the mailbox ends as it began, less this agent's old messages.
   */
  lemma {:induction false} AnnouncedThenCleared(ms: seq<Message>, said: seq<string>, index: int)
    ensures Without(ms + Announced(said, index), index) == Without(ms, index)
    decreases |said|
  {
    if said != [] {
      var init := Announced(said[..|said| - 1], index);
      assert Announced(said, index) == init + [(said[|said| - 1], index)];
      assert ms + Announced(said, index) == (ms + init) + [(said[|said| - 1], index)];
      SayThenClear(ms + init, said[|said| - 1], index);
      AnnouncedThenCleared(ms, said[..|said| - 1], index);
    } else {
      assert ms + Announced(said, index) == ms;
    }
  }

  /** The messages `index` appends when it says each of `said` in turn. */
  function Announced(said: seq<string>, index: int): (r: seq<Message>)
    ensures |r| == |said| && forall i :: 0 <= i < |said| ==> r[i] == (said[i], index)
  {
    seq(|said|, i requires 0 <= i < |said| => (said[i], index))
  }
}
