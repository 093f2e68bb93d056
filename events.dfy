/**
 * What changed on the board between the previous observation and the current one:
 * the food and capsules that vanished, who ate them, and where the agent stands.
 */
module Events {
  import opened Wrappers
  import opened Geometry
  import Behaviours

  /** The food and capsules of both colours in one observation. */
  datatype Observation = Observation(
    redFood: set<Cell>,
    blueFood: set<Cell>,
    redCapsules: set<Cell>,
    blueCapsules: set<Cell>)

  /** The cells of `before` that are no longer in `now`. */
  function Vanished(before: set<Cell>, now: set<Cell>): (r: set<Cell>)
    ensures forall c :: c in r <==> c in before && c !in now
    ensures r <= before
  {
    before - now
  }

  /** Whatever vanished is gone, and what vanished with what stayed is everything there was. */
  lemma VanishedPartitions(before: set<Cell>, now: set<Cell>)
    ensures Vanished(before, now) !! now
    ensures Vanished(before, now) + (before * now) == before
    ensures |Vanished(before, now)| + |before * now| == |before|
  {
    var v := Vanished(before, now);
    assert v !! (before * now);
  }

  /** The team's own food in an observation. */
  function OwnFood(o: Observation, red: bool): (r: set<Cell>)
    ensures red ==> r == o.redFood
    ensures !red ==> r == o.blueFood
  {
    if red then o.redFood else o.blueFood
  }

  /** The team's own capsules in an observation. */
  function OwnCapsules(o: Observation, red: bool): (r: set<Cell>)
    ensures red ==> r == o.redCapsules
    ensures !red ==> r == o.blueCapsules
  {
    if red then o.redCapsules else o.blueCapsules
  }

  /** The opponents' food in an observation: what `incursionBehaviour` reads. */
  function OpponentFood(o: Observation, red: bool): (r: set<Cell>)
    ensures red ==> r == o.blueFood
    ensures !red ==> r == o.redFood
  {
    if red then o.blueFood else o.redFood
  }

  /** The opponents' capsules in an observation: what `heroBehaviour` reads. */
  function OpponentCapsules(o: Observation, red: bool): (r: set<Cell>)
    ensures red ==> r == o.blueCapsules
    ensures !red ==> r == o.redCapsules
  {
    if red then o.blueCapsules else o.redCapsules
  }

  /**
   * `__food_disparity`: the team's own food eaten since the previous observation,
   * or nothing when there is no previous observation.
   */
  function FoodDisparity(before: Option<Observation>, now: Observation, red: bool): (r: set<Cell>)
    ensures before.None? ==> r == {}
    ensures before.Some? ==> forall c :: c in r <==> c in OwnFood(before.value, red) && c !in OwnFood(now, red)
  {
    match before
    case None => {}
    case Some(b) => Vanished(OwnFood(b, red), OwnFood(now, red))
  }

  /** `__capsule_disparity`: the same for the team's own capsules. */
  function CapsuleDisparity(before: Option<Observation>, now: Observation, red: bool): (r: set<Cell>)
    ensures before.None? ==> r == {}
    ensures before.Some? ==> forall c :: c in r <==> c in OwnCapsules(before.value, red) && c !in OwnCapsules(now, red)
  {
    match before
    case None => {}
    case Some(b) => Vanished(OwnCapsules(b, red), OwnCapsules(now, red))
  }

  /** Food reported eaten is never food still on the board, and nothing eaten is reported twice over. */
  lemma DisparityPartitions(before: Observation, now: Observation, red: bool)
    ensures FoodDisparity(Some(before), now, red) !! OwnFood(now, red)
    ensures FoodDisparity(Some(before), now, red) + (OwnFood(before, red) * OwnFood(now, red)) == OwnFood(before, red)
    ensures CapsuleDisparity(Some(before), now, red) !! OwnCapsules(now, red)
    ensures CapsuleDisparity(Some(before), now, red) + (OwnCapsules(before, red) * OwnCapsules(now, red)) == OwnCapsules(before, red)
  {
    VanishedPartitions(OwnFood(before, red), OwnFood(now, red));
    VanishedPartitions(OwnCapsules(before, red), OwnCapsules(now, red));
  }

  /**
   * The event record of one turn. Counts are pairs (ours, theirs); "ours" is read
   * from the blue colour and "theirs" from the red one whatever the team's colour.
   */
  datatype Events = Events(
    foodEaten: (nat, nat),
    capsulesEaten: (nat, nat),
    didIeatCapsule: bool,
    didIeatFood: bool,
    atCenter: bool)

  /** The record of a turn with no previous observation. */
  const NoEvents := Events((0, 0), (0, 0), false, false, false)

  /** How close to the centre a position must be to count as being at the centre. */
  const CentreRadius := 6

  /** Whether a position is close to the centre of the board. */
  predicate AtCenter(myPosition: Cell)
  {
    Manhattan(myPosition, Behaviours.Centre) < CentreRadius
  }

  /**
   * `envEvents` as written: the capsules "we ate" are the opponent capsules present
   * now that were absent before.
   */
  function EnvEventsAsWritten(before: Option<Observation>, now: Observation, myPosition: Cell): (e: Events)
    ensures before.None? ==> e == NoEvents
    ensures before.Some? ==>
      var b := before.value;
      && (e.didIeatFood <==> myPosition in b.blueFood && myPosition !in now.blueFood)
      && (e.didIeatCapsule <==> myPosition in now.blueCapsules && myPosition !in b.blueCapsules)
      && (e.atCenter <==> AtCenter(myPosition))
      && e.foodEaten == (|Vanished(b.blueFood, now.blueFood)|, |Vanished(b.redFood, now.redFood)|)
      && e.capsulesEaten == (|Vanished(now.blueCapsules, b.blueCapsules)|, |Vanished(b.redCapsules, now.redCapsules)|)
  {
    match before
    case None => NoEvents
    case Some(b) =>
      var capsulesWeAte := now.blueCapsules - b.blueCapsules;
      var foodWeAte := b.blueFood - now.blueFood;
      Events(
        (|foodWeAte|, |b.redFood - now.redFood|),
        (|capsulesWeAte|, |b.redCapsules - now.redCapsules|),
        myPosition in capsulesWeAte,
        myPosition in foodWeAte,
        AtCenter(myPosition))
  }

  /**
   * `envEvents` with the capsules "we ate" taken as the opponent capsules present
   * before that are gone now, the same difference the food counts use.
   */
  function EnvEvents(before: Option<Observation>, now: Observation, myPosition: Cell): (e: Events)
    ensures before.None? ==> e == NoEvents
    ensures before.Some? ==>
      var b := before.value;
      && (e.didIeatFood <==> myPosition in b.blueFood && myPosition !in now.blueFood)
      && (e.didIeatCapsule <==> myPosition in b.blueCapsules && myPosition !in now.blueCapsules)
      && (e.atCenter <==> AtCenter(myPosition))
      && e.foodEaten == (|Vanished(b.blueFood, now.blueFood)|, |Vanished(b.redFood, now.redFood)|)
      && e.capsulesEaten == (|Vanished(b.blueCapsules, now.blueCapsules)|, |Vanished(b.redCapsules, now.redCapsules)|)
  {
    match before
    case None => NoEvents
    case Some(b) =>
      var capsulesWeAte := b.blueCapsules - now.blueCapsules;
      var foodWeAte := b.blueFood - now.blueFood;
      Events(
        (|foodWeAte|, |b.redFood - now.redFood|),
        (|capsulesWeAte|, |b.redCapsules - now.redCapsules|),
        myPosition in capsulesWeAte,
        myPosition in foodWeAte,
        AtCenter(myPosition))
  }

  /** Capsules only disappear from the board, so the record as written never sees one eaten. */
  lemma AsWrittenNeverSeesCapsules(before: Observation, now: Observation, myPosition: Cell)
    requires now.blueCapsules <= before.blueCapsules
    ensures EnvEventsAsWritten(Some(before), now, myPosition).capsulesEaten.0 == 0
    ensures !EnvEventsAsWritten(Some(before), now, myPosition).didIeatCapsule
  {
    assert Vanished(now.blueCapsules, before.blueCapsules) == {};
  }

  /** An agent standing on the capsule it just ate: the record as written misses it, the corrected one sees it. */
  lemma AsWrittenMissesEatenCapsule()
    ensures var before := Observation({}, {}, {}, {(20, 5)});
      var now := Observation({}, {}, {}, {});
      && !EnvEventsAsWritten(Some(before), now, (20, 5)).didIeatCapsule
      && EnvEvents(Some(before), now, (20, 5)).didIeatCapsule
      && EnvEventsAsWritten(Some(before), now, (20, 5)).capsulesEaten.0 == 0
      && EnvEvents(Some(before), now, (20, 5)).capsulesEaten.0 == 1
  {
    var before := Observation({}, {}, {}, {(20, 5)});
    var now := Observation({}, {}, {}, {});
    assert Vanished(before.blueCapsules, now.blueCapsules) == {(20, 5)};
    assert Vanished(now.blueCapsules, before.blueCapsules) == {};
  }

  /** The two records differ only in the opponent capsule fields. */
  lemma RecordsAgreeOffCapsules(before: Option<Observation>, now: Observation, myPosition: Cell)
    ensures var w := EnvEventsAsWritten(before, now, myPosition);
      var e := EnvEvents(before, now, myPosition);
      && w.foodEaten == e.foodEaten && w.didIeatFood == e.didIeatFood && w.atCenter == e.atCenter
      && w.capsulesEaten.1 == e.capsulesEaten.1
  {
  }
}
