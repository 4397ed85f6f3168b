/** gym.js: train the four combat stats at a gym until each passes its
    target. The handler cycles through the stats still below target in the
    fixed order strength, defense, dexterity, agility, travelling to the
    gym's city first when needed, and drops a stat once its skill is
    strictly above the target. The game answers (the player record, travel,
    the stop button) come from a `World`. */
module Gym {
  import opened Common
  import Duration

  datatype Stat = Strength | Defense | Dexterity | Agility

  /** Position of a stat among the keys of `targetStats`. */
  function Rank(s: Stat): nat
  {
    match s
    case Strength => 0
    case Defense => 1
    case Dexterity => 2
    case Agility => 3
  }

  datatype Skills = Skills(strength: int, defense: int, dexterity: int, agility: int)

  /** `player.skills[stat]`. */
  function Skill(s: Skills, stat: Stat): int
  {
    match stat
    case Strength => s.strength
    case Defense => s.defense
    case Dexterity => s.dexterity
    case Agility => s.agility
  }

  /** The parts of `ns.getPlayer()` the handler reads. */
  datatype Player = Player(city: string, money: int, skills: Skills)

  /** `ensureCity` only travels with at least this much money. */
  const TravelFloor := 200000

  /** The keys of `gymLocations`. */
  const KnownGyms: set<string> :=
    {"Crush Fitness Gym", "Snap Fitness Gym", "Iron Gym", "Powerhouse Gym", "Millenium Fitness Gym"}

  /** The properties every object inherits from `Object.prototype`, which
      `gym in gymLocations` finds as well as the object's own keys. */
  const InheritedNames: set<string> :=
    {"constructor", "__defineGetter__", "__defineSetter__", "hasOwnProperty", "__lookupGetter__",
     "__lookupSetter__", "isPrototypeOf", "propertyIsEnumerable", "toString", "valueOf", "__proto__",
     "toLocaleString"}

  /** What `gymLocations[gym]` gives: a city name, or for an inherited name
      a function (an object for `__proto__`), which equals no city. */
  datatype Place = City(name: string) | ProtoMember

  /** `gymLocations[gym]` once `gym in gymLocations` has held: `None` is a
      gym that test rejects. */
  function GymCity(gym: string): (r: Option<Place>)
    ensures r.Some? <==> gym in KnownGyms || gym in InheritedNames
    ensures r.Some? ==> (r.value.City? <==> gym in KnownGyms)
  {
    if gym == "Crush Fitness Gym" || gym == "Snap Fitness Gym" then Some(City("Aevum"))
    else if gym == "Iron Gym" || gym == "Powerhouse Gym" then Some(City("Sector-12"))
    else if gym == "Millenium Fitness Gym" then Some(City("Volhaven"))
    else if gym in InheritedNames then Some(ProtoMember)
    else None
  }

  /** `player.city === targetCity`. */
  predicate InCity(p: Player, place: Place)
  {
    place.City? && p.city == place.name
  }

  /** One entry of `targetStats`. */
  datatype Target = Target(stat: Stat, goal: int)

  /** `targetStats` as built by `train`, in key order. */
  function InitialTargets(str: int, def: int, dex: int, agi: int): seq<Target>
  {
    [Target(Strength, str), Target(Defense, def), Target(Dexterity, dex), Target(Agility, agi)]
  }

  /** The answers the game gives, indexed by the number of stat visits made
      so far: whether the stop button has been clicked, whether a travel
      request succeeds, and the player record fetched after `ensureCity`. */
  datatype World = World(clicked: nat -> bool, travelOk: nat -> bool, fetched: nat -> Player)

  /** The `cancel` flag as read after `k` visits. It starts false, and the
      button hook can only set it once `train` has yielded, which it has
      not done before the first visit. */
  predicate Cancelled(w: World, k: nat)
  {
    k > 0 && w.clicked(k)
  }

  /** The decision `ensureCity` takes for a player. */
  predicate CityReady(p: Player, city: Place, travelOk: bool)
  {
    InCity(p, city) || (p.money >= TravelFloor && travelOk)
  }

  datatype PassStop = Completed | Broke | NoTravel

  /** Where one run of the `for (const stat in targetStats)` loop leaves
      things: the targets still in the set, the stats whose training was
      started, the player record, the visit count and how the loop ended. */
  datatype PassResult = PassResult(kept: seq<Target>, trained: seq<Stat>, player: Player, visits: nat, stop: PassStop)

  /** The pass from position `i` of the key snapshot `todo`, with `kept`
      and `trained` already accumulated. A stat whose target is below its
      skill is deleted; otherwise the handler makes sure it is in the city
      (returning from `train` when it cannot), fetches the player again and
      starts the workout. A click on the stop button breaks the loop. */
  function PassFrom(todo: seq<Target>, i: nat, kept: seq<Target>, trained: seq<Stat>, p: Player, k: nat,
                    w: World, city: Place): PassResult
    requires i <= |todo|
    decreases |todo| - i
  {
    if i == |todo| then PassResult(kept, trained, p, k, Completed)
    else if Cancelled(w, k) then PassResult(kept + todo[i..], trained, p, k, Broke)
    else if todo[i].goal < Skill(p.skills, todo[i].stat) then PassFrom(todo, i + 1, kept, trained, p, k + 1, w, city)
    else if !CityReady(p, city, w.travelOk(k)) then PassResult(kept + todo[i..], trained, p, k, NoTravel)
    else PassFrom(todo, i + 1, kept + [todo[i]], trained + [todo[i].stat], w.fetched(k), k + 1, w, city)
  }

  function Pass(todo: seq<Target>, p: Player, k: nat, w: World, city: Place): PassResult
  {
    PassFrom(todo, 0, [], [], p, k, w, city)
  }

  /** How `train` ends. `TravelThrows`: a travel to the gym's city was
      needed and failed, and the report of it throws instead of logging,
      since it hands `log` the message where the game handle belongs; the
      exception leaves `train` (after its `finally`) and `main`. `Running`
      stands for a handler still training when the given number of rounds
      has been used up. */
  datatype Outcome = UnknownGym | TravelThrows | AllReached | Canceled | Running

  datatype TrainResult = TrainResult(outcome: Outcome, player: Player, remaining: seq<Target>, workouts: seq<Stat>)

  /** The `while (!cancel)` loop for at most `rounds` more rounds. */
  function Rounds(targets: seq<Target>, p: Player, k: nat, w: World, city: Place, rounds: nat,
                  workouts: seq<Stat>): TrainResult
    decreases rounds
  {
    if rounds == 0 then TrainResult(Running, p, targets, workouts)
    else
      var r := Pass(targets, p, k, w, city);
      var done := workouts + r.trained;
      if r.stop == NoTravel then TrainResult(TravelThrows, r.player, r.kept, done)
      else if r.kept == [] then TrainResult(AllReached, r.player, [], done)
      else if Cancelled(w, r.visits) then TrainResult(Canceled, r.player, r.kept, done)
      else Rounds(r.kept, r.player, r.visits, w, city, rounds - 1, done)
  }

  /** `train`, given the player record fetched on entry. */
  function Training(targets: seq<Target>, gym: string, initial: Player, w: World, rounds: nat): TrainResult
  {
    match GymCity(gym)
    case None => TrainResult(UnknownGym, initial, targets, [])
    case Some(city) => Rounds(targets, initial, 0, w, city, rounds, [])
  }

  // ---------------------------------------------------------------------
  // Properties of a pass and of the training loop

  /** The targets are listed in key order, each stat at most once. */
  predicate Ordered(ts: seq<Target>)
  {
    forall a, b :: 0 <= a < b < |ts| ==> Rank(ts[a].stat) < Rank(ts[b].stat)
  }

  predicate OrderedStats(ss: seq<Stat>)
  {
    forall a, b :: 0 <= a < b < |ss| ==> Rank(ss[a]) < Rank(ss[b])
  }

  /** Every target of `xs` comes before every target of `todo[i..]`. */
  predicate Before(xs: seq<Target>, todo: seq<Target>, i: nat)
  {
    forall a, b :: 0 <= a < |xs| && i <= b < |todo| ==> Rank(xs[a].stat) < Rank(todo[b].stat)
  }

  function StatsOf(ts: seq<Target>): seq<Stat>
  {
    if ts == [] then [] else [ts[0].stat] + StatsOf(ts[1..])
  }

  lemma {:induction false} StatsOfIndex(ts: seq<Target>)
    ensures |StatsOf(ts)| == |ts| && forall j :: 0 <= j < |ts| ==> StatsOf(ts)[j] == ts[j].stat
  {
    if ts != [] {
      StatsOfIndex(ts[1..]);
    }
  }

  lemma InitialTargetsOrdered(str: int, def: int, dex: int, agi: int)
    ensures Ordered(InitialTargets(str, def, dex, agi))
  {
  }

  /** Ordered targets and the ones after them, still ordered. */
  lemma OrderedJoin(kept: seq<Target>, todo: seq<Target>, i: nat)
    requires i <= |todo| && Ordered(kept) && Ordered(todo) && Before(kept, todo, i)
    ensures Ordered(kept + todo[i..])
  {
    var s := kept + todo[i..];
    forall a, b | 0 <= a < b < |s|
      ensures Rank(s[a].stat) < Rank(s[b].stat)
    {
      if b < |kept| {
      } else if a < |kept| {
        assert s[b] == todo[i + b - |kept|];
      } else {
        assert s[a] == todo[i + a - |kept|] && s[b] == todo[i + b - |kept|];
      }
    }
  }

  /** A pass keeps the targets in key order. */
  lemma {:induction false} PassOrdered(todo: seq<Target>, i: nat, kept: seq<Target>, trained: seq<Stat>,
                                       p: Player, k: nat, w: World, city: Place)
    requires i <= |todo| && Ordered(kept) && Ordered(todo) && Before(kept, todo, i)
    ensures Ordered(PassFrom(todo, i, kept, trained, p, k, w, city).kept)
    decreases |todo| - i
  {
    if i < |todo| {
      if Cancelled(w, k) {
        OrderedJoin(kept, todo, i);
      } else if todo[i].goal < Skill(p.skills, todo[i].stat) {
        PassOrdered(todo, i + 1, kept, trained, p, k + 1, w, city);
      } else if !CityReady(p, city, w.travelOk(k)) {
        OrderedJoin(kept, todo, i);
      } else {
        PassOrdered(todo, i + 1, kept + [todo[i]], trained + [todo[i].stat], w.fetched(k), k + 1, w, city);
      }
    }
  }

  /** A pass keeps only targets it was given, each with its own goal. */
  lemma {:induction false} PassKeepsGiven(todo: seq<Target>, i: nat, kept: seq<Target>, trained: seq<Stat>,
                                          p: Player, k: nat, w: World, city: Place, x: Target)
    requires i <= |todo| && x in PassFrom(todo, i, kept, trained, p, k, w, city).kept
    ensures x in kept || x in todo[i..]
    decreases |todo| - i
  {
    if i < |todo| && !Cancelled(w, k) {
      assert todo[i..] == [todo[i]] + todo[i + 1..];
      if todo[i].goal < Skill(p.skills, todo[i].stat) {
        PassKeepsGiven(todo, i + 1, kept, trained, p, k + 1, w, city, x);
      } else if CityReady(p, city, w.travelOk(k)) {
        PassKeepsGiven(todo, i + 1, kept + [todo[i]], trained + [todo[i].stat], w.fetched(k), k + 1, w, city, x);
      }
    }
  }

  /** The workouts a pass starts are those of the targets it keeps, up to
      where it stopped: all of them when it completes. */
  lemma {:induction false} PassTrainsKept(todo: seq<Target>, i: nat, kept: seq<Target>, trained: seq<Stat>,
                                          p: Player, k: nat, w: World, city: Place)
    requires i <= |todo| && trained == StatsOf(kept)
    ensures var r := PassFrom(todo, i, kept, trained, p, k, w, city);
      |r.trained| <= |r.kept| && r.trained == StatsOf(r.kept[..|r.trained|]) &&
      (r.stop == Completed ==> r.trained == StatsOf(r.kept))
    decreases |todo| - i
  {
    StatsOfIndex(kept);
    if i == |todo| {
      assert kept[..|trained|] == kept;
    } else if Cancelled(w, k) || (todo[i].goal >= Skill(p.skills, todo[i].stat) && !CityReady(p, city, w.travelOk(k))) {
      assert (kept + todo[i..])[..|trained|] == kept;
    } else if todo[i].goal < Skill(p.skills, todo[i].stat) {
      PassTrainsKept(todo, i + 1, kept, trained, p, k + 1, w, city);
    } else {
      StatsOfSnoc(kept, todo[i]);
      PassTrainsKept(todo, i + 1, kept + [todo[i]], trained + [todo[i].stat], w.fetched(k), k + 1, w, city);
    }
  }

  lemma {:induction false} StatsOfSnoc(ts: seq<Target>, x: Target)
    ensures StatsOf(ts + [x]) == StatsOf(ts) + [x.stat]
  {
    StatsOfIndex(ts);
    StatsOfIndex(ts + [x]);
  }

  /** Within a pass the workouts start in key order, each stat at most
      once. */
  lemma PassWorkoutsInOrder(todo: seq<Target>, p: Player, k: nat, w: World, city: Place)
    requires Ordered(todo)
    ensures OrderedStats(Pass(todo, p, k, w, city).trained)
  {
    var r := Pass(todo, p, k, w, city);
    PassOrdered(todo, 0, [], [], p, k, w, city);
    PassTrainsKept(todo, 0, [], [], p, k, w, city);
    StatsOfIndex(r.kept[..|r.trained|]);
  }

  /** A target at least as high as every skill the game reports for its
      stat is never dropped: the comparison is strict, so a skill equal to
      the target keeps training. */
  lemma {:induction false} UnreachedStays(todo: seq<Target>, i: nat, kept: seq<Target>, trained: seq<Stat>,
                                          p: Player, k: nat, w: World, city: Place, x: Target)
    requires i <= |todo| && (x in kept || x in todo[i..])
    requires x.goal >= Skill(p.skills, x.stat)
    requires forall j :: x.goal >= Skill(w.fetched(j).skills, x.stat)
    ensures x in PassFrom(todo, i, kept, trained, p, k, w, city).kept
    decreases |todo| - i
  {
    if i < |todo| && !Cancelled(w, k) {
      assert todo[i..] == [todo[i]] + todo[i + 1..];
      if todo[i].goal < Skill(p.skills, todo[i].stat) {
        assert x != todo[i];
        UnreachedStays(todo, i + 1, kept, trained, p, k + 1, w, city, x);
      } else if CityReady(p, city, w.travelOk(k)) {
        UnreachedStays(todo, i + 1, kept + [todo[i]], trained + [todo[i].stat], w.fetched(k), k + 1, w, city, x);
      }
    }
  }

  /** The targets of `ts` not yet passed by the skills `s`, in order. */
  function Unreached(ts: seq<Target>, s: Skills): seq<Target>
  {
    if ts == [] then []
    else (if ts[0].goal >= Skill(s, ts[0].stat) then [ts[0]] else []) + Unreached(ts[1..], s)
  }

  lemma {:induction false} UnreachedSpec(ts: seq<Target>, s: Skills, x: Target)
    ensures x in Unreached(ts, s) <==> x in ts && x.goal >= Skill(s, x.stat)
  {
    if ts != [] {
      UnreachedSpec(ts[1..], s, x);
      assert ts == [ts[0]] + ts[1..];
    }
  }

  /** In a steady game (nobody clicks stop, the player is already in the
      gym's city and the record does not change) a pass keeps exactly the
      targets not yet passed, in order, and trains each of them once. */
  lemma {:induction false} SteadyPass(todo: seq<Target>, i: nat, kept: seq<Target>, trained: seq<Stat>,
                                      p: Player, k: nat, w: World, city: Place)
    requires i <= |todo| && InCity(p, city)
    requires forall j :: k <= j < k + |todo| - i ==> !w.clicked(j) && w.fetched(j) == p
    ensures var r := PassFrom(todo, i, kept, trained, p, k, w, city);
      && r.kept == kept + Unreached(todo[i..], p.skills)
      && r.trained == trained + StatsOf(Unreached(todo[i..], p.skills))
      && r.player == p && r.visits == k + |todo| - i && r.stop == Completed
    decreases |todo| - i
  {
    if i == |todo| {
      assert todo[i..] == [];
    } else {
      var x := todo[i];
      var rest := Unreached(todo[i + 1..], p.skills);
      assert todo[i..][1..] == todo[i + 1..];
      if x.goal < Skill(p.skills, x.stat) {
        SteadyPass(todo, i + 1, kept, trained, p, k + 1, w, city);
        assert Unreached(todo[i..], p.skills) == rest;
      } else {
        SteadyPass(todo, i + 1, kept + [x], trained + [x.stat], w.fetched(k), k + 1, w, city);
        assert Unreached(todo[i..], p.skills) == [x] + rest;
        assert ([x] + rest)[1..] == rest;
      }
    }
  }

  /** `train` reports that all targets are reached only when the target set
      is empty, and never while a target stays at or above every skill the
      game reports for its stat. */
  lemma {:induction false} NeverReachedNeverDone(targets: seq<Target>, p: Player, k: nat, w: World, city: Place,
                                                 rounds: nat, workouts: seq<Stat>, x: Target)
    requires x in targets
    requires x.goal >= Skill(p.skills, x.stat)
    requires forall j :: x.goal >= Skill(w.fetched(j).skills, x.stat)
    ensures var r := Rounds(targets, p, k, w, city, rounds, workouts);
      r.outcome != AllReached && x in r.remaining
    decreases rounds
  {
    if rounds > 0 {
      var r := Pass(targets, p, k, w, city);
      assert targets == [] + targets[0..];
      UnreachedStays(targets, 0, [], [], p, k, w, city, x);
      if r.stop != NoTravel && r.kept != [] && !Cancelled(w, r.visits) {
        PassPlayerFrom(targets, 0, [], [], p, k, w, city);
        NeverReachedNeverDone(r.kept, r.player, r.visits, w, city, rounds - 1, workouts + r.trained, x);
      }
    }
  }

  /** A pass over targets all below their skills deletes every one of them
      without travelling or fetching, wherever the player is. */
  lemma {:induction false} ReachedPass(todo: seq<Target>, i: nat, kept: seq<Target>, trained: seq<Stat>,
                                       p: Player, k: nat, w: World, city: Place)
    requires i <= |todo|
    requires forall j :: i <= j < |todo| ==> todo[j].goal < Skill(p.skills, todo[j].stat)
    requires forall j :: k <= j < k + |todo| - i ==> !w.clicked(j)
    ensures PassFrom(todo, i, kept, trained, p, k, w, city) == PassResult(kept, trained, p, k + |todo| - i, Completed)
    decreases |todo| - i
  {
    if i < |todo| {
      ReachedPass(todo, i + 1, kept, trained, p, k + 1, w, city);
    }
  }

  /** When nobody clicks stop and every skill is already above its target,
      the first round empties the target set and `train` reports it, in
      whatever city the player is and whatever the gym's place is. */
  lemma SteadyAllReached(targets: seq<Target>, p: Player, w: World, city: Place, rounds: nat)
    requires rounds > 0 && Unreached(targets, p.skills) == []
    requires forall j :: 0 <= j < |targets| ==> !w.clicked(j)
    ensures Rounds(targets, p, 0, w, city, rounds, []).outcome == AllReached
  {
    forall j | 0 <= j < |targets|
      ensures targets[j].goal < Skill(p.skills, targets[j].stat)
    {
      UnreachedSpec(targets, p.skills, targets[j]);
    }
    ReachedPass(targets, 0, [], [], p, 0, w, city);
  }

  /** A pass reaching a target not yet passed, for a player away from the
      gym's place and with less than the travel floor, stops there: the
      handler cannot travel. */
  lemma {:induction false} PoorPass(todo: seq<Target>, i: nat, kept: seq<Target>, trained: seq<Stat>,
                                    p: Player, k: nat, w: World, city: Place)
    requires i <= |todo| && !InCity(p, city) && p.money < TravelFloor
    requires exists j :: i <= j < |todo| && todo[j].goal >= Skill(p.skills, todo[j].stat)
    requires forall j :: k <= j < k + |todo| - i ==> !w.clicked(j)
    ensures PassFrom(todo, i, kept, trained, p, k, w, city).stop == NoTravel
    decreases |todo| - i
  {
    if todo[i].goal < Skill(p.skills, todo[i].stat) {
      var j :| i <= j < |todo| && todo[j].goal >= Skill(p.skills, todo[j].stat);
      assert j != i;
      PoorPass(todo, i + 1, kept, trained, p, k + 1, w, city);
    }
  }

  /** No gym of the table has the name of an inherited property. */
  lemma InheritedIsNoCity(gym: string)
    requires gym in InheritedNames
    ensures GymCity(gym) == Some(ProtoMember)
  {
    assert gym !in KnownGyms;
  }

  /** Training rounds for a player away from the gym's place, with less
      than the travel floor and a target left, end with the failed travel,
      whose report throws. */
  lemma PoorRounds(targets: seq<Target>, p: Player, w: World, city: Place, rounds: nat)
    requires rounds > 0 && !InCity(p, city) && p.money < TravelFloor
    requires Unreached(targets, p.skills) != []
    requires forall j :: 0 <= j < |targets| ==> !w.clicked(j)
    ensures Rounds(targets, p, 0, w, city, rounds, []).outcome == TravelThrows
  {
    var x := Unreached(targets, p.skills)[0];
    UnreachedSpec(targets, p.skills, x);
    var j :| 0 <= j < |targets| && targets[j] == x;
    assert targets[j].goal >= Skill(p.skills, targets[j].stat);
    PoorPass(targets, 0, [], [], p, 0, w, city);
  }

  /** A name inherited from `Object.prototype` passes the gym check, but
      the place it gives is no city: with every target passed `train`
      reports all reached, and with a target left and too little money to
      travel it ends by the throw of the travel-failure report. */
  lemma InheritedGymOutcomes(targets: seq<Target>, gym: string, initial: Player, w: World, rounds: nat)
    requires gym in InheritedNames && rounds > 0
    requires forall j :: 0 <= j < |targets| ==> !w.clicked(j)
    ensures GymCity(gym) == Some(ProtoMember)
    ensures var r := Training(targets, gym, initial, w, rounds);
      && (Unreached(targets, initial.skills) == [] ==> r.outcome == AllReached)
      && (Unreached(targets, initial.skills) != [] && initial.money < TravelFloor ==> r.outcome == TravelThrows)
  {
    InheritedIsNoCity(gym);
    assert Training(targets, gym, initial, w, rounds) == Rounds(targets, initial, 0, w, ProtoMember, rounds, []);
    if Unreached(targets, initial.skills) == [] {
      SteadyAllReached(targets, initial, w, ProtoMember, rounds);
    } else if initial.money < TravelFloor {
      PoorRounds(targets, initial, w, ProtoMember, rounds);
    }
  }

  /** The player record after a pass is the one it started with or one the
      game reported. */
  lemma {:induction false} PassPlayerFrom(todo: seq<Target>, i: nat, kept: seq<Target>, trained: seq<Stat>,
                                          p: Player, k: nat, w: World, city: Place)
    requires i <= |todo|
    ensures var r := PassFrom(todo, i, kept, trained, p, k, w, city);
      r.player == p || exists j :: r.player == w.fetched(j)
    decreases |todo| - i
  {
    if i < |todo| && !Cancelled(w, k) {
      if todo[i].goal < Skill(p.skills, todo[i].stat) {
        PassPlayerFrom(todo, i + 1, kept, trained, p, k + 1, w, city);
      } else if CityReady(p, city, w.travelOk(k)) {
        PassPlayerFrom(todo, i + 1, kept + [todo[i]], trained + [todo[i].stat], w.fetched(k), k + 1, w, city);
      }
    }
  }

  /** An all-reached outcome leaves no target, and only an unknown gym ends
      `train` before the loop. */
  lemma {:induction false} TrainOutcomes(targets: seq<Target>, gym: string, initial: Player, w: World, rounds: nat)
    ensures var r := Training(targets, gym, initial, w, rounds);
      && (r.outcome == UnknownGym <==> GymCity(gym).None?)
      && (r.outcome == AllReached ==> r.remaining == [])
      && (r.outcome == UnknownGym ==> r.workouts == [] && r.player == initial)
  {
    if GymCity(gym).Some? {
      RoundsOutcomes(targets, initial, 0, w, GymCity(gym).value, rounds, []);
    }
  }

  lemma {:induction false} RoundsOutcomes(targets: seq<Target>, p: Player, k: nat, w: World, city: Place,
                                          rounds: nat, workouts: seq<Stat>)
    ensures var r := Rounds(targets, p, k, w, city, rounds, workouts);
      r.outcome != UnknownGym && (r.outcome == AllReached ==> r.remaining == [])
    decreases rounds
  {
    if rounds > 0 {
      var r := Pass(targets, p, k, w, city);
      if r.stop != NoTravel && r.kept != [] && !Cancelled(w, r.visits) {
        RoundsOutcomes(r.kept, r.player, r.visits, w, city, rounds - 1, workouts + r.trained);
      }
    }
  }

  // ---------------------------------------------------------------------
  // The handler object

  class GymHandler {
    var target: int
    var period: nat
    var gym: string
    var verbose: bool
    /** `this.player`: undefined until `train` fetches it. */
    var player: Option<Player>
    /** The workouts started through `gymWorkout`, oldest first. */
    var workouts: seq<Stat>

    constructor (target: int, period: nat, gym: string, verbose: bool)
      ensures this.target == target && this.period == period && this.gym == gym && this.verbose == verbose
      ensures player == None && workouts == []
    {
      this.target := target;
      this.period := period;
      this.gym := gym;
      this.verbose := verbose;
      player := None;
      workouts := [];
    }

    /** `ensureCity`: no travel when already in the city; otherwise a
        travel request only with enough money, and the answer says whether
        the handler is in the city now. */
    method EnsureCity(targetCity: Place, travelOk: bool) returns (ok: bool, travelled: bool)
      requires player.Some?
      ensures travelled <==> !InCity(player.value, targetCity) && player.value.money >= TravelFloor
      ensures ok <==> InCity(player.value, targetCity) || (travelled && travelOk)
      ensures ok == CityReady(player.value, targetCity, travelOk)
    {
      travelled := false;
      if !InCity(player.value, targetCity) {
        if player.value.money < TravelFloor {
          return false, false;
        }
        travelled := true;
        if !travelOk {
          return false, true;
        }
      }
      return true, travelled;
    }

    /** One run of the `for ... in targetStats` loop over the snapshot
        `todo`. */
    method RunPass(todo: seq<Target>, city: Place, w: World, k0: nat) returns (r: PassResult)
      requires player.Some?
      modifies this
      ensures r == Pass(todo, old(player.value), k0, w, city)
      ensures player == Some(r.player) && workouts == old(workouts) + r.trained
      ensures target == old(target) && period == old(period) && gym == old(gym) && verbose == old(verbose)
    {
      var kept: seq<Target> := [];
      var trained: seq<Stat> := [];
      var k := k0;
      var i := 0;
      ghost var start := player.value;
      while i < |todo|
        invariant i <= |todo| && player.Some?
        invariant PassFrom(todo, i, kept, trained, player.value, k, w, city) == Pass(todo, start, k0, w, city)
        invariant workouts == old(workouts) + trained
        invariant target == old(target) && period == old(period) && gym == old(gym) && verbose == old(verbose)
        decreases |todo| - i
      {
        if Cancelled(w, k) {
          return PassResult(kept + todo[i..], trained, player.value, k, Broke);
        }
        var x := todo[i];
        if x.goal < Skill(player.value.skills, x.stat) {
          i, k := i + 1, k + 1;
          continue;
        }
        var ok, _ := EnsureCity(city, w.travelOk(k));
        if !ok {
          return PassResult(kept + todo[i..], trained, player.value, k, NoTravel);
        }
        player := Some(w.fetched(k));
        workouts := workouts + [x.stat];
        kept, trained := kept + [x], trained + [x.stat];
        i, k := i + 1, k + 1;
      }
      return PassResult(kept, trained, player.value, k, Completed);
    }

    /** `train(strTarget, defTarget, dexTarget, agiTarget, period, gym)`,
        given the record `ns.getPlayer()` returns on entry, for at most
        `rounds` rounds of the `while (!cancel)` loop. */
    method Train(str: int, def: int, dex: int, agi: int, period: nat, gym: string, initial: Player, w: World,
                 rounds: nat) returns (outcome: Outcome)
      modifies this
      ensures var r := Training(InitialTargets(str, def, dex, agi), gym, initial, w, rounds);
        outcome == r.outcome && player == Some(r.player) && workouts == old(workouts) + r.workouts
      ensures target == old(target) && this.period == old(this.period) && this.gym == old(this.gym)
    {
      player := Some(initial);
      var city := GymCity(gym);
      if city.None? {
        return UnknownGym;
      }
      var targets := InitialTargets(str, def, dex, agi);
      var k := 0;
      var left := rounds;
      ghost var done: seq<Stat> := [];
      while left > 0
        invariant player.Some? && workouts == old(workouts) + done
        invariant Rounds(targets, player.value, k, w, city.value, left, done) ==
          Rounds(InitialTargets(str, def, dex, agi), initial, 0, w, city.value, rounds, [])
        invariant target == old(target) && this.period == old(this.period) && this.gym == old(this.gym)
        decreases left
      {
        var r := RunPass(targets, city.value, w, k);
        done := done + r.trained;
        if r.stop == NoTravel {
          return TravelThrows;
        }
        if r.kept == [] {
          return AllReached;
        }
        if Cancelled(w, r.visits) {
          return Canceled;
        }
        targets, k, left := r.kept, r.visits, left - 1;
      }
      return Running;
    }
  }

  // ---------------------------------------------------------------------
  // main

  /** The flags `main` reads. */
  class Options {
    var strength: int
    var defense: int
    var dexterity: int
    var agility: int
    var stats: int
    var period: string
    var gym: string

    constructor (strength: int, defense: int, dexterity: int, agility: int, stats: int, period: string, gym: string)
      ensures this.strength == strength && this.defense == defense && this.dexterity == dexterity
      ensures this.agility == agility && this.stats == stats && this.period == period && this.gym == gym
    {
      this.strength := strength;
      this.defense := defense;
      this.dexterity := dexterity;
      this.agility := agility;
      this.stats := stats;
      this.period := period;
      this.gym := gym;
    }

    /** `--stats` overrides each of the four targets it exceeds. */
    method RaiseToStats()
      modifies this
      ensures strength == Raised(old(strength), stats) && defense == Raised(old(defense), stats)
      ensures dexterity == Raised(old(dexterity), stats) && agility == Raised(old(agility), stats)
      ensures stats == old(stats) && period == old(period) && gym == old(gym)
    {
      if stats > strength { strength := stats; }
      if stats > defense { defense := stats; }
      if stats > dexterity { dexterity := stats; }
      if stats > agility { agility := stats; }
    }
  }

  /** A target after the `--stats` override: never lowered, at least
      `stats`, and one of the two. */
  function Raised(t: int, stats: int): (r: int)
    ensures r >= t && r >= stats && (r == t || r == stats)
  {
    if stats > t then stats else t
  }

  /** `main`: parse the period, apply the override and train with a fresh
      handler whose default target is `--stats`. */
  method Start(options: Options, initial: Player, w: World, rounds: nat) returns (handler: GymHandler, outcome: Outcome)
    modifies options
    ensures fresh(handler) && handler.target == options.stats && handler.period == Duration.ParseTime(options.period)
    ensures var r := Training(InitialTargets(options.strength, options.defense, options.dexterity, options.agility),
                           options.gym, initial, w, rounds);
      outcome == r.outcome && handler.workouts == r.workouts
    ensures options.strength == Raised(old(options.strength), options.stats)
    ensures options.defense == Raised(old(options.defense), options.stats)
    ensures options.dexterity == Raised(old(options.dexterity), options.stats)
    ensures options.agility == Raised(old(options.agility), options.stats)
  {
    var period := Duration.ParseTime(options.period);
    options.RaiseToStats();
    handler := new GymHandler(options.stats, period, options.gym, false);
    outcome := handler.Train(options.strength, options.defense, options.dexterity, options.agility, period,
                             options.gym, initial, w, rounds);
  }
}
