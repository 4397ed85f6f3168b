/** The goals of infiltrate.js: which faction a command-line goal names,
    the `LoopAction` objects that hold a goal (`setGoal`, `evaluateGoal`),
    the chain they are queued in, when a goal counts as met (`checkGoal`)
    and the "max" goal's choice of augmentation (`evaluateMax`).

    Host calls become a `World` snapshot; `parseShortNumber` (a helper not
    shown here) is a parameter. */
module InfiltrateGoals {
  import opened Common

  // ---------------------------------------------------------------------
  // Factions

  /** The keys of `canInfiltrateFor`, in declaration order. */
  const FactionKeys: seq<string> := [
    "Illuminati", "Daedalus", "The Covenant",
    "ECorp", "MegaCorp", "Bachman & Associates", "Blade Industries", "NWO", "Clarke Incorporated",
    "OmniTek Incorporated", "Four Sigma", "KuaiGong International", "Fulcrum Secret Technologies",
    "BitRunners", "The Black Hand", "NiteSec",
    "Aevum", "Chongqing", "Ishima", "New Tokyo", "Sector-12", "Volhaven",
    "Speakers for the Dead", "The Dark Army", "The Syndicate", "Silhouette", "Tetrads", "Slum Snakes",
    "Netburners", "Tian Di Hui", "CyberSec",
    "Bladeburners", "Church of the Machine God", "Shadows of Anarchy"]

  /** The last three keys map to `false`: they can be named but not traded to. */
  const NotInfiltrable: seq<string> := ["Bladeburners", "Church of the Machine God", "Shadows of Anarchy"]

  /** `canInfiltrateFor[name]` is truthy. */
  predicate CanInfiltrateFor(name: string)
  {
    name in FactionKeys && name !in NotInfiltrable
  }

  // ---------------------------------------------------------------------
  // Strings

  /** `toLowerCase` on ASCII letters. */
  function Lower(s: string): string
  {
    if s == [] then [] else [LowerChar(s[0])] + Lower(s[1..])
  }

  function LowerChar(c: char): char
  {
    if 'A' <= c <= 'Z' then (c as int + 32) as char else c
  }

  predicate StartsWith(s: string, p: string)
  {
    |p| <= |s| && s[..|p|] == p
  }

  /** `s.includes(p)`: `p` occurs in `s` at some position. */
  predicate Contains(s: string, p: string)
  {
    StartsWith(s, p) || (s != [] && Contains(s[1..], p))
  }

  function TrimStart(s: string): string
  {
    if s != [] && IsSpace(s[0]) then TrimStart(s[1..]) else s
  }

  function TrimEnd(s: string): string
  {
    if s != [] && IsSpace(s[|s| - 1]) then TrimEnd(s[..|s| - 1]) else s
  }

  function Trim(s: string): string
  {
    TrimEnd(TrimStart(s))
  }

  /** `s.replace(/_/g, ' ')`. */
  function Underscores(s: string): (r: string)
    ensures |r| == |s|
    ensures forall i :: 0 <= i < |s| ==> r[i] == if s[i] == '_' then ' ' else s[i]
  {
    if s == [] then [] else [if s[0] == '_' then ' ' else s[0]] + Underscores(s[1..])
  }

  /** `[target, value] = goal.split(':')`: the text before the first ':'
      and, when there is a ':', the text between it and the next one. */
  function SplitGoal(goal: string): (string, Option<string>)
  {
    var k := IndexOf(goal, ':');
    if k < 0 then (goal, None)
    else
      var rest := goal[k + 1..];
      var j := IndexOf(rest, ':');
      (goal[..k], Some(if j < 0 then rest else rest[..j]))
  }

  /** The test each search applies to a lowercased key. */
  predicate Pass(key: string, t: string, prefix: bool)
  {
    if prefix then StartsWith(Lower(key), t) else Contains(Lower(key), t)
  }

  /** `findIndex` of the first key that passes the test. */
  function FindKey(keys: seq<string>, t: string, prefix: bool): (r: Option<nat>)
    ensures r.Some? ==> r.value < |keys|
  {
    if keys == [] then None
    else if Pass(keys[0], t, prefix) then Some(0)
    else
      var r := FindKey(keys[1..], t, prefix);
      if r.None? then None else Some(r.value + 1)
  }

  /** Resolution against a list of keys: the first key that starts with
      the target, ignoring case; failing that, the first that contains it. */
  function ResolveIn(keys: seq<string>, target: string): (r: Option<string>)
    ensures r.Some? ==> r.value in keys
  {
    var t := Lower(target);
    var i := FindKey(keys, t, true);
    if i.Some? then Some(keys[i.value])
    else
      var j := FindKey(keys, t, false);
      if j.Some? then Some(keys[j.value]) else None
  }

  /** The faction a goal's target names, among the keys of `canInfiltrateFor`. */
  function ResolveTarget(target: string): Option<string>
  {
    ResolveIn(FactionKeys, target)
  }

  lemma {:induction false} FindKeyFirst(keys: seq<string>, t: string, prefix: bool)
    ensures var r := FindKey(keys, t, prefix);
      && (r.Some? ==> Pass(keys[r.value], t, prefix) && forall i :: 0 <= i < r.value ==> !Pass(keys[i], t, prefix))
      && (r.None? ==> forall i :: 0 <= i < |keys| ==> !Pass(keys[i], t, prefix))
  {
    if keys != [] {
      FindKeyFirst(keys[1..], t, prefix);
      var r := FindKey(keys[1..], t, prefix);
      if !Pass(keys[0], t, prefix) && r.Some? {
        forall i | 0 <= i < r.value + 1
          ensures !Pass(keys[i], t, prefix)
        {
          if i > 0 {
            assert keys[i] == keys[1..][i - 1];
          }
        }
      }
    }
  }

  lemma {:induction false} StartsWithContains(s: string, p: string)
    requires StartsWith(s, p)
    ensures Contains(s, p)
  {
  }

  /** Resolution picks the earliest key that has the target as a prefix,
      ignoring case; if there is none, the earliest key that contains it;
      and none only when no key contains it. */
  lemma ResolveInSpec(keys: seq<string>, target: string)
    ensures var t := Lower(target);
      var r := ResolveIn(keys, target);
      && (r.Some? ==>
            exists i :: 0 <= i < |keys| && keys[i] == r.value &&
              (forall j :: 0 <= j < i ==> !StartsWith(Lower(keys[j]), t)) &&
              (StartsWith(Lower(keys[i]), t) ||
                ((forall j :: 0 <= j < |keys| ==> !StartsWith(Lower(keys[j]), t)) &&
                 Contains(Lower(keys[i]), t) && forall j :: 0 <= j < i ==> !Contains(Lower(keys[j]), t))))
      && (r.None? <==> forall i :: 0 <= i < |keys| ==> !Contains(Lower(keys[i]), t))
  {
    var t := Lower(target);
    FindKeyFirst(keys, t, true);
    FindKeyFirst(keys, t, false);
    var i := FindKey(keys, t, true);
    if i.None? {
      var j := FindKey(keys, t, false);
      if j.Some? {
        forall q | 0 <= q < j.value
          ensures !StartsWith(Lower(keys[q]), t)
        {
          var kq := Lower(keys[q]);
          if StartsWith(kq, t) {
            StartsWithContains(kq, t);
          }
        }
      }
    } else {
      var k := i.value;
      assert Pass(keys[k], t, true);
      StartsWithContains(Lower(keys[k]), t);
    }
  }

  /** An empty target (a goal such as ":100") names the first faction. */
  lemma EmptyTargetIsIlluminati()
    ensures ResolveTarget("") == Some("Illuminati")
  {
    assert StartsWith(Lower(FactionKeys[0]), Lower(""));
  }

  // ---------------------------------------------------------------------
  // Actions and goals

  datatype Kind = Sell | Trade | Manual

  /** A JavaScript number, as far as goals need one. */
  datatype Num = Finite(v: real) | NaN

  /** What `this.goal` holds: nothing yet, a number, or the strings "max"
      and "donate" awaiting evaluation. */
  datatype Goal = Undefined | Amount(n: Num) | Max | Donate

  /** The value passed to `setGoal`: a command-line string, or the number
      `main` passes for manual mode. */
  datatype GoalArg = Text(s: string) | Number(x: real)

  predicate EndsWithX(s: string)
  {
    s != [] && s[|s| - 1] == 'x'
  }

  /** `setGoal` as written. A string ending in 'x' asks for a multiple of
      the money or rep reward, but those rewards are still undefined when
      `main` parses goals, so such a goal is NaN. A number argument fails
      at `goal?.toLowerCase()`, which is not a function on numbers. */
  function ParseGoal(kind: Kind, arg: GoalArg, parseShortNumber: string -> Num): (r: Result<Goal>)
    ensures arg.Number? ==> r.Err?
    ensures r.Ok? && (r.value == Max || r.value == Donate) ==> kind != Sell
    ensures kind == Sell && arg.Text? && !EndsWithX(Lower(arg.s)) && parseShortNumber(arg.s) == NaN ==> r.Err?
    ensures (arg.Text? && arg.s != "max" && arg.s != "donate" && !EndsWithX(Lower(arg.s)) &&
             parseShortNumber(arg.s) == NaN) ==> r.Err?
  {
    match arg
    case Number(_) => Err("TypeError: goal?.toLowerCase is not a function")
    case Text(g) => ParseText(kind, g, parseShortNumber)
  }

  /** `setGoal` on a string. */
  function ParseText(kind: Kind, g: string, parseShortNumber: string -> Num): Result<Goal>
  {
    if EndsWithX(Lower(g)) && g != "max" && kind != Manual then Ok(Amount(NaN))
    else match parseShortNumber(g)
      case Finite(v) => Ok(Amount(Finite(v)))
      case NaN =>
        if kind == Sell then Err("Goal must be a number for a sell action")
        else if g != "max" && g != "donate" then Err("Goal must be a number, \"max\", or \"donate\" for a trade action")
        else Ok(if g == "max" then Max else Donate)
  }

  /** `setGoal` accepting a number as the number itself. */
  function ParseGoalFixed(kind: Kind, arg: GoalArg, parseShortNumber: string -> Num): (r: Result<Goal>)
    ensures arg.Number? ==> r == Ok(Amount(Finite(arg.x)))
    ensures arg.Text? ==> r == ParseGoal(kind, arg, parseShortNumber)
  {
    match arg
    case Number(x) => Ok(Amount(Finite(x)))
    case Text(g) => ParseText(kind, g, parseShortNumber)
  }

  /** A `LoopAction`: its kind and target are fixed, its goal is set and
      later evaluated in place. */
  class LoopAction {
    const kind: Kind
    const target: string
    var goal: Goal

    /** `new LoopAction(type, target)`; the goal starts undefined. */
    constructor (kind: Kind, target: string)
      ensures this.kind == kind && this.target == target && goal == Undefined
    {
      this.kind := kind;
      this.target := target;
      goal := Undefined;
    }

    /** `setGoal` as written: on an error the action is left as it was. */
    method SetGoal(arg: GoalArg, parseShortNumber: string -> Num) returns (r: Result<LoopAction>)
      modifies this
      ensures var p := ParseGoal(kind, arg, parseShortNumber);
        && (p.Ok? ==> r == Ok(this) && goal == p.value)
        && (p.Err? ==> r == Err(p.error) && goal == old(goal))
    {
      if arg.Number? {
        return Err("TypeError: goal?.toLowerCase is not a function");
      }
      var g := arg.s;
      if EndsWithX(Lower(g)) && g != "max" {
        if kind == Sell {
          goal := Amount(NaN);
          return Ok(this);
        } else if kind == Trade {
          goal := Amount(NaN);
          return Ok(this);
        }
      }
      var parsed := parseShortNumber(g);
      if parsed.NaN? {
        if kind == Sell {
          return Err("Goal must be a number for a sell action");
        }
        if g != "max" && g != "donate" {
          return Err("Goal must be a number, \"max\", or \"donate\" for a trade action");
        }
        goal := if g == "max" then Max else Donate;
      } else {
        goal := Amount(parsed);
      }
      return Ok(this);
    }

    /** `setGoal` with numbers accepted. */
    method SetGoalFixed(arg: GoalArg, parseShortNumber: string -> Num) returns (r: Result<LoopAction>)
      modifies this
      ensures var p := ParseGoalFixed(kind, arg, parseShortNumber);
        && (p.Ok? ==> r == Ok(this) && goal == p.value)
        && (p.Err? ==> r == Err(p.error) && goal == old(goal))
    {
      if arg.Number? {
        goal := Amount(Finite(arg.x));
        return Ok(this);
      }
      r := SetGoal(arg, parseShortNumber);
    }
  }

  /** `LoopActionChain`: the actions in the order they were added. */
  class LoopActionChain {
    var actions: seq<LoopAction>

    constructor ()
      ensures actions == []
    {
      actions := [];
    }

    /** `add`; the `instanceof` check is the parameter's type. */
    method Add(action: LoopAction)
      modifies this
      ensures actions == old(actions) + [action]
    {
      actions := actions + [action];
    }
  }

  // ---------------------------------------------------------------------
  // Parsing the command line

  /** An action as a value: what an entry of the chain holds. */
  datatype ActionVal = ActionVal(kind: Kind, target: string, goal: Goal)

  function Val(a: LoopAction): ActionVal
    reads a
  {
    ActionVal(a.kind, a.target, a.goal)
  }

  function Vals(actions: seq<LoopAction>): (r: seq<ActionVal>)
    reads actions
    ensures |r| == |actions|
    ensures forall i :: 0 <= i < |actions| ==> r[i] == Val(actions[i])
  {
    if actions == [] then [] else [Val(actions[0])] + Vals(actions[1..])
  }

  /** Where one command-line goal leads before its value is parsed:
      skipped (no value, or a target that names no faction and is not
      '$'), or an action kind, its target and the value text. */
  function ClassifyGoal(keys: seq<string>, goal: string): (r: Option<(Kind, string, string)>)
    ensures r.Some? ==> (r.value.0 == Sell && r.value.1 == "") || (r.value.0 == Trade && r.value.1 in keys)
  {
    var (rawTarget, value) := SplitGoal(goal);
    var target := Trim(Underscores(rawTarget));
    if value.None? then None
    else
      var resolved := ResolveIn(keys, target);
      if resolved.Some? then Some((Trade, resolved.value, value.value))
      else if target == "$" then Some((Sell, "", value.value))
      else None
  }

  /** What one command-line goal contributes: nothing (skipped with a
      warning), an action, or an error that ends the script. */
  function GoalAction(keys: seq<string>, goal: string, parseShortNumber: string -> Num, fixed: bool): Result<Option<ActionVal>>
  {
    match ClassifyGoal(keys, goal)
    case None => Ok(None)
    case Some((kind, target, value)) =>
      var g := if fixed then ParseGoalFixed(kind, Text(value), parseShortNumber)
               else ParseGoal(kind, Text(value), parseShortNumber);
      if g.Err? then Err(g.error) else Ok(Some(ActionVal(kind, target, g.value)))
  }

  /** The chain `main` builds, as values. With no goals at all it is a
      single manual action with goal 0. */
  function Plan(keys: seq<string>, goals: seq<string>, parseShortNumber: string -> Num, fixed: bool): Result<seq<ActionVal>>
  {
    if goals == [] then
      var g := if fixed then ParseGoalFixed(Manual, Number(0.0), parseShortNumber)
               else ParseGoal(Manual, Number(0.0), parseShortNumber);
      if g.Err? then Err(g.error) else Ok([ActionVal(Manual, "", g.value)])
    else PlanGoals(keys, goals, parseShortNumber, fixed)
  }

  function PlanGoals(keys: seq<string>, goals: seq<string>, parseShortNumber: string -> Num, fixed: bool): Result<seq<ActionVal>>
  {
    if goals == [] then Ok([])
    else
      var prev := PlanGoals(keys, goals[..|goals| - 1], parseShortNumber, fixed);
      if prev.Err? then prev
      else
        var a := GoalAction(keys, goals[|goals| - 1], parseShortNumber, fixed);
        if a.Err? then Err(a.error)
        else Ok(prev.value + if a.value.Some? then [a.value.value] else [])
  }

  /** One more goal extends the plan by what that goal contributes... */
  lemma PlanGoalsStepOk(keys: seq<string>, goals: seq<string>, i: nat, parseShortNumber: string -> Num, fixed: bool,
                        prev: seq<ActionVal>, added: Option<ActionVal>)
    requires i < |goals|
    requires PlanGoals(keys, goals[..i], parseShortNumber, fixed) == Ok(prev)
    requires GoalAction(keys, goals[i], parseShortNumber, fixed) == Ok(added)
    ensures PlanGoals(keys, goals[..i + 1], parseShortNumber, fixed) == Ok(prev + if added.Some? then [added.value] else [])
  {
    assert goals[..i + 1][..i] == goals[..i];
  }

  /** ... and a goal that fails to parse fails the plan. */
  lemma PlanGoalsStepErr(keys: seq<string>, goals: seq<string>, i: nat, parseShortNumber: string -> Num, fixed: bool)
    requires i < |goals|
    requires GoalAction(keys, goals[i], parseShortNumber, fixed).Err?
    ensures PlanGoals(keys, goals[..i + 1], parseShortNumber, fixed).Err?
  {
    assert goals[..i + 1][..i] == goals[..i];
  }

  /** Once a goal fails to parse, the whole plan fails: `main` throws. */
  lemma {:induction false} PlanGoalsErrSticky(keys: seq<string>, goals: seq<string>, n: nat, parseShortNumber: string -> Num, fixed: bool)
    requires n <= |goals|
    requires PlanGoals(keys, goals[..n], parseShortNumber, fixed).Err?
    ensures PlanGoals(keys, goals, parseShortNumber, fixed).Err?
  {
    if n < |goals| {
      var init := goals[..|goals| - 1];
      assert init[..n] == goals[..n];
      PlanGoalsErrSticky(keys, init, n, parseShortNumber, fixed);
    } else {
      assert goals[..n] == goals;
    }
  }

  /** The body of `main`'s loop for one goal: the action it adds, if any. */
  method ActionFor(keys: seq<string>, goal: string, parseShortNumber: string -> Num, fixed: bool)
      returns (r: Result<Option<LoopAction>>)
    ensures var p := GoalAction(keys, goal, parseShortNumber, fixed);
      && (r.Ok? <==> p.Ok?)
      && (r.Ok? ==> (r.value.Some? <==> p.value.Some?))
      && (r.Ok? && r.value.Some? ==> fresh(r.value.value) && Val(r.value.value) == p.value.value)
  {
    var classified := ClassifyGoal(keys, goal);
    if classified.None? {
      return Ok(None);
    }
    var (kind, target, value) := classified.value;
    var action := new LoopAction(kind, target);
    var outcome;
    if fixed {
      outcome := action.SetGoalFixed(Text(value), parseShortNumber);
    } else {
      outcome := action.SetGoal(Text(value), parseShortNumber);
    }
    if outcome.Err? {
      return Err(outcome.error);
    }
    return Ok(Some(action));
  }

  /** Appends the action a goal contributed, if it contributed one. */
  method AddIfAny(chain: LoopActionChain, a: Option<LoopAction>)
    requires NoDup(chain.actions)
    requires a.Some? ==> a.value !in chain.actions
    modifies chain
    ensures Vals(chain.actions) == old(Vals(chain.actions)) + if a.Some? then [old(Val(a.value))] else []
    ensures NoDup(chain.actions)
  {
    if a.Some? {
      NoDupSnoc(chain.actions, a.value);
      chain.Add(a.value);
      assert Vals(chain.actions) == old(Vals(chain.actions)) + [Val(a.value)];
    } else {
      assert Vals(chain.actions) == old(Vals(chain.actions)) + [];
    }
  }

  /** One pass of `main`'s loop, for goal number `i`: the action for it,
      if any, is appended to the chain, which then holds the plan for the
      first `i + 1` goals. */
  method AddGoal(chain: LoopActionChain, keys: seq<string>, goals: seq<string>, i: nat, parseShortNumber: string -> Num, fixed: bool)
      returns (r: Result<()>)
    requires i < |goals|
    requires PlanGoals(keys, goals[..i], parseShortNumber, fixed) == Ok(Vals(chain.actions))
    requires NoDup(chain.actions)
    modifies chain
    ensures r.Err? ==> PlanGoals(keys, goals, parseShortNumber, fixed).Err?
    ensures r.Ok? ==> PlanGoals(keys, goals[..i + 1], parseShortNumber, fixed) == Ok(Vals(chain.actions))
    ensures r.Ok? ==> NoDup(chain.actions)
  {
    var a := ActionFor(keys, goals[i], parseShortNumber, fixed);
    ghost var p := GoalAction(keys, goals[i], parseShortNumber, fixed);
    if a.Err? {
      PlanGoalsStepErr(keys, goals, i, parseShortNumber, fixed);
      PlanGoalsErrSticky(keys, goals, i + 1, parseShortNumber, fixed);
      return Err(a.error);
    }
    ghost var before := Vals(chain.actions);
    AddIfAny(chain, a.value);
    PlanGoalsStepOk(keys, goals, i, parseShortNumber, fixed, before, p.value);
    return Ok(());
  }

  /** The goal-parsing loop of `main`, adding to an empty chain. */
  method AddGoals(chain: LoopActionChain, keys: seq<string>, goals: seq<string>, parseShortNumber: string -> Num, fixed: bool)
      returns (r: Result<()>)
    requires chain.actions == []
    modifies chain
    ensures r.Err? ==> PlanGoals(keys, goals, parseShortNumber, fixed).Err?
    ensures r.Ok? ==> PlanGoals(keys, goals, parseShortNumber, fixed) == Ok(Vals(chain.actions))
    ensures r.Ok? ==> NoDup(chain.actions)
  {
    var i := 0;
    while i < |goals|
      invariant 0 <= i <= |goals|
      invariant NoDup(chain.actions)
      invariant PlanGoals(keys, goals[..i], parseShortNumber, fixed) == Ok(Vals(chain.actions))
    {
      var ok := AddGoal(chain, keys, goals, i, parseShortNumber, fixed);
      if ok.Err? {
        return Err(ok.error);
      }
      i := i + 1;
    }
    assert goals[..i] == goals;
    return Ok(());
  }

  /** `main` up to the loop: the chain of actions for the command-line
      goals. `fixed` selects the `setGoal` that accepts numbers. */
  method BuildChain(keys: seq<string>, goals: seq<string>, parseShortNumber: string -> Num, fixed: bool)
      returns (r: Result<LoopActionChain>)
    ensures var p := Plan(keys, goals, parseShortNumber, fixed);
      && (r.Ok? <==> p.Ok?)
      && (r.Ok? ==> fresh(r.value) && Vals(r.value.actions) == p.value)
    ensures r.Ok? ==> NoDup(r.value.actions)
  {
    var chain := new LoopActionChain();
    var ok := AddGoals(chain, keys, goals, parseShortNumber, fixed);
    if ok.Err? {
      return Err(ok.error);
    }
    if |goals| == 0 {
      var action := ManualAction(parseShortNumber, fixed);
      if action.Err? {
        return Err(action.error);
      }
      chain.Add(action.value);
      assert Vals(chain.actions) == [Val(action.value)];
    }
    return Ok(chain);
  }

  /** `LoopAction.manual().setGoal(0)`. */
  method ManualAction(parseShortNumber: string -> Num, fixed: bool) returns (r: Result<LoopAction>)
    ensures var p := if fixed then ParseGoalFixed(Manual, Number(0.0), parseShortNumber)
                     else ParseGoal(Manual, Number(0.0), parseShortNumber);
      && (r.Ok? <==> p.Ok?)
      && (r.Ok? ==> fresh(r.value) && Val(r.value) == ActionVal(Manual, "", p.value))
  {
    var action := new LoopAction(Manual, "");
    var outcome;
    if fixed {
      outcome := action.SetGoalFixed(Number(0.0), parseShortNumber);
    } else {
      outcome := action.SetGoal(Number(0.0), parseShortNumber);
    }
    if outcome.Err? {
      return Err(outcome.error);
    }
    return Ok(action);
  }

  /** With no goals, `main` as written throws before the loop starts; with
      numbers accepted it runs one manual action with goal 0. */
  lemma NoGoalsManualMode(parseShortNumber: string -> Num)
    ensures Plan(FactionKeys, [], parseShortNumber, false).Err?
    ensures Plan(FactionKeys, [], parseShortNumber, true) == Ok([ActionVal(Manual, "", Amount(Finite(0.0)))])
  {
  }

  /** Every planned action is a sell action, or a trade to a faction key. */
  lemma {:induction false} PlanTargets(keys: seq<string>, goals: seq<string>, parseShortNumber: string -> Num, fixed: bool)
    requires PlanGoals(keys, goals, parseShortNumber, fixed).Ok?
    ensures forall a :: a in PlanGoals(keys, goals, parseShortNumber, fixed).value ==>
      (a.kind == Sell && a.target == "") || (a.kind == Trade && a.target in keys)
    ensures |PlanGoals(keys, goals, parseShortNumber, fixed).value| <= |goals|
  {
    if goals != [] {
      PlanTargets(keys, goals[..|goals| - 1], parseShortNumber, fixed);
    }
  }

  // ---------------------------------------------------------------------
  // Goal checks

  datatype FactionData = FactionData(name: string, rep: real, augs: seq<string>)

  /** What the checks read from the game. */
  datatype World = World(
    money: real,
    factions: seq<string>,            // the joined factions
    factionRep: string -> real,
    owned: seq<string>,               // owned augmentations
    factionAugs: string -> seq<string>,
    repReq: string -> real)

  function JoinedData(w: World): seq<FactionData>
  {
    seq(|w.factions|, i requires 0 <= i < |w.factions| => FactionData(w.factions[i], w.factionRep(w.factions[i]), w.factionAugs(w.factions[i])))
  }

  /** Another joined faction offers `aug` and already has the rep for it. */
  predicate BetterOption(aug: string, rep: real, faction: string, joined: seq<FactionData>)
  {
    exists j :: 0 <= j < |joined| && joined[j].name != faction && joined[j].rep >= rep && aug in joined[j].augs
  }

  /** An augmentation the "max" goal may aim for. */
  predicate Eligible(aug: string, faction: string, w: World, joined: seq<FactionData>)
  {
    aug != "NeuroFlux Governor" && aug !in w.owned && !BetterOption(aug, w.repReq(aug), faction, joined)
  }

  /** The running maximum `evaluateMax` keeps over `augs`. */
  function MaxEligible(augs: seq<string>, faction: string, w: World, joined: seq<FactionData>): real
  {
    if augs == [] then 0.0
    else
      var m := MaxEligible(augs[..|augs| - 1], faction, w, joined);
      var aug := augs[|augs| - 1];
      if aug != "NeuroFlux Governor" && !(w.repReq(aug) < m) && Eligible(aug, faction, w, joined)
      then w.repReq(aug) else m
  }

  /** `evaluateMax`: the highest rep requirement among eligible
      augmentations, 0 when there is none. */
  lemma {:induction false} MaxEligibleSpec(augs: seq<string>, faction: string, w: World, joined: seq<FactionData>)
    ensures var m := MaxEligible(augs, faction, w, joined);
      && m >= 0.0
      && (forall a :: a in augs && Eligible(a, faction, w, joined) ==> w.repReq(a) <= m)
      && (m == 0.0 || exists a :: a in augs && Eligible(a, faction, w, joined) && w.repReq(a) == m)
  {
    if augs != [] {
      var init := augs[..|augs| - 1];
      MaxEligibleSpec(init, faction, w, joined);
      forall a | a in augs
        ensures a in init || a == augs[|augs| - 1]
      {
        var k :| 0 <= k < |augs| && augs[k] == a;
        if k < |augs| - 1 {
          assert init[k] == a;
        }
      }
    }
  }

  /** `evaluateMax(faction)`. */
  method EvaluateMax(faction: string, w: World) returns (highestRep: real)
    ensures highestRep == MaxEligible(w.factionAugs(faction), faction, w, JoinedData(w))
  {
    var factionAugs := w.factionAugs(faction);
    var joined: seq<FactionData> := [];
    var k := 0;
    while k < |w.factions|
      invariant 0 <= k <= |w.factions|
      invariant joined == JoinedData(w)[..k]
    {
      var f := w.factions[k];
      joined := joined + [FactionData(f, w.factionRep(f), w.factionAugs(f))];
      k := k + 1;
    }
    assert joined == JoinedData(w);
    highestRep := 0.0;
    var i := 0;
    while i < |factionAugs|
      invariant 0 <= i <= |factionAugs|
      invariant highestRep == MaxEligible(factionAugs[..i], faction, w, joined)
    {
      var aug := factionAugs[i];
      assert factionAugs[..i + 1][..i] == factionAugs[..i];
      if aug == "NeuroFlux Governor" {
        i := i + 1;
        continue;
      }
      var rep := w.repReq(aug);
      if rep < highestRep || aug in w.owned {
        i := i + 1;
        continue;
      }
      var betterOption := false;
      var j := 0;
      while j < |joined|
        invariant 0 <= j <= |joined|
        invariant betterOption <==> exists q :: 0 <= q < j && joined[q].name != faction && joined[q].rep >= rep && aug in joined[q].augs
      {
        if joined[j].name != faction && joined[j].rep >= rep && aug in joined[j].augs {
          betterOption := true;
          break;
        }
        j := j + 1;
      }
      if !betterOption {
        highestRep := rep;
      }
      i := i + 1;
    }
    assert factionAugs[..i] == factionAugs;
  }

  /** A trade goal after `evaluateGoal`: "max" becomes the number
      `evaluateMax` finds; "donate" fails, because `evaluateDonate` logs an
      undefined variable (a ReferenceError). */
  function EvaluateGoal(a: ActionVal, w: World): Result<Goal>
  {
    if a.goal == Max then Ok(Amount(Finite(MaxEligible(w.factionAugs(a.target), a.target, w, JoinedData(w)))))
    else if a.goal == Donate then Err("ReferenceError: target is not defined")
    else Ok(a.goal)
  }

  /** `x >= goal` for a numeric goal; an undefined or NaN goal compares false. */
  predicate AtLeast(x: real, g: Goal)
  {
    g.Amount? && g.n.Finite? && x >= g.n.v
  }

  /** `checkGoal` on an action whose goal has been evaluated. */
  predicate GoalMet(a: ActionVal, loopCount: int, w: World)
  {
    match a.kind
    case Sell => AtLeast(w.money, a.goal)
    case Trade => !CanInfiltrateFor(a.target) || AtLeast(w.factionRep(a.target), a.goal)
    case Manual => a.goal.Amount? && a.goal.n.Finite? && loopCount as real == a.goal.n.v && a.goal.n.v > 0.0
  }

  /** The three kinds of goal, stated outright: money reached; rep reached
      or the faction not infiltrable; a positive loop count reached
      exactly (so a manual goal of 0 never finishes). */
  lemma GoalMetCases(a: ActionVal, loopCount: int, w: World)
    ensures a.kind == Sell && a.goal.Amount? && a.goal.n.Finite? ==> (GoalMet(a, loopCount, w) <==> w.money >= a.goal.n.v)
    ensures a.kind == Trade && !CanInfiltrateFor(a.target) ==> GoalMet(a, loopCount, w)
    ensures a.kind == Trade && a.target in NotInfiltrable ==> GoalMet(a, loopCount, w)
    ensures a.kind == Manual && a.goal == Amount(Finite(0.0)) ==> !GoalMet(a, loopCount, w)
    ensures a.goal == Amount(NaN) && a.kind != Trade ==> !GoalMet(a, loopCount, w)
  {
  }
}
