/** The loop of infiltrate.js: checking an action's goal (`checkGoal`),
    moving along the chain to the next unmet goal (`nextUnmetGoal`), the
    counters and result dispatch of `infiltrateLoop`, and the retry
    counter of `infiltrateOnce`.

    What the game reports is an input: a `World` per point in the loop, the
    result of each infiltration attempt, and what each try inside
    `infiltrateOnce` runs into. */
module InfiltrateLoop {
  import opened Common
  import opened InfiltrateGoals

  // ---------------------------------------------------------------------
  // checkGoal

  /** `checkGoal` on values: a trade action first has its goal evaluated
      (which can throw), then the goal is compared. The result carries the
      action as it is afterwards. */
  function CheckGoalSpec(a: ActionVal, loopCount: int, w: World): Result<(bool, ActionVal)>
  {
    if a.kind == Trade then
      match EvaluateGoal(a, w)
      case Err(e) => Err(e)
      case Ok(g) => var b := a.(goal := g); Ok((GoalMet(b, loopCount, w), b))
    else Ok((GoalMet(a, loopCount, w), a))
  }

  /** `checkGoal(action, loopCount)`. */
  method CheckGoal(action: LoopAction, loopCount: int, w: World) returns (r: Result<bool>)
    modifies action
    ensures var s := CheckGoalSpec(old(Val(action)), loopCount, w);
      && (r.Err? <==> s.Err?) && (r.Err? ==> r.error == s.error)
      && (r.Ok? ==> r.value == s.value.0 && Val(action) == s.value.1)
  {
    if action.kind == Sell {
      return Ok(AtLeast(w.money, action.goal));
    } else if action.kind == Trade {
      var evaluated := EvaluateGoal(Val(action), w);
      if evaluated.Err? {
        return Err(evaluated.error);
      }
      action.goal := evaluated.value;
      if !CanInfiltrateFor(action.target) {
        return Ok(true);
      }
      return Ok(AtLeast(w.factionRep(action.target), action.goal));
    } else {
      var g := action.goal;
      return Ok(g.Amount? && g.n.Finite? && loopCount as real == g.n.v && g.n.v > 0.0);
    }
  }

  /** What a check establishes: sell goals compare money, trade goals are
      evaluated to a number (a "donate" goal throws) and then compare rep,
      an invalid faction counts as met, and manual mode counts loops. */
  lemma CheckGoalFacts(a: ActionVal, loopCount: int, w: World)
    ensures a.kind == Trade && a.goal == Donate ==> CheckGoalSpec(a, loopCount, w).Err?
    ensures a.goal != Donate ==> CheckGoalSpec(a, loopCount, w).Ok?
    ensures var s := CheckGoalSpec(a, loopCount, w);
      s.Ok? ==> && s.value.1.kind == a.kind && s.value.1.target == a.target
                && (a.kind == Trade ==> s.value.1.goal != Max && s.value.1.goal != Donate)
                && (a.kind != Trade ==> s.value.1 == a)
    ensures a.kind == Sell && a.goal.Amount? && a.goal.n.Finite? ==>
      CheckGoalSpec(a, loopCount, w) == Ok((w.money >= a.goal.n.v, a))
    ensures a.kind == Trade && a.goal.Amount? && a.goal.n.Finite? ==>
      CheckGoalSpec(a, loopCount, w) ==
        Ok((!CanInfiltrateFor(a.target) || w.factionRep(a.target) >= a.goal.n.v, a))
    ensures a.kind == Trade && a.goal == Max ==>
      CheckGoalSpec(a, loopCount, w).Ok? &&
      CheckGoalSpec(a, loopCount, w).value.1.goal ==
        Amount(Finite(MaxEligible(w.factionAugs(a.target), a.target, w, JoinedData(w))))
    ensures a.kind == Manual ==>
      CheckGoalSpec(a, loopCount, w).Ok? &&
      (CheckGoalSpec(a, loopCount, w).value.0 <==> a.goal == Amount(Finite(loopCount as real)) && loopCount > 0)
  {
  }

  /** A "max" goal is evaluated once: the second check finds a number and
      keeps it, even if the game has changed in between. */
  lemma EvaluateOnce(a: ActionVal, loopCount: int, loopCount': int, w: World, w': World)
    requires CheckGoalSpec(a, loopCount, w).Ok?
    ensures var b := CheckGoalSpec(a, loopCount, w).value.1;
      CheckGoalSpec(b, loopCount', w').Ok? && CheckGoalSpec(b, loopCount', w').value.1 == b
  {
    var b := CheckGoalSpec(a, loopCount, w).value.1;
    if a.kind == Trade {
      assert b.goal != Max && b.goal != Donate;
    }
  }

  // ---------------------------------------------------------------------
  // nextUnmetGoal

  /** `nextUnmetGoal` on values: checks the actions from `from` on, in
      order, until one is unmet. The result is that action's index (`None`
      for `{done: true}`) and the actions after their checks. */
  function NextUnmet(vals: seq<ActionVal>, from: nat, loopCount: int, w: World): (r: Result<(Option<nat>, seq<ActionVal>)>)
    requires from <= |vals|
    ensures r.Ok? ==> |r.value.1| == |vals|
    ensures r.Ok? && r.value.0.Some? ==> from <= r.value.0.value < |vals|
    decreases |vals| - from
  {
    if from == |vals| then Ok((None, vals))
    else
      match CheckGoalSpec(vals[from], loopCount, w)
      case Err(e) => Err(e)
      case Ok((met, b)) =>
        if met then NextUnmet(vals[from := b], from + 1, loopCount, w)
        else Ok((Some(from), vals[from := b]))
  }

  /** One check of `nextUnmetGoal`: a met goal moves on to the next action,
      an unmet one is the answer. */
  lemma NextUnmetStep(vals: seq<ActionVal>, i: nat, loopCount: int, w: World, met: bool, b: ActionVal)
    requires i < |vals|
    requires CheckGoalSpec(vals[i], loopCount, w) == Ok((met, b))
    ensures met ==> NextUnmet(vals[i := b], i + 1, loopCount, w) == NextUnmet(vals, i, loopCount, w)
    ensures !met ==> NextUnmet(vals, i, loopCount, w) == Ok((Some(i), vals[i := b]))
  {
  }

  /** The action returned is the first at or after `from` whose goal is
      unmet, and every action before it was checked and met; `{done:
      true}` means every remaining goal is met. */
  lemma {:induction false} NextUnmetSpec(vals: seq<ActionVal>, from: nat, loopCount: int, w: World)
    requires from <= |vals|
    ensures var r := NextUnmet(vals, from, loopCount, w);
      r.Ok? ==>
        var stop := if r.value.0.Some? then r.value.0.value else |vals|;
        && (r.value.0.Some? ==> CheckGoalSpec(vals[stop], loopCount, w) == Ok((false, r.value.1[stop])))
        && (forall j :: from <= j < stop ==> CheckGoalSpec(vals[j], loopCount, w) == Ok((true, r.value.1[j])))
    decreases |vals| - from
  {
    if from < |vals| {
      var s := CheckGoalSpec(vals[from], loopCount, w);
      if s.Ok? {
        NextUnmetStep(vals, from, loopCount, w, s.value.0, s.value.1);
        if s.value.0 {
          var next := vals[from := s.value.1];
          NextUnmetSpec(next, from + 1, loopCount, w);
          NextUnmetFrame(next, from + 1, loopCount, w);
          var r := NextUnmet(next, from + 1, loopCount, w);
          if r.Ok? {
            assert r.value.1[from] == s.value.1;
            forall j | from + 1 <= j < |vals|
              ensures next[j] == vals[j]
            {
            }
          }
        }
      }
    }
  }

  /** Actions before `from` and after the one returned are untouched. */
  lemma {:induction false} NextUnmetFrame(vals: seq<ActionVal>, from: nat, loopCount: int, w: World)
    requires from <= |vals|
    ensures var r := NextUnmet(vals, from, loopCount, w);
      r.Ok? ==>
        var stop := if r.value.0.Some? then r.value.0.value else |vals|;
        && (forall j :: 0 <= j < from ==> r.value.1[j] == vals[j])
        && (forall j :: stop < j < |vals| ==> r.value.1[j] == vals[j])
    decreases |vals| - from
  {
    if from < |vals| {
      var s := CheckGoalSpec(vals[from], loopCount, w);
      if s.Ok? {
        NextUnmetStep(vals, from, loopCount, w, s.value.0, s.value.1);
        if s.value.0 {
          NextUnmetFrame(vals[from := s.value.1], from + 1, loopCount, w);
        }
      }
    }
  }

  /** `checkGoal` on the action at index `i` of the chain; the other
      actions, being distinct objects, keep their goals. */
  method CheckAt(actions: seq<LoopAction>, i: nat, loopCount: int, w: World) returns (r: Result<bool>)
    requires i < |actions|
    requires NoDup(actions)
    modifies actions[i]
    ensures var s := CheckGoalSpec(old(Vals(actions))[i], loopCount, w);
      && (r.Err? <==> s.Err?) && (r.Err? ==> r.error == s.error)
      && (r.Ok? ==> r.value == s.value.0 && Vals(actions) == old(Vals(actions))[i := s.value.1])
  {
    ghost var before := Vals(actions);
    r := CheckGoal(actions[i], loopCount, w);
    forall j | 0 <= j < |actions| && j != i
      ensures Val(actions[j]) == before[j]
    {
      assert actions[j] != actions[i];
    }
  }

  /** One pass of `nextUnmetGoal`'s loop, at index `i`, stated against
      the scan still to be done from there. */
  method CheckStep(actions: seq<LoopAction>, i: nat, loopCount: int, w: World,
                   ghost target: Result<(Option<nat>, seq<ActionVal>)>) returns (r: Result<bool>)
    requires i < |actions|
    requires NoDup(actions)
    requires NextUnmet(Vals(actions), i, loopCount, w) == target
    modifies actions
    ensures r.Err? ==> target == Err(r.error)
    ensures r.Ok? && r.value ==> NextUnmet(Vals(actions), i + 1, loopCount, w) == target
    ensures r.Ok? && !r.value ==> target == Ok((Some(i), Vals(actions)))
  {
    ghost var before := Vals(actions);
    r := CheckAt(actions, i, loopCount, w);
    if r.Ok? {
      NextUnmetStep(before, i, loopCount, w, r.value, Val(actions[i]));
    }
  }

  /** `nextUnmetGoal(iterator, loopCount)` over the chain's actions, the
      iterator standing at `from`. The actions are distinct objects, as
      `main` creates a new one for each goal. */
  method NextUnmetGoal(actions: seq<LoopAction>, from: nat, loopCount: int, w: World) returns (r: Result<Option<nat>>)
    requires from <= |actions|
    requires NoDup(actions)
    modifies actions
    ensures var s := NextUnmet(old(Vals(actions)), from, loopCount, w);
      && (r.Err? <==> s.Err?) && (r.Err? ==> r.error == s.error)
      && (r.Ok? ==> r.value == s.value.0 && Vals(actions) == s.value.1)
  {
    ghost var target := NextUnmet(Vals(actions), from, loopCount, w);
    var i := from;
    while i < |actions|
      invariant from <= i <= |actions|
      invariant NextUnmet(Vals(actions), i, loopCount, w) == target
      invariant target == NextUnmet(old(Vals(actions)), from, loopCount, w)
      decreases |actions| - i
    {
      var met := CheckStep(actions, i, loopCount, w, target);
      if met.Err? {
        return Err(met.error);
      }
      if !met.value {
        return Ok(Some(i));
      }
      i := i + 1;
    }
    return Ok(None);
  }

  // ---------------------------------------------------------------------
  // infiltrateOnce

  /** `failLimit`. */
  const FailLimit: nat := 3

  /** The results `infiltrateOnce` reports. Anything else is what
      `infiltrateLoop` calls an invalid result. */
  datatype Attempt = Success | Fail | Cancel | Other(result: string)

  /** What one try inside `infiltrateOnce` runs into: ECorp cannot be
      reached in Aevum, the player is booted back to the city (a failed
      infiltration), the user cancels, or the infiltration completes (after
      which the routine always reports success). */
  datatype Try = NoAevum | Booted | UserCancel | Completed

  /** The retry loop from try number `fails` on, given up once more than
      `limit` tries have failed in a row. */
  function OnceFrom(tries: nat -> Try, fails: nat, limit: nat): Attempt
    decreases limit + 1 - fails
  {
    if fails > limit then Fail
    else match tries(fails)
      case NoAevum => Fail
      case Booted => OnceFrom(tries, fails + 1, limit)
      case UserCancel => Cancel
      case Completed => Success
  }

  /** The report for the first try that did not end in a boot. */
  function Settle(t: Try): Attempt
  {
    match t
    case NoAevum => Fail
    case Booted => Fail
    case UserCancel => Cancel
    case Completed => Success
  }

  /** `infiltrateOnce(action)` as written: `consecutiveFails > failLimit`
      ends the retries. The action only decides which button is pressed
      after a completed infiltration, so it does not affect the result. */
  method InfiltrateOnce(tries: nat -> Try) returns (r: Attempt)
    ensures r == OnceFrom(tries, 0, FailLimit)
  {
    var consecutiveFails: nat := 0;
    while true
      invariant consecutiveFails <= FailLimit + 1
      invariant OnceFrom(tries, consecutiveFails, FailLimit) == OnceFrom(tries, 0, FailLimit)
      decreases FailLimit + 1 - consecutiveFails
    {
      if consecutiveFails > FailLimit {
        return Fail;
      }
      var t := tries(consecutiveFails);
      if t == NoAevum {
        return Fail;
      }
      if t == Booted {
        consecutiveFails := consecutiveFails + 1;
        continue;
      }
      if t == UserCancel {
        return Cancel;
      }
      return Success;
    }
  }

  /** `infiltrateOnce` giving up after `failLimit` failures in a row, as
      the script's header promises. */
  method InfiltrateOnceFixed(tries: nat -> Try) returns (r: Attempt)
    ensures r == OnceFrom(tries, 0, FailLimit - 1)
  {
    var consecutiveFails: nat := 0;
    while true
      invariant consecutiveFails <= FailLimit
      invariant OnceFrom(tries, consecutiveFails, FailLimit - 1) == OnceFrom(tries, 0, FailLimit - 1)
      decreases FailLimit - consecutiveFails
    {
      if consecutiveFails >= FailLimit {
        return Fail;
      }
      var t := tries(consecutiveFails);
      if t == NoAevum {
        return Fail;
      }
      if t == Booted {
        consecutiveFails := consecutiveFails + 1;
        continue;
      }
      if t == UserCancel {
        return Cancel;
      }
      return Success;
    }
  }

  /** The retry loop, stated outright: with `limit + 1` boots in a row it
      fails; otherwise the first try that is not a boot decides. */
  lemma {:induction false} OnceFromSpec(tries: nat -> Try, fails: nat, limit: nat)
    requires fails <= limit + 1
    ensures (forall k :: fails <= k <= limit ==> tries(k) == Booted) ==> OnceFrom(tries, fails, limit) == Fail
    ensures forall k :: fails <= k <= limit && tries(k) != Booted && (forall j :: fails <= j < k ==> tries(j) == Booted) ==>
      OnceFrom(tries, fails, limit) == Settle(tries(k))
    decreases limit + 1 - fails
  {
    if fails <= limit {
      OnceFromSpec(tries, fails + 1, limit);
      if tries(fails) == Booted {
        forall k | fails <= k <= limit && tries(k) != Booted && (forall j :: fails <= j < k ==> tries(j) == Booted)
          ensures OnceFrom(tries, fails, limit) == Settle(tries(k))
        {
          assert k != fails;
        }
      }
    }
  }

  /** As written, three boots in a row are still retried: a fourth try that
      completes reports success. Giving up after `failLimit` boots, that
      try is never made. */
  lemma FourthTryAfterThreeBoots()
    ensures var tries := (k: nat) => if k < 3 then Booted else Completed;
      OnceFrom(tries, 0, FailLimit) == Success && OnceFrom(tries, 0, FailLimit - 1) == Fail
  {
  }

  /** The fixed loop reports a failure exactly when the first `failLimit`
      tries are all boots, or a try before any non-boot cannot reach Aevum. */
  lemma FixedFailsAfterLimit(tries: nat -> Try)
    ensures (forall k :: 0 <= k < FailLimit ==> tries(k) == Booted) ==> OnceFrom(tries, 0, FailLimit - 1) == Fail
    ensures (forall k :: 0 <= k < FailLimit ==> tries(k) == Booted) ==> OnceFrom(tries, 0, FailLimit) == Settle(tries(FailLimit))
  {
    OnceFromSpec(tries, 0, FailLimit - 1);
    OnceFromSpec(tries, 0, FailLimit);
  }

  // ---------------------------------------------------------------------
  // infiltrateLoop

  /** How `infiltrateLoop` ends: all goals met, the current trade faction
      not joined (or not infiltrable), a page reload, a canceled, failed or
      unrecognised attempt, an error thrown by a goal check, or - when the
      attempts given run out - still running. */
  datatype LoopEnd = AllDone | InvalidFaction | Reloaded | Canceled | Failed | InvalidResult | Thrown(error: string) | Running

  /** `player.factions.filter(f => canInfiltrateFor[f])`. */
  function ValidFactions(factions: seq<string>): seq<string>
  {
    if factions == [] then []
    else (if CanInfiltrateFor(factions[0]) then [factions[0]] else []) + ValidFactions(factions[1..])
  }

  lemma {:induction false} ValidFactionsSpec(factions: seq<string>, f: string)
    ensures f in ValidFactions(factions) <==> f in factions && CanInfiltrateFor(f)
  {
    if factions != [] {
      ValidFactionsSpec(factions[1..], f);
      assert factions == [factions[0]] + factions[1..];
    }
  }

  predicate AllSucceeded(attempts: seq<Attempt>)
  {
    forall k :: 0 <= k < |attempts| ==> attempts[k] == Success
  }

  predicate ReloadDue(resetLoopCount: int, reloadInterval: int)
  {
    resetLoopCount >= reloadInterval && reloadInterval > 0
  }

  /** After a successful attempt: the current action's goal is checked
      again and, when met, the chain moves on to the next unmet goal. That
      is `nextUnmetGoal` started at the current action itself. */
  method Advance(actions: seq<LoopAction>, current: nat, loopCount: int, w: World) returns (r: Result<Option<nat>>)
    requires current < |actions|
    requires NoDup(actions)
    modifies actions
    ensures var s := NextUnmet(old(Vals(actions)), current, loopCount, w);
      && (r.Err? <==> s.Err?) && (r.Err? ==> r.error == s.error)
      && (r.Ok? ==> r.value == s.value.0 && Vals(actions) == s.value.1)
  {
    ghost var before := Vals(actions);
    var met := CheckAt(actions, current, loopCount, w);
    if met.Err? {
      return Err(met.error);
    }
    assert Vals(actions)[current] == Val(actions[current]);
    NextUnmetStep(before, current, loopCount, w, met.value, Val(actions[current]));
    if !met.value {
      return Ok(Some(current));
    }
    r := NextUnmetGoal(actions, current + 1, loopCount, w);
  }

  /** What `infiltrateLoop` promises about its counters, given the
      attempts it was handed:
      - `n` attempts were made, and `resetLoopCount` grew by one for each,
        failures included;
      - every attempt but the last succeeded, and only successes count in
        `loopCount` (a success that triggers the reload is not counted);
      - the page reloads exactly when `resetLoopCount` has reached a
        positive `reloadInterval`, and that did not happen earlier;
      - a canceled, failed or unrecognised attempt ends the loop with that
        outcome, unless the reload came first;
      - the loop is left running only when the attempts ran out. */
  predicate LoopCounters(attempts: seq<Attempt>, reloadInterval: int, resetStart: int,
                         end: LoopEnd, loopCount: nat, resetLoopCount: int, n: nat)
  {
    && n <= |attempts|
    && resetLoopCount == resetStart + n
    && (n > 0 ==> AllSucceeded(attempts[..n - 1]))
    && loopCount == (if n > 0 && (attempts[n - 1] != Success || end == Reloaded) then n - 1 else n)
    && (end == Reloaded <==> n > 0 && ReloadDue(resetStart + n, reloadInterval))
    && (n > 1 ==> !ReloadDue(resetStart + n - 1, reloadInterval))
    && (end == Canceled ==> n > 0 && attempts[n - 1] == Cancel)
    && (end == Failed ==> n > 0 && attempts[n - 1] == Fail)
    && (end == InvalidResult ==> n > 0 && attempts[n - 1].Other?)
    && (n > 0 && attempts[n - 1] != Success ==> end in {Reloaded, Canceled, Failed, InvalidResult})
    && (end == Running ==> n == |attempts|)
  }

  /** How the loop ends when attempt `result` is the last one made. */
  function Stopped(result: Attempt, reload: bool): LoopEnd
  {
    if reload then Reloaded
    else match result
      case Cancel => Canceled
      case Fail => Failed
      case Other(_) => InvalidResult
      case Success => Running
  }

  /** The counters when the loop stops before making attempt `n + 1`, or
      right after a successful attempt `n` whose goal check threw. */
  lemma CountersBetween(attempts: seq<Attempt>, reloadInterval: int, resetStart: int, end: LoopEnd, n: nat)
    requires n <= |attempts|
    requires AllSucceeded(attempts[..n])
    requires n > 0 ==> !ReloadDue(resetStart + n, reloadInterval)
    requires end == AllDone || end == InvalidFaction || end == Running || end.Thrown?
    requires end == Running ==> n == |attempts|
    ensures LoopCounters(attempts, reloadInterval, resetStart, end, n, resetStart + n, n)
  {
    if n > 0 {
      assert attempts[..n][..n - 1] == attempts[..n - 1];
      assert attempts[..n][n - 1] == attempts[n - 1];
    }
  }

  /** The counters when attempt `n` stops the loop, by a reload or by an
      outcome other than success. */
  lemma CountersStopped(attempts: seq<Attempt>, reloadInterval: int, resetStart: int, n: nat)
    requires 0 < n <= |attempts|
    requires AllSucceeded(attempts[..n - 1])
    requires n > 1 ==> !ReloadDue(resetStart + n - 1, reloadInterval)
    requires ReloadDue(resetStart + n, reloadInterval) || attempts[n - 1] != Success
    ensures LoopCounters(attempts, reloadInterval, resetStart,
                         Stopped(attempts[n - 1], ReloadDue(resetStart + n, reloadInterval)),
                         n - 1, resetStart + n, n)
  {
  }

  /** The test at the top of each pass, on values. */
  predicate InvalidTrade(a: ActionVal, factions: seq<string>)
  {
    a.kind == Trade && !(a.target in factions && CanInfiltrateFor(a.target))
  }

  /** One attempt: the chain position it was made at, the number of
      attempts made before it and the action there. */
  datatype Visit = Visit(cursor: nat, attempt: nat, action: ActionVal)

  /** A run of the loop: how it ended, `loopCount`, the number of attempts
      `n`, the actions afterwards, the position it stopped at (`None` once
      the chain is done) and the attempts made, in order. After a goal
      check that throws, `vals` are the actions as they were before that
      check. */
  datatype Run = Run(end: LoopEnd, loopCount: nat, n: nat, vals: seq<ActionVal>, last: Option<nat>, visits: seq<Visit>)

  /** The `while (true)` of `infiltrateLoop` on values, from the action at
      `at` after `n` attempts that all succeeded (so `loopCount` is `n` and
      `resetLoopCount` is `resetStart + n`). The game after `k` attempts is
      `worldAt(k)`. */
  function LoopFrom(vals: seq<ActionVal>, at: Option<nat>, reloadInterval: int, resetStart: int,
                    attempts: seq<Attempt>, worldAt: nat -> World, n: nat): Run
    requires n <= |attempts|
    requires at.Some? ==> at.value < |vals|
    decreases |attempts| - n
  {
    if at.None? then Run(AllDone, n, n, vals, None, [])
    else if InvalidTrade(vals[at.value], worldAt(n).factions) then Run(InvalidFaction, n, n, vals, at, [])
    else if n == |attempts| then Run(Running, n, n, vals, at, [])
    else
      var visit := Visit(at.value, n, vals[at.value]);
      var reload := ReloadDue(resetStart + n + 1, reloadInterval);
      if reload || attempts[n] != Success then Run(Stopped(attempts[n], reload), n, n + 1, vals, at, [visit])
      else
        var s := NextUnmet(vals, at.value, n + 1, worldAt(n + 1));
        if s.Err? then Run(Thrown(s.error), n + 1, n + 1, vals, at, [visit])
        else
          var r := LoopFrom(s.value.1, s.value.0, reloadInterval, resetStart, attempts, worldAt, n + 1);
          r.(visits := [visit] + r.visits)
  }

  /** `infiltrateLoop` on values: the first `nextUnmetGoal` (loop count 0,
      before any attempt), then the loop. */
  function Infiltration(vals: seq<ActionVal>, reloadInterval: int, resetStart: int,
                        attempts: seq<Attempt>, worldAt: nat -> World): Run
  {
    var s := NextUnmet(vals, 0, 0, worldAt(0));
    if s.Err? then Run(Thrown(s.error), 0, 0, vals, Some(0), [])
    else LoopFrom(s.value.1, s.value.0, reloadInterval, resetStart, attempts, worldAt, 0)
  }

  /** Two runs that agree on everything but the attempts listed. */
  predicate SameOutcome(a: Run, b: Run)
  {
    a.end == b.end && a.loopCount == b.loopCount && a.n == b.n && a.vals == b.vals && a.last == b.last
  }

  /** A successful attempt whose check does not throw leaves the loop to
      go on from where `nextUnmetGoal`, started at the current action,
      stops. */
  lemma LoopFromStep(vals: seq<ActionVal>, at: Option<nat>, reloadInterval: int, resetStart: int,
                     attempts: seq<Attempt>, worldAt: nat -> World, n: nat)
    requires n < |attempts| && at.Some? && at.value < |vals|
    requires !InvalidTrade(vals[at.value], worldAt(n).factions)
    requires !ReloadDue(resetStart + n + 1, reloadInterval) && attempts[n] == Success
    requires NextUnmet(vals, at.value, n + 1, worldAt(n + 1)).Ok?
    ensures var s := NextUnmet(vals, at.value, n + 1, worldAt(n + 1)).value;
      var r := LoopFrom(vals, at, reloadInterval, resetStart, attempts, worldAt, n);
      var r' := LoopFrom(s.1, s.0, reloadInterval, resetStart, attempts, worldAt, n + 1);
      SameOutcome(r, r') && r.visits == [Visit(at.value, n, vals[at.value])] + r'.visits
  {
  }

  /** A check that gives `(met, b)` says whether the checked action `b`
      meets its goal. */
  lemma CheckedMet(a: ActionVal, loopCount: int, w: World)
    requires CheckGoalSpec(a, loopCount, w).Ok?
    ensures var s := CheckGoalSpec(a, loopCount, w).value;
      s.0 == GoalMet(s.1, loopCount, w) && s.1.kind == a.kind && s.1.target == a.target
  {
  }

  /** The counters of a run that stops without going on to another pass. */
  lemma CountersAtStop(vals: seq<ActionVal>, at: Option<nat>, reloadInterval: int, resetStart: int,
                       attempts: seq<Attempt>, worldAt: nat -> World, n: nat)
    requires n <= |attempts|
    requires at.Some? ==> at.value < |vals|
    requires AllSucceeded(attempts[..n])
    requires n > 0 ==> !ReloadDue(resetStart + n, reloadInterval)
    requires !(at.Some? && !InvalidTrade(vals[at.value], worldAt(n).factions) && n < |attempts|
               && !ReloadDue(resetStart + n + 1, reloadInterval) && attempts[n] == Success)
    ensures var r := LoopFrom(vals, at, reloadInterval, resetStart, attempts, worldAt, n);
      LoopCounters(attempts, reloadInterval, resetStart, r.end, r.loopCount, resetStart + r.n, r.n)
  {
    if at.None? {
      CountersBetween(attempts, reloadInterval, resetStart, AllDone, n);
    } else if InvalidTrade(vals[at.value], worldAt(n).factions) {
      CountersBetween(attempts, reloadInterval, resetStart, InvalidFaction, n);
    } else if n == |attempts| {
      CountersBetween(attempts, reloadInterval, resetStart, Running, n);
    } else {
      assert attempts[..n + 1][..n] == attempts[..n];
      CountersStopped(attempts, reloadInterval, resetStart, n + 1);
    }
  }

  /** One more success extends a run of successes. */
  lemma SucceededThrough(attempts: seq<Attempt>, n: nat)
    requires n < |attempts| && attempts[n] == Success
    requires AllSucceeded(attempts[..n])
    ensures AllSucceeded(attempts[..n + 1])
  {
    assert attempts[..n + 1] == attempts[..n] + [attempts[n]];
  }

  /** The counters of a run whose goal check after a success throws. */
  lemma CountersAtThrow(vals: seq<ActionVal>, at: Option<nat>, reloadInterval: int, resetStart: int,
                        attempts: seq<Attempt>, worldAt: nat -> World, n: nat)
    requires n < |attempts| && at.Some? && at.value < |vals|
    requires AllSucceeded(attempts[..n])
    requires !InvalidTrade(vals[at.value], worldAt(n).factions)
    requires !ReloadDue(resetStart + n + 1, reloadInterval) && attempts[n] == Success
    requires NextUnmet(vals, at.value, n + 1, worldAt(n + 1)).Err?
    ensures var r := LoopFrom(vals, at, reloadInterval, resetStart, attempts, worldAt, n);
      LoopCounters(attempts, reloadInterval, resetStart, r.end, r.loopCount, resetStart + r.n, r.n)
  {
    SucceededThrough(attempts, n);
    var e := NextUnmet(vals, at.value, n + 1, worldAt(n + 1)).error;
    CountersBetween(attempts, reloadInterval, resetStart, Thrown(e), n + 1);
  }

  /** The counters of a run are those `LoopCounters` describes. */
  lemma {:induction false} LoopFromCounters(vals: seq<ActionVal>, at: Option<nat>, reloadInterval: int, resetStart: int,
                                            attempts: seq<Attempt>, worldAt: nat -> World, n: nat)
    requires n <= |attempts|
    requires at.Some? ==> at.value < |vals|
    requires AllSucceeded(attempts[..n])
    requires n > 0 ==> !ReloadDue(resetStart + n, reloadInterval)
    ensures var r := LoopFrom(vals, at, reloadInterval, resetStart, attempts, worldAt, n);
      LoopCounters(attempts, reloadInterval, resetStart, r.end, r.loopCount, resetStart + r.n, r.n)
    decreases |attempts| - n
  {
    if at.Some? && !InvalidTrade(vals[at.value], worldAt(n).factions) && n < |attempts|
       && !ReloadDue(resetStart + n + 1, reloadInterval) && attempts[n] == Success {
      var s := NextUnmet(vals, at.value, n + 1, worldAt(n + 1));
      if s.Err? {
        CountersAtThrow(vals, at, reloadInterval, resetStart, attempts, worldAt, n);
      } else {
        SucceededThrough(attempts, n);
        LoopFromStep(vals, at, reloadInterval, resetStart, attempts, worldAt, n);
        LoopFromCounters(s.value.1, s.value.0, reloadInterval, resetStart, attempts, worldAt, n + 1);
      }
    } else {
      CountersAtStop(vals, at, reloadInterval, resetStart, attempts, worldAt, n);
    }
  }

  /** The size of a run: it makes no more attempts than it is given and
      keeps the length of the chain. */
  lemma {:induction false} LoopFromShape(vals: seq<ActionVal>, at: Option<nat>, reloadInterval: int, resetStart: int,
                                         attempts: seq<Attempt>, worldAt: nat -> World, n: nat)
    requires n <= |attempts|
    requires at.Some? ==> at.value < |vals|
    ensures var r := LoopFrom(vals, at, reloadInterval, resetStart, attempts, worldAt, n);
      n <= r.n <= |attempts| && |r.vals| == |vals|
    decreases |attempts| - n
  {
    if at.Some? && !InvalidTrade(vals[at.value], worldAt(n).factions) && n < |attempts|
       && !ReloadDue(resetStart + n + 1, reloadInterval) && attempts[n] == Success {
      var s := NextUnmet(vals, at.value, n + 1, worldAt(n + 1));
      if s.Ok? {
        LoopFromStep(vals, at, reloadInterval, resetStart, attempts, worldAt, n);
        LoopFromShape(s.value.1, s.value.0, reloadInterval, resetStart, attempts, worldAt, n + 1);
      }
    }
  }

  /** Where a run stops: it ends "all done" exactly when no position is
      left, and otherwise stops at or after where it started. */
  lemma {:induction false} LoopFromLast(vals: seq<ActionVal>, at: Option<nat>, reloadInterval: int, resetStart: int,
                                        attempts: seq<Attempt>, worldAt: nat -> World, n: nat)
    requires n <= |attempts|
    requires at.Some? ==> at.value < |vals|
    ensures var r := LoopFrom(vals, at, reloadInterval, resetStart, attempts, worldAt, n);
      && (r.end == AllDone <==> r.last.None?)
      && (r.last.Some? ==> at.Some? && at.value <= r.last.value < |vals|)
    decreases |attempts| - n
  {
    if at.Some? && !InvalidTrade(vals[at.value], worldAt(n).factions) && n < |attempts|
       && !ReloadDue(resetStart + n + 1, reloadInterval) && attempts[n] == Success {
      var s := NextUnmet(vals, at.value, n + 1, worldAt(n + 1));
      if s.Ok? {
        LoopFromStep(vals, at, reloadInterval, resetStart, attempts, worldAt, n);
        LoopFromLast(s.value.1, s.value.0, reloadInterval, resetStart, attempts, worldAt, n + 1);
      }
    }
  }

  /** A run leaves the actions before its start untouched. */
  lemma {:induction false} LoopFromFrame(vals: seq<ActionVal>, at: Option<nat>, reloadInterval: int, resetStart: int,
                                         attempts: seq<Attempt>, worldAt: nat -> World, n: nat)
    requires n <= |attempts|
    requires at.Some? ==> at.value < |vals|
    ensures var r := LoopFrom(vals, at, reloadInterval, resetStart, attempts, worldAt, n);
      forall j :: 0 <= j < (if at.Some? then at.value else |vals|) && j < |r.vals| ==> r.vals[j] == vals[j]
    decreases |attempts| - n
  {
    if at.Some? && !InvalidTrade(vals[at.value], worldAt(n).factions) && n < |attempts|
       && !ReloadDue(resetStart + n + 1, reloadInterval) && attempts[n] == Success {
      var s := NextUnmet(vals, at.value, n + 1, worldAt(n + 1));
      if s.Ok? {
        LoopFromStep(vals, at, reloadInterval, resetStart, attempts, worldAt, n);
        LoopFromFrame(s.value.1, s.value.0, reloadInterval, resetStart, attempts, worldAt, n + 1);
        NextUnmetFrame(vals, at.value, n + 1, worldAt(n + 1));
      }
    }
  }

  /** The attempts of a run: one visit per attempt, numbered from `n`,
      the first at the starting position. */
  lemma {:induction false} LoopFromVisits(vals: seq<ActionVal>, at: Option<nat>, reloadInterval: int, resetStart: int,
                                          attempts: seq<Attempt>, worldAt: nat -> World, n: nat)
    requires n <= |attempts|
    requires at.Some? ==> at.value < |vals|
    ensures var r := LoopFrom(vals, at, reloadInterval, resetStart, attempts, worldAt, n);
      && |r.visits| == r.n - n
      && (r.visits != [] ==> at.Some? && r.visits[0] == Visit(at.value, n, vals[at.value]))
      && (forall k :: 0 <= k < |r.visits| ==> r.visits[k].attempt == n + k)
    decreases |attempts| - n
  {
    if at.Some? && !InvalidTrade(vals[at.value], worldAt(n).factions) && n < |attempts|
       && !ReloadDue(resetStart + n + 1, reloadInterval) && attempts[n] == Success {
      var s := NextUnmet(vals, at.value, n + 1, worldAt(n + 1));
      if s.Ok? {
        LoopFromStep(vals, at, reloadInterval, resetStart, attempts, worldAt, n);
        LoopFromVisits(s.value.1, s.value.0, reloadInterval, resetStart, attempts, worldAt, n + 1);
        var r' := LoopFrom(s.value.1, s.value.0, reloadInterval, resetStart, attempts, worldAt, n + 1);
        var r := LoopFrom(vals, at, reloadInterval, resetStart, attempts, worldAt, n);
        forall k | 0 < k < |r.visits|
          ensures r.visits[k].attempt == n + k
        {
          assert r.visits[k] == r'.visits[k - 1];
        }
      }
    }
  }

  /** The positions of the attempts of a run never move back. */
  lemma {:induction false} LoopFromVisitsOrdered(vals: seq<ActionVal>, at: Option<nat>, reloadInterval: int, resetStart: int,
                                                 attempts: seq<Attempt>, worldAt: nat -> World, n: nat)
    requires n <= |attempts|
    requires at.Some? ==> at.value < |vals|
    ensures var r := LoopFrom(vals, at, reloadInterval, resetStart, attempts, worldAt, n);
      forall k :: 0 < k < |r.visits| ==> r.visits[k - 1].cursor <= r.visits[k].cursor
    decreases |attempts| - n
  {
    if at.Some? && !InvalidTrade(vals[at.value], worldAt(n).factions) && n < |attempts|
       && !ReloadDue(resetStart + n + 1, reloadInterval) && attempts[n] == Success {
      var s := NextUnmet(vals, at.value, n + 1, worldAt(n + 1));
      if s.Ok? {
        LoopFromStep(vals, at, reloadInterval, resetStart, attempts, worldAt, n);
        LoopFromVisits(s.value.1, s.value.0, reloadInterval, resetStart, attempts, worldAt, n + 1);
        LoopFromVisitsOrdered(s.value.1, s.value.0, reloadInterval, resetStart, attempts, worldAt, n + 1);
        var r' := LoopFrom(s.value.1, s.value.0, reloadInterval, resetStart, attempts, worldAt, n + 1);
        var r := LoopFrom(vals, at, reloadInterval, resetStart, attempts, worldAt, n);
        forall k | 0 < k < |r.visits|
          ensures r.visits[k - 1].cursor <= r.visits[k].cursor
        {
          assert r.visits[k] == r'.visits[k - 1];
        }
      }
    }
  }

  /** Each attempt of a run is at a position of the chain, for an action
      whose faction check passed after the attempts made before it. */
  lemma {:induction false} LoopFromVisitsValid(vals: seq<ActionVal>, at: Option<nat>, reloadInterval: int, resetStart: int,
                                               attempts: seq<Attempt>, worldAt: nat -> World, n: nat)
    requires n <= |attempts|
    requires at.Some? ==> at.value < |vals|
    ensures var r := LoopFrom(vals, at, reloadInterval, resetStart, attempts, worldAt, n);
      forall v :: v in r.visits ==> v.cursor < |vals| && !InvalidTrade(v.action, worldAt(v.attempt).factions)
    decreases |attempts| - n
  {
    if at.Some? && !InvalidTrade(vals[at.value], worldAt(n).factions) && n < |attempts|
       && !ReloadDue(resetStart + n + 1, reloadInterval) && attempts[n] == Success {
      var s := NextUnmet(vals, at.value, n + 1, worldAt(n + 1));
      if s.Ok? {
        LoopFromStep(vals, at, reloadInterval, resetStart, attempts, worldAt, n);
        LoopFromVisitsValid(s.value.1, s.value.0, reloadInterval, resetStart, attempts, worldAt, n + 1);
        LoopFromShape(s.value.1, s.value.0, reloadInterval, resetStart, attempts, worldAt, n + 1);
      }
    }
  }

  /** Every attempt after the first of a run is made for an action whose
      goal the check just before it found unmet. */
  lemma {:induction false} LoopFromUnmet(vals: seq<ActionVal>, at: Option<nat>, reloadInterval: int, resetStart: int,
                                         attempts: seq<Attempt>, worldAt: nat -> World, n: nat)
    requires n <= |attempts|
    requires at.Some? ==> at.value < |vals|
    ensures var r := LoopFrom(vals, at, reloadInterval, resetStart, attempts, worldAt, n);
      r.visits != [] ==> forall v :: v in r.visits[1..] ==> !GoalMet(v.action, v.attempt, worldAt(v.attempt))
    decreases |attempts| - n
  {
    if at.Some? && !InvalidTrade(vals[at.value], worldAt(n).factions) && n < |attempts|
       && !ReloadDue(resetStart + n + 1, reloadInterval) && attempts[n] == Success {
      var s := NextUnmet(vals, at.value, n + 1, worldAt(n + 1));
      if s.Ok? {
        LoopFromStep(vals, at, reloadInterval, resetStart, attempts, worldAt, n);
        LoopFromUnmet(s.value.1, s.value.0, reloadInterval, resetStart, attempts, worldAt, n + 1);
        var r' := LoopFrom(s.value.1, s.value.0, reloadInterval, resetStart, attempts, worldAt, n + 1);
        var r := LoopFrom(vals, at, reloadInterval, resetStart, attempts, worldAt, n);
        assert r.visits[1..] == r'.visits;
        if r'.visits != [] {
          LoopFromVisits(s.value.1, s.value.0, reloadInterval, resetStart, attempts, worldAt, n + 1);
          NextUnmetSpec(vals, at.value, n + 1, worldAt(n + 1));
          CheckedMet(vals[s.value.0.value], n + 1, worldAt(n + 1));
          assert r'.visits == [r'.visits[0]] + r'.visits[1..];
        }
      }
    }
  }

  /** The goal of an action the loop moved past was met, as checked, at
      some check after an attempt of the run. */
  predicate MetAfter(v: ActionVal, n: nat, m: nat, worldAt: nat -> World)
  {
    exists k :: n < k <= m && GoalMet(v, k, worldAt(k))
  }

  /** The positions a run moves past - all the rest of the chain when it
      ends "all done" - hold actions whose goals were checked and met. */
  lemma {:induction false} LoopFromPassed(vals: seq<ActionVal>, at: Option<nat>, reloadInterval: int, resetStart: int,
                                          attempts: seq<Attempt>, worldAt: nat -> World, n: nat)
    requires n <= |attempts|
    requires at.Some? ==> at.value < |vals|
    ensures var r := LoopFrom(vals, at, reloadInterval, resetStart, attempts, worldAt, n);
      var from := if at.Some? then at.value else |vals|;
      var upto := if r.last.Some? then r.last.value else |vals|;
      forall j :: from <= j < upto && j < |r.vals| ==> MetAfter(r.vals[j], n, r.n, worldAt)
    decreases |attempts| - n
  {
    if at.Some? && !InvalidTrade(vals[at.value], worldAt(n).factions) && n < |attempts|
       && !ReloadDue(resetStart + n + 1, reloadInterval) && attempts[n] == Success {
      match NextUnmet(vals, at.value, n + 1, worldAt(n + 1))
      case Err(e) =>
      case Ok((next, vals')) =>
        LoopFromPassed(vals', next, reloadInterval, resetStart, attempts, worldAt, n + 1);
        LoopFromShape(vals', next, reloadInterval, resetStart, attempts, worldAt, n + 1);
        LoopFromLast(vals', next, reloadInterval, resetStart, attempts, worldAt, n + 1);
        LoopFromFrame(vals', next, reloadInterval, resetStart, attempts, worldAt, n + 1);
        NextUnmetSpec(vals, at.value, n + 1, worldAt(n + 1));
        var r := LoopFrom(vals', next, reloadInterval, resetStart, attempts, worldAt, n + 1);
        var stop := if next.Some? then next.value else |vals|;
        forall j | at.value <= j < stop
          ensures MetAfter(r.vals[j], n, r.n, worldAt)
        {
          CheckedMet(vals[j], n + 1, worldAt(n + 1));
          assert GoalMet(r.vals[j], n + 1, worldAt(n + 1));
        }
        forall j | stop <= j < |r.vals| && MetAfter(r.vals[j], n + 1, r.n, worldAt)
          ensures MetAfter(r.vals[j], n, r.n, worldAt)
        {
          var k :| n + 1 < k <= r.n && GoalMet(r.vals[j], k, worldAt(k));
        }
    }
  }

  /** A run ends on an invalid faction only at an action that is a trade
      with a faction the player has not joined or cannot trade with. */
  lemma {:induction false} LoopFromInvalid(vals: seq<ActionVal>, at: Option<nat>, reloadInterval: int, resetStart: int,
                                           attempts: seq<Attempt>, worldAt: nat -> World, n: nat)
    requires n <= |attempts|
    requires at.Some? ==> at.value < |vals|
    ensures var r := LoopFrom(vals, at, reloadInterval, resetStart, attempts, worldAt, n);
      r.end == InvalidFaction ==>
        r.last.Some? && r.last.value < |r.vals| && InvalidTrade(r.vals[r.last.value], worldAt(r.n).factions)
    decreases |attempts| - n
  {
    if at.Some? && !InvalidTrade(vals[at.value], worldAt(n).factions) && n < |attempts|
       && !ReloadDue(resetStart + n + 1, reloadInterval) && attempts[n] == Success {
      match NextUnmet(vals, at.value, n + 1, worldAt(n + 1))
      case Err(e) =>
      case Ok((next, vals')) =>
        LoopFromInvalid(vals', next, reloadInterval, resetStart, attempts, worldAt, n + 1);
    }
  }

  /** The counters of `infiltrateLoop` are those `LoopCounters` describes;
      a throw of the first check ends it before any attempt. */
  lemma InfiltrationCounters(vals: seq<ActionVal>, reloadInterval: int, resetStart: int,
                             attempts: seq<Attempt>, worldAt: nat -> World)
    ensures var r := Infiltration(vals, reloadInterval, resetStart, attempts, worldAt);
      && LoopCounters(attempts, reloadInterval, resetStart, r.end, r.loopCount, resetStart + r.n, r.n)
      && (NextUnmet(vals, 0, 0, worldAt(0)).Err? ==> r.end.Thrown? && r.n == 0)
  {
    match NextUnmet(vals, 0, 0, worldAt(0))
    case Err(e) =>
      CountersBetween(attempts, reloadInterval, resetStart, Thrown(e), 0);
    case Ok((first, vals')) =>
      LoopFromCounters(vals', first, reloadInterval, resetStart, attempts, worldAt, 0);
  }

  /** Every attempt `infiltrateLoop` makes is for the action `nextUnmetGoal`
      stopped at: its goal was unmet at the check just before the attempt,
      after `k` earlier attempts, and its faction check passed. */
  lemma AttemptsOnUnmetGoals(vals: seq<ActionVal>, reloadInterval: int, resetStart: int,
                             attempts: seq<Attempt>, worldAt: nat -> World)
    ensures var r := Infiltration(vals, reloadInterval, resetStart, attempts, worldAt);
      && |r.visits| == r.n
      && forall k :: 0 <= k < |r.visits| ==>
           && r.visits[k].attempt == k
           && r.visits[k].cursor < |vals|
           && !GoalMet(r.visits[k].action, k, worldAt(k))
           && !InvalidTrade(r.visits[k].action, worldAt(k).factions)
           && (k > 0 ==> r.visits[k - 1].cursor <= r.visits[k].cursor)
  {
    match NextUnmet(vals, 0, 0, worldAt(0))
    case Err(e) =>
    case Ok((first, vals')) =>
      LoopFromShape(vals', first, reloadInterval, resetStart, attempts, worldAt, 0);
      LoopFromVisits(vals', first, reloadInterval, resetStart, attempts, worldAt, 0);
      LoopFromVisitsValid(vals', first, reloadInterval, resetStart, attempts, worldAt, 0);
      LoopFromVisitsOrdered(vals', first, reloadInterval, resetStart, attempts, worldAt, 0);
      LoopFromUnmet(vals', first, reloadInterval, resetStart, attempts, worldAt, 0);
      var r := LoopFrom(vals', first, reloadInterval, resetStart, attempts, worldAt, 0);
      if r.visits != [] {
        NextUnmetSpec(vals, 0, 0, worldAt(0));
        CheckedMet(vals[first.value], 0, worldAt(0));
        forall k | 0 < k < |r.visits|
          ensures !GoalMet(r.visits[k].action, k, worldAt(k))
        {
          assert r.visits[1..][k - 1] == r.visits[k];
        }
      }
  }

  /** "All infiltration actions completed" is reported only when every goal
      of the chain was met at one of the checks, each after `k` attempts
      (the first before any). */
  lemma AllDoneMeansAllMet(vals: seq<ActionVal>, reloadInterval: int, resetStart: int,
                           attempts: seq<Attempt>, worldAt: nat -> World)
    ensures var r := Infiltration(vals, reloadInterval, resetStart, attempts, worldAt);
      r.end == AllDone ==>
        |r.vals| == |vals| &&
        forall j :: 0 <= j < |vals| ==> exists k :: 0 <= k <= r.n && GoalMet(r.vals[j], k, worldAt(k))
  {
    match NextUnmet(vals, 0, 0, worldAt(0))
    case Err(e) =>
    case Ok((first, vals')) =>
      LoopFromShape(vals', first, reloadInterval, resetStart, attempts, worldAt, 0);
      LoopFromLast(vals', first, reloadInterval, resetStart, attempts, worldAt, 0);
      LoopFromFrame(vals', first, reloadInterval, resetStart, attempts, worldAt, 0);
      LoopFromPassed(vals', first, reloadInterval, resetStart, attempts, worldAt, 0);
      NextUnmetSpec(vals, 0, 0, worldAt(0));
      var r := LoopFrom(vals', first, reloadInterval, resetStart, attempts, worldAt, 0);
      var stop := if first.Some? then first.value else |vals|;
      if r.end == AllDone {
        forall j | 0 <= j < |vals|
          ensures exists k :: 0 <= k <= r.n && GoalMet(r.vals[j], k, worldAt(k))
        {
          if j < stop {
            CheckedMet(vals[j], 0, worldAt(0));
            assert GoalMet(r.vals[j], 0, worldAt(0));
          } else {
            var k :| 0 < k <= r.n && GoalMet(r.vals[j], k, worldAt(k));
          }
        }
      }
  }

  /** `infiltrateLoop` stops on an invalid faction only at a trade action
      whose faction the player, after the attempts made, has not joined or
      cannot trade with. */
  lemma InvalidFactionStops(vals: seq<ActionVal>, reloadInterval: int, resetStart: int,
                            attempts: seq<Attempt>, worldAt: nat -> World)
    ensures var r := Infiltration(vals, reloadInterval, resetStart, attempts, worldAt);
      r.end == InvalidFaction ==>
        r.last.Some? && r.last.value < |r.vals| && InvalidTrade(r.vals[r.last.value], worldAt(r.n).factions)
  {
    match NextUnmet(vals, 0, 0, worldAt(0))
    case Err(e) =>
    case Ok((first, vals')) =>
      LoopFromInvalid(vals', first, reloadInterval, resetStart, attempts, worldAt, 0);
  }

  /** When the first scan answers, `infiltrateLoop` is the loop run from
      where it stopped, on the goals it left. */
  lemma InfiltrationStart(vals: seq<ActionVal>, reloadInterval: int, resetStart: int,
                          attempts: seq<Attempt>, worldAt: nat -> World)
    requires NextUnmet(vals, 0, 0, worldAt(0)).Ok?
    ensures var s := NextUnmet(vals, 0, 0, worldAt(0)).value;
      Infiltration(vals, reloadInterval, resetStart, attempts, worldAt)
        == LoopFrom(s.1, s.0, reloadInterval, resetStart, attempts, worldAt, 0)
  {
  }

  /** A successful attempt that does not trigger the reload: the goal
      check's result `res`, leaving the actions as `vals'`, decides the run
      (it throws, or the loop goes on from where the check stopped). */
  lemma LoopFromAttempt(vals: seq<ActionVal>, at: nat, reloadInterval: int, resetStart: int,
                        attempts: seq<Attempt>, worldAt: nat -> World, n: nat,
                        res: Result<Option<nat>>, vals': seq<ActionVal>)
    requires n < |attempts| && at < |vals|
    requires !InvalidTrade(vals[at], worldAt(n).factions)
    requires !ReloadDue(resetStart + n + 1, reloadInterval) && attempts[n] == Success
    requires var s := NextUnmet(vals, at, n + 1, worldAt(n + 1));
      && (res.Err? <==> s.Err?) && (res.Err? ==> res.error == s.error)
      && (res.Ok? ==> res.value == s.value.0 && vals' == s.value.1)
    ensures var r := LoopFrom(vals, Some(at), reloadInterval, resetStart, attempts, worldAt, n);
      && (res.Err? ==> r.end == Thrown(res.error) && r.loopCount == n + 1 && r.n == n + 1)
      && (res.Ok? ==> SameOutcome(r, LoopFrom(vals', res.value, reloadInterval, resetStart, attempts, worldAt, n + 1)))
  {
    if res.Ok? {
      LoopFromStep(vals, Some(at), reloadInterval, resetStart, attempts, worldAt, n);
    }
  }

  /** The check at the top of each pass: a trade action for a faction the
      player has not joined, or one that cannot be traded to. */
  method InvalidTarget(current: LoopAction, factions: seq<string>) returns (invalid: bool)
    ensures invalid <==> current.kind == Trade && !(current.target in factions && CanInfiltrateFor(current.target))
  {
    invalid := current.kind == Trade && current.target !in ValidFactions(factions);
    ValidFactionsSpec(factions, current.target);
  }

  /** One pass of the `while (true)` of `infiltrateLoop`, at the action at
      `at` after `n` attempts: either the loop stops here, with the outcome
      of the run, or it goes on from `next` after one more successful
      attempt. */
  method Pass(actions: seq<LoopAction>, at: nat, reloadInterval: int, ghost resetStart: int,
              attempts: seq<Attempt>, worldAt: nat -> World, n: nat, loopCount: nat, resetLoopCount: int)
      returns (stop: bool, end: LoopEnd, next: Option<nat>, loopCount': nat, resetLoopCount': int, n': nat)
    requires NoDup(actions)
    requires at < |actions| && n <= |attempts|
    requires loopCount == n && resetLoopCount == resetStart + n
    modifies actions
    ensures resetLoopCount' == resetStart + n'
    ensures var r := LoopFrom(old(Vals(actions)), Some(at), reloadInterval, resetStart, attempts, worldAt, n);
      && (stop ==> end == r.end && loopCount' == r.loopCount && n' == r.n && (!end.Thrown? ==> Vals(actions) == r.vals))
      && (!stop ==> && n' == n + 1 && n' <= |attempts| && loopCount' == n'
                    && (next.Some? ==> next.value < |actions|)
                    && SameOutcome(r, LoopFrom(Vals(actions), next, reloadInterval, resetStart, attempts, worldAt, n')))
  {
    loopCount', resetLoopCount', n', next := loopCount, resetLoopCount, n, None;
    var invalid := InvalidTarget(actions[at], worldAt(n).factions);
    if invalid {
      return true, InvalidFaction, next, loopCount', resetLoopCount', n';
    }
    if n == |attempts| {
      return true, Running, next, loopCount', resetLoopCount', n';
    }
    stop, end, next, loopCount', resetLoopCount', n' := MakeAttempt(actions, at, reloadInterval, resetStart, attempts, worldAt, n, loopCount, resetLoopCount);
  }

  /** The rest of a pass, once the action at `at` passed the faction check
      and an attempt is left: the attempt, the reload check and the goal
      check. */
  method MakeAttempt(actions: seq<LoopAction>, at: nat, reloadInterval: int, ghost resetStart: int,
                 attempts: seq<Attempt>, worldAt: nat -> World, n: nat, loopCount: nat, resetLoopCount: int)
      returns (stop: bool, end: LoopEnd, next: Option<nat>, loopCount': nat, resetLoopCount': int, n': nat)
    requires NoDup(actions)
    requires at < |actions| && n < |attempts|
    requires !InvalidTrade(Vals(actions)[at], worldAt(n).factions)
    requires loopCount == n && resetLoopCount == resetStart + n
    modifies actions
    ensures resetLoopCount' == resetStart + n'
    ensures var r := LoopFrom(old(Vals(actions)), Some(at), reloadInterval, resetStart, attempts, worldAt, n);
      && (stop ==> end == r.end && loopCount' == r.loopCount && n' == r.n && (!end.Thrown? ==> Vals(actions) == r.vals))
      && (!stop ==> && n' == n + 1 && n' <= |attempts| && loopCount' == n'
                    && (next.Some? ==> next.value < |actions|)
                    && SameOutcome(r, LoopFrom(Vals(actions), next, reloadInterval, resetStart, attempts, worldAt, n')))
  {
    next := None;
    var result := attempts[n];
    loopCount' := loopCount;
    n' := n + 1;
    resetLoopCount' := resetLoopCount + 1;
    var reload := ReloadDue(resetLoopCount', reloadInterval);
    if reload || result != Success {
      return true, Stopped(result, reload), next, loopCount', resetLoopCount', n';
    }
    loopCount' := loopCount + 1;
    stop, end, next := CheckGoals(actions, at, reloadInterval, resetStart, attempts, worldAt, n, loopCount');
  }

  /** The goal check after a successful attempt that did not trigger the
      reload: `nextUnmetGoal` from the current action, with the new
      `loopCount`. A check that throws ends the loop. */
  method CheckGoals(actions: seq<LoopAction>, at: nat, reloadInterval: int, ghost resetStart: int,
                    attempts: seq<Attempt>, worldAt: nat -> World, n: nat, loopCount: nat)
      returns (stop: bool, end: LoopEnd, next: Option<nat>)
    requires NoDup(actions)
    requires at < |actions| && n < |attempts| && loopCount == n + 1
    requires !InvalidTrade(Vals(actions)[at], worldAt(n).factions)
    requires !ReloadDue(resetStart + n + 1, reloadInterval) && attempts[n] == Success
    modifies actions
    ensures var r := LoopFrom(old(Vals(actions)), Some(at), reloadInterval, resetStart, attempts, worldAt, n);
      && (stop ==> end.Thrown? && end == r.end && r.loopCount == n + 1 && r.n == n + 1)
      && (!stop ==> && (next.Some? ==> next.value < |actions|)
                    && SameOutcome(r, LoopFrom(Vals(actions), next, reloadInterval, resetStart, attempts, worldAt, n + 1)))
  {
    ghost var before := Vals(actions);
    next := None;
    var advanced := Advance(actions, at, loopCount, worldAt(n + 1));
    LoopFromAttempt(before, at, reloadInterval, resetStart, attempts, worldAt, n, advanced, Vals(actions));
    if advanced.Err? {
      return true, Thrown(advanced.error), next;
    }
    return false, Running, advanced.value;
  }

  /** The `while (true)` loop of `infiltrateLoop`, from the action at
      `cursor` (`None` when the chain is already done): the run `LoopFrom`
      gives. */
  method RunLoop(actions: seq<LoopAction>, cursor: Option<nat>, reloadInterval: int, resetStart: int,
                 attempts: seq<Attempt>, worldAt: nat -> World)
      returns (end: LoopEnd, loopCount: nat, resetLoopCount: int, n: nat)
    requires NoDup(actions)
    requires cursor.Some? ==> cursor.value < |actions|
    modifies actions
    ensures var r := LoopFrom(old(Vals(actions)), cursor, reloadInterval, resetStart, attempts, worldAt, 0);
      && end == r.end && loopCount == r.loopCount && n == r.n && resetLoopCount == resetStart + n
      && (!end.Thrown? ==> Vals(actions) == r.vals)
  {
    ghost var v0 := Vals(actions);
    ghost var run := LoopFrom(v0, cursor, reloadInterval, resetStart, attempts, worldAt, 0);
    loopCount := 0;
    resetLoopCount := resetStart;
    n := 0;
    var at: Option<nat> := cursor;
    while true
      invariant n <= |attempts|
      invariant resetLoopCount == resetStart + n && loopCount == n
      invariant at.Some? ==> at.value < |actions|
      invariant SameOutcome(LoopFrom(Vals(actions), at, reloadInterval, resetStart, attempts, worldAt, n), run)
      decreases |attempts| - n
    {
      if at.None? {
        end := AllDone;
        break;
      }
      var stop, next;
      stop, end, next, loopCount, resetLoopCount, n :=
        Pass(actions, at.value, reloadInterval, resetStart, attempts, worldAt, n, loopCount, resetLoopCount);
      if stop {
        break;
      }
      at := next;
    }
  }

  /** `infiltrateLoop(actionChain, reloadInterval)`. `resetStart` is the
      count read back from the loop-count file; `attempts[k]` is what the
      k-th call of `infiltrateOnce` reports and `worldAt(k)` the game after
      k attempts. It returns how the loop ended, the two counters and the
      number of attempts made: the run `Infiltration` gives. */
  method InfiltrateLoop(chain: LoopActionChain, reloadInterval: int, resetStart: int,
                        attempts: seq<Attempt>, worldAt: nat -> World)
      returns (end: LoopEnd, loopCount: nat, resetLoopCount: int, n: nat)
    requires NoDup(chain.actions)
    modifies chain.actions
    ensures var r := Infiltration(old(Vals(chain.actions)), reloadInterval, resetStart, attempts, worldAt);
      && end == r.end && loopCount == r.loopCount && n == r.n && resetLoopCount == resetStart + n
      && (!end.Thrown? ==> Vals(chain.actions) == r.vals)
      && LoopCounters(attempts, reloadInterval, resetStart, r.end, r.loopCount, resetStart + r.n, r.n)
  {
    var actions := chain.actions;
    ghost var v0 := Vals(actions);
    InfiltrationCounters(v0, reloadInterval, resetStart, attempts, worldAt);
    var first := NextUnmetGoal(actions, 0, 0, worldAt(0));
    if first.Err? {
      return Thrown(first.error), 0, resetStart, 0;
    }
    InfiltrationStart(v0, reloadInterval, resetStart, attempts, worldAt);
    end, loopCount, resetLoopCount, n := RunLoop(actions, first.value, reloadInterval, resetStart, attempts, worldAt);
    assert actions == chain.actions;
  }
}
