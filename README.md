# Bitburner automation scripts: a verified model of the decision logic

These scripts automate the browser game Bitburner. Most of their code
reads the page or calls the game's `ns` API. Underneath that plumbing sits
sequential logic that decides what to do. This project models that logic
in Dafny, with the page and the game replaced by plain inputs, and proves
what the scripts promise about it.

The modules follow the scripts:

- `TorusPath`, `BracketGame`, `CheatCode` and `WireGame` model the
  minigame solvers of `infiltrator-service.js`:
  - the keystroke route on a wrap-around grid (`getPathSingle`,
    `getPathSequential`), including how it shifts the caller's point
    arrays in place;
  - the bracket-closing reply;
  - the arrow-to-key polling loop of the cheat-code game;
  - the ordered, duplicate-free solution of the wire-cutting game.
- `ServiceState` models the module state of `infiltrator-service.js`:
  - the time factor that wraps `setTimeout`/`setInterval`, and its
    "did anything change" answer;
  - the deduplicated console log;
  - the automatic factor switch.
- `Autopilot` models the reset logic of `autopilot.js`:
  - the augmentation thresholds and the Daedalus override;
  - the install countdown and purchase reservation;
  - the ascend arguments;
  - the stock reserve written to `reserve.txt`;
  - the daemon arguments and when the daemon is relaunched;
  - the deduplicated status line.
- `InfiltrateGoals` and `InfiltrateLoop` model `infiltrate.js`:
  - goal parsing and the fuzzy choice of a faction;
  - `LoopAction.setGoal`, and the chain of actions built from the goals;
  - the "max" goal computed by `evaluateMax`;
  - `checkGoal` and `nextUnmetGoal`;
  - the retry loop of `infiltrateOnce`;
  - `infiltrateLoop`: its counters and result dispatch, and the walk
    along the goal chain, as the run `Infiltration` on values.
- `Duration` models `parseTime`, which `gym.js` and `skip.js` share. A
  text such as `1h 30m` becomes milliseconds.
- `Gym` models `gym.js`: the stat targets, the training passes of
  `GymHandler.train`, `ensureCity`, and the stats override in `main`.
- `Skip` models `skip.js`: the save edit that moves `lastSave` and
  `lastUpdate` back by the parsed amount, and `editPlayerData`.
- `Network` models `ServerIterator`, the depth-first server walk that
  `findps.js` and `tkill.js` share, as a class whose `completed` list the
  walk updates.
- `Wild` models `checkWild`, the glob pattern turned into an anchored
  regular expression.
- `FindPs` models `findps.js`: the process filter `iterate` and the
  list, kill, restart and tail modes of `handleActions`.
- `TKill` models `tkill.js`:
  - the server order, with the current host moved last by a `splice`;
  - the process filter and the kill loop;
  - the argument defaults of `main`.
- `Services` models `services.js`: the registry in `services.txt`, with
  `stopService`, `registerService` and the `boot`, `list`, `stop` and
  `stopall` commands.
- `Common` holds shared helpers: `Option` and `Result`, duplicate-free
  sequences, and decimal rendering of numbers.

The game API, the page and the files are modelled as follows:

- Answers from the game's API become parameters. The API calls include
  `ns.ps`, `ns.kill`, `ns.exec` and the reads behind
  `getNsDataThroughFile`.
- An answer the scripts ask for repeatedly becomes a function from the
  call's index to the answer, for example "does the k-th kill succeed".
- Files are abstract values held by small host classes. The host classes
  are `Services.ServiceHost`, `Skip.SaveStore` and the reserve file of
  `Autopilot.Autopilot`.
- JSON and base64 are a codec pair with a round-trip hypothesis.
- Numbers from the game are `real`. Counters and indices are `nat`.
- Each read of the clock (`Date.now()`) is a parameter of its own, so
  time can pass between two reads of one pass.

## Model

| member | source | states |
|---|---|---|
| TorusPath.GetPathSingle | infiltrator-service.js:283-301 | the keys typed are the route `SinglePath` between the two original points, and afterwards the two point arrays hold the wrap-adjusted points |
| TorusPath.SinglePathShape | infiltrator-service.js:292-300 | a route is a run of one horizontal key (`d` or `a`) followed by a run of one vertical key (`s` or `w`) |
| TorusPath.MovesDisplacement | infiltrator-service.js:293-299 | the keys move the cursor by exactly `e - s` on both axes, with `abs(e.x - s.x)` horizontal keys |
| TorusPath.MovesDisplacementY | infiltrator-service.js:297-299 | the number of vertical keys is `abs(e.y - s.y)` |
| TorusPath.AdjustAxisFacts | infiltrator-service.js:286-291 | the wrap adjustment shifts at most one of the two coordinates of an axis, by exactly one grid size, and changes their difference by at most one size |
| TorusPath.SinglePathReaches | infiltrator-service.js:283-301 | on a torus of positive size the route from `s` ends on `e`: its displacement equals `e - s` modulo the size on each axis |
| TorusPath.SinglePathShort | infiltrator-service.js:286-300 | for points inside the grid the route goes the short way round: at most half the size in moves per axis |
| TorusPath.SequentialAt | infiltrator-service.js:303-310 | route `i` of the sequence is the single route from the previous point, as shifted by the previous call, to point `i` |
| TorusPath.SequentialSnoc | infiltrator-service.js:306-308 | one more point appends exactly one route, and the shifted end is that call's adjusted end point |
| TorusPath.LastAfterShift | infiltrator-service.js:288-290 | a point shifted by earlier calls is the original point or the original point plus one size per axis |
| TorusPath.SequentialReaches | infiltrator-service.js:303-310 | every route of the sequence, though started from a shifted point, reaches the next point on the torus |
| TorusPath.SegmentReaches | infiltrator-service.js:286-299 | a route started from a point, or from that point shifted one size along either axis, reaches the target on the torus |
| TorusPath.SegmentReachesX | infiltrator-service.js:286-296 | a route started from a point or from that point shifted one size along x reaches the target along x modulo the size |
| TorusPath.SegmentReachesY | infiltrator-service.js:286-299 | the same along y |
| TorusPath.Leg | infiltrator-service.js:306-308 | one loop pass: the route between two consecutive points, with only those two arrays rewritten to their adjusted values |
| TorusPath.LegStep | infiltrator-service.js:305-309 | the loop invariant (routes so far, shifted current point, untouched later points, shifts of at most one size) survives one pass |
| TorusPath.LegShift | infiltrator-service.js:305-309 | the shift bounds and the untouched tail survive one pass |
| TorusPath.FinalPointsShape | infiltrator-service.js:303-310 | after the loop there is one array per point and `start`; the last holds the end point as the last call shifted it; `start` ends shifted by zero or one size on each axis |
| TorusPath.FinalStep | infiltrator-service.js:305-309 | one loop pass rewrites the current and next arrays to their adjusted values and keeps the arrays' final values as `FinalPoints` gives them |
| TorusPath.FinalDone | infiltrator-service.js:305-309 | when the loop ends the arrays hold exactly their `FinalPoints` values |
| TorusPath.TwoSizeShift | infiltrator-service.js:286-291 | on a grid of 10, the route from x 20 over x 0 to x 30 leaves the middle point array two sizes from where it started: once pushed as an end point, once as a start point |
| TorusPath.SequencedStart | infiltrator-service.js:303-305 | before the first leg the loop invariant holds with no routes and nothing moved |
| TorusPath.SequencedStep | infiltrator-service.js:305-309 | one leg keeps the loop invariant: one more route, the arrays of that leg rewritten to their adjusted values |
| TorusPath.SequencedDone | infiltrator-service.js:305-310 | after the last leg the routes are `SequentialFrom` of the original points, one per point, and the arrays hold their `FinalPoints` values, each within two sizes of where it started |
| TorusPath.GetPathSequential | infiltrator-service.js:303-310 | one route per point, equal to `SequentialFrom` of the original points starting at `start`; `start` and the point arrays end as `FinalPoints` of their old values: each shifted by zero, one or two sizes per axis, since the call that ends a leg and the one that starts the next can both add a size |
| BracketGame.Reverse | infiltrator-service.js:470 | reversal: same length, character `i` is character `n - 1 - i` of the input |
| BracketGame.ReplaceAllAt | infiltrator-service.js:472-475 | `replaceAll` of a character keeps the length and replaces exactly the positions holding it |
| BracketGame.CloseTextIsMap | infiltrator-service.js:470-475 | the reply is the reversed text without its first bar, with every character mapped to its closer |
| BracketGame.CloseTextLength | infiltrator-service.js:470-475 | the reply is one character shorter than the text exactly when the text holds a bar |
| BracketGame.CloseTextAt | infiltrator-service.js:470-475 | character `j` of the reply is the closer of the mirrored character of the text, skipping the last bar of the text |
| BracketGame.LastBarIsFirstOfReverse | infiltrator-service.js:470-471 | the bar removed from the reversal is the last bar of the original text |
| BracketGame.CloseTextNoOpeners | infiltrator-service.js:470-475 | no opening bracket is left in the reply |
| BracketGame.LastIndexOf | infiltrator-service.js:470-471 | the last index holding the character, or -1 when there is none |
| BracketGame.LastBefore | infiltrator-service.js:470-471 | the last index below a bound holding the character, or -1 |
| CheatCode.Solve | infiltrator-service.js:482-504 | the polling loop types exactly `CheatKeys` of the arrows it sees |
| CheatCode.CheatKeysValid | infiltrator-service.js:485-497 | only the four movement keys are typed, at most one per poll |
| CheatCode.CheatKeysStutter | infiltrator-service.js:492 | seeing the same arrow on two consecutive polls types nothing more |
| CheatCode.CheatKeysStopsAtUnknown | infiltrator-service.js:493-499 | an arrow outside the table ends the routine: nothing after it is typed |
| CheatCode.CheatKeysDistinct | infiltrator-service.js:485-497 | a sequence of distinct known arrows, one per poll, types their keys in order |
| WireGame.ColorHints | infiltrator-service.js:581-582 | each colour name is mapped through the table of four colours (`None` for any other word) |
| WireGame.WireCount | infiltrator-service.js:590 | the number of wires is the number of header cells, at most the number of children |
| WireGame.Build | infiltrator-service.js:583-602 | the solution typed is `Solution` of the hints and the panel |
| WireGame.AddNumbers | infiltrator-service.js:584-585 | after the first loop the set holds the number hints, each once, in first-seen order |
| WireGame.AddColumns | infiltrator-service.js:594-602 | the second loop adds the 1-based column of every wire node whose colour is hinted |
| WireGame.Solve | infiltrator-service.js:579-603 | as written: a scan that finds no match makes the solver throw, so nothing is typed; otherwise the solution is `Solution` |
| WireGame.SolveFixed | infiltrator-service.js:579-603 | corrected: a missing scan counts as no hints, and the solution is always `Solution` |
| WireGame.InsertAllSnoc | infiltrator-service.js:585 | adding one more element to the set after a sequence is adding it last |
| WireGame.InsertAllAppend | infiltrator-service.js:584-602 | adding two sequences is adding the first and then the second |
| WireGame.InsertAllNoDup | infiltrator-service.js:583-585 | the set never holds an entry twice |
| WireGame.InsertAllElems | infiltrator-service.js:583-585 | an entry is in the set iff it was there before or was added |
| WireGame.InsertAllPrefix | infiltrator-service.js:583-585 | adding never reorders or drops entries already in the set |
| WireGame.InsertAllFresh | infiltrator-service.js:583-585 | adding distinct fresh entries appends them |
| WireGame.LabelsInRange | infiltrator-service.js:596-599 | every column added names a wire between 1 and the number of wires |
| WireGame.SolutionFacts | infiltrator-service.js:583-603 | the solution has no repeats, holds exactly the number hints and hinted columns, and starts with the deduplicated number hints |
| WireGame.SolutionStartsWithNumbers | infiltrator-service.js:584-585 | with distinct number hints the solution starts with exactly them |
| WireGame.OnlyNumberHints | infiltrator-service.js:579-585 | with a number hint and no colour hint, the corrected solver types the hinted wire |
| ServiceState.Round | infiltrator-service.js:108 | `Math.round` gives the nearest integer, halves rounded up |
| ServiceState.EffectiveDelay | infiltrator-service.js:106-120 | a wrapped timer waits the delay scaled by the factor and rounded, unless the delay is at least 30 s; native timers wait the delay |
| ServiceState.Service.constructor | infiltrator-service.js:49-91 | at module load the factor is 1, the timers are native and nothing has been logged |
| ServiceState.Service.SetTimeFactor | infiltrator-service.js:92-122 | returns true iff the factor changed; the timers are native for factor 1 and wrapped otherwise; the log is untouched |
| ServiceState.Service.LogConsole | infiltrator-service.js:50-54 | a message is printed with the script prefix unless it equals the last message |
| ServiceState.Service.AutoSetTimeFactor | infiltrator-service.js:124-139 | the factor becomes the infiltration factor while a level is shown and 1 otherwise, with the timers wrapped exactly when it is not 1; when the factor changes, `Infiltration detected: injecting middleware` or `Infiltration not detected: removing injection` becomes the last message and is printed with the prefix unless it was already the last one; otherwise the console and the last message are unchanged |
| ServiceState.PrefixInjective | infiltrator-service.js:52 | different messages print as different prefixed lines |
| Autopilot.AugsNeeded | autopilot.js:375-377 | the augmentations needed are at least 1 and at least the setting minus the hourly reduction, and equal one of the two |
| Autopilot.OrOne | autopilot.js:451-452 | a missing or zero bitnode multiplier reads as 1; any other value is kept |
| Autopilot.ReserveNeeded | autopilot.js:380-390 | the reserve is the reputation plus augmentation cost, except that a forced Daedalus reset turns a zero reserve into 1 |
| Autopilot.MinStockPercent | autopilot.js:477 | the stock share is 80% at playtime 0, falls by 10% per hour of playtime (`0.8 - 0.1 * t / 3.6e6`) and is 0 from eight hours on; it never leaves the range 0 to 80% for a non-negative playtime |
| Autopilot.MinStockPercentHourly | autopilot.js:476-477 | within the first eight hours one more hour of playtime lowers the stock share by exactly 10% |
| Autopilot.SetStatus | autopilot.js:510-519 | the status key becomes the unique part (or the status); the status is logged only when the key changes; nothing else changes |
| Autopilot.Autopilot.constructor | autopilot.js:37-46 | the script starts with no reservation, no countdown, no status and the reserve file as found |
| Autopilot.Autopilot.SetStatusLine | autopilot.js:514-519 | the state after `setStatus` is `SetStatus` of the state before |
| Autopilot.Autopilot.WriteReserve | autopilot.js:472-481 | writing reserve.txt replaces its value and counts one write; nothing else changes |
| Autopilot.Autopilot.MaybeInstall | autopilot.js:351-442 | the outcome and new state of `maybeInstallAugmentations` are `InstallStep` of the old state, with its three separate clock readings (rerun check, countdown restart, countdown check) |
| Autopilot.Autopilot.Reset | autopilot.js:400-442 | the part from the delay check on: outcome and new state are `ResetStep` of the old state |
| Autopilot.Autopilot.ManageReservedMoney | autopilot.js:468-481 | the new state of `manageReservedMoney` is `ManageReserveStep` of the old state |
| Autopilot.Autopilot.CheckDaemon | autopilot.js:218-275 | outside the check interval nothing happens; otherwise the check time is recorded and daemon.js is launched, with the arguments returned, exactly as `DaemonStep` says |
| Autopilot.ShouldResetMonotone | autopilot.js:375-383 | with a non-negative hourly reduction, once a reset is warranted it stays warranted as playtime grows |
| Autopilot.EarlyExitClearsReservation | autopilot.js:352-401 | every pass that stops before the reservation stage drops the reservation, except the no-singularity exit, which changes nothing |
| Autopilot.LargerPurchaseRestartsCountdown | autopilot.js:404-418 | a larger affordable purchase restarts the countdown from the second clock reading and writes the new reserve to reserve.txt; the pass waits holding that amount exactly when the third reading is before the new deadline, and ascends otherwise |
| Autopilot.AscendOnlyAfterCountdown | autopilot.js:404-432 | ascend.js is launched either when the reserve already covers the purchase and the countdown has run out, in a pass that leaves the state unchanged, or when the pass reserved the purchase itself and writing reserve.txt took the whole countdown |
| Autopilot.AscendSoftReset | autopilot.js:427-431 | ascend.js gets the fixed six arguments, plus `--allow-soft-reset` exactly when no augmentation is affordable |
| Autopilot.WaitThenAscend | autopilot.js:404-432 | a pass that waits is followed, once the countdown has elapsed by its countdown check and the faction manager says the same, by a pass that ascends |
| Autopilot.AscendOnStoredOutput | autopilot.js:356-432 | a pass that starts just before the deadline does not rerun the faction manager, and if the deadline has passed by the countdown check it ascends on the stored output, leaving the state unchanged |
| Autopilot.StockReserveBounds | autopilot.js:475-480 | the stock reserve lies between 0 and 1e12 and, below the cap, covers both the 8e9 floor minus the stocks held and the playtime share of the money |
| Autopilot.StockReserveNonIncreasing | autopilot.js:477-480 | for the same money and stocks, the stock reserve never grows as the bitnode goes on |
| Autopilot.ReserveAtMono | autopilot.js:480 | the reserve grows with the stock share |
| Autopilot.ManageReserveFacts | autopilot.js:468-481 | while a purchase is reserved nothing changes; otherwise reserve.txt ends up holding 1e11 for Daedalus or the stock reserve, and it is written iff its value changes |
| Autopilot.DaemonArgsShape | autopilot.js:261-268 | daemon.js arguments start with the stock-manipulation flag below the hacking threshold and the looping flag at or above it, and end with the disabled scripts |
| Autopilot.DaemonLaunchStable | autopilot.js:270 | a daemon.js already running with the arguments for the current hacking level is not relaunched |
| Autopilot.SetStatusIdempotent | autopilot.js:514-519 | setting the same status twice is the same as setting it once |
| InfiltrateGoals.Underscores | infiltrate.js:89 | every underscore of the target becomes a space, and nothing else changes |
| InfiltrateGoals.FindKey | infiltrate.js:97-100 | `findIndex` returns an index of the key list or nothing |
| InfiltrateGoals.FindKeyFirst | infiltrate.js:97-100 | the index found is the first key that passes the test; nothing is found only when no key passes |
| InfiltrateGoals.ResolveIn | infiltrate.js:94-102 | a resolved target is one of the faction keys |
| InfiltrateGoals.StartsWithContains | infiltrate.js:97-100 | a key that starts with the target also contains it, so the second search finds something whenever the first does |
| InfiltrateGoals.ResolveInSpec | infiltrate.js:94-102 | the target resolves to the first key starting with it (ignoring case), or failing that to the first key containing it; it resolves to nothing iff no key contains it |
| InfiltrateGoals.EmptyTargetIsIlluminati | infiltrate.js:94-102 | an empty target (a goal such as `:100`) names the first faction, Illuminati |
| InfiltrateGoals.ParseGoal | infiltrate.js:286-317 | as written: a number goal throws at `toLowerCase`; `max` and `donate` are refused for a sell action; a text that is not a number, `max` or `donate` throws |
| InfiltrateGoals.ParseGoalFixed | infiltrate.js:286-317 | corrected: a number goal is that number; text goals are parsed as written |
| InfiltrateGoals.LoopAction.constructor | infiltrate.js:281-285 | a new action has the kind and target given and no goal |
| InfiltrateGoals.LoopAction.SetGoal | infiltrate.js:286-317 | on success the goal becomes the parsed goal and the action itself is returned; on a throw the goal is left as it was |
| InfiltrateGoals.LoopAction.SetGoalFixed | infiltrate.js:286-317 | the same with numbers accepted |
| InfiltrateGoals.LoopActionChain.constructor | infiltrate.js:342-344 | a new chain holds no action |
| InfiltrateGoals.LoopActionChain.Add | infiltrate.js:345-349 | `add` appends the action to the chain |
| InfiltrateGoals.Vals | infiltrate.js:350-354 | the values of a chain's actions, in order |
| InfiltrateGoals.ClassifyGoal | infiltrate.js:88-106 | a goal kept by `main` is a sell action (target `$`) or a trade action whose target is a faction key |
| InfiltrateGoals.PlanGoalsStepOk | infiltrate.js:86-115 | one more goal extends the plan by the action it contributes, if any |
| InfiltrateGoals.PlanGoalsStepErr | infiltrate.js:86-115 | a goal whose `setGoal` throws fails the plan |
| InfiltrateGoals.PlanGoalsErrSticky | infiltrate.js:86-115 | once a goal throws, the whole plan fails: `main` throws |
| InfiltrateGoals.ActionFor | infiltrate.js:88-114 | one pass of `main`'s goal loop makes a fresh action exactly when `GoalAction` contributes one, with that value, and throws exactly when it throws |
| InfiltrateGoals.AddIfAny | infiltrate.js:109-113 | the chain grows by the contributed action, and its actions stay distinct objects |
| InfiltrateGoals.AddGoal | infiltrate.js:86-115 | after goal `i` the chain holds the plan of the first `i + 1` goals; a throw means the plan of all goals fails |
| InfiltrateGoals.AddGoals | infiltrate.js:84-115 | after the loop the chain holds `PlanGoals` of the goals, or the plan fails |
| InfiltrateGoals.BuildChain | infiltrate.js:84-118 | `main` up to the loop: a fresh chain holding `Plan` of the goals, and a throw exactly when `Plan` fails |
| InfiltrateGoals.ManualAction | infiltrate.js:116-118 | `LoopAction.manual().setGoal(0)` throws as written and gives a manual action with goal 0 when numbers are accepted |
| InfiltrateGoals.NoGoalsManualMode | infiltrate.js:116-118 | with no goals `main` as written throws; with numbers accepted it plans one manual action with goal 0 |
| InfiltrateGoals.PlanTargets | infiltrate.js:86-115 | every planned action sells or trades to a faction key, and there are at most as many actions as goals |
| InfiltrateGoals.MaxEligibleSpec | infiltrate.js:136-182 | the max goal is the highest reputation requirement among the eligible augmentations, and 0 when there is none |
| InfiltrateGoals.EvaluateMax | infiltrate.js:136-182 | the loop over the faction's augmentations computes `MaxEligible` |
| InfiltrateGoals.GoalMetCases | infiltrate.js:357-405 | a sell goal is met iff the money reaches it; a trade to a faction that cannot be infiltrated counts as met; a manual goal of 0 and a NaN goal are never met |
| InfiltrateLoop.CheckGoal | infiltrate.js:357-405 | `checkGoal` answers and updates the action's goal as `CheckGoalSpec` says, and throws exactly when it does |
| InfiltrateLoop.CheckGoalFacts | infiltrate.js:357-405 | a donate goal throws; any other goal is checked; only trade goals are rewritten, to a number; the answers for sell, trade and manual goals |
| InfiltrateLoop.EvaluateOnce | infiltrate.js:318-328 | a max goal is evaluated once: a second check keeps the number found the first time |
| InfiltrateLoop.NextUnmet | infiltrate.js:407-417 | the index returned, if any, lies in the remaining range and the actions keep their number |
| InfiltrateLoop.NextUnmetStep | infiltrate.js:409-415 | a met goal moves the scan to the next action; an unmet one is the answer |
| InfiltrateLoop.NextUnmetSpec | infiltrate.js:407-417 | the action returned is the first from the cursor on whose goal is unmet, and every action before it was checked and met; done means every remaining goal is met |
| InfiltrateLoop.NextUnmetFrame | infiltrate.js:407-417 | actions before the cursor and after the one returned are untouched |
| InfiltrateLoop.CheckAt | infiltrate.js:410 | `checkGoal` on one action of the chain leaves the other actions' goals alone |
| InfiltrateLoop.CheckStep | infiltrate.js:409-415 | one pass of `nextUnmetGoal`'s loop, stated against the scan still to be done |
| InfiltrateLoop.NextUnmetGoal | infiltrate.js:407-417 | the loop returns `NextUnmet`'s answer and leaves the chain's goals as `NextUnmet` says |
| InfiltrateLoop.InfiltrateOnce | infiltrate.js:501-611 | the retry loop as written: its result is `OnceFrom` with a limit of `failLimit` extra retries |
| InfiltrateLoop.InfiltrateOnceFixed | infiltrate.js:501-611 | corrected: the result is `OnceFrom` giving up after `failLimit` failures in a row |
| InfiltrateLoop.OnceFromSpec | infiltrate.js:522-606 | with one boot more than the limit allows the result is fail; otherwise the first try that is not a boot decides |
| InfiltrateLoop.FourthTryAfterThreeBoots | infiltrate.js:523-556 | after three boots the loop as written makes a fourth try; the corrected one fails |
| InfiltrateLoop.FixedFailsAfterLimit | infiltrate.js:523-556 | with `failLimit` boots in a row the corrected loop fails, and the loop as written goes on to one more try |
| InfiltrateLoop.ValidFactionsSpec | infiltrate.js:456 | a faction is valid iff the player is in it and it can be infiltrated |
| InfiltrateLoop.Advance | infiltrate.js:485-490 | after a success the current action's goal is checked again and the chain goes on exactly as `nextUnmetGoal` started at the current action: the same position, the same goals and the same thrown error |
| InfiltrateLoop.CountersBetween | infiltrate.js:429-495 | the loop counters when the loop stops between attempts |
| InfiltrateLoop.CountersStopped | infiltrate.js:466-494 | the loop counters when an attempt stops the loop by a reload or by an outcome other than success |
| InfiltrateLoop.InvalidTarget | infiltrate.js:455-461 | the pass stops exactly for a trade action whose faction the player has not joined or cannot trade to |
| InfiltrateLoop.Pass | infiltrate.js:429-495 | one pass of the loop either stops with the outcome, counters and goals of the run `LoopFrom` describes, or makes one more successful attempt and leaves a run with the same outcome ahead |
| InfiltrateLoop.MakeAttempt | infiltrate.js:463-494 | after the faction check, one attempt raises the reset count by one; a reload, cancel, fail or unknown result stops the loop with the outcome and counters of the run `LoopFrom` describes; a success goes on with the goal check |
| InfiltrateLoop.CheckGoals | infiltrate.js:484-489 | after a success that triggers no reload, a goal check that throws ends the loop as the run says, with one more counted loop; otherwise the loop goes on from where the scan stops, with the same run ahead |
| InfiltrateLoop.LoopFromAttempt | infiltrate.js:484-489 | after a success that triggers no reload, the goal check's answer decides the run: its error ends the run after that attempt, or the run goes on as from the position and goals the check returns |
| InfiltrateLoop.RunLoop | infiltrate.js:429-495 | the loop ends with the outcome, counters, goals and position of the run `LoopFrom` describes; by `LoopFromCounters` those counters are the ones `LoopCounters` describes |
| InfiltrateLoop.InfiltrateLoop | infiltrate.js:419-499 | `infiltrateLoop` ends with the outcome, counters and goals of the run `Infiltration` describes (the first scan, then the loop), and with the counters `LoopCounters` describes |
| InfiltrateLoop.LoopFromStep | infiltrate.js:485-490 | a successful attempt whose goal check does not throw goes on from where the next scan stops, and is the first attempt of the run |
| InfiltrateLoop.CheckedMet | infiltrate.js:357-405 | a goal check that answers says whether the updated action meets its goal, and keeps the action's type and target |
| InfiltrateLoop.CountersAtStop | infiltrate.js:443-494 | the counters of a run that stops at this pass: all done, invalid faction, out of attempts, a reload or an outcome other than success |
| InfiltrateLoop.CountersAtThrow | infiltrate.js:485-488 | the counters of a run whose goal check after a success throws |
| InfiltrateLoop.LoopFromCounters | infiltrate.js:429-495 | every run of the loop has the counters `LoopCounters` describes |
| InfiltrateLoop.LoopFromShape | infiltrate.js:429-495 | a run makes no more attempts than it is given and keeps the length of the chain |
| InfiltrateLoop.LoopFromLast | infiltrate.js:443-489 | a run ends "all done" exactly when no action is left, and otherwise stops at or after where it started |
| InfiltrateLoop.LoopFromFrame | infiltrate.js:485-489 | a run leaves the actions before its starting position untouched |
| InfiltrateLoop.LoopFromVisits | infiltrate.js:463-466 | a run lists one attempt per attempt made, numbered in order, the first at its starting position |
| InfiltrateLoop.LoopFromVisitsOrdered | infiltrate.js:485-489 | the positions a run attempts never move back along the chain |
| InfiltrateLoop.LoopFromVisitsValid | infiltrate.js:455-464 | every attempt is at a position of the chain, for an action whose faction check passed just before it |
| InfiltrateLoop.LoopFromUnmet | infiltrate.js:485-489 | every attempt after the first of a run is for an action whose goal the check just before it found unmet |
| InfiltrateLoop.LoopFromPassed | infiltrate.js:485-489 | every action a run moves past, and the whole rest of the chain when it ends all done, was checked and met after one of its attempts |
| InfiltrateLoop.LoopFromInvalid | infiltrate.js:455-461 | a run ends on an invalid faction only at a trade action that fails the faction check |
| InfiltrateLoop.InfiltrationCounters | infiltrate.js:419-499 | `infiltrateLoop` ends with the counters `LoopCounters` describes, and a throw of the first scan ends it before any attempt |
| InfiltrateLoop.AttemptsOnUnmetGoals | infiltrate.js:425-489 | every attempt is for the action the scan stopped at: in the chain, its goal unmet at the check just before it, its faction check passed, and in order along the chain |
| InfiltrateLoop.AllDoneMeansAllMet | infiltrate.js:443-446 | "All infiltration actions completed" is reported only when every goal of the chain was checked and met, before the first attempt or after one of them |
| InfiltrateLoop.InvalidFactionStops | infiltrate.js:455-461 | the loop stops on an invalid faction only at a trade action whose faction, after the attempts made, the player has not joined or cannot infiltrate for |
| Duration.DigitRun | skip.js:58-62 | the digit run starting at a position stays inside the string |
| Duration.DigitRunSpec | skip.js:58-62 | the run holds only digits and stops at a non-digit or at the end: the greedy `\d+` |
| Duration.SpaceRun | skip.js:58-62 | the whitespace run starting at a position stays inside the string |
| Duration.SpaceRunSpec | skip.js:58-62 | the run holds only whitespace and stops at a non-space or at the end: the greedy `\s*` |
| Duration.MatchesAtIff | skip.js:58-62 | the expression `(\d+)\s*u` matches at a position iff some digits and spaces there are followed by the unit, and the digits captured are then the whole digit run |
| Duration.ShapeIsGreedy | skip.js:58-62 | any way of matching at a position captures the whole digit run and the whole space run |
| Duration.RunFrom | skip.js:58-62 | a run of digits followed by a non-digit is the digit run |
| Duration.SpaceRunFrom | skip.js:58-62 | a run of spaces followed by a non-space is the space run |
| Duration.FirstMatch | skip.js:58-62 | a match found by `match` lies at or after the start and the expression matches there |
| Duration.FirstMatchLeftmost | skip.js:58-62 | the match found is the leftmost one, and there is none only when the expression matches nowhere |
| Duration.DigitsValueOfNatToString | skip.js:63-67 | `parseInt` of a number written in decimal is the number |
| Duration.ParseTime | skip.js:56-69 | `parseTime` gives a whole number of seconds, in milliseconds |
| Duration.NoUnitIsZero | skip.js:56-69 | a string without any unit letter is a duration of 0 |
| Duration.NoUnitNoMatch | skip.js:58-62 | the expression for a unit finds no match in a string without that letter |
| Duration.SkipAmount | skip.js:73 | the amount skipped is a whole number of seconds, in milliseconds |
| Duration.UnitCountAt | skip.js:58-62 | a match with none before it is the one `match` returns |
| Duration.CountAt | skip.js:58-67 | digits followed by the unit letter, with no earlier match, are the count of that unit |
| Duration.LeadingTerm | skip.js:58-67 | a number followed by a unit letter at the start counts that number, whatever follows |
| Duration.NoMatchInFirstTerm | skip.js:58-62 | a digit run ended by another unit letter and a space holds no match for a second letter |
| Duration.SecondTerm | skip.js:58-67 | in a text such as `1h 30m` the second letter counts the second number |
| Duration.AbsentUnit | skip.js:63-67 | a unit letter that does not occur counts nothing |
| Duration.NoUnitInNumber | skip.js:58-62 | the decimal digits of a number hold no unit letter |
| Duration.UnitCountOfNumber | skip.js:58-67 | in a number followed by one unit letter, that letter counts the number and no other letter counts anything |
| Duration.SingleUnit | skip.js:56-69 | a number followed by one unit letter is that many units, in milliseconds |
| Duration.ParseTimeOfCounts | skip.js:63-68 | the duration is the weighted sum of the five unit counts (a year of 365 days), in milliseconds |
| Duration.JoinTwo | skip.js:73 | two arguments are joined with one space |
| Duration.FirstOfTwo | skip.js:58-67 | in two terms the first letter counts the first number |
| Duration.AbsentFromTwo | skip.js:58-67 | in two terms a letter that is neither of theirs counts nothing |
| Duration.TwoTermCounts | skip.js:58-67 | in two terms with distinct letters each letter counts its own number and the others count nothing |
| Duration.SkipHourAndHalf | skip.js:73 | `run skip.js 1h 30m` skips 5,400,000 ms |
| Duration.RepeatedTermCount | skip.js:58-67 | every letter counts the same in `a u b u` as in `a u` |
| Duration.RepeatedTermIgnored | skip.js:56-69 | a unit's second occurrence adds nothing: only its first match counts |
| Duration.RepeatedUnit | skip.js:56-69 | `5s 7s` is five seconds, not twelve |
| Skip.EditReplacesOnlyPlayer | skip.js:5-17 | with a codec that round-trips, the new save holds the edited player record under `PlayerSave`, with the same fields and every other field unchanged |
| Skip.EditFailsOnlyOnUnreadable | skip.js:8-10 | the edit fails exactly when the save, its `PlayerSave` field or the player record cannot be read |
| Skip.SkipBack | skip.js:75-78 | the callback keeps every other player field and the gap between the two timestamps |
| Skip.SkipBackComposes | skip.js:75-78 | skipping `a` then `b` is skipping `a + b`, and skipping back by `-a` undoes a skip |
| Skip.SaveStore.constructor | skip.js:7-8 | the store holds the save entry given |
| Skip.SaveStore.EditPlayerData | skip.js:5-17 | on success the entry holds the re-encoded edited save; on an error nothing is written |
| Skip.Run | skip.js:72-78 | the amount is `parseTime` of the arguments joined by spaces, and the save is edited by moving both timestamps back by it |
| Skip.SkipRewritesTimestamps | skip.js:72-78 | after a skip the save's player record has both timestamps moved back by the amount and every other save field unchanged |
| Gym.GymCity | gym.js:16-22 | a name passes the `in gymLocations` check iff it is one of the five known gyms or a name every object inherits; only the five known gyms give a city |
| Gym.InitialTargetsOrdered | gym.js:83-88 | the targets start in key order: strength, defense, dexterity, agility |
| Gym.OrderedJoin | gym.js:112-134 | the targets kept so far and the ones still to visit stay in key order |
| Gym.PassOrdered | gym.js:112-134 | a pass keeps the remaining targets in key order |
| Gym.PassKeepsGiven | gym.js:112-134 | a pass keeps only targets it was given, each with its own goal |
| Gym.PassTrainsKept | gym.js:115-133 | the workouts a pass starts are those of the targets it keeps, up to where it stopped, and all of them when it completes |
| Gym.PassWorkoutsInOrder | gym.js:112-134 | within a pass the workouts start in key order, each stat at most once |
| Gym.UnreachedStays | gym.js:115-119 | a target whose goal no reported skill ever exceeds is never deleted |
| Gym.UnreachedSpec | gym.js:115-119 | a target stays iff its goal is not below the skill |
| Gym.SteadyPass | gym.js:112-134 | in a steady game a pass keeps exactly the unreached targets, in order, and trains each of them once |
| Gym.NeverReachedNeverDone | gym.js:110-140 | a target the game never reports as exceeded keeps `train` from reporting all targets reached |
| Gym.SteadyAllReached | gym.js:110-138 | when every skill is already above its target, the first round empties the target set and `train` reports it, whatever place the gym gives |
| Gym.ReachedPass | gym.js:112-119 | a pass over targets all already exceeded deletes each of them, trains nothing and completes |
| Gym.PoorPass | gym.js:112-123 | a pass that reaches an unmet target while away from the gym's city with less than 200,000 stops there, unable to travel |
| Gym.PoorRounds | gym.js:110-138 | training away from the gym's city with less than 200,000 and a target unmet ends with the travel failure, whose report throws (`log` is called without the game handle) |
| Gym.InheritedIsNoCity | gym.js:77-81 | an inherited name such as `toString` passes the gym check and gives a place that is no city |
| Gym.InheritedGymOutcomes | gym.js:73-138 | `train` with an inherited name as gym reports all reached when every skill is above its target, and ends by the throwing travel-failure report when a target is unmet and money is below 200,000 |
| Gym.PassPlayerFrom | gym.js:75-125 | the player record after a pass is the one it started with or one the game reported |
| Gym.TrainOutcomes | gym.js:73-144 | `train` ends before the loop, with no workout, iff the name fails the `in gymLocations` check (inherited names pass it); an all-reached outcome leaves no target |
| Gym.RoundsOutcomes | gym.js:110-140 | the loop never reports an unknown gym, and an all-reached outcome leaves no target |
| Gym.GymHandler.constructor | gym.js:50-57 | the handler holds the target, period, gym and verbosity given, with no player record and no workout yet |
| Gym.GymHandler.EnsureCity | gym.js:63-71 | the handler travels iff it is not in the gym's city (never, for a place that is no city) and has at least 200,000; it is ready iff it was in the city or the travel succeeded |
| Gym.GymHandler.RunPass | gym.js:112-134 | one run of the loop over the targets: the result is `Pass`, and the player record and workout log are updated to match |
| Gym.GymHandler.Train | gym.js:73-144 | `train` ends with the outcome, player record and workouts that `Training` gives, a failed travel as the throw of its report; the handler's settings are unchanged |
| Gym.Options.constructor | gym.js:6-14 | the options hold the values given |
| Gym.Options.RaiseToStats | gym.js:153-156 | `--stats` raises each of the four targets it exceeds and changes nothing else |
| Gym.Raised | gym.js:153-156 | a target after the override is never lowered, is at least `--stats`, and is one of the two |
| Gym.Start | gym.js:149-159 | `main` raises the targets, parses the period and trains with a fresh handler whose default target is `--stats` |
| Network.Unvisited | tkill.js:24-25 | the neighbours kept are exactly those not yet visited, in scan order |
| Network.Shrinks | tkill.js:26-28 | entering one more host leaves fewer hosts to enter, so the walk ends |
| Network.ServerIterator.constructor | tkill.js:7-11 | a new iterator has visited nothing and called `onEach` on nothing |
| Network.ServerIterator.GetIterator | tkill.js:18-30 | run to the end, the iterator yields `Walk` from home; `completed` and the `onEach` calls record exactly that sequence |
| Network.ServerIterator.Scan | tkill.js:20-29 | one call of the inner `scan(target)` yields `WalkFrom` and appends it to `completed` and to the `onEach` calls |
| Network.ServerIterator.ScanEach | tkill.js:26-28 | the loop over the unvisited neighbours yields `WalkList` and appends it to `completed` |
| Network.WalkFromShape | tkill.js:20-29 | the walk from a host starts with that host and stays on the network |
| Network.WalkListInHosts | tkill.js:26-28 | the walks from a list of neighbours stay on the network |
| Network.WalkFromCloses | tkill.js:20-29 | every neighbour of a host the walk yields was visited before or is yielded too |
| Network.WalkListCloses | tkill.js:26-28 | the same for the walks from a list of neighbours, which also yield or find visited every host of the list |
| Network.WalkFromParents | tkill.js:20-29 | every host after the first is a neighbour of a host yielded before it |
| Network.WalkListParents | tkill.js:26-28 | every host yielded from a list of neighbours of `parent` is a neighbour of `parent` or of a host yielded before it |
| Network.JoinParents | tkill.js:26-28 | the parent positions of two consecutive walks combine into those of their concatenation |
| Network.JoinedParentAt | tkill.js:26-28 | the combined parent position of one host is earlier and is its neighbour |
| Network.WalkPreorder | tkill.js:18-30 | the walk yields home first, then only hosts that neighbour a host yielded before them |
| Network.WalkReachesAll | tkill.js:18-30 | nothing connected to home is missed: every neighbour of every host yielded is yielded |
| Network.WalkFromAvoids | tkill.js:22-25 | a host visited before `scan(x)` starts is not yielded by it again, unless it is `x` |
| Network.WalkListAvoids | tkill.js:24-28 | a visited host not in the list of neighbours is not yielded by their walks |
| Network.HomeOnce | tkill.js:18-30 | the walk yields home first and never again |
| Network.TriangleYieldsTwice | tkill.js:24-28 | the filter runs before the neighbours are walked, so on a triangle `h`, `a`, `b` the host `b` is yielded twice |
| Network.BelowH | tkill.js:26-28 | on the triangle the neighbours of `h` yield `a`, `b`, `b` |
| Network.FromA | tkill.js:20-29 | on the triangle the walk from `a` yields `a`, `b` |
| Network.LeafB | tkill.js:20-29 | on the triangle the walk from `b`, with its neighbours visited, yields only `b` |
| Network.UnvisitedPair | tkill.js:24-25 | the filter on two neighbours keeps those not yet visited |
| Network.TriangleClosed | tkill.js:24 | the triangle network is well formed |
| Wild.ReplaceFirstStar | tkill.js:34 | `replace('*', '.*')` on a string puts a `.` before the first `*` only |
| Wild.CompileFails | tkill.js:34 | `new RegExp` throws exactly when some `*` has nothing to repeat: it comes first or right after another `*` |
| Wild.StarRun | tkill.js:34 | the error condition of the whole expression is that of the rest once its first atom is read |
| Wild.CompileLiteral | tkill.js:34 | a plain prefix compiles to its literal characters followed by the pieces of the rest |
| Wild.CompileChar | tkill.js:34 | a character not followed by `*` compiles to one literal piece |
| Wild.MatchesLiteral | tkill.js:34 | literal pieces in front match exactly that text in front |
| Wild.MatchesOne | tkill.js:34 | a piece without `*` matches one character |
| Wild.PrefixStep | tkill.js:34 | how a prefix test splits off its first character |
| Wild.MatchesAnyRun | tkill.js:34 | `.*` followed by literal text matches a run without line terminators followed by that text |
| Wild.RunThenStep | tkill.js:34 | how such a run unfolds by one character |
| Wild.FirstStarAt | tkill.js:34 | the `*` after a star-free prefix is the first one |
| Wild.CompileStarred | tkill.js:34 | a character or `.` followed by `*` compiles to one repeated piece |
| Wild.CompileDot | tkill.js:34 | a `.` compiles to a piece that matches any character except a line terminator |
| Wild.CheckWildPlain | tkill.js:33-36 | a pattern with no `*` and no `.` matches only the same text |
| Wild.CompileStar | tkill.js:34 | `prefix*suffix` with plain parts compiles to the prefix, `.*` and the suffix |
| Wild.CheckWildStar | tkill.js:33-36 | `prefix*suffix` with plain parts matches text that starts with the prefix and ends with the suffix, with no line terminator in between |
| Wild.MatchesStar | tkill.js:34 | the same, stated on the compiled pieces |
| Wild.RunThenAfter | tkill.js:34 | a run followed by a suffix, after a prefix, in terms of the whole text |
| Wild.CompileDotPattern | tkill.js:34 | `prefix.suffix` with plain parts compiles to the prefix, one any-character piece and the suffix |
| Wild.CheckWildDot | tkill.js:33-36 | `prefix.suffix` with plain parts matches the prefix, one character other than a line terminator, and the suffix |
| Wild.CheckWildAll | tkill.js:33-36 | the default pattern `*` matches any text without a line terminator |
| Wild.OnlyFirstStarIsWild | tkill.js:34 | only the first `*` is a wildcard: `a*b*` matches `ac` |
| Wild.CompileAStarB | tkill.js:34 | `a*b*` compiles to `a`, `.*`, `b*` |
| Wild.ReplaceAStarB | tkill.js:34 | `a*b*` becomes `a.*b*` |
| Wild.DoubleStarThrows | tkill.js:33-36 | a `*` right after the first one has nothing to repeat, so the check throws |
| FindPs.PluralIff | findps.js:36-38 | the suffix is empty exactly for one, and is the plural form otherwise |
| FindPs.HitsOn | findps.js:54-56 | one pair per selected process of a server, in order |
| FindPs.CheckWildThrows | findps.js:40-43 | whether `checkWild` throws depends on the pattern alone |
| FindPs.MatchingProcsSpec | findps.js:53 | the processes kept on a server are exactly those matching the file pattern, except findps.js itself on the current host; the filter throws only for a pattern that does not compile |
| FindPs.ReportedLater | findps.js:45-58 | a process reported at a later visit of the walk is reported at a visit of the whole walk |
| FindPs.IterateSound | findps.js:45-58 | every pair yielded is a process `ns.ps` reported at a visit of its server in the walk, that matches both patterns and is not findps.js on home |
| FindPs.IterateComplete | findps.js:45-58 | when nothing throws, every such pair is yielded: each matching process `ns.ps` reports at any visit of a matching server |
| FindPs.IterateNothingRunning | findps.js:45-58 | a walk at which `ns.ps` reports nothing yields nothing |
| FindPs.IterateErrorFirst | findps.js:45-58 | `iterate` throws only for a pattern that does not compile, and then before it has yielded anything |
| FindPs.WithDefaults | findps.js:61-63 | with no mode given, list mode with pattern `*`; any mode given is left as it is |
| FindPs.TargetServer | findps.js:65 | an empty server pattern falls back to the current host |
| FindPs.ListLines | findps.js:70-73 | one printed line per pair, in order |
| FindPs.Successes | findps.js:84-92 | the number of calls that succeeded is at most the number made, and equals it iff every call succeeded |
| FindPs.ServersWhereBounds | findps.js:82-94 | the servers counted are no more than the successful calls, and at least one when a call succeeded |
| FindPs.ServersWhereStep | findps.js:90 | a successful call adds its server to the set |
| FindPs.ListLinesStep | findps.js:71 | one more pair adds one line |
| FindPs.FirstFailure | findps.js:103-116 | the position of the first pair whose kill or restart fails, every pair before it having succeeded, or the number of pairs when none fails |
| FindPs.ListMode | findps.js:66-79 | list mode's loop counts every pair and prints `ListReport` |
| FindPs.KillMode | findps.js:80-98 | kill mode's loop makes one `ns.kill` call per pair, in order, with that pair's file name, server and arguments; it counts the successful kills and prints `KillReport` |
| FindPs.RestartMode | findps.js:99-122 | restart mode's loop kills each pair and starts it again with one thread (not the thread count it ran with) and the same arguments; it makes these calls for the pairs before the first failure, plus the failing pair's kill and, when only the exec fails, its exec; it counts the pairs restarted, aborts exactly when one fails, and prints `RestartReport` |
| FindPs.TailMode | findps.js:123-135 | tail mode's loop opens one tail window per pair, in order, with that pair's file name, server and arguments, counts every pair and prints `TailReport` |
| FindPs.ListAndKill | findps.js:60-98 | the first part of `handleActions`, list mode then kill mode, prints and fails as `BeforeRestart` says |
| FindPs.HandleActions | findps.js:60-136 | `handleActions` prints and fails as `Handle` says: list, kill, restart and tail mode in that order, each walking the network again and seeing its own `ns.ps` answers |
| FindPs.HandleDefaultLists | findps.js:61-79 | with no mode given, `handleActions` lists every process on the server pattern or the current host |
| FindPs.HandleErrorMeansBadPattern | findps.js:60-136 | when the server pattern and every mode pattern given compile, `handleActions` does not throw |
| FindPs.ListReportsNoServers | findps.js:69-75 | as written list mode reports its pairs on 0 servers, because the set it prints the size of is never added to |
| FindPs.ListReportCountsServers | findps.js:69-75 | corrected: the summary counts between one server and one per pair |
| FindPs.KillReportCounts | findps.js:80-98 | kill mode reports the successful kills on between one server and one per kill, and no match when none succeeded |
| FindPs.TailAfterKillAddsNothing | findps.js:123-135 | with no restart pattern, a tail pass whose `ns.ps` answers are empty, as after a kill of what it would match, adds no line to the run |
| FindPs.RestartFailureStops | findps.js:104-112 | a failed kill or restart ends the whole handler: restart mode adds no line and tail mode does not run |
| TKill.SpliceStart | tkill.js:43 | `splice` starts at the index given, counted from the end when negative, clamped to the array |
| TKill.SpliceCount | tkill.js:43 | `splice` removes at most what lies after the start |
| TKill.SpliceUndo | tkill.js:43 | splicing the removed elements back in place of the inserted ones restores the array, and the length changes by the inserted minus the removed |
| TKill.MoveHomeLast | tkill.js:43 | the two nested `splice` calls compute `HomeLast` |
| TKill.HomeLastOrder | tkill.js:42-43 | with home in the list, the list keeps its length and elements, ends with home and, when home occurred once, holds it nowhere else |
| TKill.HomeLastKeeps | tkill.js:43 | moving home last loses no server |
| TKill.Wrap | tkill.js:41 | the walk's host names as list entries |
| TKill.WrapCount | tkill.js:43 | a name not in the walk occurs nowhere in the list |
| TKill.Targets | tkill.js:48 | one kill target per selected process of a server, in order |
| TKill.PrintedAppend | tkill.js:48-52 | the lines printed for two runs of kill calls are those of the first followed by those of the second |
| TKill.KillOn | tkill.js:48-52 | the inner loop makes a kill call per process and prints a line per success |
| TKill.KillLoop | tkill.js:45-53 | the outer loop filters each server's processes, which may throw, and kills them: its result is `KillFrom` |
| TKill.KillAll | tkill.js:38-54 | `kill` walks the network, filters the hosts, moves home last and runs the loop: its result is `Kill` |
| TKill.SelectProcsSpec | tkill.js:47 | the processes kept are exactly those that are not tkill.js and match the file pattern; the filter throws only for a pattern that does not compile |
| TKill.CheckWildFails | tkill.js:33-36 | `checkWild` throws only when the pattern does not compile |
| TKill.TargetsMember | tkill.js:48 | a target of a server is one of its selected processes |
| TKill.ReportedLater | tkill.js:45-53 | a process reported at a later server of the loop is reported at a server of the whole loop |
| TKill.KillFromSound | tkill.js:45-53 | every process `ns.kill` is called on is one `ns.ps` reported on its server when the loop reached it, is not tkill.js and matches the file pattern |
| TKill.KillFromNoError | tkill.js:45-53 | a file pattern that compiles never throws, so the loop covers every server |
| TKill.KillFromComplete | tkill.js:45-53 | when nothing throws, every process `ns.ps` reports on a server when the loop reaches it, that is not tkill.js and matches, is killed |
| TKill.KillFromReaches | tkill.js:45-53 | the same for one process |
| TKill.KillFromPrints | tkill.js:48-52 | each printed line reports one successful kill call, in order |
| TKill.KillOrder | tkill.js:41-43 | a server pattern that does not compile throws before any kill; otherwise, when home matches, it is visited last and only there |
| TKill.SelectServersSpec | tkill.js:41 | the hosts kept are exactly those matching the server pattern; the filter throws iff there is a host to test and the pattern does not compile |
| TKill.ScriptPattern | tkill.js:67-71 | the file pattern always holds a `.`: `.js` is added when the argument has none |
| TKill.ServerPattern | tkill.js:73 | the server pattern is the second argument, or `*` when it is missing or empty |
| TKill.Run | tkill.js:61-77 | `main` prints the usage line for no argument or `-h`; otherwise what `kill` prints followed by `Complete`, which is not reached when `kill` throws |
| TKill.KillEverywhere | tkill.js:61-75 | with the default server pattern, nothing throws, every host the walk reaches is visited, and every process `ns.ps` reports when the loop reaches its host, that matches the file pattern and is not tkill.js, is killed |
| Services.Names | services.js:16 | the names of the listed services, in order |
| Services.RemovedSpec | services.js:16-21 | removing by name takes out the first entry with that name, when there is one, and keeps the others in order; every other name keeps its count |
| Services.NamesRemoveAt | services.js:21 | the names after a removal are the names with that position taken out |
| Services.RegisterKeepsUnique | services.js:37-39 | registering keeps names unique: the new name occurs exactly once |
| Services.RealIdsSpec | services.js:92-97 | `stopall` clears exactly the interval ids of the listed services other than -1 |
| Services.StopAllLogIds | services.js:92-97 | each line `stopall` logs names the interval it cleared, in order |
| Services.ListedAll | services.js:67-70 | one listing line per service, in order |
| Services.ListedAllAppend | services.js:67-70 | the lines for two lists are those of the first followed by those of the second |
| Services.RealIdsAppend | services.js:92-97 | the ids cleared for two lists are those of the first followed by those of the second |
| Services.StopAllLogAppend | services.js:92-97 | the same for the lines logged |
| Services.ServiceHost.constructor | services.js:10 | the host holds the file contents given, with nothing cleared, logged or written |
| Services.ServiceHost.Write | services.js:25-98 | writing replaces the file and counts one write; nothing else changes |
| Services.ServiceHost.StopService | services.js:9-33 | `stopService` returns the listing with the named entry removed (nothing for an unreadable file), clears that entry's interval and logs it, and writes the file back only when asked and something was removed |
| Services.ServiceHost.RegisterService | services.js:35-44 | on a readable file the old entry is stopped and the file then holds the other entries followed by the new one, written once, and the registration is logged; an unreadable file makes `push` throw |
| Services.ServiceHost.Boot | services.js:49-57 | `boot` leaves the file holding only the `game` entry with interval -1, after two writes, and logs the registration and the reload |
| Services.ServiceHost.List | services.js:59-72 | `list` logs that nothing is registered for an empty file, one line per service for a readable one, and throws for an unreadable one; the file is untouched |
| Services.ServiceHost.Stop | services.js:74-82 | `stop` clears the intervals of the entries with that name and logs each; it logs `No services found` when, as written, the remaining list is empty or, corrected, no entry had that name; when something was cleared the file is rewritten once to the listing without that name, otherwise the file and the write count are unchanged; an unreadable file logs the failed parse and throws |
| Services.ServiceHost.StopUnnamed | services.js:74-82 | `stop` with no name matches no entry, since `=== undefined` holds for no named entry: nothing is cleared, the file and the write count are unchanged, and `No services found with name undefined` is logged when, as written, the list is empty or, corrected, always; an unreadable file logs the failed parse and throws |
| Services.ServiceHost.StopAll | services.js:84-100 | `stopall` clears every real interval id, logs each, and empties the file; an empty file logs that nothing is registered; an unreadable file throws before anything is cleared |
| Services.ServiceHost.Run | services.js:46-113 | `main` prints the help for no argument or `help` and does nothing for any other unknown argument; `boot` leaves the file holding only the `game` entry after two writes and logs the registration and the reload; `list` leaves the file alone and logs each entry or that none is registered, throwing on an unreadable file; `stop` with or without a name does what `Stop` and `StopUnnamed` state; `stopall` clears every real interval, logs each and empties the file with one write, logs that nothing is registered for an empty file, and throws on an unreadable one with nothing changed |
| Services.RegisterThenRead | services.js:35-44 | with a codec that round-trips, the registry read back after a registration is the old one without that name plus the new entry last, with names still unique |
| Services.BootLeavesGame | services.js:49-57 | after `boot` the registry is exactly the `game` entry, whose interval -1 `stopall` leaves alone |
| Services.StopRemovesName | services.js:16-22 | stopping a registered service clears its interval and leaves no entry of that name when names were unique |
| Services.StopOnlyServiceSaysNoneFound | services.js:77-80 | as written, stopping the only service clears its interval and still reports that no service had that name |
| Services.NotFoundIffNothingCleared | services.js:16-19 | no entry has the name exactly when `stopService` clears nothing |
| Common.Repeat | infiltrator-service.js:294-299 | `repeat(n)` gives `n` copies of the character |
| Common.CountRepeat | infiltrator-service.js:294-299 | `n` copies of a character hold it `n` times and nothing else |
| Common.IndexOf | tkill.js:43 | `indexOf` is the first position holding the value, or -1 exactly when it is absent |
| Common.NatToString | infiltrator-service.js:597 | `toString` of a non-negative integer is its decimal digits with no leading zero |

## Left out

- Page automation is not modelled: `queryFilter`, `pressKey`, `sendKeyString`, `clickTrusted`, `addControls`, `ensureAevum`, `infilButtonUpdate` and the loops that detect which minigame is shown. What they read from the page becomes an input, for example the arrows seen, the hint texts and the wire cells.
- The event-listener wrapping (`wrapEventListeners`, `purgeEventListenerCache`) is not modelled. It hooks the browser's event dispatch.
- The remaining minigames of `infiltrator-service.js` are not modelled: mines, cyberpunk, slash, backward and bribe. Nor are the `tick` reentrancy flag, `start` and `main`. They are DOM reading plus timing.
- The reward arithmetic is not modelled: `calculateSkill`, `calcReward`, `getAllRewards`, `round`, `evaluateMultipliers`, `simulateAugInstall` and `evaluateDonate`. It is floating-point code. A `donate` goal is modelled as an error when it is checked, because `evaluateDonate` refers to an undefined `target`.
- A goal ending in `x` becomes a goal of NaN that is never met. The multiplied reward behind it is not computed.
- Timers, `sleep` and `setInterval` polling are not modelled. Every loop that polls becomes a loop over the sequence of answers it would see.
- `ServiceState.EffectiveDelay`: the wrapped timers are modelled as the delay they wait. The callbacks they run are not modelled.
- JSON, base64 and IndexedDB are a codec parameter (`Services.Codec`, `Skip.Codec`) with a round-trip hypothesis. Their encodings are not modelled.
- ISO date formatting in the `list` command is not modelled. The listing records each entry's name, interval and start time instead.
- JSON in `services.txt` that parses to something other than a list of records is not modelled.
- `ns.print`/`ns.tprint` lines that only narrate are not modelled. The lines that report results (counts, kills, usage) are.
- `InfiltrateGoals.Lower`: `toLowerCase` is modelled on the ASCII letters A to Z only. Other letters keep their case. This affects `InfiltrateGoals.ResolveIn`, `InfiltrateGoals.ResolveTarget`, `InfiltrateGoals.ClassifyGoal` and the `x` suffix test of `InfiltrateGoals.ParseGoal`. The faction names are ASCII.
- `Common.IsSpace`: JavaScript whitespace is modelled as tab, line feed, vertical tab, form feed, carriage return, space, no-break space, the byte order mark and the two Unicode line and paragraph separators. The other Unicode space separators (Zs), such as U+2003, are not counted as whitespace. This affects `InfiltrateGoals.TrimStart`, `InfiltrateGoals.TrimEnd`, `InfiltrateGoals.Trim`, `Duration.SpaceRun` and `Duration.ParseTime`.
- `Wild.CheckWild`: only `.` and `*` are regular-expression metacharacters in the model. Other metacharacters a pattern may hold are matched literally.
- `Network.ServerIterator.GetIterator`: the JavaScript generator is lazy, so a caller interleaves with the walk. The model computes the whole walk first. The walk reads only the network, which the scripts do not change, so the order of the visits is the same. What `ns.ps` answers at each visit is a parameter indexed by the pass (each `findps.js` mode walks anew) and by the visit, so kills made earlier show in the later answers.
- `Network.WalkReachesAll`: on a network with cycles a host can be yielded twice. The model proves reachability, and proves on a triangle that a repeat happens (`Network.TriangleYieldsTwice`). It does not claim exactly-once yields.
- `TKill.Run`: what `ns.ps` answers for the `undefined` server left by the splice is a parameter of the host. Arguments are modelled as strings only.
- `Services.Run`: every registry entry in the model has a string name. An entry without a `name` field would match a `stop` without a name, since `undefined === undefined`; such entries are not modelled, so a nameless `stop` clears nothing. Only the logged line prints `undefined`.
- `Gym.GymCity`: the names every object inherits are modelled as the twelve `Object.prototype` properties (`constructor`, `toString`, `valueOf`, `__proto__` and the rest). The value such a name gives is modelled as `ProtoMember`, a place no player's city equals. What `travelToCity` does when handed it is the travel answer, which is a parameter.
- `CheatCode.Known`: `arrow in arrowsMap` would also accept an inherited name such as `toString`. The arrow is one glyph read from the page, so the model checks only the four arrow glyphs.
- `getConfiguration` and the help texts are not modelled. Only the defaults they produce are modelled.
- `InfiltrateLoop.RunLoop`: after a goal check that throws, the goals the interrupted scan had already rewritten are not stated. The run records the goals as they were before that check.
- Several autopilot tasks are not modelled: `maybeDoCasino`, `checkIfBnIsComplete`, `checkOnDaedalusStatus`, `initializeNewBitnode`, `mainLoop`, `persist_log`, and the launches of `checkOnRunningScripts` other than the daemon. They orchestrate game-API calls and carry no decision logic beyond them.
- `edit.js` and `loop-infiltrate.js` are not part of this model. The first uses `eval` on a save. The second only clicks page elements.
- Integer widths: JavaScript numbers above 2^53 are not modelled. The counters in these scripts stay small.

## Findings

| source | as written | input that shows it | evidently intended | confidence | as-written member | corrected member |
|---|---|---|---|---|---|---|
| infiltrator-service.js:581-585 | `hints.match(...)` gives `null` when no hint of that kind is shown, and `.map` or `.forEach` on it throws | a panel whose hints name a wire number but no colour | a missing kind of hint means no hints of that kind, and the solution is still typed | not executed | WireGame.Solve | WireGame.SolveFixed |
| infiltrate.js:116-118 | with no goals, `main` calls `setGoal(0)`, and `goal?.toLowerCase()` throws on the number 0 (line 288) | `run infiltrate.js` with no arguments | manual mode: one manual action with goal 0 | not executed | InfiltrateGoals.NoGoalsManualMode | InfiltrateGoals.ParseGoalFixed |
| infiltrate.js:523-526 | gives up only when `consecutiveFails > failLimit`, so a fourth try follows three boots | three boots in a row, then a completed infiltration | stop after `failLimit` (3) failures in a row, as the header says | not executed | InfiltrateLoop.FourthTryAfterThreeBoots | InfiltrateLoop.FixedFailsAfterLimit |
| findps.js:69-75 | list mode prints the size of a set it never adds to | `findps.js -l *` with any running process | the number of distinct servers listed | not executed | FindPs.ListReportsNoServers | FindPs.ListReportCountsServers |
| services.js:74-81 | `stop` reports "No services found" when the list left after stopping is empty | stopping the only registered service | report "not found" only when no entry had the name | not executed | Services.StopOnlyServiceSaysNoneFound | Services.NotFoundIffNothingCleared |
