/** The reset decision of autopilot.js: when to install augmentations (and
    the countdown and money reservation around it), how much money to keep
    in reserve for stocks, which arguments daemon.js is launched with, and
    the status line that is printed only when it changes.

    The script keeps this state in module-level variables that each pass of
    its main loop updates; here they are the fields of `Autopilot`. Host
    calls (reading the faction manager's output, the player's data, launching
    scripts) become inputs, and text that the source formats with helpers
    not shown here arrives already formatted. */
module Autopilot {
  import opened Common

  /** The command-line options the decision uses. */
  datatype Options = Options(
    installAtAugCount: int,            // --install-at-aug-count (11)
    installAtAugPlusNfCount: int,      // --install-at-aug-plus-nf-count (14)
    installForAugs: seq<string>,       // --install-for-augs (["The Red Pill"])
    installCountdown: int,             // --install-countdown, ms (300000)
    reducedAugReqPerHour: real,        // --reduced-aug-requirement-per-hour (0.5)
    intervalCheckScripts: int,         // --interval-check-scripts, ms (10000)
    highHackThreshold: int,            // --high-hack-threshold (8000)
    enableBladeburner: bool,           // --enable-bladeburner
    waitFor4sThreshold: real,          // --wait-for-4s-threshold (0.5)
    disableWaitFor4s: bool)            // --disable-wait-for-4s

  /** The faction manager's report of what can be bought now. */
  datatype Facman = Facman(
    affordableNfCount: int,
    affordableAugs: seq<string>,
    ownedCount: int,
    totalRepCost: real,
    totalAugCost: real)

  /** A script argument: a string, a number or a boolean. */
  datatype Arg = Str(s: string) | Num(n: real) | Bool(b: bool)

  // ---------------------------------------------------------------------
  // When to reset

  /** Augmentations forgiven for the time since the last install. */
  function ReducedAugReq(ratePerHour: real, playtimeSinceLastAug: int): int
  {
    (ratePerHour * playtimeSinceLastAug as real / 3600000.0).Floor
  }

  /** `Math.max(1, setting - reducedAugReq)`. */
  function AugsNeeded(setting: int, reduced: int): (n: int)
    ensures n >= 1
    ensures n >= setting - reduced
    ensures n == 1 || n == setting - reduced
  {
    if setting - reduced > 1 then setting - reduced else 1
  }

  /** The three reasons to install: a listed augmentation is affordable,
      enough distinct augmentations are, or enough counting NeuroFlux
      levels (the NeuroFlux entry itself counted once) are. */
  predicate ShouldReset(opts: Options, f: Facman, playtimeSinceLastAug: int)
  {
    var reduced := ReducedAugReq(opts.reducedAugReqPerHour, playtimeSinceLastAug);
    || (exists a :: a in opts.installForAugs && a in f.affordableAugs)
    || |f.affordableAugs| >= AugsNeeded(opts.installAtAugCount, reduced)
    || |f.affordableAugs| + f.affordableNfCount - 1 >= AugsNeeded(opts.installAtAugPlusNfCount, reduced)
  }

  /** `x || 1` for an optional multiplier: missing or zero reads as 1. */
  function OrOne(m: Option<real>): (r: real)
    ensures r != 0.0
    ensures m.Some? && m.value != 0.0 ==> r == m.value
  {
    if m.Some? && m.value != 0.0 then m.value else 1.0
  }

  /** What `shouldDelayInstall` reads. */
  datatype DelayInputs = DelayInputs(
    has4SDataTixApi: bool,
    has4SData: bool,
    money: real,
    stocksValue: real,
    fourSigmaApiCostMult: Option<real>,
    fourSigmaDataCostMult: Option<real>)

  /** `totalWorth / totalCost >= threshold`, with JavaScript's division by
      zero: a positive worth over zero cost is +Infinity, zero over zero is
      NaN (never `>=`), a negative worth is -Infinity. */
  predicate RatioAtLeast(worth: real, cost: real, threshold: real)
  {
    if cost == 0.0 then worth > 0.0 else worth / cost >= threshold
  }

  /** Hold off installing while the 4S market data API is within reach. */
  predicate ShouldDelayInstall(opts: Options, d: DelayInputs)
  {
    && !opts.disableWaitFor4s
    && !d.has4SDataTixApi
    && RatioAtLeast(d.money + d.stocksValue,
         25000000000.0 * OrOne(d.fourSigmaApiCostMult) +
           (if d.has4SData then 0.0 else 1000000000.0 * OrOne(d.fourSigmaDataCostMult)),
         opts.waitFor4sThreshold)
  }

  /** The money to reserve for the purchase; forcing a reset for Daedalus
      turns a zero reserve into 1 so that the reservation logic runs. */
  function ReserveNeeded(f: Facman, daedalusForce: bool): (r: real)
    ensures r != 0.0 || !daedalusForce
    ensures r == f.totalRepCost + f.totalAugCost || (daedalusForce && r == 1.0)
  {
    var r := f.totalRepCost + f.totalAugCost;
    if daedalusForce && r == 0.0 then 1.0 else r
  }

  // ---------------------------------------------------------------------
  // The money reserve for stocks

  /** The share of money kept for stocks: 80% at the start of the
      bitnode, ten points less each hour, never negative. */
  function MinStockPercent(playtimeSinceLastBitnode: int): (p: real)
    ensures 0.0 <= p <= 0.8 || playtimeSinceLastBitnode < 0
    ensures p >= 0.0
    ensures playtimeSinceLastBitnode == 0 ==> p == 0.8
    ensures playtimeSinceLastBitnode < 28800000 ==>
      p == 0.8 - 0.1 * (playtimeSinceLastBitnode as real / 3600000.0)
    ensures playtimeSinceLastBitnode >= 28800000 ==> p == 0.0
  {
    var p := 0.8 - 0.1 * playtimeSinceLastBitnode as real / 3600000.0;
    if p > 0.0 then p else 0.0
  }

  /** Each hour of the bitnode takes ten points off the share, until the
      share reaches 0 after eight hours. */
  lemma MinStockPercentHourly(t: int)
    requires 0 <= t && t + 3600000 <= 28800000
    ensures MinStockPercent(t + 3600000) == MinStockPercent(t) - 0.1
  {
  }

  function Max3(a: real, b: real, c: real): real
  {
    if a >= b && a >= c then a else if b >= c then b else c
  }

  /** `min(1e12, max(0, money * pct, 8e9 - stocksValue))`. */
  function StockReserve(money: real, stocksValue: real, playtimeSinceLastBitnode: int): real
  {
    ReserveAt(money, MinStockPercent(playtimeSinceLastBitnode), stocksValue)
  }

  /** The reserve for a given minimum stock percentage. */
  function ReserveAt(money: real, pct: real, stocksValue: real): real
  {
    var m := Max3(0.0, money * pct, 8000000000.0 - stocksValue);
    if m < 1000000000000.0 then m else 1000000000000.0
  }

  // ---------------------------------------------------------------------
  // The daemon's arguments

  /** The arguments daemon.js is launched with; `filePath` maps a script
      name to its path. */
  function DaemonArgs(hacking: int, opts: Options, filePath: string -> string): seq<Arg>
  {
    var base :=
      if hacking < opts.highHackThreshold then [Str("--stock-manipulation")]
      else [Str("--looping-mode"), Str("--recovery-thread-padding"), Num(10.0), Str("--cycle-timing-delay"),
            Num(2000.0), Str("--queue-delay"), Str("10"), Str("--stock-manipulation-focus"),
            Str("--silent-misfires"), Str("--initial-max-targets"), Str("63"), Str("--no-share")];
    base + [Str("--disable-script"), Str(filePath("work-for-factions.js"))] +
      (if opts.enableBladeburner then [] else [Str("--disable-script"), Str(filePath("bladeburner.js"))])
  }

  /** Launch daemon.js when it is not running, or relaunch it in looping
      mode once the hacking level reaches the threshold. */
  predicate ShouldLaunchDaemon(hacking: int, opts: Options, running: Option<seq<Arg>>)
  {
    running.None? || (hacking >= opts.highHackThreshold && Str("--looping-mode") !in running.value)
  }

  // ---------------------------------------------------------------------
  // The state machine

  /** The module-level flags, as a value. */
  datatype Pilot = Pilot(
    reservedPurchase: real,
    installCountdown: int,
    reserveFile: real,       // the number stored in reserve.txt (empty reads as 0)
    reserveWrites: nat,      // how many times reserve.txt was written
    lastStatusLog: string,
    statusLog: seq<string>,  // the status lines printed
    daemonStartTime: int,
    lastScriptsCheck: int)

  /** `setStatus(status, uniquePart)`: the status is printed only when its
      key (`uniquePart`, or the status itself when that is missing or
      empty) differs from the last key printed. */
  function SetStatus(p: Pilot, status: string, uniquePart: string): (q: Pilot)
    ensures var key := if uniquePart == "" then status else uniquePart;
      && q.lastStatusLog == key
      && q.statusLog == (if p.lastStatusLog == key then p.statusLog else p.statusLog + [status])
      && q == p.(lastStatusLog := q.lastStatusLog, statusLog := q.statusLog)
  {
    var key := if uniquePart == "" then status else uniquePart;
    if p.lastStatusLog == key then p else p.(lastStatusLog := key, statusLog := p.statusLog + [status])
  }

  /** The result of one `maybeInstallAugmentations` pass. */
  datatype Outcome =
    | NoSingularity
    | NoFacmanOutput
    | NotReady
    | Delayed
    | Waiting
    | Ascend(args: seq<Arg>)

  /** The three readings of the clock in one pass: when it decides whether
      to rerun the faction manager, when it restarts the countdown and when
      it compares the countdown with the time. Waiting for the faction
      manager and writing reserve.txt happen between them. */
  datatype Clock = Clock(start: int, reserve: int, check: int)

  /** What one pass reads besides the flags. */
  datatype InstallInputs = InstallInputs(
    hasSF4: bool,
    storedOutput: Option<Facman>,  // the faction manager's last output (None: empty file)
    freshOutput: Option<Facman>,   // its output when rerun now
    playtimeSinceLastAug: int,
    inDaedalus: bool,
    daedalusRepFlag: bool,         // /Temp/Daedalus-donation-rep-attained.txt is non-empty
    delay: DelayInputs,
    scriptName: string,
    progressText: string,          // the formatted "Currently at ..." status
    augSummary: string,            // the formatted purchase summary
    delayText: string,             // the formatted "Not installing until ..." status
    resetText: string)             // the formatted "Reserving ... Waiting for ..." status

  const NoSingularityText: string :=
    "No singularity access, so you're on your own. You should manually work for factions and install augmentations!"
  const NoFacmanText: string := "Faction manager output not available. Will try again later."

  /** The arguments ascend.js is launched with. */
  function AscendArgs(scriptName: string, affordableAugCount: nat): seq<Arg>
  {
    [Str("--install-augmentations"), Bool(true), Str("--on-reset-script"), Str(scriptName),
     Str("--bypass-stanek-warning"), Bool(true)] +
      (if affordableAugCount == 0 then [Str("--allow-soft-reset")] else [])
  }

  /** Whether the pass reruns the faction manager before reading its output. */
  predicate Reruns(p: Pilot, now: int)
  {
    p.reservedPurchase != 0.0 && p.installCountdown <= now
  }

  function FacmanOutput(p: Pilot, now: int, inp: InstallInputs): Option<Facman>
  {
    if Reruns(p, now) then inp.freshOutput else inp.storedOutput
  }

  /** One pass of `maybeInstallAugmentations`: the outcome and the flags
      after it. */
  function InstallStep(p: Pilot, opts: Options, clock: Clock, inp: InstallInputs): (Outcome, Pilot)
  {
    if !inp.hasSF4 then (NoSingularity, SetStatus(p, NoSingularityText, ""))
    else
      var output := FacmanOutput(p, clock.start, inp);
      if output.None? then (NoFacmanOutput, SetStatus(p, NoFacmanText, "").(reservedPurchase := 0.0))
      else
        var f := output.value;
        var force := inp.inDaedalus && inp.daedalusRepFlag;
        var reserveNeeded := ReserveNeeded(f, force);
        if !(ShouldReset(opts, f, inp.playtimeSinceLastAug) || force) then
          (NotReady, SetStatus(p, inp.progressText, inp.augSummary).(reservedPurchase := 0.0))
        else ResetStep(p, opts, clock, inp, reserveNeeded, |f.affordableAugs|)
  }

  /** The part of `maybeInstallAugmentations` once a reset is wanted:
      delay, reserve the money and count down, or ascend. */
  function ResetStep(p: Pilot, opts: Options, clock: Clock, inp: InstallInputs, reserveNeeded: real,
                     affordableAugCount: nat): (Outcome, Pilot)
  {
    if ShouldDelayInstall(opts, inp.delay) then
      (Delayed, SetStatus(p, inp.delayText, "").(reservedPurchase := 0.0))
    else
      var p1 := if p.reservedPurchase < reserveNeeded
        then p.(installCountdown := clock.reserve + opts.installCountdown, reserveFile := reserveNeeded,
                reserveWrites := p.reserveWrites + 1)
        else p;
      if p1.installCountdown > clock.check then
        (Waiting, SetStatus(p1, inp.resetText, "").(reservedPurchase := reserveNeeded))
      else
        (Ascend(AscendArgs(inp.scriptName, affordableAugCount)), p1)
  }

  /** One pass of `manageReservedMoney`: the reserve file after it. */
  function ManageReserveStep(p: Pilot, money: real, stocksValue: real, playtimeSinceLastBitnode: int,
                             reserveForDaedalus: bool): Pilot
  {
    if p.reservedPurchase != 0.0 then p
    else
      var target := if reserveForDaedalus then 100000000000.0
                    else StockReserve(money, stocksValue, playtimeSinceLastBitnode);
      if p.reserveFile == target then p
      else p.(reserveFile := target, reserveWrites := p.reserveWrites + 1)
  }

  /** The daemon part of `checkOnRunningScripts`, behind its rate limit:
      whether (and with what) daemon.js is launched, and the flags after. */
  function DaemonStep(p: Pilot, opts: Options, now: int, hacking: int, running: Option<seq<Arg>>,
                      filePath: string -> string): (Option<seq<Arg>>, Pilot)
  {
    if p.lastScriptsCheck > now - opts.intervalCheckScripts then (None, p)
    else
      var p1 := p.(lastScriptsCheck := now);
      if ShouldLaunchDaemon(hacking, opts, running)
      then (Some(DaemonArgs(hacking, opts, filePath)), p1.(daemonStartTime := now))
      else (None, p1)
  }

  class Autopilot {
    var reservedPurchase: real
    var installCountdown: int
    var reserveFile: real
    var reserveWrites: nat
    var lastStatusLog: string
    var statusLog: seq<string>
    var daemonStartTime: int
    var lastScriptsCheck: int

    function State(): Pilot
      reads this
    {
      Pilot(reservedPurchase, installCountdown, reserveFile, reserveWrites, lastStatusLog, statusLog,
            daemonStartTime, lastScriptsCheck)
    }

    /** The state `main` starts from; reserve.txt as found on disk. */
    constructor (reserveOnDisk: real)
      ensures State() == Pilot(0.0, 0, reserveOnDisk, 0, "", [], 0, 0)
    {
      reservedPurchase := 0.0;
      installCountdown := 0;
      reserveFile := reserveOnDisk;
      reserveWrites := 0;
      lastStatusLog := "";
      statusLog := [];
      daemonStartTime := 0;
      lastScriptsCheck := 0;
    }

    method SetStatusLine(status: string, uniquePart: string)
      modifies this
      ensures State() == SetStatus(old(State()), status, uniquePart)
    {
      var key := if uniquePart == "" then status else uniquePart;
      if lastStatusLog == key {
        return;
      }
      lastStatusLog := key;
      statusLog := statusLog + [status];
    }

    method WriteReserve(amount: real)
      modifies this
      ensures State() == old(State()).(reserveFile := amount, reserveWrites := old(reserveWrites) + 1)
    {
      reserveFile := amount;
      reserveWrites := reserveWrites + 1;
    }

    /** `maybeInstallAugmentations`. */
    method MaybeInstall(opts: Options, clock: Clock, inp: InstallInputs) returns (outcome: Outcome)
      modifies this
      ensures (outcome, State()) == InstallStep(old(State()), opts, clock, inp)
    {
      if !inp.hasSF4 {
        SetStatusLine(NoSingularityText, "");
        return NoSingularity;
      }
      var output := if reservedPurchase != 0.0 && installCountdown <= clock.start then inp.freshOutput else inp.storedOutput;
      if output.None? {
        SetStatusLine(NoFacmanText, "");
        reservedPurchase := 0.0;
        return NoFacmanOutput;
      }
      var f := output.value;
      var affordableAugCount := |f.affordableAugs|;
      var reduced := ReducedAugReq(opts.reducedAugReqPerHour, inp.playtimeSinceLastAug);
      var augsNeeded := AugsNeeded(opts.installAtAugCount, reduced);
      var augsNeededInclNf := AugsNeeded(opts.installAtAugPlusNfCount, reduced);
      var reserveNeeded := f.totalRepCost + f.totalAugCost;
      var shouldReset := (exists a :: a in opts.installForAugs && a in f.affordableAugs) ||
        affordableAugCount >= augsNeeded || affordableAugCount + f.affordableNfCount - 1 >= augsNeededInclNf;
      if inp.inDaedalus && inp.daedalusRepFlag {
        shouldReset := true;
        if reserveNeeded == 0.0 {
          reserveNeeded := 1.0;
        }
      }
      ghost var force := inp.inDaedalus && inp.daedalusRepFlag;
      assert reserveNeeded == ReserveNeeded(f, force);
      assert shouldReset == (ShouldReset(opts, f, inp.playtimeSinceLastAug) || force);
      if !shouldReset {
        SetStatusLine(inp.progressText, inp.augSummary);
        reservedPurchase := 0.0;
        return NotReady;
      }
      outcome := Reset(opts, clock, inp, reserveNeeded, affordableAugCount);
    }

    /** `maybeInstallAugmentations` from the delay check on. */
    method Reset(opts: Options, clock: Clock, inp: InstallInputs, reserveNeeded: real, affordableAugCount: nat)
      returns (outcome: Outcome)
      modifies this
      ensures (outcome, State()) == ResetStep(old(State()), opts, clock, inp, reserveNeeded, affordableAugCount)
    {
      if ShouldDelayInstall(opts, inp.delay) {
        SetStatusLine(inp.delayText, "");
        reservedPurchase := 0.0;
        return Delayed;
      }
      ghost var p0 := State();
      if reservedPurchase < reserveNeeded {
        installCountdown := clock.reserve + opts.installCountdown;
        WriteReserve(reserveNeeded);
      }
      assert State() == if p0.reservedPurchase < reserveNeeded
        then p0.(installCountdown := clock.reserve + opts.installCountdown, reserveFile := reserveNeeded,
                 reserveWrites := p0.reserveWrites + 1)
        else p0;
      if installCountdown > clock.check {
        SetStatusLine(inp.resetText, "");
        reservedPurchase := reserveNeeded;
        return Waiting;
      }
      var ascendArgs := [Str("--install-augmentations"), Bool(true), Str("--on-reset-script"), Str(inp.scriptName),
                         Str("--bypass-stanek-warning"), Bool(true)];
      if affordableAugCount == 0 {
        ascendArgs := ascendArgs + [Str("--allow-soft-reset")];
      }
      assert ascendArgs == AscendArgs(inp.scriptName, affordableAugCount);
      return Ascend(ascendArgs);
    }

    /** `manageReservedMoney`. */
    method ManageReservedMoney(money: real, stocksValue: real, playtimeSinceLastBitnode: int, reserveForDaedalus: bool)
      modifies this
      ensures State() == ManageReserveStep(old(State()), money, stocksValue, playtimeSinceLastBitnode, reserveForDaedalus)
    {
      if reservedPurchase != 0.0 {
        return;
      }
      var currentReserve := reserveFile;
      if reserveForDaedalus {
        if currentReserve != 100000000000.0 {
          WriteReserve(100000000000.0);
        }
        return;
      }
      var minStockValue := 8000000000.0;
      var minStockPercent := 0.8 - 0.1 * playtimeSinceLastBitnode as real / 3600000.0;
      if minStockPercent < 0.0 {
        minStockPercent := 0.0;
      }
      var reserveCap := 1000000000000.0;
      var reserve := Max3(0.0, money * minStockPercent, minStockValue - stocksValue);
      if reserveCap < reserve {
        reserve := reserveCap;
      }
      if currentReserve != reserve {
        WriteReserve(reserve);
      }
    }

    /** The daemon part of `checkOnRunningScripts`: returns the arguments
        daemon.js is launched with, if it is. */
    method CheckDaemon(opts: Options, now: int, hacking: int, running: Option<seq<Arg>>, filePath: string -> string)
        returns (launched: Option<seq<Arg>>)
      modifies this
      ensures (launched, State()) == DaemonStep(old(State()), opts, now, hacking, running, filePath)
    {
      if lastScriptsCheck > now - opts.intervalCheckScripts {
        return None;
      }
      lastScriptsCheck := now;
      var daemonArgs := if hacking < opts.highHackThreshold then [Str("--stock-manipulation")]
        else [Str("--looping-mode"), Str("--recovery-thread-padding"), Num(10.0), Str("--cycle-timing-delay"),
              Num(2000.0), Str("--queue-delay"), Str("10"), Str("--stock-manipulation-focus"),
              Str("--silent-misfires"), Str("--initial-max-targets"), Str("63"), Str("--no-share")];
      daemonArgs := daemonArgs + [Str("--disable-script"), Str(filePath("work-for-factions.js"))];
      if !opts.enableBladeburner {
        daemonArgs := daemonArgs + [Str("--disable-script"), Str(filePath("bladeburner.js"))];
      }
      assert daemonArgs == DaemonArgs(hacking, opts, filePath);
      if running.None? || (hacking >= opts.highHackThreshold && Str("--looping-mode") !in running.value) {
        daemonStartTime := now;
        return Some(daemonArgs);
      }
      return None;
    }
  }

  // ---------------------------------------------------------------------
  // Properties of the decision

  /** The requirement never rises as playtime grows (for a non-negative
      rate), so once a reset is warranted it stays warranted. */
  lemma ShouldResetMonotone(opts: Options, f: Facman, t1: int, t2: int)
    requires opts.reducedAugReqPerHour >= 0.0 && t1 <= t2
    requires ShouldReset(opts, f, t1)
    ensures ShouldReset(opts, f, t2)
  {
    var x1 := opts.reducedAugReqPerHour * t1 as real / 3600000.0;
    var x2 := opts.reducedAugReqPerHour * t2 as real / 3600000.0;
    assert opts.reducedAugReqPerHour * t1 as real <= opts.reducedAugReqPerHour * t2 as real;
    assert x1 <= x2;
    assert ReducedAugReq(opts.reducedAugReqPerHour, t1) <= ReducedAugReq(opts.reducedAugReqPerHour, t2);
  }

  /** Any pass that does not reach the reservation stage drops the
      reservation (except when singularity access is missing). */
  lemma EarlyExitClearsReservation(p: Pilot, opts: Options, clock: Clock, inp: InstallInputs)
    ensures var (o, q) := InstallStep(p, opts, clock, inp);
      (o == NoFacmanOutput || o == NotReady || o == Delayed) ==> q.reservedPurchase == 0.0
    ensures var (o, q) := InstallStep(p, opts, clock, inp);
      o == NoSingularity ==> q.reservedPurchase == p.reservedPurchase && q.installCountdown == p.installCountdown
  {
  }

  /** Reaching the reservation stage with a larger purchase than reserved
      restarts the countdown from the second clock reading and writes the
      new amount to reserve.txt. The pass then waits, holding that amount,
      exactly when the third reading is still before the new deadline;
      otherwise it ascends at once. */
  lemma LargerPurchaseRestartsCountdown(p: Pilot, opts: Options, clock: Clock, inp: InstallInputs)
    requires inp.hasSF4 && FacmanOutput(p, clock.start, inp).Some?
    requires var f := FacmanOutput(p, clock.start, inp).value;
      var force := inp.inDaedalus && inp.daedalusRepFlag;
      && (ShouldReset(opts, f, inp.playtimeSinceLastAug) || force)
      && !ShouldDelayInstall(opts, inp.delay)
      && p.reservedPurchase < ReserveNeeded(f, force)
    ensures var f := FacmanOutput(p, clock.start, inp).value;
      var (o, q) := InstallStep(p, opts, clock, inp);
      && q.installCountdown == clock.reserve + opts.installCountdown
      && q.reserveFile == ReserveNeeded(f, inp.inDaedalus && inp.daedalusRepFlag)
      && (o == Waiting <==> clock.check < clock.reserve + opts.installCountdown)
      && (o == Waiting ==> q.reservedPurchase == ReserveNeeded(f, inp.inDaedalus && inp.daedalusRepFlag))
      && (o != Waiting ==> o.Ascend?)
  {
  }

  /** Ascend is launched on a purchase the amount reserved by an earlier
      pass covers once that pass's countdown has run out, and such a pass
      leaves the state unchanged. Otherwise the pass itself reserved the
      purchase, and writing reserve.txt took the whole countdown. */
  lemma AscendOnlyAfterCountdown(p: Pilot, opts: Options, clock: Clock, inp: InstallInputs)
    requires InstallStep(p, opts, clock, inp).0.Ascend?
    ensures FacmanOutput(p, clock.start, inp).Some?
    ensures var reserveNeeded := ReserveNeeded(FacmanOutput(p, clock.start, inp).value, inp.inDaedalus && inp.daedalusRepFlag);
      && (p.reservedPurchase >= reserveNeeded ==> p.installCountdown <= clock.check && InstallStep(p, opts, clock, inp).1 == p)
      && (p.reservedPurchase < reserveNeeded ==> clock.check - clock.reserve >= opts.installCountdown)
  {
  }

  /** The soft-reset flag is passed exactly when no augmentation is
      affordable; the other arguments are fixed. */
  lemma AscendSoftReset(p: Pilot, opts: Options, clock: Clock, inp: InstallInputs)
    requires InstallStep(p, opts, clock, inp).0.Ascend?
    ensures var args := InstallStep(p, opts, clock, inp).0.args;
      var f := FacmanOutput(p, clock.start, inp).value;
      && args[..6] == [Str("--install-augmentations"), Bool(true), Str("--on-reset-script"), Str(inp.scriptName),
                       Str("--bypass-stanek-warning"), Bool(true)]
      && (|args| == 7 <==> |f.affordableAugs| == 0)
      && (|args| == 7 ==> args[6] == Str("--allow-soft-reset"))
      && |args| >= 6
  {
  }

  /** Waiting out a countdown: a pass that waits, followed by a pass whose
      third clock reading is past the deadline and that sees the same
      purchase and still wants to reset, launches ascend. */
  lemma WaitThenAscend(p: Pilot, opts: Options, clock1: Clock, clock2: Clock, inp: InstallInputs)
    requires InstallStep(p, opts, clock1, inp).0 == Waiting
    requires var q := InstallStep(p, opts, clock1, inp).1;
      clock2.check >= q.installCountdown && FacmanOutput(q, clock2.start, inp) == FacmanOutput(p, clock1.start, inp)
    ensures InstallStep(InstallStep(p, opts, clock1, inp).1, opts, clock2, inp).0.Ascend?
  {
  }

  /** A pass that starts just before the deadline of a reservation does
      not rerun the faction manager; if the deadline has passed by the
      time the countdown is compared, it ascends on the stored output,
      whatever a fresh run would say. */
  lemma AscendOnStoredOutput(p: Pilot, opts: Options, clock: Clock, inp: InstallInputs)
    requires p.reservedPurchase != 0.0 && clock.start < p.installCountdown <= clock.check
    requires inp.hasSF4 && inp.storedOutput.Some?
    requires var f := inp.storedOutput.value;
      var force := inp.inDaedalus && inp.daedalusRepFlag;
      && (ShouldReset(opts, f, inp.playtimeSinceLastAug) || force)
      && !ShouldDelayInstall(opts, inp.delay)
      && p.reservedPurchase >= ReserveNeeded(f, force)
    ensures FacmanOutput(p, clock.start, inp) == inp.storedOutput
    ensures InstallStep(p, opts, clock, inp) == (Ascend(AscendArgs(inp.scriptName, |inp.storedOutput.value.affordableAugs|)), p)
  {
  }

  /** The stock reserve lies between zero and the cap, covers the shortfall
      below 8e9 of stock (up to the cap) and never rises as the bitnode
      goes on. */
  lemma StockReserveBounds(money: real, stocksValue: real, t: int)
    requires t >= 0
    ensures var r := StockReserve(money, stocksValue, t);
      && 0.0 <= r <= 1000000000000.0
      && (r == 1000000000000.0 || r >= 8000000000.0 - stocksValue)
      && (r == 1000000000000.0 || r >= money * MinStockPercent(t))
  {
  }

  lemma StockReserveNonIncreasing(money: real, stocksValue: real, t1: int, t2: int)
    requires 0 <= t1 <= t2 && money >= 0.0
    ensures StockReserve(money, stocksValue, t2) <= StockReserve(money, stocksValue, t1)
  {
    var a := MinStockPercent(t1);
    var b := MinStockPercent(t2);
    assert b <= a by {
      assert 0.1 * t1 as real <= 0.1 * t2 as real;
    }
    ReserveAtMono(money, b, a, stocksValue);
  }

  lemma ReserveAtMono(money: real, p1: real, p2: real, stocksValue: real)
    requires money >= 0.0 && p1 <= p2
    ensures ReserveAt(money, p1, stocksValue) <= ReserveAt(money, p2, stocksValue)
  {
    ScaleMono(money, p1, p2);
    Max3Mono(0.0, money * p1, money * p2, 8000000000.0 - stocksValue);
  }

  lemma Max3Mono(x: real, b1: real, b2: real, z: real)
    requires b1 <= b2
    ensures Max3(x, b1, z) <= Max3(x, b2, z)
  {
  }

  lemma ScaleMono(k: real, x: real, y: real)
    requires k >= 0.0 && x <= y
    ensures k * x <= k * y
  {
    assert k * y - k * x == k * (y - x);
  }

  /** While a purchase is reserved the reserve file is left alone; otherwise
      it ends up holding the target, written only if it changed. */
  lemma ManageReserveFacts(p: Pilot, money: real, stocksValue: real, t: int, daedalus: bool)
    ensures var q := ManageReserveStep(p, money, stocksValue, t, daedalus);
      && (p.reservedPurchase != 0.0 ==> q == p)
      && (p.reservedPurchase == 0.0 ==>
            q.reserveFile == (if daedalus then 100000000000.0 else StockReserve(money, stocksValue, t)))
      && (q.reserveWrites == p.reserveWrites <==> q.reserveFile == p.reserveFile)
      && q.reservedPurchase == p.reservedPurchase
  {
  }

  /** The daemon's arguments end with the scripts it must not run, and
      start with the stock-manipulation flag below the threshold. */
  lemma DaemonArgsShape(hacking: int, opts: Options, filePath: string -> string)
    ensures var args := DaemonArgs(hacking, opts, filePath);
      var tail := [Str("--disable-script"), Str(filePath("work-for-factions.js"))] +
        (if opts.enableBladeburner then [] else [Str("--disable-script"), Str(filePath("bladeburner.js"))]);
      && |args| >= |tail|
      && args[|args| - |tail|..] == tail
      && (hacking < opts.highHackThreshold <==> args[0] == Str("--stock-manipulation"))
      && (hacking >= opts.highHackThreshold <==> args[0] == Str("--looping-mode"))
  {
  }

  /** Once launched with the arguments for the current hacking level,
      daemon.js is not relaunched while that level stays. */
  lemma DaemonLaunchStable(hacking: int, opts: Options, filePath: string -> string)
    requires filePath("work-for-factions.js") != "--looping-mode" && filePath("bladeburner.js") != "--looping-mode"
    ensures !ShouldLaunchDaemon(hacking, opts, Some(DaemonArgs(hacking, opts, filePath)))
  {
    var args := DaemonArgs(hacking, opts, filePath);
    if hacking >= opts.highHackThreshold {
      assert args[0] == Str("--looping-mode");
    }
  }

  /** The status line is printed again only when its key changes. */
  lemma SetStatusIdempotent(p: Pilot, status: string, uniquePart: string)
    ensures SetStatus(SetStatus(p, status, uniquePart), status, uniquePart) == SetStatus(p, status, uniquePart)
  {
  }
}
