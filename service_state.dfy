/** The module-level state of infiltrator-service.js that the service
    updates as it runs: the time factor the page's timers are scaled by
    (`setTimeFactor`, `autoSetTimeFactor`) and the console logger that
    never repeats its last line (`logConsole`). */
module ServiceState {
  import opened Common

  /** Delays at or above this many milliseconds are never scaled. */
  const MaxDelayCutoff: real := 30000.0

  /** `Math.round`: the nearest integer, halves rounded up. */
  function Round(x: real): (r: int)
    ensures x - 0.5 < r as real <= x + 0.5
  {
    (x + 0.5).Floor
  }

  /** The delay the page's `setTimeout`/`setInterval` actually waits, given
      the wrapper factor in place (`None`: the native functions). */
  function EffectiveDelay(wrapper: Option<real>, delay: real): (d: real)
    ensures wrapper.None? || delay >= MaxDelayCutoff ==> d == delay
    ensures wrapper.Some? && delay < MaxDelayCutoff ==>
      delay * wrapper.value - 0.5 < d <= delay * wrapper.value + 0.5
  {
    match wrapper
    case None => delay
    case Some(f) => if delay < MaxDelayCutoff then Round(delay * f) as real else delay
  }

  const LogPrefix: string := "infiltrator-service.js: "

  class Service {
    /** The factor last applied (`lastFactor`). */
    var lastFactor: real
    /** The timer wrapper installed on the page: `None` for the native
        functions, `Some(f)` for the wrapper scaling by `f`. */
    var wrapper: Option<real>
    /** The last message logged (`lastLog`). */
    var lastLog: Option<string>
    /** The lines printed to the console so far. */
    var console: seq<string>

    /** The wrapper in place always scales by `lastFactor`, and no line is
        printed twice in a row. */
    predicate Valid()
      reads this
    {
      && wrapper == (if lastFactor == 1.0 then None else Some(lastFactor))
      && (lastLog.None? <==> console == [])
      && (lastLog.Some? ==> console[|console| - 1] == LogPrefix + lastLog.value)
      && (forall i :: 0 < i < |console| ==> console[i - 1] != console[i])
    }

    /** Module load: factor 1, native timers, nothing logged. */
    constructor ()
      ensures Valid()
      ensures lastFactor == 1.0 && wrapper == None && lastLog == None && console == []
    {
      lastFactor := 1.0;
      wrapper := None;
      lastLog := None;
      console := [];
    }

    /** `setTimeFactor(factor)`: `true` iff anything changed. */
    method SetTimeFactor(factor: real) returns (changed: bool)
      requires Valid()
      modifies this
      ensures Valid()
      ensures changed <==> factor != old(lastFactor)
      ensures lastFactor == factor
      ensures wrapper == (if factor == 1.0 then None else Some(factor))
      ensures lastLog == old(lastLog) && console == old(console)
    {
      if factor == lastFactor {
        return false;
      }
      if factor == 1.0 {
        wrapper := None;
        lastFactor := factor;
        return true;
      }
      wrapper := Some(factor);
      lastFactor := factor;
      return true;
    }

    /** `logConsole(str)`: print `str` with the prefix unless it was the
        last message printed. */
    method LogConsole(str: string)
      requires Valid()
      modifies this
      ensures Valid()
      ensures lastLog == Some(str)
      ensures console == if old(lastLog) == Some(str) then old(console) else old(console) + [LogPrefix + str]
      ensures lastFactor == old(lastFactor) && wrapper == old(wrapper)
    {
      if lastLog == Some(str) {
        return;
      }
      assert console == [] || console[|console| - 1] != LogPrefix + str by {
        if console != [] {
          assert lastLog.Some? && lastLog.value != str;
          PrefixInjective(lastLog.value, str);
        }
      }
      console := console + [LogPrefix + str];
      lastLog := Some(str);
    }

    /** `autoSetTimeFactor`: with no infiltration level shown the timers
        go back to native; with one shown they take the configured factor.
        A change is logged with `AutoMessage`, through `logConsole`, so it
        is printed unless it was the last message; no change logs nothing. */
    method AutoSetTimeFactor(levelShown: bool, infiltrationTimeFactor: real)
      requires Valid()
      modifies this
      ensures Valid()
      ensures lastFactor == if levelShown then infiltrationTimeFactor else 1.0
      ensures wrapper == if lastFactor == 1.0 then None else Some(lastFactor)
      ensures old(lastFactor) == lastFactor ==> console == old(console) && lastLog == old(lastLog)
      ensures old(lastFactor) != lastFactor ==>
        var msg := AutoMessage(levelShown);
        && lastLog == Some(msg)
        && console == if old(lastLog) == Some(msg) then old(console) else old(console) + [LogPrefix + msg]
    {
      if !levelShown {
        var changed := SetTimeFactor(1.0);
        if changed {
          LogConsole(AutoMessage(false));
        }
      } else {
        var changed := SetTimeFactor(infiltrationTimeFactor);
        if changed {
          LogConsole(AutoMessage(true));
        }
      }
    }
  }

  /** The message `autoSetTimeFactor` logs when the factor changes. */
  function AutoMessage(levelShown: bool): string
  {
    if levelShown then "Infiltration detected: injecting middleware"
    else "Infiltration not detected: removing injection"
  }

  lemma PrefixInjective(a: string, b: string)
    requires a != b
    ensures LogPrefix + a != LogPrefix + b
  {
    assert (LogPrefix + a)[|LogPrefix|..] == a;
    assert (LogPrefix + b)[|LogPrefix|..] == b;
  }
}
