/** services.js: the registry of running interval services kept as JSON in
    the file services.txt. The file, the intervals cleared and the lines
    logged are the state of a `ServiceHost`; JSON is abstracted as a
    `Codec`. */
module Services {
  import opened Common

  /** One registry entry. `params` is kept opaque. */
  datatype Service = Service(name: string, started: int, intervalId: int, params: map<string, string>)

  /** `JSON.parse` of the file, `None` where it throws a SyntaxError, and
      `JSON.stringify(services, null, 2)`. */
  datatype Codec = Codec(parse: string -> Option<seq<Service>>, stringify: seq<Service> -> string)

  /** Parsing what was written gives it back, and what is written is never
      empty (it is at least `[]`). */
  ghost predicate RoundTrips(c: Codec)
  {
    forall s :: c.parse(c.stringify(s)) == Some(s) && c.stringify(s) != ""
  }

  /** What the registry holds: an empty file is an empty registry. */
  function Listing(c: Codec, contents: string): Option<seq<Service>>
  {
    if contents == "" then Some([]) else c.parse(contents)
  }

  function Names(services: seq<Service>): (r: seq<string>)
    ensures |r| == |services| && forall i :: 0 <= i < |services| ==> r[i] == services[i].name
  {
    seq(|services|, i requires 0 <= i < |services| => services[i].name)
  }

  /** The registry without the first entry named `name`. */
  function Removed(services: seq<Service>, name: string): seq<Service>
  {
    var i := IndexOf(Names(services), name);
    if i < 0 then services else services[..i] + services[i + 1..]
  }

  /** The interval `stopService` clears: that of the first entry named
      `name`, if any. */
  function StopCleared(c: Codec, contents: string, name: string): seq<int>
  {
    match Listing(c, contents)
    case None => []
    case Some(s) =>
      var i := IndexOf(Names(s), name);
      if i < 0 then [] else [s[i].intervalId]
  }

  /** How a missing service name is printed. */
  const Undefined: string := "undefined"

  /** What `main` and the two exported functions log. */
  datatype Event =
    | ClearedPrevious(id: int)
    | InvalidListing(name: string, contents: string)
    | Registered(name: string, id: int)
    | Reloaded(started: int)
    | NoServices
    | Listed(service: Service)
    | NoneFound(name: string)
    | ClearedService(name: string, id: int)
    | Usage

  /** The lines `stopService` logs. */
  function StopLog(c: Codec, contents: string, name: string): seq<Event>
  {
    match Listing(c, contents)
    case None => [InvalidListing(name, contents)]
    case Some(s) =>
      var i := IndexOf(Names(s), name);
      if i < 0 then [] else [ClearedPrevious(s[i].intervalId)]
  }

  // ---------------------------------------------------------------------
  // The registry as a list

  /** Removing takes out exactly the first entry of that name: the list
      shrinks by one, that name occurs once less, every other name as
      often as before, and the other entries keep their order. */
  lemma RemovedSpec(services: seq<Service>, name: string)
    ensures var r := Removed(services, name);
      && (name !in Names(services) ==> r == services)
      && (name in Names(services) ==>
            var i := IndexOf(Names(services), name);
            && |r| == |services| - 1
            && r == services[..i] + services[i + 1..]
            && multiset(r) + multiset{services[i]} == multiset(services)
            && Count(Names(r), name) + 1 == Count(Names(services), name)
            && forall n :: n != name ==> Count(Names(r), n) == Count(Names(services), n))
  {
    var i := IndexOf(Names(services), name);
    if i >= 0 {
      var r := Removed(services, name);
      assert services == services[..i] + [services[i]] + services[i + 1..];
      NamesRemoveAt(services, i);
      forall n
        ensures Count(Names(r), n) + (if n == name then 1 else 0) == Count(Names(services), n)
      {
        CountRemoveAt(Names(services), i, n);
      }
    }
  }

  lemma NamesRemoveAt(services: seq<Service>, i: nat)
    requires i < |services|
    ensures Names(services[..i] + services[i + 1..]) == Names(services)[..i] + Names(services)[i + 1..]
  {
  }

  /** Registering keeps names unique: once the old entry is removed, the
      new name occurs exactly once. */
  lemma RegisterKeepsUnique(services: seq<Service>, s: Service)
    requires forall n :: Count(Names(services), n) <= 1
    ensures var r := Removed(services, s.name) + [s];
      && Count(Names(r), s.name) == 1
      && forall n :: Count(Names(r), n) <= 1
  {
    var removed := Removed(services, s.name);
    RemovedSpec(services, s.name);
    assert Count(Names(removed), s.name) == 0 by {
      if s.name !in Names(services) {
        CountZero(Names(services), s.name);
      }
    }
    assert Names(removed + [s]) == Names(removed) + [s.name];
    forall n
      ensures Count(Names(removed + [s]), n) == Count(Names(removed), n) + (if n == s.name then 1 else 0)
    {
      CountAppend(Names(removed), [s.name], n);
    }
  }

  /** The ids `stopall` clears: every id but the boot entry's -1, in
      order. */
  function RealIds(services: seq<Service>): seq<int>
  {
    if services == [] then []
    else (if services[0].intervalId == -1 then [] else [services[0].intervalId]) + RealIds(services[1..])
  }

  /** `stopall` clears exactly the ids of the listed services other than
      -1. */
  lemma {:induction false} RealIdsSpec(services: seq<Service>)
    ensures forall x :: x in RealIds(services) <==>
      x != -1 && exists i :: 0 <= i < |services| && services[i].intervalId == x
  {
    if services != [] {
      RealIdsSpec(services[1..]);
      assert forall i :: 0 <= i < |services[1..]| ==> services[1..][i] == services[i + 1];
      forall x | x != -1 && exists i :: 0 <= i < |services| && services[i].intervalId == x
        ensures x in RealIds(services)
      {
        var i :| 0 <= i < |services| && services[i].intervalId == x;
        if i > 0 {
          assert services[1..][i - 1].intervalId == x;
        }
      }
    }
  }

  /** The lines `stopall` logs, one per cleared service. */
  function StopAllLog(services: seq<Service>): seq<Event>
  {
    if services == [] then []
    else
      var s := services[0];
      (if s.intervalId == -1 then [] else [ClearedService(s.name, s.intervalId)]) + StopAllLog(services[1..])
  }

  /** Each line `stopall` logs names the interval it cleared, in order. */
  lemma {:induction false} StopAllLogIds(services: seq<Service>)
    ensures |StopAllLog(services)| == |RealIds(services)|
    ensures forall i :: 0 <= i < |RealIds(services)| ==>
      StopAllLog(services)[i].ClearedService? && StopAllLog(services)[i].id == RealIds(services)[i]
  {
    if services != [] {
      StopAllLogIds(services[1..]);
    }
  }

  // ---------------------------------------------------------------------
  // The host: services.txt, the intervals cleared, the log

  class ServiceHost {
    var file: string
    var cleared: seq<int>
    var log: seq<Event>
    var writes: nat

    constructor (file: string)
      ensures this.file == file && cleared == [] && log == [] && writes == 0
    {
      this.file := file;
      cleared := [];
      log := [];
      writes := 0;
    }

    /** `ns.write('services.txt', contents, 'w')`. */
    method Write(contents: string)
      modifies this
      ensures file == contents && writes == old(writes) + 1
      ensures cleared == old(cleared) && log == old(log)
    {
      file := contents;
      writes := writes + 1;
    }

    /** `stopService(ns, serviceName, writeback)`: the registry without the
        first entry of that name, whose interval is cleared; written back
        only when something was removed and `writeback` is set. `None` is
        the `undefined` returned after the warning for an unreadable file. */
    method StopService(c: Codec, name: string, writeback: bool) returns (r: Option<seq<Service>>)
      modifies this
      ensures r == (match Listing(c, old(file)) case None => None case Some(s) => Some(Removed(s, name)))
      ensures cleared == old(cleared) + StopCleared(c, old(file), name)
      ensures log == old(log) + StopLog(c, old(file), name)
      ensures if writeback && StopCleared(c, old(file), name) != []
        then file == c.stringify(r.value) && writes == old(writes) + 1
        else file == old(file) && writes == old(writes)
    {
      var contents := file;
      if contents == "" {
        return Some([]);
      }
      var parsed := c.parse(contents);
      if parsed.None? {
        log := log + [InvalidListing(name, contents)];
        return None;
      }
      var services := parsed.value;
      var serviceIndex := IndexOf(Names(services), name);
      if serviceIndex == -1 {
        return Some(services);
      }
      var intervalId := services[serviceIndex].intervalId;
      services := services[..serviceIndex] + services[serviceIndex + 1..];
      cleared := cleared + [intervalId];
      log := log + [ClearedPrevious(intervalId)];
      if writeback {
        Write(c.stringify(services));
      }
      return Some(services);
    }

    /** `registerService(ns, serviceName, intervalId, params)`: the new
        entry appended to the registry without its old namesake, written
        once. On an unreadable file `services.push` throws. */
    method RegisterService(c: Codec, name: string, intervalId: int, now: int, params: map<string, string>)
      returns (r: Result<Service>)
      modifies this
      ensures r.Ok? <==> Listing(c, old(file)).Some?
      ensures cleared == old(cleared) + StopCleared(c, old(file), name)
      ensures r.Ok? ==>
        && r.value == Service(name, now, intervalId, params)
        && file == c.stringify(Removed(Listing(c, old(file)).value, name) + [r.value])
        && writes == old(writes) + 1
        && log == old(log) + StopLog(c, old(file), name) + [Registered(name, intervalId)]
      ensures r.Err? ==> file == old(file) && writes == old(writes) && log == old(log) + StopLog(c, old(file), name)
    {
      var services := StopService(c, name, false);
      if services.None? {
        return Err("TypeError: Cannot read properties of undefined (reading 'push')");
      }
      var newService := Service(name, now, intervalId, params);
      Write(c.stringify(services.value + [newService]));
      log := log + [Registered(name, intervalId)];
      return Ok(newService);
    }

    /** `main` with `boot`: empty the file, then register the `game` entry
        with interval -1. */
    method Boot(c: Codec, now: int)
      modifies this
      ensures file == c.stringify([Service("game", now, -1, map[])])
      ensures writes == old(writes) + 2 && cleared == old(cleared)
      ensures log == old(log) + [Registered("game", -1), Reloaded(now)]
    {
      Write("");
      var r := RegisterService(c, "game", -1, now, map[]);
      assert Names([]) == [];
      assert Removed([], "game") + [r.value] == [r.value];
      log := log + [Reloaded(r.value.started)];
    }

    /** `main` with `list`: a line per entry; an unparsable file throws. */
    method List(c: Codec) returns (r: Result<()>)
      modifies this
      ensures file == old(file) && cleared == old(cleared) && writes == old(writes)
      ensures old(file) == "" ==> r.Ok? && log == old(log) + [NoServices]
      ensures old(file) != "" ==>
        (r.Ok? <==> c.parse(old(file)).Some?) &&
        log == old(log) + (if r.Ok? then ListedAll(c.parse(old(file)).value) else [])
    {
      if file == "" {
        log := log + [NoServices];
        return Ok(());
      }
      var parsed := c.parse(file);
      if parsed.None? {
        return Err("SyntaxError: invalid services listing");
      }
      var services := parsed.value;
      var i := 0;
      while i < |services|
        invariant i <= |services| && log == old(log) + ListedAll(services[..i])
        invariant file == old(file) && cleared == old(cleared) && writes == old(writes)
      {
        assert services[..i + 1] == services[..i] + [services[i]];
        ListedAllAppend(services[..i], [services[i]]);
        log := log + [Listed(services[i])];
        i := i + 1;
      }
      assert services[..i] == services;
      return Ok(());
    }

    /** `main` with `stop`: stop the named service and write back. As
        written (`fixed` false) "no services found" is logged when the
        registry left over is empty; corrected (`fixed` true) when no entry
        had that name. An unreadable file makes `services.length` throw. */
    method Stop(c: Codec, name: string, fixed: bool) returns (r: Result<()>)
      modifies this
      ensures r.Ok? <==> Listing(c, old(file)).Some?
      ensures cleared == old(cleared) + StopCleared(c, old(file), name)
      ensures r.Ok? ==>
        var s := Listing(c, old(file)).value;
        var notFound := if fixed then name !in Names(s) else Removed(s, name) == [];
        log == old(log) + StopLog(c, old(file), name) + (if notFound then [NoneFound(name)] else [])
      ensures r.Err? ==> log == old(log) + [InvalidListing(name, old(file))]
      ensures StopCleared(c, old(file), name) != [] ==>
        file == c.stringify(Removed(Listing(c, old(file)).value, name)) && writes == old(writes) + 1
      ensures StopCleared(c, old(file), name) == [] ==> file == old(file) && writes == old(writes)
    {
      var before := Listing(c, file);
      var services := StopService(c, name, true);
      if services.None? {
        return Err("TypeError: Cannot read properties of undefined (reading 'length')");
      }
      var notFound := if fixed then name !in Names(before.value) else |services.value| == 0;
      if notFound {
        log := log + [NoneFound(name)];
      }
      return Ok(());
    }

    /** `main` with `stopall`: clear every interval but the boot entry's,
        then empty the file. An unparsable file throws before anything is
        cleared. */
    method StopAll(c: Codec) returns (r: Result<()>)
      modifies this
      ensures old(file) == "" ==>
        r.Ok? && file == old(file) && cleared == old(cleared) && writes == old(writes) && log == old(log) + [NoServices]
      ensures old(file) != "" && c.parse(old(file)).None? ==>
        r.Err? && file == old(file) && cleared == old(cleared) && writes == old(writes) && log == old(log)
      ensures old(file) != "" && c.parse(old(file)).Some? ==>
        var s := c.parse(old(file)).value;
        && r.Ok? && file == "" && writes == old(writes) + 1
        && cleared == old(cleared) + RealIds(s)
        && log == old(log) + StopAllLog(s)
    {
      if file == "" {
        log := log + [NoServices];
        return Ok(());
      }
      var parsed := c.parse(file);
      if parsed.None? {
        return Err("SyntaxError: invalid services listing");
      }
      var services := parsed.value;
      var i := 0;
      while i < |services|
        invariant i <= |services|
        invariant cleared == old(cleared) + RealIds(services[..i])
        invariant log == old(log) + StopAllLog(services[..i])
        invariant file == old(file) && writes == old(writes)
      {
        assert services[..i + 1] == services[..i] + [services[i]];
        RealIdsAppend(services[..i], [services[i]]);
        StopAllLogAppend(services[..i], [services[i]]);
        var intervalId := services[i].intervalId;
        if intervalId != -1 {
          cleared := cleared + [intervalId];
          log := log + [ClearedService(services[i].name, intervalId)];
        }
        i := i + 1;
      }
      assert services[..i] == services;
      Write("");
      return Ok(());
    }

    /** `main` with `stop` and no service name: `s.name === undefined`
        holds for no entry, since every entry has a name, so nothing is
        stopped or written; the name is printed as `undefined`. */
    method StopUnnamed(c: Codec, fixed: bool) returns (r: Result<()>)
      modifies this
      ensures r.Ok? <==> Listing(c, old(file)).Some?
      ensures file == old(file) && cleared == old(cleared) && writes == old(writes)
      ensures r.Ok? ==>
        var notFound := fixed || Listing(c, old(file)).value == [];
        log == old(log) + (if notFound then [NoneFound(Undefined)] else [])
      ensures r.Err? ==> log == old(log) + [InvalidListing(Undefined, old(file))]
    {
      if file == "" {
        log := log + [NoneFound(Undefined)];
        return Ok(());
      }
      var parsed := c.parse(file);
      if parsed.None? {
        log := log + [InvalidListing(Undefined, file)];
        return Err("TypeError: Cannot read properties of undefined (reading 'length')");
      }
      if fixed || |parsed.value| == 0 {
        log := log + [NoneFound(Undefined)];
      }
      return Ok(());
    }

    /** `main(ns)`: dispatch on the first argument. The help text is
        logged for no argument or `help`; any other argument does nothing.
        Each command does what its own method states. */
    method Run(c: Codec, args: seq<string>, now: int, fixed: bool) returns (r: Result<()>)
      modifies this
      ensures args == [] ==> r.Ok? && file == old(file) && writes == old(writes) && cleared == old(cleared) && log == old(log) + [Usage]
      ensures args != [] && args[0] !in {"boot", "list", "stop", "stopall", "help"} ==>
        r.Ok? && file == old(file) && cleared == old(cleared) && log == old(log) && writes == old(writes)
      ensures args != [] && args[0] == "help" ==> r.Ok? && file == old(file) && writes == old(writes) && cleared == old(cleared) && log == old(log) + [Usage]
      // boot
      ensures args != [] && args[0] == "boot" ==>
        && r.Ok? && file == c.stringify([Service("game", now, -1, map[])])
        && writes == old(writes) + 2 && cleared == old(cleared)
        && log == old(log) + [Registered("game", -1), Reloaded(now)]
      // list
      ensures args != [] && args[0] == "list" ==>
        && file == old(file) && cleared == old(cleared) && writes == old(writes)
        && (old(file) == "" ==> r.Ok? && log == old(log) + [NoServices])
        && (old(file) != "" ==>
              (r.Ok? <==> c.parse(old(file)).Some?) &&
              log == old(log) + (if r.Ok? then ListedAll(c.parse(old(file)).value) else []))
      // stop with a name
      ensures |args| > 1 && args[0] == "stop" ==>
        var name := args[1];
        && (r.Ok? <==> Listing(c, old(file)).Some?)
        && cleared == old(cleared) + StopCleared(c, old(file), name)
        && (r.Ok? ==>
              var s := Listing(c, old(file)).value;
              var notFound := if fixed then name !in Names(s) else Removed(s, name) == [];
              log == old(log) + StopLog(c, old(file), name) + (if notFound then [NoneFound(name)] else []))
        && (r.Err? ==> log == old(log) + [InvalidListing(name, old(file))])
        && (StopCleared(c, old(file), name) != [] ==>
              file == c.stringify(Removed(Listing(c, old(file)).value, name)) && writes == old(writes) + 1)
        && (StopCleared(c, old(file), name) == [] ==> file == old(file) && writes == old(writes))
      // stop without a name
      ensures args == ["stop"] ==>
        && (r.Ok? <==> Listing(c, old(file)).Some?)
        && file == old(file) && cleared == old(cleared) && writes == old(writes)
        && (r.Ok? ==>
              var notFound := fixed || Listing(c, old(file)).value == [];
              log == old(log) + (if notFound then [NoneFound(Undefined)] else []))
        && (r.Err? ==> log == old(log) + [InvalidListing(Undefined, old(file))])
      // stopall
      ensures args != [] && args[0] == "stopall" && old(file) == "" ==>
        r.Ok? && file == old(file) && cleared == old(cleared) && writes == old(writes) && log == old(log) + [NoServices]
      ensures args != [] && args[0] == "stopall" && old(file) != "" && c.parse(old(file)).None? ==>
        r.Err? && file == old(file) && cleared == old(cleared) && writes == old(writes) && log == old(log)
      ensures args != [] && args[0] == "stopall" && old(file) != "" && c.parse(old(file)).Some? ==>
        var s := c.parse(old(file)).value;
        && r.Ok? && file == "" && writes == old(writes) + 1
        && cleared == old(cleared) + RealIds(s)
        && log == old(log) + StopAllLog(s)
    {
      if |args| > 0 && args[0] == "boot" {
        Boot(c, now);
        return Ok(());
      }
      if |args| > 0 && args[0] == "list" {
        r := List(c);
        return;
      }
      if |args| > 0 && args[0] == "stop" {
        if |args| > 1 {
          r := Stop(c, args[1], fixed);
        } else {
          r := StopUnnamed(c, fixed);
        }
        return;
      }
      if |args| > 0 && args[0] == "stopall" {
        r := StopAll(c);
        return;
      }
      if |args| == 0 || args[0] == "help" {
        log := log + [Usage];
      }
      return Ok(());
    }
  }

  function ListedAll(services: seq<Service>): (r: seq<Event>)
    ensures |r| == |services| && forall i :: 0 <= i < |services| ==> r[i] == Listed(services[i])
  {
    seq(|services|, i requires 0 <= i < |services| => Listed(services[i]))
  }

  lemma ListedAllAppend(a: seq<Service>, b: seq<Service>)
    ensures ListedAll(a + b) == ListedAll(a) + ListedAll(b)
  {
  }

  lemma {:induction false} RealIdsAppend(a: seq<Service>, b: seq<Service>)
    ensures RealIds(a + b) == RealIds(a) + RealIds(b)
  {
    if a == [] {
      assert a + b == b;
    } else {
      assert (a + b)[1..] == a[1..] + b;
      RealIdsAppend(a[1..], b);
    }
  }

  lemma {:induction false} StopAllLogAppend(a: seq<Service>, b: seq<Service>)
    ensures StopAllLog(a + b) == StopAllLog(a) + StopAllLog(b)
  {
    if a == [] {
      assert a + b == b;
    } else {
      assert (a + b)[1..] == a[1..] + b;
      StopAllLogAppend(a[1..], b);
    }
  }

  // ---------------------------------------------------------------------
  // Properties across calls

  /** After `registerService`, reading the file gives the old registry
      without the old namesake, the new entry last; names that were unique
      stay unique, the new one occurring once. */
  lemma RegisterThenRead(c: Codec, contents: string, s: Service)
    requires RoundTrips(c) && Listing(c, contents).Some?
    requires forall n :: Count(Names(Listing(c, contents).value), n) <= 1
    ensures var after := Removed(Listing(c, contents).value, s.name) + [s];
      && Listing(c, c.stringify(after)) == Some(after)
      && after[|after| - 1] == s
      && Count(Names(after), s.name) == 1
      && forall n :: Count(Names(after), n) <= 1
  {
    RegisterKeepsUnique(Listing(c, contents).value, s);
  }

  /** After `boot` the registry is exactly the `game` entry, with the
      interval -1 that `stopall` leaves alone. */
  lemma BootLeavesGame(c: Codec, now: int)
    requires RoundTrips(c)
    ensures Listing(c, c.stringify([Service("game", now, -1, map[])])) == Some([Service("game", now, -1, map[])])
    ensures RealIds([Service("game", now, -1, map[])]) == []
  {
  }

  /** Stopping a service that was registered clears its interval and
      leaves no entry of that name when names were unique. */
  lemma StopRemovesName(c: Codec, contents: string, name: string)
    requires Listing(c, contents).Some? && name in Names(Listing(c, contents).value)
    requires forall n :: Count(Names(Listing(c, contents).value), n) <= 1
    ensures var s := Listing(c, contents).value;
      && name !in Names(Removed(s, name))
      && StopCleared(c, contents, name) == [s[IndexOf(Names(s), name)].intervalId]
  {
    var s := Listing(c, contents).value;
    RemovedSpec(s, name);
    CountZero(Names(Removed(s, name)), name);
  }

  /** The bug in `stop` as written: stopping the only service clears its
      interval and still reports that no service had that name. */
  lemma StopOnlyServiceSaysNoneFound(c: Codec, s: Service)
    requires RoundTrips(c)
    ensures var contents := c.stringify([s]);
      && StopCleared(c, contents, s.name) == [s.intervalId]
      && Removed(Listing(c, contents).value, s.name) == []
      && s.name in Names(Listing(c, contents).value)
  {
    assert Names([s]) == [s.name];
  }

  /** What the corrected `stop` tests: no entry has the name exactly when
      `stopService` clears nothing. */
  lemma NotFoundIffNothingCleared(c: Codec, contents: string, name: string)
    requires Listing(c, contents).Some?
    ensures name !in Names(Listing(c, contents).value) <==> StopCleared(c, contents, name) == []
  {
  }
}
