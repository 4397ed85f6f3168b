/** tkill.js: kill the processes whose file name matches a pattern, on
    the servers whose name matches another, with the current host last.
    The servers come from the network walk; what `ns.ps` and `ns.kill`
    answer is given as a `Host`. */
module TKill {
  import opened Common
  import Network
  import Wild

  const ThisScript := "tkill.js"

  const Usage := "Usage: run tkill.js [scriptNames] [servers]"

  // ---------------------------------------------------------------------
  // Array.prototype.splice

  /** Where `splice(start, …)` starts on an array of `len` elements: a
      negative start counts from the end, and both kinds are clamped to
      the array. */
  function SpliceStart(len: nat, start: int): (s: nat)
    ensures s <= len
    ensures 0 <= start <= len ==> s == start
    ensures -(len as int) <= start < 0 ==> s == len + start
  {
    if start < 0 then (if len + start < 0 then 0 else len + start)
    else if start > len then len
    else start
  }

  /** How many elements `splice(start, deleteCount)` removes: the count
      clamped to what lies after the start. */
  function SpliceCount(len: nat, s: nat, deleteCount: int): (d: nat)
    requires s <= len
    ensures s + d <= len
  {
    if deleteCount < 0 then 0 else if deleteCount > len - s then len - s else deleteCount
  }

  /** `a.splice(start, deleteCount, ...items)`: the elements removed and
      the array afterwards. */
  function Splice<T>(a: seq<T>, start: int, deleteCount: int, items: seq<T>): (seq<T>, seq<T>)
  {
    var s := SpliceStart(|a|, start);
    var d := SpliceCount(|a|, s, deleteCount);
    (a[s..s + d], a[..s] + items + a[s + d..])
  }

  /** Splicing the removed elements back in place of the inserted ones
      restores the array, and the array grows by what was inserted less
      what was removed. */
  lemma SpliceUndo<T>(a: seq<T>, start: int, deleteCount: int, items: seq<T>)
    ensures var (removed, b) := Splice(a, start, deleteCount, items);
      && |b| == |a| - |removed| + |items|
      && Splice(b, SpliceStart(|a|, start), |items|, removed) == (items, a)
  {
    var s := SpliceStart(|a|, start);
    var d := SpliceCount(|a|, s, deleteCount);
    var b := a[..s] + items + a[s + d..];
    assert b[..s] == a[..s];
    assert b[s..s + |items|] == items;
    assert b[s + |items|..] == a[s + d..];
    assert a[..s] + a[s..s + d] + a[s + d..] == a;
  }

  // ---------------------------------------------------------------------
  // Putting the current host last

  /** The server list with `home` moved to the end: its first occurrence
      taken out and `home` appended; a list without `home` is unchanged;
      an empty list becomes one `undefined`. */
  function HomeLast(servers: seq<Option<string>>, home: string): seq<Option<string>>
  {
    var i := IndexOf(servers, Some(home));
    if i >= 0 then servers[..i] + servers[i + 1..] + [Some(home)]
    else if servers == [] then [None]
    else servers
  }

  /** `servers.splice(servers.length - 1, 0, servers.splice(servers.indexOf(home), 1)[0])`.
      The outer start is computed before the inner splice shortens the
      array, so it is the new end of the array; when `home` is absent,
      `indexOf` gives -1 and the inner splice removes the last element,
      which the outer one puts back. */
  method MoveHomeLast(servers: seq<Option<string>>, home: string) returns (r: seq<Option<string>>)
    ensures r == HomeLast(servers, home)
  {
    var len := |servers|;
    var at := IndexOf(servers, Some(home));
    var removed, rest := Splice(servers, at, 1, []).0, Splice(servers, at, 1, []).1;
    var moved := if |removed| > 0 then removed[0] else None;
    r := Splice(rest, len - 1, 0, [moved]).1;
    if at >= 0 {
      assert rest == servers[..at] + servers[at + 1..];
    } else if servers != [] {
      assert rest + [moved] == servers;
    }
  }

  /** With `home` in the list, it ends the list and nowhere else holds it
      when it occurred once; the other servers keep their order. */
  lemma HomeLastOrder(servers: seq<Option<string>>, home: string)
    requires Some(home) in servers
    ensures var r := HomeLast(servers, home);
      && |r| == |servers| && r[|r| - 1] == Some(home)
      && multiset(r) == multiset(servers)
      && (Count(servers, Some(home)) == 1 ==> Some(home) !in r[..|r| - 1])
  {
    var i := IndexOf(servers, Some(home));
    var r := HomeLast(servers, home);
    assert r[..|r| - 1] == servers[..i] + servers[i + 1..];
    assert servers == servers[..i] + [servers[i]] + servers[i + 1..];
    CountAppend(servers[..i] + [servers[i]], servers[i + 1..], Some(home));
    CountAppend(servers[..i], [servers[i]], Some(home));
    assert Some(home) !in servers[..i];
    if Count(servers, Some(home)) == 1 {
      CountZero(servers[i + 1..], Some(home));
    }
  }

  // ---------------------------------------------------------------------
  // kill

  /** A running script as `ns.ps` reports it. */
  datatype Proc = Proc(filename: string, pid: nat)

  /** What the game answers: `ps(j)(server)` is what `ns.ps(server)`
      answers at the `j`-th server of the loop, after the kills before it
      (`None` is the `undefined` a failed host filter leaves in the list),
      and `kill(n)` whether the `n`-th call of `ns.kill` succeeds. */
  datatype Host = Host(ps: nat -> Option<string> -> seq<Proc>, kill: nat -> bool)

  /** One process `kill` calls `ns.kill` on, with the server it runs on. */
  datatype Target = Target(server: Option<string>, proc: Proc)

  /** The lines `kill` prints, the processes it tries to kill in order, and
      the error a `checkWild` throws, which ends it. */
  datatype Outcome = Outcome(lines: seq<string>, targets: seq<Target>, error: Option<string>)

  /** `servers.filter(s => checkWild(targetServer, s))`. */
  function SelectServers(walk: seq<string>, targetServer: string): Result<seq<string>>
  {
    if walk == [] then Ok([])
    else
      match Wild.CheckWild(targetServer, walk[0])
      case Err(e) => Err(e)
      case Ok(m) =>
        var rest := SelectServers(walk[1..], targetServer);
        if rest.Err? then rest else Ok((if m then [walk[0]] else []) + rest.value)
  }

  /** `ns.ps(server).filter(...)`: not this script (the `&&` stops before
      `checkWild` then) and a file name that matches. */
  function SelectProcs(procs: seq<Proc>, targetScript: string): Result<seq<Proc>>
  {
    if procs == [] then Ok([])
    else if procs[0].filename == ThisScript then SelectProcs(procs[1..], targetScript)
    else
      match Wild.CheckWild(targetScript, procs[0].filename)
      case Err(e) => Err(e)
      case Ok(m) =>
        var rest := SelectProcs(procs[1..], targetScript);
        if rest.Err? then rest else Ok((if m then [procs[0]] else []) + rest.value)
  }

  function Wrap(s: seq<string>): (r: seq<Option<string>>)
    ensures |r| == |s| && forall i :: 0 <= i < |s| ==> r[i] == Some(s[i])
  {
    seq(|s|, i requires 0 <= i < |s| => Some(s[i]))
  }

  /** How a server prints inside a template string. */
  function ServerName(server: Option<string>): string
  {
    if server.Some? then server.value else "undefined"
  }

  function KilledLine(t: Target): string
  {
    "Killed " + t.proc.filename + " on " + ServerName(t.server)
  }

  /** The lines printed for kill calls numbered from `calls` on: one per
      call that succeeds. */
  function Printed(targets: seq<Target>, kill: nat -> bool, calls: nat): seq<string>
  {
    if targets == [] then []
    else (if kill(calls) then [KilledLine(targets[0])] else []) + Printed(targets[1..], kill, calls + 1)
  }

  lemma {:induction false} PrintedAppend(a: seq<Target>, b: seq<Target>, kill: nat -> bool, calls: nat)
    ensures Printed(a + b, kill, calls) == Printed(a, kill, calls) + Printed(b, kill, calls + |a|)
  {
    if a == [] {
      assert a + b == b;
    } else {
      var head := if kill(calls) then [KilledLine(a[0])] else [];
      assert (a + b)[0] == a[0] && (a + b)[1..] == a[1..] + b;
      PrintedAppend(a[1..], b, kill, calls + 1);
      Common.Regroup(head, Printed(a[1..], kill, calls + 1), Printed(b, kill, calls + |a|));
    }
  }

  function Targets(server: Option<string>, procs: seq<Proc>): (r: seq<Target>)
    ensures |r| == |procs| && forall i :: 0 <= i < |procs| ==> r[i] == Target(server, procs[i])
  {
    seq(|procs|, i requires 0 <= i < |procs| => Target(server, procs[i]))
  }

  /** `kill`'s loop over the servers in the order given, the first of them
      being the `at`-th of the loop, with `calls` kill calls made before. */
  function KillFrom(servers: seq<Option<string>>, h: Host, targetScript: string, calls: nat, at: nat): Outcome
  {
    if servers == [] then Outcome([], [], None)
    else
      match SelectProcs(h.ps(at)(servers[0]), targetScript)
      case Err(e) => Outcome([], [], Some(e))
      case Ok(procs) =>
        var ts := Targets(servers[0], procs);
        var rest := KillFrom(servers[1..], h, targetScript, calls + |ts|, at + 1);
        Outcome(Printed(ts, h.kill, calls) + rest.lines, ts + rest.targets, rest.error)
  }

  /** The servers `kill` visits: the walk, filtered, home last. */
  function ServerOrder(net: Network.Net, home: string, targetServer: string): Result<seq<Option<string>>>
    requires Network.Closed(net) && home in net.hosts
  {
    match SelectServers(Network.Walk(net, home), targetServer)
    case Err(e) => Err(e)
    case Ok(servers) => Ok(HomeLast(Wrap(servers), home))
  }

  /** `kill(ns, targetScript, targetServer)`. */
  function Kill(net: Network.Net, home: string, targetScript: string, targetServer: string, h: Host): Outcome
    requires Network.Closed(net) && home in net.hosts
  {
    match ServerOrder(net, home, targetServer)
    case Err(e) => Outcome([], [], Some(e))
    case Ok(servers) => KillFrom(servers, h, targetScript, 0, 0)
  }

  /** The inner loop of `kill` on one server: a kill call per process,
      a line per success. */
  method KillOn(server: Option<string>, procs: seq<Proc>, h: Host, calls0: nat) returns (lines: seq<string>)
    ensures lines == Printed(Targets(server, procs), h.kill, calls0)
  {
    lines := [];
    var j := 0;
    while j < |procs|
      invariant j <= |procs|
      invariant Printed(Targets(server, procs), h.kill, calls0) ==
        lines + Printed(Targets(server, procs)[j..], h.kill, calls0 + j)
    {
      assert Targets(server, procs)[j..][1..] == Targets(server, procs)[j + 1..];
      var line := [];
      if h.kill(calls0 + j) {
        line := [KilledLine(Target(server, procs[j]))];
      }
      Regroup(lines, line, Printed(Targets(server, procs)[j + 1..], h.kill, calls0 + j + 1));
      lines := lines + line;
      j := j + 1;
    }
  }

  /** `kill`'s outer loop: per server, filter its processes (which may
      throw), then kill them. */
  method KillLoop(servers: seq<Option<string>>, h: Host, targetScript: string) returns (o: Outcome)
    ensures o == KillFrom(servers, h, targetScript, 0, 0)
  {
    var lines: seq<string> := [];
    var targets: seq<Target> := [];
    var i := 0;
    while i < |servers|
      invariant i <= |servers|
      invariant var rest := KillFrom(servers[i..], h, targetScript, |targets|, i);
        KillFrom(servers, h, targetScript, 0, 0) == Outcome(lines + rest.lines, targets + rest.targets, rest.error)
    {
      assert servers[i..][1..] == servers[i + 1..];
      var selected := SelectProcs(h.ps(i)(servers[i]), targetScript);
      if selected.Err? {
        return Outcome(lines, targets, Some(selected.error));
      }
      var ts := Targets(servers[i], selected.value);
      var printed := KillOn(servers[i], selected.value, h, |targets|);
      ghost var rest := KillFrom(servers[i + 1..], h, targetScript, |targets| + |ts|, i + 1);
      Regroup(lines, printed, rest.lines);
      Regroup(targets, ts, rest.targets);
      lines := lines + printed;
      targets := targets + ts;
      i := i + 1;
    }
    assert servers[i..] == [];
    o := Outcome(lines, targets, None);
  }

  /** `kill` as the script runs it: walk, filter, move home last, loop. */
  method KillAll(net: Network.Net, home: string, targetScript: string, targetServer: string, h: Host)
    returns (o: Outcome)
    requires Network.Closed(net) && home in net.hosts
    ensures o == Kill(net, home, targetScript, targetServer, h)
  {
    var it := new Network.ServerIterator();
    var walk := it.GetIterator(net, home);
    var selected := SelectServers(walk, targetServer);
    if selected.Err? {
      return Outcome([], [], Some(selected.error));
    }
    var servers := MoveHomeLast(Wrap(selected.value), home);
    o := KillLoop(servers, h, targetScript);
  }

  // ---------------------------------------------------------------------
  // Properties of kill

  /** The processes `SelectProcs` keeps are exactly those of the list that
      are not this script and match; it throws only when the pattern does
      not make a regular expression. */
  lemma {:induction false} SelectProcsSpec(procs: seq<Proc>, targetScript: string)
    ensures var r := SelectProcs(procs, targetScript);
      && (r.Err? ==> !Wild.Compile(Wild.ReplaceFirstStar(targetScript)).Ok?)
      && (r.Ok? ==> forall p :: p in r.value <==>
            p in procs && p.filename != ThisScript && Wild.CheckWild(targetScript, p.filename) == Ok(true))
  {
    if procs != [] {
      SelectProcsSpec(procs[1..], targetScript);
      if procs[0].filename != ThisScript {
        CheckWildFails(targetScript, procs[0].filename);
      }
    }
  }

  /** `CheckWild` throws only when the pattern does not compile. */
  lemma CheckWildFails(pattern: string, s: string)
    ensures Wild.CheckWild(pattern, s).Err? <==> !Wild.Compile(Wild.ReplaceFirstStar(pattern)).Ok?
  {
  }

  /** A target of one server is one of its selected processes. */
  lemma TargetsMember(server: Option<string>, procs: seq<Proc>, k: Option<string>, p: Proc)
    ensures Target(k, p) in Targets(server, procs) <==> k == server && p in procs
  {
    if k == server && p in procs {
      var n :| 0 <= n < |procs| && procs[n] == p;
      assert Targets(server, procs)[n] == Target(k, p);
    }
  }

  /** The process of `t` is one `ns.ps` reported at a visit of its server
      among `servers`, the first of them being the `at`-th of the loop. */
  predicate ReportedAt(servers: seq<Option<string>>, h: Host, at: nat, t: Target)
  {
    exists j :: 0 <= j < |servers| && servers[j] == t.server && t.proc in h.ps(at + j)(t.server)
  }

  lemma ReportedLater(servers: seq<Option<string>>, h: Host, at: nat, t: Target)
    requires servers != [] && ReportedAt(servers[1..], h, at + 1, t)
    ensures ReportedAt(servers, h, at, t)
  {
    var j :| 0 <= j < |servers[1..]| && servers[1..][j] == t.server && t.proc in h.ps(at + 1 + j)(t.server);
    assert servers[j + 1] == t.server && at + (j + 1) == at + 1 + j;
  }

  /** Every process `kill` calls `ns.kill` on is one `ns.ps` reported on a
      visited server when the loop reached it, is not tkill.js and matches
      the pattern. */
  lemma {:induction false} KillFromSound(servers: seq<Option<string>>, h: Host, targetScript: string, calls: nat, at: nat)
    ensures forall t :: t in KillFrom(servers, h, targetScript, calls, at).targets ==>
      && ReportedAt(servers, h, at, t) && t.proc.filename != ThisScript
      && Wild.CheckWild(targetScript, t.proc.filename) == Ok(true)
  {
    if servers != [] {
      SelectProcsSpec(h.ps(at)(servers[0]), targetScript);
      var sel := SelectProcs(h.ps(at)(servers[0]), targetScript);
      if sel.Ok? {
        var ts := Targets(servers[0], sel.value);
        var rest := KillFrom(servers[1..], h, targetScript, calls + |ts|, at + 1);
        KillFromSound(servers[1..], h, targetScript, calls + |ts|, at + 1);
        forall t | t in ts
          ensures t.server == servers[0] && t.proc in sel.value
        {
          TargetsMember(servers[0], sel.value, t.server, t.proc);
        }
        forall t | t in rest.targets
          ensures ReportedAt(servers, h, at, t)
        {
          ReportedLater(servers, h, at, t);
        }
        forall t | t in ts
          ensures ReportedAt(servers, h, at, t)
        {
          assert servers[0] == t.server && t.proc in h.ps(at + 0)(t.server);
        }
      }
    }
  }

  /** A file pattern that makes a regular expression never throws, so the
      loop runs over every server. */
  lemma {:induction false} KillFromNoError(servers: seq<Option<string>>, h: Host, targetScript: string, calls: nat, at: nat)
    requires Wild.Compile(Wild.ReplaceFirstStar(targetScript)).Ok?
    ensures KillFrom(servers, h, targetScript, calls, at).error.None?
  {
    if servers != [] {
      SelectProcsSpec(h.ps(at)(servers[0]), targetScript);
      var sel := SelectProcs(h.ps(at)(servers[0]), targetScript);
      KillFromNoError(servers[1..], h, targetScript, calls + |Targets(servers[0], sel.value)|, at + 1);
    }
  }

  /** With no error, every process `ns.ps` reports on a server when the
      loop reaches it, that is not tkill.js and matches, is one `kill`
      calls `ns.kill` on. */
  lemma KillFromComplete(servers: seq<Option<string>>, h: Host, targetScript: string, calls: nat, at: nat)
    ensures var o := KillFrom(servers, h, targetScript, calls, at);
      o.error.None? ==> forall j, p ::
        (0 <= j < |servers| && p in h.ps(at + j)(servers[j]) && p.filename != ThisScript &&
         Wild.CheckWild(targetScript, p.filename) == Ok(true)) ==> Target(servers[j], p) in o.targets
  {
    forall j, p | 0 <= j < |servers| && p in h.ps(at + j)(servers[j]) && p.filename != ThisScript &&
        Wild.CheckWild(targetScript, p.filename) == Ok(true) &&
        KillFrom(servers, h, targetScript, calls, at).error.None?
      ensures Target(servers[j], p) in KillFrom(servers, h, targetScript, calls, at).targets
    {
      KillFromReaches(servers, h, targetScript, calls, at, j, p);
    }
  }

  lemma {:induction false} KillFromReaches(servers: seq<Option<string>>, h: Host, targetScript: string, calls: nat,
                                           at: nat, j: nat, p: Proc)
    requires j < |servers| && p in h.ps(at + j)(servers[j]) && p.filename != ThisScript
    requires Wild.CheckWild(targetScript, p.filename) == Ok(true)
    requires KillFrom(servers, h, targetScript, calls, at).error.None?
    ensures Target(servers[j], p) in KillFrom(servers, h, targetScript, calls, at).targets
  {
    var sel := SelectProcs(h.ps(at)(servers[0]), targetScript);
    assert sel.Ok?;
    var ts := Targets(servers[0], sel.value);
    var rest := KillFrom(servers[1..], h, targetScript, calls + |ts|, at + 1);
    assert KillFrom(servers, h, targetScript, calls, at).targets == ts + rest.targets;
    if j == 0 {
      SelectProcsSpec(h.ps(at)(servers[0]), targetScript);
      TargetsMember(servers[0], sel.value, servers[0], p);
    } else {
      assert servers[1..][j - 1] == servers[j] && at + 1 + (j - 1) == at + j;
      KillFromReaches(servers[1..], h, targetScript, calls + |ts|, at + 1, j - 1, p);
    }
  }

  /** Each printed line reports one kill call that succeeded, in order. */
  lemma {:induction false} KillFromPrints(servers: seq<Option<string>>, h: Host, targetScript: string, calls: nat, at: nat)
    ensures var o := KillFrom(servers, h, targetScript, calls, at);
      o.lines == Printed(o.targets, h.kill, calls)
  {
    if servers != [] {
      var sel := SelectProcs(h.ps(at)(servers[0]), targetScript);
      if sel.Ok? {
        var ts := Targets(servers[0], sel.value);
        KillFromPrints(servers[1..], h, targetScript, calls + |ts|, at + 1);
        PrintedAppend(ts, KillFrom(servers[1..], h, targetScript, calls + |ts|, at + 1).targets, h.kill, calls);
      }
    }
  }

  /** A bad server pattern ends `kill` before any kill; otherwise the
      servers are the selected walk with `home`, if it matches, visited
      last and only there. */
  lemma KillOrder(net: Network.Net, home: string, targetServer: string)
    requires Network.Closed(net) && home in net.hosts
    ensures var r := ServerOrder(net, home, targetServer);
      && (r.Err? <==> !Wild.Compile(Wild.ReplaceFirstStar(targetServer)).Ok?)
      && (r.Ok? && Wild.CheckWild(targetServer, home) == Ok(true) ==>
            |r.value| > 0 && r.value[|r.value| - 1] == Some(home) && Some(home) !in r.value[..|r.value| - 1])
  {
    var walk := Network.Walk(net, home);
    Network.HomeOnce(net, home);
    SelectServersSpec(walk, targetServer);
    var sel := SelectServers(walk, targetServer);
    CheckWildFails(targetServer, home);
    if sel.Ok? && Wild.CheckWild(targetServer, home) == Ok(true) {
      assert walk == [home] + walk[1..];
      assert sel.value == [home] + SelectServers(walk[1..], targetServer).value;
      SelectServersSpec(walk[1..], targetServer);
      assert home !in SelectServers(walk[1..], targetServer).value;
      WrapCount(SelectServers(walk[1..], targetServer).value, home);
      assert Wrap(sel.value) == [Some(home)] + Wrap(SelectServers(walk[1..], targetServer).value);
      HomeLastOrder(Wrap(sel.value), home);
    }
  }

  lemma {:induction false} WrapCount(s: seq<string>, x: string)
    requires x !in s
    ensures Count(Wrap(s), Some(x)) == 0
  {
    if s != [] {
      assert Wrap(s)[1..] == Wrap(s[1..]);
      WrapCount(s[1..], x);
    }
  }

  /** `SelectServers` keeps exactly the matching hosts, and throws exactly
      when the pattern does not compile and there is a host to test. */
  lemma {:induction false} SelectServersSpec(walk: seq<string>, targetServer: string)
    ensures var r := SelectServers(walk, targetServer);
      && (r.Err? <==> walk != [] && !Wild.Compile(Wild.ReplaceFirstStar(targetServer)).Ok?)
      && (r.Ok? ==> forall x :: x in r.value <==> x in walk && Wild.CheckWild(targetServer, x) == Ok(true))
  {
    if walk != [] {
      CheckWildFails(targetServer, walk[0]);
      SelectServersSpec(walk[1..], targetServer);
    }
  }

  // ---------------------------------------------------------------------
  // main

  /** The file name pattern: `.js` added when there is no `.`. */
  function ScriptPattern(arg: string): (r: string)
    ensures '.' in r
    ensures '.' in arg ==> r == arg
  {
    if '.' in arg then arg else arg + ".js"
  }

  /** The server pattern: `ns.args[1] || '*'`. */
  function ServerPattern(args: seq<string>): (r: string)
    ensures r != ""
    ensures |args| > 1 && args[1] != "" ==> r == args[1]
  {
    if |args| > 1 && args[1] != "" then args[1] else "*"
  }

  /** `main(ns)`: the usage line, or what `kill` prints followed by
      `Complete` (not reached when `kill` throws). */
  method Run(net: Network.Net, home: string, args: seq<string>, h: Host) returns (lines: seq<string>, error: Option<string>)
    requires Network.Closed(net) && home in net.hosts
    ensures args == [] || args[0] == "-h" ==> lines == [Usage] && error.None?
    ensures args != [] && args[0] != "-h" ==>
      var o := Kill(net, home, ScriptPattern(args[0]), ServerPattern(args), h);
      error == o.error && lines == o.lines + (if o.error.None? then ["Complete"] else [])
  {
    if |args| == 0 || args[0] == "-h" {
      return [Usage], None;
    }
    var targetScript := args[0];
    if '.' !in targetScript {
      targetScript := targetScript + ".js";
    }
    var targetServer := if |args| > 1 && args[1] != "" then args[1] else "*";
    var o := KillAll(net, home, targetScript, targetServer, h);
    lines := o.lines;
    error := o.error;
    if error.None? {
      lines := lines + ["Complete"];
    }
  }

  /** With no server pattern every host whose name has no line break
      matches, so `kill` visits every host of the walk and reaches every
      process `ns.ps` reports there when the loop gets to it, that matches
      the file pattern and is not tkill.js. */
  lemma KillEverywhere(net: Network.Net, home: string, targetScript: string, h: Host)
    requires Network.Closed(net) && home in net.hosts
    requires forall x :: x in net.hosts ==> Wild.NoLineTerminator(x)
    requires Wild.Compile(Wild.ReplaceFirstStar(targetScript)).Ok?
    ensures ServerOrder(net, home, "*").Ok?
    ensures var order := ServerOrder(net, home, "*").value;
      var o := Kill(net, home, targetScript, "*", h);
      && o.error.None?
      && (forall k :: k in Network.Walk(net, home) ==> Some(k) in order)
      && forall j, p ::
           (0 <= j < |order| && p in h.ps(j)(order[j]) && p.filename != ThisScript &&
            Wild.CheckWild(targetScript, p.filename) == Ok(true)) ==> Target(order[j], p) in o.targets
  {
    var walk := Network.Walk(net, home);
    Network.WalkFromShape(net, home, {}, []);
    SelectServersSpec(walk, "*");
    Wild.CheckWildAll(home);
    var sel := SelectServers(walk, "*").value;
    var servers := HomeLast(Wrap(sel), home);
    KillFromNoError(servers, h, targetScript, 0, 0);
    KillFromComplete(servers, h, targetScript, 0, 0);
    forall k | k in walk
      ensures Some(k) in servers
    {
      Wild.CheckWildAll(k);
      assert k in sel;
      HomeLastKeeps(Wrap(sel), home, Some(k));
    }
    // The loop starts at position 0: `at + j` of KillFromComplete is `j`.
    forall j, p | 0 <= j < |servers| && p in h.ps(j)(servers[j])
      ensures p in h.ps(0 + j)(servers[j])
    {
    }
  }

  /** Moving home last loses no server. */
  lemma HomeLastKeeps(servers: seq<Option<string>>, home: string, x: Option<string>)
    requires x in servers
    ensures x in HomeLast(servers, home)
  {
    if Some(home) in servers {
      HomeLastOrder(servers, home);
      assert x in multiset(servers);
    }
  }
}
