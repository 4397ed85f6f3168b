/** findps.js: list, kill, restart or tail the processes whose file name
    matches a pattern, on the servers whose name matches another. The
    servers come from the network walk; what `ns.ps`, `ns.kill` and
    `ns.exec` answer is given as parameters. Each mode walks the network
    again, and a kill or restart changes what `ns.ps` answers afterwards,
    so `ns.ps` is answered per mode and per visit of the walk. */
module FindPs {
  import opened Common
  import Network
  import Wild
  import Duration

  const ThisScript := "findps.js"

  /** A running script as `ns.ps` reports it. */
  datatype Proc = Proc(filename: string, pid: nat, threads: nat, args: seq<string>, temporary: bool)

  /** One `[server, proc]` pair that `iterate` yields. */
  datatype Hit = Hit(server: string, proc: Proc)

  /** One `ns.tail(filename, server, ...args)` call: the window it opens. */
  datatype TailCall = TailCall(filename: string, server: string, args: seq<string>)

  /** One `ns.kill(filename, server, ...args)` call: the script it stops. */
  datatype KillCall = KillCall(filename: string, server: string, args: seq<string>)

  /** One `ns.exec(filename, server, threads, ...args)` call: the script it
      starts and with how many threads. */
  datatype ExecCall = ExecCall(filename: string, server: string, threads: nat, args: seq<string>)

  /** The `ns.kill` call for a pair: its file name, server and arguments. */
  function KillOf(h: Hit): KillCall
  {
    KillCall(h.proc.filename, h.server, h.proc.args)
  }

  /** The `ns.exec` call that restarts a pair: its file name, server and
      arguments, with one thread whatever the process ran with. */
  function RestartOf(h: Hit): ExecCall
  {
    ExecCall(h.proc.filename, h.server, 1, h.proc.args)
  }

  /** What `iterate` yields before it ends, and the error it ends with if
      a `checkWild` throws. */
  datatype Yield = Yield(hits: seq<Hit>, error: Option<string>)

  /** `plural(n, pluralForm)`. */
  function Plural(n: int, form: string): string
  {
    if n == 1 then "" else form
  }

  /** The suffix is empty exactly for one. */
  lemma PluralIff(n: int, form: string)
    requires form != ""
    ensures Plural(n, form) == "" <==> n == 1
    ensures n != 1 ==> Plural(n, form) == form
  {
  }

  // ---------------------------------------------------------------------
  // iterate

  /** The processes of one matching server that survive `iterate`'s
      filter, in `ps` order: not this script on home (the `&&` stops
      before `checkWild` then) and a file name that matches. The filter
      runs to the end before anything is yielded, so a throwing
      `checkWild` yields nothing from this server. */
  function MatchingProcs(server: string, home: string, procs: seq<Proc>, targetScript: string): Result<seq<Proc>>
  {
    if procs == [] then Ok([])
    else
      var p := procs[0];
      if p.filename == ThisScript && server == home then MatchingProcs(server, home, procs[1..], targetScript)
      else
        match Wild.CheckWild(targetScript, p.filename)
        case Err(e) => Err(e)
        case Ok(m) =>
          var rest := MatchingProcs(server, home, procs[1..], targetScript);
          if rest.Err? then rest else Ok((if m then [p] else []) + rest.value)
  }

  function HitsOn(server: string, procs: seq<Proc>): (r: seq<Hit>)
    ensures |r| == |procs| && forall i :: 0 <= i < |procs| ==> r[i] == Hit(server, procs[i])
  {
    seq(|procs|, i requires 0 <= i < |procs| => Hit(server, procs[i]))
  }

  /** `iterate` over the servers in the order given, the first of them
      being visit `at` of the walk; `ps(j)(server)` is what `ns.ps(server)`
      answers at visit `j`. */
  function IterateFrom(servers: seq<string>, home: string, targetServer: string, targetScript: string,
                       ps: nat -> string -> seq<Proc>, at: nat): Yield
  {
    if servers == [] then Yield([], None)
    else
      match Wild.CheckWild(targetServer, servers[0])
      case Err(e) => Yield([], Some(e))
      case Ok(m) =>
        if !m then IterateFrom(servers[1..], home, targetServer, targetScript, ps, at + 1)
        else
          match MatchingProcs(servers[0], home, ps(at)(servers[0]), targetScript)
          case Err(e) => Yield([], Some(e))
          case Ok(procs) =>
            var rest := IterateFrom(servers[1..], home, targetServer, targetScript, ps, at + 1);
            Yield(HitsOn(servers[0], procs) + rest.hits, rest.error)
  }

  /** `iterate(ns, targetServer, targetScript)`: the walk from home. */
  function Iterate(net: Network.Net, home: string, targetServer: string, targetScript: string,
                   ps: nat -> string -> seq<Proc>): Yield
    requires Network.Closed(net) && home in net.hosts
  {
    IterateFrom(Network.Walk(net, home), home, targetServer, targetScript, ps, 0)
  }

  /** A pair `iterate` may yield: the server and the file name match, and
      it is not this script on home. */
  predicate Selected(h: Hit, home: string, targetServer: string, targetScript: string)
  {
    && Wild.CheckWild(targetServer, h.server) == Ok(true)
    && Wild.CheckWild(targetScript, h.proc.filename) == Ok(true)
    && !(h.proc.filename == ThisScript && h.server == home)
  }

  /** Whether the pattern makes a regular expression, whatever text it
      is matched against. */
  predicate Compiles(pattern: string)
  {
    Wild.Compile(Wild.ReplaceFirstStar(pattern)).Ok?
  }

  /** Whether `checkWild` throws depends on the pattern alone. */
  lemma CheckWildThrows(pattern: string, str: string)
    ensures Wild.CheckWild(pattern, str).Ok? <==> Compiles(pattern)
  {
  }

  /** The filter keeps exactly the processes that are not this script on
      home and whose file name matches, in order; it throws only for a
      pattern that does not compile. */
  lemma {:induction false} MatchingProcsSpec(server: string, home: string, procs: seq<Proc>, targetScript: string)
    ensures var r := MatchingProcs(server, home, procs, targetScript);
      && (r.Err? ==> !Compiles(targetScript))
      && (Compiles(targetScript) ==> r.Ok?)
      && (r.Ok? ==> forall p :: p in r.value <==>
            p in procs && Wild.CheckWild(targetScript, p.filename) == Ok(true) && !(p.filename == ThisScript && server == home))
  {
    if procs != [] {
      MatchingProcsSpec(server, home, procs[1..], targetScript);
      CheckWildThrows(targetScript, procs[0].filename);
      assert procs == [procs[0]] + procs[1..];
    }
  }

  /** The process of `h` is one `ns.ps` reported at a visit of its server
      among the walk `servers`, whose first visit is visit `at`. */
  predicate ReportedAt(servers: seq<string>, ps: nat -> string -> seq<Proc>, at: nat, h: Hit)
  {
    exists j :: 0 <= j < |servers| && servers[j] == h.server && h.proc in ps(at + j)(h.server)
  }

  lemma ReportedLater(servers: seq<string>, ps: nat -> string -> seq<Proc>, at: nat, h: Hit)
    requires servers != [] && ReportedAt(servers[1..], ps, at + 1, h)
    ensures ReportedAt(servers, ps, at, h)
  {
    var j :| 0 <= j < |servers[1..]| && servers[1..][j] == h.server && h.proc in ps(at + 1 + j)(h.server);
    assert servers[j + 1] == h.server && at + (j + 1) == at + 1 + j;
  }

  /** Every pair `iterate` yields is selected, on a server of the walk,
      for a process `ns.ps` reported at a visit of that server: in
      particular never this script on home. */
  lemma {:induction false} IterateSound(servers: seq<string>, home: string, targetServer: string, targetScript: string,
                                        ps: nat -> string -> seq<Proc>, at: nat)
    ensures var y := IterateFrom(servers, home, targetServer, targetScript, ps, at);
      forall h :: h in y.hits ==> Selected(h, home, targetServer, targetScript) && ReportedAt(servers, ps, at, h)
  {
    if servers != [] {
      var y := IterateFrom(servers, home, targetServer, targetScript, ps, at);
      var rest := IterateFrom(servers[1..], home, targetServer, targetScript, ps, at + 1);
      IterateSound(servers[1..], home, targetServer, targetScript, ps, at + 1);
      MatchingProcsSpec(servers[0], home, ps(at)(servers[0]), targetScript);
      forall h | h in y.hits
        ensures Selected(h, home, targetServer, targetScript) && ReportedAt(servers, ps, at, h)
      {
        if h in rest.hits {
          ReportedLater(servers, ps, at, h);
        } else {
          assert servers[0] == h.server && h.proc in ps(at + 0)(h.server);
        }
      }
    }
  }

  /** When nothing throws, every selected pair is yielded: each process
      `ns.ps` reports at a visit of a matching server. */
  lemma {:induction false} IterateComplete(servers: seq<string>, home: string, targetServer: string, targetScript: string,
                                           ps: nat -> string -> seq<Proc>, at: nat)
    ensures var y := IterateFrom(servers, home, targetServer, targetScript, ps, at);
      y.error.None? ==>
        forall j, p ::
          0 <= j < |servers| && p in ps(at + j)(servers[j]) && Selected(Hit(servers[j], p), home, targetServer, targetScript)
          ==> Hit(servers[j], p) in y.hits
  {
    if servers != [] {
      var y := IterateFrom(servers, home, targetServer, targetScript, ps, at);
      var rest := IterateFrom(servers[1..], home, targetServer, targetScript, ps, at + 1);
      IterateComplete(servers[1..], home, targetServer, targetScript, ps, at + 1);
      MatchingProcsSpec(servers[0], home, ps(at)(servers[0]), targetScript);
      if y.error.None? {
        forall j, p | 0 <= j < |servers| && p in ps(at + j)(servers[j]) &&
            Selected(Hit(servers[j], p), home, targetServer, targetScript)
          ensures Hit(servers[j], p) in y.hits
        {
          if j > 0 {
            assert servers[1..][j - 1] == servers[j] && at + 1 + (j - 1) == at + j;
            assert Hit(servers[j], p) in rest.hits;
          } else {
            var procs := MatchingProcs(servers[0], home, ps(at)(servers[0]), targetScript).value;
            var k :| 0 <= k < |procs| && procs[k] == p;
            assert y.hits[k] == Hit(servers[0], p);
          }
        }
      }
    }
  }

  /** A walk at which `ns.ps` reports nothing yields nothing: so a pass
      after a kill that left no matching process finds none. */
  lemma {:induction false} IterateNothingRunning(servers: seq<string>, home: string, targetServer: string, targetScript: string,
                                                 ps: nat -> string -> seq<Proc>, at: nat)
    requires forall j :: 0 <= j < |servers| ==> ps(at + j)(servers[j]) == []
    ensures IterateFrom(servers, home, targetServer, targetScript, ps, at).hits == []
  {
    if servers != [] {
      assert ps(at + 0)(servers[0]) == [];
      forall j | 0 <= j < |servers[1..]|
        ensures ps(at + 1 + j)(servers[1..][j]) == []
      {
        assert at + 1 + j == at + (j + 1) && servers[1..][j] == servers[j + 1];
      }
      IterateNothingRunning(servers[1..], home, targetServer, targetScript, ps, at + 1);
      MatchingProcsSpec(servers[0], home, ps(at)(servers[0]), targetScript);
    }
  }

  /** `iterate` throws only for a pattern that does not compile, and then
      before it has yielded anything. */
  lemma {:induction false} IterateErrorFirst(servers: seq<string>, home: string, targetServer: string, targetScript: string,
                                             ps: nat -> string -> seq<Proc>, at: nat)
    ensures var y := IterateFrom(servers, home, targetServer, targetScript, ps, at);
      y.error.Some? ==> y.hits == [] && !(Compiles(targetServer) && Compiles(targetScript))
  {
    if servers != [] {
      IterateErrorFirst(servers[1..], home, targetServer, targetScript, ps, at + 1);
      CheckWildThrows(targetServer, servers[0]);
      MatchingProcsSpec(servers[0], home, ps(at)(servers[0]), targetScript);
      var r := MatchingProcs(servers[0], home, ps(at)(servers[0]), targetScript);
      if r.Ok? && r.value != [] {
        assert r.value[0] in r.value;
        CheckWildThrows(targetScript, r.value[0].filename);
      }
    }
  }

  // ---------------------------------------------------------------------
  // handleActions

  /** The options `getConfiguration` hands over: the patterns of the four
      modes (empty when not given) and the server pattern. */
  datatype Options = Options(l: string, k: string, r: string, f: string, s: string)

  /** With no mode given, list mode with pattern '*'. */
  function WithDefaults(o: Options): (r: Options)
    ensures r.l != "" || r.k != "" || r.r != "" || r.f != ""
    ensures r.k == o.k && r.r == o.r && r.f == o.f && r.s == o.s
    ensures r.l == o.l || (o.l == "" && o.k == "" && o.r == "" && o.f == "" && r.l == "*")
  {
    if o.l == "" && o.k == "" && o.r == "" && o.f == "" then o.(l := "*") else o
  }

  /** `options['s'] || ns.getHostname()`: an empty pattern falls back to
      the current host. */
  function TargetServer(o: Options, hostname: string): (r: string)
    ensures r == o.s || (o.s == "" && r == hostname)
    ensures r != "" || hostname == ""
  {
    if o.s != "" then o.s else hostname
  }

  /** The terminal line list mode prints for one pair (the closing brace
      is part of the template). */
  function ListLine(h: Hit): string
  {
    h.server + " pid=" + NatToString(h.proc.pid) + " t=" + NatToString(h.proc.threads) + " " +
    h.proc.filename + " " + Duration.Join(h.proc.args) + " " + (if h.proc.temporary then "(temporary)" else "") + "}"
  }

  function ListLines(hits: seq<Hit>): (r: seq<string>)
    ensures |r| == |hits| && forall i :: 0 <= i < |hits| ==> r[i] == ListLine(hits[i])
  {
    seq(|hits|, i requires 0 <= i < |hits| => ListLine(hits[i]))
  }

  /** `${verb} ${n} process(es) on ${m} server(s).` */
  function Summary(verb: string, n: nat, m: nat): string
  {
    verb + " " + NatToString(n) + " process" + Plural(n, "es") + " on " + NatToString(m) + " server" + Plural(m, "s") + "."
  }

  const NoMatch := "No matching processes found."

  /** How many of the first `n` calls succeeded. */
  function Successes(n: nat, ok: nat -> bool): (r: nat)
    ensures r <= n
    ensures r == n <==> forall i :: 0 <= i < n ==> ok(i)
  {
    if n == 0 then 0
    else Successes(n - 1, ok) + (if ok(n - 1) then 1 else 0)
  }

  /** The servers of the first `n` pairs whose call succeeded. */
  function ServersWhere(hits: seq<Hit>, n: nat, ok: nat -> bool): set<string>
    requires n <= |hits|
  {
    set i | 0 <= i < n && ok(i) :: hits[i].server
  }

  /** There are no more such servers than successful calls, and at least
      one when a call succeeded. */
  lemma {:induction false} ServersWhereBounds(hits: seq<Hit>, n: nat, ok: nat -> bool)
    requires n <= |hits|
    ensures |ServersWhere(hits, n, ok)| <= Successes(n, ok)
    ensures Successes(n, ok) > 0 ==> |ServersWhere(hits, n, ok)| > 0
  {
    if n > 0 {
      ServersWhereBounds(hits, n - 1, ok);
      var prev := ServersWhere(hits, n - 1, ok);
      if ok(n - 1) {
        assert ServersWhere(hits, n, ok) == prev + {hits[n - 1].server};
      } else {
        assert ServersWhere(hits, n, ok) == prev;
      }
    }
  }

  lemma ServersWhereStep(hits: seq<Hit>, n: nat, ok: nat -> bool)
    requires n < |hits|
    ensures ServersWhere(hits, n + 1, ok) == ServersWhere(hits, n, ok) + (if ok(n) then {hits[n].server} else {})
  {
  }

  lemma ListLinesStep(hits: seq<Hit>, n: nat)
    requires n < |hits|
    ensures ListLines(hits[..n + 1]) == ListLines(hits[..n]) + [ListLine(hits[n])]
  {
  }

  function Always(i: nat): bool { true }

  /** What list mode prints. As written its server count is the size of a
      set nothing is added to; `fixed` counts the servers of the pairs. */
  function ListReport(hits: seq<Hit>, fixed: bool): seq<string>
  {
    var servers := if fixed then ServersWhere(hits, |hits|, Always) else {};
    ListLines(hits) + [if |hits| > 0 then Summary("Total:", |hits|, |servers|) else NoMatch]
  }

  /** What kill mode prints when the `i`-th kill answers `ok(i)`. */
  function KillReport(hits: seq<Hit>, ok: nat -> bool): seq<string>
  {
    var n := Successes(|hits|, ok);
    [if n > 0 then Summary("Killed", n, |ServersWhere(hits, |hits|, ok)|) else NoMatch]
  }

  /** The position of the first pair whose kill or restart fails, or the
      number of pairs when none does. */
  function FirstFailure(n: nat, kill: nat -> bool, exec: nat -> nat): (k: nat)
    ensures k <= n
    ensures forall i :: 0 <= i < k ==> kill(i) && exec(i) != 0
    ensures k < n ==> !kill(k) || exec(k) == 0
  {
    if n == 0 then 0
    else
      var k := FirstFailure(n - 1, kill, exec);
      if k < n - 1 then k
      else if kill(n - 1) && exec(n - 1) != 0 then n
      else n - 1
  }

  /** What restart mode prints: nothing when it stops at a failure. */
  function RestartReport(hits: seq<Hit>, kill: nat -> bool, exec: nat -> nat): seq<string>
  {
    var k := FirstFailure(|hits|, kill, exec);
    if k < |hits| then []
    else [if k > 0 then Summary("Restarted", k, |ServersWhere(hits, k, Always)|) else NoMatch]
  }

  /** What tail mode prints. */
  function TailReport(hits: seq<Hit>): seq<string>
  {
    if |hits| > 0 then ["Opened " + NatToString(|hits|) + " tail window" + Plural(|hits|, "s") + "."] else []
  }

  /** The terminal lines of a run, the error it ends with, and whether a
      failed restart returned early. */
  datatype Report = Report(lines: seq<string>, error: Option<string>, stopped: bool)

  /** The world's answers: `ps(mode)(j)(server)` is what `ns.ps(server)`
      answers at visit `j` of the walk of a mode (`ListPass`, `KillPass`,
      `RestartPass`, `TailPass`), so what a kill or a restart changed shows
      in the later answers; then the answers to the successive `ns.kill`
      calls of kill mode and to the successive `ns.kill` and `ns.exec`
      calls of restart mode (0 is a failed exec). */
  datatype World = World(ps: nat -> nat -> string -> seq<Proc>, killOk: nat -> bool,
                         restartKill: nat -> bool, restartExec: nat -> nat)

  const ListPass: nat := 0
  const KillPass: nat := 1
  const RestartPass: nat := 2
  const TailPass: nat := 3

  /** One mode over what `iterate` yields, run when its pattern is given
      and the run has neither thrown nor returned: a throwing `iterate`
      ends the run. */
  function Step(prev: Report, pattern: string, y: Yield, lines: seq<string>, stops: bool): Report
  {
    if prev.error.Some? || prev.stopped || pattern == "" then prev
    else if y.error.Some? then Report(prev.lines, y.error, false)
    else Report(prev.lines + lines, None, stops)
  }

  /** The run up to restart mode: list mode, then kill mode. */
  function BeforeRestart(net: Network.Net, home: string, o: Options, w: World, fixed: bool): Report
    requires Network.Closed(net) && home in net.hosts
  {
    var o2 := WithDefaults(o);
    var ts := TargetServer(o2, home);
    var y1 := Iterate(net, home, ts, o2.l, w.ps(ListPass));
    var r1 := Step(Report([], None, false), o2.l, y1, ListReport(y1.hits, fixed), false);
    var y2 := Iterate(net, home, ts, o2.k, w.ps(KillPass));
    Step(r1, o2.k, y2, KillReport(y2.hits, w.killOk), false)
  }

  /** `handleActions(ns, options)`. */
  function Handle(net: Network.Net, home: string, o: Options, w: World, fixed: bool): Report
    requires Network.Closed(net) && home in net.hosts
  {
    var o2 := WithDefaults(o);
    var ts := TargetServer(o2, home);
    var r2 := BeforeRestart(net, home, o, w, fixed);
    var y3 := Iterate(net, home, ts, o2.r, w.ps(RestartPass));
    var r3 := Step(r2, o2.r, y3, RestartReport(y3.hits, w.restartKill, w.restartExec),
                   FirstFailure(|y3.hits|, w.restartKill, w.restartExec) < |y3.hits|);
    var y4 := Iterate(net, home, ts, o2.f, w.ps(TailPass));
    Step(r3, o2.f, y4, TailReport(y4.hits), false)
  }

  /** List mode's loop: print each pair and count it. */
  method ListMode(hits: seq<Hit>, fixed: bool) returns (lines: seq<string>, count: nat)
    ensures count == |hits|
    ensures lines == ListReport(hits, fixed)
  {
    lines := [];
    count := 0;
    var servers: set<string> := {};
    while count < |hits|
      invariant count <= |hits| && lines == ListLines(hits[..count])
      invariant servers == if fixed then ServersWhere(hits, count, Always) else {}
    {
      ListLinesStep(hits, count);
      lines := lines + [ListLine(hits[count])];
      ServersWhereStep(hits, count, Always);
      if fixed {
        servers := servers + {hits[count].server};
      }
      count := count + 1;
    }
    assert hits[..count] == hits;
    lines := lines + [if count > 0 then Summary("Total:", count, |servers|) else NoMatch];
  }

  /** Kill mode's loop: one `ns.kill` call per pair, in order; count the
      kills that succeed and their servers. */
  method KillMode(hits: seq<Hit>, ok: nat -> bool) returns (lines: seq<string>, count: nat, kills: seq<KillCall>)
    ensures count == Successes(|hits|, ok)
    ensures |kills| == |hits|
    ensures forall i :: 0 <= i < |hits| ==>
      kills[i] == KillOf(hits[i])
    ensures lines == KillReport(hits, ok)
  {
    count := 0;
    kills := [];
    var servers: set<string> := {};
    var i := 0;
    while i < |hits|
      invariant i <= |hits| && count == Successes(i, ok) && servers == ServersWhere(hits, i, ok)
      invariant |kills| == i
      invariant forall j :: 0 <= j < i ==>
        kills[j] == KillOf(hits[j])
    {
      kills := kills + [KillOf(hits[i])];
      ServersWhereStep(hits, i, ok);
      if ok(i) {
        count := count + 1;
        servers := servers + {hits[i].server};
      }
      i := i + 1;
    }
    assert count == Successes(|hits|, ok) && servers == ServersWhere(hits, |hits|, ok);
    lines := [if count > 0 then Summary("Killed", count, |servers|) else NoMatch];
  }

  /** Restart mode's loop: kill each pair and start it again with one
      thread and the same arguments, returning from the whole handler at
      the first failure. The kill of the failing pair is made, and its
      exec too when only the exec fails. */
  method RestartMode(hits: seq<Hit>, kill: nat -> bool, exec: nat -> nat)
      returns (lines: seq<string>, count: nat, aborted: bool, kills: seq<KillCall>, execs: seq<ExecCall>)
    ensures count == FirstFailure(|hits|, kill, exec)
    ensures aborted <==> count < |hits|
    ensures |kills| == (if count < |hits| then count + 1 else count)
    ensures forall i :: 0 <= i < |kills| ==>
      kills[i] == KillOf(hits[i])
    ensures |execs| == (if count < |hits| && kill(count) then count + 1 else count)
    ensures forall i :: 0 <= i < |execs| ==>
      execs[i] == RestartOf(hits[i])
    ensures lines == RestartReport(hits, kill, exec)
  {
    count := 0;
    kills, execs := [], [];
    var servers: set<string> := {};
    while count < |hits|
      invariant count <= FirstFailure(|hits|, kill, exec) && servers == ServersWhere(hits, count, Always)
      invariant |kills| == count && |execs| == count
      invariant forall i :: 0 <= i < count ==>
        kills[i] == KillOf(hits[i])
      invariant forall i :: 0 <= i < count ==>
        execs[i] == RestartOf(hits[i])
    {
      kills := kills + [KillOf(hits[count])];
      if !kill(count) {
        return [], count, true, kills, execs;
      }
      execs := execs + [RestartOf(hits[count])];
      var pid := exec(count);
      if pid == 0 {
        return [], count, true, kills, execs;
      }
      ServersWhereStep(hits, count, Always);
      servers := servers + {hits[count].server};
      count := count + 1;
    }
    aborted := false;
    lines := [if count > 0 then Summary("Restarted", count, |servers|) else NoMatch];
  }

  /** Tail mode's loop: one `ns.tail(filename, server, ...args)` call per
      pair, in the order `iterate` yields them. */
  method TailMode(hits: seq<Hit>) returns (lines: seq<string>, count: nat, tails: seq<TailCall>)
    ensures count == |hits|
    ensures |tails| == |hits|
    ensures forall i :: 0 <= i < |hits| ==>
      tails[i] == TailCall(hits[i].proc.filename, hits[i].server, hits[i].proc.args)
    ensures lines == TailReport(hits)
  {
    count := 0;
    tails := [];
    while count < |hits|
      invariant count <= |hits| && |tails| == count
      invariant forall i :: 0 <= i < count ==>
        tails[i] == TailCall(hits[i].proc.filename, hits[i].server, hits[i].proc.args)
    {
      tails := tails + [TailCall(hits[count].proc.filename, hits[count].server, hits[count].proc.args)];
      count := count + 1;
    }
    lines := if count > 0 then ["Opened " + NatToString(count) + " tail window" + Plural(count, "s") + "."] else [];
  }

  /** The first part of `handleActions(ns, options)`: list mode, then
      kill mode. */
  method ListAndKill(net: Network.Net, home: string, o: Options, w: World, fixed: bool) returns (r: Report)
    requires Network.Closed(net) && home in net.hosts
    ensures r == BeforeRestart(net, home, o, w, fixed)
  {
    var o2 := WithDefaults(o);
    var ts := TargetServer(o2, home);
    r := Report([], None, false);
    ghost var y1 := Iterate(net, home, ts, o2.l, w.ps(ListPass));
    if o2.l != "" {
      var y := Iterate(net, home, ts, o2.l, w.ps(ListPass));
      if y.error.Some? {
        return Report(r.lines, y.error, false);
      }
      var lines, _ := ListMode(y.hits, fixed);
      r := Report(r.lines + lines, None, false);
    }
    assert r == Step(Report([], None, false), o2.l, y1, ListReport(y1.hits, fixed), false);
    if o2.k != "" {
      var y := Iterate(net, home, ts, o2.k, w.ps(KillPass));
      if y.error.Some? {
        return Report(r.lines, y.error, false);
      }
      var lines, _, _ := KillMode(y.hits, w.killOk);
      r := Report(r.lines + lines, None, false);
    }
  }

  /** `handleActions(ns, options)`: the modes in the order list, kill,
      restart, tail. */
  method HandleActions(net: Network.Net, home: string, o: Options, w: World, fixed: bool) returns (r: Report)
    requires Network.Closed(net) && home in net.hosts
    ensures r == Handle(net, home, o, w, fixed)
  {
    var o2 := WithDefaults(o);
    var ts := TargetServer(o2, home);
    r := ListAndKill(net, home, o, w, fixed);
    if r.error.Some? {
      return;
    }
    if o2.r != "" {
      var y := Iterate(net, home, ts, o2.r, w.ps(RestartPass));
      if y.error.Some? {
        return Report(r.lines, y.error, false);
      }
      var lines, _, aborted, _, _ := RestartMode(y.hits, w.restartKill, w.restartExec);
      r := Report(r.lines + lines, None, aborted);
      if aborted {
        return;
      }
    }
    if o2.f != "" {
      var y := Iterate(net, home, ts, o2.f, w.ps(TailPass));
      if y.error.Some? {
        return Report(r.lines, y.error, false);
      }
      var lines, _, _ := TailMode(y.hits);
      r := Report(r.lines + lines, None, false);
    }
  }

  // ---------------------------------------------------------------------
  // Properties of handleActions

  /** With no mode given, `handleActions` lists every process (pattern
      '*') on the servers the server pattern, or else the current host,
      names. */
  lemma HandleDefaultLists(net: Network.Net, home: string, o: Options, w: World, fixed: bool)
    requires Network.Closed(net) && home in net.hosts
    requires o.l == "" && o.k == "" && o.r == "" && o.f == ""
    ensures var y := Iterate(net, home, if o.s != "" then o.s else home, "*", w.ps(ListPass));
      Handle(net, home, o, w, fixed) ==
        if y.error.Some? then Report([], y.error, false) else Report(ListReport(y.hits, fixed), None, false)
  {
    assert [] + ListReport(Iterate(net, home, if o.s != "" then o.s else home, "*", w.ps(ListPass)).hits, fixed)
        == ListReport(Iterate(net, home, if o.s != "" then o.s else home, "*", w.ps(ListPass)).hits, fixed);
  }

  /** A run ends with an error only when a pattern in use does not make a
      regular expression, and the mode that throws has not listed,
      killed, restarted or tailed anything. */
  lemma HandleErrorMeansBadPattern(net: Network.Net, home: string, o: Options, w: World, fixed: bool)
    requires Network.Closed(net) && home in net.hosts
    requires Compiles(TargetServer(WithDefaults(o), home))
    requires var o2 := WithDefaults(o);
      (o2.l == "" || Compiles(o2.l)) && (o2.k == "" || Compiles(o2.k)) &&
      (o2.r == "" || Compiles(o2.r)) && (o2.f == "" || Compiles(o2.f))
    ensures Handle(net, home, o, w, fixed).error.None?
  {
    var o2 := WithDefaults(o);
    var ts := TargetServer(o2, home);
    var servers := Network.Walk(net, home);
    IterateErrorFirst(servers, home, ts, o2.l, w.ps(ListPass), 0);
    IterateErrorFirst(servers, home, ts, o2.k, w.ps(KillPass), 0);
    IterateErrorFirst(servers, home, ts, o2.r, w.ps(RestartPass), 0);
    IterateErrorFirst(servers, home, ts, o2.f, w.ps(TailPass), 0);
  }

  /** List mode as written reports its pairs on 0 servers: the set it
      prints the size of is never added to. */
  lemma ListReportsNoServers(hits: seq<Hit>)
    requires |hits| > 0
    ensures ListReport(hits, false)[|hits|] == Summary("Total:", |hits|, 0)
  {
  }

  /** List mode with the servers counted: between one server and one per
      pair. */
  lemma ListReportCountsServers(hits: seq<Hit>)
    requires |hits| > 0
    ensures var m := |ServersWhere(hits, |hits|, Always)|;
      ListReport(hits, true)[|hits|] == Summary("Total:", |hits|, m) && 1 <= m <= |hits|
  {
    ServersWhereBounds(hits, |hits|, Always);
    assert Successes(|hits|, Always) == |hits|;
  }

  /** Kill mode reports the kills that succeeded, on at most that many
      servers and at least one; with no success it reports no match. */
  lemma KillReportCounts(hits: seq<Hit>, ok: nat -> bool)
    ensures var n := Successes(|hits|, ok);
      var m := |ServersWhere(hits, |hits|, ok)|;
      && n <= |hits|
      && (n > 0 ==> KillReport(hits, ok) == [Summary("Killed", n, m)] && 1 <= m <= n)
      && (n == 0 ==> KillReport(hits, ok) == [NoMatch])
  {
    ServersWhereBounds(hits, |hits|, ok);
  }

  /** With no restart pattern, a tail pass whose `ns.ps` answers are empty,
      as after a kill of everything it would match, adds no line to the
      run (`-k foo -f foo`): only a pattern that fails to compile can
      still end it with an error. */
  lemma TailAfterKillAddsNothing(net: Network.Net, home: string, o: Options, w: World, fixed: bool)
    requires Network.Closed(net) && home in net.hosts
    requires WithDefaults(o).r == ""
    requires forall j, s :: w.ps(TailPass)(j)(s) == []
    ensures Handle(net, home, o, w, fixed).lines == BeforeRestart(net, home, o, w, fixed).lines
  {
    var o2 := WithDefaults(o);
    var servers := Network.Walk(net, home);
    IterateNothingRunning(servers, home, TargetServer(o2, home), o2.f, w.ps(TailPass), 0);
    var b := BeforeRestart(net, home, o, w, fixed);
    assert b.lines + [] == b.lines;
  }

  /** A failed kill or restart in restart mode ends the whole handler:
      restart mode adds no line and tail mode does not run. */
  lemma RestartFailureStops(net: Network.Net, home: string, o: Options, w: World, fixed: bool)
    requires Network.Closed(net) && home in net.hosts
    requires var o2 := WithDefaults(o);
      var y := Iterate(net, home, TargetServer(o2, home), o2.r, w.ps(RestartPass));
      && BeforeRestart(net, home, o, w, fixed).error.None?
      && o2.r != "" && y.error.None? && FirstFailure(|y.hits|, w.restartKill, w.restartExec) < |y.hits|
    ensures Handle(net, home, o, w, fixed) == Report(BeforeRestart(net, home, o, w, fixed).lines, None, true)
  {
    var b := BeforeRestart(net, home, o, w, fixed);
    assert !b.stopped;
    assert b.lines + [] == b.lines;
  }
}
