/** The depth-first walk over the network (`ServerIterator`) that
    findps.js and tkill.js both carry a copy of. The copies agree except
    that tkill.js's iterator also calls an `onEach` callback, which the
    model records as a log. */
module Network {
  import opened Common

  /** The network as `ns.scan` reports it: every host's neighbour list,
      within a finite set of hosts. */
  datatype Net = Net(hosts: set<string>, scan: string -> seq<string>)

  /** Every neighbour of a host is a host. */
  ghost predicate Closed(net: Net)
  {
    forall h, y :: h in net.hosts && y in net.scan(h) ==> y in net.hosts
  }

  function Elems(s: seq<string>): set<string>
  {
    set x | x in s
  }

  /** `ns.scan(target).filter(host => !completed.includes(host))`. */
  function Unvisited(list: seq<string>, completed: seq<string>): (r: seq<string>)
    ensures forall y :: y in r <==> y in list && y !in completed
  {
    if list == [] then []
    else (if list[0] in completed then [] else [list[0]]) + Unvisited(list[1..], completed)
  }

  /** The hosts `scan(x)` yields when `completed` has been visited before:
      `x` itself, then the walk from each neighbour not yet visited when
      `x` was reached. `anc` are the hosts whose `scan` calls are still
      running; the walk never re-enters one of them, which bounds the
      recursion. */
  function WalkFrom(net: Net, x: string, anc: set<string>, completed: seq<string>): seq<string>
    requires Closed(net) && x in net.hosts && x !in anc && anc <= Elems(completed)
    decreases |net.hosts - anc|, 0
  {
    var done := completed + [x];
    Shrinks(net.hosts, anc, x);
    [x] + WalkList(net, Unvisited(net.scan(x), done), anc + {x}, done)
  }

  /** The walks from each host of `list` in turn, each starting where the
      previous one left `completed`. */
  function WalkList(net: Net, list: seq<string>, anc: set<string>, completed: seq<string>): seq<string>
    requires Closed(net) && anc <= Elems(completed)
    requires forall y :: y in list ==> y in net.hosts && y !in anc
    decreases |net.hosts - anc|, 1, |list|
  {
    if list == [] then []
    else
      var first := WalkFrom(net, list[0], anc, completed);
      first + WalkList(net, list[1..], anc, completed + first)
  }

  /** Entering one more host leaves fewer hosts to enter. */
  lemma Shrinks(hosts: set<string>, anc: set<string>, x: string)
    requires x in hosts && x !in anc
    ensures |hosts - (anc + {x})| < |hosts - anc|
  {
    assert hosts - anc == (hosts - (anc + {x})) + {x};
  }

  /** The whole walk from `home`. */
  function Walk(net: Net, home: string): seq<string>
    requires Closed(net) && home in net.hosts
  {
    WalkFrom(net, home, {}, [])
  }

  /** `ServerIterator`: the visited list the walk pushes to, and the hosts
      handed to the `onEach` callback (findps.js passes none, which is the
      same walk). */
  class ServerIterator {
    var completed: seq<string>
    var onEachCalls: seq<string>

    constructor ()
      ensures completed == [] && onEachCalls == []
    {
      completed := [];
      onEachCalls := [];
    }

    /** `getIterator(home)`, run to the end: the hosts in the order they
        are yielded. */
    method GetIterator(net: Net, home: string) returns (out: seq<string>)
      requires Closed(net) && home in net.hosts && completed == []
      modifies this
      ensures out == Walk(net, home) && completed == out
      ensures onEachCalls == old(onEachCalls) + out
    {
      out := Scan(net, home, {});
    }

    /** One call of the inner generator `scan(target)`: call `onEach`,
        push, yield, then walk the neighbours not yet visited. */
    method Scan(net: Net, target: string, ghost anc: set<string>) returns (out: seq<string>)
      requires Closed(net) && target in net.hosts && target !in anc && anc <= Elems(completed)
      modifies this
      ensures out == WalkFrom(net, target, anc, old(completed))
      ensures completed == old(completed) + out
      ensures onEachCalls == old(onEachCalls) + out
      decreases |net.hosts - anc|, 0
    {
      ghost var c0 := completed;
      onEachCalls := onEachCalls + [target];
      completed := completed + [target];
      var next := Unvisited(net.scan(target), completed);
      Shrinks(net.hosts, anc, target);
      assert WalkFrom(net, target, anc, c0) == [target] + WalkList(net, next, anc + {target}, c0 + [target]);
      var rest := ScanEach(net, next, anc + {target});
      out := [target] + rest;
      Regroup(c0, [target], rest);
      Regroup(old(onEachCalls), [target], rest);
    }

    /** `for (const nt of nextTargets) yield * scan(nt)`. */
    method ScanEach(net: Net, list: seq<string>, ghost anc: set<string>) returns (out: seq<string>)
      requires Closed(net) && anc <= Elems(completed)
      requires forall y :: y in list ==> y in net.hosts && y !in anc
      modifies this
      ensures out == WalkList(net, list, anc, old(completed))
      ensures completed == old(completed) + out
      ensures onEachCalls == old(onEachCalls) + out
      decreases |net.hosts - anc|, 1, |list|
    {
      out := [];
      var i := 0;
      while i < |list|
        invariant i <= |list| && completed == old(completed) + out && onEachCalls == old(onEachCalls) + out
        invariant anc <= Elems(completed)
        invariant WalkList(net, list, anc, old(completed)) == out + WalkList(net, list[i..], anc, completed)
      {
        assert list[i..][1..] == list[i + 1..];
        var first := Scan(net, list[i], anc);
        Regroup(old(completed), out, first);
        Regroup(old(onEachCalls), out, first);
        out := out + first;
        i := i + 1;
      }
    }
  }

  // ---------------------------------------------------------------------
  // Properties of the walk

  /** The walk starts at the host it is given and stays on the network. */
  lemma {:induction false} WalkFromShape(net: Net, x: string, anc: set<string>, completed: seq<string>)
    requires Closed(net) && x in net.hosts && x !in anc && anc <= Elems(completed)
    ensures var out := WalkFrom(net, x, anc, completed);
      |out| > 0 && out[0] == x && forall h :: h in out ==> h in net.hosts
    decreases |net.hosts - anc|, 0
  {
    var done := completed + [x];
    Shrinks(net.hosts, anc, x);
    WalkListInHosts(net, Unvisited(net.scan(x), done), anc + {x}, done);
  }

  lemma {:induction false} WalkListInHosts(net: Net, list: seq<string>, anc: set<string>, completed: seq<string>)
    requires Closed(net) && anc <= Elems(completed)
    requires forall y :: y in list ==> y in net.hosts && y !in anc
    ensures forall h :: h in WalkList(net, list, anc, completed) ==> h in net.hosts
    decreases |net.hosts - anc|, 1, |list|
  {
    if list != [] {
      var first := WalkFrom(net, list[0], anc, completed);
      WalkFromShape(net, list[0], anc, completed);
      WalkListInHosts(net, list[1..], anc, completed + first);
    }
  }

  /** Nothing is missed: every neighbour of a host the walk yields has been
      visited by the time the walk ends, so the walk from home reaches
      every host connected to it. */
  lemma {:induction false} WalkFromCloses(net: Net, x: string, anc: set<string>, completed: seq<string>)
    requires Closed(net) && x in net.hosts && x !in anc && anc <= Elems(completed)
    ensures var out := WalkFrom(net, x, anc, completed);
      forall h, y :: h in out && y in net.scan(h) ==> y in completed || y in out
    decreases |net.hosts - anc|, 0
  {
    var done := completed + [x];
    var next := Unvisited(net.scan(x), done);
    Shrinks(net.hosts, anc, x);
    var rest := WalkList(net, next, anc + {x}, done);
    WalkListCloses(net, next, anc + {x}, done);
    var out := WalkFrom(net, x, anc, completed);
    assert out == [x] + rest;
    forall h, y | h in out && y in net.scan(h)
      ensures y in completed || y in out
    {
      if h == x {
        if y !in done {
          assert y in next;
        }
      } else {
        assert h in rest;
      }
    }
  }

  lemma {:induction false} WalkListCloses(net: Net, list: seq<string>, anc: set<string>, completed: seq<string>)
    requires Closed(net) && anc <= Elems(completed)
    requires forall y :: y in list ==> y in net.hosts && y !in anc
    ensures var out := WalkList(net, list, anc, completed);
      && (forall y :: y in list ==> y in completed || y in out)
      && (forall h, y :: h in out && y in net.scan(h) ==> y in completed || y in out)
    decreases |net.hosts - anc|, 1, |list|
  {
    if list != [] {
      var first := WalkFrom(net, list[0], anc, completed);
      var rest := WalkList(net, list[1..], anc, completed + first);
      var out := first + rest;
      WalkFromShape(net, list[0], anc, completed);
      WalkFromCloses(net, list[0], anc, completed);
      WalkListCloses(net, list[1..], anc, completed + first);
      forall y | y in list
        ensures y in completed || y in out
      {
        if y == list[0] {
          assert out[0] == y;
        } else {
          assert y in list[1..];
        }
      }
      forall h, y | h in out && y in net.scan(h)
        ensures y in completed || y in out
      {
        if h in first {
          assert y in completed || y in first;
        } else {
          assert h in rest;
          assert y in completed + first || y in rest;
        }
      }
    }
  }

  /** For each host after the first, the position of a host yielded before
      it that lists it as a neighbour. */
  lemma {:induction false} WalkFromParents(net: Net, x: string, anc: set<string>, completed: seq<string>)
    returns (par: seq<nat>)
    requires Closed(net) && x in net.hosts && x !in anc && anc <= Elems(completed)
    ensures var out := WalkFrom(net, x, anc, completed);
      |par| == |out| && forall j :: 0 < j < |out| ==> par[j] < j && out[j] in net.scan(out[par[j]])
    decreases |net.hosts - anc|, 0
  {
    var done := completed + [x];
    var next := Unvisited(net.scan(x), done);
    Shrinks(net.hosts, anc, x);
    var rest := WalkList(net, next, anc + {x}, done);
    var rp := WalkListParents(net, next, anc + {x}, done, x);
    par := [0] + rp;
  }

  /** The same for a list of walks whose hosts are neighbours of `parent`,
      with positions counted in `[parent] + out`. */
  lemma {:induction false} WalkListParents(net: Net, list: seq<string>, anc: set<string>, completed: seq<string>,
                                           parent: string) returns (par: seq<nat>)
    requires Closed(net) && anc <= Elems(completed)
    requires forall y :: y in list ==> y in net.hosts && y !in anc && y in net.scan(parent)
    ensures var out := WalkList(net, list, anc, completed);
      |par| == |out| && forall j :: 0 <= j < |out| ==> par[j] <= j && out[j] in net.scan(([parent] + out)[par[j]])
    decreases |net.hosts - anc|, 1, |list|
  {
    if list == [] {
      par := [];
    } else {
      var first := WalkFrom(net, list[0], anc, completed);
      var rest := WalkList(net, list[1..], anc, completed + first);
      WalkFromShape(net, list[0], anc, completed);
      var fp := WalkFromParents(net, list[0], anc, completed);
      var rp := WalkListParents(net, list[1..], anc, completed + first, parent);
      par := JoinParents(net.scan, parent, first, rest, fp, rp);
    }
  }

  /** Parent positions for `first + rest` from those of `first` (within
      `first`) and of `rest` (within `[parent] + rest`). */
  lemma JoinParents(scan: string -> seq<string>, parent: string, first: seq<string>, rest: seq<string>,
                    fp: seq<nat>, rp: seq<nat>) returns (par: seq<nat>)
    requires |first| > 0 && first[0] in scan(parent)
    requires |fp| == |first| && forall j :: 0 < j < |first| ==> fp[j] < j && first[j] in scan(first[fp[j]])
    requires |rp| == |rest| && forall j :: 0 <= j < |rest| ==> rp[j] <= j && rest[j] in scan(([parent] + rest)[rp[j]])
    ensures var out := first + rest;
      |par| == |out| && forall j :: 0 <= j < |out| ==> par[j] <= j && out[j] in scan(([parent] + out)[par[j]])
  {
    var out := first + rest;
    par := seq(|out|, j requires 0 <= j < |out| => JoinedParent(fp, rp, j));
    forall j | 0 <= j < |out|
      ensures par[j] <= j && out[j] in scan(([parent] + out)[par[j]])
    {
      JoinedParentAt(scan, parent, first, rest, fp, rp, j);
    }
  }

  /** The parent position of the `j`-th host of `first + rest`. */
  function JoinedParent(fp: seq<nat>, rp: seq<nat>, j: nat): nat
    requires j < |fp| + |rp|
  {
    var m := |fp|;
    if j == 0 then 0
    else if j < m then fp[j] + 1
    else if rp[j - m] == 0 then 0
    else rp[j - m] + m
  }

  lemma JoinedParentAt(scan: string -> seq<string>, parent: string, first: seq<string>, rest: seq<string>,
                       fp: seq<nat>, rp: seq<nat>, j: nat)
    requires |first| > 0 && first[0] in scan(parent) && |fp| == |first| && |rp| == |rest|
    requires 0 < j < |first| ==> fp[j] < j && first[j] in scan(first[fp[j]])
    requires |first| <= j < |first| + |rest| ==>
      rp[j - |first|] <= j - |first| && rest[j - |first|] in scan(([parent] + rest)[rp[j - |first|]])
    requires j < |first| + |rest|
    ensures var out := first + rest;
      JoinedParent(fp, rp, j) <= j && out[j] in scan(([parent] + out)[JoinedParent(fp, rp, j)])
  {
    var out := first + rest;
    var m := |first|;
    if j == 0 {
      assert out[0] == first[0];
    } else if j < m {
      assert out[j] == first[j] && ([parent] + out)[fp[j] + 1] == first[fp[j]];
    } else if rp[j - m] == 0 {
      assert out[j] == rest[j - m];
    } else {
      assert out[j] == rest[j - m] && ([parent] + out)[rp[j - m] + m] == rest[rp[j - m] - 1];
    }
  }

  /** Pre-order: every host after the first is a neighbour of a host
      yielded before it (its parent in the walk). */
  lemma WalkPreorder(net: Net, home: string)
    requires Closed(net) && home in net.hosts
    ensures var out := Walk(net, home);
      |out| > 0 && out[0] == home &&
      forall j :: 0 < j < |out| ==> exists i :: 0 <= i < j && out[j] in net.scan(out[i])
  {
    var out := Walk(net, home);
    WalkFromShape(net, home, {}, []);
    var par := WalkFromParents(net, home, {}, []);
    forall j | 0 < j < |out|
      ensures exists i :: 0 <= i < j && out[j] in net.scan(out[i])
    {
      assert par[j] < j && out[j] in net.scan(out[par[j]]);
    }
  }
  /** Nothing is missed from home: every neighbour of every host the walk
      yields is yielded too. */
  lemma WalkReachesAll(net: Net, home: string)
    requires Closed(net) && home in net.hosts
    ensures var out := Walk(net, home);
      forall h, y :: h in out && y in net.scan(h) ==> y in out
  {
    WalkFromCloses(net, home, {}, []);
  }

  // ---------------------------------------------------------------------
  // A network with a cycle

  /** A host visited before `scan(x)` starts is not yielded by it again,
      unless it is `x`. */
  lemma {:induction false} WalkFromAvoids(net: Net, x: string, anc: set<string>, completed: seq<string>, y: string)
    requires Closed(net) && x in net.hosts && x !in anc && anc <= Elems(completed)
    requires y in completed && y != x
    ensures y !in WalkFrom(net, x, anc, completed)
    decreases |net.hosts - anc|, 0
  {
    var done := completed + [x];
    Shrinks(net.hosts, anc, x);
    WalkListAvoids(net, Unvisited(net.scan(x), done), anc + {x}, done, y);
  }

  /** The same for the walks from a list of neighbours that does not hold
      the host. */
  lemma {:induction false} WalkListAvoids(net: Net, list: seq<string>, anc: set<string>, completed: seq<string>, y: string)
    requires Closed(net) && anc <= Elems(completed)
    requires forall z :: z in list ==> z in net.hosts && z !in anc
    requires y in completed && y !in list
    ensures y !in WalkList(net, list, anc, completed)
    decreases |net.hosts - anc|, 1, |list|
  {
    if list != [] {
      var first := WalkFrom(net, list[0], anc, completed);
      WalkFromAvoids(net, list[0], anc, completed, y);
      WalkListAvoids(net, list[1..], anc, completed + first, y);
    }
  }

  /** The walk yields `home` first and never again. */
  lemma HomeOnce(net: Net, home: string)
    requires Closed(net) && home in net.hosts
    ensures |Walk(net, home)| >= 1 && Walk(net, home)[0] == home && home !in Walk(net, home)[1..]
  {
    var done: seq<string> := [] + [home];
    var rest := WalkList(net, Unvisited(net.scan(home), done), {} + {home}, done);
    assert Walk(net, home) == [home] + rest;
    WalkListAvoids(net, Unvisited(net.scan(home), done), {} + {home}, done, home);
    assert Walk(net, home)[1..] == rest;
  }

  /** Three hosts that all see each other. */
  function Triangle(): Net
  {
    Net({"h", "a", "b"}, x => if x == "h" then ["a", "b"] else if x == "a" then ["h", "b"] else if x == "b" then ["h", "a"] else [])
  }

  lemma TriangleClosed()
    ensures Closed(Triangle())
  {
  }

  lemma UnvisitedPair(x: string, y: string, completed: seq<string>)
    ensures Unvisited([x, y], completed) ==
      (if x in completed then [] else [x]) + (if y in completed then [] else [y])
  {
    assert [x, y][1..] == [y];
    assert [y][1..] == [];
    var b := if y in completed then [] else [y];
    assert Unvisited([y], completed) == b + [];
    assert b + [] == b;
  }

  lemma LeafB(anc: set<string>, completed: seq<string>)
    requires anc <= Elems(completed) && "b" !in anc && "h" in completed && "a" in completed
    ensures Closed(Triangle()) && WalkFrom(Triangle(), "b", anc, completed) == ["b"]
  {
    TriangleClosed();
    var net := Triangle();
    assert net.scan("b") == ["h", "a"];
    UnvisitedPair("h", "a", completed + ["b"]);
  }

  lemma FromA()
    ensures Closed(Triangle()) && WalkFrom(Triangle(), "a", {"h"}, ["h"]) == ["a", "b"]
  {
    TriangleClosed();
    var net := Triangle();
    assert net.scan("a") == ["h", "b"];
    assert ["h"] + ["a"] == ["h", "a"];
    assert {"h"} + {"a"} == {"h", "a"};
    UnvisitedPair("h", "b", ["h", "a"]);
    assert "h" in ["h", "a"];
    assert "b"[0] != "h"[0] && "b"[0] != "a"[0];
    assert "b" !in ["h", "a"];
    assert [] + ["b"] == ["b"];
    assert Unvisited(net.scan("a"), ["h", "a"]) == ["b"];
    LeafB({"h", "a"}, ["h", "a"]);
    var rest := WalkList(net, ["b"], {"h", "a"}, ["h", "a"]);
    assert ["b"][1..] == [];
    assert rest == ["b"] + [];
  }

  lemma BelowH()
    ensures Closed(Triangle())
    ensures WalkList(Triangle(), ["a", "b"], {"h"}, ["h"]) == ["a", "b", "b"]
  {
    TriangleClosed();
    var net := Triangle();
    FromA();
    LeafB({"h"}, ["h", "a", "b"]);
    assert ["h"] + ["a", "b"] == ["h", "a", "b"];
    var second := WalkList(net, ["b"], {"h"}, ["h", "a", "b"]);
    assert ["b"][1..] == [];
    assert second == ["b"] + [];
    assert ["a", "b"][1..] == ["b"];
  }

  /** With a cycle the walk yields a host twice: `b` is still unvisited
      when `home`'s neighbour list is filtered, is then reached through
      `a`, and is walked again when the loop over `home`'s list gets to
      it. */
  lemma TriangleYieldsTwice()
    ensures Closed(Triangle()) && "h" in Triangle().hosts
    ensures Walk(Triangle(), "h") == ["h", "a", "b", "b"]
  {
    TriangleClosed();
    var net := Triangle();
    assert net.scan("h") == ["a", "b"];
    assert [] + ["h"] == ["h"];
    assert {} + {"h"} == {"h"};
    UnvisitedPair("a", "b", ["h"]);
    assert "a"[0] != "h"[0] && "b"[0] != "h"[0];
    assert "a" !in ["h"] && "b" !in ["h"];
    assert Unvisited(net.scan("h"), ["h"]) == ["a", "b"];
    BelowH();
  }
}
