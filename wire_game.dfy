/** The "Cut the wires" minigame (`wireCuttingGame` in
    infiltrator-service.js). The page shows hints such as "Cut wires number
    3." and "Cut all wires colored red."; the solver collects the hinted
    numbers and the columns of the wires of a hinted colour into an
    insertion-ordered set and types them.

    The two regular-expression scans of the hint text are inputs here: a
    scan is `None` when the text has no match at all (JavaScript's
    `String.prototype.match` then yields `null`), otherwise the matched
    strings in order. */
module WireGame {
  import opened Common

  /** One child of the wire panel: its text and its CSS colour. */
  datatype Wire = Wire(text: string, color: string)

  /** The colour-name table of the solver; names outside it map to
      `undefined`, written `None`. */
  function ColorOf(name: string): Option<string>
  {
    if name == "white" then Some("white")
    else if name == "blue" then Some("blue")
    else if name == "red" then Some("red")
    else if name == "yellow" then Some("rgb(255, 193, 7)")
    else None
  }

  function ColorHints(names: seq<string>): (r: seq<Option<string>>)
    ensures |r| == |names|
    ensures forall i :: 0 <= i < |names| ==> r[i] == ColorOf(names[i])
  {
    if names == [] then [] else [ColorOf(names[0])] + ColorHints(names[1..])
  }

  /** A header cell: its text is exactly one decimal digit. */
  predicate IsDigitText(t: string) { |t| == 1 && IsDigit(t[0]) }

  /** How many children are header cells: the number of wires. */
  function WireCount(children: seq<Wire>): (n: nat)
    ensures n <= |children|
  {
    if children == [] then 0
    else (if IsDigitText(children[0].text) then 1 else 0) + WireCount(children[1..])
  }

  /** `children.slice(wireCount, wireCount * 3)`: the first two rows. */
  function WireNodes(children: seq<Wire>): seq<Wire>
  {
    var wc := WireCount(children);
    children[wc..if 3 * wc <= |children| then 3 * wc else |children|]
  }

  /** The column labels `(i % wireCount) + 1` of the nodes whose colour is
      among the hints, in node order. */
  function Labels(colorHints: seq<Option<string>>, nodes: seq<Wire>, wc: nat): seq<string>
    requires wc > 0 || nodes == []
  {
    if nodes == [] then []
    else
      var i := |nodes| - 1;
      Labels(colorHints, nodes[..i], wc) +
        (if Some(nodes[i].color) in colorHints then [NatToString(i % wc + 1)] else [])
  }

  /** `set.add(x)` on a set kept as its insertion-ordered entries. */
  function Insert(acc: seq<string>, x: string): seq<string>
  {
    if x in acc then acc else acc + [x]
  }

  /** Adding every element of `xs`, in order. */
  function InsertAll(acc: seq<string>, xs: seq<string>): seq<string>
    decreases |xs|
  {
    if xs == [] then acc else InsertAll(Insert(acc, xs[0]), xs[1..])
  }

  /** The entries of the solution set, given the two scans as lists. */
  function Solution(colorNames: seq<string>, numberHints: seq<string>, children: seq<Wire>): seq<string>
  {
    var wc := WireCount(children);
    InsertAll([], numberHints + Labels(ColorHints(colorNames), WireNodes(children), wc))
  }

  // ---------------------------------------------------------------------
  // The solver

  /** Both loops of the solver once the scans have produced arrays. */
  method Build(colorNames: seq<string>, numberHints: seq<string>, children: seq<Wire>)
      returns (solution: seq<string>)
    ensures solution == Solution(colorNames, numberHints, children)
  {
    var colorHints := ColorHints(colorNames);
    solution := AddNumbers(numberHints);
    assert numberHints + Labels(colorHints, WireNodes(children)[..0], WireCount(children)) == numberHints;
    solution := AddColumns(solution, colorHints, numberHints, WireNodes(children), WireCount(children));
  }

  /** The first loop: every hinted number. */
  method AddNumbers(numberHints: seq<string>) returns (solution: seq<string>)
    ensures solution == InsertAll([], numberHints)
  {
    solution := [];
    var k := 0;
    while k < |numberHints|
      invariant 0 <= k <= |numberHints|
      invariant solution == InsertAll([], numberHints[..k])
    {
      InsertAllSnoc([], numberHints[..k], numberHints[k]);
      assert numberHints[..k + 1] == numberHints[..k] + [numberHints[k]];
      if numberHints[k] !in solution {
        solution := solution + [numberHints[k]];
      }
      k := k + 1;
    }
    assert numberHints[..k] == numberHints;
  }

  /** The second loop: the column of every node of a hinted colour. */
  method AddColumns(solution0: seq<string>, colorHints: seq<Option<string>>, numberHints: seq<string>,
                    wireNodes: seq<Wire>, wireCount: nat) returns (solution: seq<string>)
    requires wireCount > 0 || wireNodes == []
    requires solution0 == InsertAll([], numberHints)
    ensures solution == InsertAll([], numberHints + Labels(colorHints, wireNodes, wireCount))
  {
    solution := solution0;
    assert numberHints + Labels(colorHints, wireNodes[..0], wireCount) == numberHints;
    var i := 0;
    while i < |wireNodes|
      invariant 0 <= i <= |wireNodes|
      invariant solution == InsertAll([], numberHints + Labels(colorHints, wireNodes[..i], wireCount))
    {
      ghost var before := numberHints + Labels(colorHints, wireNodes[..i], wireCount);
      assert wireNodes[..i + 1][..i] == wireNodes[..i];
      if Some(wireNodes[i].color) in colorHints {
        var column := NatToString(i % wireCount + 1);
        InsertAllSnoc([], before, column);
        assert numberHints + Labels(colorHints, wireNodes[..i + 1], wireCount) == before + [column];
        if column !in solution {
          solution := solution + [column];
        }
      } else {
        assert numberHints + Labels(colorHints, wireNodes[..i + 1], wireCount) == before;
      }
      i := i + 1;
    }
    assert wireNodes[..i] == wireNodes;
  }

  /** The solver as written: a scan with no match leaves `null`, and
      calling `.map` or `.forEach` on it throws, so nothing is typed. */
  method Solve(colorMatches: Option<seq<string>>, numberMatches: Option<seq<string>>, children: seq<Wire>)
      returns (r: Result<seq<string>>)
    ensures colorMatches.None? || numberMatches.None? <==> r.Err?
    ensures r.Ok? ==> r.value == Solution(colorMatches.value, numberMatches.value, children)
  {
    if colorMatches.None? {
      return Err("TypeError: cannot read properties of null (reading 'map')");
    }
    if numberMatches.None? {
      return Err("TypeError: cannot read properties of null (reading 'forEach')");
    }
    var solution := Build(colorMatches.value, numberMatches.value, children);
    r := Ok(solution);
  }

  function OrEmpty(m: Option<seq<string>>): seq<string>
  {
    if m.Some? then m.value else []
  }

  /** The solver with a missing scan read as an empty list of hints. */
  method SolveFixed(colorMatches: Option<seq<string>>, numberMatches: Option<seq<string>>, children: seq<Wire>)
      returns (solution: seq<string>)
    ensures solution == Solution(OrEmpty(colorMatches), OrEmpty(numberMatches), children)
  {
    solution := Build(OrEmpty(colorMatches), OrEmpty(numberMatches), children);
  }

  // ---------------------------------------------------------------------
  // Properties of the insertion-ordered set

  lemma {:induction false} InsertAllSnoc(acc: seq<string>, xs: seq<string>, x: string)
    decreases |xs|
    ensures InsertAll(acc, xs + [x]) == Insert(InsertAll(acc, xs), x)
  {
    if xs == [] {
      assert [x][1..] == [];
    } else {
      assert (xs + [x])[1..] == xs[1..] + [x];
      InsertAllSnoc(Insert(acc, xs[0]), xs[1..], x);
    }
  }

  lemma {:induction false} InsertAllAppend(acc: seq<string>, xs: seq<string>, ys: seq<string>)
    decreases |xs|
    ensures InsertAll(acc, xs + ys) == InsertAll(InsertAll(acc, xs), ys)
  {
    if xs == [] {
      assert xs + ys == ys;
    } else {
      assert (xs + ys)[1..] == xs[1..] + ys;
      InsertAllAppend(Insert(acc, xs[0]), xs[1..], ys);
    }
  }

  /** The set never holds an entry twice. */
  lemma {:induction false} InsertAllNoDup(acc: seq<string>, xs: seq<string>)
    requires NoDup(acc)
    decreases |xs|
    ensures NoDup(InsertAll(acc, xs))
  {
    if xs != [] {
      InsertAllNoDup(Insert(acc, xs[0]), xs[1..]);
    }
  }

  /** An entry is in the set iff it was there or was added. */
  lemma {:induction false} InsertAllElems(acc: seq<string>, xs: seq<string>, x: string)
    decreases |xs|
    ensures x in InsertAll(acc, xs) <==> x in acc || x in xs
  {
    if xs != [] {
      InsertAllElems(Insert(acc, xs[0]), xs[1..], x);
      assert xs == [xs[0]] + xs[1..];
    }
  }

  /** Adding never reorders or drops what is already there. */
  lemma {:induction false} InsertAllPrefix(acc: seq<string>, xs: seq<string>)
    decreases |xs|
    ensures |acc| <= |InsertAll(acc, xs)| && InsertAll(acc, xs)[..|acc|] == acc
  {
    if xs != [] {
      var acc' := Insert(acc, xs[0]);
      InsertAllPrefix(acc', xs[1..]);
      assert InsertAll(acc, xs)[..|acc'|][..|acc|] == acc;
    }
  }

  /** Adding distinct fresh entries simply appends them. */
  lemma {:induction false} InsertAllFresh(acc: seq<string>, xs: seq<string>)
    requires NoDup(acc + xs)
    decreases |xs|
    ensures InsertAll(acc, xs) == acc + xs
  {
    if xs != [] {
      assert (acc + xs)[|acc|] == xs[0];
      assert xs[0] !in acc by {
        forall j | 0 <= j < |acc| ensures acc[j] != xs[0] {
          assert (acc + xs)[j] == acc[j];
        }
      }
      assert acc + xs == (acc + [xs[0]]) + xs[1..];
      InsertAllFresh(acc + [xs[0]], xs[1..]);
    }
  }

  /** Every column names a column between 1 and the number of wires. */
  lemma {:induction false} LabelsInRange(colorHints: seq<Option<string>>, nodes: seq<Wire>, wc: nat, s: string)
    requires wc > 0 || nodes == []
    requires s in Labels(colorHints, nodes, wc)
    ensures exists k :: 1 <= k <= wc && s == NatToString(k)
  {
    var i := |nodes| - 1;
    if s in Labels(colorHints, nodes[..i], wc) {
      LabelsInRange(colorHints, nodes[..i], wc, s);
    } else {
      assert s == NatToString(i % wc + 1);
    }
  }

  /** The solution: no duplicates; exactly the hinted numbers and the
      labels of the hinted-colour wires; and the hinted numbers first, in
      the order of their first appearance. */
  lemma SolutionFacts(colorNames: seq<string>, numberHints: seq<string>, children: seq<Wire>, x: string)
    ensures var sol := Solution(colorNames, numberHints, children);
      && NoDup(sol)
      && (x in sol <==>
            (x in numberHints || x in Labels(ColorHints(colorNames), WireNodes(children), WireCount(children))))
      && |InsertAll([], numberHints)| <= |sol|
      && sol[..|InsertAll([], numberHints)|] == InsertAll([], numberHints)
  {
    var ls := Labels(ColorHints(colorNames), WireNodes(children), WireCount(children));
    InsertAllNoDup([], numberHints + ls);
    InsertAllElems([], numberHints + ls, x);
    InsertAllAppend([], numberHints, ls);
    InsertAllPrefix(InsertAll([], numberHints), ls);
  }

  /** With distinct number hints the solution starts with exactly them. */
  lemma SolutionStartsWithNumbers(colorNames: seq<string>, numberHints: seq<string>, children: seq<Wire>)
    requires NoDup(numberHints)
    ensures var sol := Solution(colorNames, numberHints, children);
      |numberHints| <= |sol| && sol[..|numberHints|] == numberHints
  {
    assert [] + numberHints == numberHints;
    InsertAllFresh([], numberHints);
    SolutionFacts(colorNames, numberHints, children, "");
  }

  /** A panel with only a number hint: the solver as written types nothing,
      the corrected one types the hinted wire. */
  lemma OnlyNumberHints()
    ensures var children := [Wire("1", ""), Wire("2", ""), Wire("|", "red"), Wire("|", "blue")];
      Solution(OrEmpty(None), ["2"], children) == ["2"]
  {
    var children := [Wire("1", ""), Wire("2", ""), Wire("|", "red"), Wire("|", "blue")];
    assert WireCount(children) == 2 by {
      assert children[1..][1..][1..][1..] == [];
    }
    assert InsertAll([], ["2"]) == ["2"];
    assert ColorHints([]) == [];
    var nodes := WireNodes(children);
    assert Labels([], nodes[..1], 2) == [];
    assert Labels([], nodes, 2) == [];
  }
}
