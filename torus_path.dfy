/** Keystroke routes for the Cyberpunk2077 and Minesweeper minigames
    (`getPathSingle` / `getPathSequential` in infiltrator-service.js).

    The cursor moves on a grid that wraps around in both directions: 'd'
    and 'a' move right and left, 's' and 'w' move down and up. A route
    between two points first makes all of its horizontal moves, then all of
    its vertical ones, and on each axis goes the short way round the torus
    by shoving one of the two points past the edge of the grid. The source
    does that shove IN PLACE on the arrays holding the points. */
module TorusPath {
  import opened Common

  datatype Pt = Pt(x: int, y: int)

  // ---------------------------------------------------------------------
  // Specification on values

  /** The wrap adjustment on one axis: when the points are more than half
      the axis apart, the smaller one is moved one full size forward, so
      that the direct route between them is the short way round. */
  function AdjustAxis(size: int, s: int, e: int): (int, int)
  {
    if 2 * (if s - e < 0 then e - s else s - e) > size then
      (if s < e then (s + size, e) else (s, e + size))
    else (s, e)
  }

  /** Both axes adjusted: the new start point and the new end point. */
  function Adjust(sizeX: int, sizeY: int, s: Pt, e: Pt): (Pt, Pt)
  {
    var (sx, ex) := AdjustAxis(sizeX, s.x, e.x);
    var (sy, ey) := AdjustAxis(sizeY, s.y, e.y);
    (Pt(sx, sy), Pt(ex, ey))
  }

  /** The moves on one axis between two already-adjusted coordinates. */
  function AxisMoves(s: int, e: int, forward: char, backward: char): string
  {
    if s < e then Repeat(forward, e - s) else Repeat(backward, s - e)
  }

  /** The keystrokes from adjusted point `s` to adjusted point `e`. */
  function Moves(s: Pt, e: Pt): string
  {
    AxisMoves(s.x, e.x, 'd', 'a') + AxisMoves(s.y, e.y, 's', 'w')
  }

  /** What `getPathSingle` returns for the original coordinates. */
  function SinglePath(sizeX: int, sizeY: int, s: Pt, e: Pt): string
  {
    var (s', e') := Adjust(sizeX, sizeY, s, e);
    Moves(s', e')
  }

  /** The route from `cur` through every point of `pts`, in order; each
      segment starts at the end point of the previous segment as the
      previous call left it (possibly shifted). */
  function SequentialFrom(sizeX: int, sizeY: int, cur: Pt, pts: seq<Pt>): seq<string>
    decreases |pts|
  {
    if pts == [] then []
    else
      var (s', e') := Adjust(sizeX, sizeY, cur, pts[0]);
      [Moves(s', e')] + SequentialFrom(sizeX, sizeY, e', pts[1..])
  }

  /** Where the last point of `pts` stands once the route through them has
      been computed (it may have been shifted as an end point). */
  function LastAfter(sizeX: int, sizeY: int, cur: Pt, pts: seq<Pt>): Pt
    decreases |pts|
  {
    if pts == [] then cur
    else LastAfter(sizeX, sizeY, Adjust(sizeX, sizeY, cur, pts[0]).1, pts[1..])
  }

  /** Where `cur` and every point of `pts` stand once the route through
      them has been computed: each point but the last ends as the start
      point of the call that routes away from it, after being shifted as
      the end point of the call before; the last keeps its shift as an
      end point. */
  function FinalPoints(sizeX: int, sizeY: int, cur: Pt, pts: seq<Pt>): seq<Pt>
    decreases |pts|
  {
    if pts == [] then [cur]
    else
      var (s', e') := Adjust(sizeX, sizeY, cur, pts[0]);
      [s'] + FinalPoints(sizeX, sizeY, e', pts[1..])
  }

  /** A point array can end two sizes from where it started: on a grid of
      10, from x 20 to x 0 the end point is pushed to 10, and from there to
      x 30 it is pushed again, now as the start, to 20. */
  lemma TwoSizeShift()
    ensures FinalPoints(10, 10, Pt(20, 0), [Pt(0, 0), Pt(30, 0)])[1] == Pt(0 + 2 * 10, 0)
  {
  }

  // ---------------------------------------------------------------------
  // Properties of a single route

  predicate IsX(c: char) { c == 'd' || c == 'a' }
  predicate IsY(c: char) { c == 's' || c == 'w' }

  /** A run of one horizontal key followed by a run of one vertical key. */
  predicate RunShape(p: string)
  {
    && (forall i :: 0 <= i < |p| ==> IsX(p[i]) || IsY(p[i]))
    && (forall i, j :: 0 <= i < j < |p| && IsY(p[i]) ==> IsY(p[j]))
    && (forall i, j :: 0 <= i < |p| && 0 <= j < |p| && IsX(p[i]) && IsX(p[j]) ==> p[i] == p[j])
    && (forall i, j :: 0 <= i < |p| && 0 <= j < |p| && IsY(p[i]) && IsY(p[j]) ==> p[i] == p[j])
  }

  /** Net horizontal and vertical displacement of a key sequence. */
  function DispX(p: string): int { Count(p, 'd') - Count(p, 'a') }
  function DispY(p: string): int { Count(p, 's') - Count(p, 'w') }

  lemma SinglePathShape(sizeX: int, sizeY: int, s: Pt, e: Pt)
    ensures RunShape(SinglePath(sizeX, sizeY, s, e))
  {
    var (s', e') := Adjust(sizeX, sizeY, s, e);
    var a := AxisMoves(s'.x, e'.x, 'd', 'a');
    var b := AxisMoves(s'.y, e'.y, 's', 'w');
    var p := a + b;
    assert p == SinglePath(sizeX, sizeY, s, e);
    assert forall i :: 0 <= i < |a| ==> p[i] == a[i] && IsX(p[i]);
    assert forall i :: |a| <= i < |p| ==> p[i] == b[i - |a|] && IsY(p[i]);
  }

  lemma AxisMovesCount(s: int, e: int, f: char, b: char, x: char)
    requires f != b
    ensures Count(AxisMoves(s, e, f, b), x) ==
      (if x == f && s < e then e - s else if x == b && s >= e then s - e else 0)
  {
    if s < e { CountRepeat(f, e - s, x); } else { CountRepeat(b, s - e, x); }
  }

  /** The keystrokes move the cursor exactly from `s` to `e`. */
  lemma MovesDisplacement(s: Pt, e: Pt)
    ensures DispX(Moves(s, e)) == e.x - s.x
    ensures DispY(Moves(s, e)) == e.y - s.y
    ensures Count(Moves(s, e), 'd') + Count(Moves(s, e), 'a') == (if s.x < e.x then e.x - s.x else s.x - e.x)
  {
    var a := AxisMoves(s.x, e.x, 'd', 'a');
    var b := AxisMoves(s.y, e.y, 's', 'w');
    forall c | c in "dasw" ensures Count(a + b, c) == Count(a, c) + Count(b, c) {
      CountAppend(a, b, c);
    }
    AxisMovesCount(s.x, e.x, 'd', 'a', 'd');
    AxisMovesCount(s.x, e.x, 'd', 'a', 'a');
    AxisMovesCount(s.x, e.x, 'd', 'a', 's');
    AxisMovesCount(s.x, e.x, 'd', 'a', 'w');
    AxisMovesCount(s.y, e.y, 's', 'w', 'd');
    AxisMovesCount(s.y, e.y, 's', 'w', 'a');
    AxisMovesCount(s.y, e.y, 's', 'w', 's');
    AxisMovesCount(s.y, e.y, 's', 'w', 'w');
  }

  /** The adjustment moves each coordinate by a whole size or not at all,
      and changes the difference between the points by at most one size. */
  lemma AdjustAxisFacts(size: int, s: int, e: int)
    ensures var (s', e') := AdjustAxis(size, s, e);
      && (s' == s || s' == s + size) && (e' == e || e' == e + size)
      && (e' - s' == e - s || e' - s' == e - s - size || e' - s' == e - s + size)
  {
  }

  /** Following the route from `s` on a sizeX by sizeY torus ends at `e`. */
  lemma SinglePathReaches(sizeX: int, sizeY: int, s: Pt, e: Pt)
    requires sizeX > 0 && sizeY > 0
    ensures (DispX(SinglePath(sizeX, sizeY, s, e)) - (e.x - s.x)) % sizeX == 0
    ensures (DispY(SinglePath(sizeX, sizeY, s, e)) - (e.y - s.y)) % sizeY == 0
  {
    var (s', e') := Adjust(sizeX, sizeY, s, e);
    MovesDisplacement(s', e');
    AdjustAxisFacts(sizeX, s.x, e.x);
    AdjustAxisFacts(sizeY, s.y, e.y);
    ModSmall(DispX(SinglePath(sizeX, sizeY, s, e)) - (e.x - s.x), sizeX);
    ModSmall(DispY(SinglePath(sizeX, sizeY, s, e)) - (e.y - s.y), sizeY);
  }

  /** On an axis where both points lie inside the grid, the route goes the
      short way round: at most half the size in moves. */
  lemma SinglePathShort(sizeX: int, sizeY: int, s: Pt, e: Pt)
    ensures 0 <= s.x < sizeX && 0 <= e.x < sizeX ==>
      Count(SinglePath(sizeX, sizeY, s, e), 'd') + Count(SinglePath(sizeX, sizeY, s, e), 'a') <= sizeX / 2
    ensures 0 <= s.y < sizeY && 0 <= e.y < sizeY ==>
      Count(SinglePath(sizeX, sizeY, s, e), 's') + Count(SinglePath(sizeX, sizeY, s, e), 'w') <= sizeY / 2
  {
    var (s', e') := Adjust(sizeX, sizeY, s, e);
    MovesDisplacement(s', e');
    var p := Moves(s', e');
    assert Count(p, 's') + Count(p, 'w') == (if s'.y < e'.y then e'.y - s'.y else s'.y - e'.y) by {
      MovesDisplacementY(s', e');
    }
  }

  lemma MovesDisplacementY(s: Pt, e: Pt)
    ensures Count(Moves(s, e), 's') + Count(Moves(s, e), 'w') == (if s.y < e.y then e.y - s.y else s.y - e.y)
  {
    var a := AxisMoves(s.x, e.x, 'd', 'a');
    var b := AxisMoves(s.y, e.y, 's', 'w');
    CountAppend(a, b, 's');
    CountAppend(a, b, 'w');
    AxisMovesCount(s.x, e.x, 'd', 'a', 's');
    AxisMovesCount(s.x, e.x, 'd', 'a', 'w');
    AxisMovesCount(s.y, e.y, 's', 'w', 's');
    AxisMovesCount(s.y, e.y, 's', 'w', 'w');
  }

  // ---------------------------------------------------------------------
  // Properties of a whole route

  lemma {:induction false} SequentialLength(sizeX: int, sizeY: int, cur: Pt, pts: seq<Pt>)
    decreases |pts|
    ensures |SequentialFrom(sizeX, sizeY, cur, pts)| == |pts|
  {
    if pts != [] {
      SequentialLength(sizeX, sizeY, Adjust(sizeX, sizeY, cur, pts[0]).1, pts[1..]);
    }
  }

  /** Segment `i` of the route is the single path from the (possibly shifted)
      end of segment `i - 1` to point `i`. */
  lemma {:induction false} SequentialAt(sizeX: int, sizeY: int, cur: Pt, pts: seq<Pt>, i: nat)
    decreases |pts|
    requires i < |pts|
    ensures |SequentialFrom(sizeX, sizeY, cur, pts)| == |pts|
    ensures SequentialFrom(sizeX, sizeY, cur, pts)[i] ==
      SinglePath(sizeX, sizeY, LastAfter(sizeX, sizeY, cur, pts[..i]), pts[i])
  {
    SequentialLength(sizeX, sizeY, cur, pts);
    if i > 0 {
      var e' := Adjust(sizeX, sizeY, cur, pts[0]).1;
      SequentialAt(sizeX, sizeY, e', pts[1..], i - 1);
      assert pts[..i][1..] == pts[1..][..i - 1];
    }
  }

  /** One entry per point; the last point ends where `LastAfter` says, and
      the first ends as the start of the first route, shifted at most once
      per axis. */
  lemma {:induction false} FinalPointsShape(sizeX: int, sizeY: int, cur: Pt, pts: seq<Pt>)
    decreases |pts|
    ensures var f := FinalPoints(sizeX, sizeY, cur, pts);
      && |f| == |pts| + 1
      && f[|pts|] == LastAfter(sizeX, sizeY, cur, pts)
      && ShiftedWithinOnce(f[0], cur, sizeX, sizeY)
  {
    if pts != [] {
      var (s', e') := Adjust(sizeX, sizeY, cur, pts[0]);
      FinalPointsShape(sizeX, sizeY, e', pts[1..]);
      AdjustAxisFacts(sizeX, cur.x, pts[0].x);
      AdjustAxisFacts(sizeY, cur.y, pts[0].y);
    }
  }

  /** A shifted end point is the point it came from, or that point moved
      forward by one whole size on each axis. */
  lemma {:induction false} LastAfterShift(sizeX: int, sizeY: int, cur: Pt, pts: seq<Pt>)
    decreases |pts|
    ensures var l := LastAfter(sizeX, sizeY, cur, pts);
      var p := if pts == [] then cur else pts[|pts| - 1];
      (l.x == p.x || l.x == p.x + sizeX) && (l.y == p.y || l.y == p.y + sizeY)
  {
    if pts != [] {
      var e' := Adjust(sizeX, sizeY, cur, pts[0]).1;
      AdjustAxisFacts(sizeX, cur.x, pts[0].x);
      AdjustAxisFacts(sizeY, cur.y, pts[0].y);
      LastAfterShift(sizeX, sizeY, e', pts[1..]);
    }
  }

  /** The keys of `seg` take the cursor from `from` to `to` on a torus of
      `sizeX` by `sizeY` cells. */
  predicate ReachesOnTorus(seg: string, from: Pt, to: Pt, sizeX: int, sizeY: int)
    requires sizeX > 0 && sizeY > 0
  {
    (DispX(seg) - (to.x - from.x)) % sizeX == 0 && (DispY(seg) - (to.y - from.y)) % sizeY == 0
  }

  /** Every segment of the route, started from where the previous one began
      in the original grid, reaches the next point on the torus. */
  lemma SequentialReaches(sizeX: int, sizeY: int, start: Pt, pts: seq<Pt>, i: nat)
    requires sizeX > 0 && sizeY > 0 && i < |pts|
    ensures |SequentialFrom(sizeX, sizeY, start, pts)| == |pts|
    ensures ReachesOnTorus(SequentialFrom(sizeX, sizeY, start, pts)[i], if i == 0 then start else pts[i - 1],
                           pts[i], sizeX, sizeY)
  {
    SequentialAt(sizeX, sizeY, start, pts, i);
    var l := LastAfter(sizeX, sizeY, start, pts[..i]);
    var prev := if i == 0 then start else pts[i - 1];
    assert ShiftedWithinOnce(l, prev, sizeX, sizeY) by {
      LastAfterShift(sizeX, sizeY, start, pts[..i]);
      assert i > 0 ==> pts[..i][i - 1] == pts[i - 1];
    }
    SegmentReaches(sizeX, sizeY, l, pts[i], prev);
  }

  /** A segment started from `prev`, or from `prev` moved one size along
      either axis, reaches `p` on the torus. */
  lemma SegmentReaches(sizeX: int, sizeY: int, l: Pt, p: Pt, prev: Pt)
    requires sizeX > 0 && sizeY > 0 && ShiftedWithinOnce(l, prev, sizeX, sizeY)
    ensures ReachesOnTorus(SinglePath(sizeX, sizeY, l, p), prev, p, sizeX, sizeY)
  {
    SegmentReachesX(sizeX, sizeY, l, p, prev);
    SegmentReachesY(sizeX, sizeY, l, p, prev);
  }

  /** A segment started from `prev`, or from `prev` moved one size along
      x, reaches `p` on the torus along x. */
  lemma SegmentReachesX(sizeX: int, sizeY: int, l: Pt, p: Pt, prev: Pt)
    requires sizeX > 0 && (l.x == prev.x || l.x == prev.x + sizeX)
    ensures (DispX(SinglePath(sizeX, sizeY, l, p)) - (p.x - prev.x)) % sizeX == 0
  {
    var (s', e') := Adjust(sizeX, sizeY, l, p);
    MovesDisplacement(s', e');
    AdjustAxisFacts(sizeX, l.x, p.x);
    ModSmall(DispX(SinglePath(sizeX, sizeY, l, p)) - (p.x - prev.x), sizeX);
  }

  /** The same along y. */
  lemma SegmentReachesY(sizeX: int, sizeY: int, l: Pt, p: Pt, prev: Pt)
    requires sizeY > 0 && (l.y == prev.y || l.y == prev.y + sizeY)
    ensures (DispY(SinglePath(sizeX, sizeY, l, p)) - (p.y - prev.y)) % sizeY == 0
  {
    var (s', e') := Adjust(sizeX, sizeY, l, p);
    MovesDisplacement(s', e');
    AdjustAxisFacts(sizeY, l.y, p.y);
    ModSmall(DispY(SinglePath(sizeX, sizeY, l, p)) - (p.y - prev.y), sizeY);
  }

  lemma ModSmall(d: int, size: int)
    requires size > 0
    requires d == 0 || d == size || d == -size || d == 2 * size || d == -2 * size
    ensures d % size == 0
  {
  }

  lemma {:induction false} SequentialSnoc(sizeX: int, sizeY: int, cur: Pt, pts: seq<Pt>, p: Pt)
    decreases |pts|
    ensures SequentialFrom(sizeX, sizeY, cur, pts + [p]) ==
      SequentialFrom(sizeX, sizeY, cur, pts) + [SinglePath(sizeX, sizeY, LastAfter(sizeX, sizeY, cur, pts), p)]
    ensures LastAfter(sizeX, sizeY, cur, pts + [p]) ==
      Adjust(sizeX, sizeY, LastAfter(sizeX, sizeY, cur, pts), p).1
  {
    if pts == [] {
      assert [p][1..] == [];
    } else {
      assert (pts + [p])[0] == pts[0];
      assert (pts + [p])[1..] == pts[1..] + [p];
      SequentialSnoc(sizeX, sizeY, Adjust(sizeX, sizeY, cur, pts[0]).1, pts[1..], p);
    }
  }

  // ---------------------------------------------------------------------
  // The in-place implementation

  function At(a: array<int>): Pt
    requires a.Length == 2
    reads a
  {
    Pt(a[0], a[1])
  }

  /** `v` is `v0` moved forward by zero, one or two whole sizes. */
  predicate ShiftedWithin(v: int, v0: int, size: int)
  {
    v == v0 || v == v0 + size || v == v0 + 2 * size
  }

  /** getPathSingle: the route from `startPt` to `endPt`. As in the source,
      the wrap adjustment is written back into the two point arrays. */
  method GetPathSingle(sizeX: int, sizeY: int, startPt: array<int>, endPt: array<int>) returns (ret: string)
    requires startPt.Length == 2 && endPt.Length == 2 && startPt != endPt
    modifies startPt, endPt
    ensures ret == SinglePath(sizeX, sizeY, Pt(old(startPt[0]), old(startPt[1])), Pt(old(endPt[0]), old(endPt[1])))
    ensures (At(startPt), At(endPt)) == Adjust(sizeX, sizeY, Pt(old(startPt[0]), old(startPt[1])), Pt(old(endPt[0]), old(endPt[1])))
  {
    var size := [sizeX, sizeY];
    for i := 0 to 2
      invariant i == 0 ==> At(startPt) == old(At(startPt)) && At(endPt) == old(At(endPt))
      invariant i >= 1 ==> (startPt[0], endPt[0]) == AdjustAxis(sizeX, old(startPt[0]), old(endPt[0]))
      invariant i == 1 ==> startPt[1] == old(startPt[1]) && endPt[1] == old(endPt[1])
      invariant i == 2 ==> (startPt[1], endPt[1]) == AdjustAxis(sizeY, old(startPt[1]), old(endPt[1]))
    {
      var d := startPt[i] - endPt[i];
      if 2 * (if d < 0 then -d else d) > size[i] {
        if startPt[i] < endPt[i] {
          startPt[i] := startPt[i] + size[i];
        } else {
          endPt[i] := endPt[i] + size[i];
        }
      }
    }
    ret := "";
    if startPt[0] < endPt[0] {
      ret := ret + Repeat('d', endPt[0] - startPt[0]);
    } else {
      ret := ret + Repeat('a', startPt[0] - endPt[0]);
    }
    if startPt[1] < endPt[1] {
      ret := ret + Repeat('s', endPt[1] - startPt[1]);
    } else {
      ret := ret + Repeat('w', startPt[1] - endPt[1]);
    }
  }

  /** The points held by a sequence of two-element arrays. */
  function Values(ps: seq<array<int>>): (r: seq<Pt>)
    requires forall a :: a in ps ==> a.Length == 2
    reads set a | a in ps
    ensures |r| == |ps|
    ensures forall i :: 0 <= i < |ps| ==> r[i] == At(ps[i])
  {
    if ps == [] then [] else [At(ps[0])] + Values(ps[1..])
  }

  /** One step of getPathSequential: the route between points `i` and
      `i + 1` of the route, with both of their arrays adjusted in place and
      every other array left alone. */
  method Leg(sizeX: int, sizeY: int, route: seq<array<int>>, i: nat) returns (seg: string)
    requires i + 1 < |route|
    requires forall a :: a in route ==> a.Length == 2
    requires NoDup(route)
    modifies route[i], route[i + 1]
    ensures seg == SinglePath(sizeX, sizeY, old(At(route[i])), old(At(route[i + 1])))
    ensures var (s', e') := Adjust(sizeX, sizeY, old(At(route[i])), old(At(route[i + 1])));
      Values(route) == old(Values(route))[i := s'][i + 1 := e']
  {
    ghost var before := Values(route);
    seg := GetPathSingle(sizeX, sizeY, route[i], route[i + 1]);
    forall j | 0 <= j < |route| && j != i && j != i + 1
      ensures At(route[j]) == before[j]
    {
      assert route[j] != route[i] && route[j] != route[i + 1];
    }
  }

  /** Each point of `now` is the matching point of `orig` moved forward by
      zero, one or two whole sizes on each axis. */
  predicate AllShiftedWithin(now: seq<Pt>, orig: seq<Pt>, sizeX: int, sizeY: int)
    requires |now| == |orig|
  {
    forall j :: 0 <= j < |now| ==>
      ShiftedWithin(now[j].x, orig[j].x, sizeX) && ShiftedWithin(now[j].y, orig[j].y, sizeY)
  }

  /** The loop invariant of getPathSequential survives one leg. */
  lemma LegStep(sizeX: int, sizeY: int, orig: seq<Pt>, i: nat, now: seq<Pt>)
    requires |now| == |orig| && i + 1 < |orig|
    requires now[i] == LastAfter(sizeX, sizeY, orig[0], orig[1..][..i])
    requires ShiftedWithinOnce(now[i], orig[i], sizeX, sizeY)
    requires now[i + 1..] == orig[i + 1..]
    requires AllShiftedWithin(now, orig, sizeX, sizeY)
    ensures var (s', e') := Adjust(sizeX, sizeY, now[i], now[i + 1]);
      var next := now[i := s'][i + 1 := e'];
      && SequentialFrom(sizeX, sizeY, orig[0], orig[1..][..i + 1]) ==
         SequentialFrom(sizeX, sizeY, orig[0], orig[1..][..i]) + [SinglePath(sizeX, sizeY, now[i], now[i + 1])]
      && next[i + 1] == LastAfter(sizeX, sizeY, orig[0], orig[1..][..i + 1])
      && ShiftedWithinOnce(next[i + 1], orig[i + 1], sizeX, sizeY)
      && next[i + 2..] == orig[i + 2..]
      && AllShiftedWithin(next, orig, sizeX, sizeY)
  {
    var pts := orig[1..];
    assert now[i + 1] == orig[i + 1] == pts[i];
    assert pts[..i + 1] == pts[..i] + [pts[i]];
    SequentialSnoc(sizeX, sizeY, orig[0], pts[..i], pts[i]);
    LegShift(sizeX, sizeY, orig, i, now);
  }

  lemma LegShift(sizeX: int, sizeY: int, orig: seq<Pt>, i: nat, now: seq<Pt>)
    requires |now| == |orig| && i + 1 < |orig|
    requires ShiftedWithinOnce(now[i], orig[i], sizeX, sizeY)
    requires now[i + 1..] == orig[i + 1..]
    requires AllShiftedWithin(now, orig, sizeX, sizeY)
    ensures var (s', e') := Adjust(sizeX, sizeY, now[i], now[i + 1]);
      var next := now[i := s'][i + 1 := e'];
      && ShiftedWithinOnce(next[i + 1], orig[i + 1], sizeX, sizeY)
      && next[i + 2..] == orig[i + 2..]
      && AllShiftedWithin(next, orig, sizeX, sizeY)
  {
    assert now[i + 1] == orig[i + 1];
    AdjustAxisFacts(sizeX, now[i].x, now[i + 1].x);
    AdjustAxisFacts(sizeY, now[i].y, now[i + 1].y);
  }

  /** getPathSequential: one route per point, starting from `start`. Each
      route begins where the previous call left the previous point. */
  method GetPathSequential(sizeX: int, sizeY: int, points: seq<array<int>>, start: array<int>)
      returns (ret: seq<string>)
    requires forall a :: a in points ==> a.Length == 2
    requires start.Length == 2
    requires NoDup([start] + points)
    modifies set a | a in [start] + points
    ensures ret == SequentialFrom(sizeX, sizeY, old(At(start)), old(Values(points)))
    ensures |ret| == |points|
    ensures Values([start] + points) == FinalPoints(sizeX, sizeY, old(At(start)), old(Values(points)))
    ensures AllShiftedWithin(Values([start] + points), old(Values([start] + points)), sizeX, sizeY)
  {
    var route := [start] + points;
    ghost var orig := old(Values(route));
    assert orig[1..] == old(Values(points));
    ret := [];
    var i := 0;
    SequencedStart(sizeX, sizeY, orig);
    while i < |route| - 1
      invariant 0 <= i <= |route| - 1
      invariant Sequenced(sizeX, sizeY, orig, i, Values(route), ret)
    {
      ghost var now := Values(route);
      var seg := Leg(sizeX, sizeY, route, i);
      SequencedStep(sizeX, sizeY, orig, i, now, ret);
      ret := ret + [seg];
      i := i + 1;
    }
    SequencedDone(sizeX, sizeY, orig, i, Values(route), ret);
  }

  /** The loop invariant of getPathSequential after `i` legs: the routes
      so far, the current point as the last call shifted it, the later
      points untouched, every point shifted by at most two sizes, and the
      final positions of all points determined. */
  predicate Sequenced(sizeX: int, sizeY: int, orig: seq<Pt>, i: nat, now: seq<Pt>, ret: seq<string>)
  {
    && |now| == |orig| && i < |orig|
    && ret == SequentialFrom(sizeX, sizeY, orig[0], orig[1..][..i])
    && now[i] == LastAfter(sizeX, sizeY, orig[0], orig[1..][..i])
    && ShiftedWithinOnce(now[i], orig[i], sizeX, sizeY)
    && now[i + 1..] == orig[i + 1..]
    && AllShiftedWithin(now, orig, sizeX, sizeY)
    && now[..i] + FinalPoints(sizeX, sizeY, now[i], orig[i + 1..]) == FinalPoints(sizeX, sizeY, orig[0], orig[1..])
  }

  /** Before the first leg nothing has moved. */
  lemma SequencedStart(sizeX: int, sizeY: int, orig: seq<Pt>)
    requires |orig| > 0
    ensures Sequenced(sizeX, sizeY, orig, 0, orig, [])
  {
    assert orig[1..][..0] == [] && orig[..0] == [] && orig[0 + 1..] == orig[1..];
    assert orig[0] == LastAfter(sizeX, sizeY, orig[0], []);
    assert FinalPoints(sizeX, sizeY, orig[0], orig[1..]) == [] + FinalPoints(sizeX, sizeY, orig[0], orig[1..]);
  }

  /** One leg keeps the loop invariant. */
  lemma SequencedStep(sizeX: int, sizeY: int, orig: seq<Pt>, i: nat, now: seq<Pt>, ret: seq<string>)
    requires Sequenced(sizeX, sizeY, orig, i, now, ret) && i + 1 < |orig|
    ensures var (s', e') := Adjust(sizeX, sizeY, now[i], now[i + 1]);
      Sequenced(sizeX, sizeY, orig, i + 1, now[i := s'][i + 1 := e'],
                ret + [SinglePath(sizeX, sizeY, now[i], now[i + 1])])
  {
    assert now[i + 1] == orig[i + 1];
    LegStep(sizeX, sizeY, orig, i, now);
    FinalStep(sizeX, sizeY, orig, i, now);
  }

  /** After the last leg the invariant gives the method's result. */
  lemma SequencedDone(sizeX: int, sizeY: int, orig: seq<Pt>, i: nat, now: seq<Pt>, ret: seq<string>)
    requires Sequenced(sizeX, sizeY, orig, i, now, ret) && i + 1 == |orig|
    ensures ret == SequentialFrom(sizeX, sizeY, orig[0], orig[1..])
    ensures |ret| == |orig| - 1
    ensures now == FinalPoints(sizeX, sizeY, orig[0], orig[1..])
    ensures AllShiftedWithin(now, orig, sizeX, sizeY)
  {
    assert orig[1..][..i] == orig[1..];
    SequentialLength(sizeX, sizeY, orig[0], orig[1..]);
    FinalDone(sizeX, sizeY, orig, i, now);
  }

  /** Once every leg is done, the points still to come are the last one. */
  lemma FinalDone(sizeX: int, sizeY: int, orig: seq<Pt>, i: nat, now: seq<Pt>)
    requires |now| == |orig| == i + 1
    ensures now[..i] + FinalPoints(sizeX, sizeY, now[i], orig[i + 1..]) == now
  {
    assert orig[i + 1..] == [];
    assert now[..i] + [now[i]] == now;
  }

  /** The final positions still to come survive one leg: the start array
      of the leg is final, and the rest follow from its end array. */
  lemma FinalStep(sizeX: int, sizeY: int, orig: seq<Pt>, i: nat, now: seq<Pt>)
    requires |now| == |orig| && i + 1 < |orig|
    requires now[i + 1] == orig[i + 1]
    ensures var (s', e') := Adjust(sizeX, sizeY, now[i], now[i + 1]);
      var next := now[i := s'][i + 1 := e'];
      next[..i + 1] + FinalPoints(sizeX, sizeY, next[i + 1], orig[i + 2..]) ==
        now[..i] + FinalPoints(sizeX, sizeY, now[i], orig[i + 1..])
  {
    var (s', e') := Adjust(sizeX, sizeY, now[i], now[i + 1]);
    var next := now[i := s'][i + 1 := e'];
    assert orig[i + 1..][0] == orig[i + 1] && orig[i + 1..][1..] == orig[i + 2..];
    assert FinalPoints(sizeX, sizeY, now[i], orig[i + 1..]) == [s'] + FinalPoints(sizeX, sizeY, e', orig[i + 2..]);
    assert next[..i + 1] == now[..i] + [s'];
  }

  /** `p` is `p0` with each coordinate moved forward by zero or one size. */
  predicate ShiftedWithinOnce(p: Pt, p0: Pt, sizeX: int, sizeY: int)
  {
    (p.x == p0.x || p.x == p0.x + sizeX) && (p.y == p0.y || p.y == p0.y + sizeY)
  }
}
