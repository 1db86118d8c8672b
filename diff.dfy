/**
 * diff/diff.go: a line diff after Myers. shortestEditSequence searches the edit graph
 * round by round and keeps a copy of its furthest-point array V after every round;
 * backtrack walks those copies back from (|a|, |b|) to the snakes of one shortest path;
 * operations turns the snakes into deletions and insertions; ComputeEdits turns those
 * into LSP text edits on whole lines.
 */
module Diff {
  import opened Wrappers
  import opened Text
  import opened Types
  import opened DiffGraph

  // ------------------------------------------------------------------ the search

  function Zeros(n: nat): (z: seq<int>)
    ensures |z| == n && forall i :: 0 <= i < n ==> z[i] == 0
  {
    seq(n, _ => 0)
  }

  /**
   * The search's choice for round d on diagonal k: down from diagonal k + 1 (an insertion)
   * at the lower edge, or when k + 1 got further than k - 1; otherwise right from k - 1
   * (a deletion).
   */
  function Down(V: seq<int>, off: int, d: int, k: int): bool
    requires 1 <= off && 0 <= d <= off && |V| == 2 * off + 1 && -d <= k <= d
  {
    k == -d || (k != d && V[k - 1 + off] < V[k + 1 + off])
  }

  /** Where round d starts on diagonal k, by that choice. */
  function StartX(V: seq<int>, off: int, d: int, k: int): int
    requires 1 <= off && 0 <= d <= off && |V| == 2 * off + 1 && -d <= k <= d
  {
    if Down(V, off, d, k) then V[k + 1 + off] else V[k - 1 + off] + 1
  }

  /**
   * cur is V once round d has handled its diagonals below kEnd, prev is V after round
   * d - 1: each handled diagonal holds the end of the snake from its start, every other
   * slot is as round d - 1 left it.
   */
  ghost predicate RoundStep<T>(a: seq<T>, b: seq<T>, prev: seq<int>, cur: seq<int>, off: int, d: int, kEnd: int) {
    |prev| == |cur| == 2 * off + 1 && 1 <= off && 0 <= d <= off &&
    forall i :: 0 <= i < |cur| ==> SlotStep(a, b, prev, cur, off, d, kEnd, i)
  }

  ghost predicate SlotStep<T>(a: seq<T>, b: seq<T>, prev: seq<int>, cur: seq<int>, off: int, d: int, kEnd: int, i: int)
    requires |prev| == |cur| == 2 * off + 1 && 1 <= off && 0 <= d <= off && 0 <= i < |cur|
  {
    var k := i - off;
    if OnRound(k, d) && k < kEnd then
      var s := StartX(prev, off, d, k);
      0 <= s && 0 <= s - k && cur[i] == Snake(a, b, s, s - k)
    else cur[i] == prev[i]
  }

  /** The handled diagonals of round d hold the furthest points d moves reach. */
  ghost predicate RoundFar<T>(a: seq<T>, b: seq<T>, cur: seq<int>, off: int, d: int, kEnd: int) {
    forall i :: 0 <= i < |cur| ==> SlotFar(a, b, cur, off, d, kEnd, i)
  }

  ghost predicate SlotFar<T>(a: seq<T>, b: seq<T>, cur: seq<int>, off: int, d: int, kEnd: int, i: int)
    requires 0 <= i < |cur|
  {
    var k := i - off;
    OnRound(k, d) && k < kEnd ==> Furthest(a, b, d, k, cur[i])
  }

  /** No handled diagonal of round d has reached (|a|, |b|). */
  predicate NoHit<T(==)>(a: seq<T>, b: seq<T>, cur: seq<int>, off: int, d: int, kEnd: int) {
    forall i :: 0 <= i < |cur| ==> SlotMissed(a, b, cur, off, d, kEnd, i)
  }

  predicate SlotMissed<T(==)>(a: seq<T>, b: seq<T>, cur: seq<int>, off: int, d: int, kEnd: int, i: int)
    requires 0 <= i < |cur|
  {
    var k := i - off;
    OnRound(k, d) && k < kEnd ==> !(cur[i] == |a| && cur[i] - k == |b|)
  }

  /** The copy of V that round e started from: all zeros before round 0. */
  function Before(trace: seq<seq<int>>, off: int, e: int): seq<int>
    requires 0 <= off && 0 <= e < |trace|
  {
    if e == 0 then Zeros(2 * off + 1) else trace[e - 1]
  }

  /** Rounds 0 .. n - 1 of the trace each handled every diagonal by the round's rule. */
  ghost predicate Rounds<T>(a: seq<T>, b: seq<T>, trace: seq<seq<int>>, off: int, n: int)
    requires 0 <= off && n <= |trace|
  {
    forall e {:trigger Before(trace, off, e)} :: 0 <= e < n ==> RoundStep(a, b, Before(trace, off, e), trace[e], off, e, e + 2)
  }

  /**
   * What shortestEditSequence returns: one copy of V per round up to the round D that
   * reaches (|a|, |b|), empty slots after it, each copy related to the one before by the
   * round's rule (round D stops at the diagonal of (|a|, |b|)), and (|a|, |b|) out of
   * reach with fewer than D moves.
   */
  ghost predicate TraceOk<T>(a: seq<T>, b: seq<T>, trace: seq<seq<int>>, off: int, D: nat) {
    var p := |a| - |b|;
    off == |a| + |b| >= 1 && |trace| == off + 1 && D <= off &&
    (forall e :: D < e < |trace| ==> trace[e] == []) &&
    (forall e :: 0 <= e <= D ==> |trace[e]| == 2 * off + 1) &&
    Rounds(a, b, trace, off, D) &&
    RoundStep(a, b, Before(trace, off, D), trace[D], off, D, p + 2) &&
    OnRound(p, D) && trace[D][p + off] == |a|
  }

  /** Storing round d's copy leaves the earlier rounds as they were. */
  lemma RoundsFrame<T>(a: seq<T>, b: seq<T>, trace: seq<seq<int>>, off: int, d: int, cur: seq<int>)
    requires 0 <= off && 0 <= d < |trace| && Rounds(a, b, trace, off, d)
    ensures Rounds(a, b, trace[d := cur], off, d)
  {
    var next := trace[d := cur];
    forall e | 0 <= e < d
      ensures RoundStep(a, b, Before(next, off, e), next[e], off, e, e + 2)
    {
      assert Before(next, off, e) == Before(trace, off, e);
      assert RoundStep(a, b, Before(trace, off, e), trace[e], off, e, e + 2);
    }
  }

  /**
   * shortestEditSequence. Round d visits the diagonals -d, -d + 2, ..., d, starts each
   * one move away from round d - 1's furthest points, slides along shared lines, and
   * stops as soon as it reaches (|a|, |b|); by then no shorter path exists. The final
   * `return nil, 0` is unreachable: deleting all of a and inserting all of b takes
   * |a| + |b| moves.
   */
  method ShortestEditSequence<T(==)>(a: seq<T>, b: seq<T>) returns (trace: seq<seq<int>>, offset: int, ghost D: nat)
    requires |a| + |b| > 0
    ensures TraceOk(a, b, trace, offset, D) && (D > 0 ==> !Reach(a, b, D - 1, |a|, |b|))
  {
    var M, N := |a|, |b|;
    var V := new int[2 * (N + M) + 1](_ => 0);
    offset := N + M;
    trace := seq(N + M + 1, _ => []);
    assert V[..] == Zeros(V.Length);
    var d := 0;
    while d <= N + M
      invariant 0 <= d <= N + M + 1 && V.Length == 2 * offset + 1
      invariant Searched(a, b, trace, offset, d)
      invariant d <= N + M ==> V[..] == Before(trace, offset, d)
    {
      var hit := SearchRound(a, b, V, offset, d);
      if hit {
        SearchedHit(a, b, trace, offset, d, V[..]);
        trace, D := trace[d := V[..]], d;
        return;
      }
      SearchedNext(a, b, trace, offset, d, V[..]);
      trace := trace[d := V[..]];
      d := d + 1;
    }
    ReachCorner(a, b);
    assert false;
  }

  /**
   * The state of shortestEditSequence before round d: rounds 0 .. d - 1 stored and
   * complete, round d - 1's copy holding its furthest points, and (|a|, |b|) not reached
   * with d - 1 moves.
   */
  ghost predicate Searched<T>(a: seq<T>, b: seq<T>, trace: seq<seq<int>>, off: int, d: int) {
    off == |a| + |b| >= 1 && |trace| == off + 1 && 0 <= d <= off + 1 &&
    (forall e :: d <= e < |trace| ==> trace[e] == []) &&
    (forall e :: 0 <= e < d ==> |trace[e]| == 2 * off + 1) &&
    Rounds(a, b, trace, off, d) &&
    (d > 0 ==> RoundFar(a, b, trace[d - 1], off, d - 1, d + 1) && Placed(trace[d - 1], off, d - 1, d + 1)) &&
    (d > 0 ==> !Reach(a, b, d - 1, |a|, |b|))
  }

  /** Storing a complete round that missed (|a|, |b|) moves the search on to round d + 1. */
  lemma SearchedNext<T>(a: seq<T>, b: seq<T>, trace: seq<seq<int>>, off: int, d: int, cur: seq<int>)
    requires Searched(a, b, trace, off, d) && d < |trace|
    requires RoundStep(a, b, Before(trace, off, d), cur, off, d, d + 2) && NoHit(a, b, cur, off, d, d + 2)
    ensures Searched(a, b, trace[d := cur], off, d + 1)
  {
    var next := trace[d := cur];
    RoundsFrame(a, b, trace, off, d, cur);
    assert Before(next, off, d) == Before(trace, off, d);
    RoundMissed(a, b, Before(trace, off, d), cur, off, d);
  }

  /** Storing the round that reached (|a|, |b|) completes the trace. */
  lemma SearchedHit<T>(a: seq<T>, b: seq<T>, trace: seq<seq<int>>, off: int, d: int, cur: seq<int>)
    requires Searched(a, b, trace, off, d) && d < |trace|
    requires RoundStep(a, b, Before(trace, off, d), cur, off, d, |a| - |b| + 2)
    requires OnRound(|a| - |b|, d) && cur[|a| - |b| + off] == |a|
    ensures TraceOk(a, b, trace[d := cur], off, d) && (d > 0 ==> !Reach(a, b, d - 1, |a|, |b|))
  {
    var next := trace[d := cur];
    RoundsFrame(a, b, trace, off, d, cur);
    assert Before(next, off, d) == Before(trace, off, d);
  }

  /** A complete round that missed (|a|, |b|) holds round d's furthest points, and (|a|, |b|) needs more than d moves. */
  lemma RoundMissed<T>(a: seq<T>, b: seq<T>, prev: seq<int>, cur: seq<int>, off: int, d: int)
    requires off == |a| + |b| >= 1 && 0 <= d <= off
    requires RoundStep(a, b, prev, cur, off, d, d + 2) && NoHit(a, b, cur, off, d, d + 2)
    requires d > 0 ==> RoundFar(a, b, prev, off, d - 1, d + 1) && !Reach(a, b, d - 1, |a|, |b|)
    requires d == 0 ==> prev == Zeros(2 * off + 1)
    ensures RoundFar(a, b, cur, off, d, d + 2) && Placed(cur, off, d, d + 2)
    ensures !Reach(a, b, d, |a|, |b|)
  {
    var i := |a| - |b| + off;
    RoundFarStep(a, b, prev, cur, off, d, d + 2);
    StepPlaced(a, b, prev, cur, off, d, d + 2);
    assert SlotFar(a, b, cur, off, d, d + 2, i);
    assert SlotMissed(a, b, cur, off, d, d + 2, i);
    NoHitUnreached(a, b, d, cur[i]);
  }

  /**
   * One round of shortestEditSequence: the diagonals -d, -d + 2, ..., d in turn, until
   * one of them reaches (|a|, |b|).
   */
  method SearchRound<T(==)>(a: seq<T>, b: seq<T>, V: array<int>, offset: int, d: int) returns (hit: bool)
    requires V.Length == 2 * offset + 1 && offset == |a| + |b| >= 1 && 0 <= d <= offset
    requires d == 0 ==> V[..] == Zeros(V.Length)
    requires d > 0 ==> Placed(V[..], offset, d - 1, d + 1)
    modifies V
    ensures hit ==> OnRound(|a| - |b|, d) && V[|a| - |b| + offset] == |a|
    ensures RoundStep(a, b, old(V[..]), V[..], offset, d, if hit then |a| - |b| + 2 else d + 2)
    ensures !hit ==> NoHit(a, b, V[..], offset, d, d + 2)
  {
    ghost var prev := V[..];
    var k := -d;
    hit := false;
    while k <= d && !hit
      invariant -d <= k <= d + 2 && (k - d) % 2 == 0
      invariant RoundStep(a, b, prev, V[..], offset, d, k)
      invariant hit ==> k == |a| - |b| + 2 && OnRound(|a| - |b|, d) && V[|a| - |b| + offset] == |a|
      invariant !hit ==> NoHit(a, b, V[..], offset, d, k)
    {
      hit := SearchDiagonal(a, b, V, offset, d, k, prev);
      k := k + 2;
    }
  }

  /** Diagonal k of round d: its start, its snake, and whether that reaches (|a|, |b|). */
  method SearchDiagonal<T(==)>(a: seq<T>, b: seq<T>, V: array<int>, offset: int, d: int, k: int, ghost prev: seq<int>)
      returns (hit: bool)
    requires V.Length == 2 * offset + 1 && offset == |a| + |b| >= 1 && 0 <= d <= offset && OnRound(k, d)
    requires d == 0 ==> prev == Zeros(V.Length)
    requires d > 0 ==> Placed(prev, offset, d - 1, d + 1)
    requires RoundStep(a, b, prev, V[..], offset, d, k)
    requires NoHit(a, b, V[..], offset, d, k)
    modifies V
    ensures RoundStep(a, b, prev, V[..], offset, d, k + 2)
    ensures hit <==> V[k + offset] == |a| && k == |a| - |b|
    ensures !hit ==> NoHit(a, b, V[..], offset, d, k + 2)
  {
    var M, N := |a|, |b|;
    var x;
    if k == -d || (k != d && V[k - 1 + offset] < V[k + 1 + offset]) {
      x := V[k + 1 + offset];
    } else {
      x := V[k - 1 + offset] + 1;
    }
    StartPlaced(a, b, prev, V[..], offset, d, k);
    var y := x - k;
    x, y := Slide(a, b, x, y);
    ExtendStep(a, b, prev, V[..], offset, d, k, x);
    if !(x == M && y == N) {
      ExtendMissed(a, b, V[..], offset, d, k, x);
    }
    V[k + offset] := x;
    hit := x == M && y == N;
  }

  /** The handled diagonals of round d hold points of the grid's quadrant. */
  predicate Placed(cur: seq<int>, off: int, d: int, kEnd: int) {
    forall i :: 0 <= i < |cur| ==> SlotPlaced(cur, off, d, kEnd, i)
  }

  predicate SlotPlaced(cur: seq<int>, off: int, d: int, kEnd: int, i: int)
    requires 0 <= i < |cur|
  {
    var k := i - off;
    OnRound(k, d) && k < kEnd ==> 0 <= cur[i] && 0 <= cur[i] - k
  }

  /** Every snake end of a round lies in the quadrant. */
  lemma StepPlaced<T>(a: seq<T>, b: seq<T>, prev: seq<int>, cur: seq<int>, off: int, d: int, kEnd: int)
    requires RoundStep(a, b, prev, cur, off, d, kEnd)
    ensures Placed(cur, off, d, kEnd)
  {
    forall i | 0 <= i < |cur|
      ensures SlotPlaced(cur, off, d, kEnd, i)
    {
      assert SlotStep(a, b, prev, cur, off, d, kEnd, i);
    }
  }

  /** Round d's start on diagonal k reads only round d - 1's slots, and lies in the quadrant. */
  lemma StartPlaced<T>(a: seq<T>, b: seq<T>, prev: seq<int>, cur: seq<int>, off: int, d: int, k: int)
    requires 1 <= off && 0 <= d <= off && OnRound(k, d)
    requires RoundStep(a, b, prev, cur, off, d, k)
    requires d > 0 ==> Placed(prev, off, d - 1, d + 1)
    requires d == 0 ==> prev == Zeros(2 * off + 1)
    ensures StartX(cur, off, d, k) == StartX(prev, off, d, k)
    ensures var s := StartX(prev, off, d, k); 0 <= s && 0 <= s - k
  {
    if k > -d {
      assert SlotStep(a, b, prev, cur, off, d, k, k - 1 + off);
      if d > 0 {
        assert SlotPlaced(prev, off, d - 1, d + 1, k - 1 + off);
      }
    }
    if k < d || d == 0 {
      assert SlotStep(a, b, prev, cur, off, d, k, k + 1 + off);
      if d > 0 {
        assert SlotPlaced(prev, off, d - 1, d + 1, k + 1 + off);
      }
    }
  }

  /** A round computed by the rule from round d - 1's furthest points holds round d's furthest points. */
  lemma RoundFarStep<T>(a: seq<T>, b: seq<T>, prev: seq<int>, cur: seq<int>, off: int, d: int, kEnd: int)
    requires RoundStep(a, b, prev, cur, off, d, kEnd)
    requires d > 0 ==> RoundFar(a, b, prev, off, d - 1, d + 1)
    requires d == 0 ==> prev == Zeros(2 * off + 1)
    ensures RoundFar(a, b, cur, off, d, kEnd)
  {
    forall i | 0 <= i < |cur|
      ensures SlotFar(a, b, cur, off, d, kEnd, i)
    {
      var k := i - off;
      if OnRound(k, d) && k < kEnd {
        assert SlotStep(a, b, prev, cur, off, d, kEnd, i);
        SlotFurthest(a, b, prev, off, d, k);
      }
    }
  }

  /** Round d's start and snake on diagonal k, from round d - 1's furthest points, is round d's furthest point there. */
  lemma SlotFurthest<T>(a: seq<T>, b: seq<T>, prev: seq<int>, off: int, d: int, k: int)
    requires 1 <= off && 0 <= d <= off && OnRound(k, d) && |prev| == 2 * off + 1
    requires d > 0 ==> RoundFar(a, b, prev, off, d - 1, d + 1)
    requires d == 0 ==> prev == Zeros(2 * off + 1)
    ensures var s := StartX(prev, off, d, k); 0 <= s && 0 <= s - k && Furthest(a, b, d, k, Snake(a, b, s, s - k))
  {
    var s := StartX(prev, off, d, k);
    if d == 0 {
      assert prev[1 + off] == 0 && k == 0 && s == 0;
      OriginFurthest(a, b);
    } else {
      if k > -d {
        assert SlotFar(a, b, prev, off, d - 1, d + 1, k - 1 + off);
      }
      if k < d {
        assert SlotFar(a, b, prev, off, d - 1, d + 1, k + 1 + off);
      }
      var xl := if k > -d then prev[k - 1 + off] else 0;
      var xr := if k < d then prev[k + 1 + off] else 0;
      RoundFurthest(a, b, d, k, xl, xr, s);
    }
  }

  /** The diagonal moves of shortestEditSequence: forward while the lines are equal. */
  method Slide<T(==)>(a: seq<T>, b: seq<T>, x0: nat, y0: nat) returns (x: nat, y: nat)
    ensures x == Snake(a, b, x0, y0) && y == x - x0 + y0
  {
    x, y := x0, y0;
    while x < |a| && y < |b| && a[x] == b[y]
      invariant x0 <= x && y == x - x0 + y0 && Snake(a, b, x, y) == Snake(a, b, x0, y0)
      decreases |a| - x
    {
      x := x + 1;
      y := y + 1;
    }
  }

  /** Storing the snake's end on diagonal k extends the round's handled diagonals to k + 2. */
  lemma ExtendStep<T>(a: seq<T>, b: seq<T>, prev: seq<int>, cur: seq<int>, off: int, d: int, k: int, x: int)
    requires RoundStep(a, b, prev, cur, off, d, k) && OnRound(k, d)
    requires var s := StartX(prev, off, d, k); 0 <= s && 0 <= s - k && x == Snake(a, b, s, s - k)
    ensures RoundStep(a, b, prev, cur[k + off := x], off, d, k + 2)
  {
    var next := cur[k + off := x];
    var kNext := k + 2;
    forall i | 0 <= i < |next|
      ensures SlotStep(a, b, prev, next, off, d, kNext, i)
    {
      if i != k + off {
        assert SlotStep(a, b, prev, cur, off, d, k, i);
      }
    }
  }

  lemma ExtendMissed<T>(a: seq<T>, b: seq<T>, cur: seq<int>, off: int, d: int, k: int, x: int)
    requires NoHit(a, b, cur, off, d, k) && 0 <= k + off < |cur| && OnRound(k, d)
    requires !(x == |a| && x - k == |b|)
    ensures NoHit(a, b, cur[k + off := x], off, d, k + 2)
  {
    var next := cur[k + off := x];
    var kNext := k + 2;
    forall i | 0 <= i < |next|
      ensures SlotMissed(a, b, next, off, d, kNext, i)
    {
      if i != k + off {
        assert SlotMissed(a, b, cur, off, d, k, i);
      }
    }
  }

  // ------------------------------------------------------------------ backtrack

  /** One step of a shortest path: a move down or right from p, then the snake from there, ends at q. */
  predicate Edge<T(==)>(a: seq<T>, b: seq<T>, p: Point, q: Point) {
    0 <= p.x && 0 <= p.y &&
    ((q.x - q.y == p.x - p.y - 1 && q.x == Snake(a, b, p.x, p.y + 1)) ||
     (q.x - q.y == p.x - p.y + 1 && q.x == Snake(a, b, p.x + 1, p.y)))
  }

  predicate Inside<T(==)>(a: seq<T>, b: seq<T>, p: Point) {
    0 <= p.x <= |a| && 0 <= p.y <= |b|
  }

  /** Index e of a path over lo .. hi: a point exactly inside lo .. hi, in the grid, joined to the point before by an edge. */
  predicate LinkAt<T(==)>(a: seq<T>, b: seq<T>, s: seq<Option<Point>>, lo: int, hi: int, e: int)
    requires 0 <= lo && 0 <= e < |s|
  {
    (s[e].Some? <==> lo <= e <= hi) &&
    (lo <= e <= hi ==> Inside(a, b, s[e].value)) &&
    (lo < e <= hi ==> s[e - 1].Some? && Edge(a, b, s[e - 1].value, s[e].value))
  }

  /**
   * The snakes of a path: points at the indices lo .. hi and nowhere else, each joined to
   * the one before by an edge, the last one (|a|, |b|).
   */
  predicate Linked<T(==)>(a: seq<T>, b: seq<T>, s: seq<Option<Point>>, lo: int, hi: int) {
    0 <= lo <= hi < |s| && s[lo].Some? && s[hi] == Some(Point(|a|, |b|)) &&
    forall e :: 0 <= e < |s| ==> LinkAt(a, b, s, lo, hi, e)
  }

  /** The path's first point lies on an axis, or ends the snake from (0, 0). */
  predicate FirstOk<T(==)>(a: seq<T>, b: seq<T>, p: Point) {
    p.x == 0 || p.y == 0 || (p.x == p.y && p.x == Snake(a, b, 0, 0))
  }

  /**
   * backtrack: from (|a|, |b|) in round D back to round 0, each round's point is reached
   * from round d - 1's point on the diagonal that the search's rule picked. The copies of
   * V after round D are empty and skipped; the walk stops on an axis or at round 0. The
   * `x < 0 || y < 0` exit is unreachable.
   */
  method Backtrack<T(==)>(ghost a: seq<T>, ghost b: seq<T>, ghost D: nat, trace: seq<seq<int>>, x0: int, y0: int, offset: int)
      returns (snakes: seq<Option<Point>>, ghost lo: nat)
    requires TraceOk(a, b, trace, offset, D) && x0 == |a| && y0 == |b|
    ensures |snakes| == |trace| && lo <= D && Linked(a, b, snakes, lo, D) && FirstOk(a, b, snakes[lo].value)
    ensures -(lo as int) <= snakes[lo].value.x - snakes[lo].value.y <= lo
  {
    var x, y, d;
    snakes, x, y, d := BackWalk(a, b, D, trace, x0, y0, offset);
    BackEnd(a, b, trace, offset, D, snakes, d, x, y);
    if x < 0 || y < 0 {
      assert false;
      return;
    }
    snakes := snakes[d := Some(Point(x, y))];
    lo := d;
  }

  /** backtrack's loop: from round |a| + |b| down while x, y and d are all positive. */
  method BackWalk<T(==)>(ghost a: seq<T>, ghost b: seq<T>, ghost D: nat, trace: seq<seq<int>>, x0: int, y0: int, offset: int)
      returns (snakes: seq<Option<Point>>, x: int, y: int, d: int)
    requires TraceOk(a, b, trace, offset, D) && x0 == |a| && y0 == |b|
    ensures BackState(a, b, trace, offset, D, snakes, d, x, y) && !(x > 0 && y > 0 && d > 0)
  {
    snakes := seq(|trace|, _ => None);
    x, y := x0, y0;
    d := |trace| - 1;
    while x > 0 && y > 0 && d > 0
      invariant BackState(a, b, trace, offset, D, snakes, d, x, y)
      decreases d
    {
      var V := trace[d];
      if |V| == 0 {
        // an empty copy: Go's `continue`
        BackSkip(a, b, trace, offset, D, snakes, d, x, y);
      } else {
        snakes, x, y := BackRound(a, b, D, trace, offset, snakes, d, x, y);
      }
      d := d - 1;
    }
  }

  /** One round of backtrack's loop on a recorded copy: record (x, y) and step to the point it came from. */
  method BackRound<T(==)>(ghost a: seq<T>, ghost b: seq<T>, ghost D: nat, trace: seq<seq<int>>, offset: int,
                          snakes: seq<Option<Point>>, d: int, x: int, y: int)
      returns (snakes': seq<Option<Point>>, x': int, y': int)
    requires TraceOk(a, b, trace, offset, D) && BackState(a, b, trace, offset, D, snakes, d, x, y)
    requires d > 0 && |trace[d]| != 0
    ensures BackState(a, b, trace, offset, D, snakes', d - 1, x', y')
  {
    var V := trace[d];
    var k := x - y;
    var kPrev := if Down(V, offset, d, k) then k + 1 else k - 1;
    BackPrev(a, b, trace, offset, D, d, x, y, kPrev);
    x', y' := V[kPrev + offset], V[kPrev + offset] - kPrev;
    BackNext(a, b, trace, offset, D, snakes, d, x, y, kPrev, x', y');
    snakes' := snakes[d := Some(Point(x, y))];
  }

  /**
   * Backtrack before handling index d at point (x, y): nothing recorded above round D,
   * and from round D down to d a path whose next point is (x, y), the furthest point
   * of round d on its diagonal.
   */
  ghost predicate BackState<T>(a: seq<T>, b: seq<T>, trace: seq<seq<int>>, off: int, D: nat,
                            s: seq<Option<Point>>, d: int, x: int, y: int) {
    off >= 1 && |trace| == off + 1 && 0 <= d < |trace| && |s| == |trace| &&
    (d > D ==> |trace[d]| == 0 && x == |a| && y == |b| && forall e :: 0 <= e < |s| ==> s[e] == None) &&
    (d <= D ==> |trace[d]| == 2 * off + 1 && OnRound(x - y, d) && trace[d][x - y + off] == x &&
                Linked(a, b, s[d := Some(Point(x, y))], d, D))
  }

  /** An empty copy of V (after round D) is skipped. */
  lemma BackSkip<T>(a: seq<T>, b: seq<T>, trace: seq<seq<int>>, off: int, D: nat,
                 s: seq<Option<Point>>, d: int, x: int, y: int)
    requires TraceOk(a, b, trace, off, D) && BackState(a, b, trace, off, D, s, d, x, y) && d > 0 && |trace[d]| == 0
    ensures BackState(a, b, trace, off, D, s, d - 1, x, y)
  {
    if d - 1 == D {
      var t := s[D := Some(Point(x, y))];
      forall e | 0 <= e < |t|
        ensures LinkAt(a, b, t, D, D, e)
      {
      }
    }
  }

  /** One backtrack step in the trace: round d - 1's point on the rule's diagonal, joined by an edge to (x, y). */
  lemma BackPrev<T>(a: seq<T>, b: seq<T>, trace: seq<seq<int>>, off: int, D: nat, d: int, x: int, y: int, kPrev: int)
    requires TraceOk(a, b, trace, off, D) && 0 < d <= D
    requires OnRound(x - y, d) && trace[d][x - y + off] == x && (d == D ==> x == |a| && y == |b|)
    requires var k := x - y; var V := trace[d];
      kPrev == if Down(V, off, d, k) then k + 1 else k - 1
    ensures OnRound(kPrev, d - 1) && |trace[d - 1]| == 2 * off + 1 && 0 <= kPrev + off < |trace[d]|
    ensures var x' := trace[d][kPrev + off];
      x' == trace[d - 1][kPrev + off] && Edge(a, b, Point(x', x' - kPrev), Point(x, y))
  {
    var kEnd := if d == D then |a| - |b| + 2 else d + 2;
    RoundAt(a, b, trace, off, D, d);
    RoundAt(a, b, trace, off, D, d - 1);
    BackGeom(a, b, Before(trace, off, d - 1), Before(trace, off, d), trace[d], off, d, kEnd, x, y, kPrev);
  }

  /** Recording round d's point and moving to round d - 1's point keeps backtrack's state. */
  lemma BackNext<T>(a: seq<T>, b: seq<T>, trace: seq<seq<int>>, off: int, D: nat,
                    s: seq<Option<Point>>, d: int, x: int, y: int, kPrev: int, x': int, y': int)
    requires BackState(a, b, trace, off, D, s, d, x, y) && 0 < d <= D
    requires OnRound(kPrev, d - 1) && |trace[d - 1]| == 2 * off + 1 && x' == trace[d - 1][kPrev + off]
    requires y' == x' - kPrev && Edge(a, b, Point(x', y'), Point(x, y))
    ensures BackState(a, b, trace, off, D, s[d := Some(Point(x, y))], d - 1, x', y')
  {
    BackLinked(a, b, s, d, D, Point(x, y), Point(x', y'));
  }

  /** The geometry of one backtrack step, from the rule rounds d - 1 and d keep. */
  lemma BackGeom<T>(a: seq<T>, b: seq<T>, older: seq<int>, prev: seq<int>, cur: seq<int>, off: int, d: int, kEnd: int,
                    x: int, y: int, kPrev: int)
    requires 0 < d && RoundStep(a, b, prev, cur, off, d, kEnd) && RoundStep(a, b, older, prev, off, d - 1, d + 1)
    requires OnRound(x - y, d) && x - y < kEnd && cur[x - y + off] == x
    requires var k := x - y;
      kPrev == if Down(cur, off, d, k) then k + 1 else k - 1
    ensures OnRound(kPrev, d - 1) && 0 <= kPrev + off < |cur|
    ensures var x' := cur[kPrev + off]; x' == prev[kPrev + off] && Edge(a, b, Point(x', x' - kPrev), Point(x, y))
  {
    var k := x - y;
    BackRule(a, b, prev, cur, off, d, kEnd, k, kPrev);
    SlotSnake(a, b, prev, cur, off, d, kEnd, k);
    SlotSnake(a, b, older, prev, off, d - 1, d + 1, kPrev);
    BackStep(a, b, x, y, StartX(prev, off, d, k), prev[kPrev + off], kPrev);
  }

  /** The rule picks the same diagonal from round d's copy as from round d - 1's, and round d left that slot alone. */
  lemma BackRule<T>(a: seq<T>, b: seq<T>, prev: seq<int>, cur: seq<int>, off: int, d: int, kEnd: int, k: int, kPrev: int)
    requires 0 < d && RoundStep(a, b, prev, cur, off, d, kEnd) && OnRound(k, d)
    requires kPrev == if Down(cur, off, d, k) then k + 1 else k - 1
    ensures OnRound(kPrev, d - 1) && 0 <= kPrev + off < |cur| && cur[kPrev + off] == prev[kPrev + off]
    ensures StartX(prev, off, d, k) == if kPrev == k + 1 then prev[kPrev + off] else prev[kPrev + off] + 1
  {
    if k > -d {
      SlotKept(a, b, prev, cur, off, d, kEnd, k - 1 + off);
    }
    if k < d {
      SlotKept(a, b, prev, cur, off, d, kEnd, k + 1 + off);
    }
  }

  /** Where backtrack stops: within rounds 0 .. D, on an axis or at round 0. */
  lemma BackEnd<T>(a: seq<T>, b: seq<T>, trace: seq<seq<int>>, off: int, D: nat,
                s: seq<Option<Point>>, d: int, x: int, y: int)
    requires TraceOk(a, b, trace, off, D) && BackState(a, b, trace, off, D, s, d, x, y) && !(x > 0 && y > 0 && d > 0)
    ensures d <= D && 0 <= x && 0 <= y && -d <= x - y <= d
    ensures Linked(a, b, s[d := Some(Point(x, y))], d, D) && FirstOk(a, b, Point(x, y))
  {
    if d > D {
      assert false;
    }
    assert LinkAt(a, b, s[d := Some(Point(x, y))], d, D, d);
    if d == 0 && x > 0 && y > 0 {
      BackFirst(a, b, trace, off, D, x, y);
    }
  }

  /** The rule a complete trace keeps between round e and the copy before it. */
  lemma RoundAt<T>(a: seq<T>, b: seq<T>, trace: seq<seq<int>>, off: int, D: nat, e: int)
    requires TraceOk(a, b, trace, off, D) && 0 <= e <= D
    ensures RoundStep(a, b, Before(trace, off, e), trace[e], off, e, if e == D then |a| - |b| + 2 else e + 2)
  {
    if e < D {
      assert Rounds(a, b, trace, off, D);
    }
  }

  /** One step of backtrack: the rule applied to round d's copy picks the diagonal of round d - 1's point, and an edge joins the two. */
  lemma BackStep<T>(a: seq<T>, b: seq<T>, x: int, y: int, s: int, x': int, kPrev: int)
    requires 0 <= s && 0 <= s - (x - y) && x == Snake(a, b, s, s - (x - y))
    requires (kPrev == x - y + 1 && s == x') || (kPrev == x - y - 1 && s == x' + 1)
    requires 0 <= x' && 0 <= x' - kPrev
    ensures Edge(a, b, Point(x', x' - kPrev), Point(x, y))
  {
  }

  /** A slot off round d's parity keeps its value from round d - 1. */
  lemma SlotKept<T>(a: seq<T>, b: seq<T>, prev: seq<int>, cur: seq<int>, off: int, d: int, kEnd: int, j: int)
    requires RoundStep(a, b, prev, cur, off, d, kEnd) && 0 <= j < |cur| && (j - off - d) % 2 != 0
    ensures cur[j] == prev[j]
  {
    assert SlotStep(a, b, prev, cur, off, d, kEnd, j);
  }

  /** A handled diagonal of round d holds the end of the snake from the rule's start. */
  lemma SlotSnake<T>(a: seq<T>, b: seq<T>, prev: seq<int>, cur: seq<int>, off: int, d: int, kEnd: int, k: int)
    requires RoundStep(a, b, prev, cur, off, d, kEnd) && OnRound(k, d) && k < kEnd
    ensures 0 <= k + off < |cur|
    ensures var s := StartX(prev, off, d, k); 0 <= s && 0 <= s - k && cur[k + off] == Snake(a, b, s, s - k)
  {
    assert SlotStep(a, b, prev, cur, off, d, kEnd, k + off);
  }

  /** Backtrack's chain grows by one point at round d - 1. */
  lemma BackLinked<T>(a: seq<T>, b: seq<T>, s: seq<Option<Point>>, d: int, D: int, q: Point, p: Point)
    requires 0 < d < |s| && Linked(a, b, s[d := Some(q)], d, D) && Edge(a, b, p, q)
    ensures Linked(a, b, s[d := Some(q)][d - 1 := Some(p)], d - 1, D)
  {
    var r := s[d := Some(q)];
    var t := r[d - 1 := Some(p)];
    var lo := d - 1;
    assert LinkAt(a, b, r, d, D, d);
    forall e | 0 <= e < |t|
      ensures LinkAt(a, b, t, lo, D, e)
    {
      if e != lo {
        assert LinkAt(a, b, r, d, D, e);
      }
    }
  }

  /** Backtrack stopping at round 0 away from the axes: the point is the snake from (0, 0). */
  lemma BackFirst<T>(a: seq<T>, b: seq<T>, trace: seq<seq<int>>, off: int, D: nat, x: int, y: int)
    requires TraceOk(a, b, trace, off, D)
    requires OnRound(x - y, 0) && trace[0][x - y + off] == x
    ensures x == y && x == Snake(a, b, 0, 0)
  {
    var kEnd := if D == 0 then |a| - |b| + 2 else 2;
    RoundAt(a, b, trace, off, D, 0);
    assert SlotStep(a, b, Before(trace, off, 0), trace[0], off, 0, kEnd, off);
  }
}
