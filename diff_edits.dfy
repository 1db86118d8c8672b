/**
 * diff/diff.go, second half: the operations that follow the path backtrack found, the
 * text edits made from them, and the splitting of a text into lines.
 */
module DiffEdits {
  import opened Wrappers
  import opened Text
  import opened Types
  import opened DiffGraph
  import opened Diff

  datatype OpKind = Delete | Insert

  /**
   * A line operation on a: Delete removes a[i1..i2]; Insert puts content, which is
   * b[j1..j1 + |content|], before a[i1] (and then i1 == i2).
   */
  datatype Operation<T> = Operation(kind: OpKind, content: seq<T>, i1: int, i2: int, j1: int)

  /** Where the last operation ends in a: the first line of a not yet consumed. */
  function Cursor<T>(ops: seq<Operation<T>>): int {
    if |ops| == 0 then 0 else ops[|ops| - 1].i2
  }

  /** Each operation starts at or after the end of the one before and does not run backwards. */
  predicate Ordered<T>(ops: seq<Operation<T>>)
    decreases |ops|
  {
    |ops| == 0 ||
    (var init, o := ops[..|ops| - 1], ops[|ops| - 1];
     Ordered(init) && 0 <= Cursor(init) <= o.i1 <= o.i2)
  }

  /** The lines of a up to the cursor of ops, with the operations applied. */
  function Applied<T>(a: seq<T>, ops: seq<Operation<T>>): (r: seq<T>)
    requires Ordered(ops) && Cursor(ops) <= |a|
    decreases |ops|
  {
    if |ops| == 0 then []
    else
      var init, o := ops[..|ops| - 1], ops[|ops| - 1];
      Applied(a, init) + a[Cursor(init)..o.i1] + (if o.kind == Insert then o.content else [])
  }

  /** a with every operation applied, each to the lines of a it names. */
  function ApplyOps<T>(a: seq<T>, ops: seq<Operation<T>>): seq<T>
    requires Ordered(ops) && Cursor(ops) <= |a|
  {
    Applied(a, ops) + a[Cursor(ops)..]
  }

  /** Number of lines the operations delete and insert. */
  function Cost<T>(ops: seq<Operation<T>>): int
    decreases |ops|
  {
    if |ops| == 0 then 0
    else
      var o := ops[|ops| - 1];
      Cost(ops[..|ops| - 1]) + (o.i2 - o.i1) + |o.content|
  }

  /** A delete of at least one line, or an insert of at least one line of b taken from b at j1. */
  ghost predicate Shaped<T>(b: seq<T>, o: Operation<T>) {
    (o.kind == Delete ==> o.content == [] && o.i1 < o.i2) &&
    (o.kind == Insert ==> o.i1 == o.i2 && 0 <= o.j1 && 0 < |o.content| && o.j1 + |o.content| <= |b| &&
                          o.content == b[o.j1..o.j1 + |o.content|])
  }

  ghost predicate AllShaped<T>(b: seq<T>, ops: seq<Operation<T>>) {
    forall i :: 0 <= i < |ops| ==> Shaped(b, ops[i])
  }

  /**
   * operations' state at (x, y): the operations so far turn a[..x] into b[..y], costing
   * as many moves as reach (x, y), and there are no more of them than lines consumed.
   */
  ghost predicate Progress<T>(a: seq<T>, b: seq<T>, ops: seq<Operation<T>>, x: int, y: int) {
    0 <= x <= |a| && 0 <= y <= |b| && |ops| <= x + y &&
    Ordered(ops) && Cursor(ops) <= x && AllShaped(b, ops) &&
    Applied(a, ops) + a[Cursor(ops)..x] == b[..y] &&
    Reach(a, b, Cost(ops), x, y)
  }

  /** Right moves from p to q: how far q's diagonal lies to the right of p's. */
  function H(p: Point, q: Point): int {
    if q.x - q.y > p.x - p.y then (q.x - q.y) - (p.x - p.y) else 0
  }

  /** Down moves from p to q: how far q's diagonal lies to the left of p's. */
  function V(p: Point, q: Point): int {
    if q.x - q.y < p.x - p.y then (p.x - p.y) - (q.x - q.y) else 0
  }

  /** Right and down moves from p to q, the distance between their diagonals. */
  function Moves(p: Point, q: Point): (n: int)
    ensures n >= 0 && (n == (q.x - q.y) - (p.x - p.y) || n == (p.x - p.y) - (q.x - q.y))
  {
    H(p, q) + V(p, q)
  }

  /**
   * The walk from p to q that operations takes: right moves while q's diagonal is to
   * the right, down moves while it is to the left, then shared lines to q.
   */
  ghost predicate Move<T>(a: seq<T>, b: seq<T>, p: Point, q: Point) {
    0 <= p.x && p.x + H(p, q) <= q.x <= |a| && 0 <= p.y && p.y + V(p, q) <= q.y <= |b| &&
    a[p.x + H(p, q)..q.x] == b[p.y + V(p, q)..q.y]
  }

  /** The operations of the walk from p to q: a delete of the right moves, an insert of the down moves. */
  function WalkOps<T>(b: seq<T>, p: Point, q: Point): seq<Operation<T>>
    requires 0 <= p.y && p.y + V(p, q) <= |b|
  {
    (if H(p, q) > 0 then [Operation(Delete, [], p.x, p.x + H(p, q), p.y)] else []) +
    (if V(p, q) > 0 then [Operation(Insert, b[p.y..p.y + V(p, q)], p.x, p.x, p.y)] else [])
  }

  /** The walk keeps operations' state, at the cost of its moves. */
  lemma WalkProgress<T>(a: seq<T>, b: seq<T>, ops: seq<Operation<T>>, p: Point, q: Point)
    requires Progress(a, b, ops, p.x, p.y) && Move(a, b, p, q)
    ensures Progress(a, b, ops + WalkOps(b, p, q), q.x, q.y)
    ensures Cost(ops + WalkOps(b, p, q)) == Cost(ops) + Moves(p, q)
  {
    if H(p, q) > 0 {
      WalkRight(a, b, ops, p, q);
    } else if V(p, q) > 0 {
      WalkDown(a, b, ops, p, q);
    } else {
      WalkShared(a, b, ops, p, q);
    }
  }

  lemma WalkRight<T>(a: seq<T>, b: seq<T>, ops: seq<Operation<T>>, p: Point, q: Point)
    requires Progress(a, b, ops, p.x, p.y) && Move(a, b, p, q) && H(p, q) > 0
    ensures Progress(a, b, ops + WalkOps(b, p, q), q.x, q.y)
    ensures Cost(ops + WalkOps(b, p, q)) == Cost(ops) + Moves(p, q)
  {
    var o := Operation(Delete, [], p.x, p.x + H(p, q), p.y);
    assert WalkOps(b, p, q) == [o];
    assert ops + WalkOps(b, p, q) == ops + [o];
    assert p.y + V(p, q) == p.y;
    ProgressDelete(a, b, ops, p.x, p.y, p.x + H(p, q), o);
    ProgressShared(a, b, ops + [o], p.x + H(p, q), p.y, q.x, q.y);
    assert Cost(ops + [o]) == Cost(ops) + Moves(p, q);
  }

  lemma WalkDown<T>(a: seq<T>, b: seq<T>, ops: seq<Operation<T>>, p: Point, q: Point)
    requires Progress(a, b, ops, p.x, p.y) && Move(a, b, p, q) && H(p, q) == 0 && V(p, q) > 0
    ensures Progress(a, b, ops + WalkOps(b, p, q), q.x, q.y)
    ensures Cost(ops + WalkOps(b, p, q)) == Cost(ops) + Moves(p, q)
  {
    var y2 := p.y + V(p, q);
    assert p.x + H(p, q) == p.x && 0 <= p.y < y2 <= |b|;
    var o := Operation(Insert, b[p.y..y2], p.x, p.x, p.y);
    assert WalkOps(b, p, q) == [o];
    assert ops + WalkOps(b, p, q) == ops + [o];
    ProgressInsert(a, b, ops, p.x, p.y, y2, o);
    ProgressShared(a, b, ops + [o], p.x, y2, q.x, q.y);
    assert Cost(ops + [o]) == Cost(ops) + Moves(p, q);
  }

  lemma WalkShared<T>(a: seq<T>, b: seq<T>, ops: seq<Operation<T>>, p: Point, q: Point)
    requires Progress(a, b, ops, p.x, p.y) && Move(a, b, p, q) && H(p, q) == 0 && V(p, q) == 0
    ensures Progress(a, b, ops + WalkOps(b, p, q), q.x, q.y)
    ensures Cost(ops + WalkOps(b, p, q)) == Cost(ops) + Moves(p, q)
  {
    assert ops + WalkOps(b, p, q) == ops;
    assert p.x + H(p, q) == p.x && p.y + V(p, q) == p.y;
    ProgressShared(a, b, ops, p.x, p.y, q.x, q.y);
  }

  /** The lines a snake from (x, y) passes over are shared lines of a and b. */
  lemma SnakeSlices<T>(a: seq<T>, b: seq<T>, x: nat, y: nat)
    requires x <= |a| && y <= |b|
    ensures var e := Snake(a, b, x, y); y + (e - x) <= |b| && a[x..e] == b[y..y + (e - x)]
  {
    var e := Snake(a, b, x, y);
    forall j | 0 <= j < e - x
      ensures a[x..e][j] == b[y..y + (e - x)][j]
    {
      SnakeShared(a, b, x, y, x + j);
    }
  }

  /** An edge of backtrack's path is a walk operations can take. */
  lemma MoveEdge<T>(a: seq<T>, b: seq<T>, p: Point, q: Point)
    requires Edge(a, b, p, q) && Inside(a, b, q)
    ensures Move(a, b, p, q) && Moves(p, q) == 1
  {
    if q.x - q.y == p.x - p.y - 1 && q.x == Snake(a, b, p.x, p.y + 1) {
      SnakeSlices(a, b, p.x, p.y + 1);
    } else {
      SnakeSlices(a, b, p.x + 1, p.y);
    }
  }

  /** The first point of backtrack's path is a walk from (0, 0). */
  lemma MoveFirst<T>(a: seq<T>, b: seq<T>, q: Point)
    requires FirstOk(a, b, q) && Inside(a, b, q)
    ensures Move(a, b, Point(0, 0), q)
  {
    if q.x != 0 && q.y != 0 {
      SnakeSlices(a, b, 0, 0);
    }
  }

  lemma {:induction false} ReachRightBy<T>(a: seq<T>, b: seq<T>, d: int, x: int, y: int, h: nat)
    requires Reach(a, b, d, x, y)
    ensures Reach(a, b, d + h, x + h, y)
    decreases h
  {
    if h > 0 {
      ReachRightBy(a, b, d, x, y, h - 1);
    }
  }

  lemma {:induction false} ReachDownBy<T>(a: seq<T>, b: seq<T>, d: int, x: int, y: int, v: nat)
    requires Reach(a, b, d, x, y)
    ensures Reach(a, b, d + v, x, y + v)
    decreases v
  {
    if v > 0 {
      ReachDownBy(a, b, d, x, y, v - 1);
    }
  }

  lemma {:induction false} ReachShared<T>(a: seq<T>, b: seq<T>, d: int, x: int, y: int, n: nat)
    requires Reach(a, b, d, x, y) && x + n <= |a| && y + n <= |b| && a[x..x + n] == b[y..y + n]
    ensures Reach(a, b, d, x + n, y + n)
    decreases n
  {
    if n > 0 {
      assert a[x..x + n][n - 1] == b[y..y + n][n - 1];
      assert a[x..x + n - 1] == a[x..x + n][..n - 1] && b[y..y + n - 1] == b[y..y + n][..n - 1];
      ReachShared(a, b, d, x, y, n - 1);
    }
  }

  /** Finishing a pending operation at (i2, j2), as operations' add does. */
  function Finish<T>(b: seq<T>, o: Operation<T>, i2: int, j2: int): Operation<T>
    requires o.kind == Insert ==> 0 <= o.j1 <= j2 <= |b|
  {
    if o.kind == Insert then o.(i2 := i2, content := b[o.j1..j2]) else o.(i2 := i2)
  }

  /** Appending an operation that starts at or after the cursor. */
  lemma Snoc<T>(a: seq<T>, b: seq<T>, ops: seq<Operation<T>>, o: Operation<T>)
    requires Ordered(ops) && 0 <= Cursor(ops) <= o.i1 <= o.i2 <= |a|
    ensures Ordered(ops + [o]) && Cursor(ops + [o]) == o.i2
    ensures Applied(a, ops + [o]) == Applied(a, ops) + a[Cursor(ops)..o.i1] + (if o.kind == Insert then o.content else [])
    ensures Cost(ops + [o]) == Cost(ops) + (o.i2 - o.i1) + |o.content|
    ensures AllShaped(b, ops) && Shaped(b, o) ==> AllShaped(b, ops + [o])
    ensures |ops + [o]| == |ops| + 1
  {
    assert (ops + [o])[..|ops|] == ops;
  }

  lemma ProgressDelete<T>(a: seq<T>, b: seq<T>, ops: seq<Operation<T>>, x: int, y: int, x2: int, o: Operation<T>)
    requires Progress(a, b, ops, x, y) && x < x2 <= |a| && o == Operation(Delete, [], x, x2, y)
    ensures Progress(a, b, ops + [o], x2, y) && Cost(ops + [o]) == Cost(ops) + (x2 - x)
  {
    Snoc(a, b, ops, o);
    ReachRightBy(a, b, Cost(ops), x, y, x2 - x);
  }

  lemma ProgressInsert<T>(a: seq<T>, b: seq<T>, ops: seq<Operation<T>>, x: int, y: int, y2: int, o: Operation<T>)
    requires Progress(a, b, ops, x, y) && 0 <= y < y2 <= |b| && o == Operation(Insert, b[y..y2], x, x, y)
    ensures Progress(a, b, ops + [o], x, y2) && Cost(ops + [o]) == Cost(ops) + (y2 - y)
  {
    Snoc(a, b, ops, o);
    assert b[..y] + b[y..y2] == b[..y2];
    ReachDownBy(a, b, Cost(ops), x, y, y2 - y);
  }

  lemma ProgressShared<T>(a: seq<T>, b: seq<T>, ops: seq<Operation<T>>, x: int, y: int, x2: int, y2: int)
    requires Progress(a, b, ops, x, y) && x <= x2 <= |a| && y2 <= |b| && x2 - x == y2 - y && a[x..x2] == b[y..y2]
    ensures Progress(a, b, ops, x2, y2)
  {
    assert a[Cursor(ops)..x2] == a[Cursor(ops)..x] + a[x..x2];
    assert b[..y2] == b[..y] + b[y..y2];
    ReachShared(a, b, Cost(ops), x, y, x2 - x);
  }

  /** operations' add: a pending operation, finished at (i2, j2), goes into solution at i. */
  method Add<T>(b: seq<T>, solution: array<Operation<T>>, i: int, op: Option<Operation<T>>, i2: int, j2: int)
      returns (i': int)
    requires 0 <= i <= solution.Length
    requires op.Some? ==> i < solution.Length && (op.value.kind == Insert ==> 0 <= op.value.j1 <= j2 <= |b|)
    modifies solution
    ensures op.None? ==> i' == i && solution[..i'] == old(solution[..i])
    ensures op.Some? ==> i' == i + 1 && solution[..i'] == old(solution[..i]) + [Finish(b, op.value, i2, j2)]
  {
    if op.None? {
      return i;
    }
    var o := op.value.(i2 := i2);
    if o.kind == Insert {
      o := o.(content := b[o.j1..j2]);
    }
    solution[i] := o;
    i' := i + 1;
  }

  /**
   * One snake of operations: the right moves become one delete, the down moves one
   * insert, and the shared lines after them no operation.
   */
  method Walk<T(==)>(b: seq<T>, M: int, solution: array<Operation<T>>, i: int, x: int, y: int, q: Point)
      returns (i': int, x': int, y': int)
    requires 0 <= x && x + H(Point(x, y), q) <= q.x <= M && 0 <= y && y + V(Point(x, y), q) <= q.y <= |b|
    requires 0 <= i && i + Moves(Point(x, y), q) <= solution.Length
    modifies solution
    ensures x' == q.x && y' == q.y && i <= i' <= solution.Length
    ensures solution[..i'] == old(solution[..i]) + WalkOps(b, Point(x, y), q)
  {
    var op;
    x', op := Deletes(M, x, y, q);
    i' := Add(b, solution, i, op, x', y);
    var i1 := i';
    y', op := Inserts(x', y, q);
    i' := Add(b, solution, i', op, x', y');
    x', y' := Diagonal(x', y', q.x);
  }

  /** operations' delete loop: right moves while q's diagonal is to the right, stopping at the end of a. */
  method Deletes<T>(M: int, x: int, y: int, q: Point) returns (x': int, op: Option<Operation<T>>)
    requires x <= q.x <= M && y <= q.y && (q.x - q.y > x - y ==> x + (q.x - q.y) - (x - y) <= q.x)
    ensures x' == if q.x - q.y > x - y then x + (q.x - q.y) - (x - y) else x
    ensures op == if x' == x then None else Some(Operation(Delete, [], x, 0, y))
  {
    op := None;
    x' := x;
    var stop := false;
    while q.x - q.y > x' - y && !stop
      invariant x <= x' && (x' > x ==> x' - y <= q.x - q.y) && (stop ==> x' == M)
      invariant op == if x' == x then None else Some(Operation(Delete, [], x, 0, y))
      decreases q.x - x'
    {
      if op.None? {
        op := Some(Operation(Delete, [], x', 0, y));
      }
      x' := x' + 1;
      stop := x' == M;
    }
  }

  /** operations' insert loop: down moves while q's diagonal is to the left. */
  method Inserts<T>(x: int, y: int, q: Point) returns (y': int, op: Option<Operation<T>>)
    ensures y' == if q.x - q.y < x - y then y + (x - y) - (q.x - q.y) else y
    ensures op == if y' == y then None else Some(Operation(Insert, [], x, 0, y))
  {
    op := None;
    y' := y;
    while q.x - q.y < x - y'
      invariant y <= y' && (y' > y ==> q.x - q.y <= x - y')
      invariant op == if y' == y then None else Some(Operation(Insert, [], x, 0, y))
      decreases x - y' - (q.x - q.y)
    {
      if op.None? {
        op := Some(Operation(Insert, [], x, 0, y'));
      }
      y' := y' + 1;
    }
  }

  /** operations' equal loop: diagonal moves up to column qx. */
  method Diagonal(x: int, y: int, qx: int) returns (x': int, y': int)
    requires x <= qx
    ensures x' == qx && y' == y + (qx - x)
  {
    x', y' := x, y;
    while x' < qx
      invariant x <= x' <= qx && x' - y' == x - y
    {
      x' := x' + 1;
      y' := y' + 1;
    }
  }

  /** c moves reach (|a|, |b|) and no fewer do: an edit script of c lines is a shortest one. */
  ghost predicate Shortest<T>(a: seq<T>, b: seq<T>, c: int) {
    Reach(a, b, c, |a|, |b|) && forall d :: 0 <= d < c ==> !Reach(a, b, d, |a|, |b|)
  }

  /**
   * operations: the line operations that turn a into b, one delete and one insert at
   * most per snake of backtrack's path, and as few lines as any edit script needs.
   */
  method Operations<T(==)>(a: seq<T>, b: seq<T>) returns (ops: seq<Operation<T>>)
    ensures Ordered(ops) && Cursor(ops) <= |a| && AllShaped(b, ops)
    ensures ApplyOps(a, ops) == b
    ensures Shortest(a, b, Cost(ops))
  {
    if |a| == 0 && |b| == 0 {
      assert Reach(a, b, 0, 0, 0);
      return [];
    }
    var trace, offset, D := ShortestEditSequence(a, b);
    var snakes, lo := Backtrack(a, b, D, trace, |a|, |b|, offset);
    ops := Follow(a, b, D, lo, snakes);
    ShortestBelow(a, b, Cost(ops), D);
  }

  /** An edit script reaching (|a|, |b|) in at most D lines, where D - 1 lines do not, is a shortest one. */
  lemma ShortestBelow<T>(a: seq<T>, b: seq<T>, c: int, D: nat)
    requires Reach(a, b, c, |a|, |b|) && c <= D && (D > 0 ==> !Reach(a, b, D - 1, |a|, |b|))
    ensures Shortest(a, b, c)
  {
    forall d | 0 <= d < c
      ensures !Reach(a, b, d, |a|, |b|)
    {
      if Reach(a, b, d, |a|, |b|) {
        ReachMono(a, b, d, D - 1, |a|, |b|);
      }
    }
  }

  /** operations' loop over the snakes: the walk along the path, operations collected in solution. */
  method Follow<T(==)>(a: seq<T>, b: seq<T>, ghost D: nat, ghost lo: nat, snakes: seq<Option<Point>>)
      returns (ops: seq<Operation<T>>)
    requires Linked(a, b, snakes, lo, D) && FirstOk(a, b, snakes[lo].value)
    requires -(lo as int) <= snakes[lo].value.x - snakes[lo].value.y <= lo
    ensures Ordered(ops) && Cursor(ops) <= |a| && AllShaped(b, ops)
    ensures ApplyOps(a, ops) == b && Reach(a, b, Cost(ops), |a|, |b|) && Cost(ops) <= D
  {
    var M, N := |a|, |b|;
    var solution := new Operation<T>[M + N](_ => Operation(Delete, [], 0, 0, 0));
    var i, x, y := 0, 0, 0;
    var e, done := 0, false;
    FollowStart(a, b, D, lo, snakes);
    while e < |snakes| && !done
      invariant 0 <= i <= solution.Length == M + N
      invariant Following(a, b, D, lo, snakes, solution[..i], e, done, x, y)
      decreases |snakes| - e
    {
      i, x, y, done := FollowOne(a, b, D, lo, snakes, solution, i, e, x, y);
      e := e + 1;
    }
    ops := solution[..i];
    FollowEnd(a, b, D, lo, snakes, ops, e, done, x, y);
  }

  /** Before the first snake: no operations yet, at (0, 0). */
  lemma FollowStart<T>(a: seq<T>, b: seq<T>, D: nat, lo: nat, s: seq<Option<Point>>)
    requires Linked(a, b, s, lo, D) && FirstOk(a, b, s[lo].value)
    requires -(lo as int) <= s[lo].value.x - s[lo].value.y <= lo
    ensures Following(a, b, D, lo, s, [], 0, false, 0, 0)
  {
    assert Reach(a, b, 0, 0, 0);
    assert LinkAt(a, b, s, lo, D, 0);
  }

  /** One iteration of operations' loop: a snake is walked, a missing one skipped. */
  method FollowOne<T(==)>(a: seq<T>, b: seq<T>, ghost D: nat, ghost lo: nat, snakes: seq<Option<Point>>,
                          solution: array<Operation<T>>, i: int, e: int, x: int, y: int)
      returns (i': int, x': int, y': int, done: bool)
    requires 0 <= i <= solution.Length == |a| + |b|
    requires Following(a, b, D, lo, snakes, solution[..i], e, false, x, y) && e < |snakes|
    modifies solution
    ensures 0 <= i' <= solution.Length
    ensures Following(a, b, D, lo, snakes, solution[..i'], e + 1, done, x', y')
  {
    if snakes[e].Some? {
      i', x', y', done := FollowSnake(a, b, D, lo, snakes, solution, i, e, x, y);
    } else {
      FollowSkip(a, b, D, lo, snakes, solution[..i], e, x, y);
      i', x', y', done := i, x, y, false;
    }
  }

  /** One snake of operations' loop, ending with its check for (|a|, |b|). */
  method FollowSnake<T(==)>(a: seq<T>, b: seq<T>, ghost D: nat, ghost lo: nat, snakes: seq<Option<Point>>,
                            solution: array<Operation<T>>, i: int, e: int, x: int, y: int)
      returns (i': int, x': int, y': int, done: bool)
    requires 0 <= i <= solution.Length == |a| + |b|
    requires Following(a, b, D, lo, snakes, solution[..i], e, false, x, y) && e < |snakes| && snakes[e].Some?
    modifies solution
    ensures 0 <= i' <= solution.Length
    ensures Following(a, b, D, lo, snakes, solution[..i'], e + 1, done, x', y')
  {
    var q := snakes[e].value;
    ghost var ops0 := solution[..i];
    FollowWalk(a, b, D, lo, snakes, ops0, e, x, y);
    i', x', y' := Walk(b, |a|, solution, i, x, y, q);
    done := x' >= |a| && y' >= |b|;
  }

  /**
   * Snake e's walk stays within a and b, its operations fit in solution, and it moves
   * operations' loop on to snake e + 1.
   */
  lemma FollowWalk<T>(a: seq<T>, b: seq<T>, D: nat, lo: nat, s: seq<Option<Point>>,
                      ops: seq<Operation<T>>, e: int, x: int, y: int)
    requires Following(a, b, D, lo, s, ops, e, false, x, y) && e < |s| && s[e].Some?
    ensures var p, q := Point(x, y), s[e].value;
      && 0 <= x && x + H(p, q) <= q.x <= |a| && 0 <= y && y + V(p, q) <= q.y <= |b|
      && |ops| + Moves(p, q) <= |a| + |b|
      && Following(a, b, D, lo, s, ops + WalkOps(b, p, q), e + 1, q.x >= |a| && q.y >= |b|, q.x, q.y)
  {
    var p, q := Point(x, y), s[e].value;
    FollowMove(a, b, D, lo, s, ops, e, x, y);
    WalkProgress(a, b, ops, p, q);
    FollowStep(a, b, D, lo, s, ops, ops + WalkOps(b, p, q), e, p, q);
  }

  /**
   * operations' loop before snake e: the operations so far have brought (0, 0) to the
   * point of the last snake handled, at most one line per round of the path; done once
   * (|a|, |b|) is reached.
   */
  ghost predicate Following<T>(a: seq<T>, b: seq<T>, D: nat, lo: nat, s: seq<Option<Point>>,
                               ops: seq<Operation<T>>, e: int, done: bool, x: int, y: int) {
    PathOk(a, b, s, lo, D) && Progress(a, b, ops, x, y) && 0 <= e <= |s| && Stage(a, b, D, lo, s, ops, e, done, x, y)
  }

  /** The path backtrack found, from its first snake on. */
  ghost predicate PathOk<T>(a: seq<T>, b: seq<T>, s: seq<Option<Point>>, lo: nat, D: nat) {
    Linked(a, b, s, lo, D) && FirstOk(a, b, s[lo].value) && -(lo as int) <= s[lo].value.x - s[lo].value.y <= lo
  }

  /** Where operations' loop stands on the path before snake e. */
  ghost predicate Stage<T>(a: seq<T>, b: seq<T>, D: nat, lo: nat, s: seq<Option<Point>>,
                           ops: seq<Operation<T>>, e: int, done: bool, x: int, y: int) {
    (e <= lo ==> !done && ops == [] && x == 0 && y == 0) &&
    (e > lo ==> Cost(ops) <= e - 1) &&
    (done ==> x == |a| && y == |b| && e - 1 <= D) &&
    (!done ==> e <= D && (e > lo ==> e <= |s| && s[e - 1] == Some(Point(x, y))))
  }

  lemma FollowMove<T>(a: seq<T>, b: seq<T>, D: nat, lo: nat, s: seq<Option<Point>>,
                      ops: seq<Operation<T>>, e: int, x: int, y: int)
    requires Following(a, b, D, lo, s, ops, e, false, x, y) && e < |s| && s[e].Some?
    ensures var q := s[e].value;
      Move(a, b, Point(x, y), q) && Moves(Point(x, y), q) <= (if e == lo then lo else 1) &&
      x + H(Point(x, y), q) <= q.x <= |a| && y + V(Point(x, y), q) <= q.y <= |b| &&
      |ops| + Moves(Point(x, y), q) <= |a| + |b|
  {
    assert LinkAt(a, b, s, lo, D, e);
    if e == lo {
      MoveFirst(a, b, s[e].value);
    } else {
      MoveEdge(a, b, Point(x, y), s[e].value);
    }
  }

  lemma FollowStep<T>(a: seq<T>, b: seq<T>, D: nat, lo: nat, s: seq<Option<Point>>,
                      ops: seq<Operation<T>>, ops': seq<Operation<T>>, e: int, p: Point, q: Point)
    requires Following(a, b, D, lo, s, ops, e, false, p.x, p.y) && e < |s| && s[e] == Some(q)
    requires Moves(p, q) <= (if e == lo then lo else 1)
    requires Progress(a, b, ops', q.x, q.y) && Cost(ops') == Cost(ops) + Moves(p, q)
    ensures Following(a, b, D, lo, s, ops', e + 1, q.x >= |a| && q.y >= |b|, q.x, q.y)
  {
    assert LinkAt(a, b, s, lo, D, e);
    if e == D {
      assert q == Point(|a|, |b|);
    }
  }

  lemma FollowSkip<T>(a: seq<T>, b: seq<T>, D: nat, lo: nat, s: seq<Option<Point>>,
                      ops: seq<Operation<T>>, e: int, x: int, y: int)
    requires Following(a, b, D, lo, s, ops, e, false, x, y) && e < |s| && s[e].None?
    ensures Following(a, b, D, lo, s, ops, e + 1, false, x, y)
  {
    assert LinkAt(a, b, s, lo, D, e);
  }

  lemma FollowEnd<T>(a: seq<T>, b: seq<T>, D: nat, lo: nat, s: seq<Option<Point>>,
                     ops: seq<Operation<T>>, e: int, done: bool, x: int, y: int)
    requires Following(a, b, D, lo, s, ops, e, done, x, y) && !(e < |s| && !done)
    ensures Ordered(ops) && Cursor(ops) <= |a| && AllShaped(b, ops)
    ensures ApplyOps(a, ops) == b && Reach(a, b, Cost(ops), |a|, |b|) && Cost(ops) <= D
  {
    assert b[..|b|] == b;
  }
}
