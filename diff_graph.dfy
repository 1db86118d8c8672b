/**
 * The edit graph behind diff/diff.go's Myers search. A point (x, y) means "the first x
 * lines of a and the first y lines of b are accounted for". Moving right deletes a[x],
 * moving down inserts b[y], and a diagonal move keeps a line that a and b share. A
 * diagonal k holds the points with x - y == k.
 */
module DiffGraph {

  /** A point of the edit graph; backtrack's snakes are such points. */
  datatype Point = Point(x: int, y: int)

  function Min(p: int, q: int): int {
    if p <= q then p else q
  }

  /** The x where the run of shared lines that starts at (x, y) ends. */
  function Snake<T(==)>(a: seq<T>, b: seq<T>, x: nat, y: nat): (e: nat)
    ensures e >= x
    ensures x <= |a| ==> e <= |a|
    ensures y <= |b| ==> e - x + y <= |b|
    decreases |a| - x
  {
    if x < |a| && y < |b| && a[x] == b[y] then Snake(a, b, x + 1, y + 1) else x
  }

  /** Every line the run passes over is shared. */
  lemma {:induction false} SnakeShared<T>(a: seq<T>, b: seq<T>, x: nat, y: nat, i: int)
    requires x <= i < Snake(a, b, x, y)
    ensures i < |a| && i - x + y < |b| && a[i] == b[i - x + y]
    decreases |a| - x
  {
    if i > x {
      SnakeShared(a, b, x + 1, y + 1, i);
    }
  }

  /** The run stops at a line that is not shared, or at the end of a or b. */
  lemma {:induction false} SnakeStops<T>(a: seq<T>, b: seq<T>, x: nat, y: nat)
    ensures var e := Snake(a, b, x, y);
      !(e < |a| && e - x + y < |b| && a[e] == b[e - x + y])
    decreases |a| - x
  {
    if x < |a| && y < |b| && a[x] == b[y] {
      SnakeStops(a, b, x + 1, y + 1);
    }
  }

  /**
   * (x, y) can be reached from (0, 0) with at most d right and down moves and any
   * number of diagonal moves over shared lines.
   */
  ghost predicate Reach<T>(a: seq<T>, b: seq<T>, d: int, x: int, y: int)
    decreases d, x + y
  {
    0 <= d && 0 <= x && 0 <= y &&
    ((x == 0 && y == 0)
     || (0 < x <= |a| && 0 < y <= |b| && a[x - 1] == b[y - 1] && Reach(a, b, d, x - 1, y - 1))
     || (0 < x && Reach(a, b, d - 1, x - 1, y))
     || (0 < y && Reach(a, b, d - 1, x, y - 1)))
  }

  /** x is the furthest point on diagonal k that d right and down moves reach. */
  ghost predicate Furthest<T>(a: seq<T>, b: seq<T>, d: int, k: int, x: int) {
    Reach(a, b, d, x, x - k) &&
    forall x', y' :: Reach(a, b, d, x', y') && x' - y' == k ==> x' <= x
  }

  /** Round d of the search visits the diagonals -d, -d + 2, ..., d. */
  predicate OnRound(k: int, d: int) {
    -d <= k <= d && (k - d) % 2 == 0
  }

  /** A point reached with d moves lies on one of the diagonals -d .. d. */
  lemma {:induction false} ReachDiagonal<T>(a: seq<T>, b: seq<T>, d: int, x: int, y: int)
    requires Reach(a, b, d, x, y)
    ensures -d <= x - y <= d
    decreases d, x + y
  {
    if x == 0 && y == 0 {
    } else if 0 < x <= |a| && 0 < y <= |b| && a[x - 1] == b[y - 1] && Reach(a, b, d, x - 1, y - 1) {
      ReachDiagonal(a, b, d, x - 1, y - 1);
    } else if 0 < x && Reach(a, b, d - 1, x - 1, y) {
      ReachDiagonal(a, b, d - 1, x - 1, y);
    } else {
      ReachDiagonal(a, b, d - 1, x, y - 1);
    }
  }

  /** More moves reach at least as much. */
  lemma {:induction false} ReachMono<T>(a: seq<T>, b: seq<T>, d: int, e: int, x: int, y: int)
    requires Reach(a, b, d, x, y) && d <= e
    ensures Reach(a, b, e, x, y)
    decreases d, x + y
  {
    if x == 0 && y == 0 {
    } else if 0 < x <= |a| && 0 < y <= |b| && a[x - 1] == b[y - 1] && Reach(a, b, d, x - 1, y - 1) {
      ReachMono(a, b, d, e, x - 1, y - 1);
    } else if 0 < x && Reach(a, b, d - 1, x - 1, y) {
      ReachMono(a, b, d - 1, e - 1, x - 1, y);
    } else {
      ReachMono(a, b, d - 1, e - 1, x, y - 1);
    }
  }

  /** The number of moves to a point on diagonal k has the parity of k: one move of the other parity is spare. */
  lemma {:induction false} ReachParity<T>(a: seq<T>, b: seq<T>, d: int, x: int, y: int)
    requires Reach(a, b, d, x, y) && (d - (x - y)) % 2 != 0
    ensures Reach(a, b, d - 1, x, y)
    decreases d, x + y
  {
    if x == 0 && y == 0 {
    } else if 0 < x <= |a| && 0 < y <= |b| && a[x - 1] == b[y - 1] && Reach(a, b, d, x - 1, y - 1) {
      ReachParity(a, b, d, x - 1, y - 1);
    } else if 0 < x && Reach(a, b, d - 1, x - 1, y) {
      ReachParity(a, b, d - 1, x - 1, y);
    } else {
      ReachParity(a, b, d - 1, x, y - 1);
    }
  }

  /** Following a run of shared lines costs nothing. */
  lemma {:induction false} ReachSnake<T>(a: seq<T>, b: seq<T>, d: int, x: nat, y: nat)
    requires Reach(a, b, d, x, y)
    ensures Reach(a, b, d, Snake(a, b, x, y), Snake(a, b, x, y) - x + y)
    decreases |a| - x
  {
    if x < |a| && y < |b| && a[x] == b[y] {
      assert Reach(a, b, d, x + 1, y + 1);
      ReachSnake(a, b, d, x + 1, y + 1);
    }
  }

  /** Deleting all of a and then inserting all of b: (|a|, |b|) is reached with |a| + |b| moves. */
  lemma ReachCorner<T>(a: seq<T>, b: seq<T>)
    ensures Reach(a, b, |a| + |b|, |a|, |b|)
  {
    ReachRight(a, b, |a|);
    ReachDown(a, b, |a|, |b|);
  }

  lemma {:induction false} ReachRight<T>(a: seq<T>, b: seq<T>, x: nat)
    ensures Reach(a, b, x, x, 0)
  {
    if x > 0 {
      ReachRight(a, b, x - 1);
    }
  }

  lemma {:induction false} ReachDown<T>(a: seq<T>, b: seq<T>, x: nat, y: nat)
    requires Reach(a, b, x, x, 0)
    ensures Reach(a, b, x + y, x, y)
  {
    if y > 0 {
      ReachDown(a, b, x, y - 1);
    }
  }

  /**
   * A point beyond the end of a or b is reached only through moves that leave the grid:
   * its projection onto the grid is reached with that many fewer moves.
   */
  lemma {:induction false} ReachClamp<T>(a: seq<T>, b: seq<T>, d: int, x: int, y: int)
    requires Reach(a, b, d, x, y)
    ensures Reach(a, b, d - (x - Min(x, |a|)) - (y - Min(y, |b|)), Min(x, |a|), Min(y, |b|))
    decreases d, x + y
  {
    if x == 0 && y == 0 {
    } else if 0 < x <= |a| && 0 < y <= |b| && a[x - 1] == b[y - 1] && Reach(a, b, d, x - 1, y - 1) {
    } else if 0 < x && Reach(a, b, d - 1, x - 1, y) {
      ReachClamp(a, b, d - 1, x - 1, y);
    } else {
      ReachClamp(a, b, d - 1, x, y - 1);
    }
  }

  /** Round 0 follows the shared lines from (0, 0); nothing else is reachable without moves. */
  lemma OriginFurthest<T>(a: seq<T>, b: seq<T>)
    ensures Furthest(a, b, 0, 0, Snake(a, b, 0, 0))
  {
    assert Reach(a, b, 0, 0, 0);
    ReachSnake(a, b, 0, 0, 0);
    forall x', y' | Reach(a, b, 0, x', y') && x' - y' == 0
      ensures x' <= Snake(a, b, 0, 0)
    {
      OriginUpper(a, b, x', y');
    }
  }

  lemma {:induction false} OriginUpper<T>(a: seq<T>, b: seq<T>, x: int, y: int)
    requires Reach(a, b, 0, x, y)
    ensures x == y && x <= Snake(a, b, 0, 0)
    decreases x + y
  {
    if x != 0 || y != 0 {
      assert 0 < x <= |a| && 0 < y <= |b| && a[x - 1] == b[y - 1] && Reach(a, b, 0, x - 1, y - 1);
      OriginUpper(a, b, x - 1, y - 1);
      if x - 1 == Snake(a, b, 0, 0) {
        SnakeStops(a, b, 0, 0);
      }
    }
  }

  /**
   * The step of the search: on diagonal k, round d starts one move away from the furthest
   * points of round d - 1 on k + 1 (down) or k - 1 (right), preferring the larger x, and
   * follows the shared lines. The result is the furthest point round d can reach on k.
   */
  lemma RoundFurthest<T>(a: seq<T>, b: seq<T>, d: int, k: int, xl: int, xr: int, s: int)
    requires 1 <= d && -d <= k <= d
    requires k > -d ==> Furthest(a, b, d - 1, k - 1, xl)
    requires k < d ==> Furthest(a, b, d - 1, k + 1, xr)
    requires s == if k == -d || (k != d && xl < xr) then xr else xl + 1
    ensures 0 <= s && 0 <= s - k
    ensures Furthest(a, b, d, k, Snake(a, b, s, s - k))
  {
    if k == -d || (k != d && xl < xr) {
      assert Reach(a, b, d - 1, xr, xr - (k + 1));
      assert Reach(a, b, d, xr, xr - k);
    } else {
      assert Reach(a, b, d - 1, xl, xl - (k - 1));
      assert Reach(a, b, d, xl + 1, xl + 1 - k);
    }
    ReachSnake(a, b, d, s, s - k);
    forall x', y' | Reach(a, b, d, x', y') && x' - y' == k
      ensures x' <= Snake(a, b, s, s - k)
    {
      RoundUpper(a, b, d, k, xl, xr, s, x', y');
    }
  }

  lemma {:induction false} RoundUpper<T>(a: seq<T>, b: seq<T>, d: int, k: int, xl: int, xr: int, s: int, x: int, y: int)
    requires 1 <= d && -d <= k <= d
    requires k > -d ==> Furthest(a, b, d - 1, k - 1, xl)
    requires k < d ==> Furthest(a, b, d - 1, k + 1, xr)
    requires s == if k == -d || (k != d && xl < xr) then xr else xl + 1
    requires 0 <= s && 0 <= s - k
    requires Reach(a, b, d, x, y) && x - y == k
    ensures x <= Snake(a, b, s, s - k)
    decreases x + y
  {
    var e := Snake(a, b, s, s - k);
    if x == 0 && y == 0 {
    } else if 0 < x <= |a| && 0 < y <= |b| && a[x - 1] == b[y - 1] && Reach(a, b, d, x - 1, y - 1) {
      RoundUpper(a, b, d, k, xl, xr, s, x - 1, y - 1);
      if x - 1 == e {
        SnakeStops(a, b, s, s - k);
      }
    } else if 0 < x && Reach(a, b, d - 1, x - 1, y) {
      ReachDiagonal(a, b, d - 1, x - 1, y);
    } else {
      assert 0 < y && Reach(a, b, d - 1, x, y - 1);
      ReachDiagonal(a, b, d - 1, x, y - 1);
    }
  }

  /**
   * If (|a|, |b|) is out of reach with d - 1 moves and round d's furthest point on its
   * diagonal is not (|a|, |b|), then it is out of reach with d moves as well.
   */
  lemma NoHitUnreached<T>(a: seq<T>, b: seq<T>, d: nat, far: int)
    requires d > 0 ==> !Reach(a, b, d - 1, |a|, |b|)
    requires OnRound(|a| - |b|, d) ==> Furthest(a, b, d, |a| - |b|, far) && far != |a|
    ensures !Reach(a, b, d, |a|, |b|)
  {
    if Reach(a, b, d, |a|, |b|) {
      ReachDiagonal(a, b, d, |a|, |b|);
      if (d - (|a| - |b|)) % 2 != 0 {
        ReachParity(a, b, d, |a|, |b|);
      } else {
        var t := far - |a|;
        ReachClamp(a, b, d, far, far - (|a| - |b|));
        ReachMono(a, b, d - 2 * t, d - 1, |a|, |b|);
      }
      assert false;
    }
  }
}
