/** `ChessBoard::isPathClear`: the walk along the unit step between two
    squares on a common row, column or diagonal. */
module Paths {
  import opened ChessTypes
  import opened Boards

  function Sign(x: int): int
  {
    if x > 0 then 1 else if x < 0 then -1 else 0
  }

  /** The unit step from `from` toward `to`, one of the eight compass
      directions, or (0, 0) when the squares coincide. */
  function Direction(from: Pos, to: Pos): Pos
  {
    Pos(Sign(to.row - from.row), Sign(to.col - from.col))
  }

  /** `s * k` for a step component `s` in {-1, 0, 1}. */
  function Scale(s: int, k: int): int
  {
    if s > 0 then k else if s < 0 then -k else 0
  }

  /** The square `k` steps of `d` away from `from`. */
  function Along(from: Pos, d: Pos, k: int): Pos
  {
    Pos(from.row + Scale(d.row, k), from.col + Scale(d.col, k))
  }

  /** Chebyshev distance: the number of king steps between two squares. */
  function Dist(a: Pos, b: Pos): nat
  {
    var dr := Abs(a.row - b.row);
    var dc := Abs(a.col - b.col);
    if dr >= dc then dr else dc
  }

  /** On a common row, column or diagonal. */
  predicate Aligned(a: Pos, b: Pos)
  {
    a.row == b.row || a.col == b.col || Abs(a.row - b.row) == Abs(a.col - b.col)
  }

  /** Every square strictly between `from` and `to` is empty. */
  ghost predicate PathClear(b: Board, from: Pos, to: Pos)
  {
    forall k :: 0 < k < Dist(from, to) ==> GetPiece(b, Along(from, Direction(from, to), k)).None?
  }

  /** Walking from aligned squares toward each other: `Dist(from, to)` steps
      of `Direction(from, to)` reach `to`, and one step keeps the remaining
      squares aligned, one closer and in the same direction. */
  lemma StepToward(from: Pos, to: Pos)
    requires Aligned(from, to)
    ensures Along(from, Direction(from, to), Dist(from, to)) == to
    ensures from != to ==>
              var n := Add(from, Direction(from, to));
              && Aligned(n, to)
              && Dist(n, to) == Dist(from, to) - 1
              && (n != to ==> Direction(n, to) == Direction(from, to))
  {
  }

  /** The loop of `isPathClear`: visit squares from `cur` in steps of `d`
      until `to` is reached, failing on the first occupied one. */
  function Walk(b: Board, cur: Pos, to: Pos, d: Pos): (clear: bool)
    requires Aligned(cur, to)
    requires cur != to ==> d == Direction(cur, to)
    decreases Dist(cur, to)
    ensures clear <==> forall k :: 0 <= k < Dist(cur, to) ==> GetPiece(b, Along(cur, d, k)).None?
  {
    if cur == to then true
    else if GetPiece(b, cur).Some? then
      assert Along(cur, d, 0) == cur;
      false
    else
      StepToward(cur, to);
      WalkStep(b, cur, to, d);
      Walk(b, Add(cur, d), to, d)
  }

  /** One step of the walk: an empty `cur` followed by an empty run from the
      next square is an empty run from `cur`. */
  lemma WalkStep(b: Board, cur: Pos, to: Pos, d: Pos)
    requires Aligned(cur, to) && cur != to && d == Direction(cur, to)
    requires GetPiece(b, cur).None?
    ensures (forall k :: 0 <= k < Dist(Add(cur, d), to) ==> GetPiece(b, Along(Add(cur, d), d, k)).None?)
            <==> (forall k :: 0 <= k < Dist(cur, to) ==> GetPiece(b, Along(cur, d, k)).None?)
  {
    StepToward(cur, to);
    var n := Add(cur, d);
    assert forall k :: Along(n, d, k) == Along(cur, d, k + 1);
    assert Along(cur, d, 0) == cur;
    if forall k :: 0 <= k < Dist(n, to) ==> GetPiece(b, Along(n, d, k)).None? {
      forall k | 0 <= k < Dist(cur, to) ensures GetPiece(b, Along(cur, d, k)).None? {
        if k > 0 {
          assert Along(cur, d, k) == Along(n, d, k - 1);
        }
      }
    }
  }

  /** `ChessBoard::isPathClear`. The caller guarantees the squares are
      aligned, which is what makes the walk reach `to`. The endpoints are
      never inspected. */
  function IsPathClear(b: Board, from: Pos, to: Pos): (clear: bool)
    requires Aligned(from, to)
    ensures clear <==> PathClear(b, from, to)
  {
    var d := Direction(from, to);
    StepToward(from, to);
    var clear := Walk(b, Add(from, d), to, d);
    assert forall k :: Along(Add(from, d), d, k) == Along(from, d, k + 1);
    assert clear <==> PathClear(b, from, to) by {
      if clear {
        forall k | 0 < k < Dist(from, to) ensures GetPiece(b, Along(from, d, k)).None? {
          assert Along(from, d, k) == Along(Add(from, d), d, k - 1);
        }
      }
    }
    clear
  }

  /** The squares strictly between aligned endpoints are distinct from both
      endpoints, so what stands on `from` or `to` never affects the walk. */
  lemma InteriorExcludesEndpoints(from: Pos, to: Pos, k: int)
    requires Aligned(from, to) && 0 < k < Dist(from, to)
    ensures Along(from, Direction(from, to), k) != from
    ensures Along(from, Direction(from, to), k) != to
  {
  }

  /** The walk's unchecked grid read stays on the board: from an on-board
      square toward another on-board square, or toward the sentinel
      (-1, -1) along the long diagonal, every interior square is on the
      board. */
  lemma InteriorOnBoard(from: Pos, to: Pos, k: int)
    requires OnBoard(from) && (OnBoard(to) || to == Sentinel)
    requires Aligned(from, to) && 0 < k < Dist(from, to)
    ensures OnBoard(Along(from, Direction(from, to), k))
  {
  }
}
