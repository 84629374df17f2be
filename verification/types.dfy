/** Vocabulary shared by the chess rule engine of main.cpp: colours, piece
    kinds, pieces, squares and the end-of-game classification. Colours and
    kinds are strings in the source; here they are closed enumerations. */
module ChessTypes {

  datatype Option<+T> = None | Some(value: T)

  /** The two sides ("white" and "black" in the source). */
  datatype Colour = White | Black

  datatype Kind = Pawn | Rook | Knight | Bishop | Queen | King

  datatype Piece = Piece(colour: Colour, kind: Kind)

  /** A square as (row, column). Row 0 is black's back rank and row 7 is
      white's. Coordinates are unbounded integers so that off-board squares,
      among them the king-search sentinel, stay expressible. */
  datatype Pos = Pos(row: int, col: int)

  datatype GameStatus = Ongoing | Checkmate | Stalemate

  /** The opponent of `c`; the turn flip of `move`. */
  function Other(c: Colour): Colour
  {
    if c == White then Black else White
  }

  function Abs(x: int): nat
  {
    if x < 0 then -x else x
  }

  predicate OnBoard(p: Pos)
  {
    0 <= p.row < 8 && 0 <= p.col < 8
  }

  /** The square `isKingInCheck` falls back to when it finds no king. */
  const Sentinel := Pos(-1, -1)

  /** Rook, bishop and queen: the kinds whose moves need a clear path. */
  predicate IsSlider(k: Kind)
  {
    k == Rook || k == Bishop || k == Queen
  }

  function Add(p: Pos, d: Pos): Pos
  {
    Pos(p.row + d.row, p.col + d.col)
  }

  /** A cursor of a row-major scan over the board: a square, or a square of
      row 8 once every square has been visited. */
  predicate IsCursor(p: Pos)
  {
    0 <= p.row <= 8 && 0 <= p.col < 8
  }

  /** The row-major successor of a square: (r, 7) is followed by (r + 1, 0). */
  function Next(p: Pos): Pos
  {
    if p.col < 7 then Pos(p.row, p.col + 1) else Pos(p.row + 1, 0)
  }

  /** `q` is visited no earlier than `p` by a row-major scan. */
  predicate AtOrAfter(q: Pos, p: Pos)
  {
    q.row > p.row || (q.row == p.row && q.col >= p.col)
  }

  /** `c` after `n` turn flips. */
  function FlipTimes(c: Colour, n: nat): Colour
    decreases n
  {
    if n == 0 then c else FlipTimes(Other(c), n - 1)
  }

  /** Flipping the turn an even number of times returns to the same side,
      an odd number of times gives the other side. */
  lemma {:induction false} FlipTimesParity(c: Colour, n: nat)
    decreases n
    ensures FlipTimes(c, n) == if n % 2 == 0 then c else Other(c)
  {
    if n > 0 {
      FlipTimesParity(Other(c), n - 1);
    }
  }

  /** One more flip is the opponent of the current side. */
  lemma {:induction false} FlipTimesStep(c: Colour, n: nat)
    decreases n
    ensures FlipTimes(c, n + 1) == Other(FlipTimes(c, n))
  {
    if n > 0 {
      FlipTimesStep(Other(c), n - 1);
    }
  }

  /** A run that flipped `n0` times and then took one more request: the
      count grows by one exactly when the side to move flips. */
  lemma FlipTimesNext(c: Colour, t0: Colour, n0: nat, t1: Colour, n1: nat)
    requires t0 == FlipTimes(c, n0)
    requires (n1 == n0 && t1 == t0) || (n1 == n0 + 1 && t1 == Other(t0))
    ensures t1 == FlipTimes(c, n1)
  {
    FlipTimesStep(c, n0);
  }
}
