/** The per-kind move shapes of the `Piece` hierarchy (`isMoveValid`). They
    read the board but ignore whose turn it is and whether the mover's king
    ends up in check; those belong to the move gate. */
module PieceRules {
  import opened ChessTypes
  import opened Boards
  import opened Paths

  /** The row step of a pawn: -1 (toward row 0) for white, +1 for black. */
  function Forward(c: Colour): int
  {
    if c == White then -1 else 1
  }

  /** The row from which a pawn may advance two squares. */
  function HomeRow(c: Colour): int
  {
    if c == White then 6 else 1
  }

  /** One square straight ahead onto an empty square. */
  ghost predicate SinglePush(b: Board, c: Colour, from: Pos, to: Pos)
  {
    to == Pos(from.row + Forward(c), from.col) && GetPiece(b, to).None?
  }

  /** Two squares straight ahead from the home row, over an empty square
      onto an empty square. */
  ghost predicate DoublePush(b: Board, c: Colour, from: Pos, to: Pos)
  {
    && from.row == HomeRow(c)
    && to == Pos(from.row + 2 * Forward(c), from.col)
    && GetPiece(b, Pos(from.row + Forward(c), from.col)).None?
    && GetPiece(b, to).None?
  }

  /** One square diagonally ahead onto a piece of the other colour. */
  ghost predicate DiagonalCapture(b: Board, c: Colour, from: Pos, to: Pos)
  {
    && to.row == from.row + Forward(c)
    && Abs(to.col - from.col) == 1
    && GetPiece(b, to).Some?
    && GetPiece(b, to).value.colour != c
  }

  /** `Pawn::isMoveValid`. */
  function PawnMoveValid(b: Board, c: Colour, from: Pos, to: Pos): (valid: bool)
    ensures valid <==> SinglePush(b, c, from, to) || DoublePush(b, c, from, to)
                       || DiagonalCapture(b, c, from, to)
    ensures valid ==> from != to
    ensures valid ==> to.row - from.row == Forward(c) || to.row - from.row == 2 * Forward(c)
    ensures valid && GetPiece(b, to).Some? ==>
              Abs(to.col - from.col) == 1 && GetPiece(b, to).value.colour != c
  {
    if from == to then false
    else if from.col == to.col && to.row == from.row + Forward(c) && GetPiece(b, to).None? then true
    else if from.col == to.col && from.row == HomeRow(c) && to.row == from.row + 2 * Forward(c)
            && GetPiece(b, to).None? && GetPiece(b, Pos(from.row + Forward(c), from.col)).None? then true
    else if Abs(to.col - from.col) == 1 && to.row == from.row + Forward(c) then
      var target := GetPiece(b, to);
      target.Some? && target.value.colour != c
    else false
  }

  /** `Knight::isMoveValid`: the board is not consulted. */
  function KnightMoveValid(from: Pos, to: Pos): (valid: bool)
    ensures valid <==> Dist(from, to) == 2 && Abs(from.row - to.row) + Abs(from.col - to.col) == 3
    ensures valid ==> from != to
  {
    var dx := Abs(from.row - to.row);
    var dy := Abs(from.col - to.col);
    (dx == 2 && dy == 1) || (dx == 1 && dy == 2)
  }

  /** `King::isMoveValid`: the board is not consulted. */
  function KingMoveValid(from: Pos, to: Pos): (valid: bool)
    ensures valid <==> Dist(from, to) == 1
  {
    var dx := Abs(from.row - to.row);
    var dy := Abs(from.col - to.col);
    (dx <= 1 && dy <= 1) && (dx + dy > 0)
  }

  /** `Rook::isMoveValid`. */
  function RookMoveValid(b: Board, from: Pos, to: Pos): (valid: bool)
    ensures valid <==> (from.row == to.row || from.col == to.col) && PathClear(b, from, to)
  {
    if from.row == to.row || from.col == to.col then IsPathClear(b, from, to) else false
  }

  /** `Bishop::isMoveValid`. */
  function BishopMoveValid(b: Board, from: Pos, to: Pos): (valid: bool)
    ensures valid <==> Abs(from.row - to.row) == Abs(from.col - to.col) && PathClear(b, from, to)
  {
    if Abs(from.row - to.row) == Abs(from.col - to.col) then IsPathClear(b, from, to) else false
  }

  /** `Queen::isMoveValid`. */
  function QueenMoveValid(b: Board, from: Pos, to: Pos): (valid: bool)
    ensures valid <==> Aligned(from, to) && PathClear(b, from, to)
    ensures valid <==> RookMoveValid(b, from, to) || BishopMoveValid(b, from, to)
  {
    var dr := Abs(from.row - to.row);
    var dc := Abs(from.col - to.col);
    if from.row == to.row || from.col == to.col || dr == dc then IsPathClear(b, from, to) else false
  }

  /** The virtual `isMoveValid`, dispatched on the piece's kind. */
  function IsMoveValid(b: Board, p: Piece, from: Pos, to: Pos): (valid: bool)
    ensures valid && IsSlider(p.kind) ==> Aligned(from, to) && PathClear(b, from, to)
    ensures from == to ==> (valid <==> IsSlider(p.kind))
  {
    match p.kind
    case Pawn => PawnMoveValid(b, p.colour, from, to)
    case Rook => RookMoveValid(b, from, to)
    case Knight => KnightMoveValid(from, to)
    case Bishop => BishopMoveValid(b, from, to)
    case Queen => QueenMoveValid(b, from, to)
    case King => KingMoveValid(from, to)
  }

  /** Move shapes see the board only through which squares are occupied and
      by which colour: two boards that agree on that agree on every move. */
  lemma ShapeDependsOnColoursOnly(b1: Board, b2: Board, p: Piece, from: Pos, to: Pos)
    requires forall q :: GetPiece(b1, q).None? == GetPiece(b2, q).None?
    requires forall q :: GetPiece(b1, q).Some? ==> GetPiece(b1, q).value.colour == GetPiece(b2, q).value.colour
    ensures IsMoveValid(b1, p, from, to) == IsMoveValid(b2, p, from, to)
  {
    assert PathClear(b1, from, to) == PathClear(b2, from, to);
  }
}
