/** The board of main.cpp: an 8x8 grid of optional pieces plus the side to
    move, and the two grid edits that `move` and `hasAnyLegalMoves` use to
    simulate a move and to take it back. */
module Boards {
  import opened ChessTypes

  /** A square without a piece is absent from `squares`. */
  datatype Board = Board(squares: map<Pos, Piece>, turn: Colour)

  /** `ChessBoard::getPiece`: an off-board square reads as empty. */
  function GetPiece(b: Board, p: Pos): (r: Option<Piece>)
    ensures !OnBoard(p) ==> r == None
  {
    if !OnBoard(p) then None
    else if p in b.squares then Some(b.squares[p])
    else None
  }

  /** The tentative placement: `to` receives the piece, then `from` is
      cleared, in that order. When `from == to` the piece disappears. */
  function Trial(b: Board, from: Pos, to: Pos, p: Piece): (t: Board)
    requires OnBoard(from) && OnBoard(to)
    ensures t.turn == b.turn
    ensures GetPiece(t, from) == None
    ensures from != to ==> GetPiece(t, to) == Some(p)
    ensures forall q :: q != from && q != to ==> GetPiece(t, q) == GetPiece(b, q)
  {
    Board(b.squares[to := p] - {from}, b.turn)
  }

  /** Taking a trial back: `from` gets the mover again, then `to` gets its
      former occupant `dest` (or is cleared if it had none). */
  function Restore(b: Board, from: Pos, to: Pos, p: Piece, dest: Option<Piece>): Board
    requires OnBoard(from) && OnBoard(to)
  {
    var s := b.squares[from := p];
    Board(if dest.Some? then s[to := dest.value] else s - {to}, b.turn)
  }

  /** Simulate-and-revert is a transaction: restoring the recorded occupants
      of both squares gives back exactly the board the trial started from,
      including for the null move `from == to`. */
  lemma RestoreUndoesTrial(b: Board, from: Pos, to: Pos)
    requires OnBoard(from) && OnBoard(to) && GetPiece(b, from).Some?
    ensures Restore(Trial(b, from, to, GetPiece(b, from).value), from, to,
                    GetPiece(b, from).value, GetPiece(b, to)) == b
  {
    var p := GetPiece(b, from).value;
    var r := Restore(Trial(b, from, to, p), from, to, p, GetPiece(b, to));
    assert r.squares.Keys == b.squares.Keys;
    assert forall q :: q in r.squares ==> r.squares[q] == b.squares[q];
  }

  /** The piece kind `setupBoard` places in column `col` of a back rank. */
  function BackRankKind(col: int): Kind
  {
    if col == 0 || col == 7 then Rook
    else if col == 1 || col == 6 then Knight
    else if col == 2 || col == 5 then Bishop
    else if col == 3 then Queen
    else King
  }

  /** What `setupBoard` puts on square `q`: black on rows 0 and 1, white on
      rows 6 and 7, pawns on rows 1 and 6, nothing elsewhere. */
  function StartingPiece(q: Pos): Option<Piece>
  {
    if !OnBoard(q) || 2 <= q.row <= 5 then None
    else Some(Piece(if q.row <= 1 then Black else White,
                    if q.row == 1 || q.row == 6 then Pawn else BackRankKind(q.col)))
  }

  /** `ChessBoard::setupBoard` together with the constructor's turn "white". */
  function InitialBoard(): (b: Board)
    ensures b.turn == White
    ensures forall q :: GetPiece(b, q) == StartingPiece(q)
  {
    var squares := map r, c | 0 <= r < 8 && 0 <= c < 8 && (r <= 1 || 6 <= r) ::
      Pos(r, c) := StartingPiece(Pos(r, c)).value;
    Board(squares, White)
  }

  /** The starting position has sixteen pieces a side on their home rows
      and exactly one king of each colour, on column 4. */
  lemma InitialPosition()
    ensures forall q :: OnBoard(q) && 2 <= q.row <= 5 ==> GetPiece(InitialBoard(), q) == None
    ensures forall q :: OnBoard(q) && q.row <= 1 ==>
              GetPiece(InitialBoard(), q).Some? && GetPiece(InitialBoard(), q).value.colour == Black
    ensures forall q :: OnBoard(q) && 6 <= q.row ==>
              GetPiece(InitialBoard(), q).Some? && GetPiece(InitialBoard(), q).value.colour == White
    ensures forall q :: OnBoard(q) && (q.row == 1 || q.row == 6) ==>
              GetPiece(InitialBoard(), q).Some? && GetPiece(InitialBoard(), q).value.kind == Pawn
    ensures forall q :: GetPiece(InitialBoard(), q).Some? && GetPiece(InitialBoard(), q).value.kind == King ==>
              q == Pos(0, 4) || q == Pos(7, 4)
    ensures GetPiece(InitialBoard(), Pos(0, 4)) == Some(Piece(Black, King))
    ensures GetPiece(InitialBoard(), Pos(7, 4)) == Some(Piece(White, King))
  {
    var b := InitialBoard();
    forall q | GetPiece(b, q).Some? && GetPiece(b, q).value.kind == King
      ensures q == Pos(0, 4) || q == Pos(7, 4)
    {
      assert StartingPiece(q).Some?;
      assert BackRankKind(q.col) == King;
    }
  }
}
