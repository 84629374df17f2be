/** The move gate `ChessBoard::move`, the legal-move search
    `hasAnyLegalMoves` and the end-of-game classification `getGameStatus`. */
module Engine {
  import opened ChessTypes
  import opened Boards
  import opened Paths
  import opened PieceRules
  import opened CheckDetection

  /** The outcome of `move`: whether it was accepted, and the board after. */
  datatype MoveResult = MoveResult(accepted: bool, board: Board)

  /** The outcome of `hasAnyLegalMoves`: whether a move was found, and the
      board once every trial has been taken back. */
  datatype Search = Search(found: bool, board: Board)

  /** A move one trial of `hasAnyLegalMoves` accepts: a piece of colour `c`
      stands on `from`, its shape allows `to`, and placing it there does not
      leave `c`'s king in check. What stands on `to` is not looked at. */
  ghost predicate LegalTrial(b: Board, c: Colour, from: Pos, to: Pos)
  {
    && OnBoard(from) && OnBoard(to)
    && GetPiece(b, from).Some?
    && GetPiece(b, from).value.colour == c
    && IsMoveValid(b, GetPiece(b, from).value, from, to)
    && !IsKingInCheck(Trial(b, from, to, GetPiece(b, from).value), c)
  }

  ghost predicate HasLegalTrial(b: Board, c: Colour)
  {
    exists from, to :: LegalTrial(b, c, from, to)
  }

  /** `to` holds a piece of colour `c`. */
  ghost predicate HoldsColour(b: Board, to: Pos, c: Colour)
  {
    GetPiece(b, to).Some? && GetPiece(b, to).value.colour == c
  }

  /** The piece a move leaves on `to`: a pawn reaching row 0 or 7 becomes a
      queen of its own colour. */
  function Promoted(p: Piece, to: Pos): Piece
  {
    if p.kind == Pawn && (to.row == 0 || to.row == 7) then Piece(p.colour, Queen) else p
  }

  /** The commit after a successful trial: promotion on `to`, then the turn
      flip. Any captured piece was already overwritten by the trial. */
  function Commit(trial: Board, to: Pos, p: Piece): (after: Board)
    requires OnBoard(to)
    ensures after.turn == Other(trial.turn)
    ensures GetPiece(after, to) == Some(Promoted(p, to))
    ensures forall q :: q != to ==> GetPiece(after, q) == GetPiece(trial, q)
  {
    Board(trial.squares[to := Promoted(p, to)], Other(trial.turn))
  }

  /** `ChessBoard::move`. */
  function Move(b: Board, from: Pos, to: Pos): (res: MoveResult)
    requires OnBoard(to)
    // the gate: the side to move makes a trial-legal move that captures no piece of its own
    ensures res.accepted <==> LegalTrial(b, b.turn, from, to) && !HoldsColour(b, to, b.turn)
    // a rejected move leaves the grid and the turn as they were
    ensures !res.accepted ==> res.board == b
    // an accepted move empties `from`, fills `to`, touches nothing else and flips the turn
    ensures res.accepted ==>
              && GetPiece(res.board, from) == None
              && (forall q :: q != from && q != to ==> GetPiece(res.board, q) == GetPiece(b, q))
              && res.board.turn == Other(b.turn)
    ensures res.accepted ==> GetPiece(res.board, to) == Some(Promoted(GetPiece(b, from).value, to))
  {
    var p := GetPiece(b, from);
    if p.None? || p.value.colour != b.turn then MoveResult(false, b)
    else if !IsMoveValid(b, p.value, from, to) then MoveResult(false, b)
    else
      var dest := GetPiece(b, to);
      if dest.Some? && dest.value.colour == p.value.colour then MoveResult(false, b)
      else
        var trial := Trial(b, from, to, p.value);
        if IsKingInCheck(trial, b.turn) then
          RestoreUndoesTrial(b, from, to);
          MoveResult(false, Restore(trial, from, to, p.value, dest))
        else
          MoveResult(true, Commit(trial, to, p.value))
  }

  /** An accepted move never leaves the mover's own king in check, judged on
      the committed board: the trial the gate judged differs from it at most
      by the promoted pawn, which is a non-king piece of the mover's colour
      in both. */
  lemma AcceptedMoveLeavesKingSafe(b: Board, from: Pos, to: Pos)
    requires OnBoard(to)
    requires Move(b, from, to).accepted
    ensures !IsKingInCheck(Move(b, from, to).board, b.turn)
  {
    var p := GetPiece(b, from).value;
    var trial := Trial(b, from, to, p);
    var after := Move(b, from, to).board;
    assert !IsKingInCheck(trial, b.turn);
    assert AgreeExceptOwn(trial, after, to, b.turn);
    CheckIgnoresOwnNonKing(trial, after, to, b.turn);
  }

  /** `k` is the only king of colour `c` on the board. */
  ghost predicate OnlyKing(b: Board, c: Colour, k: Pos)
  {
    && OnBoard(k) && IsKingAt(b, k, c)
    && forall q :: OnBoard(q) && IsKingAt(b, q, c) ==> q == k
  }

  /** A position of a game in progress: one king of each colour, and the
      side that has just moved is not in check. */
  ghost predicate InPlay(b: Board)
  {
    && (exists k :: OnlyKing(b, White, k))
    && (exists k :: OnlyKing(b, Black, k))
    && !IsKingInCheck(b, Other(b.turn))
  }

  /** An accepted move never lands on the opponent's king when the opponent
      is not in check: the mover's shape would then attack that king. So
      the opponent's only king stays where it was. */
  lemma MoveSparesOpponentKing(b: Board, from: Pos, to: Pos, k: Pos)
    requires OnBoard(to) && Move(b, from, to).accepted
    requires OnlyKing(b, Other(b.turn), k)
    requires !IsKingInCheck(b, Other(b.turn))
    ensures OnlyKing(Move(b, from, to).board, Other(b.turn), k)
  {
    FindKingUnique(b, Other(b.turn), k);
    assert Attacks(b, from, to, Other(b.turn));
    RelocateSparesKing(b, Move(b, from, to).board, from, to, GetPiece(b, from).value, k);
  }

  /** Relocating a piece onto any square but the only king of the other
      colour leaves that king the only one, in place. */
  lemma RelocateSparesKing(b: Board, after: Board, from: Pos, to: Pos, p: Piece, k: Pos)
    requires GetPiece(b, from) == Some(p) && OnlyKing(b, Other(p.colour), k) && to != k
    requires GetPiece(after, from) == None && GetPiece(after, to) == Some(Promoted(p, to))
    requires forall q :: q != from && q != to ==> GetPiece(after, q) == GetPiece(b, q)
    ensures OnlyKing(after, Other(p.colour), k)
  {
    assert Promoted(p, to).colour == p.colour != Other(p.colour);
    assert from != k;
  }

  /** Relocating a piece of colour `c` from `from` onto a square that holds
      none of `c`'s pieces, with promotion, keeps `c`'s king the only one:
      on `to` when the king moved, in place otherwise. */
  lemma RelocateKeepsOnlyKing(b: Board, after: Board, from: Pos, to: Pos, p: Piece, k: Pos)
    requires OnBoard(from) && OnBoard(to)
    requires GetPiece(b, from) == Some(p) && OnlyKing(b, p.colour, k)
    requires !HoldsColour(b, to, p.colour)
    requires GetPiece(after, from) == None && GetPiece(after, to) == Some(Promoted(p, to))
    requires forall q :: q != from && q != to ==> GetPiece(after, q) == GetPiece(b, q)
    ensures OnlyKing(after, p.colour, if from == k then to else k)
  {
    assert Promoted(p, to).kind == King <==> p.kind == King;
    assert from != k ==> k != to && GetPiece(after, k) == GetPiece(b, k);
  }

  /** An accepted move keeps the mover's king the only one of its colour,
      on `to` when it was the king that moved and in place otherwise. */
  lemma MoveKeepsMoverKing(b: Board, from: Pos, to: Pos, k: Pos)
    requires OnBoard(to) && Move(b, from, to).accepted
    requires OnlyKing(b, b.turn, k)
    ensures OnlyKing(Move(b, from, to).board, b.turn, if from == k then to else k)
  {
    var p := GetPiece(b, from).value;
    RelocateKeepsOnlyKing(b, Move(b, from, to).board, from, to, p, k);
  }

  /** Play keeps its invariant: from a position with one king of each colour
      and the last mover out of check, every call of `move`, accepted or
      not, leads to such a position. So between moves the king search never
      falls back to the sentinel. */
  lemma MoveKeepsPlay(b: Board, from: Pos, to: Pos)
    requires OnBoard(to) && InPlay(b)
    ensures InPlay(Move(b, from, to).board)
  {
    var res := Move(b, from, to);
    if res.accepted {
      var c := b.turn;
      var mine :| OnlyKing(b, c, mine);
      var theirs :| OnlyKing(b, Other(c), theirs);
      MoveKeepsMoverKing(b, from, to, mine);
      MoveSparesOpponentKing(b, from, to, theirs);
      AcceptedMoveLeavesKingSafe(b, from, to);
      assert res.board.turn == Other(c) && Other(Other(c)) == c;
    }
  }

  /** The target loops of `hasAnyLegalMoves` for the piece `p` on `from`,
      from target `t` on: each shape-valid target is tried and taken back. */
  function AnyTarget(b: Board, c: Colour, from: Pos, p: Piece, t: Pos): (res: Search)
    requires OnBoard(from) && GetPiece(b, from) == Some(p) && p.colour == c
    requires IsCursor(t)
    decreases 8 - t.row, 8 - t.col
    ensures res.board == b
    ensures res.found <==> exists to :: AtOrAfter(to, t) && LegalTrial(b, c, from, to)
  {
    if t.row == 8 then Search(false, b)
    else
      assert forall q :: OnBoard(q) ==> (AtOrAfter(q, t) <==> q == t || AtOrAfter(q, Next(t)));
      if IsMoveValid(b, p, from, t) then
        var dest := GetPiece(b, t);
        var trial := Trial(b, from, t, p);
        var inCheck := IsKingInCheck(trial, c);
        RestoreUndoesTrial(b, from, t);
        var restored := Restore(trial, from, t, p, dest);
        if !inCheck then Search(true, restored)
        else AnyTarget(restored, c, from, p, Next(t))
      else AnyTarget(b, c, from, p, Next(t))
  }

  /** The piece loops of `hasAnyLegalMoves`, from square `f` on. */
  function AnyFrom(b: Board, c: Colour, f: Pos): (res: Search)
    requires IsCursor(f)
    decreases 8 - f.row, 8 - f.col
    ensures res.board == b
    ensures res.found <==> exists from, to :: AtOrAfter(from, f) && LegalTrial(b, c, from, to)
  {
    if f.row == 8 then Search(false, b)
    else
      assert forall q :: OnBoard(q) ==> (AtOrAfter(q, f) <==> q == f || AtOrAfter(q, Next(f)));
      var p := GetPiece(b, f);
      if p.Some? && p.value.colour == c then
        var inner := AnyTarget(b, c, f, p.value, Pos(0, 0));
        if inner.found then inner
        else AnyFrom(inner.board, c, Next(f))
      else AnyFrom(b, c, Next(f))
  }

  /** `ChessBoard::hasAnyLegalMoves`: every trial is taken back, and a move
      is found exactly when some trial-legal move exists. */
  function HasAnyLegalMoves(b: Board, c: Colour): (res: Search)
    ensures res.board == b
    ensures res.found <==> HasLegalTrial(b, c)
  {
    AnyFrom(b, c, Pos(0, 0))
  }

  /** `ChessBoard::getGameStatus`, for the side to move. */
  function GetGameStatus(b: Board): (s: GameStatus)
    ensures s == Ongoing <==> HasLegalTrial(b, b.turn)
    ensures s == Checkmate <==> !HasLegalTrial(b, b.turn) && IsKingInCheck(b, b.turn)
    ensures s == Stalemate <==> !HasLegalTrial(b, b.turn) && !IsKingInCheck(b, b.turn)
  {
    var search := HasAnyLegalMoves(b, b.turn);
    if search.found then Ongoing
    else if IsKingInCheck(search.board, b.turn) then Checkmate
    else Stalemate
  }

  /** The end-of-game verdict is sound: once the status is CHECKMATE or
      STALEMATE, `move` rejects every move of the side to move. (The
      converse fails: the search also counts captures of one's own piece.) */
  lemma TerminalStatusRejectsEveryMove(b: Board, from: Pos, to: Pos)
    requires OnBoard(to)
    requires GetGameStatus(b) != Ongoing
    ensures !Move(b, from, to).accepted
  {
  }

  /** `move` rejects the null move of every piece, sliders included: the
      destination holds the mover itself. */
  lemma MoveRejectsNullMove(b: Board, p: Pos)
    requires OnBoard(p)
    ensures !Move(b, p, p).accepted
  {
  }

  /** A move requested by the input loop. */
  datatype Request = Request(from: Pos, to: Pos)

  /** The board and the number of accepted moves after a run of requests. */
  datatype Played = Played(board: Board, accepted: nat)

  /** Every request names an on-board destination. */
  predicate OnBoardTargets(moves: seq<Request>)
  {
    forall i :: 0 <= i < |moves| ==> OnBoard(moves[i].to)
  }

  /** One turn of the input loop: the request goes to `move` on the board
      so far, and an acceptance is counted. The count grows by at most one,
      and the turn flips exactly when it grows. */
  function Feed(prior: Played, request: Request): (next: Played)
    requires OnBoard(request.to)
    ensures next.accepted == prior.accepted || next.accepted == prior.accepted + 1
    ensures next.board.turn == if next.accepted == prior.accepted then prior.board.turn else Other(prior.board.turn)
  {
    var step := Move(prior.board, request.from, request.to);
    Played(step.board, prior.accepted + if step.accepted then 1 else 0)
  }

  /** The input loop as a fold of `Feed` over the first `k` requests. */
  function Play(b: Board, moves: seq<Request>, k: nat): (res: Played)
    requires OnBoardTargets(moves) && k <= |moves|
    // at most one acceptance per request, and one turn flip per acceptance
    ensures res.accepted <= k
    ensures res.board.turn == FlipTimes(b.turn, res.accepted)
  {
    if k == 0 then Played(b, 0)
    else
      var prior := Play(b, moves, k - 1);
      assert OnBoard(moves[k - 1].to);
      var next := Feed(prior, moves[k - 1]);
      FlipTimesNext(b.turn, prior.board.turn, prior.accepted, next.board.turn, next.accepted);
      next
  }

  /** Feeding a sequence of requests to `move` in order, as the input loop
      does: the same board and count as the fold `Play`, at most one
      acceptance per request, and the turn flipped exactly once per accepted
      move, so the side to move at the end is the starting side exactly when
      an even number of moves was accepted. */
  method Replay(b: Board, moves: seq<Request>) returns (final: Board, accepted: nat)
    requires OnBoardTargets(moves)
    ensures Played(final, accepted) == Play(b, moves, |moves|)
    ensures accepted <= |moves|
    ensures final.turn == FlipTimes(b.turn, accepted)
    ensures final.turn == b.turn <==> accepted % 2 == 0
  {
    final, accepted := b, 0;
    var i := 0;
    while i < |moves|
      invariant 0 <= i <= |moves|
      invariant Played(final, accepted) == Play(b, moves, i)
    {
      assert OnBoard(moves[i].to);
      var next := Feed(Played(final, accepted), moves[i]);
      final, accepted := next.board, next.accepted;
      i := i + 1;
    }
    FlipTimesParity(b.turn, accepted);
    if accepted % 2 == 0 {
      assert final.turn == b.turn;
    } else {
      assert final.turn == Other(b.turn) != b.turn;
    }
  }
}
