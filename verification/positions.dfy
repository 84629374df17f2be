/** Concrete positions exercising the engine: the opening position, a
    checkmate, a stalemate, a mate the legal-move search misses because it
    counts a king "capturing" its own pawn, and the king-search sentinel. */
module Positions {
  import opened ChessTypes
  import opened Boards
  import opened Paths
  import opened PieceRules
  import opened CheckDetection
  import opened Engine

  /** `c` is in check when its only king stands on `k` and a piece of the
      other colour on `a` has a valid move onto `k`. */
  lemma CheckedBy(b: Board, c: Colour, k: Pos, a: Pos)
    requires OnBoard(k) && IsKingAt(b, k, c)
    requires forall q :: OnBoard(q) && IsKingAt(b, q, c) ==> q == k
    requires OnBoard(a) && Attacks(b, a, k, c)
    ensures IsKingInCheck(b, c)
  {
    FindKingUnique(b, c, k);
  }

  /** `c` is not in check when its only king stands on `k` and no square
      holds an attacker of `k`. */
  lemma NotChecked(b: Board, c: Colour, k: Pos)
    requires OnBoard(k) && IsKingAt(b, k, c)
    requires forall q :: OnBoard(q) && IsKingAt(b, q, c) ==> q == k
    requires forall q :: OnBoard(q) ==> !Attacks(b, q, k, c)
    ensures !IsKingInCheck(b, c)
  {
    FindKingUnique(b, c, k);
  }

  /** Moving a side's only king keeps it the only one, now on `to`. */
  lemma TrialKingAlone(b: Board, c: Colour, from: Pos, to: Pos)
    requires OnBoard(from) && OnBoard(to)
    requires forall q :: OnBoard(q) && IsKingAt(b, q, c) ==> q == from
    ensures forall q :: OnBoard(q) && IsKingAt(Trial(b, from, to, Piece(c, King)), q, c) ==> q == to
  {
  }

  /** A queen of the other colour with a clear aligned run attacks. */
  lemma QueenAttacks(b: Board, a: Pos, k: Pos, c: Colour)
    requires GetPiece(b, a) == Some(Piece(Other(c), Queen))
    requires Aligned(a, k) && PathClear(b, a, k)
    ensures Attacks(b, a, k, c)
  {
  }

  /** A rook of the other colour with a clear run along a rank or file
      attacks. */
  lemma RookAttacks(b: Board, a: Pos, k: Pos, c: Colour)
    requires GetPiece(b, a) == Some(Piece(Other(c), Rook))
    requires (a.row == k.row || a.col == k.col) && PathClear(b, a, k)
    ensures Attacks(b, a, k, c)
  {
  }

  /** A bishop of the other colour with a clear diagonal run attacks. */
  lemma BishopAttacks(b: Board, a: Pos, k: Pos, c: Colour)
    requires GetPiece(b, a) == Some(Piece(Other(c), Bishop))
    requires Abs(a.row - k.row) == Abs(a.col - k.col) && PathClear(b, a, k)
    ensures Attacks(b, a, k, c)
  {
  }

  // ---------------------------------------------------------------------
  // Black king a8, white queen b7, white king c6; black to move.

  predicate MatePosition(b: Board)
  {
    b.turn == Black &&
    b.squares == map[Pos(0, 0) := Piece(Black, King),
                     Pos(1, 1) := Piece(White, Queen),
                     Pos(2, 2) := Piece(White, King)]
  }

  /** The black king's only piece-level moves are its three steps. */
  lemma MateMovesAreKingSteps(b: Board, from: Pos, to: Pos)
    requires MatePosition(b)
    requires OnBoard(from) && OnBoard(to)
    requires GetPiece(b, from).Some? && GetPiece(b, from).value.colour == Black
    requires IsMoveValid(b, GetPiece(b, from).value, from, to)
    ensures from == Pos(0, 0)
    ensures to == Pos(0, 1) || to == Pos(1, 0) || to == Pos(1, 1)
  {
    assert from in b.squares;
    assert from == Pos(0, 0);
    assert KingMoveValid(from, to);
    assert to.row <= 1 && to.col <= 1;
  }

  /** Each king step ends in check: the queen covers a7 and b8, and taking
      the queen on b7 walks into the white king. */
  lemma MateStepChecked(b: Board, from: Pos, to: Pos)
    requires MatePosition(b)
    requires from == Pos(0, 0)
    requires to == Pos(0, 1) || to == Pos(1, 0) || to == Pos(1, 1)
    ensures IsKingInCheck(Trial(b, from, to, GetPiece(b, from).value), Black)
  {
    assert GetPiece(b, from).value == Piece(Black, King);
    var t := Trial(b, from, to, Piece(Black, King));
    if to == Pos(1, 1) {
      assert GetPiece(t, Pos(2, 2)) == Some(Piece(White, King));
      CheckedBy(t, Black, to, Pos(2, 2));
    } else {
      assert GetPiece(t, Pos(1, 1)) == Some(Piece(White, Queen));
      CheckedBy(t, Black, to, Pos(1, 1));
    }
  }

  lemma MateInCheck(b: Board)
    requires MatePosition(b)
    ensures IsKingInCheck(b, Black)
  {
    assert GetPiece(b, Pos(1, 1)) == Some(Piece(White, Queen));
    CheckedBy(b, Black, Pos(0, 0), Pos(1, 1));
  }

  lemma MateNoLegalTrialAt(b: Board, from: Pos, to: Pos)
    requires MatePosition(b)
    ensures !LegalTrial(b, Black, from, to)
  {
    if LegalTrial(b, Black, from, to) {
      MateMovesAreKingSteps(b, from, to);
      MateStepChecked(b, from, to);
    }
  }

  lemma MateNoLegalTrial(b: Board)
    requires MatePosition(b)
    ensures !HasLegalTrial(b, Black)
  {
    forall from, to ensures !LegalTrial(b, Black, from, to) {
      MateNoLegalTrialAt(b, from, to);
    }
  }

  /** The queen, guarded by its king, gives mate: every king step lands on
      an attacked square, so the status is CHECKMATE. */
  lemma MateIsCheckmate(b: Board)
    requires MatePosition(b)
    ensures GetGameStatus(b) == Checkmate
  {
    MateInCheck(b);
    MateNoLegalTrial(b);
  }

  // ---------------------------------------------------------------------
  // Black king a8, white queen b6, white king h1; black to move.

  predicate StalePosition(b: Board)
  {
    b.turn == Black &&
    b.squares == map[Pos(0, 0) := Piece(Black, King),
                     Pos(2, 1) := Piece(White, Queen),
                     Pos(7, 7) := Piece(White, King)]
  }

  lemma StaleMovesAreKingSteps(b: Board, from: Pos, to: Pos)
    requires StalePosition(b)
    requires OnBoard(from) && OnBoard(to)
    requires GetPiece(b, from).Some? && GetPiece(b, from).value.colour == Black
    requires IsMoveValid(b, GetPiece(b, from).value, from, to)
    ensures from == Pos(0, 0)
    ensures to == Pos(0, 1) || to == Pos(1, 0) || to == Pos(1, 1)
  {
    assert from in b.squares;
    assert from == Pos(0, 0);
    assert KingMoveValid(from, to);
    assert to.row <= 1 && to.col <= 1;
  }

  /** The queen on b6 covers a7, b7 and b8 but not a8. */
  lemma StaleStepChecked(b: Board, from: Pos, to: Pos)
    requires StalePosition(b)
    requires from == Pos(0, 0)
    requires to == Pos(0, 1) || to == Pos(1, 0) || to == Pos(1, 1)
    ensures IsKingInCheck(Trial(b, from, to, GetPiece(b, from).value), Black)
  {
    StaleKingAlone(b);
    var t := Trial(b, from, to, Piece(Black, King));
    TrialKingAlone(b, Black, from, to);
    StaleQueenAttacks(b, from, to);
    CheckedBy(t, Black, to, Pos(2, 1));
  }

  /** Black's only king stands on a8. */
  lemma StaleKingAlone(b: Board)
    requires StalePosition(b)
    ensures GetPiece(b, Pos(0, 0)) == Some(Piece(Black, King))
    ensures forall q :: OnBoard(q) && IsKingAt(b, q, Black) ==> q == Pos(0, 0)
  {
  }

  lemma StaleQueenAttacks(b: Board, from: Pos, to: Pos)
    requires StalePosition(b)
    requires from == Pos(0, 0)
    requires to == Pos(0, 1) || to == Pos(1, 0) || to == Pos(1, 1)
    ensures Attacks(Trial(b, from, to, Piece(Black, King)), Pos(2, 1), to, Black)
  {
    var t := Trial(b, from, to, Piece(Black, King));
    var a := Pos(2, 1);
    assert GetPiece(t, a) == Some(Piece(White, Queen));
    assert to == Pos(0, 1) ==> GetPiece(t, Pos(1, 1)).None?;
    StaleQueenRuns(t, to);
    QueenAttacks(t, a, to, Black);
  }

  /** Nothing stands between b6 and the three squares next to a8 once b7
      is empty. */
  lemma StaleQueenRuns(t: Board, to: Pos)
    requires to == Pos(0, 1) || to == Pos(1, 0) || to == Pos(1, 1)
    requires to == Pos(0, 1) ==> GetPiece(t, Pos(1, 1)).None?
    ensures PathClear(t, Pos(2, 1), to)
  {
    var a := Pos(2, 1);
    if to == Pos(0, 1) {
      assert Direction(a, to) == Pos(-1, 0) && Dist(a, to) == 2;
      forall k | 0 < k < Dist(a, to) ensures GetPiece(t, Along(a, Direction(a, to), k)).None? {
        assert k == 1 && Along(a, Pos(-1, 0), 1) == Pos(1, 1);
      }
    } else {
      assert Dist(a, to) == 1;
    }
  }

  lemma StaleNotInCheck(b: Board)
    requires StalePosition(b)
    ensures !IsKingInCheck(b, Black)
  {
    StaleKingAlone(b);
    forall q | OnBoard(q) ensures !Attacks(b, q, Pos(0, 0), Black) {
      StaleNoAttackerOn(b, q);
    }
    NotChecked(b, Black, Pos(0, 0));
  }

  /** Square by square: the only white pieces are the queen on b6, which is
      a knight's jump from a8, and the king on h1. */
  lemma StaleNoAttackerOn(b: Board, q: Pos)
    requires StalePosition(b)
    requires OnBoard(q)
    ensures !Attacks(b, q, Pos(0, 0), Black)
  {
    if q == Pos(2, 1) {
      assert !Aligned(q, Pos(0, 0));
    }
  }

  lemma StaleNoLegalTrialAt(b: Board, from: Pos, to: Pos)
    requires StalePosition(b)
    ensures !LegalTrial(b, Black, from, to)
  {
    if LegalTrial(b, Black, from, to) {
      StaleMovesAreKingSteps(b, from, to);
      StaleStepChecked(b, from, to);
    }
  }

  lemma StaleNoLegalTrial(b: Board)
    requires StalePosition(b)
    ensures !HasLegalTrial(b, Black)
  {
    forall from, to ensures !LegalTrial(b, Black, from, to) {
      StaleNoLegalTrialAt(b, from, to);
    }
  }

  /** A lone king, not in check, with every step covered: STALEMATE. */
  lemma StaleIsStalemate(b: Board)
    requires StalePosition(b)
    ensures GetGameStatus(b) == Stalemate
  {
    StaleNotInCheck(b);
    StaleNoLegalTrial(b);
  }

  // ---------------------------------------------------------------------
  // White king a1 behind its own pawn a2, blocked by a black pawn on a3;
  // black rook h1 gives check, black knight c4 covers b2; black king e8.
  // White to move.

  predicate MaskedPosition(b: Board)
  {
    b.turn == White &&
    b.squares == map[Pos(7, 0) := Piece(White, King),
                     Pos(6, 0) := Piece(White, Pawn),
                     Pos(7, 7) := Piece(Black, Rook),
                     Pos(4, 2) := Piece(Black, Knight),
                     Pos(5, 0) := Piece(Black, Pawn),
                     Pos(0, 4) := Piece(Black, King)]
  }

  /** The white pawn is blocked and has nothing to capture. */
  lemma MaskedPawnStuck(b: Board, to: Pos)
    requires MaskedPosition(b)
    requires OnBoard(to)
    ensures !IsMoveValid(b, Piece(White, Pawn), Pos(6, 0), to)
  {
    assert GetPiece(b, Pos(5, 0)).Some?;
    assert GetPiece(b, Pos(5, 1)).None?;
  }

  lemma MaskedMovesAreKingSteps(b: Board, from: Pos, to: Pos)
    requires MaskedPosition(b)
    requires OnBoard(from) && OnBoard(to)
    requires GetPiece(b, from).Some? && GetPiece(b, from).value.colour == White
    requires IsMoveValid(b, GetPiece(b, from).value, from, to)
    ensures from == Pos(7, 0)
    ensures to == Pos(6, 0) || to == Pos(6, 1) || to == Pos(7, 1)
  {
    assert from in b.squares;
    assert from == Pos(7, 0) || from == Pos(6, 0);
    if from == Pos(6, 0) {
      MaskedPawnStuck(b, to);
    }
    assert KingMoveValid(from, to);
    assert to.row >= 6 && to.col <= 1;
  }

  /** White's only king stands on a1. */
  lemma MaskedKingAlone(b: Board)
    requires MaskedPosition(b)
    ensures GetPiece(b, Pos(7, 0)) == Some(Piece(White, King))
    ensures forall q :: OnBoard(q) && IsKingAt(b, q, White) ==> q == Pos(7, 0)
  {
  }

  /** b1 is on the rook's rank and b2 is covered by the knight. */
  lemma MaskedStepChecked(b: Board, from: Pos, to: Pos)
    requires MaskedPosition(b)
    requires from == Pos(7, 0)
    requires to == Pos(6, 1) || to == Pos(7, 1)
    ensures IsKingInCheck(Trial(b, from, to, GetPiece(b, from).value), White)
  {
    MaskedKingAlone(b);
    var t := Trial(b, from, to, Piece(White, King));
    TrialKingAlone(b, White, from, to);
    MaskedStepAttacked(b, from, to);
    var a := if to == Pos(6, 1) then Pos(4, 2) else Pos(7, 7);
    CheckedBy(t, White, to, a);
  }

  lemma MaskedStepAttacked(b: Board, from: Pos, to: Pos)
    requires MaskedPosition(b)
    requires from == Pos(7, 0)
    requires to == Pos(6, 1) || to == Pos(7, 1)
    ensures to == Pos(6, 1) ==> Attacks(Trial(b, from, to, Piece(White, King)), Pos(4, 2), to, White)
    ensures to == Pos(7, 1) ==> Attacks(Trial(b, from, to, Piece(White, King)), Pos(7, 7), to, White)
  {
    var t := Trial(b, from, to, Piece(White, King));
    if to == Pos(6, 1) {
      assert GetPiece(t, Pos(4, 2)) == Some(Piece(Black, Knight));
      assert KnightMoveValid(Pos(4, 2), to);
    } else {
      var a := Pos(7, 7);
      assert GetPiece(t, a) == Some(Piece(Black, Rook));
      MaskedRankClear(t, 1);
      RookAttacks(t, a, to, White);
    }
  }

  /** Nothing stands on row 7 strictly between column `col` and h1. */
  lemma MaskedRankClear(t: Board, col: int)
    requires 0 <= col < 7
    requires forall j :: col < j < 7 ==> GetPiece(t, Pos(7, j)).None?
    ensures PathClear(t, Pos(7, 7), Pos(7, col))
  {
    var a := Pos(7, 7);
    forall k | 0 < k < Dist(a, Pos(7, col))
      ensures GetPiece(t, Along(a, Direction(a, Pos(7, col)), k)).None?
    {
      assert Along(a, Direction(a, Pos(7, col)), k) == Pos(7, 7 - k);
    }
  }

  /** The white king "taking" its own pawn on a2 stands on a square nothing
      attacks: the black pawn on a3 attacks only diagonally. */
  lemma MaskedSelfCaptureSafe(b: Board)
    requires MaskedPosition(b)
    ensures !IsKingInCheck(Trial(b, Pos(7, 0), Pos(6, 0), GetPiece(b, Pos(7, 0)).value), White)
  {
    MaskedKingAlone(b);
    var k := Pos(6, 0);
    var t := Trial(b, Pos(7, 0), k, Piece(White, King));
    TrialKingAlone(b, White, Pos(7, 0), k);
    MaskedNothingAttacksA2(b);
    NotChecked(t, White, k);
  }

  lemma MaskedNothingAttacksA2(b: Board)
    requires MaskedPosition(b)
    ensures forall q :: OnBoard(q) ==> !Attacks(Trial(b, Pos(7, 0), Pos(6, 0), Piece(White, King)), q, Pos(6, 0), White)
  {
    forall q | OnBoard(q) ensures !Attacks(Trial(b, Pos(7, 0), Pos(6, 0), Piece(White, King)), q, Pos(6, 0), White) {
      MaskedNoAttackerOn(b, q);
    }
  }

  /** Square by square: only the four black pieces could attack, and none
      of them reaches a2. */
  lemma MaskedNoAttackerOn(b: Board, q: Pos)
    requires MaskedPosition(b)
    requires OnBoard(q)
    ensures !Attacks(Trial(b, Pos(7, 0), Pos(6, 0), Piece(White, King)), q, Pos(6, 0), White)
  {
    var k := Pos(6, 0);
    var t := Trial(b, Pos(7, 0), k, Piece(White, King));
    if GetPiece(t, q).Some? && GetPiece(t, q).value.colour == Black {
      MaskedBlackPieces(b, q);
      if q == Pos(7, 7) {
        assert !RookMoveValid(t, q, k);
      } else if q == Pos(5, 0) {
        assert GetPiece(t, k).Some?;
        assert !PawnMoveValid(t, Black, q, k);
      }
    }
  }

  /** After the king steps onto a2 the black pieces are where they were. */
  lemma MaskedBlackPieces(b: Board, q: Pos)
    requires MaskedPosition(b)
    requires OnBoard(q)
    requires GetPiece(Trial(b, Pos(7, 0), Pos(6, 0), Piece(White, King)), q).Some?
    requires GetPiece(Trial(b, Pos(7, 0), Pos(6, 0), Piece(White, King)), q).value.colour == Black
    ensures q == Pos(7, 7) ==> GetPiece(Trial(b, Pos(7, 0), Pos(6, 0), Piece(White, King)), q).value.kind == Rook
    ensures q == Pos(5, 0) ==> GetPiece(Trial(b, Pos(7, 0), Pos(6, 0), Piece(White, King)), q).value.kind == Pawn
    ensures q == Pos(4, 2) ==> GetPiece(Trial(b, Pos(7, 0), Pos(6, 0), Piece(White, King)), q).value.kind == Knight
    ensures q == Pos(0, 4) ==> GetPiece(Trial(b, Pos(7, 0), Pos(6, 0), Piece(White, King)), q).value.kind == King
    ensures q == Pos(7, 7) || q == Pos(5, 0) || q == Pos(4, 2) || q == Pos(0, 4)
  {
  }

  /** The rook on h1 sees a1 along the first rank. */
  lemma MaskedRookChecks(b: Board)
    requires MaskedPosition(b)
    ensures Attacks(b, Pos(7, 7), Pos(7, 0), White)
  {
    var rook := Pos(7, 7);
    assert GetPiece(b, rook) == Some(Piece(Black, Rook));
    MaskedRankClear(b, 0);
    RookAttacks(b, rook, Pos(7, 0), White);
  }

  lemma MaskedInCheck(b: Board)
    requires MaskedPosition(b)
    ensures IsKingInCheck(b, White)
  {
    MaskedKingAlone(b);
    MaskedRookChecks(b);
    CheckedBy(b, White, Pos(7, 0), Pos(7, 7));
  }

  /** The only trial-legal move is the king onto its own pawn. */
  lemma MaskedOnlyTrial(b: Board, from: Pos, to: Pos)
    requires MaskedPosition(b)
    requires LegalTrial(b, White, from, to)
    ensures from == Pos(7, 0) && to == Pos(6, 0)
    ensures HoldsColour(b, to, White)
  {
    MaskedKingStep(b);
    MaskedMovesAreKingSteps(b, from, to);
    if to != Pos(6, 0) {
      MaskedStepChecked(b, from, to);
    }
  }

  /** `move`'s own test fails everywhere: the one trial-legal move lands
      on a white piece. */
  lemma MaskedNoMoveAt(b: Board, from: Pos, to: Pos)
    requires MaskedPosition(b)
    ensures !(LegalTrial(b, White, from, to) && !HoldsColour(b, to, White))
  {
    if LegalTrial(b, White, from, to) {
      MaskedOnlyTrial(b, from, to);
    }
  }

  lemma MaskedNoMoveAccepted(b: Board, from: Pos, to: Pos)
    requires MaskedPosition(b)
    requires OnBoard(to)
    ensures !Move(b, from, to).accepted
  {
    MaskedNoMoveAt(b, from, to);
  }

  /** By shape alone the king may step from a1 to a2. */
  lemma MaskedKingStep(b: Board)
    requires MaskedPosition(b)
    ensures GetPiece(b, Pos(7, 0)) == Some(Piece(White, King))
    ensures GetPiece(b, Pos(6, 0)) == Some(Piece(White, Pawn))
    ensures IsMoveValid(b, GetPiece(b, Pos(7, 0)).value, Pos(7, 0), Pos(6, 0))
  {
    assert KingMoveValid(Pos(7, 0), Pos(6, 0));
  }

  lemma MaskedHasLegalTrial(b: Board)
    requires MaskedPosition(b)
    ensures HasLegalTrial(b, White)
  {
    MaskedSelfCaptureSafe(b);
    MaskedKingStep(b);
    assert LegalTrial(b, White, Pos(7, 0), Pos(6, 0));
  }

  /** White is mated in fact: it is in check and `move` accepts none of its
      moves. Yet the status is ONGOING, because the legal-move search lets
      the king "capture" its own pawn and finds that square safe. */
  lemma OwnCaptureMasksMate(b: Board)
    requires MaskedPosition(b)
    ensures IsKingInCheck(b, White)
    ensures forall from, to :: OnBoard(to) ==> !Move(b, from, to).accepted
    ensures GetGameStatus(b) == Ongoing
  {
    MaskedInCheck(b);
    forall from, to | OnBoard(to) ensures !Move(b, from, to).accepted {
      MaskedNoMoveAccepted(b, from, to);
    }
    MaskedHasLegalTrial(b);
  }

  // ---------------------------------------------------------------------
  // The starting position.

  /** White's only king stands on e1, and it stays the only one when the
      e-pawn advances. */
  lemma OpeningKingAlone(b: Board)
    requires b == InitialBoard()
    ensures IsKingAt(Trial(b, Pos(6, 4), Pos(4, 4), Piece(White, Pawn)), Pos(7, 4), White)
    ensures forall q :: OnBoard(q) && IsKingAt(Trial(b, Pos(6, 4), Pos(4, 4), Piece(White, Pawn)), q, White) ==> q == Pos(7, 4)
  {
    InitialPosition();
  }

  /** After the e-pawn advances every black piece still stands on row 0 or
      1, and on the e-file only the king and a pawn do. */
  lemma OpeningBlackPieces(b: Board, q: Pos)
    requires b == InitialBoard()
    requires GetPiece(Trial(b, Pos(6, 4), Pos(4, 4), Piece(White, Pawn)), q).Some?
    requires GetPiece(Trial(b, Pos(6, 4), Pos(4, 4), Piece(White, Pawn)), q).value.colour == Black
    ensures q.row <= 1
    ensures q.col == 4 ==> !IsSlider(GetPiece(Trial(b, Pos(6, 4), Pos(4, 4), Piece(White, Pawn)), q).value.kind)
  {
    InitialPosition();
  }

  /** Square by square: no black piece has a move reaching e1. */
  lemma OpeningNoAttackerOn(b: Board, q: Pos)
    requires b == InitialBoard()
    requires OnBoard(q)
    ensures !Attacks(Trial(b, Pos(6, 4), Pos(4, 4), Piece(White, Pawn)), q, Pos(7, 4), White)
  {
    var t := Trial(b, Pos(6, 4), Pos(4, 4), Piece(White, Pawn));
    if GetPiece(t, q).Some? && GetPiece(t, q).value.colour == Black {
      OpeningBlackPieces(b, q);
      assert !Aligned(q, Pos(7, 4)) || q.col == 4;
    }
  }

  /** Advancing the e-pawn two squares leaves the white king safe: no black
      piece on rows 0 and 1 has a move reaching row 7. */
  lemma OpeningTrialSafe(b: Board)
    requires b == InitialBoard()
    ensures !IsKingInCheck(Trial(b, Pos(6, 4), Pos(4, 4), Piece(White, Pawn)), White)
  {
    var k := Pos(7, 4);
    var t := Trial(b, Pos(6, 4), Pos(4, 4), Piece(White, Pawn));
    OpeningKingAlone(b);
    forall q | OnBoard(q) ensures !Attacks(t, q, k, White) {
      OpeningNoAttackerOn(b, q);
    }
    NotChecked(t, White, k);
  }

  /** e2 holds a white pawn, e3 and e4 are empty. */
  lemma OpeningPawnRun(b: Board)
    requires b == InitialBoard()
    ensures GetPiece(b, Pos(6, 4)) == Some(Piece(White, Pawn))
    ensures GetPiece(b, Pos(5, 4)).None? && GetPiece(b, Pos(4, 4)).None?
    ensures !HoldsColour(b, Pos(4, 4), White)
  {
    InitialPosition();
  }

  lemma OpeningLegalTrial(b: Board)
    requires b == InitialBoard()
    ensures LegalTrial(b, White, Pos(6, 4), Pos(4, 4))
  {
    OpeningPawnRun(b);
    assert DoublePush(b, White, Pos(6, 4), Pos(4, 4));
    OpeningTrialSafe(b);
  }

  /** From the starting position white may open e2-e4; afterwards black is
      to move and the pawn stands on e4. */
  lemma OpeningMove(b: Board)
    requires b == InitialBoard()
    ensures Move(b, Pos(6, 4), Pos(4, 4)).accepted
    ensures Move(b, Pos(6, 4), Pos(4, 4)).board.turn == Black
    ensures GetPiece(Move(b, Pos(6, 4), Pos(4, 4)).board, Pos(4, 4)) == Some(Piece(White, Pawn))
  {
    OpeningLegalTrial(b);
    OpeningPawnRun(b);
  }

  /** The starting position is ONGOING: white has a legal move. */
  lemma OpeningOngoing(b: Board)
    requires b == InitialBoard()
    ensures GetGameStatus(b) == Ongoing
  {
    OpeningLegalTrial(b);
    assert HasLegalTrial(b, White);
  }

  /** No white piece of the starting position has a move reaching e8: the
      pawns, knights and king are too far away, and no rook, bishop or
      queen stands on a line with it. */
  lemma OpeningNothingAttacksE8(b: Board, q: Pos)
    requires b == InitialBoard()
    requires OnBoard(q)
    ensures !Attacks(b, q, Pos(0, 4), Black)
  {
    InitialPosition();
    if GetPiece(b, q).Some? && GetPiece(b, q).value.colour == White {
      assert 6 <= q.row;
      assert !Aligned(q, Pos(0, 4)) || q.col == 4;
    }
  }

  /** The starting position is a position of a game in progress: one king
      of each colour, and Black, who is not to move, is not in check. */
  lemma OpeningInPlay(b: Board)
    requires b == InitialBoard()
    ensures InPlay(b)
  {
    InitialPosition();
    assert OnlyKing(b, White, Pos(7, 4));
    assert OnlyKing(b, Black, Pos(0, 4));
    forall q | OnBoard(q) ensures !Attacks(b, q, Pos(0, 4), Black) {
      OpeningNothingAttacksE8(b, q);
    }
    NotChecked(b, Black, Pos(0, 4));
  }

  // ---------------------------------------------------------------------
  // No white king at all, a black bishop on d5.

  /** With no white king the search settles on the sentinel (-1, -1). */
  lemma SentinelNoKing(b: Board)
    requires b.squares == map[Pos(3, 3) := Piece(Black, Bishop)]
    ensures FindKing(b, White) == Sentinel
  {
    assert !HasKing(b, White);
  }

  /** The diagonal from d5 runs through c6 and b7 to a8 and on to (-1, -1). */
  lemma SentinelDiagonalClear(b: Board)
    requires b.squares == map[Pos(3, 3) := Piece(Black, Bishop)]
    ensures PathClear(b, Pos(3, 3), Sentinel)
  {
    var a := Pos(3, 3);
    forall k | 0 < k < Dist(a, Sentinel) ensures GetPiece(b, Along(a, Direction(a, Sentinel), k)).None? {
      assert Along(a, Direction(a, Sentinel), k) == Pos(3 - k, 3 - k);
    }
  }

  /** Without a king of its colour the search reports the sentinel (-1, -1),
      and a bishop on the long diagonal with a clear run to a8 "attacks" it:
      white is reported in check with no king on the board. */
  lemma SentinelCheck(b: Board)
    requires b.squares == map[Pos(3, 3) := Piece(Black, Bishop)]
    ensures IsKingInCheck(b, White)
  {
    SentinelNoKing(b);
    SentinelDiagonalClear(b);
    assert GetPiece(b, Pos(3, 3)) == Some(Piece(Black, Bishop));
    BishopAttacks(b, Pos(3, 3), Sentinel, White);
  }
}
