/** `ChessBoard::isKingInCheck`: find the king of a colour, then look for a
    piece of the other colour with a valid move onto its square. */
module CheckDetection {
  import opened ChessTypes
  import opened Boards
  import opened Paths
  import opened PieceRules

  predicate IsKingAt(b: Board, q: Pos, c: Colour)
  {
    GetPiece(b, q) == Some(Piece(c, King))
  }

  ghost predicate HasKing(b: Board, c: Colour)
  {
    exists q :: OnBoard(q) && IsKingAt(b, q, c)
  }

  /** `k` is where the king search settles: a king of colour `c` in the last
      row that holds one, the first such in that row. (The search's `break`
      leaves only the column loop, so later rows overwrite earlier ones.) */
  ghost predicate LastKing(b: Board, c: Colour, k: Pos)
  {
    && OnBoard(k)
    && IsKingAt(b, k, c)
    && forall q :: OnBoard(q) && IsKingAt(b, q, c) ==> q.row < k.row || (q.row == k.row && k.col <= q.col)
  }

  /** What the search has found after rows `0 .. row - 1`. */
  ghost predicate KingSoFar(b: Board, c: Colour, row: int, k: Pos)
  {
    if k == Sentinel then
      forall q :: OnBoard(q) && q.row < row ==> !IsKingAt(b, q, c)
    else
      && OnBoard(k) && k.row < row && IsKingAt(b, k, c)
      && forall q :: OnBoard(q) && q.row < row && IsKingAt(b, q, c) ==>
           q.row < k.row || (q.row == k.row && k.col <= q.col)
  }

  /** The column loop of the king search, which stops at the first king. */
  function FirstKingInRow(b: Board, c: Colour, row: int, col: int): (found: Option<int>)
    requires 0 <= row < 8 && 0 <= col <= 8
    decreases 8 - col
    ensures found.Some? ==>
              && col <= found.value < 8
              && IsKingAt(b, Pos(row, found.value), c)
              && forall j :: col <= j < found.value ==> !IsKingAt(b, Pos(row, j), c)
    ensures found.None? ==> forall j :: col <= j < 8 ==> !IsKingAt(b, Pos(row, j), c)
  {
    if col == 8 then None
    else if IsKingAt(b, Pos(row, col), c) then Some(col)
    else FirstKingInRow(b, c, row, col + 1)
  }

  /** The row loop of the king search, carrying the square found so far. */
  function KingFromRow(b: Board, c: Colour, row: int, k: Pos): (found: Pos)
    requires 0 <= row <= 8
    requires KingSoFar(b, c, row, k)
    decreases 8 - row
    ensures KingSoFar(b, c, 8, found)
  {
    if row == 8 then k
    else
      var inRow := FirstKingInRow(b, c, row, 0);
      var k' := if inRow.Some? then Pos(row, inRow.value) else k;
      assert KingSoFar(b, c, row + 1, k') by {
        if inRow.None? {
          forall q | OnBoard(q) && q.row < row + 1
            ensures !IsKingAt(b, q, c) || k != Sentinel
          {
            if q.row == row { assert !IsKingAt(b, Pos(row, q.col), c); }
          }
        }
      }
      KingFromRow(b, c, row + 1, k')
  }

  /** The king search of `isKingInCheck`, falling back to the sentinel
      (-1, -1) when colour `c` has no king on the board. */
  function FindKing(b: Board, c: Colour): (k: Pos)
    ensures HasKing(b, c) ==> LastKing(b, c, k)
    ensures !HasKing(b, c) ==> k == Sentinel
  {
    KingFromRow(b, c, 0, Sentinel)
  }

  /** With exactly one king of colour `c`, the search finds it. */
  lemma FindKingUnique(b: Board, c: Colour, k: Pos)
    requires OnBoard(k) && IsKingAt(b, k, c)
    requires forall q :: OnBoard(q) && IsKingAt(b, q, c) ==> q == k
    ensures FindKing(b, c) == k
  {
  }

  /** Two boards with kings of colour `c` on the same squares yield the same
      king square. */
  lemma FindKingCongruent(b1: Board, b2: Board, c: Colour)
    requires forall q :: OnBoard(q) ==> (IsKingAt(b1, q, c) <==> IsKingAt(b2, q, c))
    ensures FindKing(b1, c) == FindKing(b2, c)
  {
    if HasKing(b1, c) {
      var k1, k2 := FindKing(b1, c), FindKing(b2, c);
      assert LastKing(b2, c, k2);
      assert IsKingAt(b1, k2, c) && IsKingAt(b2, k1, c);
    }
  }

  /** A piece not of colour `c` standing on `a` has a valid move onto `target`. */
  ghost predicate Attacks(b: Board, a: Pos, target: Pos, c: Colour)
  {
    && GetPiece(b, a).Some?
    && GetPiece(b, a).value.colour != c
    && IsMoveValid(b, GetPiece(b, a).value, a, target)
  }

  /** The attacker loop of `isKingInCheck` from square `a` on, in row-major
      order. A slider's path is tested a second time, as in the source. */
  function AttackScan(b: Board, c: Colour, target: Pos, a: Pos): (found: bool)
    requires IsCursor(a)
    decreases 8 - a.row, 8 - a.col
    ensures found <==> exists q :: OnBoard(q) && AtOrAfter(q, a) && Attacks(b, q, target, c)
  {
    if a.row == 8 then false
    else
      var p := GetPiece(b, a);
      var hit := p.Some? && p.value.colour != c && IsMoveValid(b, p.value, a, target)
                 && !(IsSlider(p.value.kind) && !IsPathClear(b, a, target));
      var rest := AttackScan(b, c, target, Next(a));
      assert forall q :: OnBoard(q) ==> (AtOrAfter(q, a) <==> q == a || AtOrAfter(q, Next(a)));
      hit || rest
  }

  /** `ChessBoard::isKingInCheck`: some piece of the other colour attacks the
      square the king search settles on. */
  function IsKingInCheck(b: Board, c: Colour): (inCheck: bool)
    ensures inCheck <==> exists q :: OnBoard(q) && Attacks(b, q, FindKing(b, c), c)
  {
    AttackScan(b, c, FindKing(b, c), Pos(0, 0))
  }

  /** The king square is occupied, so a pawn can attack it only along a
      forward diagonal: its straight pushes need an empty destination. */
  lemma PawnAttacksDiagonally(b: Board, a: Pos, c: Colour)
    requires Attacks(b, a, FindKing(b, c), c)
    requires GetPiece(b, a).value.kind == Pawn
    requires HasKing(b, c)
    ensures FindKing(b, c).row == a.row + Forward(Other(c))
    ensures Abs(FindKing(b, c).col - a.col) == 1
  {
  }

  /** `b1` and `b2` agree on every square but `x`, which holds on both
      either the same thing or a non-king piece of colour `c`. */
  ghost predicate AgreeExceptOwn(b1: Board, b2: Board, x: Pos, c: Colour)
  {
    && (forall q :: q != x ==> GetPiece(b1, q) == GetPiece(b2, q))
    && (|| GetPiece(b1, x) == GetPiece(b2, x)
        || (&& GetPiece(b1, x).Some? && GetPiece(b1, x).value.colour == c
            && GetPiece(b1, x).value.kind != King
            && GetPiece(b2, x).Some? && GetPiece(b2, x).value.colour == c
            && GetPiece(b2, x).value.kind != King))
  }

  lemma AgreeExceptOwnColours(b1: Board, b2: Board, x: Pos, c: Colour)
    requires AgreeExceptOwn(b1, b2, x, c)
    ensures forall q :: GetPiece(b1, q).None? == GetPiece(b2, q).None?
    ensures forall q :: GetPiece(b1, q).Some? ==> GetPiece(b1, q).value.colour == GetPiece(b2, q).value.colour
    ensures forall q :: IsKingAt(b1, q, c) <==> IsKingAt(b2, q, c)
  {
  }

  /** Whether `c` is in check depends on the grid alone, and not on which
      non-king piece of colour `c` stands on a square: two boards that agree
      everywhere except on a square holding such a piece on both agree on
      check. (Promotion swaps a pawn for a queen of the same colour.) */
  lemma CheckIgnoresOwnNonKing(b1: Board, b2: Board, x: Pos, c: Colour)
    requires AgreeExceptOwn(b1, b2, x, c)
    ensures IsKingInCheck(b1, c) == IsKingInCheck(b2, c)
  {
    AgreeExceptOwnColours(b1, b2, x, c);
    FindKingCongruent(b1, b2, c);
    var k := FindKing(b1, c);
    forall q | OnBoard(q) && GetPiece(b1, q).Some?
      ensures Attacks(b1, q, k, c) == Attacks(b2, q, k, c)
    {
      ShapeDependsOnColoursOnly(b1, b2, GetPiece(b1, q).value, q, k);
      if q == x && GetPiece(b1, x) != GetPiece(b2, x) {
        assert !Attacks(b1, q, k, c) && !Attacks(b2, q, k, c);
      }
    }
    assert forall q :: OnBoard(q) ==> Attacks(b1, q, k, c) == Attacks(b2, q, k, c);
  }
}
