/**
 * Chess rules shared by the server engine and the client: players and
 * their symbols, squares and algebraic notation, the initial position,
 * piece movement, check detection and move validation. Each rule is a
 * specification function; the scanning loops of the rules are methods
 * proved equal to those functions.
 */
module ChessRules {
  import opened Wrappers

  datatype ChessPiece = Pawn | Rook | Knight | Bishop | Queen | King

  datatype Player = White | Black

  datatype Position = Position(row: nat, col: nat)

  datatype PieceState = PieceState(piece: ChessPiece, player: Player)

  datatype ChessMove = ChessMove(from: Position, to: Position)

  datatype GameOverReason = Checkmate(winner: Player) | Stalemate

  type Square = Option<PieceState>

  /** An 8 x 8 board indexed by row, then column; row 0 is White's back rank. */
  type Board = b: seq<seq<Square>> | |b| == 8 && forall r :: 0 <= r < 8 ==> |b[r]| == 8
    witness seq(8, r => seq(8, c => None))

  datatype State = State(
    board: Board,
    currentTurn: Player,
    checkState: Option<Player>,
    gameOver: Option<GameOverReason>,
    moveHistory: seq<ChessMove>)

  // ---------------------------------------------------------------- players

  function Opponent(p: Player): (q: Player)
    ensures q != p
  {
    match p
    case White => Black
    case Black => White
  }

  lemma OpponentInvolution(p: Player)
    ensures Opponent(Opponent(p)) == p
  {
  }

  function ToSymbol(p: Player): (s: int)
    ensures s == 1 || s == 2
  {
    match p
    case White => 1
    case Black => 2
  }

  function FromSymbol(symbol: int): (r: Option<Player>)
    ensures r.Some? <==> (symbol == 1 || symbol == 2)
    ensures r.Some? ==> ToSymbol(r.value) == symbol
  {
    if symbol == 1 then Some(White)
    else if symbol == 2 then Some(Black)
    else None
  }

  lemma SymbolRoundTrip(p: Player)
    ensures FromSymbol(ToSymbol(p)) == Some(p)
  {
  }

  // ---------------------------------------------------------------- squares

  predicate OnBoard(p: Position)
  {
    p.row < 8 && p.col < 8
  }

  /** A square from row and column, when both lie on the board. */
  function NewPosition(row: nat, col: nat): (r: Option<Position>)
    ensures r.Some? <==> row < 8 && col < 8
    ensures r.Some? ==> r.value == Position(row, col)
  {
    if row < 8 && col < 8 then Some(Position(row, col)) else None
  }

  /** ASCII lower-casing: only 'A'..'Z' change. */
  function AsciiLower(c: char): (l: char)
    ensures 'A' <= c <= 'Z' ==> l as int == c as int + 32
    ensures !('A' <= c <= 'Z') ==> l == c
  {
    if 'A' <= c <= 'Z' then (c as int + 32) as char else c
  }

  predicate IsFileChar(c: char)
  {
    'a' <= c <= 'h' || 'A' <= c <= 'H'
  }

  predicate IsRankChar(c: char)
  {
    '1' <= c <= '8'
  }

  /**
   * Parses a square such as "e4": exactly two characters, a file a-h in
   * either case, then a rank 1-8.
   */
  function FromAlgebraic(s: string): (r: Option<Position>)
    ensures r.Some? <==> |s| == 2 && IsFileChar(s[0]) && IsRankChar(s[1])
    ensures r.Some? ==> OnBoard(r.value)
    ensures r.Some? ==> r.value.col == AsciiLower(s[0]) as int - 'a' as int && r.value.row == s[1] as int - '1' as int
  {
    if |s| != 2 then None
    else
      var col := AsciiLower(s[0]);
      var row := s[1];
      if !('a' <= col <= 'z') || !('a' <= col <= 'h') then None
      else if !('0' <= row <= '9') || !('1' <= row <= '8') then None
      else Some(Position(row as int - '1' as int, col as int - 'a' as int))
  }

  /** The name of a square, file letter then rank digit. */
  function ToAlgebraic(p: Position): (s: string)
    requires OnBoard(p)
    ensures |s| == 2 && 'a' <= s[0] <= 'h' && IsRankChar(s[1])
  {
    [('a' as int + p.col) as char, ('1' as int + p.row) as char]
  }

  /** Naming a square and parsing the name gives the square back. */
  lemma AlgebraicRoundTrip(p: Position)
    requires OnBoard(p)
    ensures FromAlgebraic(ToAlgebraic(p)) == Some(p)
  {
  }

  /** Parsing a name and naming the square gives the name back, lower-cased. */
  lemma AlgebraicCanonical(s: string)
    requires FromAlgebraic(s).Some?
    ensures ToAlgebraic(FromAlgebraic(s).value) == [AsciiLower(s[0]), s[1]]
  {
  }

  lemma AlgebraicExample()
    ensures FromAlgebraic("e4") == Some(Position(3, 4))
    ensures ToAlgebraic(Position(3, 4)) == "e4"
  {
  }

  // ---------------------------------------------------------------- the board

  function PieceAt(b: Board, p: Position): Square
    requires OnBoard(p)
  {
    b[p.row][p.col]
  }

  /** The board with one square replaced. */
  function SetSquare(b: Board, row: nat, col: nat, v: Square): (r: Board)
    requires row < 8 && col < 8
    ensures r[row][col] == v
    ensures forall i, j :: 0 <= i < 8 && 0 <= j < 8 && (i != row || j != col) ==> r[i][j] == b[i][j]
  {
    b[row := b[row][col := v]]
  }

  /** A move carried out: the source square is emptied, then the target receives the source's piece. */
  function Apply(b: Board, m: ChessMove): (r: Board)
    requires OnBoard(m.from) && OnBoard(m.to)
    ensures PieceAt(r, m.to) == PieceAt(b, m.from)
    ensures m.from != m.to ==> PieceAt(r, m.from).None?
    ensures forall i, j :: 0 <= i < 8 && 0 <= j < 8 && Position(i, j) != m.from && Position(i, j) != m.to ==>
      r[i][j] == b[i][j]
  {
    var piece := PieceAt(b, m.from);
    SetSquare(SetSquare(b, m.from.row, m.from.col, None), m.to.row, m.to.col, piece)
  }

  const BackRow: seq<ChessPiece> := [Rook, Knight, Bishop, Queen, King, Bishop, Knight, Rook]

  /** What stands on a square at the start of a game. */
  function InitialCell(row: nat, col: nat): Square
    requires col < 8
  {
    if row == 0 then Some(PieceState(BackRow[col], White))
    else if row == 1 then Some(PieceState(Pawn, White))
    else if row == 6 then Some(PieceState(Pawn, Black))
    else if row == 7 then Some(PieceState(BackRow[col], Black))
    else None
  }

  function InitialBoard(): Board
  {
    seq(8, r requires 0 <= r < 8 => seq(8, c requires 0 <= c < 8 => InitialCell(r, c)))
  }

  function EmptyBoard(): (b: Board)
    ensures forall i, j :: 0 <= i < 8 && 0 <= j < 8 ==> b[i][j].None?
  {
    seq(8, r => seq(8, c => None))
  }

  /**
   * The opening position: the back rank on rows 0 and 7, pawns on rows 1
   * and 6, White to move, no check, no result and no moves played.
   */
  method New() returns (s: State)
    ensures s.board == InitialBoard()
    ensures s.currentTurn == White && s.checkState.None? && s.gameOver.None? && s.moveHistory == []
  {
    var board := EmptyBoard();
    for col := 0 to 8
      invariant forall i, j :: 0 <= i < 8 && 0 <= j < 8 ==> board[i][j] == if j < col then InitialCell(i, j) else None
    {
      var piece := BackRow[col];
      board := SetSquare(board, 0, col, Some(PieceState(piece, White)));
      board := SetSquare(board, 1, col, Some(PieceState(Pawn, White)));
      board := SetSquare(board, 6, col, Some(PieceState(Pawn, Black)));
      board := SetSquare(board, 7, col, Some(PieceState(piece, Black)));
    }
    forall i | 0 <= i < 8
      ensures board[i] == InitialBoard()[i]
    {
    }
    s := State(board, White, None, None, []);
  }

  /** The two sides' pieces mirror each other across the middle of the board. */
  lemma InitialBoardMirrored(row: nat, col: nat)
    requires row < 8 && col < 8
    ensures InitialBoard()[row][col].Some? <==> InitialBoard()[7 - row][col].Some?
    ensures InitialBoard()[row][col].Some? ==>
      InitialBoard()[7 - row][col].value == PieceState(InitialBoard()[row][col].value.piece, Opponent(InitialBoard()[row][col].value.player))
  {
  }

  lemma InitialKings()
    ensures InitialBoard()[0][0] == Some(PieceState(Rook, White))
    ensures InitialBoard()[0][4] == Some(PieceState(King, White))
    ensures InitialBoard()[7][4] == Some(PieceState(King, Black))
  {
  }

  function IsFinished(s: State): bool
  {
    s.gameOver.Some?
  }

  /** The winner's symbol after a checkmate; nothing for a stalemate or a game in progress. */
  function GetWinner(s: State): (w: Option<int>)
    ensures w.Some? <==> s.gameOver.Some? && s.gameOver.value.Checkmate?
    ensures w.Some? ==> FromSymbol(w.value) == Some(s.gameOver.value.winner)
  {
    match s.gameOver
    case Some(Checkmate(p)) => Some(ToSymbol(p))
    case Some(Stalemate) => None
    case None => None
  }

  /** Chess has no hidden information: every viewer sees the whole state. */
  function RedactForPlayer(s: State, playerSymbol: int): (r: State)
    ensures r == s
  {
    s
  }

  // ---------------------------------------------------------------- lines

  function Abs(x: int): nat
  {
    if x < 0 then -x else x
  }

  function Sign(x: int): int
  {
    if x > 0 then 1 else if x < 0 then -1 else 0
  }

  /** `k` steps from `x` in direction `d` (1, -1 or 0). */
  function Advance(x: int, d: int, k: nat): int
  {
    if d > 0 then x + k else if d < 0 then x - k else x
  }

  /** The two squares share a row, a column or a diagonal. */
  predicate Aligned(from: Position, to: Position)
  {
    from.row == to.row || from.col == to.col || Abs(to.row - from.row) == Abs(to.col - from.col)
  }

  /** The number of steps from one square to the other along their line. */
  function Dist(from: Position, to: Position): nat
  {
    if Abs(to.row - from.row) >= Abs(to.col - from.col) then Abs(to.row - from.row) else Abs(to.col - from.col)
  }

  predicate EmptyAt(b: Board, row: int, col: int)
  {
    0 <= row < 8 && 0 <= col < 8 && b[row][col].None?
  }

  /** No piece stands strictly between the two squares along their line. */
  predicate PathClear(b: Board, from: Position, to: Position)
  {
    var dr := Sign(to.row - from.row);
    var dc := Sign(to.col - from.col);
    forall k: nat :: 0 < k < Dist(from, to) ==> EmptyAt(b, Advance(from.row, dr, k), Advance(from.col, dc, k))
  }

  /**
   * Walking along the line between two aligned squares stays on the board
   * and reaches the target after exactly `Dist` steps.
   */
  lemma PathGeometry(from: Position, to: Position, k: nat)
    requires OnBoard(from) && OnBoard(to) && Aligned(from, to) && k <= Dist(from, to)
    ensures var r := Advance(from.row, Sign(to.row - from.row), k);
      var c := Advance(from.col, Sign(to.col - from.col), k);
      0 <= r < 8 && 0 <= c < 8 && ((r == to.row && c == to.col) <==> k == Dist(from, to))
  {
  }

  /**
   * Whether nothing blocks the line from `from` to `to`, walking one
   * square at a time from the square after `from`.
   */
  method IsPathClear(b: Board, from: Position, to: Position) returns (clear: bool)
    requires OnBoard(from) && OnBoard(to) && Aligned(from, to) && from != to
    ensures clear == PathClear(b, from, to)
  {
    var rowDir := Sign(to.row - from.row);
    var colDir := Sign(to.col - from.col);
    var currentRow := from.row + rowDir;
    var currentCol := from.col + colDir;
    ghost var k: nat := 1;
    PathGeometry(from, to, 1);
    while currentRow != to.row || currentCol != to.col
      invariant 1 <= k <= Dist(from, to)
      invariant currentRow == Advance(from.row, rowDir, k) && currentCol == Advance(from.col, colDir, k)
      invariant 0 <= currentRow < 8 && 0 <= currentCol < 8
      invariant forall j: nat :: 0 < j < k ==> EmptyAt(b, Advance(from.row, rowDir, j), Advance(from.col, colDir, j))
      decreases Dist(from, to) - k
    {
      PathGeometry(from, to, k);
      if b[currentRow][currentCol].Some? {
        return false;
      }
      currentRow := currentRow + rowDir;
      currentCol := currentCol + colDir;
      k := k + 1;
      PathGeometry(from, to, k);
    }
    PathGeometry(from, to, k);
    return true;
  }

  /** The line from `to` back to `from` crosses the same squares. */
  lemma PathClearSymmetric(b: Board, from: Position, to: Position)
    requires OnBoard(from) && OnBoard(to) && Aligned(from, to)
    ensures PathClear(b, from, to) == PathClear(b, to, from)
  {
    var d := Dist(from, to);
    assert Dist(to, from) == d;
    var fr: int, fc: int := from.row, from.col;
    var tr: int, tc: int := to.row, to.col;
    var dr, dc := Sign(tr - fr), Sign(tc - fc);
    var br, bc := Sign(fr - tr), Sign(fc - tc);
    if PathClear(b, from, to) {
      forall k: nat | 0 < k < d
        ensures EmptyAt(b, Advance(tr, br, k), Advance(tc, bc, k))
      {
        var j: nat := d - k;
        assert Advance(tr, br, k) == Advance(fr, dr, j) && Advance(tc, bc, k) == Advance(fc, dc, j);
        assert EmptyAt(b, Advance(fr, dr, j), Advance(fc, dc, j));
      }
    }
    if PathClear(b, to, from) {
      forall k: nat | 0 < k < d
        ensures EmptyAt(b, Advance(fr, dr, k), Advance(fc, dc, k))
      {
        var j: nat := d - k;
        assert Advance(fr, dr, k) == Advance(tr, br, j) && Advance(fc, dc, k) == Advance(tc, bc, j);
        assert EmptyAt(b, Advance(tr, br, j), Advance(tc, bc, j));
      }
    }
  }

  // ---------------------------------------------------------------- movement

  /** White pawns advance up the rows, Black pawns down. */
  function PawnDirection(p: Player): int
  {
    if p == White then 1 else -1
  }

  function PawnStartRow(p: Player): nat
  {
    if p == White then 1 else 6
  }

  /**
   * A pawn steps one square forward onto an empty square, two squares from
   * its start row over an empty square onto an empty square, or one square
   * diagonally forward onto an occupied square.
   */
  predicate PawnMove(b: Board, m: ChessMove, player: Player)
    requires OnBoard(m.from) && OnBoard(m.to)
  {
    var direction := PawnDirection(player);
    var rowDiff := m.to.row - m.from.row;
    var colDiff := Abs(m.to.col - m.from.col);
    if rowDiff == direction && colDiff == 0 then PieceAt(b, m.to).None?
    else if rowDiff == direction * 2 && colDiff == 0 && m.from.row == PawnStartRow(player) then
      EmptyAt(b, m.from.row + direction, m.from.col) && PieceAt(b, m.to).None?
    else if rowDiff == direction && colDiff == 1 then PieceAt(b, m.to).Some?
    else false
  }

  /** Whether `piece`, standing on the source square, may move to the target, ignoring check and the target's owner. */
  predicate ValidPieceMove(b: Board, m: ChessMove, piece: PieceState)
    requires OnBoard(m.from) && OnBoard(m.to)
  {
    var rowDiff := Abs(m.to.row - m.from.row);
    var colDiff := Abs(m.to.col - m.from.col);
    if m.from == m.to then false
    else match piece.piece
      case Pawn => PawnMove(b, m, piece.player)
      case Rook => (rowDiff == 0 || colDiff == 0) && PathClear(b, m.from, m.to)
      case Knight => (rowDiff == 2 && colDiff == 1) || (rowDiff == 1 && colDiff == 2)
      case Bishop => rowDiff == colDiff && rowDiff > 0 && PathClear(b, m.from, m.to)
      case Queen => (rowDiff == colDiff || rowDiff == 0 || colDiff == 0) && PathClear(b, m.from, m.to)
      case King => rowDiff <= 1 && colDiff <= 1
  }

  method IsValidPieceMove(b: Board, m: ChessMove, piece: PieceState) returns (valid: bool)
    requires OnBoard(m.from) && OnBoard(m.to)
    ensures valid == ValidPieceMove(b, m, piece)
  {
    if m.from == m.to {
      return false;
    }
    var rowDiff := Abs(m.to.row - m.from.row);
    var colDiff := Abs(m.to.col - m.from.col);
    match piece.piece {
      case Pawn =>
        valid := PawnMove(b, m, piece.player);
      case Rook =>
        if rowDiff == 0 || colDiff == 0 {
          valid := IsPathClear(b, m.from, m.to);
        } else {
          valid := false;
        }
      case Knight =>
        valid := (rowDiff == 2 && colDiff == 1) || (rowDiff == 1 && colDiff == 2);
      case Bishop =>
        if rowDiff == colDiff && rowDiff > 0 {
          valid := IsPathClear(b, m.from, m.to);
        } else {
          valid := false;
        }
      case Queen =>
        if rowDiff == colDiff || rowDiff == 0 || colDiff == 0 {
          valid := IsPathClear(b, m.from, m.to);
        } else {
          valid := false;
        }
      case King =>
        valid := rowDiff <= 1 && colDiff <= 1;
    }
  }

  /** The three ways a pawn may move, and no other. */
  lemma PawnRules(b: Board, m: ChessMove, player: Player)
    requires OnBoard(m.from) && OnBoard(m.to)
    ensures var d := PawnDirection(player);
      ValidPieceMove(b, m, PieceState(Pawn, player)) <==>
        (m.to.row - m.from.row == d && m.to.col == m.from.col && PieceAt(b, m.to).None?)
        || (m.to.row - m.from.row == 2 * d && m.to.col == m.from.col && m.from.row == PawnStartRow(player)
            && EmptyAt(b, m.from.row + d, m.from.col) && PieceAt(b, m.to).None?)
        || (m.to.row - m.from.row == d && Abs(m.to.col - m.from.col) == 1 && PieceAt(b, m.to).Some?)
  {
  }

  /** A pawn never moves sideways or backwards. */
  lemma PawnAdvances(b: Board, m: ChessMove, player: Player)
    requires OnBoard(m.from) && OnBoard(m.to)
    requires ValidPieceMove(b, m, PieceState(Pawn, player))
    ensures Sign(m.to.row - m.from.row) == PawnDirection(player)
  {
  }

  /** The movement rule of each piece other than the pawn. */
  lemma PieceRules(b: Board, m: ChessMove, p: Player)
    requires OnBoard(m.from) && OnBoard(m.to)
    ensures !ValidPieceMove(b, m, PieceState(Pawn, p)) || m.from != m.to
    ensures ValidPieceMove(b, m, PieceState(Knight, p)) <==>
      (Abs(m.to.row - m.from.row) == 2 && Abs(m.to.col - m.from.col) == 1)
      || (Abs(m.to.row - m.from.row) == 1 && Abs(m.to.col - m.from.col) == 2)
    ensures ValidPieceMove(b, m, PieceState(King, p)) <==>
      m.from != m.to && Abs(m.to.row - m.from.row) <= 1 && Abs(m.to.col - m.from.col) <= 1
    ensures ValidPieceMove(b, m, PieceState(Rook, p)) <==>
      m.from != m.to && (m.from.row == m.to.row || m.from.col == m.to.col) && PathClear(b, m.from, m.to)
    ensures ValidPieceMove(b, m, PieceState(Bishop, p)) <==>
      m.from != m.to && Abs(m.to.row - m.from.row) == Abs(m.to.col - m.from.col) && PathClear(b, m.from, m.to)
    ensures ValidPieceMove(b, m, PieceState(Queen, p)) <==>
      m.from != m.to && Aligned(m.from, m.to) && PathClear(b, m.from, m.to)
  {
  }

  function Reverse(m: ChessMove): ChessMove
  {
    ChessMove(m.to, m.from)
  }

  /** Every piece but the pawn can retrace its move on the same board. */
  lemma PieceMoveReversible(b: Board, m: ChessMove, piece: PieceState)
    requires OnBoard(m.from) && OnBoard(m.to) && piece.piece != Pawn
    ensures ValidPieceMove(b, m, piece) == ValidPieceMove(b, Reverse(m), piece)
  {
    if Aligned(m.from, m.to) {
      PathClearSymmetric(b, m.from, m.to);
    }
  }

  // ---------------------------------------------------------------- check

  predicate IsKingAt(b: Board, player: Player, row: int, col: int)
  {
    0 <= row < 8 && 0 <= col < 8 && b[row][col] == Some(PieceState(King, player))
  }

  /** The first square, in row-major order from index `i`, holding `player`'s king. */
  function KingFrom(b: Board, player: Player, i: nat): (r: Option<Position>)
    requires i <= 64
    ensures r.Some? ==> IsKingAt(b, player, r.value.row, r.value.col) && OnBoard(r.value)
    ensures r.None? ==> forall j :: i <= j < 64 ==> !IsKingAt(b, player, j / 8, j % 8)
    decreases 64 - i
  {
    if i == 64 then None
    else if IsKingAt(b, player, i / 8, i % 8) then Some(Position(i / 8, i % 8))
    else KingFrom(b, player, i + 1)
  }

  /** The square of `player`'s king, scanning row by row. */
  method FindKing(b: Board, player: Player) returns (r: Option<Position>)
    ensures r == KingFrom(b, player, 0)
  {
    for row := 0 to 8
      invariant KingFrom(b, player, 8 * row) == KingFrom(b, player, 0)
    {
      for col := 0 to 8
        invariant KingFrom(b, player, 8 * row + col) == KingFrom(b, player, 0)
      {
        assert (8 * row + col) / 8 == row && (8 * row + col) % 8 == col;
        if b[row][col] == Some(PieceState(King, player)) {
          return Some(Position(row, col));
        }
      }
    }
    return None;
  }

  /** A piece of `attacker` on (row, col) could move onto `pos`. */
  predicate AttackerAt(b: Board, pos: Position, attacker: Player, row: int, col: int)
    requires OnBoard(pos)
  {
    0 <= row < 8 && 0 <= col < 8 && b[row][col].Some? && b[row][col].value.player == attacker
    && ValidPieceMove(b, ChessMove(Position(row, col), pos), b[row][col].value)
  }

  predicate Attacked(b: Board, pos: Position, attacker: Player)
    requires OnBoard(pos)
  {
    exists row, col | 0 <= row < 8 && 0 <= col < 8 :: AttackerAt(b, pos, attacker, row, col)
  }

  method IsSquareAttacked(b: Board, pos: Position, attacker: Player) returns (attacked: bool)
    requires OnBoard(pos)
    ensures attacked == Attacked(b, pos, attacker)
  {
    for row := 0 to 8
      invariant forall i, j :: i < row ==> !AttackerAt(b, pos, attacker, i, j)
    {
      for col := 0 to 8
        invariant forall i, j :: i < row ==> !AttackerAt(b, pos, attacker, i, j)
        invariant forall j :: j < col ==> !AttackerAt(b, pos, attacker, row, j)
      {
        var from := Position(row, col);
        if b[row][col].Some? {
          var piece := b[row][col].value;
          if piece.player == attacker {
            var valid := IsValidPieceMove(b, ChessMove(from, pos), piece);
            if valid {
              assert AttackerAt(b, pos, attacker, row, col);
              return true;
            }
          }
        }
      }
    }
    return false;
  }

  /** The king of `player` is attacked; a player without a king is never in check. */
  predicate InCheck(b: Board, player: Player)
  {
    match KingFrom(b, player, 0)
    case None => false
    case Some(king) => Attacked(b, king, Opponent(player))
  }

  method IsInCheck(b: Board, player: Player) returns (check: bool)
    ensures check == InCheck(b, player)
  {
    var kingPos := FindKing(b, player);
    if kingPos.None? {
      return false;
    }
    check := IsSquareAttacked(b, kingPos.value, Opponent(player));
  }

  lemma NoKingNoCheck(b: Board, player: Player)
    requires forall i, j :: !IsKingAt(b, player, i, j)
    ensures !InCheck(b, player)
  {
  }

  /** The move would leave `player`'s king attacked (or moves from an empty square). */
  predicate CausesCheck(b: Board, m: ChessMove, player: Player)
    requires OnBoard(m.from) && OnBoard(m.to)
  {
    PieceAt(b, m.from).None? || InCheck(Apply(b, m), player)
  }

  method WouldMoveCauseCheck(b: Board, m: ChessMove, player: Player) returns (causes: bool)
    requires OnBoard(m.from) && OnBoard(m.to)
    ensures causes == CausesCheck(b, m, player)
  {
    var piece := PieceAt(b, m.from);
    if piece.None? {
      return true;
    }
    var testBoard := SetSquare(b, m.from.row, m.from.col, None);
    testBoard := SetSquare(testBoard, m.to.row, m.to.col, piece);
    assert testBoard == Apply(b, m);
    causes := IsInCheck(testBoard, player);
  }

  /**
   * Whether `player` may make the move. Errors, in order: an empty source
   * square, an opponent's piece, a target holding one of the player's own
   * pieces; otherwise false when the piece cannot move so or the move
   * leaves the player's king attacked.
   */
  function ValidMove(b: Board, m: ChessMove, player: Player): (r: Result<bool, string>)
    requires OnBoard(m.from) && OnBoard(m.to)
    ensures PieceAt(b, m.from).None? ==> r == Err("No piece at source position")
    ensures PieceAt(b, m.from).Some? && PieceAt(b, m.from).value.player != player ==>
      r == Err("Cannot move opponent's piece")
    ensures OwnPieceMoving(b, m, player) && PieceAt(b, m.to).Some? && PieceAt(b, m.to).value.player == player ==>
      r == Err("Cannot capture own piece")
    ensures r.Err? <==> !OwnPieceMoving(b, m, player) || (PieceAt(b, m.to).Some? && PieceAt(b, m.to).value.player == player)
    ensures r == Ok(true) <==>
      (OwnPieceMoving(b, m, player) && (PieceAt(b, m.to).None? || PieceAt(b, m.to).value.player != player)
       && ValidPieceMove(b, m, PieceAt(b, m.from).value) && !InCheck(Apply(b, m), player))
  {
    var piece := PieceAt(b, m.from);
    if piece.None? then Err("No piece at source position")
    else if piece.value.player != player then Err("Cannot move opponent's piece")
    else if PieceAt(b, m.to).Some? && PieceAt(b, m.to).value.player == player then Err("Cannot capture own piece")
    else if !ValidPieceMove(b, m, piece.value) then Ok(false)
    else if CausesCheck(b, m, player) then Ok(false)
    else Ok(true)
  }

  /** The source square holds one of `player`'s pieces. */
  predicate OwnPieceMoving(b: Board, m: ChessMove, player: Player)
    requires OnBoard(m.from)
  {
    PieceAt(b, m.from).Some? && PieceAt(b, m.from).value.player == player
  }

  method IsValidMove(b: Board, m: ChessMove, player: Player) returns (r: Result<bool, string>)
    requires OnBoard(m.from) && OnBoard(m.to)
    ensures r == ValidMove(b, m, player)
  {
    var piece := PieceAt(b, m.from);
    if piece.None? {
      return Err("No piece at source position");
    }
    if piece.value.player != player {
      return Err("Cannot move opponent's piece");
    }
    var target := PieceAt(b, m.to);
    if target.Some? && target.value.player == player {
      return Err("Cannot capture own piece");
    }
    var pieceOk := IsValidPieceMove(b, m, piece.value);
    if !pieceOk {
      return Ok(false);
    }
    var causes := WouldMoveCauseCheck(b, m, player);
    if causes {
      return Ok(false);
    }
    return Ok(true);
  }

  /** An accepted move never leaves the mover's own king attacked. */
  lemma ValidMoveKeepsKingSafe(b: Board, m: ChessMove, player: Player)
    requires OnBoard(m.from) && OnBoard(m.to)
    requires ValidMove(b, m, player) == Ok(true)
    ensures !InCheck(Apply(b, m), player)
    ensures PieceAt(Apply(b, m), m.to) == PieceAt(b, m.from)
  {
  }
}
