/** Pieces, squares and the board layout that the evaluator reads. Squares are
    numbered 0 (a1) to 63 (h8), file-major within a rank, as in python-chess. */
module Pieces {
  import opened Common

  datatype Color = White | Black

  datatype PieceType = Pawn | Knight | Bishop | Rook | Queen | King

  datatype Piece = Piece(kind: PieceType, color: Color)

  /** The contents of all 64 squares: what `board.piece_at(square)` answers. */
  type Squares = b: seq<Option<Piece>> | |b| == 64 witness EmptySquares

  const EmptySquares: seq<Option<Piece>> := seq(64, _ => None)

  function Opposite(c: Color): Color {
    match c
    case White => Black
    case Black => White
  }

  /** `file_of`: the file (column) of a square, `square % 8`, which for a
      positive divisor is the same under Python's floor and Dafny's Euclidean
      division. */
  function FileOf(square: int): (f: int)
    ensures 0 <= f < 8
  {
    square % 8
  }

  /** `rank_of`: the rank (row) of a square, `square // 8`. */
  function RankOf(square: int): (r: int)
    ensures 8 * r + FileOf(square) == square
    ensures 0 <= square < 64 ==> 0 <= r < 8
  {
    square / 8
  }

  /** `chess.square(file, rank)`. */
  function SquareAt(file: int, rank: int): int {
    rank * 8 + file
  }

  lemma SquareAtInverse(file: int, rank: int)
    requires 0 <= file < 8 && 0 <= rank < 8
    ensures 0 <= SquareAt(file, rank) < 64
    ensures FileOf(SquareAt(file, rank)) == file && RankOf(SquareAt(file, rank)) == rank
  {
  }

  /** D4, E4, D5 and E5. */
  predicate IsCenter(square: int) {
    square == 27 || square == 28 || square == 35 || square == 36
  }

  predicate IsPawnAt(b: Squares, square: int)
    requires 0 <= square < 64
  {
    b[square].Some? && b[square].value.kind == Pawn
  }

  /** The same board with every piece's colour exchanged. */
  function SwapColours(b: Squares): (s: Squares)
    ensures forall i :: 0 <= i < 64 ==> (s[i].Some? <==> b[i].Some?)
    ensures forall i :: 0 <= i < 64 && b[i].Some? ==>
              s[i].value == Piece(b[i].value.kind, Opposite(b[i].value.color))
  {
    seq(64, i requires 0 <= i < 64 =>
      match b[i]
      case None => None
      case Some(p) => Some(Piece(p.kind, Opposite(p.color))))
  }
}
