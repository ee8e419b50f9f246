/** The static evaluator of both revisions (algorithm.py:69-242 and
    algorithm1.py:53-223, which agree except for the depth term and the
    castling unit).

    Every score here is twenty times the source's floating-point score:
    `material*4 + 0.1*activity + 0.05*mobility + 0.4*center + 0.2*pawns
    + 0.4*king + depth*10` becomes
    `80*material + 2*activity + mobility + 8*center + 4*pawns + 8*king + 200*depth`,
    and the mate sentinel 10000000 becomes 200000000. The board queries that
    python-chess answers (side to move, check, checkmate, the number of legal
    moves, castling rights) are inputs. */
module Evaluator {
  import opened Common
  import opened Pieces

  datatype CastlingRights = CastlingRights(
    whiteQueenside: bool, whiteKingside: bool,
    blackQueenside: bool, blackKingside: bool)

  /** What the evaluator reads of a board. */
  datatype Position = Position(
    squares: Squares,
    whiteToMove: bool,
    inCheck: bool,
    checkmate: bool,
    castling: CastlingRights)

  const Scale := 20
  const MateScore := 10000000
  const EndgameThreshold := 1000

  // ---------------------------------------------------------------- material

  /** The `piece_values` dictionary; a king is missing from it and counts 0. */
  function PieceValue(k: PieceType): (v: nat)
    ensures v <= 900
  {
    match k
    case Pawn => 100
    case Knight => 280
    case Bishop => 320
    case Rook => 500
    case Queen => 900
    case King => 0
  }

  /** The material of colour `c` on squares `0 .. n-1`. */
  function SideMaterial(b: Squares, c: Color, n: nat): (m: nat)
    requires n <= 64
    ensures m <= 900 * n
  {
    if n == 0 then 0
    else
      SideMaterial(b, c, n - 1)
      + (if b[n - 1].Some? && b[n - 1].value.color == c then PieceValue(b[n - 1].value.kind) else 0)
  }

  /** `total_material`: White's material minus Black's. */
  function Material(b: Squares): (m: int)
    ensures -57600 <= m <= 57600
  {
    SideMaterial(b, White, 64) - SideMaterial(b, Black, 64)
  }

  /** `total_material`, with its two accumulators. */
  method TotalMaterial(b: Squares) returns (m: int)
    ensures m == SideMaterial(b, White, 64) - SideMaterial(b, Black, 64)
  {
    var whiteScore: int, blackScore: int := 0, 0;
    for square := 0 to 64
      invariant whiteScore == SideMaterial(b, White, square)
      invariant blackScore == SideMaterial(b, Black, square)
    {
      var piece := b[square];
      if piece.Some? {
        var value := PieceValue(piece.value.kind);
        if piece.value.color == White {
          whiteScore := whiteScore + value;
        } else {
          blackScore := blackScore + value;
        }
      }
    }
    m := whiteScore - blackScore;
  }

  lemma {:induction false} SideMaterialSwap(b: Squares, c: Color, n: nat)
    requires n <= 64
    ensures SideMaterial(SwapColours(b), c, n) == SideMaterial(b, Opposite(c), n)
  {
    if n > 0 {
      SideMaterialSwap(b, c, n - 1);
    }
  }

  /** Exchanging the colour of every piece negates the material balance. */
  lemma MaterialSwapNegates(b: Squares)
    ensures Material(SwapColours(b)) == -Material(b)
  {
    SideMaterialSwap(b, White, 64);
    SideMaterialSwap(b, Black, 64);
  }

  /** `is_endgame` as written: the signed balance against the threshold. */
  predicate IsEndgame(b: Squares) {
    Material(b) <= EndgameThreshold
  }

  /** As written, every position or its colour-swapped twin is an "endgame",
      however much material is on the board (the starting position, with 3900
      on each side and a balance of 0, is one). */
  lemma EndgameIgnoresAmount(b: Squares)
    ensures IsEndgame(b) || IsEndgame(SwapColours(b))
    ensures SideMaterial(b, White, 64) <= SideMaterial(b, Black, 64) ==> IsEndgame(b)
  {
    MaterialSwapNegates(b);
  }

  /** `is_endgame` corrected: the material left on the board, of both sides. */
  predicate IsEndgameByTotal(b: Squares) {
    SideMaterial(b, White, 64) + SideMaterial(b, Black, 64) <= EndgameThreshold
  }

  /** The corrected test does not depend on who owns the material, and a side
      that alone keeps more than the threshold rules the endgame out. */
  lemma EndgameByTotalIsColourBlind(b: Squares)
    ensures IsEndgameByTotal(SwapColours(b)) <==> IsEndgameByTotal(b)
    ensures SideMaterial(b, White, 64) > EndgameThreshold ==> !IsEndgameByTotal(b)
    ensures SideMaterial(b, Black, 64) > EndgameThreshold ==> !IsEndgameByTotal(b)
    ensures IsEndgameByTotal(b) ==> IsEndgame(b)
  {
    SideMaterialSwap(b, White, 64);
    SideMaterialSwap(b, Black, 64);
  }

  // ------------------------------------------------------ piece-square tables

  const PawnTable: seq<int> :=
    [  0,   0,   0,   0,   0,   0,   0,   0] +
    [  5,  10,  10, -20, -20,  10,  10,   5] +
    [  5,  -5, -10,   0,   0, -10,  -5,   5] +
    [  1,   1,   1,  40,  40,   1,   1,   1] +
    [  5,   5,  10,  55,  55,  10,   5,   5] +
    [ 10,  10,  20,  30,  30,  20,  10,  10] +
    [ 50,  50,  50,  30,  30,  50,  50,  50] +
    [  0,   0,   0,   0,   0,   0,   0,   0]

  const KnightTable: seq<int> :=
    [-50, -40, -30, -30, -30, -30, -40, -50] +
    [-40, -20,   0,   0,   0,   0, -20, -40] +
    [-30,   0,  10,  15,  15,  10,   0, -30] +
    [-30,   5,  15,  20,  20,  15,   5, -30] +
    [-30,   0,  15,  20,  20,  15,   0, -30] +
    [-30,   5,  30,  15,  15,  30,   5, -30] +
    [-40, -20,   0,   5,   5,   0, -20, -40] +
    [-50, -40, -30, -30, -30, -30, -40, -50]

  const BishopTable: seq<int> :=
    [-20, -10, -10, -10, -10, -10, -10, -20] +
    [-10,   0,   0,   0,   0,   0,   0, -10] +
    [-10,   0,   5,  10,  10,   5,   0, -10] +
    [-10,   5,   5,  10,  10,   5,   5, -10] +
    [-10,   0,  10,  10,  10,  10,   0, -10] +
    [-10,  10,  10,  10,  10,  10,  10, -10] +
    [-10,   5,   0,   0,   0,   0,   5, -10] +
    [-20, -10, -10, -10, -10, -10, -10, -20]

  const RookTable: seq<int> :=
    [  0,   0,   0,   0,   0,   0,   0,   0] +
    [  5,  10,  10,  10,  10,  10,  10,   5] +
    [ -5,   1,   1,   1,   1,   1,   1,  -5] +
    [ -5,   1,   1,   1,   1,   1,   1,  -5] +
    [ -5,   1,   1,   1,   1,   1,   1,  -5] +
    [ -5,   1,   1,   1,   1,   1,   1,  -5] +
    [ -5,   1,   1,   1,   1,   1,   1,  -5] +
    [  1,   1,  10,  10,  10,  10,   1,   1]

  const QueenTable: seq<int> :=
    [-20, -10, -10,  -5,  -5, -10, -10, -20] +
    [-10,   0,   0,   0,   0,   0,   0, -10] +
    [-10,   0,   5,   5,   5,   5,   0, -10] +
    [ -5,   0,   5,   5,   5,   5,   0,  -5] +
    [  0,   0,   5,   5,   5,   5,   0,  -5] +
    [-10,   5,   5,   5,   5,   5,   0, -10] +
    [-10,   0,   5,   0,   0,   0,   0, -10] +
    [-20, -10, -10,  -5,  -5, -10, -10, -20]

  const KingTable: seq<int> :=
    [-30, -40, -40, -50, -50, -40, -40, -30] +
    [-30, -40, -40, -50, -50, -40, -40, -30] +
    [-30, -40, -40, -50, -50, -40, -40, -30] +
    [-30, -40, -40, -50, -50, -40, -40, -30] +
    [-20, -30, -30, -40, -40, -30, -30, -20] +
    [-10, -20, -20, -20, -20, -20, -20, -10] +
    [ 20,  20,   0,   0,   0,   0,  20,  20] +
    [ 20,  50,  10,   0,   0,  40,  50,  20]

  /** All 64 entries of a table lie in [-50, 55]. */
  ghost predicate TableShape(t: seq<int>) {
    |t| == 64 && forall i :: 0 <= i < 64 ==> -50 <= t[i] <= 55
  }

  lemma PawnTableShape()
    ensures TableShape(PawnTable)
  {
  }

  lemma KnightTableShape()
    ensures TableShape(KnightTable)
  {
  }

  lemma BishopTableShape()
    ensures TableShape(BishopTable)
  {
  }

  lemma RookTableShape()
    ensures TableShape(RookTable)
  {
  }

  lemma QueenTableShape()
    ensures TableShape(QueenTable)
  {
  }

  lemma KingTableShape()
    ensures TableShape(KingTable)
  {
  }

  /** The table of a piece type (the key `piece.symbol().upper()`), so both
      colours read the same table at the same square, unmirrored. */
  function PieceSquareTable(k: PieceType): (t: seq<int>)
    ensures |t| == 64
    ensures forall i :: 0 <= i < 64 ==> -50 <= t[i] <= 55
  {
    match k
    case Pawn => PawnTableShape(); PawnTable
    case Knight => KnightTableShape(); KnightTable
    case Bishop => BishopTableShape(); BishopTable
    case Rook => RookTableShape(); RookTable
    case Queen => QueenTableShape(); QueenTable
    case King => KingTableShape(); KingTable
  }

  /** `piece_position_score`: defined on every square 0..63, for either colour. */
  function PiecePositionScore(p: Piece, square: int): (r: int)
    requires 0 <= square < 64
    ensures -50 <= r <= 55
  {
    PieceSquareTable(p.kind)[square]
  }

  /** The table is chosen by piece type alone and read at the raw square, so a
      piece of either colour scores the same on the same square. */
  lemma PositionScoreColourBlind(p: Piece, square: int)
    requires 0 <= square < 64
    ensures PiecePositionScore(p, square) == PiecePositionScore(Piece(p.kind, Opposite(p.color)), square)
  {
  }

  // ------------------------------------------------- sums over the piece map

  /** The number of occupied squares among `0 .. n-1`. */
  function PieceCount(b: Squares, n: nat): (c: nat)
    requires n <= 64
    ensures c <= n
  {
    if n == 0 then 0 else PieceCount(b, n - 1) + (if b[n - 1].Some? then 1 else 0)
  }

  /** `activity`: the table score of every piece on `0 .. n-1`. */
  function Activity(b: Squares, n: nat): (a: int)
    requires n <= 64
    ensures -50 * PieceCount(b, n) <= a <= 55 * PieceCount(b, n)
  {
    if n == 0 then 0
    else Activity(b, n - 1) + (if b[n - 1].Some? then PiecePositionScore(b[n - 1].value, n - 1) else 0)
  }

  /** `mobility`: the number of legal moves, once per piece on `0 .. n-1`. */
  function Mobility(b: Squares, legalMoves: nat, n: nat): (m: int)
    requires n <= 64
    ensures m == PieceCount(b, n) * legalMoves
  {
    if n == 0 then 0 else Mobility(b, legalMoves, n - 1) + (if b[n - 1].Some? then legalMoves else 0)
  }

  function Occupied(b: Squares, square: int, n: nat): int
    requires 0 <= square < 64
  {
    if square < n && b[square].Some? then 1 else 0
  }

  /** `center_control`: the occupied squares of `0 .. n-1` that are central. */
  function CenterControl(b: Squares, n: nat): (c: int)
    requires n <= 64
    ensures c == Occupied(b, 27, n) + Occupied(b, 28, n) + Occupied(b, 35, n) + Occupied(b, 36, n)
    ensures 0 <= c <= 4
  {
    if n == 0 then 0 else CenterControl(b, n - 1) + (if b[n - 1].Some? && IsCenter(n - 1) then 1 else 0)
  }

  // ---------------------------------------------------------- pawn structure

  /** The number of pawns, of either colour, on `0 .. n-1`. */
  function PawnCount(b: Squares, n: nat): (c: nat)
    requires n <= 64
    ensures c <= PieceCount(b, n)
  {
    if n == 0 then 0 else PawnCount(b, n - 1) + (if IsPawnAt(b, n - 1) then 1 else 0)
  }

  /** The pawn on `square` has no pawn of either colour on the two squares of
      its own rank whose files are the clamped neighbours `max(0, f-1)` and
      `min(7, f+1)`. */
  predicate Isolated(b: Squares, square: int)
    requires 0 <= square < 64
  {
    var f, r := FileOf(square), RankOf(square);
    var left := if f - 1 < 0 then 0 else f - 1;
    var right := if f + 1 > 7 then 7 else f + 1;
    !IsPawnAt(b, SquareAt(left, r)) && !IsPawnAt(b, SquareAt(right, r))
  }

  /** Some pawn, of either colour, stands on the same file on a lower rank. */
  predicate Doubled(b: Squares, square: int)
    requires 0 <= square < 64
  {
    exists rank :: 0 <= rank < RankOf(square) && IsPawnAt(b, SquareAt(FileOf(square), rank))
  }

  /** A pawn on the a- or h-file is never isolated: its clamped neighbour list
      holds its own square. */
  lemma EdgePawnNeverIsolated(b: Squares, square: int)
    requires 0 <= square < 64 && IsPawnAt(b, square)
    requires FileOf(square) == 0 || FileOf(square) == 7
    ensures !Isolated(b, square)
  {
  }

  function PawnPenalty(b: Squares, square: int): (p: int)
    requires 0 <= square < 64
    ensures -70 <= p <= 0
    ensures !IsPawnAt(b, square) ==> p == 0
  {
    if !IsPawnAt(b, square) then 0
    else (if Isolated(b, square) then -30 else 0) + (if Doubled(b, square) then -40 else 0)
  }

  /** `evaluate_pawn_structure` over squares `0 .. n-1`: at most 30 + 40 per pawn. */
  function PawnStructure(b: Squares, n: nat): (s: int)
    requires n <= 64
    ensures -70 * PawnCount(b, n) <= s <= 0
  {
    if n == 0 then 0 else PawnStructure(b, n - 1) + PawnPenalty(b, n - 1)
  }

  /** `evaluate_pawn_structure`, with its `any` over the lower ranks as a loop. */
  method EvaluatePawnStructure(b: Squares) returns (score: int)
    ensures score == PawnStructure(b, 64)
  {
    score := 0;
    for square := 0 to 64
      invariant score == PawnStructure(b, square)
    {
      if IsPawnAt(b, square) {
        if Isolated(b, square) {
          score := score - 30;
        }
        var doubled := false;
        for rank := 0 to RankOf(square)
          invariant doubled <==> exists r :: 0 <= r < rank && IsPawnAt(b, SquareAt(FileOf(square), r))
        {
          doubled := doubled || IsPawnAt(b, SquareAt(FileOf(square), rank));
        }
        if doubled {
          score := score - 40;
        }
      }
    }
  }

  // ------------------------------------------------ king safety and castling

  /** `evaluate_king_safety(board, board.turn)`. */
  function KingSafety(whiteToMove: bool, inCheck: bool): (k: int)
    ensures k == 1000 || k == -1000
    ensures k < 0 <==> whiteToMove == inCheck
  {
    if whiteToMove then (if inCheck then -1000 else 1000)
    else (if inCheck then 1000 else -1000)
  }

  /** After the side-to-move flip of `evaluation`, the king term is -1000 in
      check and +1000 otherwise, for both colours. */
  lemma KingSafetyAfterFlip(whiteToMove: bool, inCheck: bool)
    ensures (if whiteToMove then KingSafety(whiteToMove, inCheck) else -KingSafety(whiteToMove, inCheck))
            == (if inCheck then -1000 else 1000)
  {
  }

  function RightsOf(r: CastlingRights, c: Color): (n: nat)
    ensures n <= 2
  {
    match c
    case White => (if r.whiteQueenside then 1 else 0) + (if r.whiteKingside then 1 else 0)
    case Black => (if r.blackQueenside then 1 else 0) + (if r.blackKingside then 1 else 0)
  }

  /** The castling unit of algorithm.py (1) and of algorithm1.py (10). */
  const CastlingUnitCached := 1
  const CastlingUnitParallel := 10

  /** `evaluate_castling`: `unit` per castling right of White, minus `unit` per
      castling right of Black. */
  method EvaluateCastling(r: CastlingRights, unit: int) returns (bonus: int)
    ensures bonus == unit * (RightsOf(r, White) - RightsOf(r, Black))
  {
    bonus := 0;
    if r.whiteQueenside {
      bonus := bonus + unit;
    }
    if r.whiteKingside {
      bonus := bonus + unit;
    }
    if r.blackQueenside {
      bonus := bonus - unit;
    }
    if r.blackKingside {
      bonus := bonus - unit;
    }
  }

  /** The castling bonus is a multiple of its unit within two units either
      way: [-2, 2] in algorithm.py, a multiple of 10 in [-20, 20] in algorithm1.py. */
  lemma CastlingRange(r: CastlingRights, unit: int)
    requires unit >= 0
    ensures -2 * unit <= unit * (RightsOf(r, White) - RightsOf(r, Black)) <= 2 * unit
    ensures unit > 0 ==> (unit * (RightsOf(r, White) - RightsOf(r, Black))) % unit == 0
  {
    var d := RightsOf(r, White) - RightsOf(r, Black);
    assert -2 <= d <= 2;
    if d == -2 { assert unit * d == -2 * unit; }
    else if d == -1 { assert unit * d == -unit; }
    else if d == 0 { assert unit * d == 0; }
    else if d == 1 { assert unit * d == unit; }
    else { assert unit * d == 2 * unit; }
  }

  /** algorithm.py's bonus lies in [-2, 2]. */
  lemma CachedCastlingRange(r: CastlingRights)
    ensures -2 <= CastlingUnitCached * (RightsOf(r, White) - RightsOf(r, Black)) <= 2
  {
    CastlingRange(r, CastlingUnitCached);
  }

  /** algorithm1.py's bonus is a multiple of 10 in [-20, 20]. */
  lemma ParallelCastlingRange(r: CastlingRights)
    ensures -20 <= CastlingUnitParallel * (RightsOf(r, White) - RightsOf(r, Black)) <= 20
    ensures (CastlingUnitParallel * (RightsOf(r, White) - RightsOf(r, Black))) % 10 == 0
  {
    CastlingRange(r, CastlingUnitParallel);
  }

  // ------------------------------------------------------------- evaluation

  /** The mate sentinel: the side to move is mated. */
  function MateValue(whiteToMove: bool): (m: int)
    ensures m == 200000000 || m == -200000000
    ensures m < 0 <==> whiteToMove
  {
    if whiteToMove then -Scale * MateScore else Scale * MateScore
  }

  /** The terms of `evaluation` that are negated when Black is to move, weighted. */
  function Positional(p: Position, legalMoves: nat): int {
    var b := p.squares;
    var terms :=
      2 * Activity(b, 64) + Mobility(b, legalMoves, 64) + 8 * CenterControl(b, 64)
      + 4 * PawnStructure(b, 64) + 8 * KingSafety(p.whiteToMove, p.inCheck);
    if p.whiteToMove then terms else -terms
  }

  /** `evaluation(board, depth)` of algorithm.py, times 20. */
  function Evaluation(p: Position, legalMoves: nat, depth: int): int {
    if p.checkmate then MateValue(p.whiteToMove)
    else 80 * Material(p.squares) + Positional(p, legalMoves) + Scale * (depth * 10)
  }

  /** `evaluation(board)` of algorithm1.py, times 20. */
  function StaticEvaluation(p: Position, legalMoves: nat): int {
    if p.checkmate then MateValue(p.whiteToMove)
    else 80 * Material(p.squares) + Positional(p, legalMoves)
  }

  /** A checkmated side to move gets -10000000 with White to move and
      +10000000 with Black to move (times 20), in both revisions. */
  lemma MateSentinel(p: Position, legalMoves: nat, depth: int)
    requires p.checkmate
    ensures Evaluation(p, legalMoves, depth) == StaticEvaluation(p, legalMoves)
    ensures p.whiteToMove ==> Evaluation(p, legalMoves, depth) == -200000000
    ensures !p.whiteToMove ==> Evaluation(p, legalMoves, depth) == 200000000
  {
  }

  /** The two revisions differ only by the depth term, away from mate. */
  lemma RevisionsAgree(p: Position, legalMoves: nat, depth: int)
    requires !p.checkmate
    ensures Evaluation(p, legalMoves, depth) == StaticEvaluation(p, legalMoves) + 200 * depth
  {
  }

  /** Handing the move to the other side keeps material (and the flipped king
      term) and negates every other positional term. */
  lemma SideToMoveFlip(p: Position, legalMoves: nat, depth: int)
    requires !p.checkmate && p.whiteToMove
    ensures var q := p.(whiteToMove := false);
      Evaluation(p, legalMoves, depth) + Evaluation(q, legalMoves, depth)
      == 2 * (80 * Material(p.squares) + 200 * depth) + 16 * (if p.inCheck then -1000 else 1000)
  {
  }

  /** Away from mate, with at most 218 legal moves (the most any chess position
      has) and a search depth of at most 1000, the heuristic score stays far
      below the mate sentinel, so a mate is always preferred to material. */
  lemma MateDominates(p: Position, legalMoves: nat, depth: int)
    requires !p.checkmate && legalMoves <= 218 && 0 <= depth <= 1000
    ensures -5000000 < Evaluation(p, legalMoves, depth) < 5000000
    ensures -5000000 < StaticEvaluation(p, legalMoves) < 5000000
  {
    PositionalBound(p, legalMoves);
    assert -57600 <= Material(p.squares) <= 57600;
  }

  lemma PositionalBound(p: Position, legalMoves: nat)
    requires legalMoves <= 218
    ensures -40000 < Positional(p, legalMoves) < 40000
  {
    var b := p.squares;
    MobilityBound(b, legalMoves);
    assert -3200 <= Activity(b, 64) <= 3520;
    assert -4480 <= PawnStructure(b, 64) <= 0 by {
      assert PawnCount(b, 64) <= 64;
    }
    assert 0 <= CenterControl(b, 64) <= 4;
  }

  /** With at most 218 legal moves, mobility is at most 64 · 218. */
  lemma MobilityBound(b: Squares, legalMoves: nat)
    requires legalMoves <= 218
    ensures 0 <= Mobility(b, legalMoves, 64) <= 13952
  {
    ProductBound(PieceCount(b, 64), legalMoves);
  }

  lemma ProductBound(pieces: nat, legalMoves: nat)
    requires pieces <= 64 && legalMoves <= 218
    ensures pieces * legalMoves <= 13952
  {
    assert pieces * legalMoves <= 64 * legalMoves;
  }

  /** `evaluation` of algorithm.py, calling the accumulating helpers. */
  method Evaluate(p: Position, legalMoves: nat, depth: int) returns (score: int)
    ensures score == Evaluation(p, legalMoves, depth)
  {
    var depthScore := depth * 10;
    if p.checkmate {
      return MateValue(p.whiteToMove);
    }
    var material := TotalMaterial(p.squares);
    var positional := PositionalTerms(p, legalMoves);
    score := 80 * material + positional + Scale * depthScore;
  }

  /** `evaluation` of algorithm1.py. */
  method EvaluateStatic(p: Position, legalMoves: nat) returns (score: int)
    ensures score == StaticEvaluation(p, legalMoves)
  {
    if p.checkmate {
      return MateValue(p.whiteToMove);
    }
    var material := TotalMaterial(p.squares);
    var positional := PositionalTerms(p, legalMoves);
    score := 80 * material + positional;
  }

  /** The flipped, weighted terms, as the body of `evaluation` computes them. */
  method PositionalTerms(p: Position, legalMoves: nat) returns (s: int)
    ensures s == Positional(p, legalMoves)
  {
    var b := p.squares;
    var activity := Activity(b, 64);
    var mobility := Mobility(b, legalMoves, 64);
    var centerControl := CenterControl(b, 64);
    var pawnStructure := EvaluatePawnStructure(b);
    var kingSafety := KingSafety(p.whiteToMove, p.inCheck);
    if !p.whiteToMove {
      activity := -activity;
      mobility := -mobility;
      pawnStructure := -pawnStructure;
      centerControl := -centerControl;
      kingSafety := -kingSafety;
    }
    s := 2 * activity + mobility + 8 * centerControl + 4 * pawnStructure + 8 * kingSafety;
  }
}
