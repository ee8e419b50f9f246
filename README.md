# Chess move search, modelled and proved in Dafny

This project models the move-search engine of a small chess program. The engine exists in two revisions, and both are modelled:

- **`algorithm.py`, the sequential revision.** Alpha-beta minimax runs on one shared board. A global transposition table maps a board fingerprint to a value. An iterative-deepening driver `best_move(board, max_depth)` searches depths 1 to `max_depth`.
- **`algorithm1.py`, the parallel revision.** Alpha-beta minimax runs without a table. `best_move(board, depth)` copies the board once per legal move. Each copy is searched by its own job, and the driver picks the first move with the highest score.

Each revision carries its own copy of the static evaluator. The evaluator combines:

- material;
- piece-square tables;
- mobility;
- centre control;
- pawn structure;
- king safety;
- a castling bonus that the evaluation never calls.

Modules:

| file | module | contents |
|---|---|---|
| `common.dfy` | `Common` | `Option`; the score type `Score = NegInf \| Fin(int) \| PosInf` with its order, `Max` and `Min` |
| `pieces.dfy` | `Pieces` | pieces, the 64 squares, `file_of`, `rank_of` and `chess.square` |
| `evaluator.dfy` | `Evaluator` | both evaluators and their helpers |
| `gametree.dfy` | `GameTree` | the positions reachable from the root as a finite tree, and the `Board` class (a root plus a stack of pushed moves, with `push`, `pop` and `copy`) |
| `cached_search.dfy` | `CachedSearch` | the specification functions `Search`, `Scan` and `Deepen`, and the class `Engine`, which owns the table |
| `parallel_search.dfy` | `ParallelSearch` | the specification `AlphaBeta` and `ScanAB`; the reference plain minimax `Minimax` and `BestOf`; the imperative search; the root driver |

### How the model represents the source

- **Scores are scaled by 20.** Every finite score is twenty times the source's floating-point score, so every weight becomes an integer: `80·material + 2·activity + mobility + 8·centre + 4·pawns + 8·king + 200·depth`. The mate sentinel ±10000000 becomes ±200000000. Python's `float('-inf')` and `float('inf')` are `NegInf` and `PosInf`.
- **Positions are nodes of a tree.** The answers that python-chess gives become fields of each node: `is_game_over()`, `is_repetition(3)`, `is_check()`, `is_checkmate()`, the legal moves, and the fingerprint `hash(str(board))`. A move is the index of a child in generation order.
- **Search results record the examined children.** The specification function `Search` returns the value, the move and the new table. It also returns the values of the children the loop examined, in order, so that "maximum of the children examined" and "stops at the first cutoff" can be stated.
- **Imperative members are proved against the specification functions.**
  - `Engine.Minimax` is proved equal to `Search`, and `AlphaBetaSearch` to `AlphaBeta`.
  - Both keep the board's move stack as they found it.
  - `Engine.BestMove` is proved equal to `Deepen`, and `ParallelSearch.BestMove` to `RootChoice`.

### Behaviour of the code the model keeps

- algorithm.py:197 looks up a piece-square table at the raw square, for White and Black alike.
- algorithm.py:213-215 calls a pawn isolated when neither of the two squares on its own rank at the clamped neighbouring files holds a pawn, of either colour.
- algorithm.py:219-221 calls a pawn doubled when a pawn of either colour stands on its file on a lower rank.
- algorithm.py:93-98 negates activity, mobility, pawn structure, centre control and king safety when Black is to move; the material balance of line 76 stays White minus Black.
- algorithm.py:51 clears the transposition table once per `best_move` call, before the depth loop. This is the first finding below.
- Neither revision's search has a time limit.

## Model

| member | source | states |
|---|---|---|
| Common.Max | algorithm.py:24 | Python's two-argument `max` on scores: at least both arguments and one of them, the first on a tie |
| Common.Min | algorithm.py:39 | Python's two-argument `min` on scores: at most both arguments and one of them, the first on a tie |
| Pieces.FileOf | algorithm.py:200-201 | the file of a square is in 0..7 |
| Pieces.RankOf | algorithm.py:203-204 | `8*rank + file` recovers the square; the rank of a square 0..63 is in 0..7 |
| Pieces.SquareAtInverse | algorithm1.py:181-185 | for file and rank in 0..7, `chess.square(file, rank)` is a square 0..63 whose `file_of` and `rank_of` give back the file and the rank |
| Pieces.SquareAt | algorithm.py:213-221 | `chess.square(file, rank)` is `rank * 8 + file`; `SquareAtInverse` proves that `file_of` and `rank_of` invert it on 0..7 |
| Pieces.IsCenter | algorithm.py:84 | the centre squares D4, E4, D5 and E5 are the squares 27, 28, 35 and 36; `CenterControl` counts the occupied ones |
| Evaluator.PieceValue | algorithm.py:114-122 | a piece is worth at most 900; the king, missing from the dictionary, is worth 0 |
| Evaluator.SideMaterial | algorithm.py:116-126 | one colour's material on n squares is at most 900·n |
| Evaluator.Material | algorithm.py:113-128 | the balance lies in [-57600, 57600] |
| Evaluator.TotalMaterial | algorithm.py:113-128 | the loop's two accumulators yield White's sum minus Black's sum |
| Evaluator.SideMaterialSwap | algorithm1.py:97-107 | after a colour swap, one colour's material is the other colour's material before it |
| Evaluator.MaterialSwapNegates | algorithm1.py:94-109 | swapping the colour of every piece negates `total_material` |
| Evaluator.IsEndgame | algorithm.py:130-136 | `is_endgame` as written: the signed balance `total_material` is at most 1000; `EndgameIgnoresAmount` is proved about it |
| Evaluator.IsEndgameByTotal | algorithm.py:130-136 | the corrected test: White's and Black's material together is at most 1000; `EndgameByTotalIsColourBlind` is proved about it |
| Evaluator.EndgameIgnoresAmount | algorithm.py:130-136 | as written, a board or its colour swap is always an "endgame", and so is any board where White has no more material than Black |
| Evaluator.EndgameByTotalIsColourBlind | algorithm1.py:111-117 | the corrected test is invariant under a colour swap, is false when either side alone has more than 1000, and implies the test as written |
| Evaluator.PawnTableShape | algorithm.py:141-149 | the pawn table has 64 entries, each in [-50, 55] |
| Evaluator.KnightTableShape | algorithm.py:150-158 | the knight table has 64 entries, each in [-50, 55] |
| Evaluator.BishopTableShape | algorithm.py:159-167 | the bishop table has 64 entries, each in [-50, 55] |
| Evaluator.RookTableShape | algorithm.py:168-176 | the rook table has 64 entries, each in [-50, 55] |
| Evaluator.QueenTableShape | algorithm.py:177-185 | the queen table has 64 entries, each in [-50, 55] |
| Evaluator.KingTableShape | algorithm.py:186-194 | the king table has 64 entries, each in [-50, 55] |
| Evaluator.PieceSquareTable | algorithm.py:140-195 | each piece type has a 64-entry table with entries in [-50, 55] |
| Evaluator.PiecePositionScore | algorithm.py:138-197 | the score is defined on every square 0..63, for a piece of either colour, and lies in [-50, 55] |
| Evaluator.PositionScoreColourBlind | algorithm.py:197 | the table is chosen by piece type alone and read at the raw square, so a piece of either colour scores the same on the same square |
| Evaluator.PieceCount | algorithm.py:79-81 | at most one piece per square |
| Evaluator.Activity | algorithm.py:80 | activity lies between -50 and 55 per piece |
| Evaluator.Mobility | algorithm.py:81 | mobility equals (number of pieces on the board) × (number of legal moves) |
| Evaluator.CenterControl | algorithm.py:84-85 | centre control counts exactly the occupied squares among d4, e4, d5 and e5, and lies in 0..4 |
| Evaluator.PawnCount | algorithm.py:209-211 | the pawns are among the pieces |
| Evaluator.Isolated | algorithm.py:213-215 | a pawn is isolated when no pawn of either colour stands on the two squares of its own rank at files `max(0, f-1)` and `min(7, f+1)`; `EdgePawnNeverIsolated` is proved about it |
| Evaluator.Doubled | algorithm.py:219-221 | a pawn is doubled when some pawn of either colour stands on its file at a lower rank |
| Evaluator.PawnPenalty | algorithm.py:211-223 | each pawn costs between 0 and 30 + 40; a square without a pawn costs nothing |
| Evaluator.PawnStructure | algorithm.py:207-224 | the pawn structure lies in [-70·pawns, 0] |
| Evaluator.EvaluatePawnStructure | algorithm.py:207-224 | the loop, with its inner `any` over the lower ranks, computes the pawn structure |
| Evaluator.EdgePawnNeverIsolated | algorithm1.py:194-196 | a pawn on the a- or h-file is never isolated, because the clamped neighbour list holds its own square |
| Evaluator.KingSafety | algorithm.py:226-230 | `evaluate_king_safety(board, board.turn)` is ±1000, and negative exactly when White is to move and in check or Black is to move and not in check |
| Evaluator.KingSafetyAfterFlip | algorithm.py:91-98 | after the side-to-move flip, the king term is -1000 in check and +1000 otherwise, for both colours |
| Evaluator.RightsOf | algorithm.py:234-241 | each side has at most two castling rights |
| Evaluator.EvaluateCastling | algorithm.py:232-242 | the bonus is one unit per White right minus one unit per Black right |
| Evaluator.CastlingRange | algorithm.py:232-242 | for any non-negative unit, the bonus is a multiple of the unit within two units either way |
| Evaluator.CachedCastlingRange | algorithm.py:232-242 | with algorithm.py's unit 1, the bonus lies in [-2, 2] |
| Evaluator.ParallelCastlingRange | algorithm1.py:213-223 | with algorithm1.py's unit 10, the bonus is a multiple of 10 in [-20, 20] |
| Evaluator.MateValue | algorithm.py:73-74 | the mate sentinel is ±10000000 (×20), and negative exactly when White is to move |
| Evaluator.Positional | algorithm.py:78-107 | the weighted terms 2·activity + mobility + 8·centre + 4·pawns + 8·king, negated when Black is to move; `PositionalBound` bounds it and `PositionalTerms` computes it |
| Evaluator.Evaluation | algorithm.py:69-111 | the mate sentinel when checkmated, otherwise 80·material + `Positional` + 200·depth; `MateSentinel`, `MateDominates`, `SideToMoveFlip` and `RevisionsAgree` are proved about it |
| Evaluator.StaticEvaluation | algorithm1.py:53-92 | the same without the depth term; `MateSentinel`, `MateDominates` and `RevisionsAgree` relate it to `Evaluation` |
| Evaluator.MateSentinel | algorithm.py:73-74 | a checkmated side to move scores -10000000 (×20) with White to move and +10000000 with Black to move, in both revisions and at every depth |
| Evaluator.RevisionsAgree | algorithm.py:69-111 | away from mate, the two evaluators differ exactly by the depth term `depth*10` (×20) |
| Evaluator.SideToMoveFlip | algorithm.py:93-109 | moving the turn to Black negates every term except material and the depth term; the king term flips as stated above |
| Evaluator.MateDominates | algorithm.py:69-111 | away from mate, with at most 218 legal moves and depth at most 1000, both evaluations stay strictly within ±5000000, far inside the mate sentinel |
| Evaluator.PositionalBound | algorithm.py:101-107 | the flipped positional terms lie strictly within ±40000 |
| Evaluator.MobilityBound | algorithm.py:81 | with at most 218 legal moves, the mobility of a board lies in [0, 13952] |
| Evaluator.Evaluate | algorithm.py:69-111 | `evaluation(board, depth)` computed with the accumulating helpers equals the specification `Evaluation` |
| Evaluator.EvaluateStatic | algorithm1.py:53-92 | `evaluation(board)` equals `StaticEvaluation` |
| Evaluator.PositionalTerms | algorithm.py:79-107 | computing the terms and negating them for Black yields `Positional` |
| GameTree.Board.constructor | Chess.py:16 | a board starts at its root position with an empty move stack |
| GameTree.Board.Push | algorithm.py:18 | `push` appends the move and moves the board to that child |
| GameTree.Board.Pop | algorithm.py:20 | `pop` removes the last move |
| GameTree.Board.Copy | algorithm1.py:39 | `copy` yields a new board with the same root, stack and position |
| CachedSearch.LeafValue | algorithm.py:4-8 | a terminal node scores 0 for a threefold repetition and `evaluation(board, depth)` otherwise; `TerminalBeforeCache` is proved about it |
| CachedSearch.Search | algorithm.py:3-43 | `minimax`: `LeafValue` at a terminal node, the stored value on a cache hit, otherwise the child loop `Scan` with its value then stored at the node's key; `StoresValue`, `SearchKeepsEntries`, `SearchPicksBest` and `SearchCutoff` are proved about it and `Engine.Minimax` is proved equal to it |
| CachedSearch.Scan | algorithm.py:14-41 | the loop from child `i`: each child searched with the current window and table, the strict `>` (`<`) test, alpha raised (beta lowered), stopping once `beta <= alpha`; `ScanPicksBest`, `ScanCutoff` and `ScanKeepsEntries` are proved about it |
| CachedSearch.TerminalBeforeCache | algorithm.py:4-8 | terminal nodes are decided before the table is read: the result depends on neither the table nor the window, the table is unchanged, and the move is `None`; a repetition scores 0 and anything else scores `evaluation(board, depth)` |
| CachedSearch.CacheHit | algorithm.py:10-12 | a non-terminal node whose fingerprint is in the table returns the stored value with move `None`, examines no child and leaves the table unchanged |
| CachedSearch.StoresValue | algorithm.py:27-42 | after a non-terminal node is searched, the table holds exactly its returned value at its fingerprint |
| CachedSearch.SearchKeepsEntries | algorithm.py:10-42 | entries present before a call are still there, with the same values, after it |
| CachedSearch.ScanKeepsEntries | algorithm.py:15-26 | the same for the loop over the children |
| CachedSearch.AfterKeepsBest | algorithm.py:21-23 | one more child keeps the running value the best of the children seen, and the move the first child attaining it |
| CachedSearch.ScanPicksBest | algorithm.py:15-41 | the loop ends with the best value of the children examined and the first child attaining it, with at most all the children examined |
| CachedSearch.SearchPicksBest | algorithm.py:14-43 | at a searched node the value is the maximum (the minimum at a minimizing node) of the child values examined, at least one child is examined when there is one, the move is the first examined child attaining the value, and there is no move exactly when the value is the initial infinity |
| CachedSearch.WindowNarrows | algorithm.py:24-39 | along the loop, alpha never decreases and beta is fixed at a maximizing node; beta never increases and alpha is fixed at a minimizing node |
| CachedSearch.AfterWindow | algorithm.py:24-41 | one more child extends the window fold and keeps the windows after the earlier children |
| CachedSearch.OpenOneMore | algorithm.py:24-26 | a child after which `beta <= alpha` does not yet hold leaves the window open after every examined child |
| CachedSearch.ScanCutoff | algorithm.py:24-41 | the loop examines children while the window is open and stops at the first child after which `beta <= alpha` |
| CachedSearch.SearchCutoff | algorithm.py:24-41 | at a searched node the window is open after every examined child but the last, and closed after the last one if any child was left unexamined |
| CachedSearch.Deepen | algorithm.py:56-63 | the depth loop: each depth searched with the full window from the carried table, its result replacing the kept pair only when strictly better for the side to move |
| CachedSearch.BestMoveSpec | algorithm.py:49-63 | `best_move` as written: the table cleared once, the kept value the side's initial infinity, then `Deepen` over depths 1..max_depth; `DeeperDepthsAreCacheHits` is proved about it |
| CachedSearch.DeepenSplit | algorithm.py:56-63 | the depth loop up to `d + 1` is the loop up to `d` followed by one more depth |
| CachedSearch.DeeperKeepsNoWorse | algorithm.py:56-63 | across depths the kept value never gets worse for the side to move: it never decreases for White and never increases for Black |
| CachedSearch.CachedRootStaysKept | algorithm.py:56-63 | once the root's fingerprint holds the kept value, no further depth changes anything |
| CachedSearch.DeeperDepthsAreCacheHits | algorithm.py:49-63 | as written, `best_move` to any depth ≥ 1 of a position that is not over returns exactly what the depth-1 search gives |
| CachedSearch.OnlyChild | algorithm.py:14-28 | a searched node with a single move takes that move's value and stores it |
| CachedSearch.MateInThreeDepthOne | algorithm.py:14-28 | in the example tree, the depth-1 search prefers the quiet move 0 and sees no mate |
| CachedSearch.MateInThreeDepthTwo | algorithm.py:14-28 | in the example tree, the depth-2 search sees no mate |
| CachedSearch.MateInThreeDepthThree | algorithm.py:3-28 | in the example tree, the depth-3 search finds the mate through move 1 |
| CachedSearch.DeeperSearchIgnored | algorithm.py:49-63 | in an example tree, depth 1 prefers move 0 and depth 3 finds a mate through move 1, yet `best_move(board, 3)` returns move 0 while the corrected driver returns move 1 |
| CachedSearch.DeepenFresh | algorithm.py:56-63 | the corrected depth loop: each depth searched from an empty table, with the same strict keep rule |
| CachedSearch.BestMoveFreshSpec | algorithm.py:49-63 | the corrected `best_move`: `DeepenFresh` over depths 1..max_depth from the side's initial infinity |
| CachedSearch.DeepenFreshKeepsBest | algorithm.py:49-63 | with the table cleared at every depth, the value the driver keeps is no worse for the side to move than the one it started from and than the value of every depth searched |
| CachedSearch.DeepenFreshKeepsFirst | algorithm.py:56-63 | with the table cleared at every depth, the kept pair is the initial one or the move and value of one depth, strictly better than the initial value and than every shallower depth |
| CachedSearch.Engine.constructor | algorithm.py:47 | the table starts empty |
| CachedSearch.Engine.Minimax | algorithm.py:3-43 | the imperative search returns the value and move of `Search` on the board's position, leaves the table as `Search` does, and restores the board's move stack |
| CachedSearch.Engine.ScanMoves | algorithm.py:14-41 | the loop over the legal moves, on both branches, returns the value, move and table of `Scan` from the start frame and restores the move stack |
| CachedSearch.Engine.BestMove | algorithm.py:49-66 | the driver clears the table, returns the move of `Deepen` over depths 1..max_depth, and restores the board |
| CachedSearch.Engine.BestMoveFresh | algorithm.py:49-63 | the corrected driver, which clears the table at every depth, returns the move of `DeepenFresh` |
| ParallelSearch.Leaf | algorithm1.py:10-11 | a terminal node scores `evaluation(board)`, with no depth term |
| ParallelSearch.AlphaBeta | algorithm1.py:9-34 | `minimax` of algorithm1.py: `Leaf` at depth 0 or game over (no repetition test), otherwise the loop `ScanAB` from the side's initial infinity |
| ParallelSearch.ScanAB | algorithm1.py:13-34 | the loop from child `i`: `maxEval` (`minEval`) and alpha (beta) updated with `max` (`min`) after each child, stopping once `beta <= alpha` |
| ParallelSearch.Minimax | algorithm1.py:9-34 | the reference plain minimax to the same depth with the same leaves, examining every child; `AlphaBetaFailSoft` and `AlphaBetaEqualsMinimax` relate `AlphaBeta` to it |
| ParallelSearch.BestOf | algorithm1.py:13-34 | the best plain-minimax child value for the side, over every child from `i` on |
| ParallelSearch.AlphaBetaFailSoft | algorithm1.py:9-34 | for a non-empty window, alpha-beta reports the minimax value exactly when it lies inside the window, a value between it and alpha when it is at or below alpha, and a value between beta and it when it is at or above beta |
| ParallelSearch.ScanMaxFailSoft | algorithm1.py:13-23 | the maximizing loop, with its running maximum at most alpha, has the fail-soft property for the best of it and the remaining children's values |
| ParallelSearch.ScanMinFailSoft | algorithm1.py:24-34 | the mirror image for the minimizing loop |
| ParallelSearch.MaxStep | algorithm1.py:13-23 | one child of the maximizing loop: its fail-soft value and the bound for the rest give the bound for the loop from that child |
| ParallelSearch.MinStep | algorithm1.py:24-34 | the mirror image for one child of the minimizing loop |
| ParallelSearch.AlphaBetaEqualsMinimax | algorithm1.py:9-34 | with the full window and no cache, alpha-beta returns the plain minimax value |
| ParallelSearch.AlphaBetaSearch | algorithm1.py:9-34 | the imperative search returns `AlphaBeta` on the board's position and restores the move stack |
| ParallelSearch.ScanMoves | algorithm1.py:13-34 | the loop over the legal moves, on both branches, returns `ScanAB` from the initial infinity and restores the move stack |
| ParallelSearch.RootScores | algorithm1.py:44-45 | there is one score per legal root move |
| ParallelSearch.RootScoresAreMinimax | algorithm1.py:44-45 | each root score is the plain minimax value of its move for the opponent |
| ParallelSearch.MaxOf | algorithm1.py:47 | `max(scores)` is one of the scores and at least every score |
| ParallelSearch.MinOf | algorithm1.py:47 | the minimum is one of the scores and at most every score |
| ParallelSearch.IndexOf | algorithm1.py:48 | `scores.index(x)` is the first position holding x |
| ParallelSearch.RootChoice | algorithm1.py:37-50 | `best_move` as written: the first index holding `max(scores)`, and `None` with no legal move; `RootChoiceIsHighest` is proved about it |
| ParallelSearch.RootChoiceForSide | algorithm1.py:37-50 | the corrected root: the first index holding the highest score with White to move and the lowest with Black to move; `RootChoiceForSideIsBest` is proved about it |
| ParallelSearch.RootChoiceIsHighest | algorithm1.py:38-48 | as written, a move exists exactly when there is a legal move; it is a legal move whose minimax value is the highest, and every earlier move scores strictly lower |
| ParallelSearch.RootChoiceForSideIsBest | algorithm1.py:38-48 | corrected, the move is best for the side to move and is the first such move |
| ParallelSearch.BlackPicksWhitesBest | algorithm1.py:47-48 | in an example tree with Black to move, as written the root plays the move after which Black is mated, while the corrected root plays the move that mates White |
| ParallelSearch.CopyPerMove | algorithm1.py:38-41 | one fresh, distinct board per legal move, each a copy of the caller's board with that move pushed, so it stands on that child |
| ParallelSearch.BestMove | algorithm1.py:37-50 | copying the board per move, pushing each move on its own copy and searching every copy returns `RootChoice`, without modifying the caller's board |

## Left out

- **python-chess rules.** Move generation, `is_game_over`, `is_checkmate`, `is_check`, `is_repetition`, the castling-rights queries and `piece_map` are not re-implemented. Their answers are fields of each tree node, because the chess rules belong to the library, not to this program.
- **The fingerprint `hash(str(board))`.** It is an integer field of each node. Nothing is assumed about collisions, so two positions may share a key as they can in the source.
- **`joblib.Parallel` (algorithm1.py:44-45).** The root searches run one after another on their own copies. No board is shared, so the results are the same. Process scheduling itself is out of scope.
- **Floating-point arithmetic.** The weighted sum is exact integer arithmetic scaled by 20, so float rounding is not modelled.
- **Side effects.** `print(best_move, best_value)` at algorithm.py:65 has no model.
- **Chess.py.** Apart from the `chess.Board()` that starts a game (Chess.py:16), the self-play loop, its CSV output and its imports are I/O plumbing and are not modelled.
- **`evaluate_castling`.** Neither evaluator calls it. It is modelled as a function on its own, with its unit as a parameter.
- **`is_endgame`.** It is defined but never called. It is modelled on its own.
- **Tree depth.** The tree of positions is finite, so every search terminates. In the source, algorithm1.py's `best_move` with `depth <= 0` searches its children at negative depth. The model then searches until game over, which terminates on a finite tree.
- **Python's `max([])` error.** With no legal move, algorithm1.py's `best_move` raises because `max()` receives an empty list. `RootChoice` and `ParallelSearch.BestMove` return `None` in that case.
- **Cache hits ignore the window.** The table stores values computed under narrowed alpha-beta windows, and a later hit reuses them under whatever window then holds. The model reproduces this behaviour exactly. It proves no claim about the exactness of cached values.

## Findings

| source | as written | input that shows it | evidently intended | confidence | as-written member | corrected member |
|---|---|---|---|---|---|---|
| algorithm.py:49-63 | the table is cleared once, before the depth loop; from depth 2 on, the root's own fingerprint is in the table (stored by depth 1), so each deeper search returns the depth-1 value with move `None`, which is never a strict improvement: every depth after the first is ignored | `MateInThree`: White to move; move 0 looks better at depth 1, move 1 mates at depth 3; `best_move(board, 3)` returns move 0 | each depth searched afresh (table cleared per depth), keeping the best result over the depths | high (not executed) | CachedSearch.DeeperSearchIgnored | CachedSearch.DeepenFreshKeepsBest |
| algorithm1.py:47-48 | `max(scores)` is taken for either side, although the scores are from White's point of view | `MateInOneForBlack`: Black to move; move 0 lets White mate (score +10000000), move 1 mates White (score -10000000); the root plays move 0 | the highest score for White and the lowest for Black | high (not executed) | ParallelSearch.BlackPicksWhitesBest | ParallelSearch.RootChoiceForSideIsBest |
| algorithm.py:130-136 | `is_endgame` compares the signed balance White − Black with 1000, not the material on the board | the starting position (balance 0) is an "endgame", and so is any position where Black has at least as much material as White | the material of both sides together at most 1000 | medium (not executed) | Evaluator.EndgameIgnoresAmount | Evaluator.EndgameByTotalIsColourBlind |
