/** The parallel revision of the search (algorithm1.py:9-50): alpha-beta
    minimax without a table, and a root that searches every legal move on its
    own copy of the board and picks the highest score.

    `AlphaBeta` and `ScanAB` are the specification of `minimax` and its loop;
    `Minimax` and `BestOf` are an independent reference (plain minimax, no
    pruning). The fail-soft lemmas relate the two, and on the full window
    alpha-beta computes exactly the minimax value. */
module ParallelSearch {
  import opened Common
  import opened GameTree
  import Evaluator
  import Pieces

  /** `depth == 0 or board.is_game_over()`: no repetition test here. */
  predicate Terminal(t: Node, depth: int) {
    depth == 0 || t.gameOver
  }

  /** `evaluation(board)`, with no depth term. */
  function Leaf(t: Node): Score {
    Fin(Evaluator.StaticEvaluation(t.pos, |t.children|))
  }

  /** `minimax(board, depth, alpha, beta, maximizingPlayer)`. */
  function AlphaBeta(t: Node, depth: int, alpha: Score, beta: Score, maximizing: bool): Score
    decreases t, 1
  {
    if Terminal(t, depth) then Leaf(t)
    else ScanAB(t, depth, 0, alpha, beta, maximizing, Initial(maximizing))
  }

  /** The loop of `minimax` from child `i` on, with the current window and the
      running `maxEval` / `minEval`. */
  function ScanAB(t: Node, depth: int, i: nat, alpha: Score, beta: Score, maximizing: bool,
                  best: Score): Score
    requires i <= |t.children|
    decreases t, 0, |t.children| - i
  {
    if i == |t.children| then best
    else
      var v := AlphaBeta(t.children[i], depth - 1, alpha, beta, !maximizing);
      var best' := if maximizing then Max(best, v) else Min(best, v);
      var alpha' := if maximizing then Max(alpha, v) else alpha;
      var beta' := if maximizing then beta else Min(beta, v);
      if Le(beta', alpha') then best' else ScanAB(t, depth, i + 1, alpha', beta', maximizing, best')
  }

  /** Plain minimax to the same depth: every child examined. */
  function Minimax(t: Node, depth: int, maximizing: bool): Score
    decreases t, 1
  {
    if Terminal(t, depth) then Leaf(t) else BestOf(t, depth, 0, maximizing)
  }

  /** The best minimax value for the side of the children from `i` on. */
  function BestOf(t: Node, depth: int, i: nat, maximizing: bool): Score
    requires i <= |t.children|
    decreases t, 0, |t.children| - i
  {
    if i == |t.children| then Initial(maximizing)
    else
      var v := Minimax(t.children[i], depth - 1, !maximizing);
      var w := BestOf(t, depth, i + 1, maximizing);
      if maximizing then Max(v, w) else Min(v, w)
  }

  /** The fail-soft property of alpha-beta: a true value at or below alpha is
      reported as a value between it and alpha, a value inside the window
      exactly, and a value at or above beta as a value between beta and it. */
  ghost predicate FailSoft(r: Score, v: Score, alpha: Score, beta: Score) {
    && (Le(v, alpha) ==> Le(v, r) && Le(r, alpha))
    && (Lt(alpha, v) && Lt(v, beta) ==> r == v)
    && (Le(beta, v) ==> Le(beta, r) && Le(r, v))
  }

  lemma {:induction false} AlphaBetaFailSoft(t: Node, depth: int, alpha: Score, beta: Score, maximizing: bool)
    requires Lt(alpha, beta)
    ensures FailSoft(AlphaBeta(t, depth, alpha, beta, maximizing), Minimax(t, depth, maximizing), alpha, beta)
    decreases t, 1
  {
    if !Terminal(t, depth) {
      if maximizing {
        ScanMaxFailSoft(t, depth, 0, alpha, beta, NegInf);
      } else {
        ScanMinFailSoft(t, depth, 0, alpha, beta, PosInf);
      }
    }
  }

  /** What a maximizing loop reports, `r`, given the best `w` of the remaining
      children's values and the running maximum `best`, which is at most alpha:
      the fail-soft answer for `Max(best, w)`. */
  ghost predicate MaxScanBound(r: Score, w: Score, best: Score, alpha: Score, beta: Score) {
    && (Le(w, alpha) ==> Le(Max(best, w), r) && Le(r, alpha))
    && (Lt(alpha, w) && Lt(w, beta) ==> r == w)
    && (Le(beta, w) ==> Le(beta, r) && Le(r, w))
  }

  /** The mirror image for a minimizing loop, whose running minimum is at
      least beta. */
  ghost predicate MinScanBound(r: Score, w: Score, best: Score, alpha: Score, beta: Score) {
    && (Le(beta, w) ==> Le(beta, r) && Le(r, Min(best, w)))
    && (Lt(alpha, w) && Lt(w, beta) ==> r == w)
    && (Le(w, alpha) ==> Le(w, r) && Le(r, alpha))
  }

  /** One child of a maximizing loop: the child reported `v` for true value
      `u`; the loop then either cuts off, reporting `Max(best, v)`, or goes on
      with the raised alpha and reports `r` for the rest, whose values' best
      is `w'`. */
  lemma MaxStep(alpha: Score, beta: Score, best: Score, v: Score, u: Score, r: Score, w': Score)
    requires Lt(alpha, beta) && Le(best, alpha) && FailSoft(v, u, alpha, beta)
    requires Le(beta, Max(alpha, v)) ==> r == Max(best, v)
    requires !Le(beta, Max(alpha, v)) ==> MaxScanBound(r, w', Max(best, v), Max(alpha, v), beta)
    ensures MaxScanBound(r, Max(u, w'), best, alpha, beta)
  {
    LeTotal(u, alpha);
    LeTotal(u, beta);
    LeTotal(w', Max(alpha, v));
    LeTotal(w', beta);
    LeTotal(v, beta);
  }

  lemma MinStep(alpha: Score, beta: Score, best: Score, v: Score, u: Score, r: Score, w': Score)
    requires Lt(alpha, beta) && Le(beta, best) && FailSoft(v, u, alpha, beta)
    requires Le(Min(beta, v), alpha) ==> r == Min(best, v)
    requires !Le(Min(beta, v), alpha) ==> MinScanBound(r, w', Min(best, v), alpha, Min(beta, v))
    ensures MinScanBound(r, Min(u, w'), best, alpha, beta)
  {
    LeTotal(u, alpha);
    LeTotal(u, beta);
    LeTotal(w', alpha);
    LeTotal(w', Min(beta, v));
    LeTotal(v, alpha);
  }

  lemma {:induction false} ScanMaxFailSoft(t: Node, depth: int, i: nat, alpha: Score, beta: Score, best: Score)
    requires i <= |t.children| && Lt(alpha, beta) && Le(best, alpha)
    ensures MaxScanBound(ScanAB(t, depth, i, alpha, beta, true, best), BestOf(t, depth, i, true), best, alpha, beta)
    decreases t, 0, |t.children| - i
  {
    if i < |t.children| {
      var c := t.children[i];
      var v := AlphaBeta(c, depth - 1, alpha, beta, false);
      AlphaBetaFailSoft(c, depth - 1, alpha, beta, false);
      if !Le(beta, Max(alpha, v)) {
        LeTotal(best, v);
        ScanMaxFailSoft(t, depth, i + 1, Max(alpha, v), beta, Max(best, v));
      }
      MaxStep(alpha, beta, best, v, Minimax(c, depth - 1, false),
              ScanAB(t, depth, i, alpha, beta, true, best), BestOf(t, depth, i + 1, true));
    }
  }

  lemma {:induction false} ScanMinFailSoft(t: Node, depth: int, i: nat, alpha: Score, beta: Score, best: Score)
    requires i <= |t.children| && Lt(alpha, beta) && Le(beta, best)
    ensures MinScanBound(ScanAB(t, depth, i, alpha, beta, false, best), BestOf(t, depth, i, false), best, alpha, beta)
    decreases t, 0, |t.children| - i
  {
    if i < |t.children| {
      var c := t.children[i];
      var v := AlphaBeta(c, depth - 1, alpha, beta, true);
      AlphaBetaFailSoft(c, depth - 1, alpha, beta, true);
      if !Le(Min(beta, v), alpha) {
        LeTotal(best, v);
        ScanMinFailSoft(t, depth, i + 1, alpha, Min(beta, v), Min(best, v));
      }
      MinStep(alpha, beta, best, v, Minimax(c, depth - 1, true),
              ScanAB(t, depth, i, alpha, beta, false, best), BestOf(t, depth, i + 1, false));
    }
  }

  /** Called with the full window, as the root does, pruning changes nothing:
      alpha-beta returns the minimax value. */
  lemma AlphaBetaEqualsMinimax(t: Node, depth: int, maximizing: bool)
    ensures AlphaBeta(t, depth, NegInf, PosInf, maximizing) == Minimax(t, depth, maximizing)
  {
    AlphaBetaFailSoft(t, depth, NegInf, PosInf, maximizing);
  }

  /** `minimax` on a board: the move stack comes back as it was. */
  method AlphaBetaSearch(board: Board, depth: int, alpha: Score, beta: Score, maximizing: bool)
    returns (value: Score)
    requires board.Valid()
    modifies board
    ensures board.Valid() && board.stack == old(board.stack)
    ensures value == AlphaBeta(old(board.Current()), depth, alpha, beta, maximizing)
    decreases board.Current(), 1
  {
    var node := board.Current();
    if depth == 0 || node.gameOver {
      var score := Evaluator.EvaluateStatic(node.pos, board.LegalMoveCount());
      return Fin(score);
    }
    value := ScanMoves(board, depth, alpha, beta, maximizing);
  }

  /** The loop of `minimax` over the legal moves, keeping `maxEval` and alpha
      (`minEval` and beta). */
  method ScanMoves(board: Board, depth: int, alpha: Score, beta: Score, maximizing: bool)
    returns (best: Score)
    requires board.Valid()
    modifies board
    ensures board.Valid() && board.stack == old(board.stack)
    ensures best == ScanAB(old(board.Current()), depth, 0, alpha, beta, maximizing, Initial(maximizing))
    decreases board.Current(), 0
  {
    var node := board.Current();
    ghost var whole := ScanAB(node, depth, 0, alpha, beta, maximizing, Initial(maximizing));
    best := Initial(maximizing);
    var a, b := alpha, beta;
    var n := board.LegalMoveCount();
    var i := 0;
    while i < n
      invariant 0 <= i <= n == |node.children|
      invariant board.Valid() && board.stack == old(board.stack) && board.Current() == node
      invariant ScanAB(node, depth, i, a, b, maximizing, best) == whole
      decreases n - i
    {
      board.Push(i);
      var v := AlphaBetaSearch(board, depth - 1, a, b, !maximizing);
      board.Pop();
      if maximizing {
        best := Max(best, v);
        a := Max(a, v);
      } else {
        best := Min(best, v);
        b := Min(b, v);
      }
      if Le(b, a) {
        break;
      }
      i := i + 1;
    }
  }

  // --------------------------------------------------------------- the root

  /** The score of every root move: the child searched one ply shallower with
      the full window, for the opponent of the side to move. */
  function RootScores(t: Node, depth: int): (s: seq<Score>)
    ensures |s| == |t.children|
  {
    seq(|t.children|, i requires 0 <= i < |t.children| =>
      AlphaBeta(t.children[i], depth - 1, NegInf, PosInf, !t.pos.whiteToMove))
  }

  /** Each root score is the minimax value of its move. */
  lemma RootScoresAreMinimax(t: Node, depth: int)
    ensures forall i :: 0 <= i < |t.children| ==>
      RootScores(t, depth)[i] == Minimax(t.children[i], depth - 1, !t.pos.whiteToMove)
  {
    forall i | 0 <= i < |t.children|
      ensures RootScores(t, depth)[i] == Minimax(t.children[i], depth - 1, !t.pos.whiteToMove)
    {
      AlphaBetaEqualsMinimax(t.children[i], depth - 1, !t.pos.whiteToMove);
    }
  }

  /** `max(scores)`. */
  function MaxOf(s: seq<Score>): (r: Score)
    requires |s| > 0
    ensures r in s
    ensures forall k :: 0 <= k < |s| ==> Le(s[k], r)
    decreases |s|
  {
    if |s| == 1 then s[0] else Max(s[0], MaxOf(s[1..]))
  }

  /** `min(scores)`. */
  function MinOf(s: seq<Score>): (r: Score)
    requires |s| > 0
    ensures r in s
    ensures forall k :: 0 <= k < |s| ==> Le(r, s[k])
    decreases |s|
  {
    if |s| == 1 then s[0] else Min(s[0], MinOf(s[1..]))
  }

  /** `scores.index(x)`: the first position holding `x`. */
  function IndexOf(s: seq<Score>, x: Score): (i: nat)
    requires x in s
    ensures i < |s| && s[i] == x
    ensures forall k :: 0 <= k < i ==> s[k] != x
    decreases |s|
  {
    if s[0] == x then 0 else 1 + IndexOf(s[1..], x)
  }

  /** `best_move(board, depth)` as written: the first root move of highest
      score, whichever side is to move. With no legal move `max` of the empty
      list raises; that is `None` here. */
  function RootChoice(t: Node, depth: int): Option<nat> {
    var s := RootScores(t, depth);
    if |s| == 0 then None else Some(IndexOf(s, MaxOf(s)))
  }

  /** `best_move` as corrected: the highest score for White, the lowest for
      Black. */
  function RootChoiceForSide(t: Node, depth: int): Option<nat> {
    var s := RootScores(t, depth);
    if |s| == 0 then None
    else if t.pos.whiteToMove then Some(IndexOf(s, MaxOf(s)))
    else Some(IndexOf(s, MinOf(s)))
  }

  /** As written, the root picks the first move whose minimax value is the
      highest, for either side. */
  lemma RootChoiceIsHighest(t: Node, depth: int)
    ensures RootChoice(t, depth).Some? <==> |t.children| > 0
    ensures var r, s := RootChoice(t, depth), RootScores(t, depth);
      r.Some? ==>
        && r.value < |t.children|
        && s[r.value] == Minimax(t.children[r.value], depth - 1, !t.pos.whiteToMove)
        && (forall k :: 0 <= k < |s| ==> Le(s[k], s[r.value]))
        && (forall k :: 0 <= k < r.value ==> Lt(s[k], s[r.value]))
  {
    RootScoresAreMinimax(t, depth);
    var s := RootScores(t, depth);
    if |s| > 0 {
      var m := MaxOf(s);
      var j := IndexOf(s, m);
      forall k | 0 <= k < j
        ensures Lt(s[k], s[j])
      {
        LeTotal(s[k], m);
      }
    }
  }

  /** Corrected, the root picks the first move whose minimax value is best for
      the side to move: for every other move, the opponent's best reply is no
      better for it. */
  lemma RootChoiceForSideIsBest(t: Node, depth: int)
    ensures RootChoiceForSide(t, depth).Some? <==> |t.children| > 0
    ensures var r, s, white := RootChoiceForSide(t, depth), RootScores(t, depth), t.pos.whiteToMove;
      r.Some? ==>
        && r.value < |t.children|
        && s[r.value] == Minimax(t.children[r.value], depth - 1, !white)
        && (forall k :: 0 <= k < |s| ==> NoWorse(white, s[r.value], s[k]))
        && (forall k :: 0 <= k < r.value ==> Improves(white, s[k], s[r.value]))
  {
    RootScoresAreMinimax(t, depth);
    var s := RootScores(t, depth);
    if |s| > 0 {
      var m := if t.pos.whiteToMove then MaxOf(s) else MinOf(s);
      var j := IndexOf(s, m);
      forall k | 0 <= k < j
        ensures Improves(t.pos.whiteToMove, s[k], s[j])
      {
        LeTotal(s[k], m);
      }
    }
  }

  // ------------------------------------------------ a position that shows it

  const NoCastling := Evaluator.CastlingRights(false, false, false, false)

  /** Black to move with two replies: after the first, White mates at once;
      the second mates White. */
  const MateInOneForBlack: Node :=
    Node(Evaluator.Position(Pieces.EmptySquares, false, false, false, NoCastling), false, false, 0, [
      Node(Evaluator.Position(Pieces.EmptySquares, true, false, false, NoCastling), false, false, 1, [
        Node(Evaluator.Position(Pieces.EmptySquares, false, true, true, NoCastling), true, false, 2, [])]),
      Node(Evaluator.Position(Pieces.EmptySquares, true, true, true, NoCastling), true, false, 3, [])])

  /** Searched two plies deep, the root as written plays the reply after which
      Black is mated, although the other reply mates White; the corrected root
      plays the mating reply. */
  lemma BlackPicksWhitesBest()
    ensures RootScores(MateInOneForBlack, 2) == [Fin(200000000), Fin(-200000000)]
    ensures RootChoice(MateInOneForBlack, 2) == Some(0)
    ensures RootChoiceForSide(MateInOneForBlack, 2) == Some(1)
  {
    var t := MateInOneForBlack;
    var c0, c1 := t.children[0], t.children[1];
    assert AlphaBeta(c0.children[0], 0, NegInf, PosInf, false) == Fin(200000000);
    assert ScanAB(c0, 1, 1, Fin(200000000), PosInf, true, Fin(200000000)) == Fin(200000000);
    assert AlphaBeta(c0, 1, NegInf, PosInf, true) == Fin(200000000);
    assert AlphaBeta(c1, 1, NegInf, PosInf, true) == Fin(-200000000);
    var s := RootScores(t, 2);
    assert s[0] == Fin(200000000) && s[1] == Fin(-200000000);
    assert s == [Fin(200000000), Fin(-200000000)];
    assert MaxOf(s) == Fin(200000000);
    assert MinOf(s) == Fin(-200000000);
  }

  /** `best_move(board, depth)`: one copy of the board per legal move, each
      move pushed on its own copy, each copy searched (by a separate job in
      the source; in sequence here, which computes the same since no two
      searches share a board), then the first move of highest score. The
      caller's board is not changed. */
  method BestMove(board: Board, depth: int) returns (move: Option<nat>)
    requires board.Valid()
    ensures move == RootChoice(board.Current(), depth)
  {
    var node := board.Current();
    var n := board.LegalMoveCount();
    var white := node.pos.whiteToMove;
    var boards := CopyPerMove(board);
    ghost var expected := RootScores(node, depth);
    var scores: seq<Score> := [];
    for j := 0 to n
      invariant |scores| == j
      invariant forall k :: 0 <= k < n ==> boards[k].Valid()
      invariant forall k :: j <= k < n ==> boards[k].Current() == node.children[k]
      invariant scores == expected[..j]
    {
      var v := AlphaBetaSearch(boards[j], depth - 1, NegInf, PosInf, !white);
      scores := scores + [v];
    }
    assert scores == expected;
    if n == 0 {
      return None;
    }
    var bestScore := MaxOf(scores);
    move := Some(IndexOf(scores, bestScore));
  }

  /** `moves`, `boards` and the push loop of `best_move`: one new, distinct
      copy of the board per legal move, with exactly that move pushed on it. */
  method CopyPerMove(board: Board) returns (boards: seq<Board>)
    requires board.Valid()
    ensures |boards| == |board.Current().children|
    ensures forall k :: 0 <= k < |boards| ==> fresh(boards[k])
    ensures forall k, l :: 0 <= k < l < |boards| ==> boards[k] != boards[l]
    ensures forall k :: 0 <= k < |boards| ==>
      && boards[k].Valid() && boards[k].root == board.root && boards[k].stack == board.stack + [k]
      && boards[k].Current() == board.Current().children[k]
  {
    var node := board.Current();
    var n := board.LegalMoveCount();
    boards := [];
    for j := 0 to n
      invariant |boards| == j
      invariant forall k :: 0 <= k < j ==> fresh(boards[k])
      invariant forall k, l :: 0 <= k < l < j ==> boards[k] != boards[l]
      invariant forall k :: 0 <= k < j ==>
        boards[k].Valid() && boards[k].root == board.root && boards[k].stack == board.stack
    {
      var b := board.Copy();
      boards := boards + [b];
    }
    for j := 0 to n
      invariant forall k :: 0 <= k < n ==> boards[k].Valid() && boards[k].root == board.root
      invariant forall k :: 0 <= k < j ==>
        boards[k].stack == board.stack + [k] && boards[k].Current() == node.children[k]
      invariant forall k :: j <= k < n ==> boards[k].stack == board.stack
    {
      boards[j].Push(j);
    }
  }
}
