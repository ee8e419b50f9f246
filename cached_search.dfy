/** The sequential revision of the search (algorithm.py:1-66): alpha-beta
    minimax over a shared board with a transposition table, and the
    iterative-deepening driver that clears the table once and searches depths
    1 .. max_depth.

    `Search` and `Scan` are the specification: a pure rendering of one call of
    `minimax` and of its loop over the legal moves. Besides the value, the move
    and the table after the call, they record the values of the children the
    call examined, in order (`scores`), so that what the loop promises can be
    stated. `Engine.Minimax` is the imperative search, proved equal to them. */
module CachedSearch {
  import opened Common
  import opened GameTree
  import Evaluator
  import Pieces

  /** What one call of `minimax` yields. */
  datatype Outcome = Outcome(
    value: Score,
    move: Option<nat>,
    table: map<int, Score>,
    scores: seq<Score>)

  /** The loop variables of `minimax` between two children: alpha, beta, the
      running best value and move, the table, and the child values so far. */
  datatype Frame = Frame(
    alpha: Score,
    beta: Score,
    best: Score,
    move: Option<nat>,
    table: map<int, Score>,
    scores: seq<Score>)

  /** `depth == 0 or board.is_game_over() or board.is_repetition(3)`. */
  predicate Terminal(t: Node, depth: int) {
    depth == 0 || t.gameOver || t.repetition
  }

  /** The value of a terminal node: 0 for a threefold repetition, otherwise
      `evaluation(board, depth)`. */
  function LeafValue(t: Node, depth: int): Score {
    if t.repetition then Fin(0) else Fin(Evaluator.Evaluation(t.pos, |t.children|, depth))
  }

  /** The frame a node's loop starts from. */
  function Start(alpha: Score, beta: Score, maximizing: bool, table: map<int, Score>): Frame {
    Frame(alpha, beta, Initial(maximizing), None, table, [])
  }

  /** The frame after child `i` returned `c`: the `>` (`<`) test, then alpha
      raised (beta lowered). */
  function After(maximizing: bool, f: Frame, i: nat, c: Outcome): Frame {
    var better := Improves(maximizing, f.best, c.value);
    Frame(
      if maximizing then Max(f.alpha, c.value) else f.alpha,
      if maximizing then f.beta else Min(f.beta, c.value),
      if better then c.value else f.best,
      if better then Some(i) else f.move,
      c.table,
      f.scores + [c.value])
  }

  /** `beta <= alpha`: the loop stops. */
  predicate Cut(f: Frame) {
    Le(f.beta, f.alpha)
  }

  function Finish(f: Frame): Outcome {
    Outcome(f.best, f.move, f.table, f.scores)
  }

  /** `minimax(board, depth, alpha, beta, maximizing_player)` on the node `t`
      with transposition table `table`. */
  function Search(t: Node, depth: int, alpha: Score, beta: Score, maximizing: bool,
                  table: map<int, Score>): Outcome
    decreases t, 1
  {
    if Terminal(t, depth) then Outcome(LeafValue(t, depth), None, table, [])
    else if t.key in table then Outcome(table[t.key], None, table, [])
    else
      var o := Scan(t, depth, 0, maximizing, Start(alpha, beta, maximizing, table));
      o.(table := o.table[t.key := o.value])
  }

  /** The loop of `minimax` from child `i` on, in frame `f`. */
  function Scan(t: Node, depth: int, i: nat, maximizing: bool, f: Frame): Outcome
    requires i <= |t.children|
    decreases t, 0, |t.children| - i
  {
    if i == |t.children| then Finish(f)
    else
      var c := Search(t.children[i], depth - 1, f.alpha, f.beta, !maximizing, f.table);
      var f' := After(maximizing, f, i, c);
      if Cut(f') then Finish(f') else Scan(t, depth, i + 1, maximizing, f')
  }

  // ------------------------------------------------- terminal and cache hits

  /** Terminal nodes are decided before the table is read: the result depends
      neither on the table nor on the window, the table is left as it is, and
      no child is examined. A repetition scores exactly 0. */
  lemma TerminalBeforeCache(t: Node, depth: int, alpha: Score, beta: Score, maximizing: bool,
                            table: map<int, Score>, alpha': Score, beta': Score, table': map<int, Score>)
    requires Terminal(t, depth)
    ensures var o := Search(t, depth, alpha, beta, maximizing, table);
      && o.value == Search(t, depth, alpha', beta', !maximizing, table').value
      && o.move == None && o.table == table && o.scores == []
      && (t.repetition ==> o.value == Fin(0))
      && (!t.repetition ==> o.value == Fin(Evaluator.Evaluation(t.pos, |t.children|, depth)))
  {
  }

  /** A non-terminal node whose key is in the table returns the stored value
      with no move, examining no child and leaving the table unchanged. */
  lemma CacheHit(t: Node, depth: int, alpha: Score, beta: Score, maximizing: bool,
                 table: map<int, Score>)
    requires !Terminal(t, depth) && t.key in table
    ensures Search(t, depth, alpha, beta, maximizing, table) == Outcome(table[t.key], None, table, [])
  {
  }

  /** After a non-terminal node is searched (not served from the table), the
      table holds exactly its returned value at its key. */
  lemma StoresValue(t: Node, depth: int, alpha: Score, beta: Score, maximizing: bool,
                    table: map<int, Score>)
    requires !Terminal(t, depth)
    ensures var o := Search(t, depth, alpha, beta, maximizing, table);
      t.key in o.table && o.table[t.key] == o.value
  {
  }

  /** Entries present before a call are still there, unchanged, after it: a
      node is only searched (and stored) when its key is absent. */
  lemma {:induction false} SearchKeepsEntries(t: Node, depth: int, alpha: Score, beta: Score,
                                              maximizing: bool, table: map<int, Score>)
    ensures var o := Search(t, depth, alpha, beta, maximizing, table);
      forall k :: k in table ==> k in o.table && o.table[k] == table[k]
    decreases t, 1
  {
    if !Terminal(t, depth) && t.key !in table {
      ScanKeepsEntries(t, depth, 0, maximizing, Start(alpha, beta, maximizing, table));
    }
  }

  lemma {:induction false} ScanKeepsEntries(t: Node, depth: int, i: nat, maximizing: bool, f: Frame)
    requires i <= |t.children|
    ensures var o := Scan(t, depth, i, maximizing, f);
      forall k :: k in f.table ==> k in o.table && o.table[k] == f.table[k]
    decreases t, 0, |t.children| - i
  {
    if i < |t.children| {
      var c := Search(t.children[i], depth - 1, f.alpha, f.beta, !maximizing, f.table);
      SearchKeepsEntries(t.children[i], depth - 1, f.alpha, f.beta, !maximizing, f.table);
      var f' := After(maximizing, f, i, c);
      if !Cut(f') {
        ScanKeepsEntries(t, depth, i + 1, maximizing, f');
      }
    }
  }

  // -------------------------------------------- the value and the move chosen

  /** The running best value and move are the best of the child values seen
      so far and the first child that attains it (updates happen only on a
      strict improvement), or the initial infinity and no move. */
  ghost predicate BestSoFar(maximizing: bool, best: Score, move: Option<nat>, scores: seq<Score>) {
    && (forall k :: 0 <= k < |scores| ==> NoWorse(maximizing, best, scores[k]))
    && (scores == [] ==> best == Initial(maximizing))
    && (scores != [] ==> best in scores)
    && (move == None <==> best == Initial(maximizing))
    && (move.Some? ==>
          && move.value < |scores| && scores[move.value] == best
          && forall k :: 0 <= k < move.value ==> Improves(maximizing, scores[k], best))
  }

  lemma {:induction false} AfterKeepsBest(maximizing: bool, f: Frame, i: nat, c: Outcome)
    requires |f.scores| == i && BestSoFar(maximizing, f.best, f.move, f.scores)
    ensures var f' := After(maximizing, f, i, c);
      BestSoFar(maximizing, f'.best, f'.move, f'.scores)
  {
    var f' := After(maximizing, f, i, c);
    var v := c.value;
    LeTotal(f.best, v);
    if Improves(maximizing, f.best, v) {
      forall k | 0 <= k < |f'.scores|
        ensures NoWorse(maximizing, v, f'.scores[k])
      {
        if k < i {
          assert f'.scores[k] == f.scores[k];
          if maximizing { LeTransitive(f.scores[k], f.best, v); } else { LeTransitive(v, f.best, f.scores[k]); }
        }
      }
      forall k | 0 <= k < i
        ensures Improves(maximizing, f'.scores[k], v)
      {
        assert f'.scores[k] == f.scores[k];
        if maximizing { LeLtTransitive(f.scores[k], f.best, v); } else { LtLeTransitive(v, f.best, f.scores[k]); }
      }
      assert f'.scores[i] == v;
    } else {
      assert NoWorse(maximizing, f.best, v);
      assert f.scores == [] ==> v == f.best;
      assert f'.scores[i] == v;
      if f.move.Some? {
        assert f'.scores[f.move.value] == f.scores[f.move.value];
        forall k | 0 <= k < f.move.value
          ensures Improves(maximizing, f'.scores[k], f.best)
        {
          assert f'.scores[k] == f.scores[k];
        }
      }
      forall k | 0 <= k < |f'.scores|
        ensures NoWorse(maximizing, f.best, f'.scores[k])
      {
        if k < i { assert f'.scores[k] == f.scores[k]; }
      }
      if f.scores != [] {
        var j :| 0 <= j < i && f.scores[j] == f.best;
        assert f'.scores[j] == f.best;
      }
    }
  }

  lemma {:induction false} ScanPicksBest(t: Node, depth: int, i: nat, maximizing: bool, f: Frame)
    requires i <= |t.children| && |f.scores| == i
    requires BestSoFar(maximizing, f.best, f.move, f.scores)
    ensures var o := Scan(t, depth, i, maximizing, f);
      && BestSoFar(maximizing, o.value, o.move, o.scores)
      && i <= |o.scores| <= |t.children| && o.scores[..i] == f.scores
      && (i < |t.children| ==> i < |o.scores|)
    decreases |t.children| - i
  {
    if i < |t.children| {
      var c := Search(t.children[i], depth - 1, f.alpha, f.beta, !maximizing, f.table);
      var f' := After(maximizing, f, i, c);
      AfterKeepsBest(maximizing, f, i, c);
      assert f'.scores[..i] == f.scores;
      if Cut(f') {
        assert Scan(t, depth, i, maximizing, f) == Finish(f');
      } else {
        assert Scan(t, depth, i, maximizing, f) == Scan(t, depth, i + 1, maximizing, f');
        ScanPicksBest(t, depth, i + 1, maximizing, f');
        var o := Scan(t, depth, i + 1, maximizing, f');
        assert o.scores[..i] == o.scores[..i + 1][..i];
      }
    } else {
      assert Scan(t, depth, i, maximizing, f) == Finish(f);
    }
  }

  /** At a searched node, the value is the best (the maximum at a maximizing
      node, the minimum at a minimizing one) of the child values examined, and
      at least the first child is examined. The move is the first examined
      child attaining it, and there is no move exactly when the value is still
      the initial infinity. */
  lemma SearchPicksBest(t: Node, depth: int, alpha: Score, beta: Score, maximizing: bool,
                        table: map<int, Score>)
    requires !Terminal(t, depth) && t.key !in table
    ensures var o := Search(t, depth, alpha, beta, maximizing, table);
      && |o.scores| <= |t.children|
      && (|t.children| > 0 ==> |o.scores| > 0 && o.value in o.scores)
      && (|t.children| == 0 ==> o.value == Initial(maximizing))
      && (forall k :: 0 <= k < |o.scores| ==> NoWorse(maximizing, o.value, o.scores[k]))
      && (o.move == None <==> o.value == Initial(maximizing))
      && (o.move.Some? ==>
            && o.move.value < |o.scores| && o.scores[o.move.value] == o.value
            && forall k :: 0 <= k < o.move.value ==> Improves(maximizing, o.scores[k], o.value))
  {
    ScanPicksBest(t, depth, 0, maximizing, Start(alpha, beta, maximizing, table));
  }

  // ------------------------------------------------------- window and cutoff

  /** The window `(alpha, beta)` after the children with the given values:
      alpha raised to each value at a maximizing node, beta lowered at a
      minimizing one. */
  function Window(maximizing: bool, alpha: Score, beta: Score, scores: seq<Score>): (w: (Score, Score))
    decreases |scores|
  {
    if scores == [] then (alpha, beta)
    else
      var w := Window(maximizing, alpha, beta, scores[..|scores| - 1]);
      var v := scores[|scores| - 1];
      if maximizing then (Max(w.0, v), w.1) else (w.0, Min(w.1, v))
  }

  predicate Open(w: (Score, Score)) {
    Lt(w.0, w.1)
  }

  /** Alpha never decreases at a maximizing node and beta never changes there;
      beta never increases at a minimizing node and alpha never changes there. */
  lemma {:induction false} WindowNarrows(maximizing: bool, alpha: Score, beta: Score, scores: seq<Score>, j: nat)
    requires j <= |scores|
    ensures var w, wj := Window(maximizing, alpha, beta, scores), Window(maximizing, alpha, beta, scores[..j]);
      && (maximizing ==> Le(wj.0, w.0) && w.1 == beta && Le(alpha, w.0))
      && (!maximizing ==> Le(w.1, wj.1) && w.0 == alpha && Le(w.1, beta))
    decreases |scores|
  {
    if scores != [] {
      var init := scores[..|scores| - 1];
      if j < |scores| {
        assert scores[..j] == init[..j];
        WindowNarrows(maximizing, alpha, beta, init, j);
      } else {
        assert scores[..j] == scores;
      }
      WindowNarrows(maximizing, alpha, beta, init, 0);
      var w := Window(maximizing, alpha, beta, init);
      var v := scores[|scores| - 1];
      var wj := Window(maximizing, alpha, beta, scores[..j]);
      if maximizing {
        if j < |scores| { LeTransitive(wj.0, w.0, Max(w.0, v)); }
        LeTransitive(alpha, w.0, Max(w.0, v));
      } else {
        if j < |scores| { LeTransitive(Min(w.1, v), w.1, wj.1); }
        LeTransitive(Min(w.1, v), w.1, beta);
      }
    }
  }

  /** The window is still open after each of the first `n` values of `s`. */
  ghost predicate OpenUpTo(maximizing: bool, alpha: Score, beta: Score, s: seq<Score>, n: int)
  {
    forall k :: 1 <= k <= n && k <= |s| ==> Open(Window(maximizing, alpha, beta, s[..k]))
  }

  /** One child further: the window stays the fold of the child values, and
      the windows after the earlier children are unchanged. */
  lemma AfterWindow(maximizing: bool, f: Frame, i: nat, c: Outcome, alpha: Score, beta: Score)
    requires |f.scores| == i
    requires (f.alpha, f.beta) == Window(maximizing, alpha, beta, f.scores)
    requires OpenUpTo(maximizing, alpha, beta, f.scores, i)
    ensures var f' := After(maximizing, f, i, c);
      && |f'.scores| == i + 1 && f'.scores[..i] == f.scores
      && (f'.alpha, f'.beta) == Window(maximizing, alpha, beta, f'.scores)
      && OpenUpTo(maximizing, alpha, beta, f'.scores, i)
  {
    var f' := After(maximizing, f, i, c);
    assert f'.scores[..i] == f.scores;
    forall k | 1 <= k <= i
      ensures Open(Window(maximizing, alpha, beta, f'.scores[..k]))
    {
      assert f'.scores[..k] == f.scores[..k];
    }
  }

  /** After the open window, one more value that keeps it open. */
  lemma OpenOneMore(maximizing: bool, alpha: Score, beta: Score, s: seq<Score>, i: nat)
    requires |s| == i + 1 && OpenUpTo(maximizing, alpha, beta, s, i)
    requires Open(Window(maximizing, alpha, beta, s))
    ensures OpenUpTo(maximizing, alpha, beta, s, i + 1)
  {
    assert s[..i + 1] == s;
  }

  lemma {:induction false} ScanCutoff(t: Node, depth: int, i: nat, maximizing: bool, f: Frame,
                                      alpha: Score, beta: Score)
    requires i <= |t.children| && |f.scores| == i
    requires (f.alpha, f.beta) == Window(maximizing, alpha, beta, f.scores)
    requires OpenUpTo(maximizing, alpha, beta, f.scores, i)
    ensures var o := Scan(t, depth, i, maximizing, f);
      && i <= |o.scores| <= |t.children| && o.scores[..i] == f.scores
      && OpenUpTo(maximizing, alpha, beta, o.scores, |o.scores| - 1)
      && (|o.scores| < |t.children| ==> !Open(Window(maximizing, alpha, beta, o.scores)))
    decreases |t.children| - i
  {
    if i < |t.children| {
      var c := Search(t.children[i], depth - 1, f.alpha, f.beta, !maximizing, f.table);
      var f' := After(maximizing, f, i, c);
      AfterWindow(maximizing, f, i, c, alpha, beta);
      if !Cut(f') {
        OpenOneMore(maximizing, alpha, beta, f'.scores, i);
        ScanCutoff(t, depth, i + 1, maximizing, f', alpha, beta);
        var o := Scan(t, depth, i + 1, maximizing, f');
        assert o.scores[..i] == o.scores[..i + 1][..i];
      }
    }
  }

  /** The loop of a searched node stops at the first child after which
      `beta <= alpha`: after each examined child but the last the window is
      still open, and if fewer children were examined than there are, it is
      closed after the last one. */
  lemma SearchCutoff(t: Node, depth: int, alpha: Score, beta: Score, maximizing: bool,
                     table: map<int, Score>)
    requires !Terminal(t, depth) && t.key !in table
    ensures var o := Search(t, depth, alpha, beta, maximizing, table);
      && (forall k :: 1 <= k < |o.scores| ==> Open(Window(maximizing, alpha, beta, o.scores[..k])))
      && (|o.scores| < |t.children| ==> !Open(Window(maximizing, alpha, beta, o.scores)))
  {
    ScanCutoff(t, depth, 0, maximizing, Start(alpha, beta, maximizing, table), alpha, beta);
  }

  // ------------------------------------------------------ iterative deepening

  /** The (move, value) pair `best_move` keeps, and the table. */
  datatype Kept = Kept(move: Option<nat>, value: Score, table: map<int, Score>)

  /** The depth loop of `best_move` from `depth` to `maxDepth`: a deeper
      result replaces the kept one only when strictly better for the side to
      move. The table is carried from one depth to the next. */
  function Deepen(t: Node, depth: int, maxDepth: int, white: bool, kept: Kept): Kept
    decreases maxDepth - depth
  {
    if depth > maxDepth then kept
    else
      var o := Search(t, depth, NegInf, PosInf, white, kept.table);
      var kept' := if Improves(white, kept.value, o.value) then Kept(o.move, o.value, o.table)
                   else kept.(table := o.table);
      Deepen(t, depth + 1, maxDepth, white, kept')
  }

  /** `best_move(board, max_depth)`: the table cleared once, then depths
      1 .. max_depth. */
  function BestMoveSpec(t: Node, maxDepth: int): Kept {
    Deepen(t, 1, maxDepth, t.pos.whiteToMove, Kept(None, Initial(t.pos.whiteToMove), map[]))
  }

  /** One more depth at the end of the loop. */
  lemma {:induction false} DeepenSplit(t: Node, depth: int, maxDepth: int, white: bool, kept: Kept)
    requires depth <= maxDepth + 1
    ensures Deepen(t, depth, maxDepth + 1, white, kept)
         == Deepen(t, maxDepth + 1, maxDepth + 1, white, Deepen(t, depth, maxDepth, white, kept))
    decreases maxDepth - depth
  {
    if depth <= maxDepth {
      var o := Search(t, depth, NegInf, PosInf, white, kept.table);
      var kept' := if Improves(white, kept.value, o.value) then Kept(o.move, o.value, o.table)
                   else kept.(table := o.table);
      DeepenSplit(t, depth + 1, maxDepth, white, kept');
    }
  }

  /** Across depths the kept value never gets worse for the side to move:
      White's never decreases and Black's never increases. */
  lemma DeeperKeepsNoWorse(t: Node, maxDepth: int, white: bool, kept: Kept)
    requires maxDepth >= 0
    ensures NoWorse(white, Deepen(t, 1, maxDepth + 1, white, kept).value,
                           Deepen(t, 1, maxDepth, white, kept).value)
  {
    DeepenSplit(t, 1, maxDepth, white, kept);
    var k := Deepen(t, 1, maxDepth, white, kept);
    var o := Search(t, maxDepth + 1, NegInf, PosInf, white, k.table);
    LeTotal(k.value, o.value);
  }

  /** Once the root's key holds the kept value, every further depth is a cache
      hit for the root: nothing changes. */
  lemma {:induction false} CachedRootStaysKept(t: Node, depth: int, maxDepth: int, white: bool, kept: Kept)
    requires depth >= 1 && !t.gameOver && !t.repetition
    requires t.key in kept.table && kept.table[t.key] == kept.value
    ensures Deepen(t, depth, maxDepth, white, kept) == kept
    decreases maxDepth - depth
  {
    if depth <= maxDepth {
      CacheHit(t, depth, NegInf, PosInf, white, kept.table);
      CachedRootStaysKept(t, depth + 1, maxDepth, white, kept);
    }
  }

  /** As written, the table is cleared once before the depth loop, so from
      depth 2 on the root is found in the table (stored by depth 1) and
      returns the depth-1 value with no move: searching to any depth gives the
      result of depth 1. */
  lemma DeeperDepthsAreCacheHits(t: Node, maxDepth: int)
    requires maxDepth >= 1 && !t.gameOver && !t.repetition
    ensures BestMoveSpec(t, maxDepth) == BestMoveSpec(t, 1)
  {
    var white := t.pos.whiteToMove;
    var kept := Kept(None, Initial(white), map[]);
    var o := Search(t, 1, NegInf, PosInf, white, map[]);
    StoresValue(t, 1, NegInf, PosInf, white, map[]);
    var kept' := if Improves(white, kept.value, o.value) then Kept(o.move, o.value, o.table)
                 else kept.(table := o.table);
    LeTotal(Initial(white), o.value);
    CachedRootStaysKept(t, 2, maxDepth, white, kept');
    CachedRootStaysKept(t, 2, 1, white, kept');
  }

  /** The result of a search of depth `depth` from an empty table. */
  function FreshSearch(t: Node, depth: int): Outcome {
    Search(t, depth, NegInf, PosInf, t.pos.whiteToMove, map[])
  }

  /** A kept (move, value) pair of the corrected driver. */
  datatype Choice = Choice(move: Option<nat>, value: Score)

  /** The depth loop corrected: the table is cleared before every depth, so
      each depth is searched afresh. */
  function DeepenFresh(t: Node, depth: int, maxDepth: int, kept: Choice): Choice
    decreases maxDepth - depth
  {
    if depth > maxDepth then kept
    else
      var o := FreshSearch(t, depth);
      var kept' := if Improves(t.pos.whiteToMove, kept.value, o.value) then Choice(o.move, o.value) else kept;
      DeepenFresh(t, depth + 1, maxDepth, kept')
  }

  /** The corrected driver keeps the best value over all depths for the side
      to move, no worse than the pair it started from. */
  lemma {:induction false} DeepenFreshKeepsBest(t: Node, depth: int, maxDepth: int, kept: Choice)
    ensures var r, white := DeepenFresh(t, depth, maxDepth, kept), t.pos.whiteToMove;
      && NoWorse(white, r.value, kept.value)
      && (forall e :: depth <= e <= maxDepth ==> NoWorse(white, r.value, FreshSearch(t, e).value))
    decreases maxDepth - depth
  {
    var white := t.pos.whiteToMove;
    if depth <= maxDepth {
      var o := FreshSearch(t, depth);
      var kept' := if Improves(white, kept.value, o.value) then Choice(o.move, o.value) else kept;
      DeepenFreshKeepsBest(t, depth + 1, maxDepth, kept');
      var r := DeepenFresh(t, depth + 1, maxDepth, kept');
      LeTotal(kept.value, o.value);
      if white {
        LeTransitive(kept.value, kept'.value, r.value);
        LeTransitive(o.value, kept'.value, r.value);
      } else {
        LeTransitive(r.value, kept'.value, kept.value);
        LeTransitive(r.value, kept'.value, o.value);
      }
    }
  }

  /** `r` is the move and value of the search of depth `e`, which is strictly
      better for the side to move than `kept` and than every depth from
      `depth` up to `e`. */
  ghost predicate CameFrom(t: Node, depth: int, e: int, kept: Choice, r: Choice) {
    var white := t.pos.whiteToMove;
    && depth <= e
    && r == Choice(FreshSearch(t, e).move, FreshSearch(t, e).value)
    && Improves(white, kept.value, r.value)
    && forall e' :: depth <= e' < e ==> Improves(white, FreshSearch(t, e').value, r.value)
  }

  /** The pair the corrected driver keeps is the initial one, or the move and
      value of the shallowest depth attaining the final value. */
  lemma {:induction false} DeepenFreshKeepsFirst(t: Node, depth: int, maxDepth: int, kept: Choice)
    ensures var r := DeepenFresh(t, depth, maxDepth, kept);
      r == kept || exists e :: e <= maxDepth && CameFrom(t, depth, e, kept, r)
    decreases maxDepth - depth
  {
    var white := t.pos.whiteToMove;
    if depth <= maxDepth {
      var o := FreshSearch(t, depth);
      var better := Improves(white, kept.value, o.value);
      var kept' := if better then Choice(o.move, o.value) else kept;
      DeepenFreshKeepsFirst(t, depth + 1, maxDepth, kept');
      var r := DeepenFresh(t, depth + 1, maxDepth, kept');
      if r == kept' {
        if better {
          assert CameFrom(t, depth, depth, kept, r);
        }
      } else {
        var e :| e <= maxDepth && CameFrom(t, depth + 1, e, kept', r);
        LeTotal(kept.value, o.value);
        if white {
          LeLtTransitive(kept.value, kept'.value, r.value);
          LeLtTransitive(o.value, kept'.value, r.value);
        } else {
          LtLeTransitive(r.value, kept'.value, kept.value);
          LtLeTransitive(r.value, kept'.value, o.value);
        }
        assert CameFrom(t, depth, e, kept, r);
      }
    }
  }

  /** `best_move` corrected, from the position `t`. */
  function BestMoveFreshSpec(t: Node, maxDepth: int): Choice {
    DeepenFresh(t, 1, maxDepth, Choice(None, Initial(t.pos.whiteToMove)))
  }

  // ------------------------------------------------ a position that shows it

  const NoRights := Evaluator.CastlingRights(false, false, false, false)

  /** White to move with two moves on otherwise identical boards: the first
      leaves Black out of check and ends in a repetition two plies later; the
      second checks Black and mates at the third ply. */
  const MateInThree: Node :=
    Node(Evaluator.Position(Pieces.EmptySquares, true, false, false, NoRights), false, false, 1, [
      Node(Evaluator.Position(Pieces.EmptySquares, false, false, false, NoRights), false, false, 2, [
        Node(Evaluator.Position(Pieces.EmptySquares, true, false, false, NoRights), false, false, 3, [
          Node(Evaluator.Position(Pieces.EmptySquares, false, false, false, NoRights), false, true, 4, [])])]),
      Node(Evaluator.Position(Pieces.EmptySquares, false, true, false, NoRights), false, false, 5, [
        Node(Evaluator.Position(Pieces.EmptySquares, true, false, false, NoRights), false, false, 6, [
          Node(Evaluator.Position(Pieces.EmptySquares, false, true, true, NoRights), true, false, 7, [])])])])

  /** A searched node with a single move has that move's value. */
  lemma OnlyChild(t: Node, depth: int, alpha: Score, beta: Score, maximizing: bool, table: map<int, Score>)
    requires !Terminal(t, depth) && t.key !in table && |t.children| == 1
    ensures var o, c := Search(t, depth, alpha, beta, maximizing, table),
                        Search(t.children[0], depth - 1, alpha, beta, !maximizing, table);
      o.value == c.value && o.table == c.table[t.key := c.value]
  {
    var f := Start(alpha, beta, maximizing, table);
    var c := Search(t.children[0], depth - 1, alpha, beta, !maximizing, table);
    var f' := After(maximizing, f, 0, c);
    LeTotal(Initial(maximizing), c.value);
    assert Scan(t, depth, 1, maximizing, f') == Finish(f');
  }

  /** At depth 1 both moves are leaves, and the quiet first move scores
      higher than the checking second one. */
  lemma MateInThreeDepthOne()
    ensures FreshSearch(MateInThree, 1).move == Some(0)
    ensures FreshSearch(MateInThree, 1).value.Fin? && FreshSearch(MateInThree, 1).value.n < 5000000
  {
    var t := MateInThree;
    var a, b := t.children[0], t.children[1];
    var ea := Evaluator.Evaluation(a.pos, 1, 0);
    var eb := Evaluator.Evaluation(b.pos, 1, 0);
    assert ea == eb + 16000;
    Evaluator.MateDominates(a.pos, 1, 0);
    var f := Start(NegInf, PosInf, true, map[]);
    var fa := After(true, f, 0, Search(a, 0, NegInf, PosInf, false, map[]));
    assert fa == Frame(Fin(ea), PosInf, Fin(ea), Some(0), map[], [Fin(ea)]);
    var fb := After(true, fa, 1, Search(b, 0, Fin(ea), PosInf, false, map[]));
    assert fb == Frame(Fin(ea), PosInf, Fin(ea), Some(0), map[], [Fin(ea), Fin(eb)]);
    assert Scan(t, 1, 1, true, fa) == Scan(t, 1, 2, true, fb) == Finish(fb);
    assert Scan(t, 1, 0, true, f) == Scan(t, 1, 1, true, fa);
  }

  /** At depth 2 the one reply to each move is a leaf, and no mate is seen. */
  lemma MateInThreeDepthTwo()
    ensures FreshSearch(MateInThree, 2).value.Fin? && FreshSearch(MateInThree, 2).value.n < 5000000
  {
    var t := MateInThree;
    var a, b := t.children[0], t.children[1];
    Evaluator.MateDominates(a.children[0].pos, 1, 0);
    SearchPicksBest(t, 2, NegInf, PosInf, true, map[]);
    var f := Start(NegInf, PosInf, true, map[]);
    var ca := Search(a, 1, NegInf, PosInf, false, map[]);
    OnlyChild(a, 1, NegInf, PosInf, false, map[]);
    var f' := After(true, f, 0, ca);
    var cb := Search(b, 1, f'.alpha, f'.beta, false, f'.table);
    OnlyChild(b, 1, f'.alpha, f'.beta, false, f'.table);
    assert f'.table == ca.table;
    var f'' := After(true, f', 1, cb);
    assert !Cut(f') && !Cut(f'');
    assert Scan(t, 2, 1, true, f') == Scan(t, 2, 2, true, f'') == Finish(f'');
    assert Scan(t, 2, 0, true, f) == Scan(t, 2, 1, true, f');
  }

  /** At depth 3 the first move ends in the repetition and the second in
      mate. */
  lemma MateInThreeDepthThree()
    ensures FreshSearch(MateInThree, 3).value == Fin(200000000)
    ensures FreshSearch(MateInThree, 3).move == Some(1)
  {
    var t := MateInThree;
    var a, b := t.children[0], t.children[1];
    var f := Start(NegInf, PosInf, true, map[]);
    var ca := Search(a, 2, NegInf, PosInf, false, map[]);
    OnlyChild(a.children[0], 1, NegInf, PosInf, true, map[]);
    OnlyChild(a, 2, NegInf, PosInf, false, map[]);
    assert ca.value == Fin(0);
    var f' := After(true, f, 0, ca);
    assert f'.alpha == Fin(0) && f'.beta == PosInf && f'.best == Fin(0) && f'.move == Some(0);
    var cb := Search(b, 2, Fin(0), PosInf, false, ca.table);
    assert ca.table == map[3 := Fin(0)][2 := Fin(0)];
    OnlyChild(b.children[0], 1, Fin(0), PosInf, true, ca.table);
    OnlyChild(b, 2, Fin(0), PosInf, false, ca.table);
    assert cb.value == Fin(200000000);
    var f'' := After(true, f', 1, cb);
    assert !Cut(f'');
    assert Scan(t, 3, 1, true, f') == Scan(t, 3, 2, true, f'') == Finish(f'');
    assert Scan(t, 3, 0, true, f) == Scan(t, 3, 1, true, f');
  }

  /** Depth 1 prefers the quiet first move and depth 3 finds the mate through
      the second; as written the driver searching to depth 3 still plays the
      first, while the corrected driver plays the mating move. */
  lemma DeeperSearchIgnored()
    ensures FreshSearch(MateInThree, 1).move == Some(0)
    ensures FreshSearch(MateInThree, 3).value == Fin(200000000)
    ensures FreshSearch(MateInThree, 3).move == Some(1)
    ensures BestMoveSpec(MateInThree, 3).move == Some(0)
    ensures BestMoveFreshSpec(MateInThree, 3).move == Some(1)
  {
    var t := MateInThree;
    MateInThreeDepthOne();
    MateInThreeDepthTwo();
    MateInThreeDepthThree();
    DeeperDepthsAreCacheHits(t, 3);
    var o1 := FreshSearch(t, 1);
    assert BestMoveSpec(t, 1) == Deepen(t, 2, 1, true, Kept(o1.move, o1.value, o1.table));
    var c1 := Choice(o1.move, o1.value);
    assert BestMoveFreshSpec(t, 3) == DeepenFresh(t, 2, 3, c1);
    var o2 := FreshSearch(t, 2);
    var c2 := if Improves(true, c1.value, o2.value) then Choice(o2.move, o2.value) else c1;
    assert DeepenFresh(t, 2, 3, c1) == DeepenFresh(t, 3, 3, c2);
    assert DeepenFresh(t, 3, 3, c2) == DeepenFresh(t, 4, 3, Choice(Some(1), Fin(200000000)));
  }

  // ------------------------------------------------------------------ engine

  /** The search with its global transposition table. */
  class Engine {
    /** `transposition_table`: board fingerprint to value. */
    var table: map<int, Score>

    constructor ()
      ensures table == map[]
    {
      table := map[];
    }

    /** `minimax`: every push of a child move is undone by a pop before the
        next child, so the board's move stack comes back as it was. */
    method Minimax(board: Board, depth: int, alpha: Score, beta: Score, maximizing: bool)
      returns (value: Score, move: Option<nat>)
      requires board.Valid()
      modifies this, board
      ensures board.Valid() && board.stack == old(board.stack)
      ensures var o := Search(old(board.Current()), depth, alpha, beta, maximizing, old(table));
        value == o.value && move == o.move && table == o.table
      decreases board.Current(), 1
    {
      var node := board.Current();
      if depth == 0 || node.gameOver || node.repetition {
        if node.repetition {
          return Fin(0), None;
        }
        var score := Evaluator.Evaluate(node.pos, board.LegalMoveCount(), depth);
        return Fin(score), None;
      }
      var boardHash := node.key;
      if boardHash in table {
        return table[boardHash], None;
      }
      value, move := ScanMoves(board, depth, alpha, beta, maximizing);
      table := table[boardHash := value];
    }

    /** The loop of `minimax` over the legal moves, on both the maximizing and
        the minimizing branch. */
    method ScanMoves(board: Board, depth: int, alpha: Score, beta: Score, maximizing: bool)
      returns (best: Score, bestMove: Option<nat>)
      requires board.Valid()
      modifies this, board
      ensures board.Valid() && board.stack == old(board.stack)
      ensures var o := Scan(old(board.Current()), depth, 0, maximizing, Start(alpha, beta, maximizing, old(table)));
        best == o.value && bestMove == o.move && table == o.table
      decreases board.Current(), 0
    {
      var node := board.Current();
      ghost var whole := Scan(node, depth, 0, maximizing, Start(alpha, beta, maximizing, table));
      best := Initial(maximizing);
      bestMove := None;
      var a, b := alpha, beta;
      ghost var scores: seq<Score> := [];
      var n := board.LegalMoveCount();
      var i := 0;
      while i < n
        invariant 0 <= i <= n == |node.children|
        invariant board.Valid() && board.stack == old(board.stack) && board.Current() == node
        invariant Scan(node, depth, i, maximizing, Frame(a, b, best, bestMove, table, scores)) == whole
        decreases n - i
      {
        ghost var f := Frame(a, b, best, bestMove, table, scores);
        board.Push(i);
        var v, _ := Minimax(board, depth - 1, a, b, !maximizing);
        board.Pop();
        if maximizing {
          if Lt(best, v) {
            best := v;
            bestMove := Some(i);
          }
          a := Max(a, v);
        } else {
          if Lt(v, best) {
            best := v;
            bestMove := Some(i);
          }
          b := Min(b, v);
        }
        scores := scores + [v];
        assert Frame(a, b, best, bestMove, table, scores)
            == After(maximizing, f, i, Search(node.children[i], depth - 1, f.alpha, f.beta, !maximizing, f.table));
        if Le(b, a) {
          assert Outcome(best, bestMove, table, scores) == whole;
          break;
        }
        i := i + 1;
      }
    }

    /** `best_move(board, max_depth)` as written. */
    method BestMove(board: Board, maxDepth: int) returns (move: Option<nat>)
      requires board.Valid()
      modifies this, board
      ensures board.Valid() && board.stack == old(board.stack)
      ensures var k := BestMoveSpec(old(board.Current()), maxDepth);
        move == k.move && table == k.table
    {
      table := map[];
      var node := board.Current();
      var white := node.pos.whiteToMove;
      var bestMove: Option<nat> := None;
      var bestValue := Initial(white);
      var depth := 1;
      while depth <= maxDepth
        invariant board.Valid() && board.stack == old(board.stack) && board.Current() == node
        invariant Deepen(node, depth, maxDepth, white, Kept(bestMove, bestValue, table))
               == BestMoveSpec(node, maxDepth)
        decreases maxDepth - depth
      {
        var value, m := Minimax(board, depth, NegInf, PosInf, white);
        if white && Lt(bestValue, value) {
          bestValue := value;
          bestMove := m;
        } else if !white && Lt(value, bestValue) {
          bestValue := value;
          bestMove := m;
        }
        depth := depth + 1;
      }
      move := bestMove;
    }

    /** `best_move` with the table cleared before every depth. */
    method BestMoveFresh(board: Board, maxDepth: int) returns (move: Option<nat>)
      requires board.Valid()
      modifies this, board
      ensures board.Valid() && board.stack == old(board.stack)
      ensures move == BestMoveFreshSpec(old(board.Current()), maxDepth).move
    {
      var node := board.Current();
      var white := node.pos.whiteToMove;
      var bestMove: Option<nat> := None;
      var bestValue := Initial(white);
      var depth := 1;
      while depth <= maxDepth
        invariant board.Valid() && board.stack == old(board.stack) && board.Current() == node
        invariant DeepenFresh(node, depth, maxDepth, Choice(bestMove, bestValue))
               == BestMoveFreshSpec(node, maxDepth)
        decreases maxDepth - depth
      {
        table := map[];
        var value, m := Minimax(board, depth, NegInf, PosInf, white);
        if white && Lt(bestValue, value) {
          bestValue := value;
          bestMove := m;
        } else if !white && Lt(value, bestValue) {
          bestValue := value;
          bestMove := m;
        }
        depth := depth + 1;
      }
      move := bestMove;
    }
  }
}
