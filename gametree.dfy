/** The board as the search sees it. The chess rules of python-chess (move
    generation, game-over, threefold repetition, the `hash(str(board))`
    fingerprint) are not re-implemented: the positions reachable from the root
    form a finite tree whose nodes carry the answers to those queries, and a
    move is the index of a child in generation order. */
module GameTree {
  import opened Common
  import Evaluator

  /** A position: what the evaluator reads, `is_game_over()`,
      `is_repetition(3)`, the fingerprint used as the transposition key, and one
      child per legal move. */
  datatype Node = Node(
    pos: Evaluator.Position,
    gameOver: bool,
    repetition: bool,
    key: int,
    children: seq<Node>)

  /** The node reached from `t` by playing the moves of `path`, if every move
      is legal where it is played. */
  function Follow(t: Node, path: seq<nat>): Option<Node>
    decreases |path|
  {
    if path == [] then Some(t)
    else
      match Follow(t, path[..|path| - 1])
      case None => None
      case Some(u) =>
        var m := path[|path| - 1];
        if m < |u.children| then Some(u.children[m]) else None
  }

  /** A python-chess board: the starting node and the stack of moves pushed
      on it since. */
  class Board {
    const root: Node
    var stack: seq<nat>

    ghost predicate Valid()
      reads this
    {
      Follow(root, stack).Some?
    }

    /** The position the board is in now. */
    function Current(): Node
      reads this
      requires Valid()
    {
      Follow(root, stack).value
    }

    constructor (root: Node)
      ensures Valid() && this.root == root && stack == []
      ensures Current() == root
    {
      this.root := root;
      stack := [];
    }

    /** `board.push(move)` for a legal move. */
    method Push(m: nat)
      requires Valid() && m < |Current().children|
      modifies this
      ensures Valid() && stack == old(stack) + [m]
      ensures Current() == old(Current()).children[m]
    {
      stack := stack + [m];
      assert stack[..|stack| - 1] == old(stack);
    }

    /** `board.pop()`: undoes the last move. */
    method Pop()
      requires Valid() && stack != []
      modifies this
      ensures stack == old(stack)[..|old(stack)| - 1]
      ensures Valid()
    {
      stack := stack[..|stack| - 1];
    }

    /** `board.copy()`: a new board in the same state, with the same history. */
    method Copy() returns (b: Board)
      requires Valid()
      ensures fresh(b) && b.Valid()
      ensures b.root == root && b.stack == stack && b.Current() == Current()
    {
      b := new Board(root);
      b.stack := stack;
    }

    function LegalMoveCount(): nat
      reads this
      requires Valid()
    {
      |Current().children|
    }
  }
}
