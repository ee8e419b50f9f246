/** Values shared by the evaluator and both search revisions: an optional value,
    and the search score, an integer extended with the two infinities that the
    search starts its running maximum and minimum from. */
module Common {

  datatype Option<T> = None | Some(value: T)

  /** A search score. A finite score is twenty times the floating-point score
      of the source, so that every weight of the evaluator is an integer. */
  datatype Score = NegInf | Fin(n: int) | PosInf

  /** The order of scores: `x <= y`. */
  predicate Le(x: Score, y: Score) {
    match (x, y)
    case (NegInf, _) => true
    case (_, PosInf) => true
    case (Fin(a), Fin(b)) => a <= b
    case _ => false
  }

  /** The strict order of scores: `x < y`. */
  predicate Lt(x: Score, y: Score) {
    !Le(y, x)
  }

  /** The larger of two scores, the first one on a tie (as `max` does). */
  function Max(x: Score, y: Score): (r: Score)
    ensures Le(x, r) && Le(y, r)
    ensures r == x || r == y
  {
    if Lt(x, y) then y else x
  }

  /** The smaller of two scores, the first one on a tie (as `min` does). */
  function Min(x: Score, y: Score): (r: Score)
    ensures Le(r, x) && Le(r, y)
    ensures r == x || r == y
  {
    if Lt(y, x) then y else x
  }

  /** The score a maximizing (resp. minimizing) node starts from. */
  function Initial(maximizing: bool): Score {
    if maximizing then NegInf else PosInf
  }

  /** Whether `v` is strictly better than `best` for the side that maximizes
      (resp. minimizes): the `>` (resp. `<`) test of the search loops. */
  predicate Improves(maximizing: bool, best: Score, v: Score) {
    if maximizing then Lt(best, v) else Lt(v, best)
  }

  /** Whether `x` is at least as good as `y` for that side. */
  predicate NoWorse(maximizing: bool, x: Score, y: Score) {
    if maximizing then Le(y, x) else Le(x, y)
  }

  lemma LeTotal(x: Score, y: Score)
    ensures Le(x, y) || Le(y, x)
    ensures Le(x, y) && Le(y, x) ==> x == y
  {
  }

  lemma LeTransitive(x: Score, y: Score, z: Score)
    requires Le(x, y) && Le(y, z)
    ensures Le(x, z)
  {
  }

  lemma LeLtTransitive(x: Score, y: Score, z: Score)
    requires Le(x, y) && Lt(y, z)
    ensures Lt(x, z)
  {
  }

  lemma LtLeTransitive(x: Score, y: Score, z: Score)
    requires Lt(x, y) && Le(y, z)
    ensures Lt(x, z)
  {
  }
}
