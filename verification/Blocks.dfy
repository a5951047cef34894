/** A log's blocks as another member sees them: a stamp, known to be wiped, or not here. */
module Blocks {

  datatype Block = Missing | Wiped | Stamped(stamp: nat)

  /** A member's view of a log, block by block. */
  type View = nat -> Block

  /** `more` knows all that `less` knows. */
  ghost predicate KnowsMore(less: View, more: View) {
    forall i: nat :: less(i) == Missing || more(i) == less(i)
  }

  /** `more` is `less` with more blocks wiped. */
  ghost predicate WipesMore(less: View, more: View) {
    forall i: nat :: more(i) == Wiped || more(i) == less(i)
  }

  /** The stamps that can be read never decrease. */
  ghost predicate Monotone(at: View) {
    forall i: nat, j: nat :: i <= j && at(i).Stamped? && at(j).Stamped? ==> at(i).stamp <= at(j).stamp
  }
}
