/**
  A definition of the form `forall u {:trigger Unfold(T, u)} :: Unfold(T, u) ==> P`
  means P, but the solver only looks inside where a proof mentions `Unfold(T, 0)`.
  Large invariants are stated this way so that a proof about one part of a state
  does not pay for the rest of it.  The tag T says which definition to open.
 */
module Fold {
  predicate Unfold(tag: nat, u: nat) { true }
}
