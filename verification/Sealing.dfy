/** A way to keep a predicate's definition out of sight: `forall u :: Seal(u) ==> P` says P, but a
    proof meets it only after it has mentioned Seal(true). */
module Sealing {
  ghost predicate Seal(u: bool) { true }
}
