/** Some definitions of this project are behind a quantifier over a type with one value, so that only the
  * proofs that ask for them, with the lemma beside them, have them.
  */
module Hiding {
  datatype Piece = Whole
}
