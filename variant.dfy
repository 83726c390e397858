/*
 * Some operations of the source do something other than what their
 * comments, their callers and the neighbouring code say they should.  Such
 * an operation is modelled both ways: the member takes a Variant saying
 * whether it follows the code as written or as intended.
 */
module Variants {
  /** Which of the two readings of a defective operation a member follows. */
  datatype Variant = AsWritten | Intended
}
