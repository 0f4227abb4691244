/**
 * Where the source carries a defect, the model keeps both behaviours: the
 * code as it is written and the evident correction.
 */
module Revisions {
  datatype Revision = AsWritten | Intended
}
