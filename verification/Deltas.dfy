/** The identifiers every model uses.  A SHA-256 identifier is an ideal hash: a number that names one content. */
module Deltas {
  datatype DeltaId = DeltaId(hash: nat)
  type Did = string

  datatype Option<+T> = None | Some(value: T)
}
