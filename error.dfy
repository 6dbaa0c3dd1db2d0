/** The error kinds of the Balloon crate (src/error.rs). Their display strings are not modelled. */
module Errors {

  datatype Error =
    | InvalidSalt
    | InvalidSpace
    | InvalidTime
    | FinalizeBeforeMix
    | InvalidFormat
}
