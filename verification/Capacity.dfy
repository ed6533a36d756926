/** How much the channels hold. */
module Capacity {

  /** A peer's channel of outgoing RPCs. */
  const PEER_QUEUE: nat := 32

  /** The front end of the validation pipeline. */
  const VALIDATE_QUEUE: nat := 32
}
