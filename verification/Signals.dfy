/** Channels of the signal combinators: the caller's done-channels, and the one each goroutine closes. */
module Signals {
  datatype Channel = Input(i: nat) | Output(k: nat)

  function Inputs(n: nat): seq<Channel> {
    seq(n, (i: nat) => Input(i))
  }
}
