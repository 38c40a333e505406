/** Keyed calls in lock order, as the rate limiter and the two ledgers receive them. */
module Calls {

  datatype Call = Call(key: string, at: int)

  /** The clock does not run backwards. */
  ghost predicate Monotone(calls: seq<Call>) {
    forall i, j | 0 <= i < j < |calls| :: calls[i].at <= calls[j].at
  }
}
