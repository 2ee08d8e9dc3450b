/** The times of the requests under one key. Times are reals, and the clock never goes back. */
module Arrivals {
  /** The requests made so far, newest last. */
  datatype History = Start | Then(before: History, time: real)

  /** No request is earlier than the one before it. */
  predicate Ordered(h: History) {
    match h
    case Start => true
    case Then(before, time) => (before.Then? ==> before.time <= time) && Ordered(before)
  }
}
