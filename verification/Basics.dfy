/** Values shared by the replication models. */
module Basics {
  datatype Option<+T> = None | Some(value: T)

  // The least logical timestamp: "no sequence number".
  const SEQ_UNINIT := 0

  function Max(a: int, b: int): int {
    if a < b then b else a
  }

  function Min(a: int, b: int): int {
    if a < b then a else b
  }

  // Comparison of logical timestamps as the replica's scheduler makes it: SEQ_UNINIT is the
  // least value of the clock domain, whatever the integers say.
  predicate ClockLeq(a: int, b: int) {
    if a == SEQ_UNINIT then true
    else if b == SEQ_UNINIT then false
    else a <= b
  }
}
