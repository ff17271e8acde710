/** Times in milliseconds. */
module Clocks {

  /** The instants a date can hold. */
  type Time = t: int | -8_640_000_000_000_000 <= t <= 8_640_000_000_000_000 witness 0

  predicate NonDecreasing(times: seq<int>) {
    forall i, j :: 0 <= i <= j < |times| ==> times[i] <= times[j]
  }
}
