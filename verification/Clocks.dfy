/** Time as the program reads it. */
module Clocks {
  /** A clock that never goes back. Two readings may be equal. */
  class Clock {
    var now: int

    method Now() returns (t: int)
      modifies this
      ensures t == now >= old(now)
    {
      t :| t >= now;
      now := t;
    }
  }
}
