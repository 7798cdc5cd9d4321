/** The accept deadline (utilities.c): adding and comparing struct timespec. */
module Timespec {
  const NANOS := 1_000_000_000

  datatype Timespec = Timespec(sec: int, nsec: int)

  ghost predicate Normal(t: Timespec) {
    0 <= t.nsec < NANOS
  }

  ghost function Nanos(t: Timespec): int {
    t.sec * NANOS + t.nsec
  }

  /** timespec_add. */
  function Add(lhs: Timespec, rhs: Timespec): (r: Timespec)
    ensures Nanos(r) == Nanos(lhs) + Nanos(rhs)
    ensures Normal(lhs) && Normal(rhs) ==> Normal(r) && lhs.nsec + rhs.nsec < 0x8000_0000
  {
    var sum := Timespec(lhs.sec + rhs.sec, lhs.nsec + rhs.nsec);
    if sum.nsec >= NANOS then Timespec(sum.sec + 1, sum.nsec - NANOS) else sum
  }

  /** timespec_is_elapsed. */
  predicate IsElapsed(end: Timespec, current: Timespec) {
    if current.sec < end.sec then false
    else if current.sec > end.sec then true
    else !(current.nsec <= end.nsec)
  }

  /** With normalised times the deadline has passed exactly when more than the
      timeout has gone by since the start. */
  lemma DeadlinePassed(start: Timespec, timeout: Timespec, now: Timespec)
    requires Normal(start) && Normal(timeout) && Normal(now)
    ensures IsElapsed(Add(start, timeout), now) <==> Nanos(now) - Nanos(start) > Nanos(timeout)
  {
    var end := Add(start, timeout);
    assert Nanos(now) - Nanos(end) == (now.sec - end.sec) * NANOS + (now.nsec - end.nsec);
  }
}
