/**
 * Wall-clock arithmetic of the delay compensator.  The clock itself is not
 * modelled: the two readings taken around the pulse loop are parameters.
 */
module Timing {

  const MicrosPerSecond := 1000000

  /** A gettimeofday reading. */
  datatype TimeVal = TimeVal(sec: int, usec: int)

  /** Microseconds subtracted from the requested delay for the time spent
      between readings t1 and t2, computed as h_udelay does: when a second
      boundary was crossed, the rest of t1's second plus the whole seconds
      in between, then the sub-second part of t2 (t1's microseconds now
      counted as zero). */
  function Elapsed(t1: TimeVal, t2: TimeVal): (d: int)
    ensures t2.sec >= t1.sec ==>
      d == (t2.sec - t1.sec) * MicrosPerSecond + (t2.usec - t1.usec)
    ensures t2.sec < t1.sec ==> d == t2.usec - t1.usec
  {
    if t2.sec > t1.sec then
      var wholeSeconds := (MicrosPerSecond - t1.usec) + (t2.sec - t1.sec - 1) * MicrosPerSecond;
      wholeSeconds + (t2.usec - 0)
    else
      t2.usec - t1.usec
  }

  /** The amount usleep is called with: the residual when positive,
      otherwise no sleep (0). */
  function SleepFor(residual: int): (us: int)
    ensures us >= 0
    ensures us > 0 <==> residual > 0
    ensures us > 0 ==> us == residual
  {
    if residual > 0 then residual else 0
  }
}
