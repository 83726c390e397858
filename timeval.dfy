/*
 * struct timeval and the two BSD macros the pipeline applies to it:
 * timersub (elapsed time since an operation was posted) and
 * timercmp(a, b, <) (is an object's last operation older than a new one).
 */
module TimeVals {

  const UsecPerSec: int := 1000000

  datatype TimeVal = TimeVal(sec: int, usec: int)

  /** What gettimeofday returns: the microsecond part is in [0, 10^6). */
  predicate Normal(t: TimeVal) { 0 <= t.usec < UsecPerSec }

  /** The instant a time value denotes, in microseconds. */
  function Micros(t: TimeVal): int { t.sec * UsecPerSec + t.usec }

  /**
   * timersub(a, b, r): field-wise difference with one borrow from the
   * seconds when the microsecond difference is negative.
   */
  function Sub(a: TimeVal, b: TimeVal): (r: TimeVal)
    ensures Normal(a) && Normal(b) ==> Normal(r) && Micros(r) == Micros(a) - Micros(b)
  {
    var sec := a.sec - b.sec;
    var usec := a.usec - b.usec;
    if usec < 0 then TimeVal(sec - 1, usec + UsecPerSec) else TimeVal(sec, usec)
  }

  /** timercmp(a, b, <): seconds first, microseconds when the seconds tie. */
  predicate Less(a: TimeVal, b: TimeVal) {
    if a.sec == b.sec then a.usec < b.usec else a.sec < b.sec
  }

  /** On normalised values timercmp(<) is the order of the instants. */
  lemma LessIsEarlier(a: TimeVal, b: TimeVal)
    requires Normal(a) && Normal(b)
    ensures Less(a, b) <==> Micros(a) < Micros(b)
  {
    if a.sec < b.sec {
      assert Micros(a) < (a.sec + 1) * UsecPerSec <= Micros(b);
    } else if a.sec > b.sec {
      assert Micros(b) < (b.sec + 1) * UsecPerSec <= Micros(a);
    }
  }

  /** Two normalised values with the same instant are the same value. */
  lemma MicrosInjective(a: TimeVal, b: TimeVal)
    requires Normal(a) && Normal(b) && Micros(a) == Micros(b)
    ensures a == b
  {
    LessIsEarlier(a, b);
    LessIsEarlier(b, a);
  }
}
