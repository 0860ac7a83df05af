/**
 * The TA12200 current-transformer driver: its millisecond clock, measured
 * from a recorded start time, and its peak sampler, which keeps the largest
 * analog reading seen in a one-second window.
 *
 * The system clock is not read: each operation that reads it takes the
 * current time as a parameter. The analog reads taken inside the sampling
 * window are given as a finite sequence.
 */
module Ta12200Sensor {

  import DivMod

  const MicrosPerSecond := 1_000_000
  const MicrosPerMilli := 1000
  const MillisPerSecond := 1000
  /** The number of values of a 32-bit unsigned integer. */
  const Uint32Modulus := 0x1_0000_0000
  /** The value an analog read returns when it fails. */
  const ReadError := -1

  /** A `struct timeval`: whole seconds and microseconds. */
  datatype TimeVal = TimeVal(sec: int, usec: int)

  /** A time value as the system clock produces it: microseconds within one second. */
  predicate Normalised(t: TimeVal) {
    0 <= t.usec < MicrosPerSecond
  }

  /** The instant `t`, in microseconds. */
  function Micros(t: TimeVal): int {
    t.sec * MicrosPerSecond + t.usec
  }

  /**
   * Integer division as C computes it: the quotient is truncated toward zero,
   * so the remainder takes the sign of the dividend and is smaller than `b`.
   */
  function CDiv(a: int, b: int): (q: int)
    requires b > 0
    ensures a >= 0 ==> 0 <= a - q * b < b
    ensures a < 0 ==> -b < a - q * b <= 0
  {
    if a >= 0 then a / b else -((-a) / b)
  }

  /** Conversion of an integer to `uint32_t`: reduction modulo 2^32. */
  function ToUint32(x: int): (r: int)
    ensures 0 <= r < Uint32Modulus
    ensures (x - r) % Uint32Modulus == 0
  {
    var q := x / Uint32Modulus;
    assert x - x % Uint32Modulus == q * Uint32Modulus;
    x % Uint32Modulus
  }

  /**
   * The time from `start` to `now`, with one second borrowed when the
   * microsecond difference is negative.
   */
  function Elapsed(start: TimeVal, now: TimeVal): (e: TimeVal)
    ensures Micros(e) == Micros(now) - Micros(start)
    ensures Normalised(start) && Normalised(now) ==> Normalised(e)
  {
    var usec := now.usec - start.usec;
    if usec < 0 then TimeVal(now.sec - start.sec - 1, usec + MicrosPerSecond)
    else TimeVal(now.sec - start.sec, usec)
  }

  /**
   * The milliseconds from `start` to `now` as a 32-bit unsigned count; a
   * count of 0 is reported as 1.
   */
  function Millis(start: TimeVal, now: TimeVal): (ms: int)
    ensures 0 < ms < Uint32Modulus
  {
    var e := Elapsed(start, now);
    var elapse := ToUint32(e.sec * MillisPerSecond + CDiv(e.usec, MicrosPerMilli));
    if elapse == 0 then 1 else elapse
  }

  /**
   * For clock readings, Millis is the number of whole milliseconds between
   * the two instants, reduced modulo 2^32, with 0 reported as 1.
   */
  lemma MillisIsWholeMillis(start: TimeVal, now: TimeVal)
    requires Normalised(start) && Normalised(now)
    ensures var whole := ToUint32((Micros(now) - Micros(start)) / MicrosPerMilli);
            Millis(start, now) == if whole == 0 then 1 else whole
  {
    var e := Elapsed(start, now);
    var d := Micros(now) - Micros(start);
    assert d == e.sec * MillisPerSecond * MicrosPerMilli + e.usec;
    var q, r := e.usec / MicrosPerMilli, e.usec % MicrosPerMilli;
    assert d == (e.sec * MillisPerSecond + q) * MicrosPerMilli + r;
    DivMod.Unique(d, MicrosPerMilli, e.sec * MillisPerSecond + q, r);
  }

  /** Less than one millisecond after the start, the clock reads 1, never 0. */
  lemma MillisWithinFirstMilli(start: TimeVal, now: TimeVal)
    requires Normalised(start) && Normalised(now)
    requires 0 <= Micros(now) - Micros(start) < MicrosPerMilli
    ensures Millis(start, now) == 1
  {
    MillisIsWholeMillis(start, now);
  }

  /** Until the 32-bit count wraps, the clock reads exactly the elapsed whole milliseconds. */
  lemma MillisExact(start: TimeVal, now: TimeVal, ms: int)
    requires Normalised(start) && Normalised(now)
    requires 1 <= ms < Uint32Modulus
    requires ms * MicrosPerMilli <= Micros(now) - Micros(start) < (ms + 1) * MicrosPerMilli
    ensures Millis(start, now) == ms
  {
    var d := Micros(now) - Micros(start);
    DivMod.Unique(d, MicrosPerMilli, ms, d - ms * MicrosPerMilli);
    MillisIsWholeMillis(start, now);
  }

  /** Index of the first failed read in `samples`, or |samples| when none failed. */
  function FirstFailure(samples: seq<int>): (k: nat)
    ensures k <= |samples|
    ensures k < |samples| ==> samples[k] == ReadError
    ensures forall i :: 0 <= i < k ==> samples[i] != ReadError
  {
    if samples == [] then 0
    else if samples[0] == ReadError then 0
    else 1 + FirstFailure(samples[1..])
  }

  /** Length of the sampling window, in milliseconds. */
  const WindowMillis := 1000

  /**
   * The loop test of the sampling window as written: the clock reading `now`
   * is compared with the 32-bit sum `start + 1000`, which wraps.
   */
  function WindowOpenAsWritten(start: int, now: int): (open: bool)
    ensures 0 <= start < Uint32Modulus ==>
              (open <==> now < (if start + WindowMillis < Uint32Modulus
                                then start + WindowMillis
                                else start + WindowMillis - Uint32Modulus))
  {
    if 0 <= start < Uint32Modulus then
      if start + WindowMillis < Uint32Modulus then
        DivMod.Unique(start + WindowMillis, Uint32Modulus, 0, start + WindowMillis);
        now < ToUint32(start + WindowMillis)
      else
        DivMod.Unique(start + WindowMillis, Uint32Modulus, 1, start + WindowMillis - Uint32Modulus);
        now < ToUint32(start + WindowMillis)
    else
      now < ToUint32(start + WindowMillis)
  }

  /**
   * The sampling window as intended: fewer than 1000 milliseconds have passed
   * since `start`, counted modulo 2^32 like the clock itself.
   */
  function WindowOpen(start: int, now: int): (open: bool)
    ensures 0 <= start < Uint32Modulus && 0 <= now < Uint32Modulus ==>
              (open <==> if start <= now then now - start < WindowMillis
                         else now + Uint32Modulus - start < WindowMillis)
  {
    if 0 <= start < Uint32Modulus && 0 <= now < Uint32Modulus then
      if start <= now then
        DivMod.Unique(now - start, Uint32Modulus, 0, now - start);
        ToUint32(now - start) < WindowMillis
      else
        DivMod.Unique(now - start, Uint32Modulus, -1, now + Uint32Modulus - start);
        ToUint32(now - start) < WindowMillis
    else
      ToUint32(now - start) < WindowMillis
  }

  /**
   * With the 32-bit sum, a window that starts in the last second before the
   * millisecond count wraps is empty: every reading from the start up to the
   * wrap already fails the test, although the intended window is open at
   * the start.
   */
  lemma WindowAsWrittenEmptyNearWrap(start: int, now: int)
    requires Uint32Modulus - WindowMillis <= start <= now < Uint32Modulus
    ensures !WindowOpenAsWritten(start, now)
    ensures WindowOpen(start, start)
  {
  }

  /**
   * The intended window is open exactly during the first 1000 milliseconds
   * after `start`, whatever the value of `start`, including across the wrap
   * of the count.
   */
  lemma WindowOpenExactly(start: int, k: int)
    requires 0 <= start < Uint32Modulus && 0 <= k < Uint32Modulus
    ensures WindowOpen(start, ToUint32(start + k)) <==> k < WindowMillis
  {
  }

  /** Away from the wrap, the written test and the intended window agree. */
  lemma WindowAgreesBeforeWrap(start: int, now: int)
    requires 0 <= start && start + WindowMillis < Uint32Modulus
    requires start <= now < Uint32Modulus
    ensures WindowOpenAsWritten(start, now) <==> WindowOpen(start, now)
  {
  }

  /** How many of the clock readings `ticks`, in order, find the window from `start` open. */
  function WindowCount(start: int, ticks: seq<int>): (n: nat)
    ensures n <= |ticks|
    ensures forall i :: 0 <= i < n ==> WindowOpen(start, ticks[i])
    ensures n < |ticks| ==> !WindowOpen(start, ticks[n])
  {
    if ticks == [] || !WindowOpen(start, ticks[0]) then 0
    else 1 + WindowCount(start, ticks[1..])
  }

  class TA12200 {
    /** The analog input pin. */
    const pin: int
    /** The instant all clock readings are measured from (m_startTime). */
    var startTime: TimeVal

    /** Opens the sensor on `pin`; the clock starts at `now`. */
    constructor (pin: int, now: TimeVal)
      ensures this.pin == pin && startTime == now
    {
      this.pin := pin;
      startTime := now;
    }

    /** Restarts the clock at `now`. */
    method InitClock(now: TimeVal)
      modifies this`startTime
      ensures startTime == now
    {
      startTime := now;
    }

    /** The clock reading at `now`: milliseconds since the start time, never 0. */
    method GetMillis(now: TimeVal) returns (ms: int)
      ensures ms == Millis(startTime, now)
      ensures 0 < ms < Uint32Modulus
    {
      ms := Millis(startTime, now);
    }

    /**
     * The largest analog reading taken in a one-second window, and how many
     * readings were taken. `ticks` holds the clock readings (GetMillis)
     * the loop makes: first the one that starts the window, then one before
     * each analog reading. `samples` holds the values the analog readings
     * return. The observation ends with a clock reading outside the window.
     * A failed reading stops the sampling at once and the result is -1;
     * otherwise the result is the maximum of 0 and every reading taken.
     */
    method HighestValue(ticks: seq<int>, samples: seq<int>) returns (hiVal: int, consumed: nat)
      requires |ticks| == |samples| + 2
      requires !WindowOpen(ticks[0], ticks[|samples| + 1])
      ensures var n := WindowCount(ticks[0], ticks[1..]);
              && n <= |samples|
              && consumed <= n
              && (hiVal == ReadError <==> ReadError in samples[..n])
              && (ReadError in samples[..n] ==> consumed == FirstFailure(samples) + 1)
              && (ReadError !in samples[..n] ==>
                    && consumed == n
                    && hiVal >= 0
                    && (forall i :: 0 <= i < n ==> samples[i] <= hiVal)
                    && (hiVal == 0 || hiVal in samples[..n]))
    {
      var start := ticks[0];
      ghost var n := WindowCount(start, ticks[1..]);
      hiVal := 0;
      var i := 0;
      while i < |samples| && WindowOpen(start, ticks[i + 1])
        invariant 0 <= i <= n
        invariant ReadError !in samples[..i]
        invariant hiVal >= 0
        invariant forall j :: 0 <= j < i ==> samples[j] <= hiVal
        invariant hiVal == 0 || hiVal in samples[..i]
      {
        var val := samples[i];
        if val == ReadError {
          assert FirstFailure(samples) == i;
          assert samples[i] in samples[..n];
          return ReadError, i + 1;
        }
        if val > hiVal {
          hiVal := val;
        }
        i := i + 1;
      }
      assert ticks[1..][i] == ticks[i + 1];
      assert i == n;
      consumed := i;
    }
  }
}
