/**
 The conversion of a Windows FILETIME (100 ns ticks since 1601, section 2.3.3 of MS-DTYP) into
 nanoseconds since the Unix epoch, in the 64-bit two's complement arithmetic of the program.
 */
module FileTime {

  const TWO32: int := 0x1_0000_0000
  const TWO63: int := 0x8000_0000_0000_0000
  const TWO64: int := 0x1_0000_0000_0000_0000
  const EPOCH_DIFFERENCE_MICROS: int := 11644473600000000
  const EPOCH_DIFFERENCE_TICKS: int := 116444736000000000
  const FIRST_TICK: int := 24211015631452250
  const LAST_TICK: int := 208678456368547759

  /** Two's complement reading of an integer in 64 bits. */
  function Wrap64(x: int): (r: int)
    ensures -TWO63 <= r < TWO63 && (r - x) % TWO64 == 0
  {
    (x + TWO63) % TWO64 - TWO63
  }

  /** Go's `/`, which truncates toward zero, for a positive divisor. */
  function Quotient(x: int, d: int): int
    requires d > 0
  {
    if x >= 0 then x / d else -(-x / d)
  }

  function Ticks(high: int, low: int): int {
    high * TWO32 + low
  }

  /** `((int64(high) << 32) | int64(low)) / 10`, less the epoch difference. */
  function Micros(high: int, low: int): int {
    Wrap64(Quotient(Wrap64(Ticks(high, low)), 10) - EPOCH_DIFFERENCE_MICROS)
  }

  /** The nanosecond argument handed to `time.Unix`. */
  function UnixNanos(high: int, low: int): int {
    Wrap64(Micros(high, low) * 1000)
  }

  /** The offset from the Unix epoch that the tick count denotes, without any rounding or wrapping. */
  function TrueNanos(ticks: int): int {
    (ticks - EPOCH_DIFFERENCE_TICKS) * 100
  }

  lemma WrapIsIdentityInRange(x: int)
    ensures Wrap64(x) == x <==> -TWO63 <= x < TWO63
  {
  }

  /**
   The conversion is right, up to dropping the tick digit below a microsecond, on exactly one
   interval of the 2^64 tick counts; outside it some intermediate result wraps and the instant is off.
   */
  lemma ConversionIsExactlyThis(high: int, low: int)
    requires 0 <= high < TWO32 && 0 <= low < TWO32
    ensures FIRST_TICK <= Ticks(high, low) <= LAST_TICK
       <==> UnixNanos(high, low) == TrueNanos(Ticks(high, low)) - 100 * (Ticks(high, low) % 10)
  {
    var t := Ticks(high, low);
    assert 0 <= t < TWO64;
    if t < TWO63 {
      assert Wrap64(t) == t;
      assert Micros(high, low) == t / 10 - EPOCH_DIFFERENCE_MICROS;
      assert TrueNanos(t) - 100 * (t % 10) == Micros(high, low) * 1000;
      WrapIsIdentityInRange(Micros(high, low) * 1000);
    } else {
      assert Wrap64(t) == t - TWO64;
      assert TrueNanos(t) - 100 * (t % 10) >= TWO63;
    }
  }

  /** On that interval later ticks never convert to earlier instants, and the loss is below one microsecond. */
  lemma ConversionIsMonotone(high: int, low: int, high': int, low': int)
    requires 0 <= high < TWO32 && 0 <= low < TWO32 && 0 <= high' < TWO32 && 0 <= low' < TWO32
    requires FIRST_TICK <= Ticks(high, low) <= Ticks(high', low') <= LAST_TICK
    ensures UnixNanos(high, low) <= UnixNanos(high', low')
    ensures 0 <= TrueNanos(Ticks(high, low)) - UnixNanos(high, low) <= 900
  {
    ConversionIsExactlyThis(high, low);
    ConversionIsExactlyThis(high', low');
    var t, t' := Ticks(high, low), Ticks(high', low');
    assert t - t % 10 == t / 10 * 10 && t' - t' % 10 == t' / 10 * 10;
    assert t / 10 <= t' / 10;
  }
}
