/** Conversions between times and their protocol-buffer messages, src/util/protoutil.cc.

    A finite duration is a whole number of quarter-nanoseconds, the resolution of absl::Duration; a
    time is the duration since the Unix epoch.
 */
module ProtoTime {
  import opened Common

  const SECOND := 4_000_000_000
  const NANO := 4

  datatype Length = Finite(quarters: int) | Infinite(positive: bool)

  /** google.protobuf.Duration or google.protobuf.Timestamp. */
  datatype Proto = Proto(seconds: int, nanos: int)

  predicate ValidDuration(p: Proto) {
    && -315576000000 <= p.seconds <= 315576000000 && -999999999 <= p.nanos <= 999999999
    && !(p.seconds < 0 && p.nanos > 0) && !(p.seconds > 0 && p.nanos < 0)
  }

  predicate ValidTimestamp(p: Proto) {
    -62135596800 <= p.seconds <= 253402300799 && 0 <= p.nanos <= 999999999
  }

  /** Division that truncates toward zero. */
  function Quotient(a: int, b: int): (q: int)
    requires b > 0
    ensures -b < a - q * b < b && (a >= 0 ==> 0 <= q * b <= a) && (a <= 0 ==> a <= q * b <= 0)
  {
    if a >= 0 then
      assert a == a / b * b + a % b;
      a / b
    else
      assert -a == -a / b * b + -a % b;
      -(-a / b)
  }

  /** The nanoseconds that a message says. */
  function Nanos(p: Proto): (ns: int) {
    p.seconds * 1_000_000_000 + p.nanos
  }

  // ---------------------------------------------------------------- durations

  /** The first division leaves its remainder to the second. An infinite duration has seconds out of
      range.
   */
  function EncodeDuration(d: Length): (r: Option<Proto>) {
    match d
    case Infinite(_) => None
    case Finite(q) =>
      var s := Quotient(q, SECOND);
      var n := Quotient(q - s * SECOND, NANO);
      if ValidDuration(Proto(s, n)) then Some(Proto(s, n)) else None
  }

  function DecodeDuration(p: Proto): (r: Option<Length>) {
    if ValidDuration(p) then Some(Finite(p.seconds * SECOND + p.nanos * NANO)) else None
  }

  /** Dividing by seconds first and then by nanoseconds is dividing by nanoseconds. */
  lemma TwoQuotients(q: int)
    ensures var s := Quotient(q, SECOND); var n := Quotient(q - s * SECOND, NANO);
      && s * 1_000_000_000 + n == Quotient(q, NANO)
      && -999999999 <= n <= 999999999 && (s > 0 ==> n >= 0) && (s < 0 ==> n <= 0)
  {
  }

  /** Encoding succeeds exactly if the duration, truncated toward zero to nanoseconds, is in range, and
      then says that, with seconds and nanoseconds not of opposite sign.
   */
  lemma DurationEncoded(d: Length)
    ensures EncodeDuration(d).Some? <==>
            d.Finite? && -315576000001 * 1_000_000_000 < Quotient(d.quarters, NANO) < 315576000001 * 1_000_000_000
    ensures EncodeDuration(d).Some? ==>
            ValidDuration(EncodeDuration(d).value) && Nanos(EncodeDuration(d).value) == Quotient(d.quarters, NANO)
  {
    if d.Finite? {
      TwoQuotients(d.quarters);
    }
  }

  /** Decoding what was encoded truncates toward zero to nanoseconds. */
  lemma DurationTruncated(d: Length)
    requires EncodeDuration(d).Some?
    ensures DecodeDuration(EncodeDuration(d).value) == Some(Finite(Quotient(d.quarters, NANO) * NANO))
  {
    TwoQuotients(d.quarters);
  }

  /** Encoding what was decoded from a valid message gives that message. */
  lemma DurationBack(p: Proto)
    requires ValidDuration(p)
    ensures DecodeDuration(p).Some? && EncodeDuration(DecodeDuration(p).value) == Some(p)
  {
    WholeSeconds(p.seconds, p.nanos * NANO);
    WholeNanos(p.nanos);
  }

  /** Taking the seconds out leaves the rest, if it is of the same sign. */
  lemma WholeSeconds(s: int, r: int)
    requires -SECOND < r < SECOND && !(s > 0 && r < 0) && !(s < 0 && r > 0)
    ensures Quotient(s * SECOND + r, SECOND) == s
  {
    var q := s * SECOND + r;
    if q >= 0 {
      assert q / SECOND == s;
    } else {
      assert -q / SECOND == -s;
    }
  }

  lemma WholeNanos(n: int)
    ensures Quotient(n * NANO, NANO) == n
  {
  }

  // ---------------------------------------------------------------- times

  /** Seconds are rounded toward the past. */
  function EncodeTimestamp(t: Length): (r: Option<Proto>) {
    match t
    case Infinite(_) => None
    case Finite(q) =>
      var s := q / SECOND;
      var n := Quotient(q - s * SECOND, NANO);
      if ValidTimestamp(Proto(s, n)) then Some(Proto(s, n)) else None
  }

  function DecodeTimestamp(p: Proto): (r: Option<Length>) {
    if ValidTimestamp(p) then Some(Finite(p.seconds * SECOND + p.nanos * NANO)) else None
  }

  lemma TwoFloors(q: int)
    ensures var s := q / SECOND; var n := Quotient(q - s * SECOND, NANO);
      s * 1_000_000_000 + n == q / NANO && 0 <= n <= 999999999
  {
  }

  /** Encoding succeeds exactly if the time, rounded toward the past to nanoseconds, is in range, and
      then says that.
   */
  lemma TimestampEncoded(t: Length)
    ensures EncodeTimestamp(t).Some? <==>
            t.Finite? && -62135596800 * 1_000_000_000 <= t.quarters / NANO < 253402300800 * 1_000_000_000
    ensures EncodeTimestamp(t).Some? ==>
            ValidTimestamp(EncodeTimestamp(t).value) && Nanos(EncodeTimestamp(t).value) == t.quarters / NANO
  {
    if t.Finite? {
      TwoFloors(t.quarters);
    }
  }

  lemma TimestampRounded(t: Length)
    requires EncodeTimestamp(t).Some?
    ensures DecodeTimestamp(EncodeTimestamp(t).value) == Some(Finite(t.quarters / NANO * NANO))
  {
    TwoFloors(t.quarters);
  }

  lemma TimestampBack(p: Proto)
    requires ValidTimestamp(p)
    ensures DecodeTimestamp(p).Some? && EncodeTimestamp(DecodeTimestamp(p).value) == Some(p)
  {
    var q := p.seconds * SECOND + p.nanos * NANO;
    TwoFloors(q);
  }
}
