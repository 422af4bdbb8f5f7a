/** The time arithmetic of decodeToEvent (internal/adapter/inbound/dnstap/server.go:139-158). */
module Latency {

  const SECOND: int := 1_000_000_000
  const MILLISECOND: int := 1_000_000
  const MIN_DURATION: int := -0x8000_0000_0000_0000
  const MAX_DURATION: int := 0x7FFF_FFFF_FFFF_FFFF

  /** Conversion of an unsigned 64-bit number to a signed one. */
  function Int64(x: nat): int {
    var y := x % 0x1_0000_0000_0000_0000;
    if y <= MAX_DURATION then y else y - 0x1_0000_0000_0000_0000
  }

  /** time.Unix: nanoseconds may exceed a second and are carried over. */
  function UnixTime(sec: nat, nsec: nat): int { Int64(sec) * SECOND + nsec }

  /** Time.Sub: the difference, held at the ends of the 64-bit range. */
  function Sub(t: int, u: int): int {
    if t - u < MIN_DURATION then MIN_DURATION
    else if t - u > MAX_DURATION then MAX_DURATION
    else t - u
  }

  /** Duration.Milliseconds: Go's integer division truncates toward zero. */
  function Milliseconds(d: int): int {
    if d >= 0 then d / MILLISECOND else -((-d) / MILLISECOND)
  }

  datatype Times = Times(timestamp: int, latency: real, latencyMs: int)

  function TimesOf(qSec: nat, qNsec: nat, rSec: nat, rNsec: nat, now: int): Times {
    if rSec > 0 then
      var t := UnixTime(rSec, rNsec);
      if qSec > 0 then
        var d := Sub(t, UnixTime(qSec, qNsec));
        Times(t, d as real / SECOND as real, Milliseconds(d))
      else
        Times(t, 0.0, 0)
    else if qSec > 0 then Times(UnixTime(qSec, qNsec), 0.0, 0)
    else Times(now, 0.0, 0)
  }

  /** Seconds between year 1, where time.Time counts from, and the Unix epoch. */
  const UNIX_TO_INTERNAL: int := 62_135_596_800

  /** The moments that time.Unix can hold, with any unsigned 32-bit nanosecond count. */
  predicate InRange(sec: nat, nsec: nat) {
    0 < sec && nsec < 0x1_0000_0000 && sec + nsec / SECOND + UNIX_TO_INTERNAL <= MAX_DURATION
  }

  /** Conversion keeps the lowest 64 bits. */
  lemma Int64Wraps(x: nat)
    ensures -0x8000_0000_0000_0000 <= Int64(x) < 0x8000_0000_0000_0000
    ensures (x - Int64(x)) % 0x1_0000_0000_0000_0000 == 0
  {
  }

  /** The seconds of any number of nanoseconds in range, those carried over included. */
  lemma InRangeTime(sec: nat, nsec: nat)
    requires InRange(sec, nsec)
    ensures UnixTime(sec, nsec) == sec * 1_000_000_000 + nsec
  {
    assert Int64(sec) == sec;
  }

  /** The moment an event is given: the response's, without one the query's, and without
      either the present; a latency needs both. */
  lemma TimestampIs(qSec: nat, qNsec: nat, rSec: nat, rNsec: nat, now: int)
    ensures var t := TimesOf(qSec, qNsec, rSec, rNsec, now);
      && (InRange(rSec, rNsec) ==> t.timestamp == rSec * 1_000_000_000 + rNsec)
      && (rSec == 0 && InRange(qSec, qNsec) ==> t.timestamp == qSec * 1_000_000_000 + qNsec)
      && (rSec == 0 && qSec == 0 ==> t.timestamp == now)
      && (rSec == 0 || qSec == 0 ==> t.latency == 0.0 && t.latencyMs == 0)
  {
    hide Sub, Milliseconds, UnixTime;
    if InRange(rSec, rNsec) { InRangeTime(rSec, rNsec); }
    if InRange(qSec, qNsec) { InRangeTime(qSec, qNsec); }
  }

  /** A difference that does not fit 64 bits is held at the nearer end. */
  lemma SubSaturates(t: int, u: int)
    ensures var d := Sub(t, u);
      && -0x8000_0000_0000_0000 <= d < 0x8000_0000_0000_0000
      && (-0x8000_0000_0000_0000 <= t - u < 0x8000_0000_0000_0000 ==> d == t - u)
      && (t - u >= 0x8000_0000_0000_0000 ==> d == 0x7FFF_FFFF_FFFF_FFFF)
      && (t - u < -0x8000_0000_0000_0000 ==> d == -0x8000_0000_0000_0000)
  {
  }

  lemma MillisecondsTruncate(d: int)
    ensures var ms := Milliseconds(d);
      && -MILLISECOND < d - ms * MILLISECOND < MILLISECOND
      && (d >= 0 ==> 0 <= ms * MILLISECOND <= d) && (d <= 0 ==> d <= ms * MILLISECOND <= 0)
      && (d % MILLISECOND == 0 ==> ms * MILLISECOND == d)
  {
  }

  lemma MillisecondsMonotone(d: int, d': int)
    requires d <= d'
    ensures Milliseconds(d) <= Milliseconds(d')
  {
    MillisecondsTruncate(d);
    MillisecondsTruncate(d');
  }

  /** The millisecond latency is within one millisecond of the saturated difference, never
      further from zero than it and never of the other sign; it is exact on whole
      milliseconds, for every nanosecond count including those of a second or more. */
  lemma LatencyMsIsClose(qSec: nat, qNsec: nat, rSec: nat, rNsec: nat, now: int)
    requires InRange(qSec, qNsec) && InRange(rSec, rNsec)
    ensures var d := Sub(rSec * 1_000_000_000 + rNsec, qSec * 1_000_000_000 + qNsec);
      var ms := TimesOf(qSec, qNsec, rSec, rNsec, now).latencyMs;
      && -1_000_000 < d - ms * 1_000_000 < 1_000_000
      && (d >= 0 ==> 0 <= ms * 1_000_000 <= d) && (d <= 0 ==> d <= ms * 1_000_000 <= 0)
      && (d % 1_000_000 == 0 ==> ms * 1_000_000 == d)
  {
    InRangeTime(qSec, qNsec);
    InRangeTime(rSec, rNsec);
    MillisecondsTruncate(Sub(rSec * SECOND + rNsec, qSec * SECOND + qNsec));
  }

  lemma SubMonotone(s: int, t: int, q: int)
    requires s <= t
    ensures Sub(s, q) <= Sub(t, q)
  {
  }

  lemma TimesInRange(qSec: nat, qNsec: nat, rSec: nat, rNsec: nat, now: int)
    requires InRange(qSec, qNsec) && InRange(rSec, rNsec)
    ensures var t := TimesOf(qSec, qNsec, rSec, rNsec, now);
      && t.timestamp == rSec * SECOND + rNsec
      && t.latencyMs == Milliseconds(Sub(rSec * SECOND + rNsec, qSec * SECOND + qNsec))
  {
    hide Sub, Milliseconds;
    assert Int64(qSec) == qSec && Int64(rSec) == rSec;
  }

  /** A later response never has a smaller latency. */
  lemma {:induction false} LatencyMsMonotone(qSec: nat, qNsec: nat, r1: nat, n1: nat, r2: nat, n2: nat, now: int)
    requires InRange(qSec, qNsec) && InRange(r1, n1) && InRange(r2, n2)
    requires r1 * SECOND + n1 <= r2 * SECOND + n2
    ensures TimesOf(qSec, qNsec, r1, n1, now).latencyMs <= TimesOf(qSec, qNsec, r2, n2, now).latencyMs
    ensures TimesOf(qSec, qNsec, r1, n1, now).timestamp <= TimesOf(qSec, qNsec, r2, n2, now).timestamp
  {
    hide TimesOf, InRange, Sub, Milliseconds;
    TimesInRange(qSec, qNsec, r1, n1, now);
    TimesInRange(qSec, qNsec, r2, n2, now);
    var q, s, t := qSec * SECOND + qNsec, r1 * SECOND + n1, r2 * SECOND + n2;
    SubMonotone(s, t, q);
    MillisecondsMonotone(Sub(s, q), Sub(t, q));
  }

  lemma RealGap(d: int, ms: int)
    requires -MILLISECOND < d - ms * MILLISECOND < MILLISECOND
    ensures -1.0 < d as real / MILLISECOND as real - ms as real < 1.0
  {
    var m := MILLISECOND as real;
    assert d as real / m - ms as real == (d - ms * MILLISECOND) as real / m;
  }

  /** The second and millisecond latencies are the same duration: they differ by less
      than a millisecond. */
  lemma LatenciesAgree(qSec: nat, qNsec: nat, rSec: nat, rNsec: nat, now: int)
    ensures var t := TimesOf(qSec, qNsec, rSec, rNsec, now);
      -1.0 < t.latency * 1000.0 - t.latencyMs as real < 1.0
  {
    if rSec > 0 && qSec > 0 {
      var d := Sub(UnixTime(rSec, rNsec), UnixTime(qSec, qNsec));
      var ms := Milliseconds(d);
      MillisecondsTruncate(d);
      assert (d as real / SECOND as real) * 1000.0 == d as real / MILLISECOND as real;
      RealGap(d, ms);
    }
  }
}
