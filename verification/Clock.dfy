/** Server time and key expiry, as the admission scripts see them.
    Time is a real number of seconds since the epoch. */
module Clock {
  import opened Wrappers

  /** A Redis value with the instant its key expires; None for a key without a TTL. */
  datatype Timed<+T> = Timed(value: T, deadline: Option<real>)

  const DAY: int := 86400

  function Min(a: real, b: real): real { if a <= b then a else b }

  function Ceil(x: real): int { -((-x).Floor) }

  /** What a read at time `now` returns: an expired key is an absent key. */
  function Seen<T>(key: Option<Timed<T>>, now: real): Option<T> {
    if key.Some? && (key.value.deadline.None? || now < key.value.deadline.value)
    then Some(key.value.value)
    else None
  }

  function DayOf(now: real): int { (now / DAY as real).Floor }

  predicate WholeSecond(t: real) { t == t.Floor as real }

  /** Redis keeps expiries, and measures what is left of them, in whole milliseconds. */
  predicate WholeMillisecond(t: real) { WholeSecond(1000.0 * t) }

  /** The script's seconds until UTC midnight, at least one. */
  function DayTtl(now: real): int {
    Max(1, Ceil(DAY as real - (now - (DAY * DayOf(now)) as real)))
  }

  /** The TTL command: whole seconds, rounded to nearest; -2 when absent, -1 when persistent. */
  function Ttl<T>(key: Option<Timed<T>>, now: real): int {
    if Seen(key, now).None? then -2
    else if key.value.deadline.None? then -1
    else (key.value.deadline.value - now + 0.5).Floor
  }

  lemma CeilBounds(x: real)
    ensures x <= Ceil(x) as real < x + 1.0
    ensures WholeSecond(x) ==> Ceil(x) as real == x
    ensures !WholeSecond(x) ==> x < Ceil(x) as real
  {
    var f := (-x).Floor;
    assert f as real <= -x < f as real + 1.0;
    if WholeSecond(x) {
      FloorOfInt(-x.Floor);
    } else if f as real == -x {
      FloorOfInt(-f);
    }
  }

  lemma FloorOfInt(n: int)
    ensures (n as real).Floor == n
  {}

  lemma DayBounds(now: real)
    ensures (DAY * DayOf(now)) as real <= now < (DAY * (DayOf(now) + 1)) as real
  {
    var d := DayOf(now);
    var q := now / 86400.0;
    assert now == q * 86400.0;
    assert d as real <= q < d as real + 1.0;
  }

  /** A key created now and given DayTtl expires at the next midnight exactly when
      now is a whole second; otherwise it outlives midnight by less than a second. */
  lemma DayKeyEndsAtMidnight(now: real)
    ensures var expiry := now + DayTtl(now) as real;
            var midnight := (DAY * (DayOf(now) + 1)) as real;
            && (expiry == midnight <==> WholeSecond(now))
            && midnight <= expiry < midnight + 1.0
  {
    DayBounds(now);
    var left := (DAY * (DayOf(now) + 1)) as real - now;
    CeilBounds(left);
    var midnight := DAY * (DayOf(now) + 1);
    if WholeSecond(now) {
      assert left == (midnight - now.Floor) as real;
    }
    if WholeSecond(left) {
      assert now == (midnight - left.Floor) as real;
    }
  }
}
