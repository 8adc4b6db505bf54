/** One token-bucket window of the admission scripts: a Redis hash holding `tokens` and
    `updated_at`, refilled lazily on read, whose key expires and then reads as full. */
module TokenBucket {
  import opened Wrappers
  import opened Clock

  /** Slack the scripts grant before a request counts as exceeding the bucket. */
  const TOLERANCE: real := 0.000001

  datatype Fields = Fields(tokens: real, updatedAt: real)
  type Key = Option<Timed<Fields>>

  datatype Window = Minute | Hour {
    function Interval(): real { if Minute? then 60.0 else 3600.0 }
    function Expiry(): real { if Minute? then 120.0 else 7200.0 }
  }

  /** What `elapsed` seconds add to a bucket: capacity per interval. */
  function Accrued(w: Window, capacity: nat, elapsed: real): real {
    elapsed * capacity as real / w.Interval()
  }

  lemma AccruedAdds(w: Window, capacity: nat, first: real, second: real)
    requires 0.0 <= first && 0.0 <= second
    ensures Accrued(w, capacity, first) + Accrued(w, capacity, second) == Accrued(w, capacity, first + second)
    ensures 0.0 <= Accrued(w, capacity, first) && 0.0 <= Accrued(w, capacity, second)
  {
    var c := capacity as real;
    assert (first + second) * c == first * c + second * c;
    assert 0.0 <= first * c && 0.0 <= second * c;
  }

  /** Tokens after `elapsed` seconds of refilling at capacity per interval, capped. */
  function Refill(w: Window, capacity: nat, tokens: real, elapsed: real): real {
    Min(capacity as real, tokens + Accrued(w, capacity, elapsed))
  }

  /** The token count a script computes at `now`; a clock that ran backwards adds nothing. */
  function Level(w: Window, capacity: nat, key: Key, now: real): real {
    match Seen(key, now)
    case None => capacity as real
    case Some(f) => Refill(w, capacity, f.tokens, now - Min(f.updatedAt, now))
  }

  predicate Short(level: real, units: nat) { level + TOLERANCE < units as real }

  function RetryAfter(w: Window, capacity: nat, level: real, units: nat): int
    requires capacity > 0
  {
    if Short(level, units) then Ceil((units as real - level) / (capacity as real / w.Interval())) else 0
  }

  /** The hash written when `units` are charged at `now`. */
  function Charged(w: Window, capacity: nat, key: Key, units: nat, now: real): Key {
    Some(Timed(Fields(Level(w, capacity, key, now) - units as real, now), Some(now + w.Expiry())))
  }

  /** What every admitted charge leaves behind; kept by the passage of time. */
  predicate Settled(w: Window, capacity: nat, key: Key, now: real) {
    key.Some? ==>
      && -TOLERANCE <= key.value.value.tokens <= capacity as real
      && key.value.value.updatedAt <= now
      && key.value.deadline == Some(key.value.value.updatedAt + w.Expiry())
  }

  lemma RefillSplits(w: Window, capacity: nat, tokens: real, first: real, second: real)
    requires 0.0 <= first && 0.0 <= second
    ensures Refill(w, capacity, Refill(w, capacity, tokens, first), second)
         == Refill(w, capacity, tokens, first + second)
    ensures Refill(w, capacity, tokens, first) <= Refill(w, capacity, tokens, first + second)
    ensures tokens <= capacity as real ==> tokens <= Refill(w, capacity, tokens, first)
  {
    AccruedAdds(w, capacity, first, second);
  }

  /** Reading later is the same as reading now and refilling the difference, even when the
      key expires in between: by then the bucket would have been full anyway. */
  lemma LevelFlows(w: Window, capacity: nat, key: Key, t0: real, t1: real)
    requires capacity > 0 && t0 <= t1 && Settled(w, capacity, key, t0)
    ensures Level(w, capacity, key, t1) == Refill(w, capacity, Level(w, capacity, key, t0), t1 - t0)
    ensures -TOLERANCE <= Level(w, capacity, key, t0) <= Level(w, capacity, key, t1) <= capacity as real
    ensures Settled(w, capacity, key, t1)
  {
    var c := capacity as real;
    if Seen(key, t0).None? {
      RefillSplits(w, capacity, c, t1 - t0, 0.0);
    } else {
      var f := key.value.value;
      RefillSplits(w, capacity, f.tokens, t0 - f.updatedAt, t1 - t0);
      if Seen(key, t1).None? {
        FullByExpiry(w, capacity, f.tokens, t1 - f.updatedAt);
      }
    }
  }

  lemma FullByExpiry(w: Window, capacity: nat, tokens: real, elapsed: real)
    requires capacity > 0 && -TOLERANCE <= tokens && w.Expiry() <= elapsed
    ensures Refill(w, capacity, tokens, elapsed) == capacity as real
  {
    var c := capacity as real;
    assert elapsed * c >= w.Expiry() * c;
  }

  /** An admitted charge lowers the level by exactly `units` and never below the tolerance. */
  lemma ChargeIsExact(w: Window, capacity: nat, key: Key, units: nat, now: real)
    requires capacity > 0 && Settled(w, capacity, key, now)
    requires !Short(Level(w, capacity, key, now), units)
    ensures var charged := Charged(w, capacity, key, units, now);
            && Settled(w, capacity, charged, now)
            && Level(w, capacity, charged, now) == Level(w, capacity, key, now) - units as real
            && charged.value.deadline == Some(now + if w.Minute? then 120.0 else 7200.0)
  {
    LevelFlows(w, capacity, key, now, now);
  }

  /** A bucket written at a later instant than the clock now shows gains nothing. */
  lemma NothingGoesBack(w: Window, capacity: nat, key: Key, now: real)
    requires Seen(key, now).Some? && key.value.value.updatedAt >= now
    ensures Level(w, capacity, key, now) == Min(capacity as real, key.value.value.tokens)
  {
    AccruedAdds(w, capacity, 0.0, 0.0);
  }

  /** The reported wait is enough, and no wait is enough for more than the capacity. */
  lemma WaitSuffices(w: Window, capacity: nat, key: Key, units: nat, now: real, later: real)
    requires capacity > 0 && units > 0 && Settled(w, capacity, key, now)
    requires now <= later
    requires now + RetryAfter(w, capacity, Level(w, capacity, key, now), units) as real <= later
    ensures !Short(Level(w, capacity, key, later), units) <==> units <= capacity
  {
    LevelFlows(w, capacity, key, now, later);
    var level := Level(w, capacity, key, now);
    if units > capacity {
      assert units as real >= capacity as real + 1.0;
    } else if Short(level, units) {
      RefillCovers(w, capacity, level, units, later - now);
    }
  }

  lemma RefillCovers(w: Window, capacity: nat, level: real, units: nat, wait: real)
    requires 0 < units <= capacity && Short(level, units)
    requires RetryAfter(w, capacity, level, units) as real <= wait
    ensures Refill(w, capacity, level, wait) >= units as real
    ensures RetryAfter(w, capacity, level, units) > 0
  {
    var need := units as real - level;
    var rate := capacity as real / w.Interval();
    QuotientSign(need, rate);
    CeilBounds(need / rate);
    AccruedIs(w, capacity, wait, rate);
    NotBelow(wait, need / rate, rate, need, Accrued(w, capacity, wait));
  }

  /** The reported wait is the least in whole seconds: one second less does not refill the units. */
  lemma WaitIsLeast(w: Window, capacity: nat, key: Key, units: nat, now: real, later: real)
    requires capacity > 0 && units > 0 && Settled(w, capacity, key, now) && now <= later
    requires Short(Level(w, capacity, key, now), units)
    requires later <= now + (RetryAfter(w, capacity, Level(w, capacity, key, now), units) - 1) as real
    ensures Level(w, capacity, key, later) < units as real
  {
    LevelFlows(w, capacity, key, now, later);
    RefillFallsShort(w, capacity, Level(w, capacity, key, now), units, later - now);
  }

  lemma RefillFallsShort(w: Window, capacity: nat, level: real, units: nat, wait: real)
    requires capacity > 0 && Short(level, units)
    requires wait <= (RetryAfter(w, capacity, level, units) - 1) as real
    ensures level + Accrued(w, capacity, wait) < units as real
  {
    var need := units as real - level;
    var rate := capacity as real / w.Interval();
    QuotientSign(need, rate);
    CeilBounds(need / rate);
    AccruedIs(w, capacity, wait, rate);
    Below(wait, need / rate, rate, need, Accrued(w, capacity, wait));
  }

  lemma AccruedIs(w: Window, capacity: nat, wait: real, rate: real)
    requires rate == capacity as real / w.Interval()
    ensures Accrued(w, capacity, wait) == wait * rate
  {
    Regroup(wait, capacity as real, w.Interval());
  }

  lemma Below(a: real, b: real, rate: real, need: real, gained: real)
    requires a < b && rate > 0.0 && b * rate == need && gained == a * rate
    ensures gained < need
  {
    assert (b - a) * rate > 0.0;
  }

  lemma QuotientSign(need: real, rate: real)
    requires rate > 0.0 && need > 0.0
    ensures need / rate > 0.0 && (need / rate) * rate == need
  {}

  lemma Regroup(a: real, c: real, i: real)
    requires i > 0.0
    ensures a * c / i == a * (c / i)
  {
    assert c == (c / i) * i;
    assert a * c == (a * (c / i)) * i;
  }

  lemma NotBelow(a: real, b: real, rate: real, need: real, gained: real)
    requires a >= b && rate > 0.0 && b * rate == need && gained == a * rate
    ensures gained >= need
  {
    assert (a - b) * rate >= 0.0;
  }

  /** The simple form: a bucket that always exists and refills continuously. */
  datatype Continuous = Continuous(level: real, at: real) {
    function LevelAt(w: Window, capacity: nat, now: real): real {
      Refill(w, capacity, level, now - at)
    }
  }

  /** The lazy key and the continuous bucket agree now. */
  predicate Agrees(w: Window, capacity: nat, key: Key, bucket: Continuous, now: real) {
    capacity > 0 ==>
      && Settled(w, capacity, key, now)
      && bucket.at <= now
      && Level(w, capacity, key, now) == bucket.LevelAt(w, capacity, now)
  }

  lemma AgreementFlows(w: Window, capacity: nat, key: Key, bucket: Continuous, t0: real, t1: real)
    requires t0 <= t1 && Agrees(w, capacity, key, bucket, t0)
    ensures Agrees(w, capacity, key, bucket, t1)
  {
    if capacity > 0 {
      LevelFlows(w, capacity, key, t0, t1);
      RefillSplits(w, capacity, bucket.level, t0 - bucket.at, t1 - t0);
    }
  }
}
