/** The four scripts, each one atomic step on the server's keys. Their contracts tie the keys
    they touch to the admission and reservation functions and say nothing else changed. */
module AdmissionScripts {
  import opened Wrappers
  import opened Clock
  import opened TokenBucket
  import opened Quota
  import opened LeaseCodec
  import opened Reservation
  import opened Redis

  /** The quota keys of one identity. The key builder gives them three different suffixes. */
  datatype Names = Names(minute: string, hour: string, day: string) {
    predicate Distinct() { minute != hour }
  }

  datatype ReserveReply = ReserveReply(existing: bool, verdict: Verdict)

  function KeysOf(r: Server, n: Names): Keys
    reads r
  {
    Keys(At(r.hashes, n.minute), At(r.hashes, n.hour), At(r.counters, n.day))
  }

  /** The string under a reservation key is the encoding of `slot`. */
  predicate Shows(stored: Option<Timed<string>>, slot: Slot) {
    match slot
    case None => stored.None?
    case Some(t) => stored == Some(Timed(Encode(t.value), t.deadline))
  }

  function Without<T>(keys: map<string, T>, gone: set<string>): map<string, T> { keys - gone }

  /** The script's local function `bucket`. */
  method ReadBucket(r: Server, key: string, w: Window, capacity: nat, units: nat)
    returns (tokens: Option<real>, left: int, retry: int)
    ensures capacity == 0 ==> tokens.None? && left == -1 && retry == 0
    ensures capacity > 0 ==>
              var level := Level(w, capacity, At(r.hashes, key), r.clock);
              tokens == Some(level) && left == level.Floor && retry == RetryAfter(w, capacity, level, units)
  {
    if capacity <= 0 {
      return None, -1, 0;
    }
    var now := r.clock;
    var storedTokens, storedAt := r.HMGet(key);
    var level := if storedTokens.Some? then storedTokens.value else capacity as real;
    var updatedAt := if storedAt.Some? then storedAt.value else now;
    if updatedAt > now {
      updatedAt := now;
    }
    AccruedAdds(w, capacity, 0.0, 0.0);
    level := Min(capacity as real, level + Accrued(w, capacity, now - updatedAt));
    retry := 0;
    if level + TOLERANCE < units as real {
      retry := Ceil((units as real - level) / (capacity as real / w.Interval()));
    }
    return Some(level), level.Floor, retry;
  }

  /** Writes one charged bucket back. */
  method WriteBucket(r: Server, key: string, w: Window, tokensAfter: real)
    modifies r`hashes
    ensures r.hashes == old(r.hashes)[key := Timed(Fields(tokensAfter, r.clock), Some(r.clock + w.Expiry()))]
  {
    r.HSet(key, tokensAfter, r.clock);
    r.ExpireHash(key, if w.Minute? then 120 else 7200);
  }

  /** Writes the charged daily counter back. */
  method ChargeDay(r: Server, n: Names, p: Policy, units: nat, dayTtl: int) returns (left: int)
    requires p.day > 0 && dayTtl == DayTtl(r.clock)
    modifies r`counters
    ensures At(r.counters, n.day) == ChargedDay(old(KeysOf(r, n)), p, units, r.clock)
    ensures left == LeftToday(old(KeysOf(r, n)), p, units, r.clock)
    ensures Without(r.counters, {n.day}) == Without(old(r.counters), {n.day})
  {
    var after := r.IncrBy(n.day, units);
    if after == units {
      r.ExpireCounter(n.day, dayTtl);
    }
    left := Max(0, p.day - after);
  }

  /** Every mutation of a charge; the caller has passed every configured limit. */
  method ChargeAll(r: Server, n: Names, p: Policy, units: nat, minuteTokens: Option<real>, hourTokens: Option<real>)
    returns (minuteLeft: int, hourLeft: int, dayLeft: int)
    requires n.Distinct()
    requires p.minute > 0 ==> minuteTokens == Some(WindowLevel(KeysOf(r, n), p, Minute, r.clock))
    requires p.hour > 0 ==> hourTokens == Some(WindowLevel(KeysOf(r, n), p, Hour, r.clock))
    modifies r`hashes, r`counters
    ensures var k := old(KeysOf(r, n));
            && KeysOf(r, n) == Keys(ChargedWindow(k, p, Minute, units, r.clock), ChargedWindow(k, p, Hour, units, r.clock),
                                    ChargedDay(k, p, units, r.clock))
            && minuteLeft == LeftInWindow(k, p, Minute, units, r.clock)
            && hourLeft == LeftInWindow(k, p, Hour, units, r.clock)
            && dayLeft == LeftToday(k, p, units, r.clock)
    ensures Without(r.hashes, {n.minute, n.hour}) == Without(old(r.hashes), {n.minute, n.hour})
    ensures Without(r.counters, {n.day}) == Without(old(r.counters), {n.day})
  {
    minuteLeft, hourLeft, dayLeft := -1, -1, -1;
    if p.minute > 0 {
      var tokensAfter := minuteTokens.value - units as real;
      WriteBucket(r, n.minute, Minute, tokensAfter);
      minuteLeft := tokensAfter.Floor;
    }
    if p.hour > 0 {
      var tokensAfter := hourTokens.value - units as real;
      WriteBucket(r, n.hour, Hour, tokensAfter);
      hourLeft := tokensAfter.Floor;
    }
    if p.day > 0 {
      dayLeft := ChargeDay(r, n, p, units, DayTtl(r.clock));
    }
  }

  /** The reading half shared by the two charging scripts: the levels, whether any limit
      denies, and the reply for a denial. */
  method Evaluate(r: Server, n: Names, p: Policy, units: nat)
    returns (minuteTokens: Option<real>, hourTokens: Option<real>, denied: bool, denial: Verdict)
    ensures p.minute > 0 ==> minuteTokens == Some(WindowLevel(KeysOf(r, n), p, Minute, r.clock))
    ensures p.hour > 0 ==> hourTokens == Some(WindowLevel(KeysOf(r, n), p, Hour, r.clock))
    ensures denied <==> Denies(KeysOf(r, n), p, units, r.clock)
    ensures denied ==> (KeysOf(r, n), denial) == Admit(KeysOf(r, n), p, units, r.clock)
    ensures !denied ==> denial.minuteRetry == denial.hourRetry == denial.dayRetry == 0
  {
    var minuteLeft, minuteRetry, hourLeft, hourRetry;
    minuteTokens, minuteLeft, minuteRetry := ReadBucket(r, n.minute, Minute, p.minute, units);
    hourTokens, hourLeft, hourRetry := ReadBucket(r, n.hour, Hour, p.hour, units);
    var dailyUsed := r.GetCounter(n.day);
    var dayLeft := if p.day > 0 then Max(0, p.day - dailyUsed) else -1;
    var keyTtl := r.TtlCounter(n.day);
    var dayDenied := p.day > 0 && dailyUsed + units > p.day;
    var dayRetry := if dayDenied then Max(1, Max(keyTtl, DayTtl(r.clock))) else 0;
    var minuteDenied := p.minute > 0 && minuteTokens.value + TOLERANCE < units as real;
    var hourDenied := p.hour > 0 && hourTokens.value + TOLERANCE < units as real;
    denied := minuteDenied || hourDenied || dayDenied;
    denial := Verdict(false, minuteLeft, hourLeft, dayLeft, minuteRetry, hourRetry, dayRetry);
  }

  /** The consume script is one admission on the identity's keys. */
  method ConsumeWindows(r: Server, n: Names, p: Policy, units: nat) returns (reply: Verdict)
    requires n.Distinct()
    modifies r`hashes, r`counters
    ensures (KeysOf(r, n), reply) == Admit(old(KeysOf(r, n)), p, units, r.clock)
    ensures Without(r.hashes, {n.minute, n.hour}) == Without(old(r.hashes), {n.minute, n.hour})
    ensures Without(r.counters, {n.day}) == Without(old(r.counters), {n.day})
  {
    var minuteTokens, hourTokens, denied, denial := Evaluate(r, n, p, units);
    if denied {
      return denial;
    }
    var minuteLeft, hourLeft, dayLeft := ChargeAll(r, n, p, units, minuteTokens, hourTokens);
    return Verdict(true, minuteLeft, hourLeft, dayLeft, 0, 0, 0);
  }

  /** The reserve script: an existing reservation is reported without touching the quota; a
      new one is admitted like a consume and written when admitted, or always in observe mode. */
  method ReserveUpload(r: Server, slotKey: string, n: Names, p: Policy, units: nat, ttl: nat, observe: bool, ghost slot: Slot)
    returns (reply: ReserveReply)
    requires n.Distinct() && Shows(At(r.strings, slotKey), slot)
    modifies r`hashes, r`counters, r`strings
    ensures reply.existing <==> Seen(slot, r.clock).Some?
    ensures reply.existing ==> KeysOf(r, n) == old(KeysOf(r, n)) && reply.verdict == Verdict(true, -1, -1, -1, 0, 0, 0)
    ensures !reply.existing ==> (KeysOf(r, n), reply.verdict) == Admit(old(KeysOf(r, n)), p, units, r.clock)
    ensures Shows(At(r.strings, slotKey), ReserveSlot(slot, r.clock, ttl, reply.verdict.allowed || observe))
    ensures r.strings == if reply.existing || !(reply.verdict.allowed || observe) then old(r.strings)
                         else old(r.strings)[slotKey := Timed("reserved", Some(r.clock + ttl as real))]
    ensures Without(r.hashes, {n.minute, n.hour}) == Without(old(r.hashes), {n.minute, n.hour})
    ensures Without(r.counters, {n.day}) == Without(old(r.counters), {n.day})
    ensures Without(r.strings, {slotKey}) == Without(old(r.strings), {slotKey})
  {
    var existing := r.Get(slotKey);
    if existing.Some? {
      return ReserveReply(true, Verdict(true, -1, -1, -1, 0, 0, 0));
    }
    var minuteTokens, hourTokens, denied, verdict := Evaluate(r, n, p, units);
    if denied && !observe {
      return ReserveReply(false, verdict);
    }
    if !denied {
      var minuteLeft, hourLeft, dayLeft := ChargeAll(r, n, p, units, minuteTokens, hourTokens);
      verdict := Verdict(true, minuteLeft, hourLeft, dayLeft, verdict.minuteRetry, verdict.hourRetry, verdict.dayRetry);
    }
    r.Set(slotKey, "reserved", Some(ttl as real));
    return ReserveReply(false, verdict);
  }

  /** The acquire script, run on the stored string, is the abstract acquire on the state. */
  method AcquireReservation(r: Server, slotKey: string, leaseId: string, leaseSeconds: nat, ghost slot: Slot)
    returns (answer: Answer)
    requires r.clock >= 0.0 && Shows(At(r.strings, slotKey), slot)
    modifies r`strings
    ensures answer == AcquireSlot(slot, r.clock, leaseId, leaseSeconds).1
    ensures Shows(At(r.strings, slotKey), AcquireSlot(slot, r.clock, leaseId, leaseSeconds).0)
    ensures Without(r.strings, {slotKey}) == Without(old(r.strings), {slotKey})
  {
    var value := r.Get(slotKey);
    if value.None? {
      return Missing;
    }
    ghost var state := slot.value.value;
    ReadsBack(state, leaseId);
    if value.value == "consumed" {
      return AlreadyConsumed;
    }
    var now := r.clock.Floor;
    if LEASED <= value.value {
      var leaseExpiry := MatchExpiry(value.value);
      if leaseExpiry.Some? && leaseExpiry.value > now {
        return Busy(Max(1, leaseExpiry.value - now));
      }
    }
    if value.value == "reserved" || LEASED <= value.value {
      var leaseExpiry := now + leaseSeconds;
      var currentTtl := Ttl(At(r.strings, slotKey), r.clock);
      var requiredTtl := leaseSeconds + RECOVERY_GRACE;
      r.Set(slotKey, LEASED + leaseId + ":" + Decimal.Print(leaseExpiry), None);
      r.ExpireString(slotKey, Max(currentTtl, requiredTtl));
      return Acquired(leaseSeconds);
    }
    return Missing;
  }

  /** The finalize script, run on the stored string, is the abstract finalize on the state. */
  method FinalizeReservation(r: Server, slotKey: string, leaseId: string, consumed: bool, ghost slot: Slot)
    returns (done: bool)
    requires Shows(At(r.strings, slotKey), slot)
    modifies r`strings
    ensures done == FinalizeSlot(slot, r.clock, leaseId, consumed).1
    ensures Shows(At(r.strings, slotKey), FinalizeSlot(slot, r.clock, leaseId, consumed).0)
    ensures Without(r.strings, {slotKey}) == Without(old(r.strings), {slotKey})
  {
    var value := r.Get(slotKey);
    if value.None? {
      return false;
    }
    ReadsBack(slot.value.value, leaseId);
    if !(LEASED + leaseId <= value.value) {
      return false;
    }
    var remaining := Pttl(At(r.strings, slotKey), r.clock);
    if remaining <= 0 {
      return false;
    }
    if consumed {
      r.Set(slotKey, "consumed", Some(CONSUMED_TTL as real));
    } else {
      r.Set(slotKey, "reserved", Some(remaining as real / 1000.0));
    }
    return true;
  }
}
