/** The Redis server as the admission scripts use it: a clock, and keys of three kinds that
    may expire. An expired key is absent to every command. */
module Redis {
  import opened Wrappers
  import opened Clock
  import opened TokenBucket
  import Reservation

  function At<T>(keys: map<string, Timed<T>>, key: string): Option<Timed<T>> {
    if key in keys then Some(keys[key]) else None
  }

  class Server {
    var clock: real
    var hashes: map<string, Timed<Fields>>
    var counters: map<string, Timed<int>>
    var strings: map<string, Timed<string>>

    constructor (now: real)
      ensures clock == now && hashes == map[] && counters == map[] && strings == map[]
    {
      clock, hashes, counters, strings := now, map[], map[], map[];
    }

    /** HMGET key tokens updated_at */
    method HMGet(key: string) returns (tokens: Option<real>, updatedAt: Option<real>)
      ensures var seen := Seen(At(hashes, key), clock);
              && tokens == (if seen.Some? then Some(seen.value.tokens) else None)
              && updatedAt == (if seen.Some? then Some(seen.value.updatedAt) else None)
    {
      tokens, updatedAt := None, None;
      if key in hashes && (hashes[key].deadline.None? || clock < hashes[key].deadline.value) {
        tokens, updatedAt := Some(hashes[key].value.tokens), Some(hashes[key].value.updatedAt);
      }
    }

    /** HSET of both fields keeps the expiry of a live key and starts an absent one without. */
    method HSet(key: string, tokens: real, updatedAt: real)
      modifies this`hashes
      ensures hashes == old(hashes)[key := Timed(Fields(tokens, updatedAt),
                          if Seen(old(At(hashes, key)), clock).Some? then old(hashes[key].deadline) else None)]
    {
      var live := key in hashes && (hashes[key].deadline.None? || clock < hashes[key].deadline.value);
      hashes := hashes[key := Timed(Fields(tokens, updatedAt), if live then hashes[key].deadline else None)];
    }

    method ExpireHash(key: string, seconds: int)
      requires Seen(At(hashes, key), clock).Some?
      modifies this`hashes
      ensures hashes == old(hashes)[key := old(hashes[key]).(deadline := Some(clock + seconds as real))]
    {
      hashes := hashes[key := hashes[key].(deadline := Some(clock + seconds as real))];
    }

    /** GET of a counter, zero when absent. */
    method GetCounter(key: string) returns (n: int)
      ensures n == (match Seen(At(counters, key), clock) case None => 0 case Some(v) => v)
    {
      n := 0;
      if key in counters && (counters[key].deadline.None? || clock < counters[key].deadline.value) {
        n := counters[key].value;
      }
    }

    method TtlCounter(key: string) returns (seconds: int)
      ensures seconds == Ttl(At(counters, key), clock)
    {
      seconds := Ttl(At(counters, key), clock);
    }

    method IncrBy(key: string, units: nat) returns (after: int)
      modifies this`counters
      ensures var seen := Seen(old(At(counters, key)), clock);
              && after == (match seen case None => 0 case Some(v) => v) + units
              && counters == old(counters)[key := Timed(after, if seen.Some? then old(counters[key].deadline) else None)]
    {
      var live := key in counters && (counters[key].deadline.None? || clock < counters[key].deadline.value);
      after := (if live then counters[key].value else 0) + units;
      counters := counters[key := Timed(after, if live then counters[key].deadline else None)];
    }

    method ExpireCounter(key: string, seconds: int)
      requires Seen(At(counters, key), clock).Some?
      modifies this`counters
      ensures counters == old(counters)[key := old(counters[key]).(deadline := Some(clock + seconds as real))]
    {
      counters := counters[key := counters[key].(deadline := Some(clock + seconds as real))];
    }

    method Get(key: string) returns (value: Option<string>)
      ensures value == Seen(At(strings, key), clock)
    {
      value := Seen(At(strings, key), clock);
    }

    /** SET replaces the value and its expiry. */
    method Set(key: string, value: string, expiry: Option<real>)
      modifies this`strings
      ensures strings == old(strings)[key := Timed(value, if expiry.Some? then Some(clock + expiry.value) else None)]
    {
      strings := strings[key := Timed(value, if expiry.Some? then Some(clock + expiry.value) else None)];
    }

    method ExpireString(key: string, seconds: int)
      requires Seen(At(strings, key), clock).Some?
      modifies this`strings
      ensures strings == old(strings)[key := old(strings[key]).(deadline := Some(clock + seconds as real))]
    {
      strings := strings[key := strings[key].(deadline := Some(clock + seconds as real))];
    }
  }
}
