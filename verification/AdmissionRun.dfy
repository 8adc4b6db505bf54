/** Whole runs of the charging scripts on one server: what its replies admit for an identity, in
    whatever order consume and reserve calls arrive, obeys the bounds proved for admission. */
module AdmissionRun {
  import opened Wrappers
  import opened Clock
  import opened TokenBucket
  import opened Quota
  import opened LeaseCodec
  import opened Reservation
  import opened Redis
  import opened AdmissionScripts

  /** A call of a charging script at an instant of the server's clock. */
  datatype Request =
    | Consume(at: real, units: nat)
    | Reserve(at: real, units: nat, slotKey: string, ttl: nat, observe: bool)

  type Slots = map<string, Timed<State>>

  /** Every reservation key holds the encoding of its slot. */
  ghost predicate AllShow(strings: map<string, Timed<string>>, slots: Slots) {
    forall key :: Shows(At(strings, key), At(slots, key))
  }

  predicate Arrive(requests: seq<Request>, now: real) {
    requests != [] ==> now <= requests[0].at && requests[0].units > 0 && Arrive(requests[1..], requests[0].at)
  }

  /** The units the replies admitted at instants within [from, to]. */
  function AdmittedWithin(requests: seq<Request>, admitted: seq<nat>, from: real, to: real): nat
    requires |admitted| == |requests|
  {
    if requests == [] then 0
    else (if from <= requests[0].at <= to then admitted[0] else 0) + AdmittedWithin(requests[1..], admitted[1..], from, to)
  }

  /** The units the replies admitted on UTC day `d`. */
  function AdmittedOnDay(requests: seq<Request>, admitted: seq<nat>, d: int): nat
    requires |admitted| == |requests|
  {
    if requests == [] then 0
    else (if DayOf(requests[0].at) == d then admitted[0] else 0) + AdmittedOnDay(requests[1..], admitted[1..], d)
  }

  lemma OthersShow(before: map<string, Timed<string>>, after: map<string, Timed<string>>, slots: Slots, slotKey: string, slot: Slot)
    returns (slots': Slots)
    requires AllShow(before, slots) && Without(after, {slotKey}) == Without(before, {slotKey}) && Shows(At(after, slotKey), slot)
    ensures AllShow(after, slots')
  {
    slots' := if slot.Some? then slots[slotKey := slot.value] else slots - {slotKey};
    forall key
      ensures Shows(At(after, key), At(slots', key))
    {
      if key != slotKey {
        assert key in after <==> key in Without(after, {slotKey});
        assert key in before <==> key in Without(before, {slotKey});
        assert key in after ==> after[key] == Without(after, {slotKey})[key];
        assert Shows(At(before, key), At(slots, key));
      }
    }
  }

  /** One call, as the quota sees it. */
  method Serve(r: Server, n: Names, p: Policy, q: Request, ghost slots: Slots)
    returns (admitted: nat, ghost call: Call, ghost slots': Slots)
    requires n.Distinct() && AllShow(r.strings, slots)
    modifies r
    ensures r.clock == q.at && AllShow(r.strings, slots')
    ensures call.at == q.at && call.units == q.units
    ensures KeysOf(r, n) == After(old(KeysOf(r, n)), p, call) && admitted == Spends(old(KeysOf(r, n)), p, call)
  {
    r.clock := q.at;
    match q
    case Consume(at, units) =>
      var reply := ConsumeWindows(r, n, p, units);
      admitted := if reply.allowed then units else 0;
      call, slots' := Call(at, units, false), slots;
    case Reserve(at, units, slotKey, ttl, observe) =>
      ghost var before := r.strings;
      ghost var slot := At(slots, slotKey);
      var reply := ReserveUpload(r, slotKey, n, p, units, ttl, observe, slot);
      admitted := if !reply.existing && reply.verdict.allowed then units else 0;
      call := Call(at, units, reply.existing);
      slots' := OthersShow(before, r.strings, slots, slotKey,
                           ReserveSlot(slot, at, ttl, reply.verdict.allowed || observe));
  }

  /** Calls served one behind the other are a run of the admission function. */
  method ServeAll(r: Server, n: Names, p: Policy, requests: seq<Request>, ghost slots: Slots)
    returns (admitted: seq<nat>, ghost calls: seq<Call>)
    requires n.Distinct() && AllShow(r.strings, slots) && Arrive(requests, r.clock)
    modifies r
    ensures |admitted| == |requests| && InOrder(calls, old(r.clock)) && r.clock == LastInstant(calls, old(r.clock))
    ensures KeysOf(r, n) == EndOf(old(KeysOf(r, n)), p, calls)
    ensures forall from, to :: AdmittedWithin(requests, admitted, from, to) == SpentWithin(old(KeysOf(r, n)), p, calls, from, to)
    ensures forall d :: AdmittedOnDay(requests, admitted, d) == SpentOnDay(old(KeysOf(r, n)), p, calls, d)
    ensures (forall q <- requests :: WholeSecond(q.at)) ==> WholeSeconds(calls)
    decreases |requests|
  {
    if requests == [] {
      return [], [];
    }
    var first: nat;
    ghost var call, slots';
    first, call, slots' := Serve(r, n, p, requests[0], slots);
    var rest: seq<nat>;
    ghost var tail;
    rest, tail := ServeAll(r, n, p, requests[1..], slots');
    admitted, calls := [first] + rest, [call] + tail;
    assert admitted[1..] == rest && calls[1..] == tail;
    assert LastInstant(calls, call.at) == LastInstant(tail, call.at);
  }

  /** What the replies of a run admit: in any span at most a full bucket, the refill and the
      tolerance once, for both buckets; and on a whole-second clock never more than the daily
      limit on a UTC day. */
  method ServeWithinLimits(r: Server, n: Names, p: Policy, requests: seq<Request>, ghost slots: Slots)
    returns (admitted: seq<nat>)
    requires n.Distinct() && AllShow(r.strings, slots) && Arrive(requests, r.clock)
    requires Sound(KeysOf(r, n), p, r.clock)
    modifies r
    ensures |admitted| == |requests| && Sound(KeysOf(r, n), p, r.clock)
    ensures forall w: Window, from, to :: p.Limit(w) > 0 && from <= to ==>
              AdmittedWithin(requests, admitted, from, to) as real <= WindowBudget(w, p.Limit(w), to - from)
    ensures p.day > 0 && DayAligned(old(KeysOf(r, n)).day, old(r.clock)) && (forall q <- requests :: WholeSecond(q.at)) ==>
              forall d :: AdmittedOnDay(requests, admitted, d) <= p.day
  {
    ghost var k, now := KeysOf(r, n), r.clock;
    ghost var calls;
    admitted, calls := ServeAll(r, n, p, requests, slots);
    RunStaysSound(k, p, now, calls);
    forall w: Window, from, to | p.Limit(w) > 0 && from <= to
      ensures AdmittedWithin(requests, admitted, from, to) as real <= WindowBudget(w, p.Limit(w), to - from)
    {
      WindowBound(k, p, w, now, calls, from, to);
    }
    if p.day > 0 && DayAligned(k.day, now) && WholeSeconds(calls) {
      forall d: int
        ensures AdmittedOnDay(requests, admitted, d) <= p.day
      {
        DailyCap(k, p, now, calls, d);
        NeverNegative(k, p, now);
      }
    }
  }

  lemma NeverNegative(k: Keys, p: Policy, now: real)
    requires p.day > 0 && Sound(k, p, now)
    ensures Used(k.day, now) >= 0
  {}
}
