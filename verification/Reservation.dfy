/** The upload reservation of one pathname: absent, reserved, leased or consumed, and what
    holds over every run of reserve, acquire and finalize calls on it. Whether the quota
    admits a reserve call is left open, so the results hold whatever the quota says. */
module Reservation {
  import opened Wrappers
  import opened Clock
  import opened LeaseCodec

  const CONSUMED_TTL: nat := 86400
  const RECOVERY_GRACE: nat := 300

  type Slot = Option<Timed<State>>

  datatype Answer = Missing | Acquired(seconds: nat) | Busy(retry: nat) | AlreadyConsumed

  /** PTTL: whole milliseconds left, rounded down; -2 when absent, -1 when persistent. */
  function Pttl<T>(key: Option<Timed<T>>, now: real): int {
    if Seen(key, now).None? then -2
    else if key.value.deadline.None? then -1
    else (1000.0 * (key.value.deadline.value - now)).Floor
  }

  predicate Creates(s: Slot, now: real, admitted: bool) { Seen(s, now).None? && admitted }

  function ReserveSlot(s: Slot, now: real, ttl: nat, admitted: bool): Slot {
    if Creates(s, now, admitted) then Some(Timed(Reserved, Some(now + ttl as real))) else s
  }

  function AcquireSlot(s: Slot, now: real, id: string, seconds: nat): (Slot, Answer)
    requires now >= 0.0
  {
    var seen := Seen(s, now);
    if seen.None? then (s, Missing)
    else if seen.value.Consumed? then (s, AlreadyConsumed)
    else if seen.value.Leased? && seen.value.expiry > now.Floor then
      (s, Busy(Max(1, seen.value.expiry - now.Floor)))
    else
      (Some(Timed(Leased(id, now.Floor + seconds),
                  Some(now + Max(Ttl(s, now), seconds + RECOVERY_GRACE) as real))),
       Acquired(seconds))
  }

  function FinalizeSlot(s: Slot, now: real, id: string, consumed: bool): (Slot, bool) {
    var seen := Seen(s, now);
    if seen.None? || !Accepts(seen.value, id) || Pttl(s, now) <= 0 then (s, false)
    else (Some(if consumed then Timed(Consumed, Some(now + CONSUMED_TTL as real))
               else Timed(Reserved, Some(now + Pttl(s, now) as real / 1000.0))), true)
  }

  // ---- runs ----

  datatype Event =
    | Reserve(at: real, ttl: nat, admitted: bool)
    | Acquire(at: real, id: string, seconds: nat)
    | Finalize(at: real, id: string, consumed: bool)

  function Step(s: Slot, e: Event): Slot
    requires e.at >= 0.0
  {
    match e
    case Reserve(at, ttl, admitted) => ReserveSlot(s, at, ttl, admitted)
    case Acquire(at, id, seconds) => AcquireSlot(s, at, id, seconds).0
    case Finalize(at, id, consumed) => FinalizeSlot(s, at, id, consumed).0
  }

  /** A run from `first`: instants never go back, and every reservation asks for a second at least. */
  datatype Run = Run(first: Slot, events: seq<Event>) {

    ghost predicate Ordered() {
      && (forall i :: 0 <= i < |events| ==> 0.0 <= events[i].at)
      && (forall i, j :: 0 <= i < j < |events| ==> events[i].at <= events[j].at)
    }

    /** Every acquire call draws an id of the generator's length that no other call drew. */
    ghost predicate FreshIds(length: nat) {
      && (forall i :: 0 <= i < |events| && !events[i].Reserve? ==> |events[i].id| == length)
      && (forall i, j :: 0 <= i < j < |events| && events[i].Acquire? && events[j].Acquire? ==> events[i].id != events[j].id)
    }

    /** The slot before event `i`. */
    ghost function Before(i: nat): Slot
      requires Ordered() && i <= |events|
    {
      if i == 0 then first else Step(Before(i - 1), events[i - 1])
    }

    ghost predicate Grants(i: nat)
      requires Ordered() && i < |events|
    {
      events[i].Acquire? && AcquireSlot(Before(i), events[i].at, events[i].id, events[i].seconds).1.Acquired?
    }

    ghost predicate Finalizes(i: nat, id: string)
      requires Ordered() && i < |events|
    {
      && events[i].Finalize? && events[i].id == id
      && FinalizeSlot(Before(i), events[i].at, events[i].id, events[i].consumed).1
    }

    ghost predicate Consumes(i: nat)
      requires Ordered() && i < |events|
    {
      events[i].Finalize? && events[i].consumed && Finalizes(i, events[i].id)
    }

    ghost predicate NewReservation(i: nat)
      requires Ordered() && i < |events|
    {
      events[i].Reserve? && Creates(Before(i), events[i].at, events[i].admitted)
    }

    /** The instant the lease granted by event `i` runs out. */
    function LeaseEnd(i: nat): nat
      requires i < |events| && events[i].Acquire? && events[i].at >= 0.0
    {
      events[i].at.Floor + events[i].seconds
    }

    ghost predicate HeldBy(i: nat, id: string)
      requires Ordered() && i <= |events|
    {
      var s := Before(i);
      s.Some? && s.value.value.Leased? && s.value.value.holder == id
    }
  }

  /** A granted lease's key lives on past the lease by at least the recovery grace. */
  lemma KeyOutlivesLease(r: Run, i: nat)
    requires r.Ordered() && i < |r.events| && r.Grants(i)
    ensures var s := r.Before(i + 1);
            && s.Some? && s.value.value == Leased(r.events[i].id, r.LeaseEnd(i))
            && r.LeaseEnd(i) == r.events[i].at.Floor + r.events[i].seconds
            && s.value.deadline.Some?
            && s.value.deadline.value >= (r.LeaseEnd(i) + 300) as real
  {}

  /** While a granted lease is unexpired and unfinalized its slot cannot change. */
  lemma {:induction false} LeaseStands(r: Run, length: nat, i: nat, j: nat)
    requires r.Ordered() && r.FreshIds(length) && i < j <= |r.events| && r.Grants(i)
    requires forall k :: i < k < j ==> r.events[k].at < r.LeaseEnd(i) as real && !r.Finalizes(k, r.events[i].id)
    ensures r.Before(j) == r.Before(i + 1)
    decreases j
  {
    KeyOutlivesLease(r, i);
    if j > i + 1 {
      LeaseStands(r, length, i, j - 1);
      var e := r.events[j - 1];
      var s := r.Before(j - 1).value.value;
      assert Seen(r.Before(j - 1), e.at) == Some(s);
      if e.Finalize? {
        HolderIsExact(s, e.id);
        assert !r.Finalizes(j - 1, r.events[i].id);
      }
    }
  }

  /** No two live leases: a later lease is granted only once the earlier one has run out or
      its holder has finalized it, across key expiry and re-reservation too. */
  lemma ExclusiveLease(r: Run, length: nat, i: nat, j: nat)
    requires r.Ordered() && r.FreshIds(length) && i < j < |r.events| && r.Grants(i) && r.Grants(j)
    ensures r.events[j].at >= r.LeaseEnd(i) as real
         || exists k :: i < k < j && r.Finalizes(k, r.events[i].id)
  {
    if r.events[j].at < r.LeaseEnd(i) as real && forall k :: i < k < j ==> !r.Finalizes(k, r.events[i].id) {
      LeaseStands(r, length, i, j);
      KeyOutlivesLease(r, i);
    }
  }

  /** An id the slot no longer holds, once granted, is never held again. */
  lemma {:induction false} NeverHeldAgain(r: Run, length: nat, i: nat, m: nat, k: nat)
    requires r.Ordered() && r.FreshIds(length) && i < m <= k <= |r.events| && r.events[i].Acquire?
    requires !r.HeldBy(m, r.events[i].id)
    ensures !r.HeldBy(k, r.events[i].id)
    decreases k
  {
    if k > m {
      NeverHeldAgain(r, length, i, m, k - 1);
      var e := r.events[k - 1];
      if e.Acquire? { assert e.id != r.events[i].id; }
    }
  }

  /** The holder test on a slot whose ids have one length accepts the holder only. */
  lemma {:induction false} LeasedIdsHaveLength(r: Run, length: nat, i: nat, k: nat)
    requires r.Ordered() && r.FreshIds(length) && i < k <= |r.events| && r.Grants(i)
    ensures var s := r.Before(k); s.Some? && s.value.value.Leased? ==> |s.value.value.holder| == length
    decreases k
  {
    KeyOutlivesLease(r, i);
    if k > i + 1 { LeasedIdsHaveLength(r, length, i, k - 1); }
  }

  /** A lease that was lost, by supersession or by its own finalize, stays lost: its id never
      finalizes again and its calls change nothing. */
  lemma LostLeaseIsInert(r: Run, length: nat, i: nat, m: nat, k: nat)
    requires r.Ordered() && r.FreshIds(length) && i < m <= k < |r.events| && r.Grants(i)
    requires !r.HeldBy(m, r.events[i].id)
    requires r.events[k].Finalize? && r.events[k].id == r.events[i].id
    ensures !r.Finalizes(k, r.events[i].id) && r.Before(k + 1) == r.Before(k)
  {
    NeverHeldAgain(r, length, i, m, k);
    LeasedIdsHaveLength(r, length, i, k);
    var s := r.Before(k);
    if s.Some? && s.value.value.Leased? { HolderIsExact(s.value.value, r.events[k].id); }
  }

  /** In particular a superseded lease id can never change the state. */
  lemma SupersededLeaseIsInert(r: Run, length: nat, i: nat, j: nat, k: nat)
    requires r.Ordered() && r.FreshIds(length) && i < j < k < |r.events| && r.Grants(i) && r.Grants(j)
    requires r.events[k].Finalize? && r.events[k].id == r.events[i].id
    ensures !r.Finalizes(k, r.events[i].id) && r.Before(k + 1) == r.Before(k)
  {
    KeyOutlivesLease(r, j);
    LostLeaseIsInert(r, length, i, j + 1, k);
  }

  /** A holder that was neither superseded nor finalized succeeds, up to a millisecond
      before the end of the recovery grace. */
  lemma {:induction false} HolderKeepsSlot(r: Run, length: nat, i: nat, j: nat)
    requires r.Ordered() && r.FreshIds(length) && i < j <= |r.events| && r.Grants(i)
    requires forall k :: i < k < j ==>
               && r.events[k].at < (r.LeaseEnd(i) + RECOVERY_GRACE) as real
               && !r.Grants(k) && !r.Finalizes(k, r.events[i].id)
    ensures r.Before(j) == r.Before(i + 1)
    decreases j
  {
    KeyOutlivesLease(r, i);
    if j > i + 1 {
      HolderKeepsSlot(r, length, i, j - 1);
      var e := r.events[j - 1];
      var s := r.Before(j - 1).value.value;
      assert Seen(r.Before(j - 1), e.at) == Some(s);
      assert !r.Grants(j - 1) && !r.Finalizes(j - 1, r.events[i].id);
      if e.Finalize? { HolderIsExact(s, e.id); }
    }
  }

  lemma HolderCanFinalize(r: Run, length: nat, i: nat, j: nat)
    requires r.Ordered() && r.FreshIds(length) && i < j < |r.events| && r.Grants(i)
    requires forall k :: i < k < j ==> !r.Grants(k) && !r.Finalizes(k, r.events[i].id)
    requires r.events[j].Finalize? && r.events[j].id == r.events[i].id
    requires r.events[j].at + 0.001 <= (r.LeaseEnd(i) + 300) as real
    ensures r.Finalizes(j, r.events[i].id)
  {
    HolderKeepsSlot(r, length, i, j);
    KeyOutlivesLease(r, i);
    var s := r.Before(j);
    HolderIsExact(s.value.value, r.events[j].id);
    assert 1000.0 * (s.value.deadline.value - r.events[j].at) >= 1.0;
  }

  /** After a finalize to consumed nothing moves until a new reservation is made. */
  lemma {:induction false} ConsumedStands(r: Run, i: nat, j: nat)
    requires r.Ordered() && i < j <= |r.events| && r.Consumes(i)
    requires forall k :: i < k < j ==> !r.NewReservation(k)
    ensures r.Before(j) == Some(Timed(Consumed, Some(r.events[i].at + CONSUMED_TTL as real)))
    decreases j
  {
    if j > i + 1 {
      ConsumedStands(r, i, j - 1);
      assert !r.NewReservation(j - 1);
    }
  }

  /** At most one finalize to consumed per reservation: between two of them the pathname was
      newly reserved, and a whole consumed TTL passed. */
  lemma ConsumedOncePerReservation(r: Run, i: nat, j: nat)
    requires r.Ordered() && i < j < |r.events| && r.Consumes(i) && r.Consumes(j)
    ensures exists k :: i < k < j && r.NewReservation(k)
    ensures r.events[j].at >= r.events[i].at + 86400.0
  {
    if forall k :: i < k < j ==> !r.NewReservation(k) {
      ConsumedStands(r, i, j);
      assert false;
    }
    var k :| i < k < j && r.NewReservation(k);
    FirstNewReservation(r, i, k);
  }

  lemma {:induction false} FirstNewReservation(r: Run, i: nat, k: nat)
    requires r.Ordered() && i < k < |r.events| && r.Consumes(i) && r.NewReservation(k)
    ensures r.events[k].at >= r.events[i].at + CONSUMED_TTL as real
    decreases k
  {
    if m :| i < m < k && r.NewReservation(m) {
      FirstNewReservation(r, i, m);
    } else {
      ConsumedStands(r, i, k);
    }
  }

  // ---- what the answers mean ----

  /** The four answers of an acquire: nothing is reserved, it is consumed, it is leased for exactly
      as many whole seconds more as the answer says, or the lease is granted. */
  lemma AnswersMean(s: Slot, now: real, id: string, seconds: nat)
    requires now >= 0.0
    ensures var answer := AcquireSlot(s, now, id, seconds).1;
            && (answer.Missing? <==> Seen(s, now).None?)
            && (answer.AlreadyConsumed? <==> Seen(s, now) == Some(Consumed))
            && (answer.Busy? ==> answer.retry > 0 && forall later: real, other: string, n: nat ::
                  now <= later && Seen(s, later).Some? ==>
                    if later.Floor < now.Floor + answer.retry then AcquireSlot(s, later, other, n).1.Busy?
                    else AcquireSlot(s, later, other, n).1 == Acquired(n))
            && (answer.Acquired? ==> answer.seconds == seconds)
  {}

  /** A reserve call writes its reservation exactly when it is admitted and none is seen. */
  lemma ReserveMeans(s: Slot, now: real, ttl: nat, admitted: bool)
    ensures ReserveSlot(s, now, ttl, admitted) ==
              if admitted && Seen(s, now).None? then Some(Timed(Reserved, Some(now + ttl as real))) else s
  {}

  /** A finalize succeeds exactly on a slot leased to its caller whose key has a millisecond left, and
      makes it consumed or reserved, as asked; otherwise nothing changes. */
  lemma FinalizeMeans(s: Slot, now: real, id: string, consumed: bool)
    ensures var (s', done) := FinalizeSlot(s, now, id, consumed);
            && (done <==> s.Some? && s.value.value.Leased? && Accepts(s.value.value, id)
                          && s.value.deadline.Some? && s.value.deadline.value - now >= 0.001)
            && (done ==> s'.Some? && s'.value.value == if consumed then Consumed else Reserved)
            && (!done ==> s' == s)
  {}

  /** A consumed answer has its reason: the pathname was finalized to consumed and not reserved
      again. */
  lemma {:induction false} ConsumedHasItsReason(r: Run, k: nat)
    requires r.Ordered() && r.first.None? && k <= |r.events|
    requires r.Before(k).Some? && r.Before(k).value.value.Consumed?
    ensures exists i :: 0 <= i < k && r.Consumes(i) && forall m :: i < m < k ==> !r.NewReservation(m)
    decreases k
  {
    if !r.Consumes(k - 1) {
      assert r.Before(k) == Step(r.Before(k - 1), r.events[k - 1]);
      assert !r.NewReservation(k - 1);
      ConsumedHasItsReason(r, k - 1);
    }
  }

  /** A reserved slot stays as it is until it is acquired or its key ends. */
  lemma {:induction false} ReservedStands(r: Run, i: nat, j: nat)
    requires r.Ordered() && i <= j <= |r.events| && r.Before(i).Some? && r.Before(i).value.value.Reserved?
    requires forall m :: i <= m < j ==> !r.Grants(m) && !r.NewReservation(m)
    ensures r.Before(j) == r.Before(i)
    decreases j
  {
    if j > i {
      ReservedStands(r, i, j - 1);
      assert r.Before(j) == Step(r.Before(j - 1), r.events[j - 1]);
      assert !r.Grants(j - 1) && !r.NewReservation(j - 1);
    }
  }

  /** A released reservation can be acquired again: the next acquire while its key lives succeeds. */
  lemma ReleaseReopens(r: Run, j: nat, k: nat)
    requires r.Ordered() && j < k < |r.events| && r.events[j].Finalize? && !r.events[j].consumed && r.Finalizes(j, r.events[j].id)
    requires r.events[k].Acquire? && Seen(r.Before(j + 1), r.events[k].at).Some?
    requires forall m :: j < m < k ==> !r.Grants(m)
    ensures r.Grants(k) && AcquireSlot(r.Before(k), r.events[k].at, r.events[k].id, r.events[k].seconds).1 == Acquired(r.events[k].seconds)
  {
    assert r.Before(j + 1) == Step(r.Before(j), r.events[j]);
    NothingNewWhileSeen(r, j + 1, k);
    ReservedStands(r, j + 1, k);
  }

  /** Nothing is newly reserved while a reserved slot is seen. */
  lemma {:induction false} NothingNewWhileSeen(r: Run, i: nat, k: nat)
    requires r.Ordered() && i <= k < |r.events| && r.Before(i).Some? && r.Before(i).value.value.Reserved?
    requires Seen(r.Before(i), r.events[k].at).Some? && forall m :: i <= m < k ==> !r.Grants(m)
    ensures forall m :: i <= m < k ==> !r.NewReservation(m)
    decreases k
  {
    forall m | i <= m < k
      ensures !r.NewReservation(m)
    {
      NothingNewWhileSeen(r, i, m);
      ReservedStands(r, i, m);
    }
  }

  /** A reservation nobody acquires ends after exactly its own time to live: the first admitted
      reserve call from then on makes a new one, and none does before. */
  lemma ReservationEnds(r: Run, i: nat, j: nat)
    requires r.Ordered() && i < j < |r.events| && r.NewReservation(i) && r.events[j].Reserve? && r.events[j].admitted
    requires forall m :: i < m < j ==> !r.Grants(m) && !r.NewReservation(m)
    ensures r.NewReservation(j) <==> r.events[j].at >= r.events[i].at + r.events[i].ttl as real
  {
    assert r.Before(i + 1) == Step(r.Before(i), r.events[i]);
    ReservedStands(r, i + 1, j);
  }

  // ---- charging ----

  ghost predicate WholeSecondRun(r: Run) {
    forall i :: 0 <= i < |r.events| ==> WholeSecond(r.events[i].at)
  }

  function LeastTtl(ttl: nat): nat { if ttl < CONSUMED_TTL then ttl else CONSUMED_TTL }

  /** On a whole-second clock nothing shortens a reservation below its own time to live. */
  lemma {:induction false} ReservationLasts(r: Run, i: nat, j: nat)
    requires r.Ordered() && WholeSecondRun(r) && i < j <= |r.events| && r.NewReservation(i)
    requires forall k :: i < k < j ==> r.events[k].at < r.events[i].at + LeastTtl(r.events[i].ttl) as real
    ensures var s := r.Before(j);
            && s.Some? && s.value.deadline.Some? && WholeSecond(s.value.deadline.value)
            && s.value.deadline.value >= r.events[i].at + LeastTtl(r.events[i].ttl) as real
    decreases j
  {
    assert WholeSecond(r.events[i].at);
    if j == i + 1 {
      WholeSum(r.events[i].at, r.events[i].ttl);
    } else {
      ReservationLasts(r, i, j - 1);
      StepLasts(r.Before(j - 1), r.events[j - 1], r.events[i].at, LeastTtl(r.events[i].ttl));
    }
  }

  lemma StepLasts(s: Slot, e: Event, at: real, ttl: nat)
    requires 0.0 <= at <= e.at < at + ttl as real && ttl <= CONSUMED_TTL && WholeSecond(e.at)
    requires s.Some? && s.value.deadline.Some? && WholeSecond(s.value.deadline.value) && s.value.deadline.value >= at + ttl as real
    ensures var s' := Step(s, e);
            && s'.Some? && s'.value.deadline.Some? && WholeSecond(s'.value.deadline.value)
            && s'.value.deadline.value >= at + ttl as real
  {
    var d := s.value.deadline.value;
    WholeGap(d, e.at);
    match e
    case Reserve(_, _, _) =>
    case Acquire(at, id, seconds) => WholeSum(at, Max(Ttl(s, at), seconds + RECOVERY_GRACE));
    case Finalize(at, id, consumed) => WholeSum(at, CONSUMED_TTL);
  }

  lemma WholeSum(t: real, n: int)
    requires WholeSecond(t)
    ensures WholeSecond(t + n as real)
  {
    assert t + n as real == (t.Floor + n) as real;
  }

  lemma WholeGap(d: real, t: real)
    requires WholeSecond(d) && WholeSecond(t)
    ensures (d - t + 0.5).Floor == d.Floor - t.Floor
    ensures (1000.0 * (d - t)).Floor == 1000 * (d.Floor - t.Floor)
    ensures (1000 * (d.Floor - t.Floor)) as real / 1000.0 == d - t
  {
    assert d - t == (d.Floor - t.Floor) as real;
    assert 1000.0 * (d - t) == (1000 * (d.Floor - t.Floor)) as real;
  }

  // ---- on the millisecond clock ----

  ghost predicate MillisecondRun(r: Run) {
    forall i :: 0 <= i < |r.events| ==> WholeMillisecond(r.events[i].at)
  }

  /** An acquire leaves its lease and the grace enough for a reservation of `ttl` seconds, as the
      default lease does for the default reservation. */
  predicate Ample(e: Event, ttl: nat) { e.Acquire? ==> e.seconds + RECOVERY_GRACE >= ttl }

  /** What an event can take off the life of a reservation made for `ttl` seconds: an acquire at
      most half a second, when its lease and the grace are shorter; anything else nothing. */
  function Shortens(e: Event, ttl: nat): real { if Ample(e, ttl) then 0.0 else 0.5 }

  /** The losses of the events behind `i` and before `j`. */
  function Loss(events: seq<Event>, ttl: nat, i: nat, j: nat): real
    requires i < j <= |events|
    decreases j
  {
    if j == i + 1 then 0.0 else Loss(events, ttl, i, j - 1) + Shortens(events[j - 1], ttl)
  }

  /** What a reservation made by event `i` is still sure of when event `j` comes. */
  function SureUntil(r: Run, i: nat, j: nat): real
    requires i < j <= |r.events| && r.events[i].Reserve?
  {
    var ttl := LeastTtl(r.events[i].ttl);
    r.events[i].at + ttl as real - Loss(r.events, ttl, i, j)
  }

  lemma MillisecondSum(t: real, n: int)
    requires WholeMillisecond(t)
    ensures WholeMillisecond(t + n as real)
  {
    assert 1000.0 * (t + n as real) == ((1000.0 * t).Floor + 1000 * n) as real;
  }

  /** PTTL and SET PX restore the expiry they came from. */
  lemma ReleaseIsExact(d: real, t: real)
    requires WholeMillisecond(d) && WholeMillisecond(t)
    ensures t + (1000.0 * (d - t)).Floor as real / 1000.0 == d
  {
    assert 1000.0 * (d - t) == ((1000.0 * d).Floor - (1000.0 * t).Floor) as real;
  }

  /** A live slot changes its end only in three ways: an acquire may bring it forward or put it
      off, exactly as the larger of the rounded TTL and the lease with its grace says, a finalize
      to consumed sets it to the consumed lifetime, and a release leaves it where it was. */
  lemma StepEnd(s: Slot, e: Event)
    requires 0.0 <= e.at && WholeMillisecond(e.at) && Seen(s, e.at).Some?
    requires s.value.deadline.Some? && WholeMillisecond(s.value.deadline.value)
    ensures var s' := Step(s, e);
            && s'.Some? && s'.value.deadline.Some? && WholeMillisecond(s'.value.deadline.value)
            && s'.value.deadline == (
                 if e.Acquire? && AcquireSlot(s, e.at, e.id, e.seconds).1.Acquired?
                 then Some(e.at + Max(Ttl(s, e.at), e.seconds + 300) as real)
                 else if e.Finalize? && e.consumed && FinalizeSlot(s, e.at, e.id, true).1
                 then Some(e.at + 86400.0)
                 else s.value.deadline)
  {
    ReleaseIsExact(s.value.deadline.value, e.at);
    MillisecondSum(e.at, CONSUMED_TTL);
    if e.Acquire? { MillisecondSum(e.at, Max(Ttl(s, e.at), e.seconds + RECOVERY_GRACE)); }
  }

  lemma StepLoses(s: Slot, e: Event, ttl: nat, at: real, sure: real)
    requires 0.0 <= at <= e.at < sure <= at + ttl as real && ttl <= CONSUMED_TTL && WholeMillisecond(e.at)
    requires s.Some? && s.value.deadline.Some? && WholeMillisecond(s.value.deadline.value) && s.value.deadline.value >= sure
    ensures var s' := Step(s, e);
            && s'.Some? && s'.value.deadline.Some? && WholeMillisecond(s'.value.deadline.value)
            && s'.value.deadline.value >= sure - Shortens(e, ttl)
  {
    StepEnd(s, e);
  }

  lemma {:induction false} LossGrows(events: seq<Event>, ttl: nat, i: nat, j: nat, k: nat)
    requires i < j <= k <= |events|
    ensures 0.0 <= Loss(events, ttl, i, j) <= Loss(events, ttl, i, k)
    decreases k
  {
    if k > j {
      LossGrows(events, ttl, i, j, k - 1);
    } else if j > i + 1 {
      LossGrows(events, ttl, i, j - 1, j - 1);
    }
  }

  lemma {:induction false} NothingLost(events: seq<Event>, ttl: nat, i: nat, j: nat)
    requires i < j <= |events| && forall k :: i < k < j ==> Ample(events[k], ttl)
    ensures Loss(events, ttl, i, j) == 0.0
    decreases j
  {
    if j > i + 1 { NothingLost(events, ttl, i, j - 1); }
  }

  lemma {:induction false} ReservationIsSure(r: Run, i: nat, j: nat)
    requires r.Ordered() && MillisecondRun(r) && i < j <= |r.events| && r.NewReservation(i)
    requires forall k :: i < k < j ==> r.events[k].at < SureUntil(r, i, j)
    ensures var s := r.Before(j);
            && s.Some? && s.value.deadline.Some? && WholeMillisecond(s.value.deadline.value)
            && s.value.deadline.value >= SureUntil(r, i, j)
    decreases j
  {
    assert WholeMillisecond(r.events[i].at);
    if j == i + 1 {
      MillisecondSum(r.events[i].at, r.events[i].ttl);
    } else {
      var ttl := LeastTtl(r.events[i].ttl);
      LossGrows(r.events, ttl, i, j - 1, j);
      LossGrows(r.events, ttl, i, i + 1, j - 1);
      ReservationIsSure(r, i, j - 1);
      StepLoses(r.Before(j - 1), r.events[j - 1], ttl, r.events[i].at, SureUntil(r, i, j - 1));
    }
  }

  /** Two reserve calls that both reach the quota are the first one's time to live apart (a day, if
      that is shorter), up to half a second for each acquire in between whose lease and grace are
      shorter than that. */
  lemma ChargedOnceUpToRounding(r: Run, i: nat, j: nat)
    requires r.Ordered() && MillisecondRun(r) && i < j < |r.events| && r.NewReservation(i) && r.NewReservation(j)
    ensures r.events[j].at >= SureUntil(r, i, j)
  {
    if r.events[j].at < SureUntil(r, i, j) {
      ReservationIsSure(r, i, j);
    }
  }

  /** A pathname is charged at most once per lifetime, however many reserve calls arrive, when every
      acquire in between is ample, as the program's defaults are, or the clock shows whole seconds. */
  lemma ChargedOncePerLifetime(r: Run, i: nat, j: nat)
    requires r.Ordered() && i < j < |r.events| && r.NewReservation(i) && r.NewReservation(j)
    requires WholeSecondRun(r)
          || (MillisecondRun(r) && forall k :: i < k < j ==> Ample(r.events[k], LeastTtl(r.events[i].ttl)))
    ensures r.events[j].at >= r.events[i].at + LeastTtl(r.events[i].ttl) as real
  {
    if WholeSecondRun(r) {
      if r.events[j].at < r.events[i].at + LeastTtl(r.events[i].ttl) as real {
        ReservationLasts(r, i, j);
      }
    } else {
      NothingLost(r.events, LeastTtl(r.events[i].ttl), i, j);
      ChargedOnceUpToRounding(r, i, j);
    }
  }

  /** An acquire that is not ample can round a lifetime down: a pathname reserved for forty minutes
      and acquired after six tenths of a second is free four tenths of a second early. */
  lemma AcquireShortens()
    ensures var r := Run(None, [Reserve(0.0, 2400, true), Acquire(0.6, "a", 1800), Reserve(2399.7, 2400, true)]);
            r.Ordered() && MillisecondRun(r) && r.NewReservation(0) && r.NewReservation(2)
  {
    var r := Run(None, [Reserve(0.0, 2400, true), Acquire(0.6, "a", 1800), Reserve(2399.7, 2400, true)]);
    AcquiredEarly(r);
  }

  lemma AcquiredEarly(r: Run)
    requires r.Ordered() && r.first == None && |r.events| == 3
    requires r.events[0] == Reserve(0.0, 2400, true) && r.events[1] == Acquire(0.6, "a", 1800)
    requires r.events[2] == Reserve(2399.7, 2400, true)
    ensures MillisecondRun(r) && r.NewReservation(0) && r.NewReservation(2)
  {
    assert (600 as real).Floor == 600 && (2399700 as real).Floor == 2399700;
    assert (2400.0 - 0.6 + 0.5).Floor == 2399;
    BeforeNext(r, 0);
    BeforeNext(r, 1);
    assert r.Before(2) == Some(Timed(Leased("a", 1800), Some(2399.6)));
  }

  lemma BeforeNext(r: Run, i: nat)
    requires r.Ordered() && i < |r.events|
    ensures r.Before(i + 1) == Step(r.Before(i), r.events[i])
  {}
}
