/** The admission decision over the minute bucket, the hour bucket and the daily counter of
    one identity, and what it guarantees over every run of charging calls. */
module Quota {
  import opened Wrappers
  import opened Clock
  import opened TokenBucket

  /** Configured limits; zero means the window is not configured. */
  datatype Policy = Policy(minute: nat, hour: nat, day: nat) {
    function Limit(w: Window): nat { if w.Minute? then minute else hour }
    predicate Fits(units: nat) {
      (minute > 0 ==> units <= minute) && (hour > 0 ==> units <= hour) && (day > 0 ==> units <= day)
    }
  }

  type DayKey = Option<Timed<int>>

  /** The three quota keys of one identity and operation. */
  datatype Keys = Keys(minute: Key, hour: Key, day: DayKey) {
    function Bucket(w: Window): Key { if w.Minute? then minute else hour }
  }

  /** What one admission reports: the decision, the remaining units and the waits. */
  datatype Verdict = Verdict(
    allowed: bool,
    minuteLeft: int, hourLeft: int, dayLeft: int,
    minuteRetry: int, hourRetry: int, dayRetry: int) {
    /** The single wait handed to the client. */
    function Wait(): int { Max(minuteRetry, Max(hourRetry, dayRetry)) }
  }

  function Used(key: DayKey, now: real): int {
    match Seen(key, now) case None => 0 case Some(n) => n
  }

  function WindowLevel(k: Keys, p: Policy, w: Window, now: real): real {
    Level(w, p.Limit(w), k.Bucket(w), now)
  }

  predicate WindowDenies(k: Keys, p: Policy, w: Window, units: nat, now: real) {
    p.Limit(w) > 0 && Short(WindowLevel(k, p, w, now), units)
  }

  predicate DayDenies(k: Keys, p: Policy, units: nat, now: real) {
    p.day > 0 && Used(k.day, now) + units > p.day
  }

  predicate Denies(k: Keys, p: Policy, units: nat, now: real) {
    WindowDenies(k, p, Minute, units, now) || WindowDenies(k, p, Hour, units, now) || DayDenies(k, p, units, now)
  }

  function ChargedWindow(k: Keys, p: Policy, w: Window, units: nat, now: real): Key {
    if p.Limit(w) > 0 then Charged(w, p.Limit(w), k.Bucket(w), units, now) else k.Bucket(w)
  }

  /** The counter keeps its expiry unless this charge created it. */
  function ChargedDay(k: Keys, p: Policy, units: nat, now: real): DayKey {
    if p.day == 0 then k.day
    else
      var after := Used(k.day, now) + units;
      Some(Timed(after, if after == units then Some(now + DayTtl(now) as real)
                        else if k.day.Some? then k.day.value.deadline else None))
  }

  function LeftInWindow(k: Keys, p: Policy, w: Window, spent: nat, now: real): int {
    if p.Limit(w) == 0 then -1 else (WindowLevel(k, p, w, now) - spent as real).Floor
  }

  function LeftToday(k: Keys, p: Policy, spent: nat, now: real): int {
    if p.day == 0 then -1 else Max(0, p.day - (Used(k.day, now) + spent))
  }

  function WindowWait(k: Keys, p: Policy, w: Window, units: nat, now: real): int {
    if p.Limit(w) == 0 then 0 else RetryAfter(w, p.Limit(w), WindowLevel(k, p, w, now), units)
  }

  function DayWait(k: Keys, p: Policy, units: nat, now: real): int {
    if DayDenies(k, p, units, now) then Max(1, Max(Ttl(k.day, now), DayTtl(now))) else 0
  }

  /** One atomic admission: all windows are charged, or none. */
  function Admit(k: Keys, p: Policy, units: nat, now: real): (Keys, Verdict) {
    if Denies(k, p, units, now) then
      (k, Verdict(false,
                  LeftInWindow(k, p, Minute, 0, now), LeftInWindow(k, p, Hour, 0, now), LeftToday(k, p, 0, now),
                  WindowWait(k, p, Minute, units, now), WindowWait(k, p, Hour, units, now), DayWait(k, p, units, now)))
    else
      (Keys(ChargedWindow(k, p, Minute, units, now), ChargedWindow(k, p, Hour, units, now), ChargedDay(k, p, units, now)),
       Verdict(true,
               LeftInWindow(k, p, Minute, units, now), LeftInWindow(k, p, Hour, units, now), LeftToday(k, p, units, now),
               0, 0, 0))
  }

  /** Every key is as an earlier admission under this policy left it, or absent. */
  predicate Sound(k: Keys, p: Policy, now: real) {
    && (p.minute > 0 ==> Settled(Minute, p.minute, k.minute, now))
    && (p.hour > 0 ==> Settled(Hour, p.hour, k.hour, now))
    && (p.day > 0 ==> Seen(k.day, now).Some? ==> 0 < Used(k.day, now) <= p.day)
  }

  /** Conservation: a denied call changes nothing; an admitted one lowers every configured
      bucket and raises the daily counter by exactly `units`, within the limits. */
  lemma AdmitConserves(k: Keys, p: Policy, units: nat, now: real)
    requires Sound(k, p, now) && units > 0
    ensures var (k', v) := Admit(k, p, units, now);
            && (v.allowed <==> !Denies(k, p, units, now))
            && (!v.allowed ==> k' == k)
            && (v.allowed ==>
                  && (forall w: Window :: p.Limit(w) > 0 ==>
                        WindowLevel(k', p, w, now) == WindowLevel(k, p, w, now) - units as real >= -TOLERANCE)
                  && (p.day > 0 ==> Used(k'.day, now) == Used(k.day, now) + units <= p.day))
            && (forall w: Window :: p.Limit(w) == 0 ==> k'.Bucket(w) == k.Bucket(w))
            && (p.day == 0 ==> k'.day == k.day)
            && Sound(k', p, now)
  {
    if !Denies(k, p, units, now) {
      if p.minute > 0 { ChargeIsExact(Minute, p.minute, k.minute, units, now); }
      if p.hour > 0 { ChargeIsExact(Hour, p.hour, k.hour, units, now); }
      if p.day > 0 {
        DayKeyEndsAtMidnight(now);
        DayBounds(now);
      }
    }
  }

  /** The window admits up to `left` more units, one more than that only within the tolerance, and
      nothing beyond. */
  predicate Offers(k: Keys, p: Policy, w: Window, left: int, now: real, more: nat) {
    && (more <= left ==> !WindowDenies(k, p, w, more, now))
    && (more == left + 1 ==> (WindowDenies(k, p, w, more, now) <==> WindowLevel(k, p, w, now) + 0.000001 < more as real))
    && (more > left + 1 ==> WindowDenies(k, p, w, more, now))
  }

  /** What a reply reports as left is what the next call finds, for the day exactly. Windows that are
      not configured report -1. */
  lemma LeftIsAvailable(k: Keys, p: Policy, units: nat, now: real, more: nat)
    requires Sound(k, p, now) && units > 0 && more > 0
    ensures var (k', v) := Admit(k, p, units, now);
            && (if p.minute > 0 then Offers(k', p, Minute, v.minuteLeft, now, more) else v.minuteLeft == -1)
            && (if p.hour > 0 then Offers(k', p, Hour, v.hourLeft, now, more) else v.hourLeft == -1)
            && (if p.day > 0 then v.dayLeft >= 0 && (more <= v.dayLeft <==> !DayDenies(k', p, more, now)) else v.dayLeft == -1)
  {
    AdmitConserves(k, p, units, now);
    var (k', v) := Admit(k, p, units, now);
    if p.minute > 0 { WindowLeft(k, k', p, Minute, if v.allowed then units else 0, now, more); }
    if p.hour > 0 { WindowLeft(k, k', p, Hour, if v.allowed then units else 0, now, more); }
  }

  lemma WindowLeft(k: Keys, k': Keys, p: Policy, w: Window, spent: nat, now: real, more: nat)
    requires p.Limit(w) > 0 && WindowLevel(k', p, w, now) == WindowLevel(k, p, w, now) - spent as real
    ensures Offers(k', p, w, LeftInWindow(k, p, w, spent, now), now, more)
  {
    var level := WindowLevel(k', p, w, now);
    assert level.Floor as real <= level < level.Floor as real + 1.0;
  }

  /** The waits of a denial name the limits that denied it, and an admission reports none. */
  lemma WaitsNameTheLimits(k: Keys, p: Policy, units: nat, now: real)
    requires Sound(k, p, now) && units > 0
    ensures var v := Admit(k, p, units, now).1;
            && (v.minuteRetry > 0 <==> WindowDenies(k, p, Minute, units, now))
            && (v.hourRetry > 0 <==> WindowDenies(k, p, Hour, units, now))
            && (v.dayRetry > 0 <==> DayDenies(k, p, units, now))
            && v.minuteRetry >= 0 && v.hourRetry >= 0 && v.dayRetry >= 0
            && (v.Wait() > 0 <==> !v.allowed)
  {
    forall w: Window | p.Limit(w) > 0 && Short(WindowLevel(k, p, w, now), units)
      ensures RetryAfter(w, p.Limit(w), WindowLevel(k, p, w, now), units) > 0
    {
      var level := WindowLevel(k, p, w, now);
      QuotientSign(units as real - level, p.Limit(w) as real / w.Interval());
      CeilBounds((units as real - level) / (p.Limit(w) as real / w.Interval()));
    }
  }

  lemma SoundFlows(k: Keys, p: Policy, t0: real, t1: real)
    requires Sound(k, p, t0) && t0 <= t1
    ensures Sound(k, p, t1)
  {
    if p.minute > 0 { LevelFlows(Minute, p.minute, k.minute, t0, t1); }
    if p.hour > 0 { LevelFlows(Hour, p.hour, k.hour, t0, t1); }
  }

  // ---- runs ----

  /** A consume or reserve call reaching the quota keys. `skipped` is a reserve call that
      found its pathname already reserved: it returns before touching the quota. */
  datatype Call = Call(at: real, units: nat, skipped: bool)

  predicate InOrder(calls: seq<Call>, start: real) {
    calls != [] ==> start <= calls[0].at && calls[0].units > 0 && InOrder(calls[1..], calls[0].at)
  }

  function After(k: Keys, p: Policy, c: Call): Keys {
    if c.skipped then k else Admit(k, p, c.units, c.at).0
  }

  function Spends(k: Keys, p: Policy, c: Call): nat {
    if c.skipped || Denies(k, p, c.units, c.at) then 0 else c.units
  }

  function EndOf(k: Keys, p: Policy, calls: seq<Call>): Keys
    decreases calls
  {
    if calls == [] then k else EndOf(After(k, p, calls[0]), p, calls[1..])
  }

  /** The units a run charges at instants within [from, to]. */
  function SpentWithin(k: Keys, p: Policy, calls: seq<Call>, from: real, to: real): nat
    decreases calls
  {
    if calls == [] then 0
    else (if from <= calls[0].at <= to then Spends(k, p, calls[0]) else 0)
         + SpentWithin(After(k, p, calls[0]), p, calls[1..], from, to)
  }

  lemma StepKeepsSound(k: Keys, p: Policy, now: real, c: Call)
    requires Sound(k, p, now) && now <= c.at && c.units > 0
    ensures Sound(k, p, c.at) && Sound(After(k, p, c), p, c.at)
  {
    SoundFlows(k, p, now, c.at);
    AdmitConserves(k, p, c.units, c.at);
  }

  lemma StepCharges(k: Keys, p: Policy, w: Window, now: real, c: Call)
    requires Sound(k, p, now) && now <= c.at && c.units > 0 && p.Limit(w) > 0
    ensures Sound(After(k, p, c), p, c.at)
    ensures WindowLevel(After(k, p, c), p, w, c.at) + Spends(k, p, c) as real == WindowLevel(k, p, w, c.at)
  {
    StepKeepsSound(k, p, now, c);
    AdmitConserves(k, p, c.units, c.at);
  }

  /** What a call takes out of a configured bucket between `now` and its own instant. */
  lemma StepLevel(k: Keys, p: Policy, w: Window, now: real, c: Call)
    requires Sound(k, p, now) && now <= c.at && c.units > 0 && p.Limit(w) > 0
    ensures WindowLevel(After(k, p, c), p, w, c.at) + Spends(k, p, c) as real
         <= WindowLevel(k, p, w, now) + Accrued(w, p.Limit(w), c.at - now)
  {
    StepCharges(k, p, w, now, c);
    LevelFlows(w, p.Limit(w), k.Bucket(w), now, c.at);
  }

  lemma {:induction false} BudgetUntil(k: Keys, p: Policy, w: Window, now: real, calls: seq<Call>, from: real, to: real)
    requires Sound(k, p, now) && p.Limit(w) > 0 && InOrder(calls, now)
    requires from <= now <= to
    ensures SpentWithin(k, p, calls, from, to) as real
         <= WindowLevel(k, p, w, now) + Accrued(w, p.Limit(w), to - now) + TOLERANCE
    decreases calls
  {
    LevelFlows(w, p.Limit(w), k.Bucket(w), now, now);
    AccruedAdds(w, p.Limit(w), to - now, 0.0);
    if calls != [] {
      var head := calls[0];
      if head.at <= to {
        StepCharges(k, p, w, now, head);
        StepLevel(k, p, w, now, head);
        BudgetUntil(After(k, p, head), p, w, head.at, calls[1..], from, to);
        AccruedAdds(w, p.Limit(w), head.at - now, to - head.at);
      } else {
        NothingAfter(After(k, p, head), p, head.at, calls[1..], from, to);
      }
    }
  }

  lemma {:induction false} NothingAfter(k: Keys, p: Policy, now: real, calls: seq<Call>, from: real, to: real)
    requires InOrder(calls, now) && to < now
    ensures SpentWithin(k, p, calls, from, to) == 0
    decreases calls
  {
    if calls != [] {
      NothingAfter(After(k, p, calls[0]), p, calls[0].at, calls[1..], from, to);
    }
  }

  /** What a window lets through in a span: a full bucket, the refill at capacity per sixty seconds
      or per hour, and the tolerance once. */
  function WindowBudget(w: Window, capacity: nat, span: real): real {
    match w
    case Minute => capacity as real + span * capacity as real / 60.0 + 0.000001
    case Hour => capacity as real + span * capacity as real / 3600.0 + 0.000001
  }

  lemma BudgetIs(w: Window, capacity: nat, span: real)
    ensures WindowBudget(w, capacity, span) == capacity as real + Accrued(w, capacity, span) + TOLERANCE
  {}

  /** The window bound: whatever the interleaving of consume and reserve calls, the units
      charged in [from, to] are at most one full bucket, the refill of that span, and the
      tolerance once. It holds for the minute and the hour bucket together. */
  lemma {:induction false} WindowBound(k: Keys, p: Policy, w: Window, now: real, calls: seq<Call>, from: real, to: real)
    requires Sound(k, p, now) && p.Limit(w) > 0 && InOrder(calls, now) && from <= to
    ensures SpentWithin(k, p, calls, from, to) as real <= WindowBudget(w, p.Limit(w), to - from)
    decreases calls
  {
    BudgetIs(w, p.Limit(w), to - from);
    AccruedAdds(w, p.Limit(w), to - from, 0.0);
    if calls != [] {
      var head := calls[0];
      if head.at < from {
        StepKeepsSound(k, p, now, head);
        WindowBound(After(k, p, head), p, w, head.at, calls[1..], from, to);
      } else if head.at <= to {
        SoundFlows(k, p, now, head.at);
        LevelFlows(w, p.Limit(w), k.Bucket(w), head.at, head.at);
        BudgetUntil(k, p, w, head.at, calls, from, to);
        AccruedAdds(w, p.Limit(w), head.at - from, to - head.at);
      } else {
        NothingAfter(k, p, head.at, calls, from, to);
      }
    }
  }

  // ---- the fast form refines the simple one ----

  /** The simple form: two buckets that never expire and refill continuously, also on calls
      that are denied, beside the same daily counter. */
  datatype Plain = Plain(minute: Continuous, hour: Continuous, day: DayKey) {
    function Bucket(w: Window): Continuous { if w.Minute? then minute else hour }
  }

  function PlainLevel(s: Plain, p: Policy, w: Window, now: real): real {
    s.Bucket(w).LevelAt(w, p.Limit(w), now)
  }

  predicate PlainDenies(s: Plain, p: Policy, units: nat, now: real) {
    || (p.minute > 0 && Short(PlainLevel(s, p, Minute, now), units))
    || (p.hour > 0 && Short(PlainLevel(s, p, Hour, now), units))
    || (p.day > 0 && Used(s.day, now) + units > p.day)
  }

  function PlainAdmit(s: Plain, p: Policy, units: nat, now: real): (Plain, Verdict) {
    var minute := PlainLevel(s, p, Minute, now);
    var hour := PlainLevel(s, p, Hour, now);
    var denied := PlainDenies(s, p, units, now);
    var taken: nat := if denied then 0 else units;
    var day := Keys(None, None, s.day);
    (Plain(Continuous(minute - taken as real, now), Continuous(hour - taken as real, now),
           if denied then s.day else ChargedDay(day, p, units, now)),
     Verdict(!denied,
             if p.minute == 0 then -1 else (minute - taken as real).Floor,
             if p.hour == 0 then -1 else (hour - taken as real).Floor,
             LeftToday(day, p, taken, now),
             if p.minute == 0 || !denied then 0 else RetryAfter(Minute, p.minute, minute, units),
             if p.hour == 0 || !denied then 0 else RetryAfter(Hour, p.hour, hour, units),
             if !denied then 0 else DayWait(day, p, units, now)))
  }

  predicate Represents(k: Keys, s: Plain, p: Policy, now: real) {
    && Agrees(Minute, p.minute, k.minute, s.minute, now)
    && Agrees(Hour, p.hour, k.hour, s.hour, now)
    && k.day == s.day
    && Sound(k, p, now)
  }

  /** One admission of the fast form is one admission of the simple form. */
  lemma AdmitRefines(k: Keys, s: Plain, p: Policy, units: nat, now: real)
    requires Represents(k, s, p, now) && units > 0
    ensures Admit(k, p, units, now).1 == PlainAdmit(s, p, units, now).1
    ensures Represents(Admit(k, p, units, now).0, PlainAdmit(s, p, units, now).0, p, now)
  {
    AdmitConserves(k, p, units, now);
    var (k', v) := Admit(k, p, units, now);
    var s' := PlainAdmit(s, p, units, now).0;
    if p.minute > 0 { LevelFlows(Minute, p.minute, k.minute, now, now); LevelFlows(Minute, p.minute, k'.minute, now, now); }
    if p.hour > 0 { LevelFlows(Hour, p.hour, k.hour, now, now); LevelFlows(Hour, p.hour, k'.hour, now, now); }
    assert Agrees(Minute, p.minute, k'.minute, s'.minute, now);
    assert Agrees(Hour, p.hour, k'.hour, s'.hour, now);
  }

  function Verdicts(k: Keys, p: Policy, calls: seq<Call>): seq<Verdict>
    decreases calls
  {
    if calls == [] then []
    else (if calls[0].skipped then [] else [Admit(k, p, calls[0].units, calls[0].at).1])
         + Verdicts(After(k, p, calls[0]), p, calls[1..])
  }

  function PlainVerdicts(s: Plain, p: Policy, calls: seq<Call>): seq<Verdict>
    decreases calls
  {
    if calls == [] then []
    else if calls[0].skipped then PlainVerdicts(s, p, calls[1..])
    else
      var (s', v) := PlainAdmit(s, p, calls[0].units, calls[0].at);
      [v] + PlainVerdicts(s', p, calls[1..])
  }

  /** On every run the expiring, lazily refilled keys report exactly what never-expiring,
      continuously refilled buckets report: decisions, remaining units and waits. */
  lemma {:induction false} LazyRefinesContinuous(k: Keys, s: Plain, p: Policy, now: real, calls: seq<Call>)
    requires Represents(k, s, p, now) && InOrder(calls, now)
    ensures Verdicts(k, p, calls) == PlainVerdicts(s, p, calls)
    decreases calls
  {
    if calls != [] {
      var head := calls[0];
      AgreementFlows(Minute, p.minute, k.minute, s.minute, now, head.at);
      AgreementFlows(Hour, p.hour, k.hour, s.hour, now, head.at);
      SoundFlows(k, p, now, head.at);
      if head.skipped {
        LazyRefinesContinuous(k, s, p, head.at, calls[1..]);
      } else {
        AdmitRefines(k, s, p, head.units, head.at);
        LazyRefinesContinuous(After(k, p, head), PlainAdmit(s, p, head.units, head.at).0, p, head.at, calls[1..]);
      }
    }
  }

  /** A fresh identity has no keys; the simple form starts it with full buckets. */
  lemma FreshRepresentsFull(p: Policy, now: real)
    ensures Represents(Keys(None, None, None),
                       Plain(Continuous(p.minute as real, now), Continuous(p.hour as real, now), None), p, now)
  {}

  // ---- the daily cap ----

  /** On a whole-second clock a visible counter belongs to the current UTC day. */
  predicate DayAligned(key: DayKey, now: real) {
    Seen(key, now).Some? ==> key.value.deadline == Some((DAY * (DayOf(now) + 1)) as real)
  }

  predicate WholeSeconds(calls: seq<Call>) {
    forall c <- calls :: WholeSecond(c.at)
  }

  /** The units a run charges on UTC day `d`. */
  function SpentOnDay(k: Keys, p: Policy, calls: seq<Call>, d: int): nat
    decreases calls
  {
    if calls == [] then 0
    else (if DayOf(calls[0].at) == d then Spends(k, p, calls[0]) else 0)
         + SpentOnDay(After(k, p, calls[0]), p, calls[1..], d)
  }

  function LastInstant(calls: seq<Call>, now: real): real {
    if calls == [] then now else calls[|calls| - 1].at
  }

  lemma DaysAdvance(t0: real, t1: real)
    requires t0 <= t1
    ensures DayOf(t0) <= DayOf(t1)
  {
    DayBounds(t0);
    DayBounds(t1);
  }

  /** Within a day the counter carries over; on a later day it reads as absent. */
  lemma DayFlows(key: DayKey, t0: real, t1: real)
    requires t0 <= t1 && DayAligned(key, t0)
    ensures DayAligned(key, t1)
    ensures Used(key, t1) == if DayOf(t0) == DayOf(t1) then Used(key, t0) else 0
  {
    DayBounds(t0);
    DayBounds(t1);
    DaysAdvance(t0, t1);
  }

  lemma StepMeters(k: Keys, p: Policy, now: real, c: Call)
    requires p.day > 0 && Sound(k, p, now) && DayAligned(k.day, now) && now <= c.at && c.units > 0 && WholeSecond(c.at)
    ensures var k' := After(k, p, c);
            && Sound(k', p, c.at) && DayAligned(k'.day, c.at)
            && Used(k'.day, c.at) == (if DayOf(now) == DayOf(c.at) then Used(k.day, now) else 0) + Spends(k, p, c)
            && Used(k'.day, c.at) <= p.day
  {
    StepKeepsSound(k, p, now, c);
    DayFlows(k.day, now, c.at);
    AdmitConserves(k, p, c.units, c.at);
    DayKeyEndsAtMidnight(c.at);
    DayBounds(c.at);
  }

  /** The hard UTC cap: on a whole-second clock no day is charged more than its limit, and
      the counter always reads exactly what was charged on the current day. */
  lemma {:induction false} DailyCap(k: Keys, p: Policy, now: real, calls: seq<Call>, d: int)
    requires p.day > 0 && Sound(k, p, now) && DayAligned(k.day, now)
    requires InOrder(calls, now) && WholeSeconds(calls)
    ensures SpentOnDay(k, p, calls, d) + (if DayOf(now) == d then Used(k.day, now) else 0) <= p.day
    ensures var end := LastInstant(calls, now);
            && Used(EndOf(k, p, calls).day, end)
               == SpentOnDay(k, p, calls, DayOf(end)) + (if DayOf(now) == DayOf(end) then Used(k.day, now) else 0)
    decreases calls
  {
    if calls != [] {
      var head, tail := calls[0], calls[1..];
      var k' := After(k, p, head);
      StepMeters(k, p, now, head);
      DaysAdvance(now, head.at);
      DailyCap(k', p, head.at, tail, d);
      assert LastInstant(tail, head.at) == LastInstant(calls, now);
      var end := LastInstant(calls, now);
      LastIsLate(tail, head.at);
      DaysAdvance(head.at, end);
      DayFlows(k.day, now, head.at);
      if d < DayOf(head.at) {
        NoEarlierDay(k', p, head.at, tail, d);
      }
    }
  }

  lemma {:induction false} LastIsLate(calls: seq<Call>, now: real)
    requires InOrder(calls, now)
    ensures now <= LastInstant(calls, now)
    decreases calls
  {
    if calls != [] {
      LastIsLate(calls[1..], calls[0].at);
      assert LastInstant(calls[1..], calls[0].at) == LastInstant(calls, now);
    }
  }

  lemma {:induction false} NoEarlierDay(k: Keys, p: Policy, now: real, calls: seq<Call>, d: int)
    requires InOrder(calls, now) && d < DayOf(now)
    ensures SpentOnDay(k, p, calls, d) == 0
    decreases calls
  {
    if calls != [] {
      DaysAdvance(now, calls[0].at);
      NoEarlierDay(After(k, p, calls[0]), p, calls[0].at, calls[1..], d);
    }
  }

  /** On any clock a visible counter ends within a second behind a midnight: the coming one,
      or in the first second of a day the one just past. */
  predicate DayBanded(key: DayKey, now: real) {
    Seen(key, now).Some? ==>
      && key.value.deadline.Some?
      && var midnight := (DAY * (DayOf(now) + 1)) as real;
         || midnight <= key.value.deadline.value < midnight + 1.0
         || key.value.deadline.value < midnight - DAY as real + 1.0
  }

  lemma BandFlows(key: DayKey, t0: real, t1: real)
    requires t0 <= t1 && DayBanded(key, t0)
    ensures DayBanded(key, t1)
  {
    DayBounds(t0);
    DayBounds(t1);
    DaysAdvance(t0, t1);
    if Seen(key, t1).Some? && DayOf(t0) < DayOf(t1) { DaysApart(t0, t1); }
  }

  lemma DaysApart(t0: real, t1: real)
    requires DayOf(t0) < DayOf(t1) && t1 < (DAY * (DayOf(t0) + 1)) as real + 1.0
    ensures DayOf(t1) == DayOf(t0) + 1
  {
    DayBounds(t1);
  }

  lemma StepKeepsBand(k: Keys, p: Policy, now: real, c: Call)
    requires DayBanded(k.day, now) && now <= c.at && c.units > 0
    requires p.day > 0 && Sound(k, p, now)
    ensures DayBanded(k.day, c.at) && DayBanded(After(k, p, c).day, c.at)
  {
    BandFlows(k.day, now, c.at);
    DayKeyEndsAtMidnight(c.at);
  }

  /** The UTC cap on any clock: from one second behind a day's start to its end no more than the
      limit is charged. */
  lemma {:induction false} DailyCapBehindFirstSecond(k: Keys, p: Policy, now: real, calls: seq<Call>, d: int, to: real)
    requires p.day > 0 && Sound(k, p, now) && DayBanded(k.day, now) && InOrder(calls, now)
    requires var from := (DAY * d) as real + 1.0; from <= to < (DAY * (d + 1)) as real
    ensures var from := (DAY * d) as real + 1.0;
            SpentWithin(k, p, calls, from, to) + (if from <= now <= to then Used(k.day, now) else 0) <= p.day
    decreases calls
  {
    if calls != [] {
      var head, from := calls[0], (DAY * d) as real + 1.0;
      StepKeepsSound(k, p, now, head);
      StepKeepsBand(k, p, now, head);
      if head.at <= to {
        DailyCapBehindFirstSecond(After(k, p, head), p, head.at, calls[1..], d, to);
        if from <= head.at {
          AdmitConserves(k, p, head.units, head.at);
          if from <= now { SameDayKey(k.day, now, head.at, d); }
        }
      } else {
        NothingAfter(k, p, head.at, calls, from, to);
      }
    }
  }

  /** A counter visible behind the first second of a day stays visible to the day's end. */
  lemma SameDayKey(key: DayKey, t0: real, t1: real, d: int)
    requires DayBanded(key, t0) && (DAY * d) as real + 1.0 <= t0 <= t1 < (DAY * (d + 1)) as real
    ensures Used(key, t1) == Used(key, t0)
  {
    IsDay(t0, d);
  }

  lemma IsDay(t: real, d: int)
    requires (DAY * d) as real <= t < (DAY * (d + 1)) as real
    ensures DayOf(t) == d
  {
    DayBounds(t);
  }

  /** A counter that still has units left was carried into the day and ends within it. */
  predicate CarriedOpen(k: Keys, p: Policy, now: real) {
    && Seen(k.day, now).Some? && Used(k.day, now) < p.day
    && k.day.value.deadline.Some? && k.day.value.deadline.value < (DAY * (DayOf(now) + 1)) as real
  }

  /** The counter seen now, if any, is the one of the current day. */
  predicate OwnCounter(k: Keys, now: real) {
    Seen(k.day, now).Some? ==>
      k.day.value.deadline.Some? && k.day.value.deadline.value >= (DAY * (DayOf(now) + 1)) as real
  }

  /** What of a day's limit is known to be used up. */
  function UsedOfOwn(k: Keys, now: real): int { if OwnCounter(k, now) then Used(k.day, now) else 0 }

  lemma StepStaysClosed(k: Keys, p: Policy, now: real, c: Call)
    requires p.day > 0 && Sound(k, p, now) && DayBanded(k.day, now) && !CarriedOpen(k, p, now)
    requires now <= c.at && c.units > 0 && DayOf(c.at) == DayOf(now)
    ensures var k' := After(k, p, c);
            && Sound(k', p, c.at) && DayBanded(k'.day, c.at) && !CarriedOpen(k', p, c.at)
            && Spends(k, p, c) + UsedOfOwn(k, now) <= UsedOfOwn(k', c.at)
  {
    StepKeepsSound(k, p, now, c);
    StepKeepsBand(k, p, now, c);
    AdmitConserves(k, p, c.units, c.at);
    DayKeyEndsAtMidnight(c.at);
    DayBounds(c.at);
  }

  /** As long as no open counter was carried into it, a day is charged no more than its limit,
      whatever the other limits are. */
  lemma {:induction false} ClosedDayIsCapped(k: Keys, p: Policy, now: real, calls: seq<Call>)
    requires p.day > 0 && Sound(k, p, now) && DayBanded(k.day, now) && !CarriedOpen(k, p, now) && InOrder(calls, now)
    ensures SpentOnDay(k, p, calls, DayOf(now)) + UsedOfOwn(k, now) <= p.day
    decreases calls
  {
    if calls != [] {
      var head := calls[0];
      DaysAdvance(now, head.at);
      if DayOf(head.at) == DayOf(now) {
        StepStaysClosed(k, p, now, head);
        ClosedDayIsCapped(After(k, p, head), p, head.at, calls[1..]);
      } else {
        NoEarlierDay(k, p, head.at, calls, DayOf(now));
      }
    }
  }

  /** The daily counter of a policy without other limits, seen at the end of its life. */
  lemma OpenDayOverflows(k: Keys, p: Policy, now: real) returns (calls: seq<Call>)
    requires p.minute == p.hour == 0 && p.day > 0 && Sound(k, p, now) && CarriedOpen(k, p, now)
    ensures InOrder(calls, now) && SpentOnDay(k, p, calls, DayOf(now)) > p.day
  {
    var end := k.day.value.deadline.value;
    var left := p.day - Used(k.day, now);
    var c1, c2 := Call(now, left, false), Call(end, p.day, false);
    DayBounds(now);
    IsDay(end, DayOf(now));
    var k1 := After(k, p, c1);
    assert k1.day.value.deadline == Some(end) && Seen(k1.day, end).None?;
    assert Spends(k, p, c1) == left && Spends(k1, p, c2) == p.day;
    assert SpentOnDay(After(k1, p, c2), p, [], DayOf(now)) == 0;
    assert [c2][1..] == [];
    assert SpentOnDay(k1, p, [c2], DayOf(now)) == p.day;
    calls := [c1] + [c2];
    assert calls[1..] == [c2];
    assert InOrder([c2], now);
  }

  /** The daily cap exactly, on any clock. Seen from an instant of a day, no run of a policy with
      a daily limit only can charge the rest of that day more than the limit, if and only if no
      open counter was carried into the day. */
  lemma DailyCapExactly(k: Keys, p: Policy, now: real)
    requires p.minute == p.hour == 0 && p.day > 0 && Sound(k, p, now) && DayBanded(k.day, now)
    ensures (forall calls :: InOrder(calls, now) ==> SpentOnDay(k, p, calls, DayOf(now)) <= p.day) <==> !CarriedOpen(k, p, now)
  {
    if CarriedOpen(k, p, now) {
      var calls := OpenDayOverflows(k, p, now);
      assert InOrder(calls, now) && SpentOnDay(k, p, calls, DayOf(now)) > p.day;
    } else {
      forall calls | InOrder(calls, now)
        ensures SpentOnDay(k, p, calls, DayOf(now)) <= p.day
      {
        ClosedDayIsCapped(k, p, now, calls);
        AtLeastNothing(k, p, now);
      }
    }
  }

  lemma AtLeastNothing(k: Keys, p: Policy, now: real)
    requires p.day > 0 && Sound(k, p, now)
    ensures UsedOfOwn(k, now) >= 0
  {}

  /** One admitted call on the daily counter alone. */
  lemma DaySpend(day: DayKey, limit: nat, c: Call, tail: seq<Call>, d: int, after: DayKey)
    requires !c.skipped && limit > 0 && Used(day, c.at) + c.units <= limit
    requires after == ChargedDay(Keys(None, None, day), Policy(0, 0, limit), c.units, c.at)
    ensures SpentOnDay(Keys(None, None, day), Policy(0, 0, limit), [c] + tail, d)
         == (if DayOf(c.at) == d then c.units else 0) + SpentOnDay(Keys(None, None, after), Policy(0, 0, limit), tail, d)
  {
    assert ([c] + tail)[1..] == tail;
  }

  /** The cap passed at noon: with a limit of two, a counter created half a second past midnight
      takes a unit just behind the next midnight, and the counter that follows it two more. */
  lemma DailyCapNeedsWholeSeconds()
    ensures var calls := [Call(0.5, 1, false)] + ([Call(86400.25, 1, false)] + ([Call(129600.0, 2, false)] + []));
            InOrder(calls, 0.0) && SpentOnDay(Keys(None, None, None), Policy(0, 0, 2), calls, 1) == 3
  {
    var c0, c1, c2 := Call(0.5, 1, false), Call(86400.25, 1, false), Call(129600.0, 2, false);
    CarriedCounter([c1] + ([c2] + []));
    LateCharges(c1, c2);
    ThreeInOrder(c0, c1, c2);
  }

  lemma CarriedCounter(tail: seq<Call>)
    ensures SpentOnDay(Keys(None, None, None), Policy(0, 0, 2), [Call(0.5, 1, false)] + tail, 1)
         == SpentOnDay(Keys(None, None, Some(Timed(1, Some(86400.5)))), Policy(0, 0, 2), tail, 1)
  {
    IsDay(0.5, 0);
    CeilBounds(86399.5);
    DaySpend(None, 2, Call(0.5, 1, false), tail, 1, Some(Timed(1, Some(86400.5))));
  }

  lemma LateCharges(c1: Call, c2: Call)
    requires c1 == Call(86400.25, 1, false) && c2 == Call(129600.0, 2, false)
    ensures SpentOnDay(Keys(None, None, Some(Timed(1, Some(86400.5)))), Policy(0, 0, 2), [c1] + ([c2] + []), 1) == 3
  {
    IsDay(86400.25, 1);
    IsDay(129600.0, 1);
    var k1, k2 := Some(Timed(1, Some(86400.5))), Some(Timed(2, Some(86400.5)));
    DaySpend(k1, 2, c1, [c2] + [], 1, k2);
    DaySpend(k2, 2, c2, [], 1, ChargedDay(Keys(None, None, k2), Policy(0, 0, 2), 2, 129600.0));
  }

  lemma ThreeInOrder(c0: Call, c1: Call, c2: Call)
    requires 0.0 <= c0.at <= c1.at <= c2.at && c0.units > 0 && c1.units > 0 && c2.units > 0
    ensures InOrder([c0] + ([c1] + ([c2] + [])), 0.0)
  {
    assert ([c2] + [])[1..] == [];
    assert InOrder([c2] + [], c1.at);
    assert ([c1] + ([c2] + []))[1..] == [c2] + [];
    assert InOrder([c1] + ([c2] + []), c0.at);
    assert ([c0] + ([c1] + ([c2] + [])))[1..] == [c1] + ([c2] + []);
  }

  /** Without the whole-second clock: through one lifetime of the counter key, its value is
      what was admitted in that lifetime and stays within the limit. */
  lemma {:induction false} LifetimeCap(k: Keys, p: Policy, now: real, calls: seq<Call>)
    requires p.day > 0 && Sound(k, p, now) && InOrder(calls, now)
    requires Seen(k.day, now).Some?
    requires k.day.value.deadline.None? || LastInstant(calls, now) < k.day.value.deadline.value
    ensures var end := LastInstant(calls, now);
            Used(EndOf(k, p, calls).day, end) == Used(k.day, now) + SpentWithin(k, p, calls, now, end) <= p.day
    decreases calls
  {
    if calls != [] {
      var head, tail := calls[0], calls[1..];
      var end := LastInstant(calls, now);
      assert LastInstant(tail, head.at) == end;
      LastIsLate(tail, head.at);
      StepKeepsSound(k, p, now, head);
      AdmitConserves(k, p, head.units, head.at);
      LifetimeCap(After(k, p, head), p, head.at, tail);
      SameSpan(After(k, p, head), p, head.at, tail, now, head.at, end);
    }
  }

  lemma {:induction false} SameSpan(k: Keys, p: Policy, now: real, calls: seq<Call>, from: real, later: real, to: real)
    requires InOrder(calls, now) && from <= later <= now
    ensures SpentWithin(k, p, calls, from, to) == SpentWithin(k, p, calls, later, to)
    decreases calls
  {
    if calls != [] {
      SameSpan(After(k, p, calls[0]), p, calls[0].at, calls[1..], from, later, to);
    }
  }

  // ---- Retry-After ----

  /** A denied call repeated once the reported wait has passed, nothing else charged in
      between, on any clock: it is admitted if and only if it asks for no more than every
      configured limit and the daily counter, if it was the reason, has expired. */
  lemma RetryAfterIsSound(k: Keys, p: Policy, units: nat, now: real, later: real)
    requires Sound(k, p, now) && units > 0 && Denies(k, p, units, now)
    requires now + Admit(k, p, units, now).1.Wait() as real <= later
    ensures !Denies(k, p, units, later) <==>
              p.Fits(units) && !(DayDenies(k, p, units, now) && Seen(k.day, later).Some?)
  {
    WaitIsPositive(k, p, units, now);
    if p.minute > 0 { WaitSuffices(Minute, p.minute, k.minute, units, now, later); }
    if p.hour > 0 { WaitSuffices(Hour, p.hour, k.hour, units, now, later); }
  }

  /** The reported daily wait reaches the coming midnight. */
  lemma WaitReachesMidnight(k: Keys, p: Policy, units: nat, now: real)
    requires DayDenies(k, p, units, now)
    ensures now + Admit(k, p, units, now).1.Wait() as real >= (DAY * (DayOf(now) + 1)) as real
  {
    DayKeyEndsAtMidnight(now);
    assert DayTtl(now) <= DayWait(k, p, units, now) <= Admit(k, p, units, now).1.Wait();
  }

  /** The daily wait is the least number of seconds, at least one, that reaches both midnight and the
      counter's end, the latter up to half a second. */
  lemma DayWaitIsLeast(k: Keys, p: Policy, units: nat, now: real, n: int)
    requires DayDenies(k, p, units, now) && (Seen(k.day, now).Some? ==> k.day.value.deadline.Some?)
    ensures n >= DayWait(k, p, units, now) <==>
              && n >= 1 && now + n as real >= (86400 * (DayOf(now) + 1)) as real
              && (Seen(k.day, now).Some? ==> now + n as real + 0.5 > k.day.value.deadline.value)
  {
    DayBounds(now);
    CeilBounds((86400 * (DayOf(now) + 1)) as real - now);
  }

  /** On a whole second, with a counter created on one, the daily wait ends exactly at midnight. */
  lemma DayWaitIsExact(k: Keys, p: Policy, units: nat, now: real)
    requires DayDenies(k, p, units, now) && DayAligned(k.day, now) && WholeSecond(now)
    ensures now + DayWait(k, p, units, now) as real == (86400 * (DayOf(now) + 1)) as real
  {
    DayKeyEndsAtMidnight(now);
    if Seen(k.day, now).Some? {
      var left := 86400 * (DayOf(now) + 1) - now.Floor;
      assert k.day.value.deadline.value - now == left as real;
      assert (left as real + 0.5).Floor == left;
    }
  }

  /** When the counter was created on a whole second, whatever the clock reads now, the reported
      wait is enough exactly for the units that fit. */
  lemma RetryAfterOnWholeSeconds(k: Keys, p: Policy, units: nat, now: real, later: real)
    requires Sound(k, p, now) && units > 0 && Denies(k, p, units, now)
    requires p.day > 0 ==> DayAligned(k.day, now)
    requires now + Admit(k, p, units, now).1.Wait() as real <= later
    ensures !Denies(k, p, units, later) <==> p.Fits(units)
  {
    RetryAfterIsSound(k, p, units, now, later);
    if DayDenies(k, p, units, now) { WaitReachesMidnight(k, p, units, now); }
  }

  /** On any clock one second more is always enough for the units that fit. */
  lemma RetryAfterPlusOneSecond(k: Keys, p: Policy, units: nat, now: real, later: real)
    requires Sound(k, p, now) && units > 0 && Denies(k, p, units, now)
    requires p.day > 0 ==> DayBanded(k.day, now)
    requires now + Admit(k, p, units, now).1.Wait() as real + 1.0 <= later
    ensures !Denies(k, p, units, later) <==> p.Fits(units)
  {
    RetryAfterIsSound(k, p, units, now, later);
    if DayDenies(k, p, units, now) { WaitReachesMidnight(k, p, units, now); }
  }

  /** What these lemmas assume of the keys holds after every run from no keys. */
  lemma {:induction false} RunStaysSound(k: Keys, p: Policy, now: real, calls: seq<Call>)
    requires Sound(k, p, now) && InOrder(calls, now)
    ensures var k', end := EndOf(k, p, calls), LastInstant(calls, now);
            && Sound(k', p, end)
            && (p.day > 0 && DayBanded(k.day, now) ==> DayBanded(k'.day, end))
            && (p.day > 0 && DayAligned(k.day, now) && WholeSeconds(calls) ==> DayAligned(k'.day, end))
    decreases calls
  {
    if calls != [] {
      var head, tail := calls[0], calls[1..];
      StepKeepsSound(k, p, now, head);
      if p.day > 0 && DayBanded(k.day, now) { StepKeepsBand(k, p, now, head); }
      if p.day > 0 && DayAligned(k.day, now) && WholeSeconds(calls) { StepMeters(k, p, now, head); }
      RunStaysSound(After(k, p, head), p, head.at, tail);
      assert LastInstant(tail, head.at) == LastInstant(calls, now);
    }
  }

  /** A call for which the reported wait is too short: a counter created half a second past
      midnight outlives the next midnight, and both reported times round that half second away. */
  lemma RetryAfterTooShort()
    ensures var p := Policy(0, 0, 1);
            var k := Admit(Keys(None, None, None), p, 1, 0.5).0;
            var now := 86395.1;
            && Sound(k, p, now) && p.Fits(1) && Denies(k, p, 1, now)
            && Denies(k, p, 1, now + Admit(k, p, 1, now).1.Wait() as real)
  {
    DayKeyEndsAtMidnight(0.5);
    DayBounds(0.5);
    DayBounds(86395.1);
    assert DayOf(0.5) == 0 && DayOf(86395.1) == 0;
    CeilBounds(86399.5);
    CeilBounds(4.9);
    var p := Policy(0, 0, 1);
    var k := Admit(Keys(None, None, None), p, 1, 0.5).0;
    assert k.day == Some(Timed(1, Some(86400.5)));
    assert Ttl(k.day, 86395.1) == 5 && DayTtl(86395.1) == 5;
  }

  lemma WaitIsPositive(k: Keys, p: Policy, units: nat, now: real)
    requires Sound(k, p, now) && units > 0 && Denies(k, p, units, now)
    ensures Admit(k, p, units, now).1.Wait() >= 0
  {
    forall w: Window | p.Limit(w) > 0
      ensures WindowWait(k, p, w, units, now) >= 0
    {
      var level := WindowLevel(k, p, w, now);
      LevelFlows(w, p.Limit(w), k.Bucket(w), now, now);
      if Short(level, units) {
        QuotientSign(units as real - level, p.Limit(w) as real / w.Interval());
        CeilBounds((units as real - level) / (p.Limit(w) as real / w.Interval()));
      }
    }
    assert WindowWait(k, p, Minute, units, now) >= 0;
  }
}
