/** The broker client and the contract worker: what one delivery does to the broker's copies
    and to the contract, whatever fails on the way. */
module Worker {
  import opened Wrappers
  import opened Delivery
  import Contracts

  /** A publication is confirmed, accepted without confirmation, or refused. */
  datatype PublishOutcome = Confirmed | Unconfirmed | NotAccepted

  /** An acknowledgement arrives, arrives but raises, or fails. */
  datatype AckOutcome = Acked | AckedRaising | NotAcked

  class Broker {
    var s: State
    /** The steps taken so far. */
    ghost var log: seq<Step>

    ghost predicate Valid()
      reads this
    {
      Inv(s)
    }

    constructor (max: nat)
      requires max >= 1
      ensures Valid() && s == Empty(max) && log == []
    {
      s, log := Empty(max), [];
    }

    method Perform(t: Step)
      requires Valid() && Enabled(s, t)
      modifies this
      ensures Valid() && s == Take(old(s), t) && log == old(log) + [t]
    {
      StepKeepsInv(s, t);
      s := Take(s, t);
      log := log + [t];
    }

    /** Publish-confirm of a message held as copy `c`; false when the client sees an exception. */
    method Publish(c: CopyId, m: Message, route: Route, o: PublishOutcome) returns (ok: bool)
      requires Valid() && m.job in s.enqueued && 1 <= m.attempt <= s.max && RouteFits(s.max, m, route)
      requires IsUnacked(s, c) ==> s.copies[c].message == m
      requires route.Contention? && IsUnacked(s, c) ==> s.copies[c].place == Unacked(Held)
      modifies this
      ensures Valid() && Grows(old(s), old(log), s, log, PublishSteps(old(s), c, m, route, o))
      ensures ok <==> o.Confirmed?
    {
      if o.Confirmed? && c in s.copies && s.copies[c].place.Unacked? {
        Perform(Republish(c, route));
      } else if !o.NotAccepted? {
        Perform(Stray(m, route));
      }
      ok := o.Confirmed?;
    }

    /** basic_ack of copy `c`; the broker refuses a copy the channel no longer holds. */
    method Acknowledge(c: CopyId, finishing: bool, o: AckOutcome) returns (ok: bool)
      requires Valid()
      requires IsUnacked(s, c) ==> (finishing <==> s.copies[c].Live())
      modifies this
      ensures Valid() && Grows(old(s), old(log), s, log, AckSteps(old(s), c, finishing, o))
      ensures ok <==> o.Acked? && IsUnacked(old(s), c)
    {
      if !(c in s.copies && s.copies[c].place.Unacked?) {
        return false;
      }
      if !o.NotAcked? {
        Perform(if finishing then AckFinished(c) else AckRepublished(c));
      }
      ok := o.Acked?;
    }

    /** basic_nack with requeue. */
    method Nack(c: CopyId, arrives: bool)
      requires Valid()
      modifies this
      ensures Valid() && Grows(old(s), old(log), s, log, if arrives && IsUnacked(old(s), c) then [Requeue(c)] else [])
    {
      if arrives && c in s.copies && s.copies[c].place.Unacked? {
        Perform(Requeue(c));
      }
    }
  }

  function PublishSteps(s: State, c: CopyId, m: Message, route: Route, o: PublishOutcome): seq<Step> {
    if o.NotAccepted? then []
    else if o.Confirmed? && IsUnacked(s, c) then [Republish(c, route)]
    else [Stray(m, route)]
  }

  function AckSteps(s: State, c: CopyId, finishing: bool, o: AckOutcome): seq<Step> {
    if o.NotAcked? || !IsUnacked(s, c) then [] else [if finishing then AckFinished(c) else AckRepublished(c)]
  }

  /** Publish, and acknowledge behind a confirmation only. */
  function PublishAckSteps(s: State, c: CopyId, m: Message, route: Route, po: PublishOutcome, ao: AckOutcome): seq<Step> {
    PublishSteps(s, c, m, route, po)
    + if po.Confirmed? && IsUnacked(s, c) && !ao.NotAcked? then [AckRepublished(c)] else []
  }

  /** The broker took exactly these steps. */
  ghost predicate Grows(s0: State, log0: seq<Step>, s1: State, log1: seq<Step>, steps: seq<Step>) {
    log1 == log0 + steps && Replay(s0, steps) == Some(s1)
  }

  /** At most one step was taken: the state is known. */
  lemma GrowsByOne(s0: State, log0: seq<Step>, s1: State, log1: seq<Step>, steps: seq<Step>)
    requires Grows(s0, log0, s1, log1, steps) && |steps| <= 1
    ensures steps == [] ==> s1 == s0
    ensures steps != [] ==> Enabled(s0, steps[0]) && s1 == Take(s0, steps[0])
  {
    if steps != [] {
      assert Enabled(s0, steps[0]);
      assert Replay(Take(s0, steps[0]), []) == Some(Take(s0, steps[0]));
      assert steps[1..] == [];
    }
  }

  lemma GrowsTwice(s0: State, log0: seq<Step>, s1: State, log1: seq<Step>, s2: State, log2: seq<Step>, a: seq<Step>, b: seq<Step>)
    requires Grows(s0, log0, s1, log1, a) && Grows(s1, log1, s2, log2, b)
    ensures Grows(s0, log0, s2, log2, a + b)
  {
    ReplayConcat(s0, a, b);
  }

  /** Whatever steps are taken, the broker remembers the jobs it was given. */
  lemma {:induction false} JobsStay(s: State, steps: seq<Step>)
    requires Replay(s, steps).Some?
    ensures var t := Replay(s, steps).value; s.enqueued <= t.enqueued && s.max == t.max
    decreases |steps|
  {
    if steps != [] { JobsStay(Take(s, steps[0]), steps[1..]); }
  }

  /** A republication that went through left its copy with the broker. */
  lemma SentOn(s: State, c: CopyId, m: Message, route: Route, t: State)
    requires Inv(s) && IsUnacked(s, c) && s.copies[c].message == m
    requires Replay(s, [Republish(c, route), AckRepublished(c)]) == Some(t)
    ensures s.next in t.copies && t.copies[s.next] == Forward(m, route)
  {
    var steps := [Republish(c, route), AckRepublished(c)];
    assert steps[1..] == [AckRepublished(c)] && [AckRepublished(c)][1..] == [];
    var s1 := Take(s, Republish(c, route));
    assert Replay(s, steps) == Replay(s1, steps[1..]) && Replay(s1, [AckRepublished(c)]) == Some(Take(s1, AckRepublished(c)));
  }

  /** The delivery object handed to the worker. */
  class RabbitDelivery {
    const broker: Broker
    const copy: CopyId
    const message: Message

    constructor (broker: Broker, copy: CopyId, message: Message)
      ensures this.broker == broker && this.copy == copy && this.message == message
    {
      this.broker, this.copy, this.message := broker, copy, message;
    }

    /** The delivery is of a job the broker was given; its copy may have been taken away. */
    ghost predicate Valid()
      reads this, broker
    {
      var s := broker.s;
      && broker.Valid() && message.job in s.enqueued && 1 <= message.attempt <= s.max
      && (IsUnacked(s, copy) ==> s.copies[copy].message == message)
    }

    /** The copy is held, or being processed. */
    ghost predicate HeldAs(phase: Phase)
      reads this, broker
    {
      Valid() && At(broker.s, copy, Unacked(phase))
    }

    method Ack(o: AckOutcome) returns (ok: bool)
      requires HeldAs(Held) || HeldAs(Processing)
      modifies broker
      ensures Valid() && Grows(old(broker.s), old(broker.log), broker.s, broker.log, AckSteps(old(broker.s), copy, true, o))
      ensures ok <==> o.Acked?
      ensures o.NotAcked? ==> broker.s == old(broker.s)
    {
      ghost var s0, log0 := broker.s, broker.log;
      ok := broker.Acknowledge(copy, true, o);
      GrowsByOne(s0, log0, broker.s, broker.log, AckSteps(s0, copy, true, o));
    }

    /** Publish on a route, and acknowledge the original only behind the confirmation. */
    method PublishThenAck(route: Route, po: PublishOutcome, ao: AckOutcome) returns (ok: bool, ghost steps: seq<Step>)
      requires Valid() && RouteFits(broker.s.max, message, route)
      requires route.Contention? ==> HeldAs(Held)
      modifies broker
      ensures Valid() && Grows(old(broker.s), old(broker.log), broker.s, broker.log, steps)
      ensures steps == PublishAckSteps(old(broker.s), copy, message, route, po, ao)
      ensures ok <==> po.Confirmed? && ao.Acked? && IsUnacked(old(broker.s), copy)
    {
      ghost var s0, log0 := broker.s, broker.log;
      steps := PublishSteps(s0, copy, message, route, po);
      ok := broker.Publish(copy, message, route, po);
      GrowsByOne(s0, log0, broker.s, broker.log, steps);
      if !ok {
        return;
      }
      ghost var s1, log1 := broker.s, broker.log;
      ok := broker.Acknowledge(copy, false, ao);
      GrowsByOne(s1, log1, broker.s, broker.log, AckSteps(s1, copy, false, ao));
      GrowsTwice(s0, log0, s1, log1, broker.s, broker.log, steps, AckSteps(s1, copy, false, ao));
      steps := steps + AckSteps(s1, copy, false, ao);
    }

    method RetryContention(po: PublishOutcome, ao: AckOutcome) returns (ok: bool, ghost steps: seq<Step>)
      requires HeldAs(Held)
      modifies broker
      ensures Valid() && Grows(old(broker.s), old(broker.log), broker.s, broker.log, steps)
      ensures steps == PublishAckSteps(old(broker.s), copy, message, Contention, po, ao)
      ensures ok <==> po.Confirmed? && ao.Acked?
      ensures ok ==> old(broker.s.next) in broker.s.copies && broker.s.copies[old(broker.s.next)] == Copy(message, Place.Retry)
    {
      ghost var s0 := broker.s;
      ok, steps := PublishThenAck(Contention, po, ao);
      if ok { SentOn(s0, copy, message, Contention, broker.s); }
    }

    /** Retry with the next attempt number, or dead-letter when the attempts are used up. */
    method Retry(po: PublishOutcome, ao: AckOutcome) returns (ok: bool, ghost steps: seq<Step>)
      requires Valid()
      modifies broker
      ensures Valid() && Grows(old(broker.s), old(broker.log), broker.s, broker.log, steps)
      ensures steps == PublishAckSteps(old(broker.s), copy, message,
                                       if message.attempt < old(broker.s.max) then Again else DeadLetter, po, ao)
      ensures ok ==> var sent := old(broker.s.next);
                     && sent in broker.s.copies
                     && broker.s.copies[sent] == if message.attempt < old(broker.s.max)
                                                 then Copy(Message(message.job, message.attempt + 1), Place.Retry)
                                                 else Copy(message, Dead)
      ensures ok <==> po.Confirmed? && ao.Acked? && IsUnacked(old(broker.s), copy)
    {
      ghost var s0 := broker.s;
      if message.attempt >= broker.s.max {
        ok, steps := PublishThenAck(DeadLetter, po, ao);
        if ok { SentOn(s0, copy, message, DeadLetter, broker.s); }
      } else {
        ok, steps := PublishThenAck(Again, po, ao);
        if ok { SentOn(s0, copy, message, Again, broker.s); }
      }
    }
  }

  lemma ReplayOne(s: State, step: Step)
    requires Replay(s, [step]).Some?
    ensures Enabled(s, step) && Replay(s, [step]) == Some(Take(s, step))
  {
    assert [step][1..] == [];
  }

  /** The two clean ways to let go of a held copy. */
  predicate LetsGo(c: CopyId, tail: seq<Step>) {
    || tail == [AckFinished(c)]
    || (|tail| == 2 && tail[0].Republish? && tail[0].copy == c && tail[1] == AckRepublished(c))
  }

  lemma LettingGo(s: State, c: CopyId, tail: seq<Step>, t: State)
    requires Inv(s) && IsUnacked(s, c) && s.copies[c].Live() && LetsGo(c, tail) && Replay(s, tail) == Some(t)
    ensures FaultFreeRun(s, tail) && !IsUnacked(t, c)
  {
    assert tail[1..] == [] || tail[1..] == [AckRepublished(c)];
    var s1 := Take(s, tail[0]);
    assert Replay(s1, tail[1..]) == Some(t);
    if tail[0].Republish? {
      ReplayOne(s1, AckRepublished(c));
    }
  }

  /** One delivery without faults: maybe a processing run, then a clean end. */
  lemma CleanDelivery(s: State, c: CopyId, body: seq<Step>, tail: seq<Step>, t: State)
    requires Inv(s) && At(s, c, Unacked(Held)) && (body == [] || body == [Begin(c)])
    requires LetsGo(c, tail) && Replay(s, body + tail) == Some(t)
    ensures FaultFreeRun(s, body + tail) && !IsUnacked(t, c)
  {
    if body == [] {
      assert body + tail == tail;
      LettingGo(s, c, tail, t);
    } else {
      assert (body + tail)[0] == Begin(c) && (body + tail)[1..] == tail;
      StepKeepsInv(s, Begin(c));
      LettingGo(Take(s, Begin(c)), c, tail, t);
    }
  }

  /** A try body that raised without a broker error: the copy is still live. */
  lemma BodyIsFaultFree(s: State, c: CopyId, body: seq<Step>, t: State)
    requires Inv(s) && At(s, c, Unacked(Held)) && (body == [] || body == [Begin(c)]) && Replay(s, body) == Some(t)
    ensures FaultFreeRun(s, body) && IsUnacked(t, c) && t.copies[c].Live()
  {
    if body != [] { ReplayOne(s, Begin(c)); }
  }

  /** What a try body that raised may have done. */
  predicate RaisedBody(c: CopyId, m: Message, steps: seq<Step>) {
    || steps == [] || steps == [Begin(c)] || steps == [AckFinished(c)]
    || steps == [Republish(c, Contention)] || steps == [Republish(c, Contention), AckRepublished(c)]
    || steps == [Stray(m, Contention)]
  }

  predicate SendsToDead(c: CopyId, m: Message, steps: seq<Step>) {
    Republish(c, DeadLetter) in steps || Stray(m, DeadLetter) in steps
  }

  lemma BodySendsNothingToDead(c: CopyId, m: Message, body: seq<Step>)
    requires RaisedBody(c, m, body)
    ensures !SendsToDead(c, m, body) && Requeue(c) !in body
  {}

  // ---- the worker ----

  datatype Claim = ClaimRaises | Completed | Busy | Claimed

  /** A guarded answer of the claim store. */
  datatype Renewal = Renewed | Superseded | RenewRaises

  /** Everything outside the worker that one delivery meets. */
  datatype World = World(
    serviceFails: bool, claim: Claim, heartbeatFails: bool, review: Contracts.World,
    emailFails: bool, renewal: Renewal, slackQueueFails: bool, completion: Renewal,
    laterRenewal: Renewal, markFails: bool, markAuditFails: bool, failureQueueFails: bool,
    lateCompletionRaises: bool, releaseRaises: bool, closeFails: bool,
    completedAck: AckOutcome, busyPublish: PublishOutcome, busyAck: AckOutcome, staleAck: AckOutcome,
    retryPublish: PublishOutcome, retryAck: AckOutcome, finalAck: AckOutcome, nackArrives: bool)

  /** The broker answers every call of this delivery as it should. */
  predicate BrokerHealthy(w: World) {
    && w.completedAck.Acked? && w.busyPublish.Confirmed? && w.busyAck.Acked? && w.staleAck.Acked?
    && w.retryPublish.Confirmed? && w.retryAck.Acked? && w.finalAck.Acked?
  }

  /** The status of a review that runs to its end. */
  function Decided(w: World, reviewed: bool): Contracts.Status {
    if reviewed then Contracts.ReviewReady else Contracts.Outcome(w.review)
  }

  /** A duplicate could not be let go: the ack of a completed one, or the republication or ack of
      a busy one, raised. */
  predicate DuplicateStuck(w: World) {
    if w.claim.Completed? then !w.completedAck.Acked? else !(w.busyPublish.Confirmed? && w.busyAck.Acked?)
  }

  /** How the claim ends the delivery, if it does. */
  function ClaimEnd(w: World): Option<Ending> {
    match w.claim
    case ClaimRaises => Some(Raised)
    case Completed => Some(if DuplicateStuck(w) then Raised else Returned)
    case Busy => Some(if DuplicateStuck(w) then Raised else Returned)
    case Claimed => if w.heartbeatFails then Some(Raised) else None
  }

  /** What the job says: its channel and whether a review email was asked for. */
  datatype Request = Request(slack: bool, submissionKey: bool, email: bool)

  /** The job is claimed before it is processed. */
  predicate Claims(q: Request) { q.slack && q.submissionKey }

  /** The claim store answers that another worker has the job, or has finished it. */
  predicate IsDuplicate(w: World, q: Request) { Claims(q) && (w.claim.Completed? || w.claim.Busy?) }

  /** The job holds an execution lease. */
  predicate Leases(w: World, q: Request) { !w.serviceFails && Claims(q) && w.claim.Claimed? }

  /** An exception leaves the review, or what is sent and recorded behind it. */
  predicate ReviewRaises(w: World, q: Request, reviewed: bool) {
    || Contracts.ReviewFails(w.review, reviewed)
    || (q.email && w.emailFails)
    || (q.slack && w.slackQueueFails)
    || (Claims(q) && !(w.renewal.Renewed? && w.completion.Renewed?))
  }

  /** An exception leaves the try body. */
  predicate BodyRaises(w: World, q: Request, reviewed: bool) {
    || w.serviceFails
    || if !Claims(q) then ReviewRaises(w, q, reviewed)
       else match w.claim
         case ClaimRaises => true
         case Completed => DuplicateStuck(w)
         case Busy => DuplicateStuck(w)
         case Claimed => w.heartbeatFails || ReviewRaises(w, q, reviewed)
  }

  /** Marking the contract as failed raises, or what is recorded behind it. */
  predicate MarkingRaises(w: World, q: Request, leased: bool) {
    w.markFails || w.markAuditFails || (q.slack && w.failureQueueFails) || (leased && w.lateCompletionRaises)
  }

  /** With the broker answering, an exception leaves the except clause: of the renewal, of marking
      the contract on the last attempt, or of giving an execution lease back. */
  predicate Escapes(w: World, q: Request, built: bool, leased: bool, last: bool) {
    if leased && !w.laterRenewal.Renewed? then w.laterRenewal.RenewRaises?
    else if built && last then MarkingRaises(w, q, leased)
    else leased && w.releaseRaises
  }

  /** The except clause marks the contract as failed: on the last attempt, unless the execution
      lease was superseded or the marking itself fails. */
  predicate Marks(w: World, built: bool, leased: bool, last: bool) {
    built && last && (leased ==> w.laterRenewal.Renewed?) && !w.markFails
  }

  /** With the broker answering, the delivery ends in a requeue of the live copy. */
  predicate Requeues(w: World, q: Request, reviewed: bool, last: bool) {
    BodyRaises(w, q, reviewed) && Escapes(w, q, !w.serviceFails, Leases(w, q), last)
  }

  function RouteOf(last: bool): Route { if last then DeadLetter else Again }

  /** What the except clause does on broker state `s`: a superseded delivery is acknowledged, one the
      clause cannot handle is left, and every other is sent on and then acknowledged. */
  function Tail(w: World, q: Request, built: bool, leased: bool, last: bool, s: State, c: CopyId, m: Message): seq<Step> {
    if leased && w.laterRenewal.Superseded? then AckSteps(s, c, true, w.staleAck)
    else if Escapes(w, q, built, leased, last) then []
    else PublishAckSteps(s, c, m, RouteOf(last), w.retryPublish, w.retryAck)
  }

  predicate TailRaises(w: World, q: Request, built: bool, leased: bool, last: bool, s: State, c: CopyId) {
    if leased && w.laterRenewal.Superseded? then !w.staleAck.Acked?
    else Escapes(w, q, built, leased, last) || !(w.retryPublish.Confirmed? && w.retryAck.Acked? && IsUnacked(s, c))
  }

  /** The same with the broker answering. */
  function HealthyTail(w: World, q: Request, built: bool, leased: bool, last: bool, c: CopyId): seq<Step> {
    if leased && w.laterRenewal.Superseded? then [AckFinished(c)]
    else if Escapes(w, q, built, leased, last) then []
    else [Republish(c, RouteOf(last)), AckRepublished(c)]
  }

  /** The job gets as far as its processing run. */
  predicate IsProcessed(w: World, q: Request) { !w.serviceFails && (Claims(q) ==> w.claim.Claimed? && !w.heartbeatFails) }

  /** One delivery with the broker answering: a completed duplicate is acknowledged and a busy one
      hops; another job is run, if it gets that far, and then acknowledged or handled. */
  function HealthySteps(w: World, q: Request, reviewed: bool, last: bool, c: CopyId): seq<Step> {
    if !w.serviceFails && IsDuplicate(w, q) then
      if w.claim.Completed? then [AckFinished(c)] else [Republish(c, Contention), AckRepublished(c)]
    else
      (if IsProcessed(w, q) then [Begin(c)] else [])
      + if BodyRaises(w, q, reviewed) then HealthyTail(w, q, !w.serviceFails, Leases(w, q), last, c) else [AckFinished(c)]
  }

  /** Nothing goes wrong in the try body: every call it makes for this job goes through. */
  predicate AllWell(w: World, q: Request, reviewed: bool) {
    && !w.serviceFails
    && (q.slack && q.submissionKey ==> w.claim.Claimed? && !w.heartbeatFails && w.renewal.Renewed? && w.completion.Renewed?)
    && !Contracts.ReviewFails(w.review, reviewed)
    && (q.email ==> !w.emailFails) && (q.slack ==> !w.slackQueueFails)
  }

  /** The try body runs to its end exactly when all is well, returns exactly for a duplicate it could
      let go, and begins a processing run exactly when the job is not kept by a claim. */
  lemma WhenDone(w: World, q: Request, reviewed: bool, last: bool, c: CopyId)
    ensures EndingOf(w, q, reviewed).Done? <==> AllWell(w, q, reviewed)
    ensures EndingOf(w, q, reviewed).Returned? <==>
              && !w.serviceFails && q.slack && q.submissionKey
              && ((w.claim.Completed? && w.completedAck.Acked?) || (w.claim.Busy? && w.busyPublish.Confirmed? && w.busyAck.Acked?))
    ensures Begin(c) in HealthySteps(w, q, reviewed, last, c) <==>
              !w.serviceFails && (q.slack && q.submissionKey ==> w.claim.Claimed? && !w.heartbeatFails)
  {}

  /** With the broker answering a delivery is acknowledged as finished exactly when it was processed
      to the end, was a duplicate of a completed job, or failed under a superseded lease. */
  lemma WhenFinished(w: World, q: Request, reviewed: bool, last: bool, c: CopyId)
    requires BrokerHealthy(w)
    ensures AckFinished(c) in HealthySteps(w, q, reviewed, last, c) <==>
              || AllWell(w, q, reviewed)
              || (!w.serviceFails && q.slack && q.submissionKey && w.claim.Completed?)
              || (EndingOf(w, q, reviewed).Raised? && Leases(w, q) && w.laterRenewal.Superseded?)
  {}

  /** With the broker answering a delivery is sent to retry or dead letter exactly when it failed, was
      not superseded, and the except clause came through: the contract marked, recorded and reported
      on the last attempt, or else the lease given back. To which queue, the attempt says. */
  lemma WhenSentOn(w: World, q: Request, reviewed: bool, last: bool, c: CopyId, route: Route)
    requires BrokerHealthy(w) && !route.Contention?
    ensures Republish(c, route) in HealthySteps(w, q, reviewed, last, c) <==>
              && EndingOf(w, q, reviewed).Raised? && route == (if last then DeadLetter else Again)
              && (Leases(w, q) ==> w.laterRenewal.Renewed?)
              && if !w.serviceFails && last
                 then !w.markFails && !w.markAuditFails && (q.slack ==> !w.failureQueueFails) && (Leases(w, q) ==> !w.lateCompletionRaises)
                 else Leases(w, q) ==> !w.releaseRaises
  {}

  /** A delivery marks the contract as failed exactly when it failed on the last attempt with the
      service built and its lease, if it has one, still its own, and the marking went through. */
  lemma WhenMarked(w: World, q: Request, reviewed: bool, last: bool, before: Contracts.Status)
    requires !before.AnalysisFailed?
    ensures StatusAfter(w, q, reviewed, last, before).AnalysisFailed? <==>
              && EndingOf(w, q, reviewed).Raised? && last && !w.serviceFails && !w.markFails
              && (q.slack && q.submissionKey && w.claim.Claimed? ==> w.laterRenewal.Renewed?)
  {
    Contracts.ReviewStatusIsHonest(w.review, reviewed, before);
  }

  lemma TailForms(w: World, q: Request, built: bool, leased: bool, last: bool, s: State, c: CopyId, m: Message)
    ensures var more := Tail(w, q, built, leased, last, s, c, m);
            && Requeue(c) !in more
            && (AckFinished(c) in more ==> leased && w.laterRenewal.Superseded?)
            && (SendsToDead(c, m, more) && built ==> Marks(w, built, leased, last))
            && (BrokerHealthy(w) && IsUnacked(s, c) ==>
                  && more == HealthyTail(w, q, built, leased, last, c)
                  && (TailRaises(w, q, built, leased, last, s, c) <==> Escapes(w, q, built, leased, last)))
  {}

  lemma Recovered(c: CopyId, m: Message, body: seq<Step>, more: seq<Step>)
    requires RaisedBody(c, m, body) && Requeue(c) !in more
    ensures SendsToDead(c, m, body + more) <==> SendsToDead(c, m, more)
    ensures Requeue(c) !in body + more
    ensures AckFinished(c) in body + more <==> AckFinished(c) in body || AckFinished(c) in more
  {
    BodySendsNothingToDead(c, m, body);
  }

  function EndingOf(w: World, q: Request, reviewed: bool): Ending {
    if BodyRaises(w, q, reviewed) then Raised else if IsDuplicate(w, q) then Returned else Done
  }

  /** The try body on broker state `s`. */
  function BodyOf(w: World, q: Request, s: State, c: CopyId, m: Message): seq<Step> {
    if w.serviceFails then []
    else if IsDuplicate(w, q) then
      if w.claim.Completed? then AckSteps(s, c, true, w.completedAck)
      else PublishAckSteps(s, c, m, Contention, w.busyPublish, w.busyAck)
    else if IsProcessed(w, q) then [Begin(c)] else []
  }

  /** The state after the steps. */
  function AfterSteps(s: State, steps: seq<Step>): State {
    match Replay(s, steps) case None => s case Some(t) => t
  }

  /** One delivery on broker state `s`, whatever the broker answers. */
  function DeliverySteps(w: World, q: Request, reviewed: bool, last: bool, s: State, c: CopyId, m: Message): seq<Step> {
    var body := BodyOf(w, q, s, c, m);
    body + Following(w, q, EndingOf(w, q, reviewed), !w.serviceFails, Leases(w, q), last, AfterSteps(s, body), c, m)
  }

  predicate DeliveryRaises(w: World, q: Request, reviewed: bool, last: bool, s: State, c: CopyId, m: Message) {
    || (!w.serviceFails && w.closeFails)
    || FollowingRaises(w, q, EndingOf(w, q, reviewed), !w.serviceFails, Leases(w, q), last, AfterSteps(s, BodyOf(w, q, s, c, m)), c)
  }

  /** The contract's status after one delivery. */
  function StatusAfter(w: World, q: Request, reviewed: bool, last: bool, before: Contracts.Status): Contracts.Status {
    if BodyRaises(w, q, reviewed) && Marks(w, !w.serviceFails, Leases(w, q), last) then Contracts.AnalysisFailed
    else if IsProcessed(w, q) then Contracts.ReviewStatus(w.review, reviewed, before)
    else before
  }

  /** What one delivery makes of the contract's review: nothing, unless the job gets to it. */
  function MadeAfter(w: World, q: Request, p: Contracts.Progress): Contracts.Progress {
    if IsProcessed(w, q) then Contracts.AfterReview(w.review, p) else p
  }

  /** What follows a try body on broker state `s`. */
  function Following(w: World, q: Request, ending: Ending, built: bool, leased: bool, last: bool, s: State, c: CopyId, m: Message): seq<Step> {
    match ending
    case Returned => []
    case Raised => Tail(w, q, built, leased, last, s, c, m)
    case Done => AckSteps(s, c, true, w.finalAck)
  }

  predicate FollowingRaises(w: World, q: Request, ending: Ending, built: bool, leased: bool, last: bool, s: State, c: CopyId) {
    match ending
    case Returned => false
    case Raised => TailRaises(w, q, built, leased, last, s, c)
    case Done => !w.finalAck.Acked?
  }

  predicate BodyForm(c: CopyId, m: Message, ending: Ending, steps: seq<Step>) {
    match ending
    case Done => steps == [Begin(c)]
    case Returned => steps == [AckFinished(c)] || steps == [Republish(c, Contention), AckRepublished(c)]
    case Raised => RaisedBody(c, m, steps)
  }

  lemma BodyHasForm(w: World, q: Request, reviewed: bool, s: State, c: CopyId, m: Message)
    requires IsUnacked(s, c)
    ensures BodyForm(c, m, EndingOf(w, q, reviewed), BodyOf(w, q, s, c, m))
    ensures AckFinished(c) in BodyOf(w, q, s, c, m) ==> IsDuplicate(w, q)
  {}

  lemma FollowingForms(w: World, q: Request, ending: Ending, built: bool, leased: bool, last: bool, s: State, c: CopyId, m: Message, body: seq<Step>)
    requires BodyForm(c, m, ending, body)
    ensures var steps := body + Following(w, q, ending, built, leased, last, s, c, m);
            && Requeue(c) !in steps
            && (AckFinished(c) in steps ==> AckFinished(c) in body || ending.Done? || leased)
            && (SendsToDead(c, m, steps) ==> ending.Raised? && (built ==> Marks(w, built, leased, last)))
  {
    TailForms(w, q, built, leased, last, s, c, m);
    if ending.Raised? { Recovered(c, m, body, Tail(w, q, built, leased, last, s, c, m)); }
  }

  /** What one delivery means for the contract. An acknowledged job of another channel than Slack
      leaves a terminal status. A dead-lettered job, of any channel, does exactly when the service
      could be built for that attempt or the contract was terminal before. */
  lemma StatusOfDelivery(w: World, q: Request, reviewed: bool, last: bool, s: State, c: CopyId, m: Message, before: Contracts.Status)
    requires IsUnacked(s, c)
    ensures var steps, after := DeliverySteps(w, q, reviewed, last, s, c, m), StatusAfter(w, q, reviewed, last, before);
            && Requeue(c) !in steps
            && (!q.slack && AckFinished(c) in steps ==> Contracts.Terminal(after))
            && (SendsToDead(c, m, steps) ==> (Contracts.Terminal(after) <==> !w.serviceFails || Contracts.Terminal(before)))
  {
    var body := BodyOf(w, q, s, c, m);
    BodyHasForm(w, q, reviewed, s, c, m);
    FollowingForms(w, q, EndingOf(w, q, reviewed), !w.serviceFails, Leases(w, q), last, AfterSteps(s, body), c, m, body);
    Contracts.ReviewStatusIsHonest(w.review, reviewed, before);
  }

  /** With the broker answering, a delivery takes its healthy steps, and an exception leaves it
      exactly when it is to be requeued, or closing the service fails. */
  lemma DeliveryIsHealthy(w: World, q: Request, reviewed: bool, last: bool, s: State, c: CopyId, m: Message)
    requires BrokerHealthy(w) && Inv(s) && At(s, c, Unacked(Held))
    ensures DeliverySteps(w, q, reviewed, last, s, c, m) == HealthySteps(w, q, reviewed, last, c)
    ensures DeliveryRaises(w, q, reviewed, last, s, c, m) <==> Requeues(w, q, reviewed, last) || (!w.serviceFails && w.closeFails)
  {
    var body := BodyOf(w, q, s, c, m);
    var t := AfterSteps(s, body);
    if EndingOf(w, q, reviewed).Returned? {
      assert body + [] == body;
    } else {
      assert IsUnacked(t, c) by {
        assert body == [] || body == [Begin(c)];
        if body != [] { OneStep(s, Begin(c)); }
      }
      TailForms(w, q, !w.serviceFails, Leases(w, q), last, t, c, m);
    }
  }

  /** When all is well a job is processed once, acknowledged, and its contract has the status the
      document decides. */
  lemma DeliveryIsWell(w: World, q: Request, reviewed: bool, last: bool, s: State, c: CopyId, m: Message, before: Contracts.Status)
    requires AllWell(w, q, reviewed) && w.finalAck.Acked? && At(s, c, Unacked(Held))
    ensures DeliverySteps(w, q, reviewed, last, s, c, m) == [Begin(c), AckFinished(c)]
    ensures DeliveryRaises(w, q, reviewed, last, s, c, m) <==> w.closeFails
    ensures StatusAfter(w, q, reviewed, last, before) == Decided(w, reviewed)
  {
    assert EndingOf(w, q, reviewed) == Done && BodyOf(w, q, s, c, m) == [Begin(c)];
    OneStep(s, Begin(c));
  }

  lemma OneStep(s: State, step: Step)
    requires Enabled(s, step)
    ensures Replay(s, [step]) == Some(Take(s, step))
  {
    assert [step][1..] == [];
  }

  /** The healthy steps of a delivery are a fault-free run, and let the copy go unless it is to be
      requeued; then it is still live. */
  lemma HealthyDelivery(w: World, q: Request, reviewed: bool, last: bool, s: State, c: CopyId, t: State)
    requires BrokerHealthy(w) && Inv(s) && At(s, c, Unacked(Held)) && Replay(s, HealthySteps(w, q, reviewed, last, c)) == Some(t)
    ensures FaultFreeRun(s, HealthySteps(w, q, reviewed, last, c))
    ensures if Requeues(w, q, reviewed, last) then IsUnacked(t, c) && t.copies[c].Live() else !IsUnacked(t, c)
  {
    var steps := HealthySteps(w, q, reviewed, last, c);
    if !w.serviceFails && IsDuplicate(w, q) {
      assert [] + steps == steps;
      CleanDelivery(s, c, [], steps, t);
    } else {
      var body: seq<Step> := if IsProcessed(w, q) then [Begin(c)] else [];
      var more := steps[|body|..];
      assert steps == body + more;
      if more == [] {
        assert steps == body;
        BodyIsFaultFree(s, c, body, t);
      } else {
        CleanDelivery(s, c, body, more, t);
      }
    }
  }

  /** What the consumer does about one message: the delivery, and a nack when an exception leaves it
      and the channel still holds the copy. */
  function MessageSteps(w: World, q: Request, reviewed: bool, last: bool, s: State, c: CopyId, m: Message): seq<Step> {
    var steps := DeliverySteps(w, q, reviewed, last, s, c, m);
    steps + Nacked(w, DeliveryRaises(w, q, reviewed, last, s, c, m), AfterSteps(s, steps), c)
  }

  function Nacked(w: World, raised: bool, t: State, c: CopyId): seq<Step> {
    if raised && w.nackArrives && IsUnacked(t, c) then [Requeue(c)] else []
  }

  /** With the broker answering, one message is a fault-free run that requeues the copy exactly when an
      exception leaves the delivery with the copy live, and lets it go if the nack arrives. */
  lemma MessageIsHealthy(w: World, q: Request, reviewed: bool, last: bool, s: State, c: CopyId, m: Message, t: State)
    requires BrokerHealthy(w) && Inv(s) && At(s, c, Unacked(Held))
    requires Replay(s, DeliverySteps(w, q, reviewed, last, s, c, m)) == Some(t)
    ensures var steps := MessageSteps(w, q, reviewed, last, s, c, m);
            && FaultFreeRun(s, steps) && Replay(s, steps).Some?
            && (Requeue(c) in steps <==> w.nackArrives && Requeues(w, q, reviewed, last))
            && (w.nackArrives ==> !IsUnacked(Replay(s, steps).value, c))
  {
    DeliveryIsHealthy(w, q, reviewed, last, s, c, m);
    HealthyDelivery(w, q, reviewed, last, s, c, t);
    var steps, nack := HealthySteps(w, q, reviewed, last, c), Nacked(w, DeliveryRaises(w, q, reviewed, last, s, c, m), t, c);
    assert AfterSteps(s, steps) == t;
    if nack != [] { OneStep(t, Requeue(c)); }
    FaultFreeConcat(s, steps, nack);
    ReplayConcat(s, steps, nack);
  }

  /** For a job of another channel than Slack: when processing fails on the last attempt with the
      service built, and marking the contract fails too. */
  lemma WhenOthersRequeue(w: World, q: Request, reviewed: bool, last: bool)
    requires !q.slack
    ensures Requeues(w, q, reviewed, last) <==>
              && !w.serviceFails && last && (w.markFails || w.markAuditFails)
              && (Contracts.ReviewFails(w.review, reviewed) || (q.email && w.emailFails))
  {}

  /** How the body of the try ended. */
  datatype Ending = Done | Returned | Raised

  class ContractWorker {
    const delivery: RabbitDelivery
    const contract: Contracts.Contract
    const request: Request
    /** The steps this delivery has caused. */
    ghost var steps: seq<Step>
    var service: bool
    var lease: bool

    constructor (delivery: RabbitDelivery, contract: Contracts.Contract, request: Request)
      ensures this.delivery == delivery && this.contract == contract && this.request == request
      ensures steps == [] && !service && !lease
    {
      this.delivery, this.contract, this.request := delivery, contract, request;
      steps, service, lease := [], false, false;
    }

    ghost predicate Tracks(s0: State, log0: seq<Step>)
      reads this, delivery.broker
    {
      Grows(s0, log0, delivery.broker.s, delivery.broker.log, steps)
    }

    predicate LastAttempt()
      reads delivery.broker
    {
      delivery.message.attempt >= delivery.broker.s.max
    }

    /** The claim on a Slack submission: a duplicate is let go, and only a granted claim goes on.
        None means that the job is to be processed. */
    method ClaimExecution(w: World) returns (ended: Option<Ending>)
      requires delivery.HeldAs(Held) && steps == [] && service && !lease && request.slack
      modifies this`steps, this`lease, delivery.broker
      ensures delivery.Valid() && Tracks(old(delivery.broker.s), old(delivery.broker.log))
      ensures ended == ClaimEnd(w) && (lease <==> w.claim.Claimed?)
      ensures steps == (match w.claim
                        case Completed => AckSteps(old(delivery.broker.s), delivery.copy, true, w.completedAck)
                        case Busy => PublishAckSteps(old(delivery.broker.s), delivery.copy, delivery.message, Contention, w.busyPublish, w.busyAck)
                        case _ => [])
      ensures lease ==> delivery.HeldAs(Held)
    {
      ghost var s0, log0 := delivery.broker.s, delivery.broker.log;
      match w.claim {
        case ClaimRaises =>
          return Some(Raised);
        case Completed =>
          steps := AckSteps(s0, delivery.copy, true, w.completedAck);
          var ok := delivery.Ack(w.completedAck);
          return Some(if ok then Returned else Raised);
        case Busy =>
          var ok;
          ok, steps := delivery.RetryContention(w.busyPublish, w.busyAck);
          return Some(if ok then Returned else Raised);
        case Claimed =>
          lease := true;
          return if w.heartbeatFails then Some(Raised) else None;
      }
    }

    /** The review and what follows it. */
    method PerformReview(w: World) returns (ending: Ending)
      requires lease <==> Claims(request)
      modifies contract
      ensures ending == if ReviewRaises(w, request, old(contract.reviewed)) then Raised else Done
      ensures contract.status == Contracts.ReviewStatus(w.review, old(contract.reviewed), old(contract.status))
      ensures contract.Made() == Contracts.AfterReview(w.review, old(contract.Made()))
    {
      var result := contract.ReviewStored(w.review);
      if result.None? || (request.email && w.emailFails) {
        return Raised;
      }
      if request.slack {
        if lease && !w.renewal.Renewed? {
          return Raised;
        }
        if w.slackQueueFails {
          return Raised;
        }
      }
      if lease && !w.completion.Renewed? {
        return Raised;
      }
      return Done;
    }

    /** The body of the try. */
    method ProcessBody(w: World) returns (ending: Ending)
      requires delivery.HeldAs(Held) && steps == [] && !service && !lease
      modifies this, delivery.broker, contract
      ensures delivery.Valid() && Tracks(old(delivery.broker.s), old(delivery.broker.log))
      ensures steps == BodyOf(w, request, old(delivery.broker.s), delivery.copy, delivery.message)
      ensures ending == EndingOf(w, request, old(contract.reviewed))
      ensures (service <==> !w.serviceFails) && (lease <==> Leases(w, request))
      ensures lease ==> delivery.HeldAs(Held) || delivery.HeldAs(Processing)
      ensures ending.Done? ==> delivery.HeldAs(Processing)
      ensures contract.status ==
                if IsProcessed(w, request) then Contracts.ReviewStatus(w.review, old(contract.reviewed), old(contract.status))
                else old(contract.status)
      ensures contract.Made() == MadeAfter(w, request, old(contract.Made()))
    {
      if w.serviceFails {
        return Raised;
      }
      service := true;
      if Claims(request) {
        var ended := ClaimExecution(w);
        if ended.Some? {
          return ended.value;
        }
      }
      delivery.broker.Perform(Begin(delivery.copy));
      steps := [Begin(delivery.copy)];
      ending := PerformReview(w);
    }

    /** The part of the except clause in front of the retry: marking on the last attempt, otherwise
        giving the execution lease back. */
    method MarkOrRelease(w: World) returns (raised: bool)
      modifies contract`status
      ensures contract.status == if service && LastAttempt() && !w.markFails then Contracts.AnalysisFailed else old(contract.status)
      ensures raised <==>
                if service && LastAttempt() then
                  MarkingRaises(w, request, lease)
                else lease && w.releaseRaises
    {
      if service && delivery.message.attempt >= delivery.broker.s.max {
        if w.markFails {
          return true;
        }
        contract.status := Contracts.AnalysisFailed;
        if w.markAuditFails || (request.slack && w.failureQueueFails) || (lease && w.lateCompletionRaises) {
          return true;
        }
      } else if lease && w.releaseRaises {
        return true;
      }
      return false;
    }

    /** The except clause: a stale duplicate is acknowledged; otherwise the contract is marked
        failed on the last attempt and the delivery is retried. True when it raises itself. */
    method HandleFailure(w: World) returns (raised: bool)
      requires delivery.Valid() && (lease ==> delivery.HeldAs(Held) || delivery.HeldAs(Processing))
      modifies this`steps, delivery.broker, contract`status
      ensures delivery.Valid()
      ensures contract.status == if Marks(w, service, lease, old(LastAttempt())) then Contracts.AnalysisFailed else old(contract.status)
      ensures var more := Tail(w, request, service, lease, old(LastAttempt()), old(delivery.broker.s), delivery.copy, delivery.message);
              && steps == old(steps) + more
              && Grows(old(delivery.broker.s), old(delivery.broker.log), delivery.broker.s, delivery.broker.log, more)
      ensures raised <==> TailRaises(w, request, service, lease, old(LastAttempt()), old(delivery.broker.s), delivery.copy)
    {
      if lease {
        if w.laterRenewal.RenewRaises? {
          return true;
        }
        if w.laterRenewal.Superseded? {
          steps := steps + AckSteps(delivery.broker.s, delivery.copy, true, w.staleAck);
          var ok := delivery.Ack(w.staleAck);
          return !ok;
        }
      }
      raised := MarkOrRelease(w);
      if raised {
        return;
      }
      ghost var more;
      var ok;
      ok, more := delivery.Retry(w.retryPublish, w.retryAck);
      steps := steps + more;
      return !ok;
    }

    /** The job was dead-lettered, its confirmation arriving or not. */
    ghost predicate DeadLettered()
      reads this
    {
      SendsToDead(delivery.copy, delivery.message, steps)
    }

    ghost predicate Finished()
      reads this
    {
      AckFinished(delivery.copy) in steps
    }

    /** The else clause behind a try body that ran to its end. */
    method Finish(w: World) returns (raised: bool)
      requires delivery.HeldAs(Processing)
      modifies this`steps, delivery.broker
      ensures delivery.Valid()
      ensures var more := AckSteps(old(delivery.broker.s), delivery.copy, true, w.finalAck);
              && steps == old(steps) + more
              && Grows(old(delivery.broker.s), old(delivery.broker.log), delivery.broker.s, delivery.broker.log, more)
      ensures raised <==> !w.finalAck.Acked?
    {
      steps := steps + AckSteps(delivery.broker.s, delivery.copy, true, w.finalAck);
      var ok := delivery.Ack(w.finalAck);
      raised := !ok;
    }

    /** What follows the try body: nothing behind a return, the except clause behind an exception,
        the else clause otherwise. */
    method Conclude(w: World, ending: Ending) returns (raised: bool)
      requires delivery.Valid() && (lease ==> delivery.HeldAs(Held) || delivery.HeldAs(Processing))
      requires ending.Done? ==> delivery.HeldAs(Processing)
      modifies this`steps, delivery.broker, contract`status
      ensures delivery.Valid()
      ensures contract.status == if ending.Raised? && Marks(w, service, lease, old(LastAttempt())) then Contracts.AnalysisFailed else old(contract.status)
      ensures var more := Following(w, request, ending, service, lease, old(LastAttempt()), old(delivery.broker.s), delivery.copy, delivery.message);
              && steps == old(steps) + more
              && Grows(old(delivery.broker.s), old(delivery.broker.log), delivery.broker.s, delivery.broker.log, more)
      ensures raised <==> FollowingRaises(w, request, ending, service, lease, old(LastAttempt()), old(delivery.broker.s), delivery.copy)
    {
      match ending {
        case Returned => raised := false;
        case Raised => raised := HandleFailure(w);
        case Done => raised := Finish(w);
      }
    }

    /** The procedure of one delivery: try, except, else and finally. */
    method Deliver(w: World) returns (raised: bool)
      requires delivery.HeldAs(Held) && steps == [] && !service && !lease
      modifies this, delivery.broker, contract
      ensures delivery.Valid() && Tracks(old(delivery.broker.s), old(delivery.broker.log)) && contract.Made() == MadeAfter(w, request, old(contract.Made()))
      ensures steps == DeliverySteps(w, request, old(contract.reviewed), old(LastAttempt()), old(delivery.broker.s), delivery.copy, delivery.message)
      ensures raised <==> DeliveryRaises(w, request, old(contract.reviewed), old(LastAttempt()), old(delivery.broker.s), delivery.copy, delivery.message)
      ensures contract.status == StatusAfter(w, request, old(contract.reviewed), old(LastAttempt()), old(contract.status))
    {
      ghost var s0, log0 := delivery.broker.s, delivery.broker.log;
      var ending := ProcessBody(w);
      JobsStay(s0, steps);
      ghost var s1, log1, body := delivery.broker.s, delivery.broker.log, steps;
      assert AfterSteps(s0, body) == s1;
      raised := Conclude(w, ending);
      GrowsTwice(s0, log0, s1, log1, delivery.broker.s, delivery.broker.log, body, steps[|body|..]);
      if service && w.closeFails {
        raised := true;
      }
    }

    /** One delivery. True when an exception leaves it, which the consumer answers with a nack.
        An acknowledged job of another channel than Slack leaves its contract in a terminal
        status. A dead-lettered job, of any channel, does exactly when the processing service
        could be built for that attempt or the contract was terminal before. A duplicate leaves
        the status alone, except that one that could not be let go on the last attempt marks the
        contract as failed. With the broker answering, the steps are exactly the healthy ones. */
    method ProcessDelivery(w: World) returns (raised: bool)
      requires delivery.HeldAs(Held) && steps == [] && !service && !lease
      modifies this, delivery.broker, contract
      ensures delivery.Valid() && Tracks(old(delivery.broker.s), old(delivery.broker.log))
      ensures contract.Made() == MadeAfter(w, request, old(contract.Made())) && Requeue(delivery.copy) !in steps
      ensures steps == DeliverySteps(w, request, old(contract.reviewed), old(LastAttempt()), old(delivery.broker.s), delivery.copy, delivery.message)
      ensures raised <==> DeliveryRaises(w, request, old(contract.reviewed), old(LastAttempt()), old(delivery.broker.s), delivery.copy, delivery.message)
      ensures contract.status == StatusAfter(w, request, old(contract.reviewed), old(LastAttempt()), old(contract.status))
      ensures !request.slack && Finished() ==> Contracts.Terminal(contract.status)
      ensures DeadLettered() ==>
                (Contracts.Terminal(contract.status) <==> !w.serviceFails || Contracts.Terminal(old(contract.status)))
      ensures IsDuplicate(w, request) ==>
                contract.status == if !w.serviceFails && DuplicateStuck(w) && old(LastAttempt()) && !w.markFails
                                   then Contracts.AnalysisFailed else old(contract.status)
      ensures BrokerHealthy(w) ==>
                && steps == HealthySteps(w, request, old(contract.reviewed), old(LastAttempt()), delivery.copy)
                && (raised <==> Requeues(w, request, old(contract.reviewed), old(LastAttempt())) || (!w.serviceFails && w.closeFails))
      ensures AllWell(w, request, old(contract.reviewed)) && w.finalAck.Acked? ==>
                && (raised <==> w.closeFails) && steps == [Begin(delivery.copy), AckFinished(delivery.copy)]
                && contract.status == Decided(w, old(contract.reviewed))
    {
      ghost var s0, last, reviewed, before := delivery.broker.s, LastAttempt(), contract.reviewed, contract.status;
      raised := Deliver(w);
      StatusOfDelivery(w, request, reviewed, last, s0, delivery.copy, delivery.message, before);
      if BrokerHealthy(w) {
        DeliveryIsHealthy(w, request, reviewed, last, s0, delivery.copy, delivery.message);
      }
      if AllWell(w, request, reviewed) && w.finalAck.Acked? {
        DeliveryIsWell(w, request, reviewed, last, s0, delivery.copy, delivery.message, before);
      }
    }

    /** The consumer's callback: whatever leaves the worker is answered with a nack. */
    method OnMessage(w: World)
      requires delivery.HeldAs(Held) && steps == [] && !service && !lease
      modifies this, delivery.broker, contract
      ensures delivery.Valid() && Tracks(old(delivery.broker.s), old(delivery.broker.log))
      ensures steps == MessageSteps(w, request, old(contract.reviewed), old(LastAttempt()), old(delivery.broker.s), delivery.copy, delivery.message)
      ensures contract.status == StatusAfter(w, request, old(contract.reviewed), old(LastAttempt()), old(contract.status))
      ensures contract.Made() == MadeAfter(w, request, old(contract.Made()))
      ensures BrokerHealthy(w) ==>
                && FaultFreeRun(old(delivery.broker.s), steps)
                && (Requeue(delivery.copy) in steps <==> w.nackArrives && Requeues(w, request, old(contract.reviewed), old(LastAttempt())))
                && (w.nackArrives ==> !IsUnacked(delivery.broker.s, delivery.copy))
    {
      ghost var s0, log0, last, reviewed := delivery.broker.s, delivery.broker.log, LastAttempt(), contract.reviewed;
      var raised := ProcessDelivery(w);
      ghost var s1, log1, so := delivery.broker.s, delivery.broker.log, steps;
      ghost var nack := Nacked(w, raised, s1, delivery.copy);
      if raised {
        delivery.broker.Nack(delivery.copy, w.nackArrives);
        GrowsByOne(s1, log1, delivery.broker.s, delivery.broker.log, nack);
        steps := steps + nack;
      }
      GrowsTwice(s0, log0, s1, log1, delivery.broker.s, delivery.broker.log, so, nack);
      if BrokerHealthy(w) {
        MessageIsHealthy(w, request, reviewed, last, s0, delivery.copy, delivery.message, s1);
      }
    }
  }

  /** The delivery of the only job of a broker that allows one attempt. */
  method OnlyDelivery() returns (delivery: RabbitDelivery)
    ensures fresh(delivery.broker) && delivery.HeldAs(Held)
    ensures delivery.message == Message(0, 1) && delivery.broker.s.max == 1
  {
    var broker := new Broker(1);
    broker.Perform(Enqueue(0));
    broker.Perform(Deliver(0));
    delivery := new RabbitDelivery(broker, 0, Message(0, 1));
  }

  /** A completed duplicate whose ack is lost on the last attempt: the contract has a persisted
      review, and ends up marked as failed. */
  method DuplicateMarksReviewedContract() returns (reviewed: bool, status: Contracts.Status)
    ensures reviewed && status == Contracts.AnalysisFailed
  {
    var delivery := OnlyDelivery();
    var contract := new Contracts.Contract();
    var review := contract.ReviewStored(Contracts.World(true, false, true, false, None));
    var worker := new ContractWorker(delivery, contract, Request(true, true, false));
    var raised := worker.ProcessDelivery(World(
      false, Completed, false, Contracts.World(true, false, true, false, None),
      false, Renewed, false, Renewed, Renewed, false, false, false, false, false, false,
      NotAcked, Confirmed, Acked, Acked, Confirmed, Acked, Acked, true));
    return contract.reviewed, contract.status;
  }
}
