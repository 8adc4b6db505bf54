/** At-least-once delivery of review jobs: the broker's copies of each job and the steps that
    brokers, workers and faults can take, with any number of workers interleaved. */
module Delivery {
  import opened Wrappers

  type Job = nat
  type CopyId = nat

  datatype Message = Message(job: Job, attempt: nat)

  /** How far the worker holding an unacknowledged copy has come. */
  datatype Phase = Held | Processing | Republished

  datatype Place = Ready | Unacked(phase: Phase) | Retry | Dead

  datatype Copy = Copy(message: Message, place: Place) {
    /** A republished copy only waits for its acknowledgement; every other copy carries the job. */
    predicate Live() { place != Unacked(Republished) }
  }

  /** Where a republication goes: delayed with the next attempt number, delayed unchanged
      because another worker is busy with the job, or dead-lettered. */
  datatype Route = Again | Contention | DeadLetter

  datatype State = State(
    max: nat, copies: map<CopyId, Copy>, next: CopyId,
    enqueued: set<Job>, finished: set<Job>, processed: map<Job, nat>)

  datatype Step =
    | Enqueue(job: Job)
    | Deliver(copy: CopyId)
    | Begin(copy: CopyId)
    | Republish(copy: CopyId, route: Route)
    | Stray(message: Message, route: Route)
    | AckRepublished(copy: CopyId)
    | AckFinished(copy: CopyId)
    | Requeue(copy: CopyId)
    | Expire(copy: CopyId)

  function Runs(s: State, job: Job): nat { if job in s.processed then s.processed[job] else 0 }

  /** The republication rule: the attempt number decides between retry and dead letter. */
  predicate RouteFits(max: nat, m: Message, route: Route) {
    match route
    case Again => m.attempt < max
    case DeadLetter => m.attempt >= max
    case Contention => true
  }

  function Forward(m: Message, route: Route): Copy {
    match route
    case Again => Copy(m.(attempt := m.attempt + 1), Retry)
    case Contention => Copy(m, Retry)
    case DeadLetter => Copy(m, Dead)
  }

  predicate At(s: State, c: CopyId, place: Place) { c in s.copies && s.copies[c].place == place }

  predicate IsUnacked(s: State, c: CopyId) { c in s.copies && s.copies[c].place.Unacked? }

  /** Stray is a publication whose confirmation is lost, or a late one by a worker that no
      longer holds the copy; Requeue is a nack, a closed channel or a crash. */
  predicate Enabled(s: State, t: Step) {
    match t
    case Enqueue(_) => true
    case Deliver(c) => At(s, c, Ready)
    case Begin(c) => At(s, c, Unacked(Held))
    case Republish(c, route) =>
      IsUnacked(s, c) && RouteFits(s.max, s.copies[c].message, route)
      && (route.Contention? ==> s.copies[c].place == Unacked(Held))
    case Stray(m, route) => m.job in s.enqueued && 1 <= m.attempt <= s.max && RouteFits(s.max, m, route)
    case AckRepublished(c) => At(s, c, Unacked(Republished))
    case AckFinished(c) => IsUnacked(s, c) && s.copies[c].Live()
    case Requeue(c) => IsUnacked(s, c)
    case Expire(c) => At(s, c, Retry)
  }

  function Add(s: State, c: Copy): State { s.(copies := s.copies[s.next := c], next := s.next + 1) }

  function Move(s: State, c: CopyId, place: Place): State
    requires c in s.copies
  {
    s.(copies := s.copies[c := s.copies[c].(place := place)])
  }

  function Take(s: State, t: Step): State
    requires Enabled(s, t)
  {
    match t
    case Enqueue(job) => Add(s, Copy(Message(job, 1), Ready)).(enqueued := s.enqueued + {job})
    case Deliver(c) => Move(s, c, Unacked(Held))
    case Begin(c) =>
      var job := s.copies[c].message.job;
      Move(s, c, Unacked(Processing)).(processed := s.processed[job := Runs(s, job) + 1])
    case Republish(c, route) => Add(Move(s, c, Unacked(Republished)), Forward(s.copies[c].message, route))
    case Stray(m, route) => Add(s, Forward(m, route))
    case AckRepublished(c) => s.(copies := s.copies - {c})
    case AckFinished(c) => s.(copies := s.copies - {c}, finished := s.finished + {s.copies[c].message.job})
    case Requeue(c) => Move(s, c, Ready)
    case Expire(c) => Move(s, c, Ready)
  }

  /** The state after a run of steps; None when some step was not enabled. */
  function Replay(s: State, steps: seq<Step>): Option<State>
    decreases |steps|
  {
    if steps == [] then Some(s)
    else if Enabled(s, steps[0]) then Replay(Take(s, steps[0]), steps[1..])
    else None
  }

  lemma {:induction false} ReplayConcat(s: State, first: seq<Step>, second: seq<Step>)
    requires Replay(s, first).Some?
    ensures Replay(s, first + second) == Replay(Replay(s, first).value, second)
    decreases |first|
  {
    if first == [] {
      assert first + second == second;
    } else {
      ReplayConcat(Take(s, first[0]), first[1..], second);
      assert (first + second)[1..] == first[1..] + second;
    }
  }

  /** What a step leaves alone, and what it makes possible: every copy keeps its message and only an
      acknowledgement takes one away; a new job, a requeued copy and an expired one can be delivered,
      a delivered one begun, a republished one only acknowledged as such or requeued. */
  lemma CopiesTakeTheirCourse(s: State, t: Step, c: CopyId)
    requires Enabled(s, t) && c in s.copies && (forall d <- s.copies :: d < s.next)
    ensures var s' := Take(s, t);
            && (c !in s'.copies <==> t == AckFinished(c) || t == AckRepublished(c))
            && (c in s'.copies ==> s'.copies[c].message == s.copies[c].message)
            && (t.Enqueue? ==> s'.copies == s.copies[s.next := Copy(Message(t.job, 1), Ready)])
            && (t == Requeue(c) || t == Expire(c) ==> Enabled(s', Deliver(c)))
            && (t == Deliver(c) ==> Enabled(s', Begin(c)))
            && (t == Begin(c) ==> Enabled(s', AckFinished(c)) && !Enabled(s', Begin(c)))
            && (t.Republish? && t.copy == c ==> Enabled(s', AckRepublished(c)) && !Enabled(s', AckFinished(c)))
            && (t.Enqueue? || t.Stray? || t.copy != c ==> s'.copies[c] == s.copies[c])
  {}

  // ---- no job is lost ----

  /** Copy `c` carries the job. */
  predicate Carries(s: State, c: CopyId, job: Job) {
    c in s.copies && s.copies[c].message.job == job && s.copies[c].Live()
  }

  ghost predicate Carried(s: State, job: Job) {
    job in s.finished || exists c :: Carries(s, c, job)
  }

  ghost predicate Inv(s: State) {
    && s.max >= 1
    && (forall c <- s.copies :: c < s.next && s.copies[c].message.job in s.enqueued)
    && (forall c <- s.copies :: 1 <= s.copies[c].message.attempt <= s.max)
    && (forall c <- s.copies :: s.copies[c].place == Dead ==> s.copies[c].message.attempt == s.max)
    && (forall job <- s.enqueued :: Carried(s, job))
  }

  lemma StepKeepsCarried(s: State, t: Step, job: Job)
    requires Inv(s) && Enabled(s, t) && (job in s.enqueued || t == Enqueue(job))
    ensures Carried(Take(s, t), job)
  {
    var s' := Take(s, t);
    if job !in s'.finished {
      if t == Enqueue(job) {
        assert Carries(s', s.next, job);
      } else {
        var c :| Carries(s, c, job);
        assert Carries(s', if t.Republish? && t.copy == c then s.next else c, job);
      }
    }
  }

  lemma StepKeepsInv(s: State, t: Step)
    requires Inv(s) && Enabled(s, t)
    ensures Inv(Take(s, t))
  {
    forall job | job in Take(s, t).enqueued
      ensures Carried(Take(s, t), job)
    {
      StepKeepsCarried(s, t, job);
    }
  }

  /** No job is lost: over every run of steps, with crashes, lost confirmations, failed acks
      and duplicate publications, each enqueued job has a live copy in ready, unacked, retry
      or dead letter, or was acknowledged on a finishing path. Attempts stay within the
      limit, and dead letters have used all of them. */
  lemma {:induction false} NoJobLost(s: State, steps: seq<Step>)
    requires Inv(s) && Replay(s, steps).Some?
    ensures Inv(Replay(s, steps).value)
    decreases |steps|
  {
    if steps != [] {
      StepKeepsInv(s, steps[0]);
      NoJobLost(Take(s, steps[0]), steps[1..]);
    }
  }

  // ---- runs without faults ----

  /** Without crashes and broker errors nothing strays, job ids are fresh, and a worker
      republishes a copy once. A requeue remains possible: an exception that leaves the worker is
      answered with a nack, but then the copy is still live. */
  predicate FaultFree(s: State, t: Step) {
    && !t.Stray?
    && (t.Enqueue? ==> t.job !in s.enqueued)
    && (t.Republish? || t.Requeue? ==> !At(s, t.copy, Unacked(Republished)))
  }

  predicate FaultFreeRun(s: State, steps: seq<Step>)
    decreases |steps|
  {
    steps != [] ==> FaultFree(s, steps[0]) && (Enabled(s, steps[0]) ==> FaultFreeRun(Take(s, steps[0]), steps[1..]))
  }

  lemma {:induction false} FaultFreeConcat(s: State, first: seq<Step>, second: seq<Step>)
    requires FaultFreeRun(s, first) && Replay(s, first).Some? && FaultFreeRun(Replay(s, first).value, second)
    ensures FaultFreeRun(s, first + second)
    decreases |first|
  {
    if first == [] {
      assert first + second == second;
    } else {
      FaultFreeConcat(Take(s, first[0]), first[1..], second);
      assert (first + second)[1..] == first[1..] + second;
    }
  }

  /** The processing runs a copy may account for. */
  function Budget(c: Copy): int {
    if c.place == Unacked(Processing) || c.place == Dead then c.message.attempt else c.message.attempt - 1
  }

  ghost predicate Sole(s: State) {
    && (forall job, c, d :: Carries(s, c, job) && Carries(s, d, job) ==> c == d)
    && (forall job, c :: Carries(s, c, job) ==> job !in s.finished)
    && (forall job :: job in s.finished ==> job in s.enqueued)
  }

  /** The account of a job: its live copy stands at `last`, and every processing run so far is one
      of those `last` stands for, or was wasted, but for those that were skipped. */
  ghost predicate Accounts(s: State, job: Job, last: int, wastes: nat, skips: nat) {
    && (forall c :: Carries(s, c, job) ==> Budget(s.copies[c]) == last)
    && Runs(s, job) + skips == last + wastes
    && last <= s.max
    && (job in s.processed ==> job in s.enqueued)
    && (job !in s.enqueued ==> last == 0)
  }

  ghost predicate Linear(s: State) { Inv(s) && Sole(s) }

  /** The step moves, processes, finishes, republishes or requeues the job's copy. */
  predicate Advances(s: State, t: Step, job: Job) {
    && (t.Deliver? || t.Begin? || t.Republish? || t.AckFinished? || t.Expire? || t.Requeue?)
    && t.copy in s.copies && s.copies[t.copy].message.job == job
  }

  /** The copy that carries the job after the step that moved it. */
  function Moved(s: State, t: Step): CopyId
    requires t.Deliver? || t.Begin? || t.Republish? || t.AckFinished? || t.Expire? || t.Requeue?
  {
    if t.Republish? then s.next else t.copy
  }

  /** The step throws a processing run away: the worker's copy goes back to the queue. */
  predicate Wastes(s: State, t: Step, job: Job) {
    t.Requeue? && At(s, t.copy, Unacked(Processing)) && s.copies[t.copy].message.job == job
  }

  /** The step passes an attempt on without having processed it. */
  predicate Skips(s: State, t: Step, job: Job) {
    t.Republish? && !t.route.Contention? && At(s, t.copy, Unacked(Held)) && s.copies[t.copy].message.job == job
  }

  /** Where the job's live copy stands after the step, or stood when it was acknowledged. */
  function LastAfter(s: State, t: Step, job: Job, last: int): int
    requires Enabled(s, t)
  {
    if t == Enqueue(job) then 0
    else if Advances(s, t, job) && !t.AckFinished? then Budget(Take(s, t).copies[Moved(s, t)])
    else last
  }

  /** Every live copy after a fault-free step continues a live copy of before, or is a new job's. */
  lemma LiveComesFrom(s: State, t: Step, c: CopyId, job: Job)
    requires Inv(s) && Enabled(s, t) && FaultFree(s, t) && Carries(Take(s, t), c, job)
    ensures t == Enqueue(job) || if t.Republish? && c == s.next then Carries(s, t.copy, job) else Carries(s, c, job)
    ensures t == Enqueue(job) ==> c == s.next
  {}

  lemma StepKeepsSole(s: State, t: Step)
    requires Inv(s) && Sole(s) && Enabled(s, t) && FaultFree(s, t)
    ensures Sole(Take(s, t))
  {
    var s' := Take(s, t);
    forall job, c, d | Carries(s', c, job) && Carries(s', d, job)
      ensures c == d && job !in s'.finished
    {
      LiveComesFrom(s, t, c, job);
      LiveComesFrom(s, t, d, job);
      if t.AckFinished? && s.copies[t.copy].message.job == job {
        assert Carries(s, t.copy, job);
      }
    }
  }

  lemma RunsStep(s: State, t: Step, job: Job)
    requires Enabled(s, t)
    ensures Take(s, t).max == s.max
    ensures Runs(Take(s, t), job) == Runs(s, job) + if t.Begin? && s.copies[t.copy].message.job == job then 1 else 0
  {
    if t.Begin? {
      var started := s.copies[t.copy].message.job;
      assert Take(s, t).processed == s.processed[started := Runs(s, started) + 1];
    }
  }

  lemma LiveStandsAt(s: State, t: Step, job: Job, last: int, wastes: nat, skips: nat, c: CopyId)
    requires Linear(s) && Accounts(s, job, last, wastes, skips) && Enabled(s, t) && FaultFree(s, t) && Carries(Take(s, t), c, job)
    ensures Budget(Take(s, t).copies[c]) == LastAfter(s, t, job, last)
  {
    LiveComesFrom(s, t, c, job);
    if t != Enqueue(job) {
      if Advances(s, t, job) {
        assert Carries(s, t.copy, job);
      } else {
        assert Carries(s, c, job) && Take(s, t).copies[c] == s.copies[c];
      }
    }
  }

  lemma StepBalances(s: State, t: Step, job: Job, last: int, wastes: nat, skips: nat)
    requires Linear(s) && Accounts(s, job, last, wastes, skips) && Enabled(s, t) && FaultFree(s, t)
    ensures Runs(Take(s, t), job) + skips + (if Skips(s, t, job) then 1 else 0)
         == LastAfter(s, t, job, last) + wastes + if Wastes(s, t, job) then 1 else 0
    ensures LastAfter(s, t, job, last) <= s.max
  {
    RunsStep(s, t, job);
    if t != Enqueue(job) && Advances(s, t, job) {
      assert Carries(s, t.copy, job);
      assert last == Budget(s.copies[t.copy]);
      if t.Republish? { RepublishBalances(s.max, s.copies[t.copy], t.route); }
    }
  }

  /** A republished copy stands one attempt further unless it was processed, or only hops. */
  lemma RepublishBalances(max: nat, c: Copy, route: Route)
    requires c.place.Unacked? && c.Live()
    requires RouteFits(max, c.message, route) && (route.Contention? ==> c.place == Unacked(Held)) && c.message.attempt <= max
    ensures Budget(Forward(c.message, route)) == Budget(c) + if c.place == Unacked(Held) && !route.Contention? then 1 else 0
    ensures Budget(Forward(c.message, route)) <= max
  {
    assert c.place.phase.Held? || c.place.phase.Processing?;
  }

  lemma StepKeepsAccounts(s: State, t: Step, job: Job, last: int, wastes: nat, skips: nat)
    requires Linear(s) && Accounts(s, job, last, wastes, skips) && Enabled(s, t) && FaultFree(s, t)
    ensures Accounts(Take(s, t), job, LastAfter(s, t, job, last),
                     wastes + if Wastes(s, t, job) then 1 else 0, skips + if Skips(s, t, job) then 1 else 0)
  {
    StepBalances(s, t, job, last, wastes, skips);
    RunsStep(s, t, job);
    forall c | Carries(Take(s, t), c, job)
      ensures Budget(Take(s, t).copies[c]) == LastAfter(s, t, job, last)
    {
      LiveStandsAt(s, t, job, last, wastes, skips, c);
    }
  }

  lemma StepKeepsLinear(s: State, t: Step)
    requires Linear(s) && Enabled(s, t) && FaultFree(s, t)
    ensures Linear(Take(s, t))
  {
    StepKeepsInv(s, t);
    StepKeepsSole(s, t);
  }

  /** Exactly one live copy while the job is unfinished, none afterwards. */
  ghost predicate OneCopy(s: State, job: Job) {
    if job in s.finished then forall c :: !Carries(s, c, job)
    else exists c :: Carries(s, c, job) && forall d :: Carries(s, d, job) ==> d == c
  }

  lemma LinearMeansOneCopy(s: State, job: Job)
    requires Linear(s) && job in s.enqueued
    ensures OneCopy(s, job)
  {
    if job !in s.finished {
      var c :| Carries(s, c, job);
      assert forall d :: Carries(s, d, job) ==> d == c;
    }
  }

  /** How often a run threw a processing run of the job away. */
  function WasteCount(s: State, steps: seq<Step>, job: Job): nat
    decreases |steps|
  {
    if steps == [] || !Enabled(s, steps[0]) then 0
    else (if Wastes(s, steps[0], job) then 1 else 0) + WasteCount(Take(s, steps[0]), steps[1..], job)
  }

  /** How often a run passed an attempt of the job on unprocessed. */
  function SkipCount(s: State, steps: seq<Step>, job: Job): nat
    decreases |steps|
  {
    if steps == [] || !Enabled(s, steps[0]) then 0
    else (if Skips(s, steps[0], job) then 1 else 0) + SkipCount(Take(s, steps[0]), steps[1..], job)
  }

  /** Where the job's live copy stands at the end of a run, or stood when it was acknowledged. */
  function LastOf(s: State, steps: seq<Step>, job: Job, last: int): int
    decreases |steps|
  {
    if steps == [] || !Enabled(s, steps[0]) then last
    else LastOf(Take(s, steps[0]), steps[1..], job, LastAfter(s, steps[0], job, last))
  }

  /** Linearity: without faults a job has exactly one live copy until it is finished and none
      afterwards, and its processing runs are exactly the attempts its copy stands for, and one
      more for each run that ended in a requeue, and one less for each attempt passed on
      unprocessed. */
  lemma {:induction false} ExactlyOneCopy(s: State, steps: seq<Step>, job: Job, last: int, wastes: nat, skips: nat)
    requires Linear(s) && Accounts(s, job, last, wastes, skips) && FaultFreeRun(s, steps) && Replay(s, steps).Some?
    ensures var t := Replay(s, steps).value;
            && Linear(t) && t.max == s.max && (job in t.enqueued ==> OneCopy(t, job))
            && Accounts(t, job, LastOf(s, steps, job, last), wastes + WasteCount(s, steps, job), skips + SkipCount(s, steps, job))
    decreases |steps|
  {
    if steps != [] {
      var t := steps[0];
      StepKeepsLinear(s, t);
      StepKeepsAccounts(s, t, job, last, wastes, skips);
      RunsStep(s, t, job);
      ExactlyOneCopy(Take(s, t), steps[1..], job, LastAfter(s, t, job, last),
                     wastes + (if Wastes(s, t, job) then 1 else 0), skips + if Skips(s, t, job) then 1 else 0);
    } else if job in s.enqueued {
      LinearMeansOneCopy(s, job);
    }
  }

  /** From the empty broker a job is processed at most max times if and only if what its copy
      stands for, with the wasted runs, is within max and the skipped attempts: for a
      dead-lettered job, if and only if no more runs were wasted than attempts skipped. */
  lemma ProcessedWithinMax(max: nat, steps: seq<Step>, job: Job)
    requires max >= 1 && FaultFreeRun(Empty(max), steps) && Replay(Empty(max), steps).Some?
    ensures var t, last := Replay(Empty(max), steps).value, LastOf(Empty(max), steps, job, 0);
            var wastes, skips := WasteCount(Empty(max), steps, job), SkipCount(Empty(max), steps, job);
            && last <= max
            && (Runs(t, job) <= max <==> last + wastes <= max + skips)
            && (wastes <= skips ==> Runs(t, job) <= max)
            && ((exists c :: Carries(t, c, job) && t.copies[c].place == Dead) ==>
                  (Runs(t, job) <= max <==> wastes <= skips))
  {
    EmptyIsLinear(max);
    ExactlyOneCopy(Empty(max), steps, job, 0, 0, 0);
  }

  /** A requeue does run a job more often than max: with one attempt allowed, an exception that
      leaves the worker lets the same attempt begin twice. */
  lemma RequeueRunsAgain()
    ensures var steps := [Enqueue(0), Deliver(0), Begin(0), Requeue(0), Deliver(0), Begin(0)];
            && FaultFreeRun(Empty(1), steps) && Replay(Empty(1), steps).Some?
            && Runs(Replay(Empty(1), steps).value, 0) == 2
  {
    var s3 := Take(Take(Take(Empty(1), Enqueue(0)), Deliver(0)), Begin(0));
    var s6 := Take(Take(Take(s3, Requeue(0)), Deliver(0)), Begin(0));
    BeginsOnce(Empty(1), s3);
    BeginsAgain(s3, s6);
    FaultFreeConcat(Empty(1), [Enqueue(0), Deliver(0), Begin(0)], [Requeue(0), Deliver(0), Begin(0)]);
    ReplayConcat(Empty(1), [Enqueue(0), Deliver(0), Begin(0)], [Requeue(0), Deliver(0), Begin(0)]);
    assert [Enqueue(0), Deliver(0), Begin(0)] + [Requeue(0), Deliver(0), Begin(0)]
        == [Enqueue(0), Deliver(0), Begin(0), Requeue(0), Deliver(0), Begin(0)];
  }

  lemma BeginsOnce(s: State, end: State)
    requires s == Empty(1) && end == Take(Take(Take(s, Enqueue(0)), Deliver(0)), Begin(0))
    ensures FaultFreeRun(s, [Enqueue(0), Deliver(0), Begin(0)]) && Replay(s, [Enqueue(0), Deliver(0), Begin(0)]) == Some(end)
    ensures At(end, 0, Unacked(Processing)) && end.copies[0].message.job == 0 && Runs(end, 0) == 1
  {
    var s1 := Take(s, Enqueue(0));
    var s2 := Take(s1, Deliver(0));
    RunOf(s2, [Begin(0)], end);
    RunOf(s1, [Deliver(0), Begin(0)], end);
    RunOf(s, [Enqueue(0), Deliver(0), Begin(0)], end);
  }

  lemma BeginsAgain(s: State, end: State)
    requires At(s, 0, Unacked(Processing)) && s.copies[0].message.job == 0
    requires end == Take(Take(Take(s, Requeue(0)), Deliver(0)), Begin(0))
    ensures FaultFreeRun(s, [Requeue(0), Deliver(0), Begin(0)]) && Replay(s, [Requeue(0), Deliver(0), Begin(0)]) == Some(end)
    ensures Runs(end, 0) == Runs(s, 0) + 1
  {
    var s1 := Take(s, Requeue(0));
    var s2 := Take(s1, Deliver(0));
    RunOf(s2, [Begin(0)], end);
    RunOf(s1, [Deliver(0), Begin(0)], end);
    RunOf(s, [Requeue(0), Deliver(0), Begin(0)], end);
  }

  /** One more fault-free step in front of a fault-free run. */
  lemma RunOf(s: State, steps: seq<Step>, end: State)
    requires steps != [] && Enabled(s, steps[0]) && FaultFree(s, steps[0])
    requires FaultFreeRun(Take(s, steps[0]), steps[1..]) && Replay(Take(s, steps[0]), steps[1..]) == Some(end)
    ensures FaultFreeRun(s, steps) && Replay(s, steps) == Some(end)
  {}

  /** Before the first job everything holds. */
  function Empty(max: nat): State { State(max, map[], 0, {}, {}, map[]) }

  lemma EmptyIsLinear(max: nat)
    requires max >= 1
    ensures Linear(Empty(max)) && forall job :: Accounts(Empty(max), job, 0, 0, 0)
  {}

  // ---- termination ----

  /** Steps left to a live copy at best: attempts still to come, then the stage of this one. */
  function Rank(max: nat, c: Copy): nat
    requires c.message.attempt <= max
  {
    match c.place
    case Dead => 0
    case Retry => 5 * (max - c.message.attempt) + 4
    case Ready => 5 * (max - c.message.attempt) + 3
    case Unacked(Held) => 5 * (max - c.message.attempt) + 2
    case Unacked(Processing) => 5 * (max - c.message.attempt) + 1
    case Unacked(Republished) => 0
  }

  /** The rank of a job: of its live copy, or zero. */
  ghost predicate HasRank(s: State, job: Job, rank: nat)
    requires Inv(s)
  {
    && (forall c :: Carries(s, c, job) ==> Rank(s.max, s.copies[c]) == rank)
    && ((forall c :: !Carries(s, c, job)) ==> rank == 0)
  }

  /** The steps that bring a job no closer to its end: a contention hop, or a requeue. */
  predicate IsDetour(t: Step) { t.Requeue? || (t.Republish? && t.route.Contention?) }

  /** The rank after the step of the copy it moved. */
  ghost function RankAfter(s: State, t: Step, job: Job, rank: nat): nat
    requires Inv(s) && Enabled(s, t) && Inv(Take(s, t))
  {
    if !Advances(s, t, job) then rank
    else if t.AckFinished? then 0
    else Rank(s.max, Take(s, t).copies[Moved(s, t)])
  }

  lemma MoveLowersRank(s: State, t: Step, job: Job)
    requires Inv(s) && Enabled(s, t) && FaultFree(s, t) && Inv(Take(s, t)) && Advances(s, t, job)
    ensures Carries(s, t.copy, job) && (!t.AckFinished? ==> Carries(Take(s, t), Moved(s, t), job))
    ensures RankAfter(s, t, job, 0) <= Rank(s.max, s.copies[t.copy]) + if IsDetour(t) then 2 else -1
  {
    var c := s.copies[t.copy];
    if t.Republish? {
      assert Take(s, t).copies[s.next] == Forward(c.message, t.route);
    }
  }

  lemma StepLowersRank(s: State, t: Step, job: Job, rank: nat)
    requires Linear(s) && job in s.enqueued && Enabled(s, t) && FaultFree(s, t) && HasRank(s, job, rank)
    ensures Inv(Take(s, t))
    ensures HasRank(Take(s, t), job, RankAfter(s, t, job, rank))
    ensures Advances(s, t, job) ==> RankAfter(s, t, job, rank) <= if IsDetour(t) then rank + 2 else rank - 1
  {
    StepKeepsInv(s, t);
    if Advances(s, t, job) {
      MoveLowersRank(s, t, job);
      MovedIsSole(s, t, job);
    } else {
      OthersStay(s, t, job);
    }
  }

  /** After a step on the job its only live copy is the moved one. */
  lemma MovedIsSole(s: State, t: Step, job: Job)
    requires Linear(s) && Enabled(s, t) && FaultFree(s, t) && Advances(s, t, job) && Carries(s, t.copy, job)
    ensures forall c :: Carries(Take(s, t), c, job) ==> !t.AckFinished? && c == Moved(s, t)
  {
    forall c | Carries(Take(s, t), c, job)
      ensures !t.AckFinished? && c == Moved(s, t)
    {
      LiveComesFrom(s, t, c, job);
    }
  }

  /** A step on something else leaves the job's live copies as they are. */
  lemma OthersStay(s: State, t: Step, job: Job)
    requires Inv(s) && job in s.enqueued && Enabled(s, t) && FaultFree(s, t) && !Advances(s, t, job)
    ensures forall c :: Carries(Take(s, t), c, job) <==> Carries(s, c, job)
    ensures forall c :: Carries(s, c, job) ==> Take(s, t).copies[c] == s.copies[c]
  {
    forall c | Carries(Take(s, t), c, job)
      ensures Carries(s, c, job)
    {
      LiveComesFrom(s, t, c, job);
    }
  }

  function AdvanceCount(s: State, steps: seq<Step>, job: Job): nat
    decreases |steps|
  {
    if steps == [] || !Enabled(s, steps[0]) then 0
    else (if Advances(s, steps[0], job) then 1 else 0) + AdvanceCount(Take(s, steps[0]), steps[1..], job)
  }

  function DetourCount(s: State, steps: seq<Step>, job: Job): nat
    decreases |steps|
  {
    if steps == [] || !Enabled(s, steps[0]) then 0
    else (if Advances(s, steps[0], job) && IsDetour(steps[0]) then 1 else 0)
         + DetourCount(Take(s, steps[0]), steps[1..], job)
  }

  /** Termination: in a fault-free run every step on a job except a contention hop or a requeue
      lowers its rank (attempts left, stage), so a job can take at most its rank in steps, and
      three more for each such detour. */
  lemma {:induction false} JobsTerminate(s: State, steps: seq<Step>, job: Job, rank: nat)
    requires Linear(s) && job in s.enqueued && HasRank(s, job, rank)
    requires FaultFreeRun(s, steps) && Replay(s, steps).Some?
    ensures AdvanceCount(s, steps, job) <= rank + 3 * DetourCount(s, steps, job)
    decreases |steps|
  {
    if steps != [] {
      var t := steps[0];
      StepKeepsLinear(s, t);
      StepLowersRank(s, t, job, rank);
      JobsTerminate(Take(s, t), steps[1..], job, RankAfter(s, t, job, rank));
    }
  }
}
