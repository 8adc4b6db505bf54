/** The JSON envelope of a review job and its trips through the queues. */
module Envelope {
  import opened Wrappers
  import opened Delivery

  datatype Json = Text(text: string) | Number(number: int) | Flag(flag: bool) | Null

  /** The entries of the envelope, by name. */
  datatype Key =
    | JobId | ContractId | VersionId | WorkspaceId | EmailThreadId | RequestedBy | Version | SourceChannel
    | SendReviewEmail | Attempt
    | RecipientName | ResponseAddress | OriginalSubject | InReplyTo | References | ProcessingRunId
    | SourceThreadKey | SlackInstallationId | SlackChannelId | SlackThreadTs | SubmissionKey
  {
    predicate IsRequired() {
      JobId? || ContractId? || VersionId? || WorkspaceId? || EmailThreadId? || RequestedBy?
    }

    predicate IsOptional() {
      || RecipientName? || ResponseAddress? || OriginalSubject? || InReplyTo? || References? || ProcessingRunId?
      || SourceThreadKey? || SlackInstallationId? || SlackChannelId? || SlackThreadTs? || SubmissionKey?
    }
  }

  /** Six entries must be there, four more have a default, and the rest are optional strings. */
  lemma KindsOfKeys(k: Key)
    ensures k.IsRequired() <==> k in [JobId, ContractId, VersionId, WorkspaceId, EmailThreadId, RequestedBy]
    ensures k.IsOptional() <==> !k.IsRequired() && k !in [Version, SourceChannel, SendReviewEmail, Attempt]
  {}

  type Body = map<Key, Json>

  /** A job: its required attributes, and those optional strings that are not None. */
  datatype ReviewJob = ReviewJob(
    jobId: string, contractId: string, versionId: string, workspaceId: string, emailThreadId: string,
    requestedBy: string, version: int, sourceChannel: string, sendReviewEmail: bool, attempt: int,
    optional: map<Key, string>)
  {
    predicate Valid() { forall k <- optional :: k.IsOptional() }

    /** The entry under a key; null stands for an optional string that is None. */
    function Entry(k: Key): Json {
      match k
      case JobId => Text(jobId)
      case ContractId => Text(contractId)
      case VersionId => Text(versionId)
      case WorkspaceId => Text(workspaceId)
      case EmailThreadId => Text(emailThreadId)
      case RequestedBy => Text(requestedBy)
      case Version => Number(version)
      case SourceChannel => Text(sourceChannel)
      case SendReviewEmail => Flag(sendReviewEmail)
      case Attempt => Number(attempt)
      case _ => if k in optional then Text(optional[k]) else Null
    }
  }

  datatype DecodeError = MissingKey | WrongType

  /** to_message: every required entry, and the optional ones that are present. */
  function Encode(j: ReviewJob): Body {
    map k: Key | !k.IsOptional() || k in j.optional :: j.Entry(k)
  }

  /** The types the decoder is given: numbers for numbers, text or null for the rest. */
  predicate WellTyped(m: Body) {
    forall k <- m :: if k.Version? || k.Attempt? then m[k].Number?
                     else if k.IsOptional() then m[k].Text? || m[k].Null?
                     else k.SendReviewEmail? || m[k].Text?
  }

  /** The optional strings of a body; a missing, null or empty entry is absent. */
  function Optionals(m: Body): map<Key, string> {
    map k: Key | k in m && k.IsOptional() && m[k].Text? && m[k].text != "" :: m[k].text
  }

  function TextAt(m: Body, k: Key, default: string): string {
    if k in m && m[k].Text? then m[k].text else default
  }

  function NumberAt(m: Body, k: Key, default: int): int {
    if k in m && m[k].Number? then m[k].number else default
  }

  /** The job read from a complete, well-typed body. */
  function Build(m: Body): ReviewJob {
    ReviewJob(TextAt(m, JobId, ""), TextAt(m, ContractId, ""), TextAt(m, VersionId, ""), TextAt(m, WorkspaceId, ""),
              TextAt(m, EmailThreadId, ""), TextAt(m, RequestedBy, ""), NumberAt(m, Version, 1),
              TextAt(m, SourceChannel, "email"), SendReviewEmail in m && Truthy(m[SendReviewEmail]),
              NumberAt(m, Attempt, 1), Optionals(m))
  }

  /** from_message */
  function Decode(m: Body): Result<ReviewJob, DecodeError> {
    if k: Key :| k.IsRequired() && k !in m then Failure(MissingKey)
    else if !WellTyped(m) then Failure(WrongType)
    else Success(Build(m))
  }

  predicate Truthy(j: Json) {
    match j
    case Text(s) => s != ""
    case Number(n) => n != 0
    case Flag(b) => b
    case Null => false
  }

  /** An empty optional string becomes absent; nothing else changes. */
  function Normal(j: ReviewJob): ReviewJob {
    j.(optional := map k | k in j.optional && j.optional[k] != "" :: j.optional[k])
  }

  lemma OptionalsReadBack(j: ReviewJob)
    requires j.Valid()
    ensures Optionals(Encode(j)) == Normal(j).optional
  {
    var m := Encode(j);
    assert forall k: Key :: k.IsOptional() ==> (k in m <==> k in j.optional) && (k in m ==> m[k] == Text(j.optional[k]));
    assert Optionals(m).Keys == Normal(j).optional.Keys;
  }

  lemma EntriesReadBack(j: ReviewJob)
    requires j.Valid()
    ensures forall k <- Encode(j) :: Encode(j)[k] == j.Entry(k)
    ensures forall k: Key :: k.IsRequired() ==> k in Encode(j)
    ensures Version in Encode(j) && Attempt in Encode(j) && SourceChannel in Encode(j) && SendReviewEmail in Encode(j)
  {}

  lemma EncodeDecodes(j: ReviewJob)
    requires j.Valid()
    ensures Decode(Encode(j)) == Success(Build(Encode(j)))
  {
    EntriesReadBack(j);
  }

  lemma BuildReadsBack(j: ReviewJob)
    requires j.Valid()
    ensures Build(Encode(j)) == Normal(j)
  {
    OptionalsReadBack(j);
    EntriesReadBack(j);
  }

  /** Any job survives encoding and decoding up to its normal form. */
  lemma RoundTrip(j: ReviewJob)
    requires j.Valid()
    ensures Decode(Encode(j)) == Success(Normal(j))
  {
    EncodeDecodes(j);
    BuildReadsBack(j);
  }

  lemma NormalIsStable(j: ReviewJob)
    ensures Normal(Normal(j)) == Normal(j)
    ensures Normal(j.(attempt := j.attempt + 1)) == Normal(j).(attempt := j.attempt + 1)
  {}

  predicate Holds(m: Body, k: Key, value: Json) { k in m && m[k] == value }

  /** The envelope on the wire: every attribute under its key, optional strings only when present. */
  lemma EnvelopeHolds(j: ReviewJob, m: Body)
    requires j.Valid() && m == Encode(j)
    ensures forall k: Key :: k in m <==> !k.IsOptional() || k in j.optional
    ensures forall k <- j.optional :: Holds(m, k, Text(j.optional[k]))
    ensures Holds(m, JobId, Text(j.jobId)) && Holds(m, ContractId, Text(j.contractId))
    ensures Holds(m, VersionId, Text(j.versionId)) && Holds(m, WorkspaceId, Text(j.workspaceId))
    ensures Holds(m, EmailThreadId, Text(j.emailThreadId)) && Holds(m, RequestedBy, Text(j.requestedBy))
    ensures Holds(m, Version, Number(j.version)) && Holds(m, SourceChannel, Text(j.sourceChannel))
    ensures Holds(m, SendReviewEmail, Flag(j.sendReviewEmail)) && Holds(m, Attempt, Number(j.attempt))
  {}

  /** What the decoder makes of any body: a missing required entry fails first, then a wrong type; a
      missing number, channel or flag has its default, and an optional string is taken when it is
      there and not empty. */
  lemma DecodeMeans(m: Body)
    ensures Decode(m) == Failure(MissingKey) <==> exists k: Key :: k.IsRequired() && k !in m
    ensures Decode(m) == Failure(WrongType) <==> (forall k: Key :: k.IsRequired() ==> k in m) && !WellTyped(m)
    ensures Decode(m).Success? ==>
              var j := Decode(m).value;
              && (forall k: Key :: k in j.optional <==> k.IsOptional() && k in m && m[k].Text? && m[k].text != "")
              && (forall k <- j.optional :: m[k] == Text(j.optional[k]))
              && (if Attempt in m then m[Attempt] == Number(j.attempt) else j.attempt == 1)
              && (if Version in m then m[Version] == Number(j.version) else j.version == 1)
              && (if SourceChannel in m then m[SourceChannel] == Text(j.sourceChannel) else j.sourceChannel == "email")
              && (SendReviewEmail !in m ==> !j.sendReviewEmail)
              && (SendReviewEmail in m ==>
                    (j.sendReviewEmail <==> m[SendReviewEmail] !in {Flag(false), Text(""), Number(0), Null}))
  {}

  /** The normal form keeps everything but empty optional strings. */
  lemma NormalKeeps(j: ReviewJob)
    ensures Normal(j) == j.(optional := Normal(j).optional)
    ensures forall k: Key :: k in Normal(j).optional <==> k in j.optional && j.optional[k] != ""
    ensures forall k <- Normal(j).optional :: Normal(j).optional[k] == j.optional[k]
  {}

  /** What a worker publishes for a job it received. */
  function Republished(j: ReviewJob, route: Route): ReviewJob {
    if route.Again? then j.(attempt := j.attempt + 1) else j
  }

  /** One hop: what a worker decodes of what was encoded. */
  type Hop = ReviewJob -> Result<ReviewJob, DecodeError>

  const THROUGH_A_QUEUE: Hop := (j: ReviewJob) => Decode(Encode(j))

  /** The job received after a trip over some routes. */
  function Travel(hop: Hop, j: ReviewJob, routes: seq<Route>): Result<ReviewJob, DecodeError>
    decreases |routes|
  {
    match hop(j)
    case Failure(e) => Failure(e)
    case Success(received) =>
      if routes == [] then Success(received) else Travel(hop, Republished(received, routes[0]), routes[1..])
  }

  function Retries(routes: seq<Route>): nat {
    if routes == [] then 0 else (if routes[0].Again? then 1 else 0) + Retries(routes[1..])
  }

  lemma {:induction false} Travels(hop: Hop, j: ReviewJob, routes: seq<Route>)
    requires j.Valid() && forall job: ReviewJob :: job.Valid() ==> hop(job) == Success(Normal(job))
    ensures Travel(hop, j, routes) == Success(Normal(j).(attempt := j.attempt + Retries(routes)))
    decreases |routes|
  {
    if routes != [] {
      var next := Republished(Normal(j), routes[0]);
      NormalIsStable(j);
      Travels(hop, next, routes[1..]);
      assert Normal(next) == next;
    }
  }

  /** After any number of hops through retry, contention and dead letter the job is the
      enqueued one in normal form, with one more attempt for each retry. */
  lemma EnvelopeSurvives(j: ReviewJob, routes: seq<Route>)
    requires j.Valid()
    ensures Travel(THROUGH_A_QUEUE, j, routes) == Success(Normal(j).(attempt := j.attempt + Retries(routes)))
  {
    forall job: ReviewJob | job.Valid()
      ensures THROUGH_A_QUEUE(job) == Success(Normal(job))
    {
      RoundTrip(job);
    }
    Travels(THROUGH_A_QUEUE, j, routes);
  }

  /** A retry raises the attempt by one; the other hops leave it; over a trip the retries add up. */
  lemma {:induction false} RetriesAddUp(routes: seq<Route>, last: Route)
    ensures Retries([]) == 0 && Retries(routes + [last]) == Retries(routes) + if last.Again? then 1 else 0
    decreases |routes|
  {
    if routes == [] {
      assert routes + [last] == [last] && [last][1..] == [];
    } else {
      RetriesAddUp(routes[1..], last);
      assert (routes + [last])[1..] == routes[1..] + [last];
    }
  }
}
