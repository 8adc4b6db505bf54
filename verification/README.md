# Samvid contract review: models and proofs

A Dafny model of the parts of the contract-review service whose correctness depends on every
run, every stream or every text, with proofs of what they keep.

* **Admission control** (`Clock`, `TokenBucket`, `Quota`, `Redis`, `AdmissionScripts`, `AdmissionRun`): minute and
  hour token buckets with lazy refill and expiring keys, a daily counter, and the four Redis
  scripts as atomic methods on a server object. `Quota` proves properties of all runs of the
  admission function; each script's contract says it performs exactly one such admission, and
  `AdmissionRun` carries the bounds over to what the scripts' replies admit on one server.
* **Upload reservations** (`Decimal`, `LeaseCodec`, `Reservation`, `UploadRoute`): the leased
  reservation of a blob pathname, its encoding in one string, its safety over whole runs, and
  the upload route as a client of the lease.
* **Chunking** (`Chunking`): the page-aware overlapping chunker.
* **Job delivery** (`Delivery`, `Worker`, `Contracts`, `Envelope`): the broker's copies of a job
  as a step relation with crashes, lost confirmations and failed acks; the worker's delivery
  procedure proved to take only such steps; the contract status it leaves; the job envelope.
* **Event stream** (`EventStream`): the server's printer and the browser's incremental reader, for
  the format of section 9.2 of the WHATWG HTML Living Standard as far as the two use it.
* **Retrieval** (`Sorting`, `Fusion`, `Retrieval`, `Embedding`, `Evidence`): reciprocal rank fusion,
  reranking, batched embedding alignment, and the evidence registry with its citation resolver.

`dafny verify dfyconfig.toml` checks everything.

## How the model reads the program

* Token arithmetic is over exact reals; instants are reals in seconds. A call is one atomic step
  at its instant; instants of a run never go back.
* Limits use 0 for "not configured", as the scripts' arguments do.
* One run follows the quota keys of one identity, another the key of one pathname. A quota run
  marks calls that an existing reservation answered (`skipped`); a reservation run carries the
  quota's answer (`admitted`). Both are arbitrary, and `AdmissionScripts.ReserveUpload` ties them
  together. The scripts' contracts also say that every other key is unchanged.
* Calls outside the process (database, storage, model, claim store, broker) are arbitrary
  answers in a `World` value. `Contracts.Contract.ReviewFile` assumes that persisting a review
  stores it and sets the status in one step.
* `Worker` runs one callback without other workers in between; `Delivery` lets any steps of any
  number of workers and faults interleave, and each callback contributes only such steps.

## Findings

* A chunk can lie inside an earlier one although every cut moves forward, in the default
  configuration (`Chunking.NestedChunkExample`). `Chunking.InsideExactly` gives the exact
  condition and `Chunking.NoChunkInside` one that can be checked on the page beforehand.
* A denied request repeated behind the reported wait is admitted if and only if it fits every
  configured limit and the daily counter, if it was a reason, has expired by then
  (`Quota.RetryAfterIsSound`). A counter created on a whole second always has; one created on a
  fraction of a second can outlive midnight and the wait (`Quota.RetryAfterTooShort`), by less
  than a second (`Quota.RetryAfterPlusOneSecond`).
* For the same reason the daily cap can be passed on a UTC day into which a counter with units left
  was carried: what it admits until it ends, in the day's first second, comes on top of the full
  limit of the counter that follows (`Quota.DailyCapNeedsWholeSeconds`). For policies with a daily
  limit only this is the exact condition (`Quota.DailyCapExactly`), and without such a counter the
  cap holds for every policy (`Quota.ClosedDayIsCapped`).
* A pathname is charged once per lifetime with the program's defaults. An acquire whose lease and
  grace are shorter than the reservation rounds the remaining life to a second and can free the
  pathname up to half a second early (`Reservation.ChargedOncePerLifetime`,
  `Reservation.AcquireShortens`).
* An exception that leaves the worker is answered with a requeue that keeps the attempt number, so
  a job can be processed more than max_attempts times without any broker error
  (`Delivery.RequeueRunsAgain`). A callback requeues exactly when the try body raises and the
  except clause raises as well: for other channels than Slack, when processing fails on the last
  attempt and marking the contract fails (`Worker.ContractWorker.OnMessage`,
  `Worker.WhenOthersRequeue`). Over a run the limit holds if and only if the wasted runs are made up
  for by attempts left or skipped (`Delivery.ProcessedWithinMax`).
* The finalize script's holder test is a prefix test. It is exact for ids of one length, which is
  what the id generator makes; otherwise a shorter prefix of the holder passes
  (`LeaseCodec.ShorterIdPasses`). Reading the expiry back needs no condition on the ids.
* The upload route asks for its lease to be finalized exactly once, except when the storage client
  cannot be built, which happens before its try block: then it does not ask at all
  (`UploadRoute.Request.Upload`). A finalize call that fails is only logged. Either way the lease
  runs out.
* A completed or busy duplicate whose acknowledgement or republication raises is handled by the
  same except clause as a failed review. On its last attempt it marks the contract as failed,
  even one with a persisted review (`Worker.DuplicateMarksReviewedContract`);
  `Worker.ContractWorker.ProcessDelivery` states exactly when.
* A dead-lettered job, of any channel, leaves a terminal contract status if and only if the
  processing service could be built for that attempt, or the status was terminal before
  (`Worker.ContractWorker.ProcessDelivery`).
* With the shipped client the indexing service's batch loop is aligned whatever arrives
  (`Embedding.EmbedWithClient`). The loop alone is aligned if and only if every vector belongs to
  the text at its shifted index (`Embedding.AlignedExactly`): a provider whose indices name texts
  of another batch can swap vectors unnoticed (`Embedding.ForeignIndicesSwap`).

## Model

| member | source | states |
|---|---|---|
| TokenBucket.LevelFlows | src/contractmate/services/rate_limiting.py:46-55 | refill capped at capacity composes over split intervals, stays within capacity, and lets a settled key expire without changing the level |
| TokenBucket.FullByExpiry | src/contractmate/services/rate_limiting.py:73-80 | a bucket is full again when its key expires, from any level down to the tolerance |
| TokenBucket.ChargeIsExact | src/contractmate/services/rate_limiting.py:71-82 | writing a charged bucket back lowers its level by exactly the units, keeps it settled, and ends the key after 120 seconds for the minute and 7200 for the hour |
| TokenBucket.WaitSuffices | src/contractmate/services/rate_limiting.py:53 | after the reported retry the bucket is short of the units if and only if they exceed its capacity |
| TokenBucket.WaitIsLeast | src/contractmate/services/rate_limiting.py:53 | one whole second less than the reported retry does not refill the units |
| TokenBucket.AgreementFlows | src/contractmate/services/rate_limiting.py:46-55 | an expiring key and a never-expiring continuously refilled bucket that agree keep agreeing as time passes |
| Clock.DayKeyEndsAtMidnight | src/contractmate/services/rate_limiting.py:61-61 | a daily key created now ends within a second behind UTC midnight, and exactly at midnight if and only if it is created on a whole second |
| Quota.AdmitConserves | src/contractmate/services/rate_limiting.py:64-89 | a denied call changes no key; an admitted one charges every configured window by exactly the units, within its limit; unconfigured windows stay |
| Quota.LeftIsAvailable | src/contractmate/services/rate_limiting.py:64-89 | what a reply reports as left is what the next call finds: the day admits exactly that much more, a window that much and one more unit only within the tolerance; windows not configured report -1 |
| Quota.WaitsNameTheLimits | src/contractmate/services/rate_limiting.py:57-69 | each wait of a reply is positive exactly when its limit denied the call, and an admission reports none |
| Quota.WindowBound | src/contractmate/services/rate_limiting.py:46-81 | over every run the units charged in [from, to] are at most one capacity, the refill of that span at capacity per 60 seconds for the minute bucket and per 3600 for the hour bucket, and 0.000001 once |
| Quota.AdmitRefines | src/contractmate/services/rate_limiting.py:46-89 | one admission of the lazy, expiring form answers and ends as one of the continuous form |
| Quota.LazyRefinesContinuous | src/contractmate/services/rate_limiting.py:46-89 | on every run the lazy form reports exactly what never-expiring, continuously refilled buckets report |
| Quota.FreshRepresentsFull | src/contractmate/services/rate_limiting.py:49-50 | an identity without keys stands for full buckets |
| Quota.DailyCap | src/contractmate/services/rate_limiting.py:59-86 | on a whole-second clock no UTC day is charged more than its limit and the counter reads what was charged on its day |
| Quota.DailyCapBehindFirstSecond | src/contractmate/services/rate_limiting.py:59-86 | on any clock no UTC day is charged more than its limit from one second behind its start |
| Quota.DailyCapExactly | src/contractmate/services/rate_limiting.py:59-86 | on any clock, seen from an instant of a day, no run of a policy with a daily limit only can charge the rest of that day more than the limit, if and only if no counter with units left was carried into the day |
| Quota.ClosedDayIsCapped | src/contractmate/services/rate_limiting.py:59-86 | that condition keeps the cap for every policy |
| Quota.DailyCapNeedsWholeSeconds | src/contractmate/services/rate_limiting.py:61-86 | a run of sub-second instants that passes the limit at noon |
| Quota.LifetimeCap | src/contractmate/services/rate_limiting.py:83-87 | through one lifetime of the counter key its value is what was admitted in it and never exceeds the limit, on any clock |
| Quota.RetryAfterIsSound | src/contractmate/services/rate_limiting.py:365-371 | on any clock a denied call repeated behind the reported wait is admitted if and only if its units fit every configured limit and the daily counter, if it denied, has expired |
| Quota.DayWaitIsLeast | src/contractmate/services/rate_limiting.py:59-62 | the daily wait is the least whole number of seconds, at least one, that reaches both midnight and, up to half a second, the end of the counter |
| Quota.DayWaitIsExact | src/contractmate/services/rate_limiting.py:61-62 | on a whole second, with a counter created on one, the daily wait ends exactly at midnight |
| Quota.RetryAfterOnWholeSeconds | src/contractmate/services/rate_limiting.py:61-62 | when the counter ends at midnight, as one created on a whole second does, the wait is enough exactly for units that fit |
| Quota.RetryAfterPlusOneSecond | src/contractmate/services/rate_limiting.py:61-62 | on any clock one second more than the reported wait is enough exactly for units that fit |
| Quota.RetryAfterTooShort | src/contractmate/services/rate_limiting.py:61-62 | a call with sub-second instants for which the reported wait is too short |
| Quota.RunStaysSound | src/contractmate/services/rate_limiting.py:57-89 | every run keeps the keys as the other results assume them, on any clock and on a whole-second one |
| AdmissionScripts.ReadBucket | src/contractmate/services/rate_limiting.py:46-55 | the script's bucket function returns the level, its floor and the wait |
| AdmissionScripts.Evaluate | src/contractmate/services/rate_limiting.py:57-69 | the decision and the reply for a denial are the admission function's |
| AdmissionScripts.ConsumeWindows | src/contractmate/services/rate_limiting.py:38-90 | the consume script is one admission on the identity's keys; other keys are unchanged |
| AdmissionScripts.ReserveUpload | src/contractmate/services/rate_limiting.py:95-157 | an existing reservation touches no quota and no key; a new one is one admission, and "reserved" is written with the asked life exactly when admitted or observing |
| AdmissionRun.ServeAll | src/contractmate/services/rate_limiting.py:38-157 | consume and reserve scripts served one behind the other on a server with a moving clock are a run of the admission function, and their replies admit what it charges |
| AdmissionRun.ServeWithinLimits | src/contractmate/services/rate_limiting.py:38-157 | what the replies of any such run admit obeys the same bounds, per 60 and per 3600 seconds, and on a whole-second clock the daily cap |
| AdmissionScripts.AcquireReservation | src/contractmate/services/rate_limiting.py:159-185 | run on the stored string, the script answers and writes what the abstract acquire does |
| AdmissionScripts.FinalizeReservation | src/contractmate/services/rate_limiting.py:187-198 | run on the stored string, the script answers and writes what the abstract finalize does |
| LeaseCodec.ReadsBack | src/contractmate/services/rate_limiting.py:169-189 | the scripts' tests tell the encoded states apart, the expiry reads back for any id, and the holder test is a prefix test |
| LeaseCodec.HolderIsExact | src/contractmate/services/rate_limiting.py:189-189 | among ids of one length only the holder passes the test |
| LeaseCodec.ShorterIdPasses | src/contractmate/services/rate_limiting.py:189-189 | with ids of different lengths another id can pass |
| LeaseCodec.EncodeInjective | src/contractmate/services/rate_limiting.py:169-195 | no two reservation states share an encoding |
| Decimal.ReadPrint | src/contractmate/services/rate_limiting.py:170-180 | a printed expiry consists of digits and reads back as itself |
| Reservation.KeyOutlivesLease | src/contractmate/services/rate_limiting.py:176-182 | a granted lease ends the asked seconds behind the whole second of its grant, and its key outlives it by at least 300 seconds |
| Reservation.LeaseStands | src/contractmate/services/rate_limiting.py:159-198 | while a lease is unexpired and not finalized by its holder no call changes the slot |
| Reservation.ExclusiveLease | src/contractmate/services/rate_limiting.py:169-182 | over every run a later lease is granted only once the earlier one has run out or was finalized |
| Reservation.LostLeaseIsInert | src/contractmate/services/rate_limiting.py:187-198 | a lease once lost never finalizes again and its calls change nothing |
| Reservation.SupersededLeaseIsInert | src/contractmate/services/rate_limiting.py:187-198 | a superseded lease id can never change the state |
| Reservation.HolderCanFinalize | src/contractmate/services/rate_limiting.py:187-198 | a holder neither superseded nor finalized succeeds until a millisecond before 300 seconds behind its lease |
| Reservation.ConsumedOncePerReservation | src/contractmate/services/rate_limiting.py:162-193 | between two finalizes to consumed the pathname was newly reserved and a whole day passed |
| Reservation.StepEnd | src/contractmate/services/rate_limiting.py:176-196 | on Redis' millisecond clock a release leaves the end of a reservation where it was, an acquire sets it by the larger of the rounded TTL and the lease with 300 seconds of grace, a finalize to consumed by 86400 seconds |
| Reservation.AnswersMean | src/contractmate/services/rate_limiting.py:159-185 | an acquire answers missing exactly when nothing is seen, consumed exactly when it is consumed, and busy with the number of whole seconds for which every acquire stays busy, the next one behind being granted |
| Reservation.FinalizeMeans | src/contractmate/services/rate_limiting.py:187-198 | a finalize succeeds exactly on a slot leased to its caller whose key has a millisecond left, leaves it consumed or reserved as asked, and otherwise changes nothing |
| Reservation.ConsumedHasItsReason | src/contractmate/services/rate_limiting.py:162-193 | over every run from an absent slot a consumed slot was finalized to consumed and not newly reserved since |
| Reservation.ReleaseReopens | src/contractmate/services/rate_limiting.py:159-197 | over every run the next acquire behind a release succeeds while the reservation lives |
| Reservation.ReservationEnds | src/contractmate/services/rate_limiting.py:95-157 | a reservation nobody acquires gives way to a new one exactly from the end of its time to live on |
| Reservation.ChargedOncePerLifetime | src/contractmate/services/rate_limiting.py:95-197 | two reserve calls that charge are a whole lifetime apart when every acquire in between has a lease and grace as long as the reservation, as the defaults are, or the clock shows whole seconds |
| Reservation.ChargedOnceUpToRounding | src/contractmate/services/rate_limiting.py:95-197 | on Redis' millisecond clock they always are, up to half a second for each shorter acquire |
| Reservation.AcquireShortens | src/contractmate/services/rate_limiting.py:177-181 | a run in which an acquire with a shorter lease rounds the lifetime down |
| UploadRoute.Request.TryBody | src/contractmate/api/routes.py:637-717 | success is durable exactly when the stored object passes every check and ingestion stores a contract; a lease is released only without it; it answers exactly when nothing behind the checks fails, 202 for a queued contract and 200 otherwise, and raises 404, 413 or a server error by the check that failed |
| UploadRoute.Request.Upload | src/contractmate/api/routes.py:606-729 | for an acquired lease one finalize call is made, to consumed after durable success and a release otherwise, never both; the status code is fixed for every outcome |
| Chunking.FindLast | src/contractmate/ai/chunking.py:117-121 | finds the last occurrence of a separator in the window, or that there is none |
| Chunking.Boundary | src/contractmate/ai/chunking.py:115-122 | cuts behind the last occurrence of the best separator present, or at the window's end |
| Chunking.CutIsUnique | src/contractmate/ai/chunking.py:115-122 | that description determines the cut |
| Chunking.CutIsBehind | src/contractmate/ai/chunking.py:115-122 | a cut in a full window is its end, or right behind a blank line, a line end, a full stop, a semicolon or a space that stands from min_boundary_chars on |
| Chunking.CutPrefers | src/contractmate/ai/chunking.py:34-37 | wherever one of these stands there the cut is behind a better one, or behind the same one and not earlier |
| Chunking.LaterStartLaterCut | src/contractmate/ai/chunking.py:115-122 | a later window never cuts earlier, and cuts later when it opens at or behind the old cut |
| Chunking.ChunkPage | src/contractmate/ai/chunking.py:74-113 | the loop terminates and produces a complete scan of the page |
| Chunking.ChunkingIsUnique | src/contractmate/ai/chunking.py:74-113 | the description of a complete scan determines the chunks |
| Chunking.ChunkShape | src/contractmate/ai/chunking.py:90-105 | every chunk is not empty, has no space at either end and is at most max_chars long |
| Chunking.ChunkWindow | src/contractmate/ai/chunking.py:85-90 | a chunk is cut in a window of max_chars, or at the end of the page when the window reaches it |
| Chunking.Neighbours | src/contractmate/ai/chunking.py:109-112 | the next chunk starts later, goes back the full overlap behind the cut but for space, and skips nothing but space |
| Chunking.EndsMonotone | src/contractmate/ai/chunking.py:85-112 | starts strictly increase and ends never decrease; cuts strictly increase when min_boundary_chars is at least the overlap |
| Chunking.Coverage | src/contractmate/ai/chunking.py:85-112 | every character that is not space lies in some chunk |
| Chunking.TextIsCovered | src/contractmate/ai/chunking.py:74-113 | every character of a page that is not space is in the text of some chunk of that page, where the chunk's span says |
| Chunking.InsideExactly | src/contractmate/ai/chunking.py:92-112 | a later chunk lies inside an earlier one if and only if only space was read between the earlier end and the later cut |
| Chunking.NoChunkInside | src/contractmate/ai/chunking.py:39-45 | with min_boundary_chars at least the overlap, a page without trailing space and without a run of max(1, min_boundary_chars - overlap_chars) spaces has no chunk inside an earlier one |
| Chunking.NestedChunkExample | src/contractmate/ai/chunking.py:34-37 | in the default configuration two trailing spaces yield a chunk inside another |
| Chunking.ChunkCount | src/contractmate/ai/chunking.py:85-112 | with d = min_boundary_chars - overlap_chars > 0 a page of n characters gives at most 1 + (n - 1) / d chunks |
| Chunking.ChunkPages | src/contractmate/ai/chunking.py:47-72 | rejects blank ids and names the first page whose number is missing, not positive or repeated; otherwise it returns each page's chunks in page order, each with the page's number and exactly the page's text from its start to its end |
| Delivery.StepKeepsInv | src/contractmate/workers/queue.py:409-426 | every step of broker, worker or fault keeps a live copy of each unfinished job, attempts within the limit, and dead letters at the limit |
| Delivery.NoJobLost | src/contractmate/workers/queue.py:560-602 | over every run with crashes, lost confirmations, failed acks and duplicates each enqueued job has a live copy or was acknowledged on a finishing path |
| Delivery.CopiesTakeTheirCourse | src/contractmate/workers/queue.py:409-602 | every copy keeps its message and only an acknowledgement takes one away; new, requeued and expired copies can be delivered with their attempt number, and a republished one can no longer be acknowledged as finished |
| Delivery.ExactlyOneCopy | src/contractmate/workers/queue.py:409-602 | without faults, requeues by escaping exceptions included, a job has exactly one live copy until finished and none afterwards; its processing runs are exactly the attempts its copy stands for, plus the runs that ended in a requeue, minus the attempts passed on unprocessed |
| Delivery.ProcessedWithinMax | src/contractmate/workers/queue.py:409-602 | a job is processed at most max_attempts times if and only if its copy's attempts and the wasted runs are within max_attempts and the skipped attempts; for a dead-lettered job if and only if no more runs were wasted than attempts skipped |
| Delivery.RequeueRunsAgain | src/contractmate/workers/queue.py:421-424 | a run without faults in which a requeue lets one allowed attempt run twice |
| Delivery.StepLowersRank | src/contractmate/workers/queue.py:409-591 | each fault-free step on a job except a contention hop or a requeue lowers its rank of attempts left and stage |
| Delivery.JobsTerminate | src/contractmate/workers/queue.py:409-602 | a fault-free job takes at most its rank in steps and three more for each contention hop or requeue |
| Delivery.EmptyIsLinear | src/contractmate/workers/queue.py:492-519 | the empty broker satisfies the invariants |
| Worker.Broker.Publish | src/contractmate/workers/queue.py:535-541 | a publication moves the broker by the steps its outcome allows and raises unless confirmed |
| Worker.Broker.Acknowledge | src/contractmate/workers/queue.py:560-562 | an ack moves the broker by the steps its outcome allows |
| Worker.RabbitDelivery.Ack | src/contractmate/workers/queue.py:560-564 | an ack on a finishing path is one finishing step, or none |
| Worker.RabbitDelivery.PublishThenAck | src/contractmate/workers/queue.py:566-602 | publish before ack: the exact steps for every outcome; the copy is acknowledged only once its successor is confirmed |
| Worker.RabbitDelivery.Retry | src/contractmate/workers/queue.py:566-579 | below the limit the broker is left with the job and the next attempt number in retry, at the limit with the job unchanged in dead letter, and the original acknowledged |
| Worker.RabbitDelivery.RetryContention | src/contractmate/workers/queue.py:581-591 | the broker is left with the job and its attempt unchanged in retry, and the original acknowledged |
| Worker.CleanDelivery | src/contractmate/workers/contract_worker.py:132-219 | a delivery that runs at most once and lets go once is fault-free and releases its copy |
| Worker.ContractWorker.ClaimExecution | src/contractmate/workers/contract_worker.py:138-155 | the broker steps and the end of the claim for every answer of the claim store; only a granted claim goes on |
| Worker.ContractWorker.ProcessBody | src/contractmate/workers/contract_worker.py:136-178 | the exact steps of the try body, its ending and the status it leaves, for every answer from outside; each review stage runs at most once |
| Worker.ContractWorker.HandleFailure | src/contractmate/workers/contract_worker.py:179-212 | the exact steps of the except clause: acknowledge when superseded, nothing when the clause itself raises, otherwise retry or dead-letter and then acknowledge; when it marks the contract, and when an exception leaves it |
| Worker.WhenDone | src/contractmate/workers/contract_worker.py:136-178 | the try body runs to its end exactly when every call made for the job goes through, and returns exactly for a duplicate that could be let go |
| Worker.WhenFinished | src/contractmate/workers/contract_worker.py:136-219 | with the broker answering a job is acknowledged as finished exactly when all of its processing went well, it is a duplicate of a completed job, or it failed under a superseded lease |
| Worker.WhenSentOn | src/contractmate/workers/contract_worker.py:179-212 | with the broker answering a delivery goes to retry, or on the last attempt to dead letter, exactly when it failed, was not superseded and the except clause came through |
| Worker.WhenMarked | src/contractmate/workers/contract_worker.py:186-205 | a delivery marks the contract as failed exactly when it failed on the last attempt of a built service with its lease still its own and the marking went through |
| Worker.WhenOthersRequeue | src/contractmate/workers/contract_worker.py:179-212 | a delivery of another channel than Slack escapes exactly when processing fails on the last attempt of a built service and marking the contract fails too |
| Worker.ContractWorker.Deliver | src/contractmate/workers/contract_worker.py:132-219 | the exact steps, status, review progress and exception of one delivery for every answer of the broker, the claim store and the database |
| Worker.ContractWorker.ProcessDelivery | src/contractmate/workers/contract_worker.py:132-219 | when all is well the job is processed once, acknowledged, and leaves the status the document decides; with the broker answering the steps are exactly the healthy ones, and an exception leaves exactly when both the try body and the except clause raise, or closing the service fails; an acknowledged non-Slack job leaves a terminal status, a dead-lettered job of any channel exactly when the service could be built or the status was terminal; a duplicate changes the status exactly when it could not be let go on the last attempt and the marking works |
| Worker.DuplicateMarksReviewedContract | src/contractmate/workers/contract_worker.py:143-199 | a completed duplicate whose ack fails on the last attempt marks a contract with a persisted review as failed |
| Worker.ContractWorker.OnMessage | src/contractmate/workers/queue.py:409-426 | whatever escapes the worker is answered by a nack, for every answer of the broker; with a healthy broker the callback is a fault-free run, requeues the live copy exactly when both the try body and the except clause raise, and always lets the copy go |
| Contracts.Contract.ReviewStored | src/contractmate/services/contract_processing.py:277-351 | the exact status and the stages called; a review raises exactly when a raising call lies on its path, and one that returns leaves the terminal status it reports |
| Contracts.Contract.ReviewFile | src/contractmate/services/contract_processing.py:460-548 | the exact status of a review, also when it raises half-way; each stage is called at most once and a review is persisted exactly with review_ready |
| Contracts.ReviewFollowsItsCalls | src/contractmate/services/contract_processing.py:460-548 | the status, and whether OCR and the model are called, is what the calls of the review leave one behind the other up to the one that raises |
| Contracts.FailsOnItsCalls | src/contractmate/services/contract_processing.py:277-351 | a stored review raises exactly when the contract is missing or one of the calls on its path raises |
| Contracts.ReviewedOnce | src/contractmate/services/contract_processing.py:277-548 | a persisted review is never made again; another is parsed at most once, with OCR and model calls only behind parsing, and persisted exactly when it ends as ready |
| Envelope.RoundTrip | src/contractmate/workers/queue.py:52-110 | decoding an encoded job yields its normal form: only empty optional strings become absent |
| Envelope.EnvelopeHolds | src/contractmate/workers/queue.py:52-84 | the envelope has every attribute under its own key, and optional strings only when present |
| Envelope.DecodeMeans | src/contractmate/workers/queue.py:86-110 | a missing required entry fails, missing numbers, channel and flag have their defaults, and optional strings are taken when there and not empty |
| Envelope.NormalIsStable | src/contractmate/workers/queue.py:97-108 | normalising twice changes nothing more |
| Envelope.NormalKeeps | src/contractmate/workers/queue.py:97-108 | the normal form drops empty optional strings and nothing else |
| Envelope.Travels | src/contractmate/workers/queue.py:566-602 | a job that hops through any retries and contentions differs from its normal form in the attempt only |
| Envelope.EnvelopeSurvives | src/contractmate/workers/queue.py:52-110 | after any number of hops a job is the enqueued one up to the attempt and empty optional strings |
| EventStream.BreakIsStable | frontend/src/features/chat/api.ts:75-76 | a separator found in a prefix stays first and of the same length when more text arrives |
| EventStream.SplitResumes | frontend/src/features/chat/api.ts:74-77 | splitting the kept remainder and the new text gives exactly the blocks still missing |
| EventStream.BreaksInPlainTerms | frontend/src/features/chat/api.ts:75 | a separator is two line ends, each a line feed or a carriage return and line feed |
| EventStream.BlocksRejoin | frontend/src/features/chat/api.ts:75-76 | the blocks joined by their separators are the text |
| EventStream.BlocksAreUnbroken | frontend/src/features/chat/api.ts:75-76 | no block holds a separator |
| EventStream.ReadStream | frontend/src/features/chat/api.ts:69-81 | for every fragmentation the loop dispatches the blocks of one split of the whole text, up to the first that throws |
| EventStream.ParseBlock | frontend/src/features/chat/api.ts:83-92 | the last event line names the event, the data lines are joined, and a block without data is dropped |
| EventStream.LastEventLineNames | frontend/src/features/chat/api.ts:85-88 | the last event line names the event, and without one it is a message |
| EventStream.DataLinesInOrder | frontend/src/features/chat/api.ts:85-92 | the data lines are taken from the front in their order |
| EventStream.ParsedPrinted | src/contractmate/api/routes.py:1364-1365 | a printed event parses to its trimmed name and its data without leading space |
| EventStream.PrintedStreamArrives | src/contractmate/api/routes.py:1364-1365 | of a stream of printed events, cut anywhere, exactly those events are dispatched in order, up to the first whose dispatch throws |
| Fusion.AddSource | src/contractmate/ai/retrieval.py:134-146 | one pass adds the list's part to every id it holds, once, at its first rank |
| Fusion.Fuse | src/contractmate/ai/retrieval.py:125-156 | the result is free of duplicates, holds exactly the ids of both lists with their reference scores, chunks and sources, and is sorted by score, then id |
| Fusion.ScoreInPlainTerms | src/contractmate/ai/retrieval.py:134-146 | the score sums weight over rank constant plus first rank, counted from one, over the lists that hold the id |
| Fusion.EntryInPlainTerms | src/contractmate/ai/retrieval.py:134-156 | an entry carries the chunk of the first list that has its id, and the lists that do |
| Fusion.DominanceIsKept | src/contractmate/ai/retrieval.py:138-147 | an item ahead of another in every list where the other appears comes out ahead |
| Fusion.FusionIsUnique | src/contractmate/ai/retrieval.py:147-156 | the two lists determine the fused list |
| Retrieval.Rerank | src/contractmate/ai/openrouter.py:111-139 | an answer to a query that is not blank is accepted exactly when it names different documents, none blank, at most top_n if given, and comes back best first with ties in their order; an error names what is wrong |
| Retrieval.Retrieve | src/contractmate/ai/retrieval.py:89-123 | without a reranker exactly the first entries of the fusion, as many as the limit; with one exactly its documents with its scores, best first and ties in its order |
| Retrieval.NothingBetterLeftOut | src/contractmate/ai/retrieval.py:105-105 | without a reranker every fused entry left out scores no more than each one returned |
| Embedding.EmbedDocuments | src/contractmate/ai/openrouter.py:48-74 | any answer whatever is accepted exactly when it is some order of one vector of the right dimension for each text, and comes back with each vector at the position it names; an error names what is wrong |
| Embedding.SortedRange | src/contractmate/ai/openrouter.py:63-65 | sorting by index yields 0..n-1 if and only if the indices are a permutation of it |
| Embedding.Embed | src/contractmate/services/knowledge_indexing.py:156-172 | over any provider it succeeds exactly when every batch has the right number of vectors of the right dimension and the shifted indices are in some order 0..n-1; each vector then stands at its shifted index |
| Embedding.EmbedWithClient | src/contractmate/services/knowledge_indexing.py:156-172 | over the shipped client it succeeds exactly when no text is blank and every answer is some order of its batch, and then the i-th vector is the item that names the i-th text in the answer to its batch |
| Embedding.OwnItem | src/contractmate/services/knowledge_indexing.py:156-172 | each vector then has the values that the answer to its own batch gave the item naming its text |
| Embedding.AlignedExactly | src/contractmate/services/knowledge_indexing.py:168-172 | a successful result is aligned if and only if every vector that arrived belongs to the text at its shifted index |
| Embedding.ForeignIndicesSwap | src/contractmate/services/knowledge_indexing.py:168-172 | indices from another batch can swap two vectors and still pass the check |
| Evidence.Registry.Register | src/contractmate/services/chat_agent.py:133-154 | a known chunk returns its source unchanged; a new one gets the next id; ids stay S1..Sn in bijection with distinct chunks |
| Evidence.Registry.KnownIsNumbered | src/contractmate/services/chat_agent.py:139-153 | the registered ids are exactly S1 to Sn |
| Evidence.Registry.ResolveCitations | src/contractmate/services/chat_agent.py:156-170 | fails on the first token that is not a registered id, or returns the cited sources in first-citation order without repeats |
| Evidence.TokensAreBracketed | src/contractmate/services/chat_agent.py:51-52 | the tokens are exactly the texts of one to 120 characters without bracket or line end that stand in brackets |
| Evidence.StripIsExact | src/contractmate/services/chat_agent.py:160-160 | stripping a token takes off space at both ends and nothing else |
| Evidence.FirstUsesIsDedup | src/contractmate/services/chat_agent.py:165-167 | the resolved list has every cited id exactly once, in the order of first positions |
| Evidence.RenderedTokens | src/contractmate/services/chat_agent.py:51-52 | text put together from prose without opening brackets and bracketed ids has exactly those ids as tokens |
| Evidence.WellCitedResolves | src/contractmate/services/chat_agent.py:156-170 | such text citing registered ids has only known tokens, so it resolves to the deduplicated list |

## Left out

- Floating point: scores and token levels are exact reals, so neither rounding nor Lua's 14-digit printing of the stored numbers is modelled; nor is the truncation of expiries to Redis' millisecond clock, except that the results on the life of a reservation are stated on that clock.
- Redis over REST: unavailability, timeouts and the `RateLimitDecision` and `UploadReservationLease` wrappers around the scripts' answers; key hashing (keys are opaque names).
- Backward clock steps: the scripts clamp them (`TokenBucket.Level` does too), but the runs assume instants that do not go back.
- Quota.DailyCap: stated for a whole-second clock, because with sub-second instants it is false; `Quota.DailyCapExactly`, `Quota.ClosedDayIsCapped`, `Quota.DailyCapBehindFirstSecond` and `Quota.LifetimeCap` are the statements for any clock. When other limits are configured too, whether the units to pass the cap fit through them is not part of the exact condition.
- Reservation.ChargedOncePerLifetime: instants are whole milliseconds, the clock by which Redis keeps and measures expiries.
- Reservation.ExclusiveLease: assumes that lease ids are fresh and of one length, as `token_urlsafe` with a fixed size makes them up to collisions.
- Retrieval.Rerank: response items that are not objects or carry scores that are not numbers are the same error as an invalid index and are not told apart.
- Embedding.EmbedDocuments: texts are taken already stripped; items without an index field, which the client fills with their position, appear with that position.
- EventStream.ReadStream: chunks are decoded text; the incremental UTF-8 decoder, the HTTP error branches and the interpretation of the JSON payload in dispatch are not modelled, and whether a dispatch throws is an arbitrary predicate of the block.
- EventStream.PrintedStreamArrives: that compact JSON holds no line break is a condition on the printed data, since `json.dumps` itself is not modelled; the reader trims the name and the data's leading space, which compact JSON and the server's event names do not have.
- Evidence.WellCitedResolves: ids longer than the bracket pattern's 120 characters are excluded, as they do not form tokens; `\d` is taken as the ten ASCII digits, which changes only the message of a rejected citation.
- Envelope.RoundTrip: message values of JSON types the encoder never writes count as malformed, although `str` and `int` would coerce some of them.
- Delivery.NoJobLost: order within queues, prefetch and time to live of the retry queue are left out; expiry may happen at any time.
- Worker.ContractWorker.ProcessDelivery: the terminal status of an acknowledged job is stated for other channels than Slack, because a Slack duplicate may be acknowledged while another worker still owns the contract; message bodies that do not decode are not modelled.
- Contracts.Contract.ReviewFile: metrics, audit records and stored artefacts appear only as calls that may raise; finalizing a review is assumed atomic, since the SQL repository is not part of this model.
- UploadRoute.Request.Upload: authentication, input validation and response bodies are left out, as are failures of logging.
- Chunk ids, metadata and review chunks of the knowledge index; the knowledge queue, which repeats the review queue without contention hops.
- SQL repositories, the Slack claim store beyond its three answers, email, Slack and knowledge outboxes, OCR and model calls, and the web front end beyond the stream reader.
