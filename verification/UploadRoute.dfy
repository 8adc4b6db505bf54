/** The blob upload route as a client of the reservation lease. Every call it makes outside
    the process may fail; which ones do is an input. */
module UploadRoute {
  import opened Wrappers

  datatype LeaseStatus = Acquired | Missing | Busy | Consumed | Disabled | Unavailable
  datatype Lease = Lease(status: LeaseStatus, allowed: bool, id: Option<string>)

  datatype LeaseCall = Release(id: string) | MarkConsumed(id: string)

  /** What ingestion answers: an error, a rejected file without a contract, or a stored contract. */
  datatype Ingestion = Raises | Rejected | Stored(queued: bool)

  /** Which collaborators fail on this request. */
  datatype World = World(
    lease: Lease,
    storageFails: bool, statFails: bool, foreignPrefix: bool, tooLarge: bool,
    tempFails: bool, downloadFails: bool, ingestion: Ingestion, deleteFails: bool,
    responseFails: bool)

  /** The stored object passes every check and ingestion stores a contract. */
  predicate Storable(w: World) {
    !w.statFails && !w.foreignPrefix && !w.tooLarge && !w.tempFails && !w.downloadFails && w.ingestion.Stored?
  }

  /** The stored object passes every check, ingestion answers and nothing behind it fails. */
  predicate Answers(w: World) {
    && !w.statFails && !w.foreignPrefix && !w.tooLarge && !w.tempFails && !w.downloadFails && !w.ingestion.Raises?
    && (w.ingestion.Rejected? ==> !w.deleteFails) && !w.responseFails
  }

  predicate Refusal(l: Lease) { l.status.Busy? || l.status.Consumed? || !l.allowed }

  datatype Response = Ok | Accepted | Refused(code: int) | ServerError

  class Request {
    var leaseId: Option<string>
    var durableSuccess: bool
    var tempFile: bool
    var calls: seq<LeaseCall>

    constructor ()
      ensures leaseId.None? && !durableSuccess && !tempFile && calls == []
    {
      leaseId, durableSuccess, tempFile, calls := None, false, false, [];
    }

    /** The body of the outer try; None stands for an exception that leaves it. */
    method TryBody(w: World) returns (result: Option<Response>, raised: Response)
      requires calls == [] && !durableSuccess
      modifies this
      ensures durableSuccess ==> calls == (if old(leaseId).Some? then [MarkConsumed(old(leaseId).value)] else [])
      ensures durableSuccess <==> Storable(w)
      ensures !durableSuccess ==>
                || (leaseId == old(leaseId) && calls == [] && result.None?)
                || (leaseId.None? && old(leaseId).None? && calls == [])
                || (leaseId.None? && old(leaseId).Some? && calls == [Release(old(leaseId).value)])
      ensures result.Some? <==> Answers(w)
      ensures result.Some? ==> result.value == (if w.ingestion == Stored(true) then Accepted else Ok)
      ensures result.None? ==> raised == if w.statFails || w.foreignPrefix then Refused(404)
                                         else if w.tooLarge then Refused(413) else ServerError
    {
      raised := ServerError;
      if w.statFails {
        return None, Refused(404);
      }
      if w.foreignPrefix {
        return None, Refused(404);
      }
      if w.tooLarge {
        return None, Refused(413);
      }
      if w.tempFails {
        return None, ServerError;
      }
      tempFile := true;
      if w.downloadFails || w.ingestion.Raises? {
        return None, ServerError;
      }
      if w.ingestion.Rejected? {
        if w.deleteFails {
          return None, ServerError;
        }
        if leaseId.Some? {
          calls := calls + [Release(leaseId.value)];
          leaseId := None;
        }
      } else {
        durableSuccess := true;
        if leaseId.Some? {
          // A failed answer is only logged.
          calls := calls + [MarkConsumed(leaseId.value)];
        }
      }
      if w.responseFails {
        return None, ServerError;
      }
      result := Some(if w.ingestion == Stored(true) then Accepted else Ok);
    }

    /** One request. A lease it holds is finalized exactly once: consumed after durable
        success, released on every other way out, and never released after success. The one
        way to keep a lease unfinalized is the storage constructor failing before the try. */
    method Upload(w: World) returns (response: Response)
      requires leaseId.None? && !durableSuccess && !tempFile && calls == []
      requires w.lease.status.Acquired? ==> w.lease.allowed && w.lease.id.Some?
      requires !w.lease.status.Acquired? ==> w.lease.id.None?
      modifies this
      ensures w.lease.status.Acquired? && !w.storageFails ==>
                calls == [if durableSuccess then MarkConsumed(w.lease.id.value) else Release(w.lease.id.value)]
      ensures !w.lease.status.Acquired? || w.storageFails ==> calls == []
      ensures durableSuccess <==> !Refusal(w.lease) && !w.storageFails && Storable(w)
      ensures response.Ok? || response.Accepted? <==> !Refusal(w.lease) && !w.storageFails && Answers(w)
      ensures response.Accepted? ==> w.ingestion == Stored(true)
      ensures response.Ok? ==> w.ingestion != Stored(true)
      ensures w.lease.status.Unavailable? && !w.lease.allowed ==> response == Refused(503)
      ensures w.lease.status.Busy? || w.lease.status.Consumed? ==> response == Refused(409)
      ensures !w.lease.allowed && !w.lease.status.Unavailable? ==> response == Refused(409)
      ensures w.lease.allowed && !w.lease.status.Busy? && !w.lease.status.Consumed? ==> response != Refused(409)
      ensures !Refusal(w.lease) && !w.storageFails ==>
                && (w.statFails || w.foreignPrefix ==> response == Refused(404))
                && (!w.statFails && !w.foreignPrefix && w.tooLarge ==> response == Refused(413))
      ensures w.storageFails && !Refusal(w.lease) ==> response == ServerError
      ensures !Refusal(w.lease) && !w.storageFails && !w.statFails && !w.foreignPrefix && !w.tooLarge && !Answers(w) ==> response == ServerError
      ensures !tempFile
    {
      if w.lease.status.Unavailable? && !w.lease.allowed {
        return Refused(503);
      }
      if w.lease.status.Busy? || w.lease.status.Consumed? || !w.lease.allowed {
        return Refused(409);
      }
      if w.storageFails {
        return ServerError;
      }
      leaseId := w.lease.id;
      var result, raised := TryBody(w);
      if result.Some? {
        response := result.value;
      } else {
        if leaseId.Some? && !durableSuccess {
          // A failed release is only logged.
          calls := calls + [Release(leaseId.value)];
        }
        response := raised;
      }
      tempFile := false;
    }
  }
}
