/** The status of one contract version while a worker reviews it. */
module Contracts {
  import opened Wrappers

  datatype Status = Queued | Parsing | Analysing | ReviewReady | OcrRequired | ParseFailed | AnalysisFailed

  /** The statuses a finished job may leave behind. */
  predicate Terminal(s: Status) {
    s.ReviewReady? || s.OcrRequired? || s.ParseFailed? || s.AnalysisFailed?
  }

  /** The call outside the process that raises, if any. */
  datatype Fault =
    | Lookup | ReviewLookup | ReadyUpdate | Download | Integrity | ParsingUpdate | Parse | SaveParsed
    | OcrRequiredUpdate | OcrStartedAudit | Ocr | ParseFailedUpdate | OcrFailedAudit | SaveOcr | OcrAudit
    | AnalysingUpdate | Model | Persist

  /** One review: what the database and the document hold, and the first call that raises. */
  datatype World = World(
    found: bool, needsOcr: bool, ocrAvailable: bool, ocrRejects: bool, fault: Option<Fault>)

  /** What a review that runs to its end decides about the document. */
  function Outcome(w: World): Status {
    if !w.needsOcr then ReviewReady
    else if !w.ocrAvailable then OcrRequired
    else if w.ocrRejects then ParseFailed
    else ReviewReady
  }

  /** The raising call, if any, lies on the path this document takes through the review. */
  predicate FileFails(w: World) {
    && w.fault.Some?
    && (w.fault.value in {ParsingUpdate, Parse, SaveParsed}
        || if !w.needsOcr then w.fault.value in {AnalysingUpdate, Model, Persist}
           else if !w.ocrAvailable then w.fault.value == OcrRequiredUpdate
           else w.fault.value in {OcrStartedAudit, Ocr}
                || if w.ocrRejects then w.fault.value in {ParseFailedUpdate, OcrFailedAudit}
                   else w.fault.value in {SaveOcr, OcrAudit, AnalysingUpdate, Model, Persist})
  }

  predicate ReviewFails(w: World, reviewed: bool) {
    || !w.found
    || (w.fault.Some? && w.fault.value in {Lookup, ReviewLookup})
    || if reviewed then w.fault == Some(ReadyUpdate)
       else (w.fault.Some? && w.fault.value in {Download, Integrity}) || FileFails(w)
  }

  /** The status a review of the file leaves, also when it raises half-way. */
  function FileStatus(w: World, before: Status): Status {
    if !FileFails(w) then Outcome(w)
    else if w.fault == Some(ParsingUpdate) then before
    else if w.fault == Some(OcrFailedAudit) then ParseFailed
    else if w.fault == Some(Model) || w.fault == Some(Persist) then Analysing
    else Parsing
  }

  function ReviewStatus(w: World, reviewed: bool, before: Status): Status {
    if !ReviewFails(w, reviewed) then if reviewed then ReviewReady else Outcome(w)
    else if reviewed || !w.found || w.fault.value in {Lookup, ReviewLookup, Download, Integrity} then before
    else FileStatus(w, before)
  }

  /** The OCR backend is called, and the model. */
  predicate CallsOcr(w: World) {
    w.needsOcr && w.ocrAvailable && !(w.fault.Some? && w.fault.value in {ParsingUpdate, Parse, SaveParsed, OcrStartedAudit})
  }

  predicate CallsModel(w: World) {
    Outcome(w).ReviewReady? && (FileFails(w) ==> w.fault.value in {Model, Persist})
  }

  /** The calls a review of the file makes, in order, when none of them raises. */
  function Calls(w: World): seq<Fault> {
    if !w.needsOcr then [ParsingUpdate, Parse, SaveParsed, AnalysingUpdate, Model, Persist]
    else if !w.ocrAvailable then [ParsingUpdate, Parse, SaveParsed, OcrRequiredUpdate]
    else if w.ocrRejects then [ParsingUpdate, Parse, SaveParsed, OcrStartedAudit, Ocr, ParseFailedUpdate, OcrFailedAudit]
    else [ParsingUpdate, Parse, SaveParsed, OcrStartedAudit, Ocr, SaveOcr, OcrAudit, AnalysingUpdate, Model, Persist]
  }

  /** What a call that goes through makes of the status. */
  function Effect(call: Fault, status: Status): Status {
    match call
    case ParsingUpdate => Parsing
    case OcrRequiredUpdate => OcrRequired
    case ParseFailedUpdate => ParseFailed
    case AnalysingUpdate => Analysing
    case Persist => ReviewReady
    case _ => status
  }

  /** A review raises exactly when the contract is missing or one of its calls raises. */
  lemma FailsOnItsCalls(w: World, reviewed: bool)
    ensures FileFails(w) <==> w.fault.Some? && w.fault.value in Calls(w)
    ensures ReviewFails(w, reviewed) <==>
              !w.found || (w.fault.Some? && w.fault.value in
                [Lookup, ReviewLookup] + if reviewed then [ReadyUpdate] else [Download, Integrity] + Calls(w))
  {}

  /** A review does what its calls do, one behind the other: `w` raises at call `n` and `next` one call
      later, or not at all. */
  lemma ReviewFollowsItsCalls(w: World, next: World, n: nat, before: Status)
    requires n < |Calls(w)| && w.fault == Some(Calls(w)[n])
    requires next == w.(fault := if n + 1 < |Calls(w)| then Some(Calls(w)[n + 1]) else None)
    ensures n == 0 ==> FileStatus(w, before) == before && !CallsOcr(w) && !CallsModel(w)
    ensures FileStatus(next, before) == Effect(Calls(w)[n], FileStatus(w, before))
    ensures CallsOcr(next) <==> CallsOcr(w) || next.fault == Some(Ocr)
    ensures CallsModel(next) <==> CallsModel(w) || next.fault == Some(Model)
  {}

  /** The stored review gets as far as the file. */
  predicate OpensFile(w: World, reviewed: bool) {
    w.found && !reviewed && !(w.fault.Some? && w.fault.value in {Lookup, ReviewLookup, Download, Integrity})
  }

  /** What was made of a contract so far: whether its review is persisted, and the calls of each stage. */
  datatype Progress = Progress(reviewed: bool, parses: nat, ocrs: nat, models: nat)

  function AfterReview(w: World, p: Progress): Progress {
    if !OpensFile(w, p.reviewed) then p
    else Progress(!FileFails(w) && Outcome(w).ReviewReady?,
                  p.parses + if w.fault == Some(ParsingUpdate) then 0 else 1,
                  p.ocrs + if CallsOcr(w) then 1 else 0,
                  p.models + if CallsModel(w) then 1 else 0)
  }

  /** A persisted review is never made again; another one is made at most once, OCR and the model are
      only called behind parsing, and it is persisted exactly when the review ends as ready. */
  lemma ReviewedOnce(w: World, p: Progress, before: Status)
    ensures var p' := AfterReview(w, p);
            && (p.reviewed ==> p' == p)
            && p.parses <= p'.parses <= p.parses + 1 && p.ocrs <= p'.ocrs <= p.ocrs + 1 && p.models <= p'.models <= p.models + 1
            && (p'.ocrs > p.ocrs || p'.models > p.models ==> p'.parses > p.parses)
            && (p'.reviewed <==> p.reviewed || (!ReviewFails(w, false) && ReviewStatus(w, false, before) == ReviewReady))
            && (!ReviewFails(w, p.reviewed) && !p.reviewed ==> p'.parses > p.parses)
  {}

  /** A review that raises never leaves a new review behind as ready, and one that returns leaves a
      terminal status other than the failure mark. */
  lemma ReviewStatusIsHonest(w: World, reviewed: bool, before: Status)
    ensures !ReviewFails(w, reviewed) ==> Terminal(ReviewStatus(w, reviewed, before)) && !ReviewStatus(w, reviewed, before).AnalysisFailed?
    ensures ReviewFails(w, reviewed) ==> ReviewStatus(w, reviewed, before) in {before, Parsing, Analysing, ParseFailed}
    ensures ReviewFails(w, reviewed) && ReviewStatus(w, reviewed, before) == ParseFailed && before != ParseFailed ==> w.needsOcr && w.ocrRejects
  {}

  class Contract {
    var status: Status
    var reviewed: bool
    var parses: nat
    var ocrs: nat
    var models: nat

    constructor ()
      ensures status == Queued && !reviewed && parses == ocrs == models == 0
    {
      status, reviewed, parses, ocrs, models := Queued, false, 0, 0, 0;
    }

    function Made(): Progress
      reads this
    {
      Progress(reviewed, parses, ocrs, models)
    }

    /** review_stored_contract; None stands for an exception. A persisted review is final: it is
        returned without parsing, OCR or the model. A review that returns leaves a terminal
        status, the one it reports. Persisting stores the review and the status in one step. */
    method ReviewStored(w: World) returns (result: Option<Status>)
      modifies this
      ensures Made() == AfterReview(w, old(Made()))
      ensures status == ReviewStatus(w, old(reviewed), old(status))
      ensures result.Some? ==> status == result.value == if old(reviewed) then ReviewReady else Outcome(w)
      ensures result.None? <==> ReviewFails(w, old(reviewed))
      ensures !w.found ==> result.None? && status == old(status)
    {
      if w.fault == Some(Lookup) || !w.found {
        return None;
      }
      if w.fault == Some(ReviewLookup) {
        return None;
      }
      if reviewed {
        if w.fault == Some(ReadyUpdate) {
          return None;
        }
        status := ReviewReady;
        return Some(ReviewReady);
      }
      if w.fault == Some(Download) || w.fault == Some(Integrity) {
        return None;
      }
      result := ReviewFile(w);
    }

    /** _review_ingested_file */
    method ReviewFile(w: World) returns (result: Option<Status>)
      requires !reviewed
      modifies this
      ensures status == FileStatus(w, old(status))
      ensures result.Some? ==> status == result.value == Outcome(w)
      ensures result.None? <==> FileFails(w)
      ensures reviewed <==> result == Some(ReviewReady)
      ensures parses == old(parses) + if w.fault == Some(ParsingUpdate) then 0 else 1
      ensures ocrs == old(ocrs) + if CallsOcr(w) then 1 else 0
      ensures models == old(models) + if CallsModel(w) then 1 else 0
    {
      if w.fault == Some(ParsingUpdate) {
        return None;
      }
      status := Parsing;
      parses := parses + 1;
      if w.fault == Some(Parse) || w.fault == Some(SaveParsed) {
        return None;
      }
      if w.needsOcr {
        if !w.ocrAvailable {
          if w.fault == Some(OcrRequiredUpdate) {
            return None;
          }
          status := OcrRequired;
          return Some(OcrRequired);
        }
        if w.fault == Some(OcrStartedAudit) {
          return None;
        }
        ocrs := ocrs + 1;
        if w.fault == Some(Ocr) {
          return None;
        }
        if w.ocrRejects {
          if w.fault == Some(ParseFailedUpdate) {
            return None;
          }
          status := ParseFailed;
          if w.fault == Some(OcrFailedAudit) {
            return None;
          }
          return Some(ParseFailed);
        }
        if w.fault == Some(SaveOcr) || w.fault == Some(OcrAudit) {
          return None;
        }
      }
      if w.fault == Some(AnalysingUpdate) {
        return None;
      }
      status := Analysing;
      models := models + 1;
      if w.fault == Some(Model) || w.fault == Some(Persist) {
        return None;
      }
      reviewed, status := true, ReviewReady;
      return Some(ReviewReady);
    }
  }
}
