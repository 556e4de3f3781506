/**
 * The upload state of the PDF upload page (app/components/pdfpload.jsx):
 * `uploadStatus`, `isProcessing`, the elapsed-seconds counter
 * `processingTime`, `finalProcessingTime` and `summary`, changed by
 * `handleFileUpload` and by the once-a-second timer effect.
 *
 * `handleFileUpload` is cut at the awaited request and body read, treated
 * as one wait: nothing changes the page's state between `await fetch(…)`
 * and `await response.json()`, so ticks arriving during either simply add
 * up. `BeginUpload` is everything up to `fetch`, `FinishUpload` is what
 * happens once the body has been read or either await has thrown. The
 * outcome is an input.
 */
module PdfUpload {
  import opened Wrappers
  import PdfText

  const PdfType := "application/pdf"

  /** `uploadStatus`: '', 'processing', 'success' or 'error'. */
  datatype Status = Idle | Processing | Succeeded | Failed

  function StatusText(st: Status): string {
    match st
    case Idle => ""
    case Processing => "processing"
    case Succeeded => "success"
    case Failed => "error"
  }

  /**
   * How the awaited part of `handleFileUpload` ends: an ok response whose
   * JSON body is `data`; a response that is not ok (the code throws
   * 'Upload failed'); or an exception (the request itself failed, or the
   * body was not JSON).
   */
  datatype FetchOutcome = Received(data: string) | NotOk | Thrown

  datatype UploadState = UploadState(
    status: Status,
    isProcessing: bool,
    processingTime: int,
    finalProcessingTime: Option<int>,
    summary: string)

  /** The state when the page is first rendered. */
  function Initial(): UploadState {
    UploadState(Idle, false, 0, None, "")
  }

  /**
   * The invariant the page keeps: the spinner flag and the 'processing'
   * status go together, the counter never goes negative, and it is 0
   * whenever nothing is being processed (the timer effect resets it).
   */
  predicate Consistent(s: UploadState) {
    (s.isProcessing <==> s.status == Processing) &&
    s.processingTime >= 0 &&
    (!s.isProcessing ==> s.processingTime == 0)
  }

  /**
   * One interval tick of the timer effect: while processing, the counter grows
   * by exactly one; otherwise no interval is running and nothing changes.
   */
  function Tick(s: UploadState): (r: UploadState)
    ensures s.isProcessing ==> r == s.(processingTime := s.processingTime + 1)
    ensures !s.isProcessing ==> r == s
  {
    if s.isProcessing then s.(processingTime := s.processingTime + 1) else s
  }

  /**
   * The start of `handleFileUpload(file)`: a file that is not a PDF is
   * refused and nothing changes; otherwise the status becomes 'processing',
   * the timer starts from 0 and the previous final time is cleared. The
   * summary of an earlier upload stays.
   */
  function Begin(s: UploadState, fileType: string): (r: UploadState)
    ensures fileType != PdfType ==> r == s
    ensures fileType == PdfType ==>
              r.status == Processing && r.isProcessing && r.processingTime == 0 &&
              r.finalProcessingTime == None && r.summary == s.summary
  {
    if fileType != PdfType then s
    else s.(status := Processing, isProcessing := true, processingTime := 0, finalProcessingTime := None)
  }

  /**
   * The end of `handleFileUpload`, once the request has settled. `captured`
   * is the `processingTime` the handler closed over when it was called: it,
   * not the running counter, is what the success branch records as the final
   * time. Both branches stop processing, after which the timer effect
   * resets the counter to 0; only success replaces the summary.
   */
  function Finish(s: UploadState, outcome: FetchOutcome, captured: int): (r: UploadState)
    ensures !r.isProcessing && r.processingTime == 0
    ensures outcome.Received? ==>
              r.status == Succeeded && r.summary == outcome.data && r.finalProcessingTime == Some(captured)
    ensures !outcome.Received? ==>
              r.status == Failed && r.summary == s.summary && r.finalProcessingTime == s.finalProcessingTime
  {
    match outcome
    case Received(data) =>
      s.(status := Succeeded, summary := data, isProcessing := false,
         finalProcessingTime := Some(captured), processingTime := 0)
    case _ =>
      s.(status := Failed, isProcessing := false, processingTime := 0)
  }

  /** `n` timer ticks in a row. */
  function Ticks(s: UploadState, n: nat): UploadState
    decreases n
  {
    if n == 0 then s else Tick(Ticks(s, n - 1))
  }

  /**
   * The whole of `handleFileUpload` as the page runs it: begin, `ticks`
   * seconds of waiting, then the outcome, with the final time taken from
   * the value captured when the handler was called.
   */
  function Upload(s: UploadState, fileType: string, ticks: nat, outcome: FetchOutcome): (r: UploadState)
    ensures fileType != PdfType ==> r == s
    ensures fileType == PdfType ==> !r.isProcessing && r.processingTime == 0
    ensures fileType == PdfType && outcome.Received? ==>
              r.status == Succeeded && r.summary == outcome.data && r.finalProcessingTime == Some(s.processingTime)
    ensures fileType == PdfType && !outcome.Received? ==> r.status == Failed
  {
    if fileType != PdfType then s
    else Finish(Ticks(Begin(s, fileType), ticks), outcome, s.processingTime)
  }

  /**
   * The final time as the page evidently means it: the number of seconds
   * the counter reached while the request was pending.
   */
  function UploadIntended(s: UploadState, fileType: string, ticks: nat, outcome: FetchOutcome): (r: UploadState)
    ensures fileType != PdfType ==> r == s
    ensures fileType == PdfType ==> !r.isProcessing && r.processingTime == 0
    ensures fileType == PdfType && outcome.Received? ==>
              r.status == Succeeded && r.summary == outcome.data && r.finalProcessingTime == Some(ticks)
    ensures fileType == PdfType && !outcome.Received? ==> r.status == Failed
  {
    if fileType != PdfType then s
    else
      var waiting := Ticks(Begin(s, fileType), ticks);
      TicksCount(Begin(s, fileType), ticks);
      Finish(waiting, outcome, waiting.processingTime)
  }

  lemma InitialConsistent()
    ensures Consistent(Initial())
    ensures StatusText(Initial().status) == "" && Initial().finalProcessingTime == None
  {
  }

  /** Ticks change only the counter, by one each, and only while processing. */
  lemma {:induction false} TicksCount(s: UploadState, n: nat)
    ensures Ticks(s, n) == if s.isProcessing then s.(processingTime := s.processingTime + n) else s
    decreases n
  {
    if n > 0 {
      TicksCount(s, n - 1);
    }
  }

  /** Every event keeps the page consistent. */
  lemma StepsKeepConsistent(s: UploadState, fileType: string, outcome: FetchOutcome, captured: int)
    requires Consistent(s)
    ensures Consistent(Tick(s))
    ensures Consistent(Begin(s, fileType))
    ensures Consistent(Finish(s, outcome, captured))
  {
  }

  /**
   * An accepted upload ends, after any number of ticks, in exactly one of
   * two states, neither of them processing and both with the counter back at
   * 0: 'success' with the response data as summary, or 'error' with the
   * summary unchanged. A refused file changes nothing at all.
   */
  lemma {:induction false} UploadOutcome(s: UploadState, fileType: string, ticks: nat, outcome: FetchOutcome)
    requires Consistent(s)
    ensures fileType != PdfType ==> Upload(s, fileType, ticks, outcome) == s
    ensures fileType == PdfType ==>
              var r := Upload(s, fileType, ticks, outcome);
              Consistent(r) && !r.isProcessing && r.processingTime == 0 &&
              (outcome.Received? ==> r.status == Succeeded && r.summary == outcome.data) &&
              (!outcome.Received? ==> r.status == Failed && r.summary == s.summary && r.finalProcessingTime == None)
  {
    if fileType == PdfType {
      TicksCount(Begin(s, fileType), ticks);
    }
  }

  /**
   * As written, the success branch records the counter value that the handler
   * captured when it was called. For an upload started while idle the
   * counter is then 0, so the page reports "completed in 00:00", however
   * long the request took.
   */
  lemma {:induction false} FinalTimeAsWritten(s: UploadState, ticks: nat, data: string)
    requires Consistent(s) && !s.isProcessing
    ensures Upload(s, PdfType, ticks, Received(data)).finalProcessingTime == Some(0)
    ensures PdfText.FormatTime(Upload(s, PdfType, ticks, Received(data)).finalProcessingTime.value) == "00:00"
  {
    PdfText.FormatTimeZero();
  }

  /** Five seconds of waiting, reported as none. */
  lemma FinalTimeAsWrittenExample()
    ensures Upload(Initial(), PdfType, 5, Received("ok")).finalProcessingTime == Some(0)
    ensures UploadIntended(Initial(), PdfType, 5, Received("ok")).finalProcessingTime == Some(5)
  {
    FinalTimeAsWritten(Initial(), 5, "ok");
    FinalTimeIntended(Initial(), 5, "ok");
  }

  /**
   * With the live counter recorded instead, the final time is exactly the
   * number of seconds the request was pending, and every other part of the
   * resulting state is the same as in the page as written.
   */
  lemma {:induction false} FinalTimeIntended(s: UploadState, ticks: nat, data: string)
    requires Consistent(s)
    ensures UploadIntended(s, PdfType, ticks, Received(data)).finalProcessingTime == Some(ticks)
    ensures UploadIntended(s, PdfType, ticks, Received(data)) ==
            Upload(s, PdfType, ticks, Received(data)).(finalProcessingTime := Some(ticks))
  {
    TicksCount(Begin(s, PdfType), ticks);
  }

  /** The page's state, changed in place by its handlers. */
  class UploadPage {
    var uploadStatus: Status
    var isProcessing: bool
    var processingTime: int
    var finalProcessingTime: Option<int>
    var summary: string

    function State(): UploadState
      reads this
    {
      UploadState(uploadStatus, isProcessing, processingTime, finalProcessingTime, summary)
    }

    constructor ()
      ensures State() == Initial()
    {
      uploadStatus := Idle;
      summary := "";
      processingTime := 0;
      isProcessing := false;
      finalProcessingTime := None;
    }

    /** One firing of the interval started by the timer effect. */
    method TimerTick()
      modifies this
      ensures State() == Tick(old(State()))
    {
      if isProcessing {
        processingTime := processingTime + 1;
      }
    }

    /**
     * `handleFileUpload` up to the request. Returns whether the file was
     * accepted, and the `processingTime` its closure captured.
     */
    method BeginUpload(fileType: string) returns (accepted: bool, captured: int)
      modifies this
      ensures accepted == (fileType == PdfType)
      ensures captured == old(processingTime)
      ensures State() == Begin(old(State()), fileType)
    {
      captured := processingTime;
      if fileType != PdfType {
        accepted := false;
        return;
      }
      accepted := true;
      uploadStatus := Processing;
      isProcessing := true;
      processingTime := 0;
      finalProcessingTime := None;
    }

    /** `handleFileUpload` after the request has settled, with the captured counter. */
    method FinishUpload(outcome: FetchOutcome, captured: int)
      modifies this
      ensures State() == Finish(old(State()), outcome, captured)
    {
      match outcome {
        case Received(data) =>
          uploadStatus := Succeeded;
          summary := data;
          isProcessing := false;
          finalProcessingTime := Some(captured);
        case _ =>
          uploadStatus := Failed;
          isProcessing := false;
      }
      // the timer effect, run because `isProcessing` is now false
      processingTime := 0;
    }
  }
}
