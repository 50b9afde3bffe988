/**
 * Worker.check_job: poll qstat and, when qstat does not show the job as
 * running, qacct, until qacct reports how the job ended. The scheduler's
 * answers are an input: one Poll per pass of the loop.
 */
module Polling {
  import opened Wrappers
  import opened Scheduler

  /** What qstat and qacct print during one pass of the polling loop. */
  datatype Poll = Poll(qstat: CommandOutput, qacct: CommandOutput)

  /** How check_job ends: qacct's report, an exception, or still polling when the answers run out. */
  datatype PollOutcome = Reported(report: QacctReport) | Raised(error: Error) | Unfinished

  /** The delay update: back to 60 once it is above 60, otherwise 1.2 times longer. */
  function NextDelay(d: real): (e: real)
    ensures d > 60.0 ==> e == 60.0
    ensures d <= 60.0 ==> e == d * 1.2
  {
    if d > 60.0 then 60.0 else d * 1.2
  }

  /** The delays stay between the first one and 72 seconds. */
  lemma NextDelayBounds(d: real)
    requires 2.0 <= d <= 72.0
    ensures 2.0 <= NextDelay(d) <= 72.0
  {
  }

  /**
   * One pass of the loop: Some(outcome) when it ends check_job, None when the
   * loop goes round again. A job qstat shows as failed makes the code call
   * sys.stderr, which is not callable: TypeError.
   */
  function PollDecision(jobid: string, p: Poll): (r: Option<PollOutcome>)
    ensures r != Some(Unfinished)
    ensures r.Some? && r.value.Raised? ==> r.value.error == IndexError || r.value.error == TypeError
  {
    match QstatCheck(jobid, p.qstat)
    case Failure(e) => Some(Raised(e))
    case Success(Some(QstatFailed)) => Some(Raised(TypeError))
    case Success(Some(QstatRunning)) => None
    case Success(None) =>
      match QacctCheck(p.qacct)
      case Failure(e) => Some(Raised(e))
      case Success(None) => None
      case Success(Some(v)) => Some(Reported(v))
  }

  /** Pass i is the first pass that ends the loop. */
  predicate DecisiveAt(jobid: string, trace: seq<Poll>, i: int)
  {
    0 <= i < |trace| && PollDecision(jobid, trace[i]).Some? &&
    forall j :: 0 <= j < i ==> PollDecision(jobid, trace[j]).None?
  }

  /** The loop run over a finite sequence of answers. */
  function PollFrom(jobid: string, trace: seq<Poll>): (r: PollOutcome)
    ensures r.Raised? ==> r.error == IndexError || r.error == TypeError
    decreases |trace|
  {
    if trace == [] then Unfinished
    else match PollDecision(jobid, trace[0])
      case Some(o) => o
      case None => PollFrom(jobid, trace[1..])
  }

  /**
   * The loop's result is the decision of its first decisive pass, and it is
   * still polling exactly when no pass is decisive.
   */
  lemma {:induction false} PollFromFirstDecisive(jobid: string, trace: seq<Poll>)
    ensures forall i :: DecisiveAt(jobid, trace, i) ==> PollFrom(jobid, trace) == PollDecision(jobid, trace[i]).value
    ensures PollFrom(jobid, trace) == Unfinished <==> forall j :: 0 <= j < |trace| ==> PollDecision(jobid, trace[j]).None?
    decreases |trace|
  {
    if trace != [] {
      PollFromFirstDecisive(jobid, trace[1..]);
      if PollDecision(jobid, trace[0]).None? {
        assert forall i :: DecisiveAt(jobid, trace, i) ==> i > 0 && DecisiveAt(jobid, trace[1..], i - 1);
        assert (forall j :: 0 <= j < |trace| ==> PollDecision(jobid, trace[j]).None?) <==>
          (forall j :: 0 <= j < |trace| - 1 ==> PollDecision(jobid, trace[1..][j]).None?) by {
          forall j | 0 <= j < |trace| - 1 ensures trace[1..][j] == trace[j + 1] {}
        }
      }
    }
  }

  /**
   * qacct is only asked when qstat no longer lists the job: while qstat shows
   * it as running, or as failed, the pass does not depend on qacct's output.
   */
  lemma QacctOnlyWhenNotListed(jobid: string, qstat: CommandOutput, a: CommandOutput, b: CommandOutput)
    ensures QstatCheck(jobid, qstat).Success? && QstatCheck(jobid, qstat).value.Some? ==>
      PollDecision(jobid, Poll(qstat, a)) == PollDecision(jobid, Poll(qstat, b))
    ensures QstatCheck(jobid, qstat) == Success(Some(QstatRunning)) ==> PollDecision(jobid, Poll(qstat, a)) == None
    ensures QstatCheck(jobid, qstat) == Success(Some(QstatFailed)) ==> PollDecision(jobid, Poll(qstat, a)) == Some(Raised(TypeError))
  {
  }

  /** check_job can only report what some pass's qacct reported. */
  lemma {:induction false} ReportedFromQacct(jobid: string, trace: seq<Poll>)
    requires PollFrom(jobid, trace).Reported?
    ensures exists i :: (0 <= i < |trace| && QstatCheck(jobid, trace[i].qstat) == Success(None) &&
      QacctCheck(trace[i].qacct) == Success(Some(PollFrom(jobid, trace).report)))
    decreases |trace|
  {
    if PollDecision(jobid, trace[0]).Some? {
      assert QstatCheck(jobid, trace[0].qstat) == Success(None);
    } else {
      ReportedFromQacct(jobid, trace[1..]);
      var i :| 0 <= i < |trace| - 1 && QstatCheck(jobid, trace[1..][i].qstat) == Success(None) &&
        QacctCheck(trace[1..][i].qacct) == Success(Some(PollFrom(jobid, trace[1..]).report));
      assert trace[1..][i] == trace[i + 1];
    }
  }

  /** One pass of the loop in Worker.check_job: qstat, then qacct when qstat no longer lists the job. */
  method CheckPass(jobid: string, p: Poll) returns (decision: Option<PollOutcome>)
    ensures decision == PollDecision(jobid, p)
  {
    var qs := QstatCheck(jobid, p.qstat);
    if qs.Failure? {
      return Some(Raised(qs.error));
    } else if qs.value == Some(QstatFailed) {
      return Some(Raised(TypeError));
    } else if qs.value == Some(QstatRunning) {
      return None;
    }
    var qa := QacctCheck(p.qacct);
    if qa.Failure? {
      return Some(Raised(qa.error));
    } else if qa.value.Some? {
      return Some(Reported(qa.value.value));
    }
    return None;
  }

  /**
   * Worker.check_job. The answers of each pass come from `trace`; `delays`
   * lists the delay slept at the start of each pass taken. The 5-second extra
   * pause after an empty qstat answer is not recorded.
   */
  method CheckJob(jobid: string, trace: seq<Poll>) returns (outcome: PollOutcome, delays: seq<real>)
    ensures outcome == PollFrom(jobid, trace)
    ensures outcome == Unfinished ==> |delays| == |trace|
    ensures outcome != Unfinished ==> |delays| > 0 && DecisiveAt(jobid, trace, |delays| - 1)
    ensures |delays| > 0 ==> delays[0] == 2.0
    ensures forall k :: 0 <= k < |delays| ==> 2.0 <= delays[k] <= 72.0
    ensures forall k :: 0 < k < |delays| ==> delays[k] == NextDelay(delays[k - 1])
  {
    var delay := 2.0;
    var i := 0;
    delays := [];
    while i < |trace|
      invariant 0 <= i <= |trace| && |delays| == i
      invariant 2.0 <= delay <= 72.0
      invariant i == 0 ==> delay == 2.0
      invariant i > 0 ==> delays[0] == 2.0 && delay == NextDelay(delays[i - 1])
      invariant forall k :: 0 <= k < i ==> 2.0 <= delays[k] <= 72.0
      invariant forall k :: 0 < k < i ==> delays[k] == NextDelay(delays[k - 1])
      invariant forall j :: 0 <= j < i ==> PollDecision(jobid, trace[j]).None?
      invariant PollFrom(jobid, trace[i..]) == PollFrom(jobid, trace)
    {
      delays := delays + [delay];
      NextDelayBounds(delay);
      delay := NextDelay(delay);
      var decision := CheckPass(jobid, trace[i]);
      if decision.Some? {
        outcome := decision.value;
        return;
      }
      i := i + 1;
      assert trace[i - 1..][1..] == trace[i..];
    }
    outcome := Unfinished;
  }
}
