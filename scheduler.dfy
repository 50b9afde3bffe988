/**
 * Reading the output of the three scheduler commands: the status listing
 * (qstat_check), the accounting record (qacct_check) and the job id printed
 * by qsub. Each command's run is an input: its return code and its stdout.
 */
module Scheduler {
  import opened Wrappers
  import opened Text

  /** What a finished external command left behind. */
  datatype CommandOutput = CommandOutput(returncode: int, stdout: string)

  /** What qstat_check reports: 'running' or 'failed'. */
  datatype QstatReport = QstatRunning | QstatFailed

  /** What qacct_check reports: 'success' or 'failed'. */
  datatype QacctReport = QacctSuccess | QacctFailed

  /** output.decode().split('\n') */
  function Lines(text: string): seq<string> { SplitOn(text, '\n') }

  /** re.split(' +', line): never empty, so field 0 always exists. */
  function Fields(line: string): (fields: seq<string>)
    ensures |fields| > 0
  {
    SplitSpaces(line)
  }

  /** Line i is the first of `lines` whose field 0 is `key`. */
  predicate FirstWithKey(lines: seq<string>, key: string, i: int)
  {
    0 <= i < |lines| && Fields(lines[i])[0] == key &&
    forall j :: 0 <= j < i ==> Fields(lines[j])[0] != key
  }

  // ---------------------------------------------------------------- qstat

  /** The state codes listed as running and as failed. */
  const RunningCodes: set<string> := {"r", "qw", "t"}
  const FailedCodes: set<string> := {"Eqw", "d"}

  /**
   * The report for a state code. Codes outside both lists fall through to
   * 'running', so only Eqw and d mean failed.
   */
  function StateCode(code: string): (r: QstatReport)
    ensures r == QstatFailed <==> code == "Eqw" || code == "d"
  {
    if code in RunningCodes then QstatRunning
    else if code in FailedCodes then QstatFailed
    else QstatRunning
  }

  /** The decision taken on the job's own line: field 4 is the state code (IndexError if missing). */
  function QstatLine(fields: seq<string>): Result<Option<QstatReport>, Error>
  {
    if |fields| < 5 then Failure(IndexError) else Success(Some(StateCode(fields[4])))
  }

  /** The loop over the lines of qstat's output: the first line whose field 0 is the job id decides. */
  function QstatScan(jobid: string, lines: seq<string>): (r: Result<Option<QstatReport>, Error>)
    ensures r.Failure? ==> r.error == IndexError
    decreases |lines|
  {
    if lines == [] then Success(None)
    else if Fields(lines[0])[0] == jobid then QstatLine(Fields(lines[0]))
    else QstatScan(jobid, lines[1..])
  }

  /** No line for the job gives None; otherwise the job's first line decides. */
  lemma {:induction false} QstatScanFirst(jobid: string, lines: seq<string>)
    ensures (forall i :: 0 <= i < |lines| ==> Fields(lines[i])[0] != jobid) ==> QstatScan(jobid, lines) == Success(None)
    ensures forall i :: FirstWithKey(lines, jobid, i) ==> QstatScan(jobid, lines) == QstatLine(Fields(lines[i]))
    decreases |lines|
  {
    if lines != [] && Fields(lines[0])[0] != jobid {
      QstatScanFirst(jobid, lines[1..]);
      assert forall i :: FirstWithKey(lines, jobid, i) ==> i > 0 && FirstWithKey(lines[1..], jobid, i - 1);
      assert forall i :: 0 <= i < |lines| - 1 ==> lines[1..][i] == lines[i + 1];
    }
  }

  /** Worker.qstat_check: a failing qstat reports nothing, otherwise the job's line is looked up. */
  function QstatCheck(jobid: string, out: CommandOutput): (r: Result<Option<QstatReport>, Error>)
    ensures out.returncode != 0 ==> r == Success(None)
    ensures r.Failure? ==> r.error == IndexError
  {
    if out.returncode != 0 then Success(None) else QstatScan(jobid, Lines(out.stdout))
  }

  /**
   * qstat_check in full: nonzero return code or no line for the job gives None;
   * otherwise the job's first line decides, IndexError when it has fewer than
   * five fields, 'failed' when field 4 is Eqw or d and 'running' for every other
   * code.
   */
  lemma QstatCheckSpec(jobid: string, out: CommandOutput)
    ensures out.returncode != 0 ==> QstatCheck(jobid, out) == Success(None)
    ensures out.returncode == 0 && (forall i :: 0 <= i < |Lines(out.stdout)| ==> Fields(Lines(out.stdout)[i])[0] != jobid) ==>
      QstatCheck(jobid, out) == Success(None)
    ensures out.returncode == 0 ==> forall i :: FirstWithKey(Lines(out.stdout), jobid, i) ==>
      var f := Fields(Lines(out.stdout)[i]);
      QstatCheck(jobid, out) ==
        if |f| < 5 then Failure(IndexError)
        else if f[4] == "Eqw" || f[4] == "d" then Success(Some(QstatFailed))
        else Success(Some(QstatRunning))
  {
    if out.returncode == 0 {
      QstatScanFirst(jobid, Lines(out.stdout));
    }
  }

  // ---------------------------------------------------------------- qacct

  /** The key of the line of qacct's record that holds the job's exit status. */
  const ExitStatus: string := "exit_status"

  /** The decision taken on the exit_status line: field 1 "0" is success, anything else failure. */
  function QacctLine(fields: seq<string>): Result<Option<QacctReport>, Error>
  {
    if |fields| < 2 then Failure(IndexError)
    else Success(Some(if fields[1] == "0" then QacctSuccess else QacctFailed))
  }

  /** The loop over the lines of qacct's output: the first exit_status line decides. */
  function QacctScan(lines: seq<string>): (r: Result<Option<QacctReport>, Error>)
    ensures r.Failure? ==> r.error == IndexError
    decreases |lines|
  {
    if lines == [] then Success(None)
    else if Fields(lines[0])[0] == ExitStatus then QacctLine(Fields(lines[0]))
    else QacctScan(lines[1..])
  }

  /** No exit_status line gives None; otherwise the first exit_status line decides. */
  lemma {:induction false} QacctScanFirst(lines: seq<string>)
    ensures (forall i :: 0 <= i < |lines| ==> Fields(lines[i])[0] != ExitStatus) ==> QacctScan(lines) == Success(None)
    ensures forall i :: FirstWithKey(lines, ExitStatus, i) ==> QacctScan(lines) == QacctLine(Fields(lines[i]))
    decreases |lines|
  {
    if lines != [] && Fields(lines[0])[0] != ExitStatus {
      QacctScanFirst(lines[1..]);
      assert forall i :: FirstWithKey(lines, ExitStatus, i) ==> i > 0 && FirstWithKey(lines[1..], ExitStatus, i - 1);
      assert forall i :: 0 <= i < |lines| - 1 ==> lines[1..][i] == lines[i + 1];
    }
  }

  /** Worker.qacct_check: a failing qacct reports nothing, otherwise the exit_status line is looked up. */
  function QacctCheck(out: CommandOutput): (r: Result<Option<QacctReport>, Error>)
    ensures out.returncode != 0 ==> r == Success(None)
    ensures r.Failure? ==> r.error == IndexError
  {
    if out.returncode != 0 then Success(None) else QacctScan(Lines(out.stdout))
  }

  /**
   * qacct_check in full: nonzero return code or no exit_status line gives None;
   * otherwise the first exit_status line decides, IndexError when it has no
   * field 1, 'success' when field 1 is "0" and 'failed' otherwise.
   */
  lemma QacctCheckSpec(out: CommandOutput)
    ensures out.returncode != 0 ==> QacctCheck(out) == Success(None)
    ensures out.returncode == 0 && (forall i :: 0 <= i < |Lines(out.stdout)| ==> Fields(Lines(out.stdout)[i])[0] != ExitStatus) ==>
      QacctCheck(out) == Success(None)
    ensures out.returncode == 0 ==> forall i :: FirstWithKey(Lines(out.stdout), ExitStatus, i) ==>
      var f := Fields(Lines(out.stdout)[i]);
      QacctCheck(out) ==
        if |f| < 2 then Failure(IndexError)
        else if f[1] == "0" then Success(Some(QacctSuccess))
        else Success(Some(QacctFailed))
  {
    if out.returncode == 0 {
      QacctScanFirst(Lines(out.stdout));
    }
  }

  // ---------------------------------------------------------------- qsub

  const JobPrefix: string := "Your job "

  /** The pattern "Your job ([0-9]+)" matches at position p of s. */
  predicate JobMatchAt(s: string, p: int)
  {
    0 <= p && p + |JobPrefix| < |s| && s[p..p + |JobPrefix|] == JobPrefix && IsDigit(s[p + |JobPrefix|])
  }

  /** q is the leftmost position at or after p where the pattern matches. */
  predicate LeftmostMatch(s: string, p: int, q: int)
  {
    p <= q < |s| && JobMatchAt(s, q) && forall q' :: p <= q' < q ==> !JobMatchAt(s, q')
  }

  /** The longest run of digits of s that starts at position p. */
  function DigitRun(s: string, p: nat): (d: string)
    requires p <= |s|
    ensures p + |d| <= |s| && d == s[p..p + |d|] && AllDigits(d)
    ensures p + |d| == |s| || !IsDigit(s[p + |d|])
    ensures p < |s| && IsDigit(s[p]) ==> |d| > 0
    decreases |s| - p
  {
    if p < |s| && IsDigit(s[p]) then [s[p]] + DigitRun(s, p + 1) else ""
  }

  /** Where re.search("Your job ([0-9]+)", s[p..]) matches: the leftmost matching position at or after p. */
  function MatchPos(s: string, p: nat): (r: Option<nat>)
    requires p <= |s|
    ensures r.Some? ==> p <= r.value && JobMatchAt(s, r.value)
    decreases |s| - p
  {
    if p == |s| then None
    else if JobMatchAt(s, p) then Some(p)
    else MatchPos(s, p + 1)
  }

  /** MatchPos finds nothing exactly when the pattern matches nowhere from p on, and otherwise the leftmost match. */
  lemma {:induction false} MatchPosLeftmost(s: string, p: nat)
    requires p <= |s|
    ensures MatchPos(s, p).None? <==> forall q :: p <= q < |s| ==> !JobMatchAt(s, q)
    ensures MatchPos(s, p).Some? ==> LeftmostMatch(s, p, MatchPos(s, p).value)
    decreases |s| - p
  {
    if p < |s| && !JobMatchAt(s, p) {
      MatchPosLeftmost(s, p + 1);
    }
  }

  /** id is the whole run of digits right after the prefix matched at q. */
  predicate IdAt(s: string, q: int, id: string)
  {
    0 <= q && q + |JobPrefix| + |id| <= |s| && s[q..q + |JobPrefix| + |id|] == JobPrefix + id &&
    (q + |JobPrefix| + |id| == |s| || !IsDigit(s[q + |JobPrefix| + |id|]))
  }

  /**
   * The job id in qsub's reply: CalledProcessError when qsub exits nonzero
   * (check=True), otherwise the digits after the leftmost "Your job " that is
   * followed by a digit, and ValueError when there is none.
   */
  function JobIdFromQsub(out: CommandOutput): (r: Result<string, Error>)
    ensures r.Failure? ==> r.error == ValueError(NoJobId) || r.error.CalledProcessError?
    ensures out.returncode != 0 ==> r == Failure(CalledProcessError(out.returncode))
  {
    if out.returncode != 0 then Failure(CalledProcessError(out.returncode))
    else
      match MatchPos(out.stdout, 0)
      case None => Failure(ValueError(NoJobId))
      case Some(q) => Success(DigitRun(out.stdout, q + |JobPrefix|))
  }

  /** With exit status 0, re.search fails (ValueError) exactly when no "Your job " followed by a digit occurs. */
  lemma JobIdMissing(out: CommandOutput)
    requires out.returncode == 0
    ensures JobIdFromQsub(out) == Failure(ValueError(NoJobId)) <==>
      forall q :: 0 <= q < |out.stdout| ==> !JobMatchAt(out.stdout, q)
  {
    MatchPosLeftmost(out.stdout, 0);
  }

  /** A job id is the full, non-empty run of digits after the leftmost "Your job " followed by a digit. */
  lemma JobIdFound(out: CommandOutput)
    requires JobIdFromQsub(out).Success?
    ensures var id := JobIdFromQsub(out).value;
      |id| > 0 && AllDigits(id) && exists q :: LeftmostMatch(out.stdout, 0, q) && IdAt(out.stdout, q, id)
  {
    var s := out.stdout;
    MatchPosLeftmost(s, 0);
    var q := MatchPos(s, 0).value;
    var e := q + |JobPrefix|;
    var id := DigitRun(s, e);
    assert JobMatchAt(s, q);
    assert s[q..e] == JobPrefix;
    assert s[e..e + |id|] == id;
    assert s[q..e + |id|] == s[q..e] + s[e..e + |id|];
    assert IdAt(s, q, id);
  }

}
