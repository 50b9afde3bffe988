/**
 * Worker (sgepy/SGE.py): one cluster job, submitted with qsub, polled until
 * it ends, resubmitted while attempts remain, its result loaded back and its
 * scratch directory removed.
 *
 * The effects the code has on the outside world (files written, the qsub
 * command line, the job logs copied to stderr, the clean-up call) are
 * recorded in order in an action log. What the outside world answers (qsub's
 * and the pollers' output, whether the result file loads, whether the
 * directory can be removed) is an input.
 */
module Workers {
  import opened Wrappers
  import opened Text
  import opened Resources
  import opened Proto
  import opened Scheduler
  import opened Polling

  /** One observable effect of the worker. */
  datatype Action =
    | MakeDir(path: string)                 // os.makedirs in the tmp_dir setter
    | WriteParams(path: string)             // the pickled function, arguments, kwargs and packages
    | WritePythonScript(path: string)       // the script that runs the function on the node
    | WriteBashScript(path: string, condaEnv: string, exe: Option<string>, params: Option<string>, results: string)
    | Submit(command: string)               // the qsub command line
    | DumpLog(path: string)                 // write_job_log copying a job log to stderr
    | CleanUp                               // a call of clean_up

  predicate IsSubmit(a: Action) { a.Submit? }
  predicate IsCleanUp(a: Action) { a.CleanUp? }
  predicate IsParamWrite(a: Action) { a.WriteParams? }

  /** How many actions of the log satisfy p. */
  function Count(log: seq<Action>, p: Action -> bool): nat
    decreases |log|
  {
    if log == [] then 0 else Count(log[..|log| - 1], p) + (if p(log[|log| - 1]) then 1 else 0)
  }

  lemma CountSnoc(log: seq<Action>, a: Action, p: Action -> bool)
    ensures Count(log + [a], p) == Count(log, p) + (if p(a) then 1 else 0)
  {
    assert (log + [a])[..|log|] == log;
  }

  /** What a worker keeps fixed: the settings and its scratch directory. */
  datatype Setup = Setup(config: Config, tmpDir: string)

  /** The attributes a worker updates, and the actions taken so far. */
  datatype WorkerState = WorkerState(
    attempt: int,
    jobid: Option<string>,
    paramFile: Option<string>,
    pythonScriptFile: Option<string>,
    bashScriptFile: Option<string>,
    resultsFile: Option<string>,
    stdoutFile: Option<string>,
    stderrFile: Option<string>,
    dirExists: bool,
    log: seq<Action>)

  /** The state Worker.__init__ leaves: first attempt, no files yet, the scratch directory made. */
  function InitialState(w: Setup): WorkerState
  {
    WorkerState(1, None, None, None, None, None, None, None, true, [MakeDir(w.tmpDir)])
  }

  /** Worker.serialize: on the first attempt only, write job_params.pkl and remember it. */
  function SerializeStep(w: Setup, s: WorkerState): (s': WorkerState)
    ensures s.attempt > 1 ==> s' == s
    ensures s.attempt <= 1 ==> s' == s.(paramFile := Some(PathJoin(w.tmpDir, "job_params.pkl")),
                                        log := s.log + [WriteParams(PathJoin(w.tmpDir, "job_params.pkl"))])
  {
    if s.attempt > 1 then s
    else
      var f := PathJoin(w.tmpDir, "job_params.pkl");
      s.(paramFile := Some(f), log := s.log + [WriteParams(f)])
  }

  /** Worker.job_python_script: on the first attempt only, write script.py. */
  function PythonScriptStep(w: Setup, s: WorkerState): (s': WorkerState)
    ensures s.attempt > 1 ==> s' == s
    ensures s.attempt <= 1 ==> s' == s.(pythonScriptFile := Some(PathJoin(w.tmpDir, "script.py")),
                                        log := s.log + [WritePythonScript(PathJoin(w.tmpDir, "script.py"))])
  {
    if s.attempt > 1 then s
    else
      var f := PathJoin(w.tmpDir, "script.py");
      s.(pythonScriptFile := Some(f), log := s.log + [WritePythonScript(f)])
  }

  /**
   * Worker.job_bash_script: on the first attempt only, fix results.pkl as the
   * result file and write script.sh, which activates the conda environment and
   * runs the python script on the parameter file and the result file.
   */
  function BashScriptStep(w: Setup, s: WorkerState): (s': WorkerState)
    ensures s.attempt > 1 ==> s' == s
    ensures s.attempt <= 1 ==>
      var r := PathJoin(w.tmpDir, "results.pkl");
      var b := PathJoin(w.tmpDir, "script.sh");
      s' == s.(resultsFile := Some(r), bashScriptFile := Some(b),
               log := s.log + [WriteBashScript(b, w.config.condaEnv, s.pythonScriptFile, s.paramFile, r)])
  {
    if s.attempt > 1 then s
    else
      var r := PathJoin(w.tmpDir, "results.pkl");
      var b := PathJoin(w.tmpDir, "script.sh");
      s.(resultsFile := Some(r), bashScriptFile := Some(b),
         log := s.log + [WriteBashScript(b, w.config.condaEnv, s.pythonScriptFile, s.paramFile, r)])
  }

  /** How str.format renders an attribute that may still be None. */
  function OptText(o: Option<string>): string
  {
    match o case Some(t) => t case None => "None"
  }

  /** The qsub command line built by Worker.qsub. */
  function QsubCommand(c: Config, mem: string, time: string, out: string, err: string, script: Option<string>): string
  {
    "qsub -cwd -pe " + c.parallelEnv + " " + IntToString(c.threads) +
    " -l h_vmem=" + mem + " -l h_rt=" + time +
    " -l gpu=" + IntToString(c.gpu) + " -o " + out + " -e " + err + " " + OptText(script)
  }

  /** The state after a step, and the exception that ended it if any. */
  datatype Submitted = Submitted(state: WorkerState, error: Option<Error>)

  /**
   * Worker.qsub: set the log paths, evaluate mem and then time for the current
   * attempt, run qsub and take the job id from its reply.
   */
  function QsubStep(w: Setup, s: WorkerState, out: CommandOutput): (r: Submitted)
    ensures r.state.stdoutFile == Some(PathJoin(w.tmpDir, "stdout.txt"))
    ensures r.state.stderrFile == Some(PathJoin(w.tmpDir, "stderr.txt"))
    ensures r.state.attempt == s.attempt && r.state.dirExists == s.dirExists
    ensures r.state.paramFile == s.paramFile && r.state.bashScriptFile == s.bashScriptFile
    ensures r.state.resultsFile == s.resultsFile && r.state.pythonScriptFile == s.pythonScriptFile
    ensures r.error.None? <==>
      MemAt(w.config.mem, s.attempt, w.config.threads).Success? &&
      TimeAt(w.config.time, s.attempt, w.config.threads).Success? && JobIdFromQsub(out).Success?
    ensures r.error.None? ==> r.state.jobid == Some(JobIdFromQsub(out).value)
    ensures r.error.Some? ==>
      (r.state.jobid == s.jobid && !r.error.value.LoadError? &&
       !(r.error.value.ValueError? && r.error.value.reason.JobFailed?))
    ensures MemAt(w.config.mem, s.attempt, w.config.threads).Failure? ==>
      r.error == Some(MemAt(w.config.mem, s.attempt, w.config.threads).error)
    ensures (MemAt(w.config.mem, s.attempt, w.config.threads).Success? &&
             TimeAt(w.config.time, s.attempt, w.config.threads).Failure?) ==>
      r.error == Some(TimeAt(w.config.time, s.attempt, w.config.threads).error)
    ensures (MemAt(w.config.mem, s.attempt, w.config.threads).Success? &&
             TimeAt(w.config.time, s.attempt, w.config.threads).Success? && JobIdFromQsub(out).Failure?) ==>
      r.error == Some(JobIdFromQsub(out).error)
  {
    var so := PathJoin(w.tmpDir, "stdout.txt");
    var se := PathJoin(w.tmpDir, "stderr.txt");
    var s1 := s.(stdoutFile := Some(so), stderrFile := Some(se));
    match MemAt(w.config.mem, s.attempt, w.config.threads)
    case Failure(e) => Submitted(s1, Some(e))
    case Success(mem) =>
      match TimeAt(w.config.time, s.attempt, w.config.threads)
      case Failure(e) => Submitted(s1, Some(e))
      case Success(time) =>
        var s2 := s1.(log := s1.log + [Submit(QsubCommand(w.config, mem, time, so, se, s.bashScriptFile))]);
        match JobIdFromQsub(out)
        case Failure(e) => Submitted(s2, Some(e))
        case Success(id) => Submitted(s2.(jobid := Some(id)), None)
  }

  /**
   * qsub is run, and logged with its command line, exactly when both mem and
   * time could be evaluated; nothing else is logged.
   */
  lemma QsubStepLog(w: Setup, s: WorkerState, out: CommandOutput)
    ensures var r := QsubStep(w, s, out);
      var mem := MemAt(w.config.mem, s.attempt, w.config.threads);
      var time := TimeAt(w.config.time, s.attempt, w.config.threads);
      (mem.Success? && time.Success? ==>
        r.state.log == s.log + [Submit(QsubCommand(w.config, mem.value, time.value,
                                                    PathJoin(w.tmpDir, "stdout.txt"), PathJoin(w.tmpDir, "stderr.txt"),
                                                    s.bashScriptFile))]) &&
      (!(mem.Success? && time.Success?) ==> r.state.log == s.log)
  {
  }

  /** What the outside world does during one attempt: qsub's reply and the pollers' answers. */
  datatype AttemptEnv = AttemptEnv(qsub: CommandOutput, polls: seq<Poll>)

  /** The state after an attempt and how check_job ended it. */
  datatype Ran = Ran(state: WorkerState, outcome: PollOutcome)

  /** The preparation of an attempt: serialize, then the two scripts. */
  function PrepareStep(w: Setup, s: WorkerState): WorkerState
  {
    BashScriptStep(w, PythonScriptStep(w, SerializeStep(w, s)))
  }

  /** Worker._run: prepare, submit, then poll the job. */
  function RunStep(w: Setup, s: WorkerState, a: AttemptEnv): (r: Ran)
    ensures r.state.attempt == s.attempt && r.state.dirExists == s.dirExists
    ensures r.outcome.Raised? ==>
      (!r.outcome.error.LoadError? && !(r.outcome.error.ValueError? && r.outcome.error.reason.JobFailed?))
  {
    var q := QsubStep(w, PrepareStep(w, s), a.qsub);
    if q.error.Some? then Ran(q.state, Raised(q.error.value))
    else Ran(q.state, PollFrom(q.state.jobid.value, a.polls))
  }

  /** Worker.write_job_log: copy one of the job's logs out of the scratch directory. */
  function WriteJobLogStep(w: Setup, s: WorkerState, name: string): WorkerState
  {
    s.(log := s.log + [DumpLog(PathJoin(w.tmpDir, name))])
  }

  /**
   * Worker.clean_up: nothing when keep_tmp is set; otherwise the scratch
   * directory is gone afterwards when it could be removed (rmtree, retried once),
   * and still there when it could not.
   */
  function CleanUpStep(w: Setup, s: WorkerState, removable: bool): (s': WorkerState)
    ensures s'.log == s.log + [CleanUp]
    ensures s'.dirExists == (s.dirExists && (w.config.keepTmp || !removable))
    ensures s' == s.(log := s'.log, dirExists := s'.dirExists)
  {
    s.(log := s.log + [CleanUp], dirExists := if w.config.keepTmp then s.dirExists else s.dirExists && !removable)
  }

  /** Everything the outside world does during one call: each attempt, the result file, the directory. */
  datatype WorkerEnv<T> = WorkerEnv(attempts: seq<AttemptEnv>, load: Option<T>, removable: bool)

  /** How Worker.__call__ ends: the loaded result, an exception, or still running when the answers run out. */
  datatype CallOutcome<T> = Returned(value: T) | Threw(error: Error) | Pending

  /** The final ValueError raised when the last permitted attempt failed. */
  predicate FinalFailure<T>(o: CallOutcome<T>)
  {
    o.Threw? && o.error.ValueError? && o.error.reason.JobFailed?
  }

  datatype Called<T> = Called(state: WorkerState, outcome: CallOutcome<T>)

  /** How one attempt is run: from the state before it and the world's answers to the state after it. */
  type Runner = (WorkerState, AttemptEnv) -> Ran

  /**
   * How Worker.__call__ ends once an attempt is not retried: on success the
   * result is loaded and the directory cleaned up; after the last permitted
   * failure the logs are dumped, the directory cleaned up and ValueError
   * raised; an exception from the attempt propagates.
   */
  function Finish<T>(w: Setup, ran: Ran, env: WorkerEnv<T>): Called<T>
  {
    var s1 := ran.state;
    match ran.outcome
    case Reported(QacctFailed) =>
      var s2 := CleanUpStep(w, WriteJobLogStep(w, WriteJobLogStep(w, s1, "stderr.txt"), "stdout.txt"), env.removable);
      Called(s2, Threw(ValueError(JobFailed(s2.jobid))))
    case Reported(QacctSuccess) =>
      (match env.load
       case None => Called(s1, Threw(LoadError))
       case Some(v) => Called(CleanUpStep(w, s1, env.removable), Returned(v)))
    case Raised(e) => Called(s1, Threw(e))
    case Unfinished => Called(s1, Pending)
  }

  /** The attempt failed and attempts remain: Worker.__call__ goes round again. */
  predicate Retries(w: Setup, ran: Ran)
  {
    ran.outcome == Reported(QacctFailed) && ran.state.attempt < w.config.maxAttempts
  }

  /**
   * The loop of Worker.__call__, for a given way of running an attempt: count
   * a failed attempt and go round again while attempts remain, otherwise
   * finish.
   */
  function CallLoop<T>(run: Runner, w: Setup, s: WorkerState, env: WorkerEnv<T>): Called<T>
    decreases |env.attempts|
  {
    if env.attempts == [] then Called(s, Pending)
    else
      var ran := run(s, env.attempts[0]);
      if Retries(w, ran) then CallLoop(run, w, ran.state.(attempt := ran.state.attempt + 1), env.(attempts := env.attempts[1..]))
      else Finish(w, ran, env)
  }

  /** A failed attempt with attempts left: the loop goes round again from the next attempt. */
  lemma CallLoopRetries<T>(run: Runner, w: Setup, s: WorkerState, env: WorkerEnv<T>, ran: Ran)
    requires env.attempts != [] && run(s, env.attempts[0]) == ran && Retries(w, ran)
    ensures CallLoop(run, w, s, env) ==
      CallLoop(run, w, ran.state.(attempt := ran.state.attempt + 1), env.(attempts := env.attempts[1..]))
  {
  }

  /** Any other attempt ends the loop. */
  lemma CallLoopStops<T>(run: Runner, w: Setup, s: WorkerState, env: WorkerEnv<T>, ran: Ran)
    requires env.attempts != [] && run(s, env.attempts[0]) == ran && !Retries(w, ran)
    ensures CallLoop(run, w, s, env) == Finish(w, ran, env)
  {
  }

  /** Worker._run for this worker, as a value. */
  function Run(w: Setup): Runner
  {
    (s: WorkerState, a: AttemptEnv) => RunStep(w, s, a)
  }

  /**
   * One pass of the loop from attempt i: the loop goes on from attempt i + 1
   * after a retried failure, and otherwise finishes.
   */
  lemma CallLoopStep<T>(w: Setup, s: WorkerState, env: WorkerEnv<T>, i: nat)
    requires i < |env.attempts|
    ensures var ran := RunStep(w, s, env.attempts[i]);
      var loop := CallLoop(Run(w), w, s, env.(attempts := env.attempts[i..]));
      (!Retries(w, ran) ==> loop == Finish(w, ran, env)) &&
      (Retries(w, ran) ==>
        loop == CallLoop(Run(w), w, ran.state.(attempt := ran.state.attempt + 1), env.(attempts := env.attempts[i + 1..])))
  {
    var rest := env.(attempts := env.attempts[i..]);
    var ran := RunStep(w, s, env.attempts[i]);
    assert Run(w)(s, rest.attempts[0]) == ran;
    if Retries(w, ran) {
      CallLoopRetries(Run(w), w, s, rest, ran);
      assert rest.attempts[1..] == env.attempts[i + 1..];
    } else {
      CallLoopStops(Run(w), w, s, rest, ran);
      assert Finish(w, ran, rest) == Finish(w, ran, env);
    }
  }

  /** Worker.__call__. */
  function CallSpec<T>(w: Setup, s: WorkerState, env: WorkerEnv<T>): Called<T>
  {
    CallLoop(Run(w), w, s, env)
  }

  // ---------------------------------------------------------------- properties

  /** How many attempts a call may make from attempt `attempt`: at least one. */
  function Budget(attempt: int, maxAttempts: int): nat
  {
    if maxAttempts > attempt then maxAttempts - attempt + 1 else 1
  }

  /** One attempt submits at most once and never cleans up or serializes outside attempt 1. */
  lemma RunStepCounts(w: Setup, s: WorkerState, a: AttemptEnv)
    ensures Count(RunStep(w, s, a).state.log, IsSubmit) <= Count(s.log, IsSubmit) + 1
    ensures Count(RunStep(w, s, a).state.log, IsCleanUp) == Count(s.log, IsCleanUp)
    ensures Count(RunStep(w, s, a).state.log, IsParamWrite) == Count(s.log, IsParamWrite) + (if s.attempt <= 1 then 1 else 0)
    ensures RunStep(w, s, a).outcome.Reported? ==> Count(RunStep(w, s, a).state.log, IsSubmit) == Count(s.log, IsSubmit) + 1
  {
    var s0 := SerializeStep(w, s);
    var s1 := PythonScriptStep(w, s0);
    var s2 := BashScriptStep(w, s1);
    if s.attempt <= 1 {
      CountSnoc(s.log, WriteParams(PathJoin(w.tmpDir, "job_params.pkl")), IsSubmit);
      CountSnoc(s.log, WriteParams(PathJoin(w.tmpDir, "job_params.pkl")), IsCleanUp);
      CountSnoc(s.log, WriteParams(PathJoin(w.tmpDir, "job_params.pkl")), IsParamWrite);
      CountSnoc(s0.log, WritePythonScript(PathJoin(w.tmpDir, "script.py")), IsSubmit);
      CountSnoc(s0.log, WritePythonScript(PathJoin(w.tmpDir, "script.py")), IsCleanUp);
      CountSnoc(s0.log, WritePythonScript(PathJoin(w.tmpDir, "script.py")), IsParamWrite);
      var b := WriteBashScript(PathJoin(w.tmpDir, "script.sh"), w.config.condaEnv, s1.pythonScriptFile, s1.paramFile, PathJoin(w.tmpDir, "results.pkl"));
      assert s2.log == s1.log + [b];
      CountSnoc(s1.log, b, IsSubmit);
      CountSnoc(s1.log, b, IsCleanUp);
      CountSnoc(s1.log, b, IsParamWrite);
    }
    var q := QsubStep(w, s2, a.qsub);
    QsubStepLog(w, s2, a.qsub);
    if q.state.log != s2.log {
      var c := q.state.log[|q.state.log| - 1];
      assert q.state.log == s2.log + [c] && c.Submit?;
      CountSnoc(s2.log, c, IsSubmit);
      CountSnoc(s2.log, c, IsCleanUp);
      CountSnoc(s2.log, c, IsParamWrite);
    }
  }

  /** What every attempt keeps: the attempt counter, the directory, the clean-up count; at most one submission, exactly one when qacct reported; serialization only on the first attempt; never the final ValueError. */
  predicate AttemptKeeps(s: WorkerState, r: Ran)
  {
    r.state.attempt == s.attempt && r.state.dirExists == s.dirExists &&
    Count(r.state.log, IsCleanUp) == Count(s.log, IsCleanUp) &&
    Count(r.state.log, IsSubmit) <= Count(s.log, IsSubmit) + 1 &&
    (r.outcome.Reported? ==> Count(r.state.log, IsSubmit) == Count(s.log, IsSubmit) + 1) &&
    Count(r.state.log, IsParamWrite) == Count(s.log, IsParamWrite) + (if s.attempt <= 1 then 1 else 0) &&
    (r.outcome.Raised? ==> !r.outcome.error.LoadError? && !(r.outcome.error.ValueError? && r.outcome.error.reason.JobFailed?))
  }

  ghost predicate WellBehaved(run: Runner)
  {
    forall s, a :: AttemptKeeps(s, run(s, a))
  }

  /** Worker._run keeps all of that. */
  lemma RunWellBehaved(w: Setup)
    ensures WellBehaved(Run(w))
  {
    forall s, a ensures AttemptKeeps(s, Run(w)(s, a)) {
      RunStepCounts(w, s, a);
    }
  }

  /** The ways the loop can end after dumping the logs and cleaning up. */
  predicate CleansUp<T>(o: CallOutcome<T>)
  {
    o.Returned? || FinalFailure(o)
  }

  /**
   * What finishing adds to the log, counted by any predicate blind to DumpLog:
   * a CleanUp after the last failure or a loaded result, nothing otherwise (an
   * attempt never raises the final ValueError itself).
   */
  lemma FinishLog<T>(w: Setup, ran: Ran, env: WorkerEnv<T>, p: Action -> bool)
    requires forall a :: p(a) ==> !a.DumpLog?
    requires ran.outcome.Raised? ==> !(ran.outcome.error.ValueError? && ran.outcome.error.reason.JobFailed?)
    ensures var r := Finish(w, ran, env);
      Count(r.state.log, p) == Count(ran.state.log, p) + (if CleansUp(r.outcome) && p(CleanUp) then 1 else 0)
  {
    var s1 := ran.state;
    var r := Finish(w, ran, env);
    match ran.outcome
    case Reported(QacctFailed) =>
      var d1 := DumpLog(PathJoin(w.tmpDir, "stderr.txt"));
      var d2 := DumpLog(PathJoin(w.tmpDir, "stdout.txt"));
      var l1 := WriteJobLogStep(w, s1, "stderr.txt");
      var l2 := WriteJobLogStep(w, l1, "stdout.txt");
      assert !p(d1) && !p(d2);
      CountSnoc(s1.log, d1, p);
      CountSnoc(l1.log, d2, p);
      CountSnoc(l2.log, CleanUp, p);
      assert r.state.log == l2.log + [CleanUp] && CleansUp(r.outcome);
    case Reported(QacctSuccess) =>
      if env.load.Some? {
        CountSnoc(s1.log, CleanUp, p);
        assert r.state.log == s1.log + [CleanUp] && CleansUp(r.outcome);
      } else {
        assert r.state == s1 && !CleansUp(r.outcome);
      }
    case Raised(e) =>
      assert r.state == s1 && !CleansUp(r.outcome);
    case Unfinished =>
      assert r.state == s1 && !CleansUp(r.outcome);
  }

  /**
   * Finishing keeps the attempt counter and ends with the clean-up exactly
   * when the call returns or raises the final ValueError; only the clean-up
   * touches the directory.
   */
  lemma FinishState<T>(w: Setup, ran: Ran, env: WorkerEnv<T>)
    requires ran.outcome.Raised? ==> !(ran.outcome.error.ValueError? && ran.outcome.error.reason.JobFailed?)
    ensures var r := Finish(w, ran, env);
      r.state.attempt == ran.state.attempt &&
      (CleansUp(r.outcome) ==>
        |r.state.log| > 0 && r.state.log[|r.state.log| - 1] == CleanUp &&
        r.state.dirExists == (ran.state.dirExists && (w.config.keepTmp || !env.removable))) &&
      (!CleansUp(r.outcome) ==> r.state.dirExists == ran.state.dirExists)
  {
    var r := Finish(w, ran, env);
    match ran.outcome
    case Reported(QacctFailed) =>
      var l2 := WriteJobLogStep(w, WriteJobLogStep(w, ran.state, "stderr.txt"), "stdout.txt");
      assert r.state == CleanUpStep(w, l2, env.removable) && CleansUp(r.outcome);
    case Reported(QacctSuccess) =>
      if env.load.Some? {
        assert r.state == CleanUpStep(w, ran.state, env.removable) && CleansUp(r.outcome);
      } else {
        assert r.state == ran.state && !CleansUp(r.outcome);
      }
    case Raised(e) =>
      assert r.state == ran.state && !CleansUp(r.outcome);
    case Unfinished =>
      assert r.state == ran.state && !CleansUp(r.outcome);
  }

  lemma {:induction false} LoopAttempts<T>(run: Runner, w: Setup, s: WorkerState, env: WorkerEnv<T>)
    requires WellBehaved(run)
    ensures var r := CallLoop(run, w, s, env);
      s.attempt <= r.state.attempt && (r.state.attempt <= s.attempt || r.state.attempt <= w.config.maxAttempts) &&
      (FinalFailure(r.outcome) ==> r.state.attempt >= w.config.maxAttempts)
    decreases |env.attempts|
  {
    if env.attempts != [] {
      var ran := run(s, env.attempts[0]);
      assert AttemptKeeps(s, ran);
      if Retries(w, ran) {
        LoopAttempts(run, w, ran.state.(attempt := ran.state.attempt + 1), env.(attempts := env.attempts[1..]));
      }
    }
  }

  /** A loop that returns or raises the final ValueError submitted one job per value the counter took. */
  lemma {:induction false} LoopAttemptsSubmitted<T>(run: Runner, w: Setup, s: WorkerState, env: WorkerEnv<T>)
    requires WellBehaved(run)
    ensures var r := CallLoop(run, w, s, env);
      CleansUp(r.outcome) ==>
        Count(r.state.log, IsSubmit) == Count(s.log, IsSubmit) + (r.state.attempt - s.attempt) + 1
    decreases |env.attempts|
  {
    if env.attempts != [] {
      var ran := run(s, env.attempts[0]);
      assert AttemptKeeps(s, ran);
      var s1 := ran.state;
      if Retries(w, ran) {
        LoopAttemptsSubmitted(run, w, s1.(attempt := s1.attempt + 1), env.(attempts := env.attempts[1..]));
      } else {
        var r := Finish(w, ran, env);
        assert CallLoop(run, w, s, env) == r;
        assert CleansUp(r.outcome) ==> ran.outcome.Reported?;
        FinishLog(w, ran, env, IsSubmit);
        FinishState(w, ran, env);
      }
    }
  }

  lemma {:induction false} LoopCleanUpCount<T>(run: Runner, w: Setup, s: WorkerState, env: WorkerEnv<T>)
    requires WellBehaved(run)
    ensures var r := CallLoop(run, w, s, env);
      Count(r.state.log, IsCleanUp) == Count(s.log, IsCleanUp) + (if CleansUp(r.outcome) then 1 else 0)
    decreases |env.attempts|
  {
    if env.attempts != [] {
      var ran := run(s, env.attempts[0]);
      assert AttemptKeeps(s, ran);
      var s1 := ran.state;
      if Retries(w, ran) {
        LoopCleanUpCount(run, w, s1.(attempt := s1.attempt + 1), env.(attempts := env.attempts[1..]));
      } else {
        assert CallLoop(run, w, s, env) == Finish(w, ran, env);
        FinishLog(w, ran, env, IsCleanUp);
      }
    }
  }

  lemma {:induction false} LoopCleanUpLast<T>(run: Runner, w: Setup, s: WorkerState, env: WorkerEnv<T>)
    requires WellBehaved(run)
    ensures var r := CallLoop(run, w, s, env);
      (CleansUp(r.outcome) ==>
        |r.state.log| > 0 && r.state.log[|r.state.log| - 1] == CleanUp &&
        r.state.dirExists == (s.dirExists && (w.config.keepTmp || !env.removable))) &&
      (!CleansUp(r.outcome) ==> r.state.dirExists == s.dirExists)
    decreases |env.attempts|
  {
    if env.attempts != [] {
      var ran := run(s, env.attempts[0]);
      assert AttemptKeeps(s, ran);
      assert ran.state.dirExists == s.dirExists;
      if Retries(w, ran) {
        var next := ran.state.(attempt := ran.state.attempt + 1);
        var rest := env.(attempts := env.attempts[1..]);
        assert CallLoop(run, w, s, env) == CallLoop(run, w, next, rest);
        LoopCleanUpLast(run, w, next, rest);
      } else {
        assert CallLoop(run, w, s, env) == Finish(w, ran, env);
        FinishState(w, ran, env);
      }
    }
  }

  lemma {:induction false} LoopSubmitsAtMost<T>(run: Runner, w: Setup, s: WorkerState, env: WorkerEnv<T>)
    requires WellBehaved(run)
    ensures Count(CallLoop(run, w, s, env).state.log, IsSubmit) <= Count(s.log, IsSubmit) + Budget(s.attempt, w.config.maxAttempts)
    decreases |env.attempts|
  {
    if env.attempts != [] {
      var ran := run(s, env.attempts[0]);
      assert AttemptKeeps(s, ran);
      var s1 := ran.state;
      if Retries(w, ran) {
        LoopSubmitsAtMost(run, w, s1.(attempt := s1.attempt + 1), env.(attempts := env.attempts[1..]));
      } else {
        assert CallLoop(run, w, s, env) == Finish(w, ran, env);
        FinishLog(w, ran, env, IsSubmit);
      }
    }
  }

  lemma {:induction false} LoopSerializesOnce<T>(run: Runner, w: Setup, s: WorkerState, env: WorkerEnv<T>)
    requires WellBehaved(run) && s.attempt >= 1
    ensures Count(CallLoop(run, w, s, env).state.log, IsParamWrite) ==
      Count(s.log, IsParamWrite) + (if s.attempt == 1 && env.attempts != [] then 1 else 0)
    decreases |env.attempts|
  {
    if env.attempts != [] {
      var ran := run(s, env.attempts[0]);
      assert AttemptKeeps(s, ran);
      var s1 := ran.state;
      if Retries(w, ran) {
        LoopSerializesOnce(run, w, s1.(attempt := s1.attempt + 1), env.(attempts := env.attempts[1..]));
      } else {
        assert CallLoop(run, w, s, env) == Finish(w, ran, env);
        FinishLog(w, ran, env, IsParamWrite);
      }
    }
  }

  lemma {:induction false} LoopReturnsLoaded<T>(run: Runner, w: Setup, s: WorkerState, env: WorkerEnv<T>)
    ensures CallLoop(run, w, s, env).outcome.Returned? ==> env.load == Some(CallLoop(run, w, s, env).outcome.value)
    decreases |env.attempts|
  {
    if env.attempts != [] {
      var ran := run(s, env.attempts[0]);
      if Retries(w, ran) {
        LoopReturnsLoaded(run, w, ran.state.(attempt := ran.state.attempt + 1), env.(attempts := env.attempts[1..]));
      }
    }
  }

  /** Attempt a fails whatever the state: qacct reports failure for the job `id`. */
  ghost predicate FailsAs(run: Runner, a: AttemptEnv, id: string)
  {
    forall s :: run(s, a).outcome == Reported(QacctFailed) && run(s, a).state.jobid == Some(id)
  }

  /** Finishing after a failure reported by qacct raises the final ValueError for that job. */
  lemma FinishFailed<T>(w: Setup, ran: Ran, env: WorkerEnv<T>)
    requires ran.outcome == Reported(QacctFailed)
    ensures Finish(w, ran, env).outcome == Threw(ValueError(JobFailed(ran.state.jobid)))
  {
  }

  lemma {:induction false} LoopAlwaysFailing<T>(run: Runner, w: Setup, s: WorkerState, env: WorkerEnv<T>, ids: seq<string>)
    requires WellBehaved(run) && |ids| == |env.attempts|
    requires forall k :: 0 <= k < |ids| ==> FailsAs(run, env.attempts[k], ids[k])
    requires |env.attempts| >= Budget(s.attempt, w.config.maxAttempts)
    ensures var r := CallLoop(run, w, s, env);
      r.outcome == Threw(ValueError(JobFailed(Some(ids[Budget(s.attempt, w.config.maxAttempts) - 1])))) &&
      r.state.attempt == (if w.config.maxAttempts > s.attempt then w.config.maxAttempts else s.attempt)
    decreases |env.attempts|
  {
    var ran := run(s, env.attempts[0]);
    assert AttemptKeeps(s, ran);
    assert FailsAs(run, env.attempts[0], ids[0]);
    var s1 := ran.state;
    if s1.attempt >= w.config.maxAttempts {
      assert CallLoop(run, w, s, env) == Finish(w, ran, env);
      FinishFailed(w, ran, env);
      FinishState(w, ran, env);
    } else {
      var rest := env.(attempts := env.attempts[1..]);
      assert forall k :: 0 <= k < |ids| - 1 ==> rest.attempts[k] == env.attempts[k + 1] && ids[1..][k] == ids[k + 1];
      LoopAlwaysFailing(run, w, s1.(attempt := s1.attempt + 1), rest, ids[1..]);
    }
  }

  lemma {:induction false} LoopAlwaysFailingSubmits<T>(run: Runner, w: Setup, s: WorkerState, env: WorkerEnv<T>, ids: seq<string>)
    requires WellBehaved(run) && |ids| == |env.attempts|
    requires forall k :: 0 <= k < |ids| ==> FailsAs(run, env.attempts[k], ids[k])
    requires |env.attempts| >= Budget(s.attempt, w.config.maxAttempts)
    ensures Count(CallLoop(run, w, s, env).state.log, IsSubmit) == Count(s.log, IsSubmit) + Budget(s.attempt, w.config.maxAttempts)
    decreases |env.attempts|
  {
    var ran := run(s, env.attempts[0]);
    assert AttemptKeeps(s, ran);
    assert FailsAs(run, env.attempts[0], ids[0]);
    var s1 := ran.state;
    if s1.attempt >= w.config.maxAttempts {
      assert CallLoop(run, w, s, env) == Finish(w, ran, env);
      FinishLog(w, ran, env, IsSubmit);
    } else {
      var rest := env.(attempts := env.attempts[1..]);
      assert forall k :: 0 <= k < |ids| - 1 ==> rest.attempts[k] == env.attempts[k + 1] && ids[1..][k] == ids[k + 1];
      LoopAlwaysFailingSubmits(run, w, s1.(attempt := s1.attempt + 1), rest, ids[1..]);
    }
  }

  // ---------------------------------------------------------------- the worker's own call

  /**
   * The attempt counter only grows, and never past max_attempts unless it
   * started there; the final ValueError comes only once max_attempts is
   * reached. A call that returns or raises the final ValueError went up by
   * one per resubmission: it submitted one job for the starting attempt and
   * one for each attempt counted after it.
   */
  lemma CallAttempts<T>(w: Setup, s: WorkerState, env: WorkerEnv<T>)
    ensures var r := CallSpec(w, s, env);
      s.attempt <= r.state.attempt && (r.state.attempt <= s.attempt || r.state.attempt <= w.config.maxAttempts) &&
      (FinalFailure(r.outcome) ==> r.state.attempt >= w.config.maxAttempts)
    ensures var r := CallSpec(w, s, env);
      CleansUp(r.outcome) ==> Count(r.state.log, IsSubmit) == Count(s.log, IsSubmit) + (r.state.attempt - s.attempt) + 1
  {
    RunWellBehaved(w);
    LoopAttempts(Run(w), w, s, env);
    LoopAttemptsSubmitted(Run(w), w, s, env);
  }

  /**
   * clean_up is called exactly once, as the last action, when the call returns
   * a result or raises the final ValueError, and not at all when it raises
   * anything else or is still running. Only clean_up touches the directory:
   * it is gone afterwards unless keep_tmp is set or it could not be removed.
   */
  lemma CallCleansUpOnce<T>(w: Setup, s: WorkerState, env: WorkerEnv<T>)
    ensures var r := CallSpec(w, s, env);
      Count(r.state.log, IsCleanUp) == Count(s.log, IsCleanUp) + (if CleansUp(r.outcome) then 1 else 0) &&
      (CleansUp(r.outcome) ==>
        |r.state.log| > 0 && r.state.log[|r.state.log| - 1] == CleanUp &&
        r.state.dirExists == (s.dirExists && (w.config.keepTmp || !env.removable))) &&
      (!CleansUp(r.outcome) ==> r.state.dirExists == s.dirExists)
  {
    RunWellBehaved(w);
    LoopCleanUpCount(Run(w), w, s, env);
    LoopCleanUpLast(Run(w), w, s, env);
  }

  /**
   * A call submits at most max(1, max_attempts - attempt + 1) jobs: a failed
   * attempt is resubmitted only while attempts remain.
   */
  lemma CallSubmitsAtMost<T>(w: Setup, s: WorkerState, env: WorkerEnv<T>)
    ensures Count(CallSpec(w, s, env).state.log, IsSubmit) <= Count(s.log, IsSubmit) + Budget(s.attempt, w.config.maxAttempts)
  {
    RunWellBehaved(w);
    LoopSubmitsAtMost(Run(w), w, s, env);
  }

  /**
   * The parameters and the scripts are written on the first attempt only:
   * a call that starts at attempt 1 and makes any attempt serializes exactly once.
   */
  lemma CallSerializesOnce<T>(w: Setup, s: WorkerState, env: WorkerEnv<T>)
    requires s.attempt >= 1
    ensures Count(CallSpec(w, s, env).state.log, IsParamWrite) ==
      Count(s.log, IsParamWrite) + (if s.attempt == 1 && env.attempts != [] then 1 else 0)
  {
    RunWellBehaved(w);
    LoopSerializesOnce(Run(w), w, s, env);
  }

  /** A returned value is what the result file held. */
  lemma ReturnedIsLoaded<T>(w: Setup, s: WorkerState, env: WorkerEnv<T>)
    ensures CallSpec(w, s, env).outcome.Returned? ==> env.load == Some(CallSpec(w, s, env).outcome.value)
  {
    LoopReturnsLoaded(Run(w), w, s, env);
  }

  /** Every attempt is submitted and every job ends with qacct reporting failure. */
  predicate AllAttemptsFail(attempts: seq<AttemptEnv>)
  {
    forall k :: 0 <= k < |attempts| ==>
      JobIdFromQsub(attempts[k].qsub).Success? &&
      PollFrom(JobIdFromQsub(attempts[k].qsub).value, attempts[k].polls) == Reported(QacctFailed)
  }

  /** The time and memory requests can be evaluated at every attempt. */
  ghost predicate ResourcesValid(c: Config)
  {
    forall k :: TimeAt(c.time, k, c.threads).Success? && MemAt(c.mem, k, c.threads).Success?
  }

  /** With valid resources, an attempt whose job qacct reports failed fails whatever the state. */
  lemma RunFails(w: Setup, a: AttemptEnv)
    requires ResourcesValid(w.config) && JobIdFromQsub(a.qsub).Success?
    requires PollFrom(JobIdFromQsub(a.qsub).value, a.polls) == Reported(QacctFailed)
    ensures FailsAs(Run(w), a, JobIdFromQsub(a.qsub).value)
  {
    forall s ensures Run(w)(s, a).outcome == Reported(QacctFailed) && Run(w)(s, a).state.jobid == Some(JobIdFromQsub(a.qsub).value) {
      assert TimeAt(w.config.time, s.attempt, w.config.threads).Success? && MemAt(w.config.mem, s.attempt, w.config.threads).Success?;
      var q := QsubStep(w, PrepareStep(w, s), a.qsub);
      assert q.error.None?;
    }
  }

  /** The job ids qsub printed, attempt by attempt. */
  function JobIds(attempts: seq<AttemptEnv>): (ids: seq<string>)
    requires forall k :: 0 <= k < |attempts| ==> JobIdFromQsub(attempts[k].qsub).Success?
  {
    seq(|attempts|, k requires 0 <= k < |attempts| => JobIdFromQsub(attempts[k].qsub).value)
  }

  /**
   * A job that fails every time is submitted exactly max(1, max_attempts -
   * attempt + 1) times; then the job logs are dumped, the directory cleaned
   * up and ValueError raised with the last job's id.
   */
  lemma AlwaysFailing<T>(w: Setup, s: WorkerState, env: WorkerEnv<T>)
    requires AllAttemptsFail(env.attempts) && ResourcesValid(w.config)
    requires |env.attempts| >= Budget(s.attempt, w.config.maxAttempts)
    ensures var r := CallSpec(w, s, env);
      var last := env.attempts[Budget(s.attempt, w.config.maxAttempts) - 1];
      r.outcome == Threw(ValueError(JobFailed(Some(JobIdFromQsub(last.qsub).value)))) &&
      Count(r.state.log, IsSubmit) == Count(s.log, IsSubmit) + Budget(s.attempt, w.config.maxAttempts) &&
      r.state.attempt == (if w.config.maxAttempts > s.attempt then w.config.maxAttempts else s.attempt)
  {
    RunWellBehaved(w);
    var ids := JobIds(env.attempts);
    forall k | 0 <= k < |ids| ensures FailsAs(Run(w), env.attempts[k], ids[k]) {
      RunFails(w, env.attempts[k]);
    }
    LoopAlwaysFailing(Run(w), w, s, env, ids);
    LoopAlwaysFailingSubmits(Run(w), w, s, env, ids);
  }

  // ---------------------------------------------------------------- the Worker object

  /**
   * A Worker: the settings and the scratch directory fixed by Proto.__init__,
   * and the attributes its methods update. Each method does what the step
   * function of the same name above describes.
   */
  class Worker {
    const config: Config
    const tmpDir: string
    var attempt: int
    var jobid: Option<string>
    var paramFile: Option<string>
    var pythonScriptFile: Option<string>
    var bashScriptFile: Option<string>
    var resultsFile: Option<string>
    var stdoutFile: Option<string>
    var stderrFile: Option<string>
    var dirExists: bool
    var log: seq<Action>

    function Settings(): Setup
    {
      Setup(config, tmpDir)
    }

    function State(): WorkerState
      reads this
    {
      WorkerState(attempt, jobid, paramFile, pythonScriptFile, bashScriptFile, resultsFile,
                  stdoutFile, stderrFile, dirExists, log)
    }

    /** Worker.__init__ on settings Proto.__init__ accepted, with `token` as the fresh uuid. */
    constructor(cfg: Config, token: string)
      requires IsUuidHex(token)
      ensures config == cfg && tmpDir == TmpDirFor(cfg.tmpBase, token)
      ensures State() == InitialState(Settings())
    {
      config := cfg;
      tmpDir := TmpDirFor(cfg.tmpBase, token);
      attempt := 1;
      jobid := None;
      paramFile := None;
      pythonScriptFile := None;
      bashScriptFile := None;
      resultsFile := None;
      stdoutFile := None;
      stderrFile := None;
      dirExists := true;
      log := [MakeDir(TmpDirFor(cfg.tmpBase, token))];
    }

    /** Worker.serialize */
    method Serialize()
      modifies this
      ensures State() == SerializeStep(Settings(), old(State()))
    {
      if attempt > 1 {
        return;
      }
      var f := PathJoin(tmpDir, "job_params.pkl");
      log := log + [WriteParams(f)];
      paramFile := Some(f);
    }

    /** Worker.job_python_script */
    method JobPythonScript()
      modifies this
      ensures State() == PythonScriptStep(Settings(), old(State()))
    {
      if attempt > 1 {
        return;
      }
      pythonScriptFile := Some(PathJoin(tmpDir, "script.py"));
      log := log + [WritePythonScript(pythonScriptFile.value)];
    }

    /** Worker.job_bash_script */
    method JobBashScript()
      modifies this
      ensures State() == BashScriptStep(Settings(), old(State()))
    {
      if attempt > 1 {
        return;
      }
      resultsFile := Some(PathJoin(tmpDir, "results.pkl"));
      var b := PathJoin(tmpDir, "script.sh");
      log := log + [WriteBashScript(b, config.condaEnv, pythonScriptFile, paramFile, resultsFile.value)];
      bashScriptFile := Some(b);
    }

    /** Worker.qsub, with qsub's reply as `out`; `error` is the exception it raises, if any. */
    method Qsub(out: CommandOutput) returns (error: Option<Error>)
      modifies this
      ensures Submitted(State(), error) == QsubStep(Settings(), old(State()), out)
    {
      ghost var s0 := State();
      stdoutFile := Some(PathJoin(tmpDir, "stdout.txt"));
      stderrFile := Some(PathJoin(tmpDir, "stderr.txt"));
      ghost var s1 := State();
      assert s1 == s0.(stdoutFile := stdoutFile, stderrFile := stderrFile);
      var mem := MemAt(config.mem, attempt, config.threads);
      if mem.Failure? {
        return Some(mem.error);
      }
      var time := TimeAt(config.time, attempt, config.threads);
      if time.Failure? {
        return Some(time.error);
      }
      log := log + [Submit(QsubCommand(config, mem.value, time.value, stdoutFile.value, stderrFile.value, bashScriptFile))];
      assert State() == s1.(log := log);
      var id := JobIdFromQsub(out);
      if id.Failure? {
        return Some(id.error);
      }
      jobid := Some(id.value);
      error := None;
    }

    /** Worker._run: one attempt, with the world's answers in `a`. */
    method RunAttempt(a: AttemptEnv) returns (outcome: PollOutcome)
      modifies this
      ensures Ran(State(), outcome) == RunStep(Settings(), old(State()), a)
    {
      Serialize();
      JobPythonScript();
      JobBashScript();
      var error := Qsub(a.qsub);
      if error.Some? {
        return Raised(error.value);
      }
      var delays;
      outcome, delays := CheckJob(jobid.value, a.polls);
    }

    /** Worker.write_job_log */
    method WriteJobLog(name: string)
      modifies this
      ensures State() == WriteJobLogStep(Settings(), old(State()), name)
    {
      log := log + [DumpLog(PathJoin(tmpDir, name))];
    }

    /** Worker.clean_up; `removable` says whether rmtree succeeds within its two tries. */
    method CleanUp(removable: bool)
      modifies this
      ensures State() == CleanUpStep(Settings(), old(State()), removable)
    {
      log := log + [Action.CleanUp];
      if config.keepTmp {
        return;
      }
      if dirExists && removable {
        dirExists := false;
      }
    }

    /** The end of Worker.__call__ once an attempt is not retried. */
    method Finalize<T>(ret: PollOutcome, env: WorkerEnv<T>) returns (outcome: CallOutcome<T>)
      requires !Retries(Settings(), Ran(State(), ret))
      modifies this
      ensures Called(State(), outcome) == Finish(Settings(), Ran(old(State()), ret), env)
    {
      match ret
      case Reported(QacctFailed) =>
        WriteJobLog("stderr.txt");
        WriteJobLog("stdout.txt");
        CleanUp(env.removable);
        outcome := Threw(ValueError(JobFailed(jobid)));
      case Reported(QacctSuccess) =>
        if env.load.None? {
          return Threw(LoadError);
        }
        CleanUp(env.removable);
        outcome := Returned(env.load.value);
      case Raised(e) =>
        outcome := Threw(e);
      case Unfinished =>
        outcome := Pending;
    }

    /**
     * One pass of the loop in Worker.__call__: run attempt `a`, then either
     * count the failure and go round again (`done` false) or finish.
     */
    method CallOnce<T>(a: AttemptEnv, env: WorkerEnv<T>) returns (done: bool, outcome: CallOutcome<T>)
      modifies this
      ensures var ran := RunStep(Settings(), old(State()), a);
        done == !Retries(Settings(), ran) &&
        (done ==> Called(State(), outcome) == Finish(Settings(), ran, env)) &&
        (!done ==> State() == ran.state.(attempt := ran.state.attempt + 1))
    {
      var ret := RunAttempt(a);
      if ret == Reported(QacctFailed) && attempt < config.maxAttempts {
        attempt := attempt + 1;
        return false, Pending;
      }
      done := true;
      outcome := Finalize(ret, env);
    }

    /** Worker.__call__, for as many attempts as `env` supplies answers for. */
    method Call<T>(env: WorkerEnv<T>) returns (outcome: CallOutcome<T>)
      modifies this
      ensures Called(State(), outcome) == CallSpec(Settings(), old(State()), env)
    {
      ghost var w := Settings();
      var i := 0;
      assert env.(attempts := env.attempts[0..]) == env;
      while i < |env.attempts|
        invariant 0 <= i <= |env.attempts|
        invariant CallLoop(Run(w), w, State(), env.(attempts := env.attempts[i..])) == CallSpec(w, old(State()), env)
        decreases |env.attempts| - i
      {
        ghost var before := State();
        ghost var ran := RunStep(w, before, env.attempts[i]);
        CallLoopStep(w, before, env, i);
        var done;
        done, outcome := CallOnce(env.attempts[i], env);
        if done {
          return;
        }
        assert State() == ran.state.(attempt := ran.state.attempt + 1);
        i := i + 1;
      }
      outcome := Pending;
    }
  }
}
