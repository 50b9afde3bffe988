/**
 * Pool (sgepy/SGE.py): settings shared by a batch of jobs, one Worker per
 * input, the results collected in input order. The Pool's own attributes are
 * never changed after Proto.__init__, so a Pool is a value here.
 */
module Pools {
  import opened Wrappers
  import opened Text
  import opened Resources
  import opened Proto
  import opened Scheduler
  import opened Workers

  /** A Pool: the settings Proto.__init__ accepted, n_jobs and the Pool's own scratch directory. */
  datatype Pool = Pool(config: Config, nJobs: int, tmpDir: string)

  /**
   * Pool.__init__ with `token` as the fresh uuid of the tmp_dir setter: it
   * fails exactly when Proto.__init__ does (a mem value that is not an integer).
   */
  function NewPool(args: ProtoArgs, nJobs: int, token: string): (r: Result<Pool, Error>)
    requires IsUuidHex(token)
    ensures r.Success? <==> Configure(args).Success?
    ensures r.Failure? ==> r.error == ValueError(BadMemory)
    ensures r.Success? ==>
      r.value.config == Configure(args).value && r.value.nJobs == nJobs && r.value.tmpDir == TmpDirFor(args.tmpDir, token)
  {
    match Configure(args)
    case Failure(e) => Failure(e)
    case Success(c) => Success(Pool(c, nJobs, TmpDirFor(args.tmpDir, token)))
  }

  /**
   * The arguments run_worker passes to Worker(...). A Pool never leaves its
   * first attempt, so time and mem are read at attempt 1, time first; either
   * getter can raise. max_attempts is not passed, so the Worker gets the
   * default; the Pool's scratch directory becomes the Worker's base.
   */
  function WorkerArgs(p: Pool): (r: Result<ProtoArgs, Error>)
    ensures TimeAt(p.config.time, 1, p.config.threads).Failure? ==> r == Failure(TimeAt(p.config.time, 1, p.config.threads).error)
    ensures TimeAt(p.config.time, 1, p.config.threads).Success? && MemAt(p.config.mem, 1, p.config.threads).Failure? ==>
      r == Failure(MemAt(p.config.mem, 1, p.config.threads).error)
    ensures r.Success? <==> TimeAt(p.config.time, 1, p.config.threads).Success? && MemAt(p.config.mem, 1, p.config.threads).Success?
    ensures r.Success? ==>
      var a := r.value;
      a.kwargs == p.config.kwargs && a.pkgs == p.config.pkgs && a.parallelEnv == p.config.parallelEnv &&
      a.threads == p.config.threads && a.gpu == p.config.gpu && a.condaEnv == p.config.condaEnv &&
      a.keepTmp == p.config.keepTmp && a.verbose == p.config.verbose &&
      a.time == Given(TimeAt(p.config.time, 1, p.config.threads).value) &&
      a.mem == Given(MemAt(p.config.mem, 1, p.config.threads).value) &&
      a.maxAttempts == 3 && a.tmpDir == Some(p.tmpDir)
  {
    var c := p.config;
    match TimeAt(c.time, 1, c.threads)
    case Failure(e) => Failure(e)
    case Success(t) =>
      match MemAt(c.mem, 1, c.threads)
      case Failure(e) => Failure(e)
      case Success(m) =>
        Success(ProtoArgs(c.kwargs, c.pkgs, c.parallelEnv, c.threads, Given(t), Given(m), c.gpu, c.condaEnv,
                          DefaultArgs().maxAttempts, Some(p.tmpDir), c.keepTmp, c.verbose))
  }

  /**
   * Pool.run_worker for one input: build the Worker (its uuid is `token`) and
   * call it; `env` is what the outside world does for that Worker's job.
   */
  function RunWorker<T>(p: Pool, token: string, env: WorkerEnv<T>): CallOutcome<T>
    requires IsUuidHex(token)
  {
    match WorkerArgs(p)
    case Failure(e) => Threw(e)
    case Success(a) =>
      match Configure(a)
      case Failure(e) => Threw(e)
      case Success(c) =>
        var w := Setup(c, TmpDirFor(a.tmpDir, token));
        CallSpec(w, InitialState(w), env).outcome
  }

  /** How Pool.map ends: the list of results, or the exception that stopped it, or still waiting. */
  datatype MapOutcome<T> = MapReturned(values: seq<T>) | MapThrew(error: Error) | MapPending

  /**
   * list(map(F, args)) over the Workers' outcomes, taken in input order: the
   * first Worker that does not return decides, otherwise the results in order.
   */
  function Collect<T>(outs: seq<CallOutcome<T>>): MapOutcome<T>
    decreases |outs|
  {
    if outs == [] then MapReturned([])
    else match outs[0]
      case Threw(e) => MapThrew(e)
      case Pending => MapPending
      case Returned(v) =>
        match Collect(outs[1..])
        case MapReturned(vs) => MapReturned([v] + vs)
        case other => other
  }

  /** The tokens are the fresh uuids of the Workers, one per input. */
  predicate Tokens(tokens: seq<string>, n: int)
  {
    |tokens| == n && forall k :: 0 <= k < |tokens| ==> IsUuidHex(tokens[k])
  }

  /** Pool.map: run_worker on every input, in input order. */
  function PoolMap<T>(p: Pool, envs: seq<WorkerEnv<T>>, tokens: seq<string>): MapOutcome<T>
    requires Tokens(tokens, |envs|)
  {
    Collect(seq(|envs|, k requires 0 <= k < |envs| => RunWorker(p, tokens[k], envs[k])))
  }

  // ---------------------------------------------------------------- properties

  /**
   * When every Worker returns, the map returns one result per input, result i
   * being Worker i's; otherwise the first Worker that does not return decides.
   */
  lemma {:induction false} CollectInOrder<T>(outs: seq<CallOutcome<T>>)
    ensures (forall k :: 0 <= k < |outs| ==> outs[k].Returned?) ==>
      Collect(outs).MapReturned? && |Collect(outs).values| == |outs| &&
      forall k :: 0 <= k < |outs| ==> Collect(outs).values[k] == outs[k].value
    ensures forall i :: 0 <= i < |outs| && !outs[i].Returned? && (forall k :: 0 <= k < i ==> outs[k].Returned?) ==>
      Collect(outs) == (if outs[i].Threw? then MapThrew(outs[i].error) else MapPending)
    decreases |outs|
  {
    if outs != [] {
      var rest := outs[1..];
      CollectInOrder(rest);
      assert forall k :: 0 <= k < |rest| ==> rest[k] == outs[k + 1];
      if outs[0].Returned? {
        forall i | 0 < i < |outs| && !outs[i].Returned? && (forall k :: 0 <= k < i ==> outs[k].Returned?)
          ensures Collect(outs) == (if outs[i].Threw? then MapThrew(outs[i].error) else MapPending)
        {
          assert !rest[i - 1].Returned? && forall k :: 0 <= k < i - 1 ==> rest[k].Returned?;
        }
        if forall k :: 0 <= k < |outs| ==> outs[k].Returned? {
          assert forall k :: 0 <= k < |rest| ==> rest[k].Returned?;
          var vs := Collect(rest).values;
          assert Collect(outs).values == [outs[0].value] + vs;
        }
      }
    }
  }

  /** The map returns a list exactly when every Worker returns. */
  lemma {:induction false} CollectReturnsOnlyIfAll<T>(outs: seq<CallOutcome<T>>)
    ensures Collect(outs).MapReturned? <==> forall k :: 0 <= k < |outs| ==> outs[k].Returned?
    decreases |outs|
  {
    if outs != [] {
      var rest := outs[1..];
      CollectReturnsOnlyIfAll(rest);
      assert forall k :: 0 <= k < |rest| ==> rest[k] == outs[k + 1];
    }
  }

  /**
   * Pool.map in full: when every Worker returns, result i is run_worker on
   * input i, in input order; exactly then does the map return a list.
   */
  lemma PoolMapInOrder<T>(p: Pool, envs: seq<WorkerEnv<T>>, tokens: seq<string>)
    requires Tokens(tokens, |envs|)
    ensures PoolMap(p, envs, tokens).MapReturned? <==> forall k :: 0 <= k < |envs| ==> RunWorker(p, tokens[k], envs[k]).Returned?
    ensures PoolMap(p, envs, tokens).MapReturned? ==>
      |PoolMap(p, envs, tokens).values| == |envs| &&
      forall k :: 0 <= k < |envs| ==> PoolMap(p, envs, tokens).values[k] == RunWorker(p, tokens[k], envs[k]).value
  {
    var outs := seq(|envs|, k requires 0 <= k < |envs| => RunWorker(p, tokens[k], envs[k]));
    assert PoolMap(p, envs, tokens) == Collect(outs);
    assert forall k :: 0 <= k < |envs| ==> outs[k] == RunWorker(p, tokens[k], envs[k]);
    CollectInOrder(outs);
    CollectReturnsOnlyIfAll(outs);
  }

  /** What the mem getter printed is accepted again by the setter and printed the same at every attempt. */
  lemma MemAtReparse(m: MemSpec, attempt: int, threads: int, k: int, t: int)
    requires MemAt(m, attempt, threads).Success?
    ensures SetMem(Given(MemAt(m, attempt, threads).value)).Success?
    ensures MemAt(SetMem(Given(MemAt(m, attempt, threads).value)).value, k, t) == MemAt(m, attempt, threads)
  {
    match m
    case MemFixed(n) => MemReparse(n);
    case MemComputed(f) =>
      var n := ParseInt(f(attempt, threads)).value;
      MemReparse(n);
  }

  /** The settings a Worker of the Pool ends up with, when run_worker gets that far. */
  function WorkerConfig(p: Pool): (r: Result<Config, Error>)
    ensures r.Success? <==> WorkerArgs(p).Success?
    ensures r.Success? ==> Configure(WorkerArgs(p).value) == r
  {
    match WorkerArgs(p)
    case Failure(e) => Failure(e)
    case Success(a) =>
      MemAtReparse(p.config.mem, 1, p.config.threads, 1, a.threads);
      Configure(a)
  }

  /**
   * Every Worker of a Pool gets the Pool's settings, three attempts at most,
   * and at every attempt the time and memory the Pool's own functions give
   * for attempt 1.
   */
  lemma WorkerSettingsFrozen(p: Pool, attempt: int)
    requires WorkerConfig(p).Success?
    ensures var c := WorkerConfig(p).value;
      c.kwargs == p.config.kwargs && c.pkgs == p.config.pkgs && c.parallelEnv == p.config.parallelEnv &&
      c.threads == p.config.threads && c.gpu == p.config.gpu && c.condaEnv == p.config.condaEnv &&
      c.keepTmp == p.config.keepTmp && c.verbose == p.config.verbose &&
      c.maxAttempts == 3 && c.tmpBase == Some(p.tmpDir) &&
      TimeAt(c.time, attempt, c.threads) == TimeAt(p.config.time, 1, p.config.threads) &&
      MemAt(c.mem, attempt, c.threads) == MemAt(p.config.mem, 1, p.config.threads)
  {
    var a := WorkerArgs(p).value;
    FormatTimeOfClock(360, TimeAt(p.config.time, 1, p.config.threads).value);
    MemAtReparse(p.config.mem, 1, p.config.threads, attempt, a.threads);
  }

  /**
   * A Worker's scratch directory is its uuid directly below the Pool's own
   * scratch directory, itself the Pool's uuid below the configured base.
   */
  lemma WorkerDirUnderPool(args: ProtoArgs, nJobs: int, poolToken: string, token: string)
    requires IsUuidHex(poolToken) && IsUuidHex(token) && NewPool(args, nJobs, poolToken).Success?
    ensures var p := NewPool(args, nJobs, poolToken).value;
      p.tmpDir == JoinPrefix(BaseText(args.tmpDir)) + poolToken &&
      TmpDirFor(Some(p.tmpDir), token) == p.tmpDir + "/" + token
  {
    var d := NewPool(args, nJobs, poolToken).value.tmpDir;
    assert d[|d| - 1] == poolToken[31];
  }

  /** With the time and memory frozen by the Pool, a Worker can evaluate both at every attempt. */
  lemma WorkerResourcesValid(p: Pool)
    requires WorkerConfig(p).Success?
    ensures ResourcesValid(WorkerConfig(p).value)
  {
    var c := WorkerConfig(p).value;
    forall k ensures TimeAt(c.time, k, c.threads).Success? && MemAt(c.mem, k, c.threads).Success? {
      WorkerSettingsFrozen(p, k);
    }
  }

  /**
   * A Pool job qacct reports failed every time is submitted three times, the
   * default max_attempts, whatever the Pool's own max_attempts; then run_worker
   * raises ValueError with the third job's id.
   */
  lemma PoolWorkerGivesUpAfterThree<T>(p: Pool, token: string, env: WorkerEnv<T>)
    requires IsUuidHex(token) && WorkerConfig(p).Success?
    requires AllAttemptsFail(env.attempts) && |env.attempts| >= 3
    ensures RunWorker(p, token, env) == Threw(ValueError(JobFailed(Some(JobIdFromQsub(env.attempts[2].qsub).value))))
  {
    var c := WorkerConfig(p).value;
    var w := Setup(c, TmpDirFor(Some(p.tmpDir), token));
    var a := WorkerArgs(p).value;
    assert Configure(a) == Success(c) && a.tmpDir == Some(p.tmpDir);
    assert RunWorker(p, token, env) == CallSpec(w, InitialState(w), env).outcome;
    WorkerSettingsFrozen(p, 1);
    assert Budget(InitialState(w).attempt, c.maxAttempts) == 3;
    WorkerResourcesValid(p);
    AlwaysFailing(w, InitialState(w), env);
  }
}
