# sgepy in Dafny

sgepy (`sgepy/SGE.py`) runs Python functions as jobs on a Sun Grid Engine cluster:

- A `Worker` writes the function, its arguments and two scripts into a scratch directory.
- It submits the bash script with `qsub` and polls `qstat` and `qacct` until the job ends.
- After a failure it resubmits while attempts remain. It then loads the pickled result and removes the scratch directory.
- A `Pool` runs one Worker per input and returns the results in input order.
- `setup.py` reads the package version from `sgepy/__init__.py`.

This project models that core and proves properties of the model.

Modules, one per file:

- `Wrappers` (wrappers.dfy): `Option`, `Result`, and the exceptions the core raises.
- `Text` (text.dfy): the fragments of Python's string built-ins the core relies on:
  - `str(n)` and `int(s)`;
  - `rstrip`, `split` with a one-character separator, `startswith`, `join`;
  - `re.split(' +', …)`.
- `Resources` (resources.dfy): `Proto.format_time` and the `time`/`mem` properties. A value and a function of `(attempt, threads)` are both a `ResourceArg`.
- `Proto` (proto.dfy): `Proto.__init__` and the `tmp_dir` setter. The uuid is a parameter `token`.
- `Scheduler` (scheduler.dfy): the parsers `qstat_check`, `qacct_check` and the job-id extraction of `qsub`. Each works over a command's return code and stdout.
- `Polling` (polling.dfy): `check_job`. It is an imperative method with the backoff `delay` as a `real`. It is proved equal to a function over a finite trace of scheduler answers.
- `Workers` (worker.dfy): the Worker.
  - A class `Worker` whose methods update `attempt`, `jobid` and the file-path attributes.
  - Each method is proved against a step function over a `WorkerState` value.
  - `Call` (`__call__`) is proved against `CallSpec`.
  - Properties of the retry loop are lemmas about `CallSpec`.
  - What the code does to the outside world (files written, the qsub command line, logs dumped, clean-up) goes into an ordered action log.
  - What the world answers is an input `WorkerEnv`: qsub and poll output per attempt, whether the result file loads, whether the directory can be removed.
- `Pools` (pool.dfy): `Pool.__init__`, `run_worker` and `map`, run sequentially.
- `SetupVersion` (setup.dfy): `get_version` over the text of the file.

## Model

| member | source | states |
|---|---|---|
| Text.NatToString | sgepy/SGE.py:84 | `str(n)` of a non-negative int is a non-empty run of digits with no leading zero, one digit exactly below 10 |
| Text.DigitsValueOfNatToString | sgepy/SGE.py:60 | reading the digits of `str(n)` back gives n |
| Text.NatToStringInjective | sgepy/SGE.py:64 | different numbers print differently |
| Text.ParseInt | sgepy/SGE.py:90 | `int(s)` succeeds only on text that has a digit |
| Text.ParseStripped | sgepy/SGE.py:90 | `int()` after stripping succeeds only on text that has a digit |
| Text.ParseIntUnspaced | sgepy/SGE.py:90 | `int()` of a text without surrounding whitespace reads it as it stands |
| Text.ParseIntOfIntToString | sgepy/SGE.py:84 | `int(str(n)) == n` for every int n, negative ones included |
| Text.ParseIntOfDigits | sgepy/SGE.py:90 | `int()` of a run of digits is their decimal value |
| Text.ParseIntOfNatToString | sgepy/SGE.py:84 | `int(str(n)) == n` for n >= 0 |
| Text.ParseIntOfMinusDigits | sgepy/SGE.py:84 | `int()` of a minus sign followed by digits worth m is -m |
| Text.ParseIntOfNegative | sgepy/SGE.py:84 | `int(str(n)) == n` for n < 0 |
| Text.TrimUnspaced | sgepy/SGE.py:90 | `strip()` leaves a text that neither starts nor ends with whitespace unchanged |
| Text.RStrip | sgepy/SGE.py:90 | `rstrip(chars)` leaves a prefix of s that does not end in `chars`; everything removed is in `chars` |
| Text.RStripSuffix | sgepy/SGE.py:90 | stripping a tail made only of `chars` from a text not ending in one gives that text back |
| Text.SplitOn | sgepy/SGE.py:228 | `split(c)` always yields at least one piece |
| Text.SplitOnJoin | sgepy/SGE.py:228 | the pieces of `split(c)` contain no c and, joined with c, rebuild the text |
| Text.SplitOnRejoin | sgepy/SGE.py:228 | the pieces of `split(c)`, joined with c, rebuild the text |
| Text.SplitOnPiecesFree | sgepy/SGE.py:228 | no piece of `split(c)` contains c |
| Text.SplitOnFirstPiece | setup.py:22 | the first piece is the text before the first c; a second piece exists exactly when c occurs |
| Text.SplitOnPrefix | setup.py:22 | splitting `pre + c + post`, with no c in pre, gives pre followed by the pieces of post |
| Text.SplitOnSecondPiece | setup.py:22 | `split(c)[1]` exists exactly when c occurs, and it is the text between the first and second c (or the end) |
| Text.SplitSpaces | sgepy/SGE.py:197 | `re.split(' +', s)` always yields at least one field |
| Text.SplitSpacesJoin | sgepy/SGE.py:229 | the fields joined with single spaces give s with each run of spaces squeezed to one |
| Text.SplitSpacesNoSpace | sgepy/SGE.py:229 | no field contains a space |
| Resources.FormatTimeWith | sgepy/SGE.py:57-67 | any accepted result matches `^[0-9]{2}:[0-5][0-9]:[0-5][0-9]$` (a trailing newline allowed, as in Python); every rejection is ValueError; text that is not all digits is returned unchanged exactly when it matches |
| Resources.FormatTimeOfSeconds | sgepy/SGE.py:59-64 | a digit string n is converted by the hours/minutes/seconds split with the given seconds-per-hour and the result is then checked |
| Resources.ClockFields | sgepy/SGE.py:64-65 | a clock with hours below 100 and minutes and seconds below 60 passes the check, and its fields read back |
| Resources.WideHoursRejected | sgepy/SGE.py:64-66 | hours of three or more digits fail the check |
| Resources.FormatTimeOfFields | sgepy/SGE.py:59-66 | with fields from the split, hours below 100 give an accepted clock worth `hours*3600 + minutes*60 + secs` seconds, and 100 or more hours give ValueError |
| Resources.FormatTimeAsWrittenSeconds | sgepy/SGE.py:61-66 | as written, with 360: `hours*360 + minutes*60 + secs == n`, minutes in 0..5, secs in 0..59; accepted below 36000, ValueError from 36000 on |
| Resources.FormatTimeAsWrittenOneHour | sgepy/SGE.py:61-64 | as written, 3600 seconds become "10:00:00", which is 36000 seconds |
| Resources.FormatTimeSeconds | sgepy/SGE.py:57-67 | with 3600 seconds per hour, every n below 360000 becomes a clock worth exactly n seconds; larger n give ValueError |
| Resources.FormatTimeIdempotent | sgepy/SGE.py:65-67 | formatting an accepted value again gives the same value |
| Resources.FormatTimeOfClock | sgepy/SGE.py:59-67 | a value already in clock form is passed through, whatever the divisor for hours |
| Resources.TimeAt | sgepy/SGE.py:70-79 | the time getter returns a checked clock; a set value goes through `format_time` as written (360 seconds to the hour), whatever the attempt; a stored function is evaluated at (attempt, threads) and its result formatted the same way |
| Resources.TimeAtSeconds | sgepy/SGE.py:70-79 | a time of n seconds is read back at every attempt as the clock of n with 360-second hours below 36000, and raises ValueError from 36000 on |
| Resources.TimeAtOneHour | sgepy/SGE.py:70-73 | a time of 3600 seconds is asked of qsub as "10:00:00" at every attempt |
| Resources.SetMem | sgepy/SGE.py:85-91 | a function is stored as is; a value loses its trailing G/M/g/m and is stored exactly when int() accepts what remains, as the number int() gives; the only error is ValueError |
| Resources.MemAt | sgepy/SGE.py:81-84 | the mem getter yields `str(int(x))` followed by "G", x being the stored number or the stored function's result at (attempt, threads); it fails exactly when that result is not an int() text, and only with ValueError |
| Resources.MemUnitsStripped | sgepy/SGE.py:84-90 | `str(n)` followed by any run of G/M/g/m is accepted as n and printed `<n>G` |
| Resources.MemSixGigabytes | sgepy/SGE.py:84-90 | "6", "6G", "6g" and "6M" all give "6G" |
| Resources.MemWithoutDigitsRejected | sgepy/SGE.py:90 | a value with no digit raises ValueError |
| Resources.MemReparse | sgepy/SGE.py:84-90 | what the getter prints the setter accepts as the same number |
| Proto.TmpDirFor | sgepy/SGE.py:97-103 | the scratch directory is `os.path.join(base, uuid)`, with None as "" |
| Proto.TmpDirShape | sgepy/SGE.py:97-103 | the directory ends in the 32-character token; what precedes it is the base, plus at most one "/", and is empty or ends in "/"; without a base the directory is the token |
| Proto.TmpDirsDistinct | sgepy/SGE.py:100-101 | different tokens give different directories |
| Proto.Configure | sgepy/SGE.py:24-54 | `Proto.__init__` fails exactly when the mem setter does (ValueError); it keeps the mem setter's result and the time as given |
| Proto.DefaultsAccepted | sgepy/SGE.py:24-54 | the defaults are accepted, with 3 attempts and "6G" at every attempt |
| Proto.DefaultTimeAccepted | sgepy/SGE.py:25 | the default time "00:59:00" is accepted at every attempt |
| Scheduler.Fields | sgepy/SGE.py:229 | a line always has a field 0 |
| Scheduler.StateCode | sgepy/SGE.py:231-236 | a state code means failed exactly when it is Eqw or d; r, qw, t and any other code mean running |
| Scheduler.QstatScan | sgepy/SGE.py:228-237 | scanning qstat's lines can only fail with IndexError (a matching line without field 4) |
| Scheduler.QstatScanFirst | sgepy/SGE.py:228-237 | no line whose field 0 is the job id gives None; otherwise the first such line decides |
| Scheduler.QstatCheck | sgepy/SGE.py:218-237 | a nonzero return code gives None; the only possible exception is IndexError |
| Scheduler.QstatCheckSpec | sgepy/SGE.py:226-237 | `qstat_check` in full: return code, then the first line carrying the job id decides |
| Scheduler.QacctScan | sgepy/SGE.py:250-257 | scanning qacct's lines can only fail with IndexError (an exit_status line without field 1) |
| Scheduler.QacctScanFirst | sgepy/SGE.py:250-257 | no exit_status line gives None; otherwise the first one decides: "0" is success, anything else failed |
| Scheduler.QacctCheck | sgepy/SGE.py:239-257 | a nonzero return code gives None; the only possible exception is IndexError |
| Scheduler.QacctCheckSpec | sgepy/SGE.py:248-257 | `qacct_check` in full: return code, then the first exit_status line decides |
| Scheduler.DigitRun | sgepy/SGE.py:283 | `[0-9]+` after the prefix: the longest run of digits at that position |
| Scheduler.MatchPos | sgepy/SGE.py:283 | a position found is a match of "Your job " followed by a digit |
| Scheduler.MatchPosLeftmost | sgepy/SGE.py:283 | there is no match exactly when the search finds none, and a match found is the leftmost one |
| Scheduler.JobIdFromQsub | sgepy/SGE.py:277-286 | a nonzero return code is CalledProcessError; the only other failure is ValueError |
| Scheduler.JobIdMissing | sgepy/SGE.py:282-286 | after a zero return code, ValueError is raised exactly when stdout has no "Your job " followed by a digit |
| Scheduler.JobIdFound | sgepy/SGE.py:282-286 | the id is a non-empty run of digits, the maximal one after the leftmost match |
| Polling.NextDelay | sgepy/SGE.py:202 | above 60 the delay becomes 60, otherwise it is multiplied by 1.2 |
| Polling.NextDelayBounds | sgepy/SGE.py:198-202 | a delay in [2, 72] stays in [2, 72] |
| Polling.PollDecision | sgepy/SGE.py:204-216 | one pass never ends as unfinished; the only exceptions are IndexError and TypeError (qstat 'failed' calls `sys.stderr`) |
| Polling.PollFrom | sgepy/SGE.py:199-216 | check_job over a trace raises only IndexError or TypeError |
| Polling.PollFromFirstDecisive | sgepy/SGE.py:199-216 | the result is the decision of the first decisive pass; polling is unfinished exactly when no pass decides |
| Polling.QacctOnlyWhenNotListed | sgepy/SGE.py:204-212 | while qstat lists the job (running or failed), qacct's output is never consulted; running goes round again, failed raises TypeError |
| Polling.ReportedFromQacct | sgepy/SGE.py:211-216 | a reported outcome is qacct's report on a pass where qstat no longer listed the job |
| Polling.CheckPass | sgepy/SGE.py:203-216 | one pass of the loop computes that pass's decision |
| Polling.CheckJob | sgepy/SGE.py:193-216 | check_job's result is `PollFrom` of the trace; a decided loop stops at the first decisive pass; delays start at 2, follow the update rule and stay in [2, 72] |
| Workers.SerializeStep | sgepy/SGE.py:350-362 | after attempt 1 nothing happens; on attempt 1 job_params.pkl is written and its path kept |
| Workers.PythonScriptStep | sgepy/SGE.py:288-318 | after attempt 1 nothing happens; on attempt 1 script.py is written and its path kept |
| Workers.BashScriptStep | sgepy/SGE.py:320-348 | after attempt 1 nothing happens; on attempt 1 results.pkl and script.sh are set and script.sh is written with the conda env, script and parameter paths |
| Workers.QsubStep | sgepy/SGE.py:259-286 | the log paths are always set; no error exactly when mem, time and the job id all succeed, and then the id is the new jobid; on error the jobid is unchanged, and the error is the first of mem's, time's or the job-id parser's, in that order |
| Workers.QsubStepLog | sgepy/SGE.py:265-280 | the qsub command is logged exactly when mem and time both evaluate |
| Workers.RunStep | sgepy/SGE.py:127-139 | an attempt keeps the attempt counter and the directory, and never raises the final ValueError or a load error |
| Workers.CleanUpStep | sgepy/SGE.py:175-191 | clean_up is logged, the directory survives only with keep_tmp or when rmtree could not remove it, and nothing else in the state changes |
| Workers.RunStepCounts | sgepy/SGE.py:127-139 | an attempt submits at most once (exactly once when qacct reported), never cleans up, and serializes only on attempt 1 |
| Workers.RunWellBehaved | sgepy/SGE.py:127-139 | every attempt of `_run` keeps all of the above |
| Workers.FinishLog | sgepy/SGE.py:150-164 | finishing adds one clean_up exactly on success or after the last failure |
| Workers.FinishState | sgepy/SGE.py:150-164 | finishing ends with the clean-up exactly on those paths, and only the clean-up touches the directory |
| Workers.FinishFailed | sgepy/SGE.py:150-155 | the last failure raises ValueError with the job id |
| Workers.CallLoopStep | sgepy/SGE.py:145-164 | one trip round the `while(1)`: a retried failure continues the loop from the next attempt; anything else finishes it |
| Workers.LoopAttempts | sgepy/SGE.py:150-158 | in the loop, for any well-behaved attempt, the counter only grows and stops at max_attempts |
| Workers.LoopCleanUpCount | sgepy/SGE.py:150-164 | in the loop clean_up runs once on success or final failure and never between retries |
| Workers.LoopCleanUpLast | sgepy/SGE.py:150-164 | in the loop the clean-up is the last action, and the directory changes only through it |
| Workers.LoopSubmitsAtMost | sgepy/SGE.py:145-158 | the loop submits at most max(1, max_attempts - attempt + 1) jobs |
| Workers.LoopSerializesOnce | sgepy/SGE.py:292-293 | the loop serializes once if it starts at attempt 1 and makes any attempt |
| Workers.LoopReturnsLoaded | sgepy/SGE.py:160-164 | a returned value is the loaded result |
| Workers.LoopAlwaysFailing | sgepy/SGE.py:150-155 | when every attempt fails, the loop raises ValueError with the id of the last permitted job, and the counter ends at max(attempt, max_attempts) |
| Workers.LoopAlwaysFailingSubmits | sgepy/SGE.py:145-158 | when every attempt fails, exactly max(1, max_attempts - attempt + 1) jobs are submitted |
| Workers.CallAttempts | sgepy/SGE.py:150-158 | `__call__`: attempt only grows and does not pass max_attempts unless it started there; the final ValueError only at max_attempts; a call that returns or raises the final ValueError submitted one job per value the counter took |
| Workers.LoopAttemptsSubmitted | sgepy/SGE.py:150-158 | the loop of `__call__`, from any state: when it returns or raises the final ValueError, it submitted one job for the starting attempt and one per increment of the counter |
| Workers.CallCleansUpOnce | sgepy/SGE.py:150-191 | `__call__`: exactly one clean_up on success or final failure, and none otherwise. It is the last action. The directory is gone afterwards unless keep_tmp is set or it could not be removed |
| Workers.CallSubmitsAtMost | sgepy/SGE.py:145-158 | `__call__` submits at most max(1, max_attempts - attempt + 1) jobs |
| Workers.CallSerializesOnce | sgepy/SGE.py:292-293 | the parameters are written once, on attempt 1, however many attempts follow |
| Workers.ReturnedIsLoaded | sgepy/SGE.py:160-164 | a value `__call__` returns is the content of results.pkl |
| Workers.RunFails | sgepy/SGE.py:127-139 | with valid resources, an attempt whose job qacct reports failed ends failed, with that job's id, whatever the state |
| Workers.AlwaysFailing | sgepy/SGE.py:145-158 | a job that always fails is submitted max(1, max_attempts - attempt + 1) times, then ValueError is raised with the last job's id |
| Workers.Worker.constructor | sgepy/SGE.py:110-121 | `Worker.__init__`: first attempt, no file paths, no job id, the scratch directory made |
| Workers.Worker.Serialize | sgepy/SGE.py:350-362 | the object's new state is `SerializeStep` of the old |
| Workers.Worker.JobPythonScript | sgepy/SGE.py:288-318 | the new state is `PythonScriptStep` of the old |
| Workers.Worker.JobBashScript | sgepy/SGE.py:320-348 | the new state is `BashScriptStep` of the old |
| Workers.Worker.Qsub | sgepy/SGE.py:259-286 | the new state and the exception are `QsubStep` of the old |
| Workers.Worker.RunAttempt | sgepy/SGE.py:127-139 | `_run`: the new state and check_job's outcome are `RunStep` of the old state |
| Workers.Worker.WriteJobLog | sgepy/SGE.py:166-173 | the dump of one job log is recorded |
| Workers.Worker.CleanUp | sgepy/SGE.py:175-191 | the new state is `CleanUpStep` of the old |
| Workers.Worker.Finalize | sgepy/SGE.py:150-164 | the end of `__call__` once an attempt is not retried equals `Finish` |
| Workers.Worker.CallOnce | sgepy/SGE.py:145-164 | one trip of the loop: a failure with attempts left bumps attempt and goes on, anything else finishes as `Finish` says |
| Workers.Worker.Call | sgepy/SGE.py:141-164 | `__call__`: the final state and outcome are `CallSpec` of the initial state |
| Pools.NewPool | sgepy/SGE.py:365-370 | `Pool.__init__` fails exactly when `Proto.__init__` does, and otherwise keeps the settings, n_jobs and a fresh scratch directory |
| Pools.WorkerArgs | sgepy/SGE.py:376-386 | run_worker passes every setting except max_attempts (so 3), passes time and mem as evaluated at attempt 1 (time first, either may raise), and passes the Pool's directory as the base |
| Pools.CollectInOrder | sgepy/SGE.py:404 | `list(map(...))`: when every worker returns, result i is worker i's; otherwise the first worker that does not return decides |
| Pools.CollectReturnsOnlyIfAll | sgepy/SGE.py:404 | the map returns a list exactly when every worker returns |
| Pools.PoolMapInOrder | sgepy/SGE.py:389-404 | Pool.map returns one result per input, result i being `run_worker(args[i])`, exactly when all return |
| Pools.MemAtReparse | sgepy/SGE.py:381 | the "<n>G" text the Pool forwards is accepted by the Worker's mem setter and gives the same text at every attempt |
| Pools.WorkerConfig | sgepy/SGE.py:376-386 | the Worker's settings exist exactly when run_worker gets past the getters |
| Pools.WorkerSettingsFrozen | sgepy/SGE.py:376-386 | a Pool's Worker has the Pool's settings and 3 attempts; at every attempt its time and mem are the Pool's at attempt 1 |
| Pools.WorkerDirUnderPool | sgepy/SGE.py:97-103 | a Worker's directory is its uuid directly under the Pool's directory, itself a uuid under the base |
| Pools.WorkerResourcesValid | sgepy/SGE.py:380-381 | a Pool's Worker can evaluate time and mem at every attempt |
| Pools.PoolWorkerGivesUpAfterThree | sgepy/SGE.py:376-387 | a Pool job that always fails is submitted three times, whatever the Pool's own max_attempts, then raises ValueError with the third job's id |
| SetupVersion.SplitLines | setup.py:19 | `splitlines()`: no line holds a break, and there are no lines exactly for the empty text |
| SetupVersion.SplitLinesOneLine | setup.py:19 | a text without breaks is one line |
| SetupVersion.SplitLinesCons | setup.py:19 | a line ended by "\n", "\r" or "\r\n" is followed by the lines of the rest |
| SetupVersion.Delim | setup.py:21 | the delimiter is `"` exactly when the line has one, otherwise `'` |
| SetupVersion.VersionFromLine | setup.py:22 | `line.split(delim)[1]` fails only with IndexError |
| SetupVersion.FindVersion | setup.py:19-24 | the loop fails only with IndexError or RuntimeError |
| SetupVersion.FindVersionFirst | setup.py:19-24 | the first line starting with `__version__` decides, and later ones are ignored; RuntimeError exactly when there is none |
| SetupVersion.VersionBetweenDelims | setup.py:21-22 | a version exists exactly when the delimiter occurs, and it is the text between its first and second occurrence |
| SetupVersion.SingleQuotedVersion | setup.py:18-22 | a first line `__version__ = '<v>'` ended by a line break gives v, whatever follows |

## Left out

- Running `qsub`, `qstat` and `qacct`: the external processes are not modelled. Their return code and stdout are inputs (`CommandOutput`).
- The check in `Worker.__init__` that the three commands can be found: it depends on the machine. The `OSError` it raises is not modelled.
- File contents: the pickled parameters, the Python and bash script texts, and the conda bootstrap are template text. Writing them is an entry in the action log, with the paths and the values the bash script is filled with.
- Reading `results.pkl`: the unpickled value is the input `WorkerEnv.load`. A file that cannot be loaded is `LoadError`.
- `write_job_log`: it copies a log file to stderr. It is recorded as a `DumpLog` entry, without the file's content.
- Clean-up: `shutil.rmtree`, its five-second retry and the warning are reduced to an input `removable`. It says whether the directory is gone after both tries.
- `keep_tmp is True`: the setting is modelled as a `bool`, so a truthy non-`True` value is not distinguished.
- The fresh uuid of the `tmp_dir` setter: it is a parameter, a 32-character lower-case hex `token`. `os.makedirs` is the first action in the log.
- Timing: `time.sleep`, the five-second pause after an empty qstat answer, and floating-point rounding of `delay` are left out. The delay is a `real`.
- Polling without a timeout: check_job and `__call__` run over finite traces of answers. Running out of answers gives `Unfinished`/`Pending`, which the code never returns.
- Concurrency: `n_jobs`, `mp.Pool`, `imap` and the `tqdm` progress bars are left out. `Pools.PoolMap` is the sequential `map`, which stops at the first worker that raises. With several jobs the code uses `mp.Pool`: by default `imap`, which raises at the first failed worker in input order while the `with` block terminates the workers still running; with `verbose` set, `p.map`, which waits for every worker and raises the error of the first to fail in completion order. Neither is modelled.
- Logging and `verbose`: they only write log messages.
- `Resources.FormatTimeWith`: `int(x / 360)` divides in floating point, and a digit string worth more than about 1.8e308 (311 or more digits) raises OverflowError there rather than ValueError. This case is not modelled, and the contracts of `Resources.FormatTimeAsWrittenSeconds`, `Resources.FormatTimeOfFields` and `Resources.TimeAtSeconds` inherit that gap. Rounding of the float quotient is not modelled either: it matters only for values that are rejected in any case.
- `Text.ParseInt`: covers ASCII whitespace, an optional sign and ASCII digits. Underscores between digits and non-ASCII digits, which Python's `int()` also accepts, are not modelled.
- `Resources.MemAt`: a computed mem value is modelled as text that `int()` parses. A function returning a float, which `int()` truncates, is not modelled.
- `Workers.Worker.constructor`: it takes settings that `Proto.__init__` has already accepted (`Proto.Configure`). A failing `Proto.__init__` is modelled by `Configure` and `Pools.NewPool`.
- `Workers.Worker.WriteJobLog`: it records the dump, but not what the file held.
- Arguments and kwargs for the task: they are data the model only passes along as text.
- The Pool's own scratch directory: it is created but never cleaned up, so the model has no step for removing it.
- Test scaffolding: `sgepy/tests.py` calls a `Worker.run` method that SGE.py does not define. The tests only shell out to that script.
- Where the documentation and the code disagree, the model follows the code:
  - a job that qstat reports as failed makes check_job call `sys.stderr(...)`, which raises `TypeError` rather than reporting the failure;
  - the job id is taken after the first "Your job " that is followed by a digit, not after the first "Your job ".

## Findings

| source | as written | input that shows it | evidently intended | confidence | as-written member | corrected member |
|---|---|---|---|---|---|---|
| sgepy/SGE.py:61-63 | `format_time` divides by 360 to get hours and subtracts `hours * 360` | a time of 3600 seconds becomes "10:00:00", ten hours; anything from 36000 seconds (ten hours as intended) raises ValueError | 3600 seconds per hour, so n seconds become a clock worth n seconds | not executed | Resources.FormatTimeAsWrittenOneHour | Resources.FormatTimeSeconds |

The as-written divisor is `Resources.FormatTimeAsWritten`, with its properties in `Resources.FormatTimeAsWrittenSeconds`. The rest of the model follows the code: `Resources.TimeAt`, and through it the Worker's `qsub` command and the Pool, format with 360 seconds to the hour (`Resources.TimeAtSeconds`, `Resources.TimeAtOneHour`). The corrected definition is `Resources.FormatTime`, with 3600; `Resources.FormatTimeSeconds` proves the intended property for it.
