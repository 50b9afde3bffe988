/**
 * The settings every Worker and Pool is built from (Proto.__init__ in
 * sgepy/SGE.py) and the per-object scratch directory (the tmp_dir setter).
 */
module Proto {
  import opened Wrappers
  import opened Text
  import opened Resources

  /** The text of str(uuid.uuid4()).replace('-', ''): 32 lower-case hexadecimal digits. */
  predicate IsUuidHex(t: string)
  {
    |t| == 32 && forall i :: 0 <= i < |t| ==> IsDigit(t[i]) || 'a' <= t[i] <= 'f'
  }

  /** What posixpath.join(a, b) puts in front of b when b is relative. */
  function JoinPrefix(a: string): string
  {
    if a == "" || a[|a| - 1] == '/' then a else a + "/"
  }

  /** posixpath.join(a, b) for two components. */
  function PathJoin(a: string, b: string): string
  {
    if StartsWith(b, "/") then b else JoinPrefix(a) + b
  }

  /** The base directory as the setter reads it: None counts as ''. */
  function BaseText(base: Option<string>): string
  {
    match base case Some(x) => x case None => ""
  }

  /**
   * The tmp_dir setter's path: the fresh token joined onto the base. A token
   * never starts with '/', so the join never discards the base.
   */
  function TmpDirFor(base: Option<string>, token: string): (dir: string)
    requires IsUuidHex(token)
    ensures dir == JoinPrefix(BaseText(base)) + token
  {
    assert !StartsWith(token, "/") by { assert token[0] != '/'; }
    PathJoin(BaseText(base), token)
  }

  /**
   * The scratch directory is the token as the last component directly below
   * the base: what precedes the token is empty or ends in '/', and is the base
   * itself with at most one '/' added.
   */
  lemma TmpDirShape(base: Option<string>, token: string)
    requires IsUuidHex(token)
    ensures var dir := TmpDirFor(base, token);
      |dir| >= 32 && dir[|dir| - 32..] == token &&
      var parent := dir[..|dir| - 32];
      (parent == "" || parent[|parent| - 1] == '/') &&
      StartsWith(parent, BaseText(base)) && |parent| <= |BaseText(base)| + 1
    ensures base.None? ==> TmpDirFor(base, token) == token
  {
    var p := JoinPrefix(BaseText(base));
    var dir := p + token;
    assert dir[|dir| - 32..] == token;
    assert dir[..|dir| - 32] == p;
  }

  /** Two different tokens give two different scratch directories under the same base. */
  lemma TmpDirsDistinct(base: Option<string>, t1: string, t2: string)
    requires IsUuidHex(t1) && IsUuidHex(t2) && t1 != t2
    ensures TmpDirFor(base, t1) != TmpDirFor(base, t2)
  {
    var p := JoinPrefix(BaseText(base));
    assert (p + t1)[|p|..] == t1;
    assert (p + t2)[|p|..] == t2;
  }

  /** The arguments of Proto.__init__, time and mem as the setters receive them. */
  datatype ProtoArgs = ProtoArgs(
    kwargs: map<string, string>,   // keyword arguments for the task, rendered as text
    pkgs: seq<string>,             // names of packages the remote script imports
    parallelEnv: string,
    threads: int,
    time: ResourceArg,
    mem: ResourceArg,
    gpu: int,
    condaEnv: string,
    maxAttempts: int,
    tmpDir: Option<string>,
    keepTmp: bool,
    verbose: bool)

  /** The default arguments of Proto.__init__. */
  function DefaultArgs(): ProtoArgs
  {
    ProtoArgs(map[], [], "parallel", 1, Given("00:59:00"), Given("6"), 0, "snakemake", 3,
              Some("/ebio/abt3_projects/temp_data/"), false, false)
  }

  /** The attributes Proto.__init__ stores; the scratch directory is kept apart. */
  datatype Config = Config(
    kwargs: map<string, string>,
    pkgs: seq<string>,
    parallelEnv: string,
    threads: int,
    time: ResourceArg,
    mem: MemSpec,
    gpu: int,
    condaEnv: string,
    maxAttempts: int,
    tmpBase: Option<string>,
    keepTmp: bool,
    verbose: bool)

  /**
   * The setters run by Proto.__init__: only the mem setter can fail (ValueError
   * on a value that is not an integer), and it runs before the scratch
   * directory is made.
   */
  function Configure(args: ProtoArgs): (r: Result<Config, Error>)
    ensures r.Success? <==> SetMem(args.mem).Success?
    ensures r.Failure? ==> r.error == ValueError(BadMemory)
    ensures r.Success? ==> r.value.mem == SetMem(args.mem).value && r.value.time == args.time
  {
    match SetMem(args.mem)
    case Failure(e) => Failure(e)
    case Success(m) =>
      Success(Config(args.kwargs, args.pkgs, args.parallelEnv, args.threads, args.time, m, args.gpu,
                     args.condaEnv, args.maxAttempts, args.tmpDir, args.keepTmp, args.verbose))
  }

  /** The default memory is accepted and read back as six gigabytes at every attempt; three attempts at most. */
  lemma DefaultsAccepted(attempt: int)
    ensures Configure(DefaultArgs()).Success?
    ensures Configure(DefaultArgs()).value.maxAttempts == 3
    ensures MemAt(Configure(DefaultArgs()).value.mem, attempt, 1) == Success("6G")
  {
    MemSixGigabytes(DefaultArgs().mem.text, attempt, 1);
  }

  /** The default time limit, 59 minutes, is passed to qsub as written. */
  lemma DefaultTimeAccepted(attempt: int)
    ensures TimeAt(DefaultArgs().time, attempt, 1) == Success("00:59:00")
  {
    FormatTimeOfClock(360, DefaultArgs().time.text);
  }
}
