/**
 * The command-line front end of the Go gzip tool (`gzip-go`): which inputs
 * it selects from its arguments, where each result is written, when an
 * existing destination stops a worker, and the exit code of a run.  The file
 * system is an abstract tree of files and directories; compression itself,
 * the messages on standard error and the worker pool's concurrency are not
 * modelled.
 */
module GzipCli {
  import opened Wrappers
  import opened Text
  import Seqs

  const GzSuffix: string := ".gz"
  /** The argument that stands for standard input. */
  const StdinArg: string := "-"

  /** The parsed flags: `-d`, `-r`, `-stdout`, `-f`, `-l` and `-p`. */
  datatype Options = Options(
    decompress: bool, recursive: bool, stdout: bool, force: bool, level: int, workers: int)

  // ---------------------------------------------------------------------
  // The file system
  // ---------------------------------------------------------------------

  /** A directory entry as the walk sees it: its name and what it is. */
  datatype Entry = Entry(name: string, node: Node)

  /** `Unreadable` is a directory whose listing fails. */
  datatype Node = File | Dir(entries: seq<Entry>) | Unreadable

  /** What `os.Stat` finds for each argument path; a path outside the map fails to stat. */
  type FileSystem = map<string, Node>

  predicate IsDir(n: Node) {
    n.Dir? || n.Unreadable?
  }

  /** A regular file cannot be reached through a path with a trailing slash. */
  predicate WellFormed(fs: FileSystem) {
    forall p :: p in fs && fs[p].File? ==> !HasSuffix(p, "/")
  }

  /** Trailing slashes removed, keeping the first character. */
  function StripTrailingSlashes(p: string): (r: string)
    ensures !HasSuffix(p, "/") ==> r == p
  {
    if |p| > 1 && p[|p| - 1] == '/' then StripTrailingSlashes(p[..|p| - 1]) else p
  }

  /** The characters after the last slash of `s` (all of `s` when it has none). */
  function AfterLastSlash(s: string): (r: string)
    ensures HasSuffix(s, r) && '/' !in r
    ensures |r| < |s| ==> s[|s| - |r| - 1] == '/'
  {
    if s == [] || s[|s| - 1] == '/' then [] else AfterLastSlash(s[..|s| - 1]) + [s[|s| - 1]]
  }

  /** The name `os.Stat` reports for a path: its last element, trailing slashes ignored. */
  function BaseName(p: string): string {
    var q := StripTrailingSlashes(p);
    if q == "/" then q else AfterLastSlash(q)
  }

  /** `filepath.Join` of a walked directory and an entry name. */
  function Join(dir: string, name: string): (r: string)
    ensures HasSuffix(r, name) && |r| > |name| && r[|r| - |name| - 1] == '/'
  {
    if HasSuffix(dir, "/") then dir + name else dir + "/" + name
  }

  /**
   * A path ending in `name` right after a slash ends in ".gz" exactly when
   * `name` does: ".gz" holds no slash.
   */
  lemma SuffixAfterSlash(s: string, name: string)
    requires HasSuffix(s, name)
    requires |name| == |s| || s[|s| - |name| - 1] == '/'
    ensures HasSuffix(s, GzSuffix) <==> HasSuffix(name, GzSuffix)
  {
    if |name| >= |GzSuffix| {
      assert s[|s| - |GzSuffix|..] == name[|name| - |GzSuffix|..];
    } else if |name| < |s| && |s| >= |GzSuffix| {
      assert s[|s| - |GzSuffix|..][|GzSuffix| - |name| - 1] == '/';
    }
  }

  /** A walked path has a ".gz" suffix exactly when its entry name has one. */
  lemma JoinSuffix(dir: string, name: string)
    ensures HasSuffix(Join(dir, name), GzSuffix) <==> HasSuffix(name, GzSuffix)
  {
    SuffixAfterSlash(Join(dir, name), name);
  }

  /** For a path without a trailing slash, the reported name carries the path's ".gz" suffix. */
  lemma BaseNameSuffix(p: string)
    requires !HasSuffix(p, "/")
    ensures HasSuffix(BaseName(p), GzSuffix) <==> HasSuffix(p, GzSuffix)
  {
    if p != [] {
      assert p[|p| - 1] != '/' by { assert p[|p| - 1..] != "/"; }
    }
    SuffixAfterSlash(p, AfterLastSlash(p));
  }

  // ---------------------------------------------------------------------
  // collectInputs
  // ---------------------------------------------------------------------

  /** The suffix rule: decompression takes only ".gz" names, compression never takes one. */
  predicate Keep(name: string, decompress: bool) {
    if decompress then HasSuffix(name, GzSuffix) else !HasSuffix(name, GzSuffix)
  }

  /**
   * The paths the walk callback appends below directory `dir`, depth first
   * in entry order.
   */
  function Walked(dir: string, entries: seq<Entry>, decompress: bool): seq<string>
    decreases entries
  {
    if entries == [] then []
    else EntryPaths(dir, entries[0], decompress) + Walked(dir, entries[1..], decompress)
  }

  /**
   * What one entry of `dir` adds: a file only when it passes the suffix rule,
   * a directory the paths below it, an unreadable directory nothing.
   */
  function EntryPaths(dir: string, e: Entry, decompress: bool): seq<string>
    decreases e
  {
    match e.node
    case File => if Keep(e.name, decompress) then [Join(dir, e.name)] else []
    case Dir(children) => Walked(Join(dir, e.name), children, decompress)
    case Unreadable => []
  }

  /** What one argument `p`, found as `n`, adds to the input list. */
  function Selected(p: string, n: Node, recursive: bool, decompress: bool): seq<string> {
    match n
    case File => if Keep(BaseName(p), decompress) then [p] else []
    case Dir(entries) => if recursive then Walked(p, entries, decompress) else []
    case Unreadable => []
  }

  /** `collectInputs`: the first argument that fails to stat aborts the whole collection. */
  function Collected(fs: FileSystem, paths: seq<string>, recursive: bool, decompress: bool)
    : Result<seq<string>, string>
    decreases |paths|
  {
    if paths == [] then Ok([])
    else
      var p := paths[|paths| - 1];
      match Collected(fs, paths[..|paths| - 1], recursive, decompress)
      case Err(e) => Err(e)
      case Ok(out) =>
        if p !in fs then Err(p) else Ok(out + Selected(p, fs[p], recursive, decompress))
  }

  /** The walk callback applied to every entry below `dir`, appending to `acc`. */
  method Walk(dir: string, entries: seq<Entry>, decompress: bool, acc: seq<string>)
    returns (out: seq<string>)
    ensures out == acc + Walked(dir, entries, decompress)
    decreases entries
  {
    out := acc;
    var i := 0;
    while i < |entries|
      invariant 0 <= i <= |entries|
      invariant out + Walked(dir, entries[i..], decompress) == acc + Walked(dir, entries, decompress)
    {
      WalkedUnfold(dir, entries, i, decompress);
      out := WalkEntry(dir, entries[i], decompress, out);
      i := i + 1;
    }
  }

  /** The callback for one entry, and the walk below it when it is a readable directory. */
  method WalkEntry(dir: string, e: Entry, decompress: bool, acc: seq<string>)
    returns (out: seq<string>)
    ensures out == acc + EntryPaths(dir, e, decompress)
    decreases e
  {
    out := acc;
    match e.node {
      case File =>
        if Keep(e.name, decompress) {
          out := out + [Join(dir, e.name)];
        }
      case Dir(children) =>
        out := Walk(Join(dir, e.name), children, decompress, out);
      case Unreadable =>
    }
  }

  lemma WalkedUnfold(dir: string, entries: seq<Entry>, i: nat, decompress: bool)
    requires i < |entries|
    ensures Walked(dir, entries[i..], decompress)
         == EntryPaths(dir, entries[i], decompress) + Walked(dir, entries[i + 1..], decompress)
  {
    assert entries[i..][0] == entries[i] && entries[i..][1..] == entries[i + 1..];
  }

  /** An error in a prefix of the arguments is the error of the whole collection. */
  lemma {:induction false} CollectedErrorPersists(
    fs: FileSystem, paths: seq<string>, k: nat, recursive: bool, decompress: bool)
    requires k <= |paths| && Collected(fs, paths[..k], recursive, decompress).Err?
    ensures Collected(fs, paths, recursive, decompress) == Collected(fs, paths[..k], recursive, decompress)
    decreases |paths|
  {
    if k < |paths| {
      var init := paths[..|paths| - 1];
      assert init[..k] == paths[..k];
      CollectedErrorPersists(fs, init, k, recursive, decompress);
    } else {
      assert paths[..k] == paths;
    }
  }

  method CollectInputs(fs: FileSystem, paths: seq<string>, recursive: bool, decompress: bool)
    returns (r: Result<seq<string>, string>)
    ensures r == Collected(fs, paths, recursive, decompress)
  {
    var out: seq<string> := [];
    var i := 0;
    while i < |paths|
      invariant 0 <= i <= |paths|
      invariant Collected(fs, paths[..i], recursive, decompress) == Ok(out)
    {
      var p := paths[i];
      CollectedStep(fs, paths, i, recursive, decompress);
      if p !in fs {
        CollectedErrorPersists(fs, paths, i + 1, recursive, decompress);
        return Err(p);
      }
      out := AddArgument(p, fs[p], recursive, decompress, out);
      i := i + 1;
    }
    assert paths[..i] == paths;
    r := Ok(out);
  }

  /** One more argument: it either fails to stat or adds its selection. */
  lemma CollectedStep(fs: FileSystem, paths: seq<string>, i: nat, recursive: bool, decompress: bool)
    requires i < |paths| && Collected(fs, paths[..i], recursive, decompress).Ok?
    ensures Collected(fs, paths[..i + 1], recursive, decompress)
         == if paths[i] !in fs then Err(paths[i])
            else Ok(Collected(fs, paths[..i], recursive, decompress).value
                    + Selected(paths[i], fs[paths[i]], recursive, decompress))
  {
    assert paths[..i + 1][..i] == paths[..i];
  }

  /** One stat'd argument: a directory is skipped or walked, a file checked by the suffix rule. */
  method AddArgument(p: string, n: Node, recursive: bool, decompress: bool, acc: seq<string>)
    returns (out: seq<string>)
    ensures out == acc + Selected(p, n, recursive, decompress)
  {
    out := acc;
    if IsDir(n) {
      if recursive && n.Dir? {
        out := Walk(p, n.entries, decompress, out);
      }
    } else if Keep(BaseName(p), decompress) {
      out := out + [p];
    }
  }

  /** Collection fails exactly when some argument fails to stat. */
  lemma {:induction false} CollectedFailsIffMissing(
    fs: FileSystem, paths: seq<string>, recursive: bool, decompress: bool)
    ensures Collected(fs, paths, recursive, decompress).Err?
        <==> exists i :: 0 <= i < |paths| && paths[i] !in fs
    decreases |paths|
  {
    if paths != [] {
      var init := paths[..|paths| - 1];
      CollectedFailsIffMissing(fs, init, recursive, decompress);
      if exists i :: 0 <= i < |init| && init[i] !in fs {
        var i :| 0 <= i < |init| && init[i] !in fs;
        assert paths[i] !in fs;
      }
      if exists i :: 0 <= i < |paths| && paths[i] !in fs {
        var i :| 0 <= i < |paths| && paths[i] !in fs;
        if i < |init| {
          assert init[i] !in fs;
        }
      }
    }
  }

  /** The error names an argument that failed to stat. */
  lemma {:induction false} CollectedErrorNamesMissing(
    fs: FileSystem, paths: seq<string>, recursive: bool, decompress: bool)
    requires Collected(fs, paths, recursive, decompress).Err?
    ensures Collected(fs, paths, recursive, decompress).error in paths
    ensures Collected(fs, paths, recursive, decompress).error !in fs
    decreases |paths|
  {
    var init := paths[..|paths| - 1];
    if Collected(fs, init, recursive, decompress).Err? {
      CollectedErrorNamesMissing(fs, init, recursive, decompress);
      assert Collected(fs, init, recursive, decompress).error in init;
    }
  }

  /** The arguments a walk-free collection keeps: files passing the suffix rule. */
  predicate KeptFile(fs: FileSystem, decompress: bool, p: string) {
    p in fs && fs[p].File? && Keep(BaseName(p), decompress)
  }

  /**
   * Without `-r`, directories are skipped, and the remaining files that pass
   * the suffix rule are the inputs, in argument order.
   */
  lemma {:induction false} CollectedWithoutRecursion(fs: FileSystem, paths: seq<string>, decompress: bool)
    requires forall i :: 0 <= i < |paths| ==> paths[i] in fs
    ensures Collected(fs, paths, false, decompress)
         == Ok(Seqs.Filter(paths, p => KeptFile(fs, decompress, p)))
    decreases |paths|
  {
    if paths != [] {
      var init := paths[..|paths| - 1];
      var p := paths[|paths| - 1];
      CollectedWithoutRecursion(fs, init, decompress);
      assert init + [p] == paths;
      assert Selected(p, fs[p], false, decompress) == if KeptFile(fs, decompress, p) then [p] else [];
      assert Collected(fs, paths, false, decompress)
          == Ok(Collected(fs, init, false, decompress).value + Selected(p, fs[p], false, decompress));
      Seqs.FilterSnoc(init, p, q => KeptFile(fs, decompress, q));
    }
  }

  /** Every regular file below `dir` that the walk visits, in visiting order. */
  function FilesBelow(dir: string, entries: seq<Entry>): seq<string>
    decreases entries
  {
    if entries == [] then [] else EntryFiles(dir, entries[0]) + FilesBelow(dir, entries[1..])
  }

  function EntryFiles(dir: string, e: Entry): seq<string>
    decreases e
  {
    match e.node
    case File => [Join(dir, e.name)]
    case Dir(children) => FilesBelow(Join(dir, e.name), children)
    case Unreadable => []
  }

  /** The walk's test on a whole path. */
  function KeepPath(decompress: bool): string -> bool {
    x => Keep(x, decompress)
  }

  /**
   * The walk collects exactly the files below `dir` that pass the suffix
   * rule, in visiting order: none is dropped that passes, none kept that fails.
   */
  lemma {:induction false} WalkedIsFilteredFiles(dir: string, entries: seq<Entry>, decompress: bool)
    ensures Walked(dir, entries, decompress) == Seqs.Filter(FilesBelow(dir, entries), KeepPath(decompress))
    decreases entries
  {
    if entries != [] {
      EntryPathsIsFilteredFiles(dir, entries[0], decompress);
      WalkedIsFilteredFiles(dir, entries[1..], decompress);
      Seqs.FilterAppend(EntryFiles(dir, entries[0]), FilesBelow(dir, entries[1..]), KeepPath(decompress));
    }
  }

  lemma {:induction false} EntryPathsIsFilteredFiles(dir: string, e: Entry, decompress: bool)
    ensures EntryPaths(dir, e, decompress) == Seqs.Filter(EntryFiles(dir, e), KeepPath(decompress))
    decreases e
  {
    match e.node {
      case File =>
        JoinSuffix(dir, e.name);
        assert [Join(dir, e.name)][1..] == [];
      case Dir(children) => WalkedIsFilteredFiles(Join(dir, e.name), children, decompress);
      case Unreadable =>
    }
  }

  /** The walk keeps a path exactly by the suffix rule of its entry name. */
  lemma {:induction false} WalkedFollowsSuffixRule(dir: string, entries: seq<Entry>, decompress: bool)
    ensures forall x :: x in Walked(dir, entries, decompress) ==> Keep(x, decompress)
    decreases entries
  {
    if entries != [] {
      var e := entries[0];
      WalkedFollowsSuffixRule(dir, entries[1..], decompress);
      match e.node {
        case File => JoinSuffix(dir, e.name);
        case Dir(children) => WalkedFollowsSuffixRule(Join(dir, e.name), children, decompress);
        case Unreadable =>
      }
    }
  }

  /**
   * Every collected input follows the suffix rule on its whole path: in
   * decompression mode each ends in ".gz", otherwise none does.
   */
  lemma {:induction false} CollectedFollowsSuffixRule(
    fs: FileSystem, paths: seq<string>, recursive: bool, decompress: bool)
    requires WellFormed(fs) && Collected(fs, paths, recursive, decompress).Ok?
    ensures forall x :: x in Collected(fs, paths, recursive, decompress).value ==> Keep(x, decompress)
    decreases |paths|
  {
    if paths != [] {
      var init := paths[..|paths| - 1];
      var p := paths[|paths| - 1];
      CollectedFollowsSuffixRule(fs, init, recursive, decompress);
      match fs[p] {
        case File => BaseNameSuffix(p);
        case Dir(entries) => WalkedFollowsSuffixRule(p, entries, decompress);
        case Unreadable =>
      }
    }
  }

  // ---------------------------------------------------------------------
  // The worker body
  // ---------------------------------------------------------------------

  /** What one worker reports for its input. */
  datatype Outcome =
    | Written(src: string, dest: string)
    | CannotInferName(src: string)
    | DestinationExists(dest: string)
    | Failed(src: string, dest: string)

  /** The compression destination: the source with ".gz" appended. */
  function CompressDest(src: string): string {
    src + GzSuffix
  }

  /** The decompression destination: one ".gz" trimmed; none when trimming changes nothing. */
  function DecompressDest(src: string): Option<string> {
    var dest := TrimSuffix(src, GzSuffix);
    if dest == src then None else Some(dest)
  }

  /** A destination name exists exactly for ".gz" sources, and then it is the source without it. */
  lemma DecompressDestSpec(src: string)
    ensures DecompressDest(src).Some? <==> HasSuffix(src, GzSuffix)
    ensures DecompressDest(src).Some? ==> DecompressDest(src).value + GzSuffix == src
  {
  }

  /** Decompression undoes the naming of compression, and the other way round. */
  lemma DestinationRoundTrip(src: string)
    ensures DecompressDest(CompressDest(src)) == Some(src)
    ensures DecompressDest(src).Some? ==> CompressDest(DecompressDest(src).value) == src
  {
    var dest := CompressDest(src);
    assert dest[..|dest| - |GzSuffix|] == src;
  }

  /**
   * The body of one worker for input `src`.  `present` is the set of paths
   * that stat successfully when the worker checks its destination, `fails`
   * the sources whose compression or decompression returns an error.
   */
  function Work(opts: Options, src: string, present: set<string>, fails: set<string>): Outcome {
    if opts.decompress then
      match DecompressDest(src)
      case None => CannotInferName(src)
      case Some(dest) => Process(opts, src, dest, present, fails)
    else
      Process(opts, src, CompressDest(src), present, fails)
  }

  /** The overwrite check and the file operation, once the destination is known. */
  function Process(opts: Options, src: string, dest: string, present: set<string>, fails: set<string>): Outcome {
    if !opts.force && dest in present then DestinationExists(dest)
    else if src in fails then Failed(src, dest)
    else Written(src, dest)
  }

  /**
   * Destination names: compression appends ".gz"; decompression removes one
   * ".gz" and refuses a source without one; an existing destination stops
   * the worker unless `-f` is given; only then is the file processed.
   */
  lemma WorkSpec(opts: Options, src: string, present: set<string>, fails: set<string>)
    ensures var o := Work(opts, src, present, fails);
      && (o.CannotInferName? <==> opts.decompress && !HasSuffix(src, GzSuffix))
      && (!opts.decompress && o.Written? ==> o.dest == src + GzSuffix)
      && (opts.decompress && o.Written? ==> o.dest + GzSuffix == src)
      && (o.DestinationExists? ==> !opts.force && o.dest in present)
      && (o.Written? <==> !o.CannotInferName? && (opts.force || o.dest !in present) && src !in fails)
  {
    DecompressDestSpec(src);
  }

  /**
   * In decompression mode a collected input always yields a destination name:
   * the worker's "cannot infer" report is never reached.
   */
  lemma CollectedInputsHaveDestinations(
    fs: FileSystem, opts: Options, paths: seq<string>, present: set<string>, fails: set<string>)
    requires opts.decompress && WellFormed(fs)
    requires Collected(fs, paths, opts.recursive, true).Ok?
    ensures forall x :: x in Collected(fs, paths, opts.recursive, true).value ==>
      !Work(opts, x, present, fails).CannotInferName?
  {
    CollectedFollowsSuffixRule(fs, paths, opts.recursive, true);
    var inputs := Collected(fs, paths, opts.recursive, true).value;
    forall x | x in inputs ensures !Work(opts, x, present, fails).CannotInferName? {
      assert Keep(x, true);
      GzSourceHasDestination(opts, x, present, fails);
    }
  }

  lemma GzSourceHasDestination(opts: Options, src: string, present: set<string>, fails: set<string>)
    requires opts.decompress && HasSuffix(src, GzSuffix)
    ensures !Work(opts, src, present, fails).CannotInferName?
  {
    DecompressDestSpec(src);
  }

  // ---------------------------------------------------------------------
  // main
  // ---------------------------------------------------------------------

  /** The size of the worker pool: a count below one becomes one. */
  function PoolSize(workers: int): (r: int)
    ensures r >= 1
    ensures workers >= 1 ==> r == workers
  {
    if workers < 1 then 1 else workers
  }

  /** Some worker reported an error. */
  predicate AnyFailed(outcomes: seq<Outcome>) {
    exists i :: 0 <= i < |outcomes| && !outcomes[i].Written?
  }

  /**
   * The exit code of a run.  `fails` also holds `"-"` when streaming standard
   * input fails, and a path when writing that file to standard output fails.
   */
  function ExitCode(opts: Options, args: seq<string>, fs: FileSystem, present: set<string>, fails: set<string>)
    : int
  {
    var stdout := opts.stdout || args == [];
    var args := if args == [] then [StdinArg] else args;
    if stdout && |args| != 1 then 2
    else if |args| == 1 && args[0] == StdinArg then (if StdinArg in fails then 1 else 0)
    else if stdout then
      var path := args[0];
      if opts.decompress != HasSuffix(path, GzSuffix) then 2
      else if path in fails then 1
      else 0
    else BatchExitCode(opts, args, fs, present, fails)
  }

  /** The exit code once the arguments name files to process in place. */
  function BatchExitCode(opts: Options, args: seq<string>, fs: FileSystem, present: set<string>, fails: set<string>)
    : int
  {
    match Collected(fs, args, opts.recursive, opts.decompress)
    case Err(_) => 1
    case Ok(inputs) => if AnyFailed(Outcomes(opts, inputs, present, fails)) then 1 else 0
  }

  /** The report of each worker, in input order. */
  function Outcomes(opts: Options, inputs: seq<string>, present: set<string>, fails: set<string>)
    : seq<Outcome>
  {
    seq(|inputs|, i requires 0 <= i < |inputs| => Work(opts, inputs[i], present, fails))
  }

  /** The final loop over the reported errors. */
  method HadError(outcomes: seq<Outcome>) returns (hadErr: bool)
    ensures hadErr <==> AnyFailed(outcomes)
  {
    hadErr := false;
    var i := 0;
    while i < |outcomes|
      invariant 0 <= i <= |outcomes|
      invariant hadErr <==> exists j :: 0 <= j < i && !outcomes[j].Written?
    {
      if !outcomes[i].Written? {
        hadErr := true;
      }
      i := i + 1;
    }
  }

  /** `main` after flag parsing: the branch taken, the workers' reports and the exit code. */
  method Run(opts: Options, args: seq<string>, fs: FileSystem, present: set<string>, fails: set<string>)
    returns (exit: int)
    ensures exit == ExitCode(opts, args, fs, present, fails)
  {
    var stdout := opts.stdout;
    var args := args;
    if |args| == 0 {
      stdout := true;
      args := [StdinArg];
    }
    if stdout && |args| != 1 {
      return 2;
    }
    if |args| == 1 && args[0] == StdinArg {
      return if StdinArg in fails then 1 else 0;
    }
    if stdout {
      var path := args[0];
      if opts.decompress && !HasSuffix(path, GzSuffix) {
        return 2;
      }
      if !opts.decompress && HasSuffix(path, GzSuffix) {
        return 2;
      }
      return if path in fails then 1 else 0;
    }
    exit := RunBatch(opts, args, fs, present, fails);
  }

  /** Collection, one worker per input, and the error loop. */
  method RunBatch(opts: Options, args: seq<string>, fs: FileSystem, present: set<string>, fails: set<string>)
    returns (exit: int)
    ensures exit == BatchExitCode(opts, args, fs, present, fails)
  {
    var collected := CollectInputs(fs, args, opts.recursive, opts.decompress);
    if collected.Err? {
      return 1;
    }
    var inputs := collected.value;
    var workers := PoolSize(opts.workers);
    var outcomes: seq<Outcome> := [];
    var i := 0;
    while i < |inputs|
      invariant 0 <= i <= |inputs|
      invariant |outcomes| == i
      invariant forall j :: 0 <= j < i ==> outcomes[j] == Work(opts, inputs[j], present, fails)
    {
      outcomes := outcomes + [Work(opts, inputs[i], present, fails)];
      i := i + 1;
    }
    assert outcomes == Outcomes(opts, inputs, present, fails);
    var hadErr := HadError(outcomes);
    exit := if hadErr then 1 else 0;
  }

  /** With no arguments the tool streams standard input to standard output. */
  lemma NoArgumentsStreams(opts: Options, fs: FileSystem, present: set<string>, fails: set<string>)
    ensures ExitCode(opts, [], fs, present, fails) == if StdinArg in fails then 1 else 0
  {
  }

  /** `-stdout` with more than one input is a usage error. */
  lemma StdoutTakesOneInput(opts: Options, args: seq<string>, fs: FileSystem, present: set<string>, fails: set<string>)
    requires opts.stdout && |args| > 1
    ensures ExitCode(opts, args, fs, present, fails) == 2
  {
  }

  /**
   * Outside the streaming and standard-output branches, the run exits with 1
   * exactly when collection fails or some worker reports an error, and with
   * 0 otherwise.
   */
  lemma BatchExitRule(opts: Options, args: seq<string>, fs: FileSystem, present: set<string>, fails: set<string>)
    requires !opts.stdout && args != [] && args != [StdinArg]
    ensures var code := ExitCode(opts, args, fs, present, fails);
      && (code == 0 || code == 1)
      && (code == 1 <==>
            Collected(fs, args, opts.recursive, opts.decompress).Err?
            || (exists i :: 0 <= i < |Collected(fs, args, opts.recursive, opts.decompress).value|
                 && !Work(opts, Collected(fs, args, opts.recursive, opts.decompress).value[i], present, fails).Written?))
  {
    var c := Collected(fs, args, opts.recursive, opts.decompress);
    assert |args| == 1 ==> args[0] != StdinArg by {
      if |args| == 1 { assert args == [args[0]]; }
    }
    if c.Ok? {
      var inputs := c.value;
      var outcomes := Outcomes(opts, inputs, present, fails);
      if AnyFailed(outcomes) {
        var i :| 0 <= i < |outcomes| && !outcomes[i].Written?;
        assert !Work(opts, inputs[i], present, fails).Written?;
      }
      if exists i :: 0 <= i < |inputs| && !Work(opts, inputs[i], present, fails).Written? {
        var i :| 0 <= i < |inputs| && !Work(opts, inputs[i], present, fails).Written?;
        assert !outcomes[i].Written?;
      }
    }
  }

  /** Every run ends with 0, 1 or 2. */
  lemma ExitCodeRange(opts: Options, args: seq<string>, fs: FileSystem, present: set<string>, fails: set<string>)
    ensures ExitCode(opts, args, fs, present, fails) in {0, 1, 2}
  {
  }
}
