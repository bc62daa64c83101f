/**
 * The CRLF-to-LF converter: the byte transform, the `has_crlf` decision,
 * the argument loop of `main` and the exit-code rules.  Reading and writing
 * files and the standard streams are inputs and outputs of the model.
 */
module Dos2Unix {
  import opened Text
  import opened Wrappers

  const CR: byte := 13
  const LF: byte := 10

  // ---------------------------------------------------------------------
  // The conversion
  // ---------------------------------------------------------------------

  /** A CR at `i` immediately followed by an LF. */
  predicate CrlfAt(s: seq<byte>, i: int) {
    0 <= i && i + 1 < |s| && s[i] == CR && s[i + 1] == LF
  }

  predicate HasCrlf(s: seq<byte>) {
    exists i :: 0 <= i < |s| && CrlfAt(s, i)
  }

  /** The left-to-right scan: a CR LF pair becomes one LF, every other byte is copied. */
  function Converted(s: seq<byte>): seq<byte> {
    if s == [] then []
    else if CrlfAt(s, 0) then [LF] + Converted(s[2..])
    else [s[0]] + Converted(s[1..])
  }

  /** `convert_crlf_to_lf`: the index loop that pushes into `out`. */
  method ConvertCrlfToLf(input: seq<byte>) returns (out: seq<byte>)
    ensures out == Converted(input)
  {
    out := [];
    var i := 0;
    while i < |input|
      invariant 0 <= i <= |input|
      invariant out + Converted(input[i..]) == Converted(input)
    {
      assert CrlfAt(input[i..], 0) <==> input[i] == CR && i + 1 < |input| && input[i + 1] == LF;
      if input[i] == CR && i + 1 < |input| && input[i + 1] == LF {
        assert input[i..][2..] == input[i + 2..];
        out := out + [LF];
        i := i + 2;
      } else {
        assert input[i..][1..] == input[i + 1..];
        out := out + [input[i]];
        i := i + 1;
      }
    }
  }

  /** Independent reference: delete exactly the CRs that stand right before an LF. */
  function DropCrBeforeLf(s: seq<byte>): seq<byte> {
    if s == [] then [] else (if CrlfAt(s, 0) then [] else [s[0]]) + DropCrBeforeLf(s[1..])
  }

  /** Number of positions holding a CR LF pair. */
  function CrlfCount(s: seq<byte>): nat {
    if s == [] then 0 else (if CrlfAt(s, 0) then 1 else 0) + CrlfCount(s[1..])
  }

  /** The scan agrees with the reference: no pair is missed, no lone byte is touched. */
  lemma {:induction false} ConvertedDropsCrBeforeLf(s: seq<byte>)
    ensures Converted(s) == DropCrBeforeLf(s)
  {
    if s != [] {
      if CrlfAt(s, 0) {
        ConvertedDropsCrBeforeLf(s[2..]);
        assert !CrlfAt(s[1..], 0);
        assert s[1..][1..] == s[2..];
      } else {
        ConvertedDropsCrBeforeLf(s[1..]);
      }
    }
  }

  lemma {:induction false} DropLength(s: seq<byte>)
    ensures |DropCrBeforeLf(s)| == |s| - CrlfCount(s)
  {
    if s != [] { DropLength(s[1..]); }
  }

  lemma {:induction false} CountPositive(s: seq<byte>)
    ensures CrlfCount(s) > 0 <==> HasCrlf(s)
  {
    if s != [] {
      CountPositive(s[1..]);
      if HasCrlf(s) {
        var i :| 0 <= i < |s| && CrlfAt(s, i);
        if i > 0 { assert CrlfAt(s[1..], i - 1); }
      }
      if HasCrlf(s[1..]) {
        var i :| 0 <= i < |s[1..]| && CrlfAt(s[1..], i);
        assert s[1..][i] == s[i + 1] && s[1..][i + 1] == s[i + 2];
        assert CrlfAt(s, i + 1);
      }
    }
  }

  /** Output length is input length minus the pairs replaced; never longer. */
  lemma ConvertedLength(s: seq<byte>)
    ensures |Converted(s)| == |s| - CrlfCount(s)
    ensures |Converted(s)| <= |s|
  {
    ConvertedDropsCrBeforeLf(s);
    DropLength(s);
  }

  /** `has_crlf` (`converted != input`) holds exactly when some CR LF pair exists. */
  lemma ChangedIffHasCrlf(s: seq<byte>)
    ensures Converted(s) != s <==> HasCrlf(s)
    ensures !HasCrlf(s) ==> Converted(s) == s
  {
    ConvertedLength(s);
    CountPositive(s);
    if !HasCrlf(s) { NoPairUnchanged(s); }
  }

  lemma {:induction false} NoPairUnchanged(s: seq<byte>)
    requires !HasCrlf(s)
    ensures Converted(s) == s
  {
    if s != [] {
      assert !CrlfAt(s, 0);
      forall i | 0 <= i < |s[1..]| ensures !CrlfAt(s[1..], i) {
        assert !CrlfAt(s, i + 1);
        assert i + 1 < |s[1..]| ==> s[1..][i] == s[i + 1] && s[1..][i + 1] == s[i + 2];
      }
      NoPairUnchanged(s[1..]);
    }
  }

  /** The unit tests of the source, as facts about the model. */
  lemma SourceUnitTests()
    ensures Converted([]) == []
    ensures Converted([97, 10, 98, 10]) == [97, 10, 98, 10]                  // "a\nb\n"
    ensures Converted([97, 13, 10, 98, 13, 10]) == [97, 10, 98, 10]          // "a\r\nb\r\n"
    ensures Converted([97, 10, 13, 10, 98, 13, 10]) == [97, 10, 10, 98, 10]  // "a\n\r\nb\r\n"
    ensures Converted([97, 13, 10]) == [97, 10]                              // "a\r\n"
  {
    var s: seq<byte> := [97, 13, 10, 98, 13, 10];
    assert CrlfAt(s, 1) && CrlfAt(s[3..], 1);
    var m: seq<byte> := [97, 10, 13, 10, 98, 13, 10];
    assert CrlfAt(m[2..], 0) && CrlfAt(m[5..], 0);
    var t: seq<byte> := [97, 13, 10];
    assert CrlfAt(t[1..], 0);
  }

  /** The conversion is not idempotent: "\r\r\n" becomes "\r\n", which still holds a pair. */
  lemma NotIdempotent()
    ensures Converted([13, 13, 10]) == [13, 10]
    ensures Converted(Converted([13, 13, 10])) == [10]
  {
    var s: seq<byte> := [13, 13, 10];
    assert !CrlfAt(s, 0) && CrlfAt(s[1..], 0);
    var t: seq<byte> := [13, 10];
    assert CrlfAt(t, 0);
  }

  // ---------------------------------------------------------------------
  // Processing one input
  // ---------------------------------------------------------------------

  /** What reading one named input gives: an I/O error, or its bytes and whether a write would succeed. */
  datatype Input = ReadFailed | Contents(data: seq<byte>, writeSucceeds: bool)

  /** The result of processing one input, and the bytes written for it (to the file or to stdout). */
  datatype Outcome = Failed | Done(hasCrlf: bool, written: Option<seq<byte>>)

  /** `process_file`: check mode reports only; otherwise the file is rewritten when it holds CRLF. */
  function ProcessFile(input: Input, checkOnly: bool): (o: Outcome)
    ensures input.ReadFailed? ==> o.Failed?
    ensures o.Done? ==> o.hasCrlf == HasCrlf(input.data)
    ensures o.Done? && o.written.Some? ==> !checkOnly && HasCrlf(input.data) && o.written.value == Converted(input.data)
    ensures input.Contents? && !checkOnly && HasCrlf(input.data) && input.writeSucceeds ==> o == Done(true, Some(Converted(input.data)))
    ensures o.Failed? <==> input.ReadFailed? || (!checkOnly && HasCrlf(input.data) && !input.writeSucceeds)
  {
    match input
    case ReadFailed => Failed
    case Contents(data, writeSucceeds) =>
      var converted := Converted(data);
      ChangedIffHasCrlf(data);
      var hasCrlf := converted != data;
      if checkOnly then Done(hasCrlf, None)
      else if hasCrlf then (if writeSucceeds then Done(true, Some(converted)) else Failed)
      else Done(false, None)
  }

  /** `process_stdin_stdout`: outside check mode the converted bytes always go to stdout. */
  function ProcessStdin(input: Input, checkOnly: bool): (o: Outcome)
    ensures input.ReadFailed? ==> o.Failed?
    ensures o.Done? ==> o.hasCrlf == HasCrlf(input.data)
    ensures checkOnly && o.Done? ==> o.written.None?
    ensures !checkOnly && o.Done? ==> o.written == Some(Converted(input.data))
    ensures o.Failed? <==> input.ReadFailed? || (!checkOnly && !input.writeSucceeds)
  {
    match input
    case ReadFailed => Failed
    case Contents(data, writeSucceeds) =>
      var converted := Converted(data);
      ChangedIffHasCrlf(data);
      var hasCrlf := converted != data;
      if checkOnly then Done(hasCrlf, None)
      else if writeSucceeds then Done(hasCrlf, Some(converted))
      else Failed
  }

  /** The line `process_file` prints after rewriting a file. */
  function ConvertedLine(name: string): string { "转换: " + name }

  /** The line `process_file` prints for a file without CRLF. */
  function UnchangedLine(name: string): string { "未改变: " + name }

  /** What `main` runs for one input named `name`: stdin for "-", the file otherwise. */
  function OutcomeFor(name: string, input: Input, checkOnly: bool): Outcome {
    if name == "-" then ProcessStdin(input, checkOnly) else ProcessFile(input, checkOnly)
  }

  /**
   * The lines printed on stdout for an input named `name` ("-" is stdin) with
   * outcome `o`: in check mode the name of an input holding CRLF; otherwise,
   * for a file, whether it was converted or left unchanged. Quiet mode prints
   * none, and neither does an input that failed.
   */
  function Reported(name: string, o: Outcome, quiet: bool, checkOnly: bool): seq<string> {
    if quiet || o.Failed? then []
    else if checkOnly then (if o.hasCrlf then [name] else [])
    else if name == "-" then []
    else if o.hasCrlf then [ConvertedLine(name)]
    else [UnchangedLine(name)]
  }

  /**
   * At most one line per input: none when quiet or unreadable;
   * in check mode exactly the input's name when it holds CRLF;
   * otherwise nothing for stdin and, for an input file, the converted or
   * unchanged line.
   */
  lemma ReportedSpec(name: string, input: Input, quiet: bool, checkOnly: bool)
    ensures var r := Reported(name, OutcomeFor(name, input, checkOnly), quiet, checkOnly);
      && |r| <= 1
      && (quiet || input.ReadFailed? ==> r == [])
      && (checkOnly ==> (r == [name] <==> !quiet && input.Contents? && HasCrlf(input.data)))
      && (checkOnly && r != [] ==> r == [name])
      && (!checkOnly && name == "-" ==> r == [])
      && (!checkOnly && name != "-" && !quiet && input.Contents? ==>
            r == (if !HasCrlf(input.data) then [UnchangedLine(name)]
                  else if input.writeSucceeds then [ConvertedLine(name)] else []))
  {
  }

  // ---------------------------------------------------------------------
  // Arguments
  // ---------------------------------------------------------------------

  datatype Parsed =
    | ShowHelp
    | ShowVersion
    | UnknownOption(arg: string)
    | Run(files: seq<string>, quiet: bool, checkOnly: bool)

  predicate IsOptionLike(arg: string) {
    arg != "-" && arg != [] && arg[0] == '-'
  }

  /** The argument loop from a given point, with what it has gathered so far. */
  function ParseFrom(args: seq<string>, files: seq<string>, quiet: bool, checkOnly: bool): Parsed {
    if args == [] then Run(files, quiet, checkOnly)
    else
      var arg := args[0];
      if arg == "-h" || arg == "--help" then ShowHelp
      else if arg == "-v" || arg == "--version" || arg == "-V" then ShowVersion
      else if arg == "-q" || arg == "--quiet" then ParseFrom(args[1..], files, true, checkOnly)
      else if arg == "-c" || arg == "--check" then ParseFrom(args[1..], files, quiet, true)
      else if arg == "--" then Run(files + args[1..], quiet, checkOnly)
      else if IsOptionLike(arg) then UnknownOption(arg)
      else ParseFrom(args[1..], files + [arg], quiet, checkOnly)
  }

  function Parse(args: seq<string>): Parsed {
    ParseFrom(args, [], false, false)
  }

  /** The `while let Some(arg) = args.next()` loop of `main`. */
  method ParseArgs(args: seq<string>) returns (p: Parsed)
    ensures p == Parse(args)
  {
    var files: seq<string> := [];
    var quiet, checkOnly := false, false;
    var i := 0;
    while i < |args|
      invariant 0 <= i <= |args|
      invariant ParseFrom(args[i..], files, quiet, checkOnly) == Parse(args)
    {
      var arg := args[i];
      assert args[i..][1..] == args[i + 1..];
      if arg == "-h" || arg == "--help" {
        return ShowHelp;
      } else if arg == "-v" || arg == "--version" || arg == "-V" {
        return ShowVersion;
      } else if arg == "-q" || arg == "--quiet" {
        quiet := true;
      } else if arg == "-c" || arg == "--check" {
        checkOnly := true;
      } else if arg == "--" {
        files := files + args[i + 1..];
        return Run(files, quiet, checkOnly);
      } else if arg == "-" {
        files := files + [arg];
      } else if arg != [] && arg[0] == '-' {
        return UnknownOption(arg);
      } else {
        files := files + [arg];
      }
      i := i + 1;
    }
    p := Run(files, quiet, checkOnly);
  }

  /** Without options every argument is a file, in order. */
  lemma {:induction false} PlainArgumentsAreFiles(args: seq<string>, files: seq<string>, quiet: bool, checkOnly: bool)
    requires forall k :: 0 <= k < |args| ==> args[k] != [] && (args[k] == "-" || args[k][0] != '-')
    ensures ParseFrom(args, files, quiet, checkOnly) == Run(files + args, quiet, checkOnly)
  {
    if args != [] {
      assert args[0][0] != '-' || args[0] == "-";
      PlainArgumentsAreFiles(args[1..], files + [args[0]], quiet, checkOnly);
      assert files + [args[0]] + args[1..] == files + args;
    }
  }

  /** Help / version stop the loop at once; "--" makes every later argument a file. */
  lemma StopsAndSeparator(rest: seq<string>, files: seq<string>, quiet: bool, checkOnly: bool)
    ensures ParseFrom(["-h"] + rest, files, quiet, checkOnly) == ShowHelp
    ensures ParseFrom(["--version"] + rest, files, quiet, checkOnly) == ShowVersion
    ensures ParseFrom(["--"] + rest, files, quiet, checkOnly) == Run(files + rest, quiet, checkOnly)
  {
    assert (["--"] + rest)[1..] == rest;
  }

  /** Exit code of the whole program, given what parsing and processing found. */
  function ExitCode(hadError: bool, checkOnly: bool, foundCrlf: bool): (code: int)
    ensures code == 1 <==> hadError
    ensures code == 2 <==> !hadError && checkOnly && foundCrlf
    ensures code == 0 <==> !hadError && !(checkOnly && foundCrlf)
  {
    if hadError then 1 else if checkOnly && foundCrlf then 2 else 0
  }

  /** The outcome for the `k`-th file of the list; `read(k)` is what reading it yields. */
  function OutcomeOf(files: seq<string>, k: nat, checkOnly: bool, read: nat -> Input): Outcome
    requires k < |files|
  {
    OutcomeFor(files[k], read(k), checkOnly)
  }

  /** The stdout lines of the first `n` inputs, in order. */
  function ReportUpTo(files: seq<string>, n: nat, quiet: bool, checkOnly: bool, read: nat -> Input): seq<string>
    requires n <= |files|
  {
    if n == 0 then []
    else ReportUpTo(files, n - 1, quiet, checkOnly, read) + Reported(files[n - 1], OutcomeOf(files, n - 1, checkOnly, read), quiet, checkOnly)
  }

  /** The names of the first `n` inputs whose contents hold CRLF, in order. */
  function CrlfNames(files: seq<string>, n: nat, read: nat -> Input): seq<string>
    requires n <= |files|
  {
    if n == 0 then []
    else CrlfNames(files, n - 1, read) + (if read(n - 1).Contents? && HasCrlf(read(n - 1).data) then [files[n - 1]] else [])
  }

  /** Quiet mode prints no per-input line. */
  lemma {:induction false} QuietReportsNothing(files: seq<string>, n: nat, checkOnly: bool, read: nat -> Input)
    requires n <= |files|
    ensures ReportUpTo(files, n, true, checkOnly, read) == []
  {
    if n > 0 { QuietReportsNothing(files, n - 1, checkOnly, read); }
  }

  /** Check mode without `-q` lists exactly the inputs that hold CRLF, in order ("-" for stdin). */
  lemma {:induction false} CheckReportListsCrlfInputs(files: seq<string>, n: nat, read: nat -> Input)
    requires n <= |files|
    ensures ReportUpTo(files, n, false, true, read) == CrlfNames(files, n, read)
  {
    if n > 0 {
      CheckReportListsCrlfInputs(files, n - 1, read);
      var o := OutcomeOf(files, n - 1, true, read);
      var inp := read(n - 1);
      assert o.Done? && o.hasCrlf <==> inp.Contents? && HasCrlf(inp.data);
    }
  }

  /** What the loop of `main` has accumulated: `had_error`, `found_crlf`, the writes and the printed lines. */
  datatype Tally = Tally(hadError: bool, foundCrlf: bool, writes: seq<(nat, seq<byte>)>, report: seq<string>)

  /** The accumulated state after the first `n` inputs. */
  function TallyUpTo(files: seq<string>, n: nat, quiet: bool, checkOnly: bool, read: nat -> Input): Tally
    requires n <= |files|
  {
    if n == 0 then Tally(false, false, [], [])
    else
      var t := TallyUpTo(files, n - 1, quiet, checkOnly, read);
      var o := OutcomeOf(files, n - 1, checkOnly, read);
      var lines := Reported(files[n - 1], o, quiet, checkOnly);
      match o
      case Failed => t.(hadError := true, report := t.report + lines)
      case Done(hasCrlf, written) =>
        t.(foundCrlf := t.foundCrlf || hasCrlf,
           writes := if written.Some? then t.writes + [(n - 1, written.value)] else t.writes,
           report := t.report + lines)
  }

  /** After `n` inputs: an error iff some input failed, CRLF found iff some input held it. */
  lemma {:induction false} TallyFlags(files: seq<string>, n: nat, quiet: bool, checkOnly: bool, read: nat -> Input)
    requires n <= |files|
    ensures var t := TallyUpTo(files, n, quiet, checkOnly, read);
      && (t.hadError <==> exists k :: 0 <= k < n && OutcomeOf(files, k, checkOnly, read).Failed?)
      && (t.foundCrlf <==> exists k :: 0 <= k < n && OutcomeOf(files, k, checkOnly, read).Done?
                                                 && OutcomeOf(files, k, checkOnly, read).hasCrlf)
  {
    if n > 0 {
      TallyFlags(files, n - 1, quiet, checkOnly, read);
    }
  }

  /** Each write is what an input's outcome wrote; check mode writes nothing. */
  lemma {:induction false} TallyWrites(files: seq<string>, n: nat, quiet: bool, checkOnly: bool, read: nat -> Input)
    requires n <= |files|
    ensures var t := TallyUpTo(files, n, quiet, checkOnly, read);
      && (forall w :: w in t.writes ==>
            w.0 < n && OutcomeOf(files, w.0, checkOnly, read).Done?
            && OutcomeOf(files, w.0, checkOnly, read).written == Some(w.1))
      && (checkOnly ==> t.writes == [])
  {
    if n > 0 {
      TallyWrites(files, n - 1, quiet, checkOnly, read);
      var o := OutcomeOf(files, n - 1, checkOnly, read);
      if o.Done? && checkOnly {
        assert o.written.None?;
      }
    }
  }

  /** The printed lines are the report of the first `n` inputs. */
  lemma {:induction false} TallyReport(files: seq<string>, n: nat, quiet: bool, checkOnly: bool, read: nat -> Input)
    requires n <= |files|
    ensures TallyUpTo(files, n, quiet, checkOnly, read).report == ReportUpTo(files, n, quiet, checkOnly, read)
  {
    if n > 0 {
      TallyReport(files, n - 1, quiet, checkOnly, read);
    }
  }

  /** What the tally over all inputs says about them. */
  lemma TallyMeaning(files: seq<string>, quiet: bool, checkOnly: bool, read: nat -> Input, t: Tally)
    requires t == TallyUpTo(files, |files|, quiet, checkOnly, read)
    ensures t.hadError <==> exists k :: 0 <= k < |files| && OutcomeOf(files, k, checkOnly, read).Failed?
    ensures t.foundCrlf <==> exists k :: 0 <= k < |files| && OutcomeOf(files, k, checkOnly, read).Done?
                                                      && OutcomeOf(files, k, checkOnly, read).hasCrlf
    ensures forall w :: w in t.writes ==>
              w.0 < |files| && OutcomeOf(files, w.0, checkOnly, read).Done?
              && OutcomeOf(files, w.0, checkOnly, read).written == Some(w.1)
    ensures checkOnly ==> t.writes == []
    ensures t.report == ReportUpTo(files, |files|, quiet, checkOnly, read)
  {
    TallyFlags(files, |files|, quiet, checkOnly, read);
    TallyWrites(files, |files|, quiet, checkOnly, read);
    TallyReport(files, |files|, quiet, checkOnly, read);
  }

  /** The `for f in files` loop of `main`, accumulating `had_error` and `found_crlf`. */
  method ProcessAll(files: seq<string>, quiet: bool, checkOnly: bool, read: nat -> Input)
    returns (hadError: bool, foundCrlf: bool, writes: seq<(nat, seq<byte>)>, report: seq<string>)
    ensures hadError <==> exists k :: 0 <= k < |files| && OutcomeOf(files, k, checkOnly, read).Failed?
    ensures foundCrlf <==> exists k :: 0 <= k < |files| && OutcomeOf(files, k, checkOnly, read).Done?
                                                    && OutcomeOf(files, k, checkOnly, read).hasCrlf
    ensures forall w :: w in writes ==>
              w.0 < |files| && OutcomeOf(files, w.0, checkOnly, read).Done?
              && OutcomeOf(files, w.0, checkOnly, read).written == Some(w.1)
    ensures checkOnly ==> writes == []
    ensures report == ReportUpTo(files, |files|, quiet, checkOnly, read)
  {
    hadError, foundCrlf, writes, report := false, false, [], [];
    var k := 0;
    while k < |files|
      invariant 0 <= k <= |files|
      invariant Tally(hadError, foundCrlf, writes, report) == TallyUpTo(files, k, quiet, checkOnly, read)
    {
      var o := OutcomeFor(files[k], read(k), checkOnly);
      var lines := Reported(files[k], o, quiet, checkOnly);
      if o.Failed? {
        hadError := true;
      } else {
        if o.hasCrlf { foundCrlf := true; }
        if o.written.Some? { writes := writes + [(k, o.written.value)]; }
      }
      report := report + lines;
      k := k + 1;
    }
    TallyMeaning(files, quiet, checkOnly, read, Tally(hadError, foundCrlf, writes, report));
  }

  /** `main` after argument parsing: the exit code of a run over the given inputs. */
  method MainExitCode(args: seq<string>, read: nat -> Input) returns (code: int, report: seq<string>)
    ensures Parse(args).ShowHelp? || Parse(args).ShowVersion? ==> code == 0
    ensures Parse(args).UnknownOption? ==> code == 2
    ensures Parse(args).Run? && Parse(args).files == [] ==>
              code == (match ProcessStdin(read(0), Parse(args).checkOnly)
                       case Failed => 1
                       case Done(h, _) => if h && Parse(args).checkOnly then 2 else 0)
    ensures Parse(args).Run? && Parse(args).files != [] ==>
              var p := Parse(args);
              code == ExitCode(exists k :: 0 <= k < |p.files| && OutcomeOf(p.files, k, p.checkOnly, read).Failed?,
                               p.checkOnly,
                               exists k :: 0 <= k < |p.files| && OutcomeOf(p.files, k, p.checkOnly, read).Done?
                                                           && OutcomeOf(p.files, k, p.checkOnly, read).hasCrlf)
    ensures !Parse(args).Run? ==> report == []
    ensures Parse(args).Run? && Parse(args).files == [] ==>
              report == Reported("-", ProcessStdin(read(0), Parse(args).checkOnly), Parse(args).quiet, Parse(args).checkOnly)
    ensures Parse(args).Run? && Parse(args).files != [] ==>
              report == ReportUpTo(Parse(args).files, |Parse(args).files|, Parse(args).quiet, Parse(args).checkOnly, read)
  {
    report := [];
    var p := ParseArgs(args);
    match p
    case ShowHelp => code := 0;
    case ShowVersion => code := 0;
    case UnknownOption(_) => code := 2;
    case Run(files, quiet, checkOnly) =>
      if files == [] {
        report := Reported("-", ProcessStdin(read(0), checkOnly), quiet, checkOnly);
        match ProcessStdin(read(0), checkOnly)
        case Failed => code := 1;
        case Done(hasCrlf, _) => code := if hasCrlf && checkOnly then 2 else 0;
      } else {
        var hadError, foundCrlf, _, lines := ProcessAll(files, quiet, checkOnly, read);
        report := lines;
        code := ExitCode(hadError, checkOnly, foundCrlf);
      }
  }
}
