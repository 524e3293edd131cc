/**
 * The LLVM build-pipeline driver (llvm-ir/make.py).
 *
 * Paths are (directory, stem, suffix) values, the file system is a set of
 * existing paths, and every external tool invocation is appended to a
 * command log.  The exit status of the n-th invocation is given by an
 * oracle fixed when the host is created, and the host operating system is
 * reduced to a flag saying whether it is Darwin.
 */
module LlvmMake {
  import opened Wrappers

  /**
   * The suffix pathlib reports for a file name: the four the script checks for,
   * none at all, or any other.
   */
  datatype Suffix = NoSuffix | Ll | Bc | S | O | OtherSuffix(text: string)

  /** The text of a suffix, dot included. */
  function SuffixText(x: Suffix): string
  {
    match x
    case NoSuffix => ""
    case Ll => ".ll"
    case Bc => ".bc"
    case S => ".s"
    case O => ".o"
    case OtherSuffix(text) => text
  }

  /** A file name inside a directory, split as pathlib does into stem and suffix. */
  datatype FileName = FileName(stem: string, suffix: Suffix)

  /** A path `dir/stem+suffix`. */
  datatype Path = Path(dir: string, stem: string, suffix: Suffix)

  /** `dir / name` */
  function Join(dir: string, name: FileName): (p: Path)
    ensures p.dir == dir && p.stem == name.stem && p.suffix == name.suffix
  {
    Path(dir, name.stem, name.suffix)
  }

  /** `path.with_suffix(s)`: same directory and stem, new suffix. */
  function WithSuffix(p: Path, s: Suffix): (q: Path)
    ensures q.dir == p.dir && q.stem == p.stem && q.suffix == s
  {
    p.(suffix := s)
  }

  /** The program a command runs. */
  datatype Program = LlvmAs | LlvmLink | Llc | GnuAs | Ld | Lli | Native(exe: Path)

  /** One command-line argument: a path or a plain word. */
  datatype Arg = File(path: Path) | Word(text: string)

  datatype Command = Command(program: Program, args: seq<Arg>)

  /** What a step function does when it returns: normally, or by raising. */
  datatype Exception = AssertionError | CalledProcessError(returncode: int)
  datatype Outcome = Done | Raised(exception: Exception)

  function Files(ps: seq<Path>): (r: seq<Arg>)
    ensures |r| == |ps| && forall i :: 0 <= i < |ps| ==> r[i] == File(ps[i])
  {
    if ps == [] then [] else [File(ps[0])] + Files(ps[1..])
  }

  function Words(ws: seq<string>): (r: seq<Arg>)
    ensures |r| == |ws| && forall i :: 0 <= i < |ws| ==> r[i] == Word(ws[i])
  {
    if ws == [] then [] else [Word(ws[0])] + Words(ws[1..])
  }

  // The command lines built by the seven step functions.

  function LlvmAsCommand(bitcode: Path, source: Path): Command
  {
    Command(LlvmAs, [File(source), Word("-o"), File(bitcode)])
  }

  function LlvmLinkCommand(linked: Path, bitcodes: seq<Path>): Command
  {
    Command(LlvmLink, Files(bitcodes) + [Word("-o"), File(linked)])
  }

  function LlcCommand(asm: Path, ir: Path): Command
  {
    Command(Llc, [File(ir), Word("-o"), File(asm)])
  }

  function GnuAsCommand(obj: Path, asm: Path): Command
  {
    Command(GnuAs, [File(asm), Word("-o"), File(obj)])
  }

  function LdCommand(exe: Path, objs: seq<Path>, isDarwin: bool): Command
  {
    Command(Ld, Files(objs) + [Word("-o"), File(exe)] + (if isDarwin then [Word("-lSystem")] else []))
  }

  function LliCommand(bitcode: Path, args: seq<string>): Command
  {
    Command(Lli, [File(bitcode)] + Words(args))
  }

  function ExecuteCommand(exe: Path, args: seq<string>): Command
  {
    Command(Native(exe), Words(args))
  }

  /** The position of the first `-o` among the arguments, or their count when there is none. */
  function OutputFlag(args: seq<Arg>): (k: nat)
    ensures k <= |args|
    ensures k < |args| ==> args[k] == Word("-o")
    ensures forall j :: 0 <= j < k ==> args[j] != Word("-o")
  {
    if args == [] then 0
    else if args[0] == Word("-o") then 0
    else 1 + OutputFlag(args[1..])
  }

  /** The file a command writes: the path right after its first `-o`. */
  function Output(c: Command): Option<Path>
  {
    var k := OutputFlag(c.args);
    if k + 1 < |c.args| && c.args[k + 1].File? then Some(c.args[k + 1].path) else None
  }

  /** The arguments a command reads: those before its first `-o`. */
  function Inputs(c: Command): seq<Arg>
  {
    c.args[..OutputFlag(c.args)]
  }

  lemma {:induction false} OutputFlagAfterFiles(ps: seq<Path>, rest: seq<Arg>)
    ensures OutputFlag(Files(ps) + [Word("-o")] + rest) == |ps|
  {
    if ps != [] {
      assert (Files(ps) + [Word("-o")] + rest)[1..] == Files(ps[1..]) + [Word("-o")] + rest;
      OutputFlagAfterFiles(ps[1..], rest);
    }
  }

  /**
   * Each of the three single-input tool invocations writes the file it was
   * given first and reads exactly the one it was given second.
   */
  lemma TranslationsNameTheirFiles(out: Path, input: Path)
    ensures Output(LlvmAsCommand(out, input)) == Some(out) && Inputs(LlvmAsCommand(out, input)) == [File(input)]
    ensures Output(LlcCommand(out, input)) == Some(out) && Inputs(LlcCommand(out, input)) == [File(input)]
    ensures Output(GnuAsCommand(out, input)) == Some(out) && Inputs(GnuAsCommand(out, input)) == [File(input)]
  {
    var args := [File(input), Word("-o"), File(out)];
    assert args[1..][0] == Word("-o");
    assert OutputFlag(args) == 1;
  }

  /** The two linkers write the file they were given first and read all the others, in order. */
  lemma LinksNameTheirFiles(out: Path, inputs: seq<Path>, isDarwin: bool)
    ensures Output(LlvmLinkCommand(out, inputs)) == Some(out) && Inputs(LlvmLinkCommand(out, inputs)) == Files(inputs)
    ensures Output(LdCommand(out, inputs, isDarwin)) == Some(out) && Inputs(LdCommand(out, inputs, isDarwin)) == Files(inputs)
  {
    var tail := [File(out)] + (if isDarwin then [Word("-lSystem")] else []);
    OutputFlagAfterFiles(inputs, [File(out)]);
    OutputFlagAfterFiles(inputs, tail);
    assert Files(inputs) + [Word("-o"), File(out)] == Files(inputs) + [Word("-o")] + [File(out)];
    assert Files(inputs) + [Word("-o"), File(out)] + (if isDarwin then [Word("-lSystem")] else [])
      == Files(inputs) + [Word("-o")] + tail;
  }

  /** The two ways `target.build` can link, and their textual values. */
  datatype LinkStage = Objectcode | Bitcode

  /** `link_stage.__str__` returns the member's value. */
  function LinkStageName(stage: LinkStage): string
  {
    match stage
    case Objectcode => "objectcode"
    case Bitcode => "bitcode"
  }

  /** `link_stage(value)`, the lookup argparse uses to convert `--link_stage`. */
  function LinkStageFromValue(value: string): (r: Option<LinkStage>)
    ensures r.Some? <==> value in {"objectcode", "bitcode"}
  {
    if value == "objectcode" then Some(Objectcode)
    else if value == "bitcode" then Some(Bitcode)
    else None
  }

  /** Converting a stage to its value and back gives the stage, and distinct stages have distinct values. */
  lemma LinkStageRoundTrip(stage: LinkStage, other: LinkStage)
    ensures LinkStageFromValue(LinkStageName(stage)) == Some(stage)
    ensures LinkStageName(stage) == LinkStageName(other) ==> stage == other
  {
  }

  /** A build target: the executable's name and its LLVM source modules, in order. */
  datatype Target = Target(name: FileName, sources: seq<FileName>)

  // The command sequences the two build procedures issue when every step succeeds.

  /** `.ll -> .s -> .o` for one source. */
  function CompilePair(source: FileName, sourceDir: string, buildDir: string): seq<Command>
  {
    [LlcCommand(WithSuffix(Join(buildDir, source), S), Join(sourceDir, source)),
     GnuAsCommand(WithSuffix(Join(buildDir, source), O), WithSuffix(Join(buildDir, source), S))]
  }

  /** `.ll -> .s -> .o` for every source, in order. */
  function CompileSteps(sources: seq<FileName>, sourceDir: string, buildDir: string): seq<Command>
  {
    if sources == [] then []
    else
      CompileSteps(sources[..|sources| - 1], sourceDir, buildDir)
        + CompilePair(sources[|sources| - 1], sourceDir, buildDir)
  }

  /** The object files `build_dir/source.o`, in source order. */
  function ObjectFiles(sources: seq<FileName>, buildDir: string): (r: seq<Path>)
    ensures |r| == |sources|
    ensures forall i :: 0 <= i < |sources| ==> r[i] == WithSuffix(Join(buildDir, sources[i]), O)
  {
    if sources == [] then []
    else ObjectFiles(sources[..|sources| - 1], buildDir) + [WithSuffix(Join(buildDir, sources[|sources| - 1]), O)]
  }

  /** `.ll -> .bc` for one source. */
  function AssembleCommand(source: FileName, sourceDir: string, buildDir: string): Command
  {
    LlvmAsCommand(WithSuffix(Join(buildDir, source), Bc), Join(sourceDir, source))
  }

  /** `llvm-as` for every source, in order. */
  function AssembleSteps(sources: seq<FileName>, sourceDir: string, buildDir: string): seq<Command>
  {
    if sources == [] then []
    else
      AssembleSteps(sources[..|sources| - 1], sourceDir, buildDir)
        + [AssembleCommand(sources[|sources| - 1], sourceDir, buildDir)]
  }

  lemma ObjectFilesStep(sources: seq<FileName>, i: nat, buildDir: string)
    requires i < |sources|
    ensures ObjectFiles(sources[..i + 1], buildDir) == ObjectFiles(sources[..i], buildDir) + [WithSuffix(Join(buildDir, sources[i]), O)]
  {
    assert sources[..i + 1][..i] == sources[..i];
  }

  /** The bitcode files `build_dir/source.bc`, in source order. */
  function BitcodeFiles(sources: seq<FileName>, buildDir: string): (r: seq<Path>)
    ensures |r| == |sources|
    ensures forall i :: 0 <= i < |sources| ==> r[i] == WithSuffix(Join(buildDir, sources[i]), Bc)
  {
    if sources == [] then []
    else BitcodeFiles(sources[..|sources| - 1], buildDir) + [WithSuffix(Join(buildDir, sources[|sources| - 1]), Bc)]
  }

  function Executable(t: Target, buildDir: string): Path
  {
    Join(buildDir, t.name)
  }

  function ObjectcodePlan(t: Target, sourceDir: string, buildDir: string, isDarwin: bool): seq<Command>
  {
    CompileSteps(t.sources, sourceDir, buildDir)
      + [LdCommand(Executable(t, buildDir), ObjectFiles(t.sources, buildDir), isDarwin)]
  }

  /** Compile `exe.bc` to `exe.s`, assemble it to `exe.o` and link that alone into `exe`. */
  function LowerModule(exe: Path, isDarwin: bool): seq<Command>
  {
    [LlcCommand(WithSuffix(exe, S), WithSuffix(exe, Bc)),
     GnuAsCommand(WithSuffix(exe, O), WithSuffix(exe, S)),
     LdCommand(exe, [WithSuffix(exe, O)], isDarwin)]
  }

  /** Link the bitcode into `exe.bc`, then compile, assemble and link it into `exe`. */
  function LowerSteps(exe: Path, bitcodes: seq<Path>, isDarwin: bool): seq<Command>
  {
    [LlvmLinkCommand(WithSuffix(exe, Bc), bitcodes)] + LowerModule(exe, isDarwin)
  }

  function BitcodePlan(t: Target, sourceDir: string, buildDir: string, isDarwin: bool): seq<Command>
  {
    AssembleSteps(t.sources, sourceDir, buildDir)
      + LowerSteps(Executable(t, buildDir), BitcodeFiles(t.sources, buildDir), isDarwin)
  }

  /** The object-code build compiles source i with command 2i and assembles it with command 2i+1. */
  lemma {:induction false} CompileStepsShape(sources: seq<FileName>, sourceDir: string, buildDir: string)
    ensures |CompileSteps(sources, sourceDir, buildDir)| == 2 * |sources|
    ensures forall i :: 0 <= i < |sources| ==>
      CompileSteps(sources, sourceDir, buildDir)[2 * i] ==
        LlcCommand(WithSuffix(Join(buildDir, sources[i]), S), Join(sourceDir, sources[i]))
    ensures forall i :: 0 <= i < |sources| ==>
      CompileSteps(sources, sourceDir, buildDir)[2 * i + 1] ==
        GnuAsCommand(WithSuffix(Join(buildDir, sources[i]), O), WithSuffix(Join(buildDir, sources[i]), S))
  {
    if sources != [] {
      var init := sources[..|sources| - 1];
      CompileStepsShape(init, sourceDir, buildDir);
      forall i | 0 <= i < |init| ensures init[i] == sources[i] { }
    }
  }

  /** The bitcode build assembles source i with command i. */
  lemma {:induction false} AssembleStepsShape(sources: seq<FileName>, sourceDir: string, buildDir: string)
    ensures |AssembleSteps(sources, sourceDir, buildDir)| == |sources|
    ensures forall i :: 0 <= i < |sources| ==>
      AssembleSteps(sources, sourceDir, buildDir)[i] ==
        LlvmAsCommand(WithSuffix(Join(buildDir, sources[i]), Bc), Join(sourceDir, sources[i]))
  {
    if sources != [] {
      var init := sources[..|sources| - 1];
      AssembleStepsShape(init, sourceDir, buildDir);
      forall i | 0 <= i < |init| ensures init[i] == sources[i] { }
    }
  }

  /** Object-code linking issues 2n+1 commands and links the n objects, in source order, last. */
  lemma ObjectcodePlanShape(t: Target, sourceDir: string, buildDir: string, isDarwin: bool)
    ensures |ObjectcodePlan(t, sourceDir, buildDir, isDarwin)| == 2 * |t.sources| + 1
    ensures ObjectcodePlan(t, sourceDir, buildDir, isDarwin)[2 * |t.sources|] ==
      LdCommand(Join(buildDir, t.name), ObjectFiles(t.sources, buildDir), isDarwin)
  {
    CompileStepsShape(t.sources, sourceDir, buildDir);
  }

  /** Bitcode linking issues n+4 commands: n assemblies, then link, compile, assemble and link. */
  lemma BitcodePlanShape(t: Target, sourceDir: string, buildDir: string, isDarwin: bool)
    ensures |BitcodePlan(t, sourceDir, buildDir, isDarwin)| == |t.sources| + 4
    ensures BitcodePlan(t, sourceDir, buildDir, isDarwin)[|t.sources|].program == LlvmLink
    ensures BitcodePlan(t, sourceDir, buildDir, isDarwin)[|t.sources| + 3] ==
      LdCommand(Join(buildDir, t.name), [WithSuffix(Join(buildDir, t.name), O)], isDarwin)
  {
    AssembleStepsShape(t.sources, sourceDir, buildDir);
  }

  /** Taking more sources extends the command sequence: it is built front to back. */
  lemma {:induction false} CompileStepsPrefix(sources: seq<FileName>, i: nat, sourceDir: string, buildDir: string)
    requires i <= |sources|
    ensures CompileSteps(sources[..i], sourceDir, buildDir) <= CompileSteps(sources, sourceDir, buildDir)
    decreases |sources| - i
  {
    if i < |sources| {
      CompileStepsPrefix(sources, i + 1, sourceDir, buildDir);
      assert sources[..i + 1][..i] == sources[..i];
    } else {
      assert sources[..i] == sources;
    }
  }

  lemma {:induction false} AssembleStepsPrefix(sources: seq<FileName>, i: nat, sourceDir: string, buildDir: string)
    requires i <= |sources|
    ensures AssembleSteps(sources[..i], sourceDir, buildDir) <= AssembleSteps(sources, sourceDir, buildDir)
    decreases |sources| - i
  {
    if i < |sources| {
      AssembleStepsPrefix(sources, i + 1, sourceDir, buildDir);
      assert sources[..i + 1][..i] == sources[..i];
    } else {
      assert sources[..i] == sources;
    }
  }

  /** After source i's commands (or a prefix of them) are appended, the log still begins the compile steps. */
  lemma CompileIteration(log0: seq<Command>, sources: seq<FileName>, i: nat, sourceDir: string, buildDir: string,
                         before: seq<Command>, after: seq<Command>)
    requires i < |sources|
    requires before == log0 + CompileSteps(sources[..i], sourceDir, buildDir)
    requires before <= after <= before + CompilePair(sources[i], sourceDir, buildDir)
    ensures log0 <= after <= log0 + CompileSteps(sources, sourceDir, buildDir)
    ensures after == before + CompilePair(sources[i], sourceDir, buildDir) ==>
      after == log0 + CompileSteps(sources[..i + 1], sourceDir, buildDir) && |after| == |before| + 2
  {
    var pair := CompilePair(sources[i], sourceDir, buildDir);
    var done := CompileSteps(sources[..i], sourceDir, buildDir);
    assert sources[..i + 1][..i] == sources[..i];
    assert CompileSteps(sources[..i + 1], sourceDir, buildDir) == done + pair;
    CompileStepsPrefix(sources, i + 1, sourceDir, buildDir);
    var partial := after[|before|..];
    assert after == before + partial;
    assert done + partial <= done + pair;
    assert (log0 + done + partial) == log0 + (done + partial);
  }

  /** After source i's assembly (or nothing) is appended, the log still begins the assemble steps. */
  lemma AssembleIteration(log0: seq<Command>, sources: seq<FileName>, i: nat, sourceDir: string, buildDir: string,
                          before: seq<Command>, after: seq<Command>)
    requires i < |sources|
    requires before == log0 + AssembleSteps(sources[..i], sourceDir, buildDir)
    requires before <= after <= before + [AssembleCommand(sources[i], sourceDir, buildDir)]
    ensures log0 <= after <= log0 + AssembleSteps(sources, sourceDir, buildDir)
    ensures after == before + [AssembleCommand(sources[i], sourceDir, buildDir)] ==>
      after == log0 + AssembleSteps(sources[..i + 1], sourceDir, buildDir) && |after| == |before| + 1
  {
    var one := [AssembleCommand(sources[i], sourceDir, buildDir)];
    var done := AssembleSteps(sources[..i], sourceDir, buildDir);
    assert sources[..i + 1][..i] == sources[..i];
    assert AssembleSteps(sources[..i + 1], sourceDir, buildDir) == done + one;
    AssembleStepsPrefix(sources, i + 1, sourceDir, buildDir);
    var partial := after[|before|..];
    assert after == before + partial;
    assert done + partial <= done + one;
    assert (log0 + done + partial) == log0 + (done + partial);
  }

  lemma BitcodeFilesStep(sources: seq<FileName>, i: nat, buildDir: string)
    requires i < |sources|
    ensures BitcodeFiles(sources[..i + 1], buildDir) == BitcodeFiles(sources[..i], buildDir) + [WithSuffix(Join(buildDir, sources[i]), Bc)]
  {
    assert sources[..i + 1][..i] == sources[..i];
  }

  /** Every path of `ps` names an existing file. */
  predicate AllExist(ps: seq<Path>, files: set<Path>)
  {
    forall p | p in ps :: p in files
  }

  lemma AllExistGrow(ps: seq<Path>, p: Path, files: set<Path>, grown: set<Path>)
    requires AllExist(ps, files) && files <= grown && p in grown
    ensures AllExist(ps + [p], grown)
  {
  }

  /** The object-code build can run to the end: every source is existing `.ll`/`.bc` and the name has no suffix. */
  predicate ObjectcodeBuildable(t: Target, sourceDir: string, files: set<Path>)
  {
    t.name.suffix == NoSuffix
    && forall i :: 0 <= i < |t.sources| ==>
         t.sources[i].suffix in {Ll, Bc} && Join(sourceDir, t.sources[i]) in files
  }

  /** The bitcode build can run to the end: every source is an existing `.ll` and the name has no suffix. */
  predicate BitcodeBuildable(t: Target, sourceDir: string, files: set<Path>)
  {
    t.name.suffix == NoSuffix
    && forall i :: 0 <= i < |t.sources| ==>
         t.sources[i].suffix == Ll && Join(sourceDir, t.sources[i]) in files
  }

  /** Every command from position `from` for `count` commands exits with status 0. */
  predicate SucceedsFrom(status: nat -> int, from: nat, count: nat)
  {
    forall n :: from <= n < from + count ==> status(n) == 0
  }

  /**
   * How many of the `count` commands from position `from` exit with status 0
   * before the first that does not: `count` when none fails.
   */
  function FirstFailure(status: nat -> int, from: nat, count: nat): (k: nat)
    ensures k <= count && SucceedsFrom(status, from, k)
    ensures k < count ==> status(from + k) != 0
    decreases count
  {
    if count == 0 || status(from) != 0 then 0
    else 1 + FirstFailure(status, from + 1, count - 1)
  }

  /** The first failure among `a + b` commands is the first among the `a`, or else `a` plus the first among the `b`. */
  lemma {:induction false} FirstFailureConcat(status: nat -> int, from: nat, a: nat, b: nat)
    ensures FirstFailure(status, from, a + b) ==
      if FirstFailure(status, from, a) < a then FirstFailure(status, from, a)
      else a + FirstFailure(status, from + a, b)
    decreases a
  {
    if a > 0 && status(from) == 0 {
      FirstFailureConcat(status, from + 1, a - 1, b);
    }
  }

  /** The log went from `log0` to `log1` by starting the first commands of `plan`, in order. */
  predicate Started(log0: seq<Command>, log1: seq<Command>, plan: seq<Command>)
  {
    log0 <= log1 <= log0 + plan
  }

  /**
   * How a run of the `count` commands from position `from` that started the
   * first `started` of them can end:
   * - a normal return started all of them, and every one exited with 0;
   * - a `CalledProcessError` came from the last command started, the first to
   *   fail, and carries its status;
   * - an `AssertionError` (a check on a file name or an existing file) came
   *   before any started command had failed.
   */
  predicate Ended(status: nat -> int, from: nat, started: nat, count: nat, r: Outcome)
  {
    match r
    case Done => started == count && SucceedsFrom(status, from, count)
    case Raised(AssertionError) => SucceedsFrom(status, from, started)
    case Raised(CalledProcessError(code)) =>
      0 < started <= count && FirstFailure(status, from, count) == started - 1 && code == status(from + started - 1)
  }

  /** What the script has done when a run of `plan`, every command of it through `check_call`, returns `r`. */
  predicate Stopped(status: nat -> int, log0: seq<Command>, log1: seq<Command>, plan: seq<Command>, r: Outcome)
  {
    Started(log0, log1, plan) && Ended(status, |log0|, |log1| - |log0|, |plan|, r)
  }

  /** One check followed by `check_call` of `cmd` is a run of the one-command plan `[cmd]`. */
  lemma StepStopped(status: nat -> int, log0: seq<Command>, log1: seq<Command>, cmd: Command, r: Outcome)
    requires (r == Raised(AssertionError) && log1 == log0)
             || (log1 == log0 + [cmd]
                 && r == (if status(|log0|) == 0 then Done else Raised(CalledProcessError(status(|log0|)))))
    ensures Stopped(status, log0, log1, [cmd], r)
  {
    if log1 == log0 {
      assert [cmd][..0] == [];
    } else {
      assert [cmd][..1] == [cmd];
      assert FirstFailure(status, |log0|, 1) == (if status(|log0|) == 0 then 1 else 0);
    }
  }

  /** Having started all of `first`, then some of `second`, is having started some of `first + second`. */
  lemma StartedThen(log0: seq<Command>, mid: seq<Command>, log1: seq<Command>, first: seq<Command>, second: seq<Command>)
    requires Started(log0, mid, first) && |mid| == |log0| + |first|
    requires Started(mid, log1, second)
    ensures Started(log0, log1, first + second)
  {
    assert mid == log0 + first;
    var tail := log1[|mid|..];
    assert log1 == log0 + (first + tail);
    assert first + tail <= first + second;
    assert log0 + first + second == log0 + (first + second);
  }

  /** Having started some of `first` is having started some of any `first + second`. */
  lemma StartedWithin(log0: seq<Command>, log1: seq<Command>, first: seq<Command>, second: seq<Command>)
    requires Started(log0, log1, first)
    ensures Started(log0, log1, first + second)
  {
    var part := log1[|log0|..];
    assert log1 == log0 + part;
    assert part <= first + second;
    assert log0 + first + second == log0 + (first + second);
  }

  /** An end after all `a` commands succeeded, followed by a run of `b` more, is an end of the `a + b`. */
  lemma EndedThen(status: nat -> int, from: nat, a: nat, started: nat, b: nat, r: Outcome)
    requires SucceedsFrom(status, from, a)
    requires Ended(status, from + a, started, b, r)
    ensures Ended(status, from, a + started, a + b, r)
  {
    FirstFailureConcat(status, from, a, b);
    match r
    case Done =>
      SucceedsJoin(status, from, a, b);
    case Raised(AssertionError) =>
      SucceedsJoin(status, from, a, started);
    case Raised(CalledProcessError(code)) =>
      assert FirstFailure(status, from, a) == a;
  }

  /** A raise among the first `a` commands is a raise among any `a + b`: the commands after it never start. */
  lemma EndedWithin(status: nat -> int, from: nat, started: nat, a: nat, b: nat, r: Outcome)
    requires r != Done && Ended(status, from, started, a, r)
    ensures Ended(status, from, started, a + b, r)
  {
    FirstFailureConcat(status, from, a, b);
  }

  lemma SucceedsJoin(status: nat -> int, from: nat, a: nat, b: nat)
    requires SucceedsFrom(status, from, a) && SucceedsFrom(status, from + a, b)
    ensures SucceedsFrom(status, from, a + b)
  {
  }

  /**
   * Running `first` and, only if it returned normally, `second` is a run of
   * `first + second`.
   */
  lemma StoppedThen(status: nat -> int, log0: seq<Command>, mid: seq<Command>, log1: seq<Command>,
                    first: seq<Command>, second: seq<Command>, r1: Outcome, r: Outcome)
    requires Stopped(status, log0, mid, first, r1)
    requires r1 == Done ==> Stopped(status, mid, log1, second, r)
    requires r1 != Done ==> log1 == mid && r == r1
    ensures Stopped(status, log0, log1, first + second, r)
  {
    if r1 == Done {
      StartedThen(log0, mid, log1, first, second);
      EndedThen(status, |log0|, |first|, |log1| - |mid|, |second|, r);
    } else {
      StartedWithin(log0, log1, first, second);
      EndedWithin(status, |log0|, |log1| - |log0|, |first|, |second|, r);
    }
  }

  /**
   * After `done` has run to completion, a run of `step` gives a run of
   * `done + step`; and when that raised, a run of any plan beginning with
   * `done + step`, since the script stops there.
   */
  lemma StoppedAfter(status: nat -> int, log0: seq<Command>, mid: seq<Command>, log1: seq<Command>,
                     done: seq<Command>, step: seq<Command>, plan: seq<Command>, r: Outcome)
    requires Stopped(status, log0, mid, done, Done)
    requires Stopped(status, mid, log1, step, r)
    requires done + step <= plan
    ensures Stopped(status, log0, log1, done + step, r)
    ensures r != Done ==> Stopped(status, log0, log1, plan, r)
  {
    StoppedThen(status, log0, mid, log1, done, step, Done, r);
    if r != Done {
      var rest := plan[|done + step|..];
      assert plan == (done + step) + rest;
      StoppedThen(status, log0, log1, log1, done + step, rest, r, r);
    }
  }

  /**
   * When no check on a file fails, the exit statuses alone decide the run: it
   * returns normally exactly when every command of the plan succeeds, and
   * otherwise it started the plan up to and including its first failing
   * command and raised that command's status.
   */
  lemma StoppedDetermined(status: nat -> int, log0: seq<Command>, log1: seq<Command>, plan: seq<Command>, r: Outcome)
    requires Stopped(status, log0, log1, plan, r) && r != Raised(AssertionError)
    ensures r == Done <==> SucceedsFrom(status, |log0|, |plan|)
    ensures r != Done ==>
      var k := FirstFailure(status, |log0|, |plan|);
      k < |plan|
      && log1 == log0 + plan[..k + 1]
      && r == Raised(CalledProcessError(status(|log0| + k)))
  {
    var from, count, started := |log0|, |plan|, |log1| - |log0|;
    var k := FirstFailure(status, from, count);
    match r
    case Done =>
    case Raised(CalledProcessError(code)) =>
      assert k + 1 == started <= count;
      assert status(from + k) != 0;
      PrefixSlice(log0, log1, plan);
  }

  /** A log that begins with `log0` and is a prefix of `log0 + plan` adds the first commands of `plan`. */
  lemma PrefixSlice(log0: seq<Command>, log1: seq<Command>, plan: seq<Command>)
    requires log0 <= log1 <= log0 + plan
    ensures log1 == log0 + plan[..|log1| - |log0|]
  {
    assert log1 == (log0 + plan)[..|log1|];
  }

  /** The commands a build starts when every step succeeds, by link stage. */
  function BuildPlan(t: Target, sourceDir: string, buildDir: string, isDarwin: bool, stage: LinkStage): seq<Command>
  {
    match stage
    case Objectcode => ObjectcodePlan(t, sourceDir, buildDir, isDarwin)
    case Bitcode => BitcodePlan(t, sourceDir, buildDir, isDarwin)
  }

  /** No check on a file can fail in a build by `stage`. */
  predicate Buildable(t: Target, sourceDir: string, files: set<Path>, stage: LinkStage)
  {
    match stage
    case Objectcode => ObjectcodeBuildable(t, sourceDir, files)
    case Bitcode => BitcodeBuildable(t, sourceDir, files)
  }

  /**
   * The machine the script runs on: its files and directories, the log of
   * the commands it has started, whether it is Darwin, and the exit status
   * that the n-th started command will report.
   */
  class Host {
    var files: set<Path>
    var dirs: set<string>
    var log: seq<Command>
    const isDarwin: bool
    const exitStatus: nat -> int

    constructor (files: set<Path>, dirs: set<string>, isDarwin: bool, exitStatus: nat -> int)
      ensures this.files == files && this.dirs == dirs && log == []
      ensures this.isDarwin == isDarwin && this.exitStatus == exitStatus
    {
      this.files := files;
      this.dirs := dirs;
      this.log := [];
      this.isDarwin := isDarwin;
      this.exitStatus := exitStatus;
    }

    /** `subprocess.check_call`: start `cmd`; a non-zero status raises, a zero one leaves `output` behind. */
    method CheckCall(cmd: Command, output: Path) returns (r: Outcome)
      modifies this
      ensures log == old(log) + [cmd] && dirs == old(dirs)
      ensures exitStatus(|old(log)|) == 0 ==> r == Done && files == old(files) + {output}
      ensures exitStatus(|old(log)|) != 0 ==>
        r == Raised(CalledProcessError(exitStatus(|old(log)|))) && files == old(files)
    {
      var status := exitStatus(|log|);
      log := log + [cmd];
      if status == 0 {
        files := files + {output};
        r := Done;
      } else {
        r := Raised(CalledProcessError(status));
      }
    }

    /** `subprocess.call`: start `cmd` and return its exit status, whatever it is. */
    method Call(cmd: Command) returns (status: int)
      modifies this
      ensures log == old(log) + [cmd] && files == old(files) && dirs == old(dirs)
      ensures status == exitStatus(|old(log)|)
    {
      status := exitStatus(|log|);
      log := log + [cmd];
    }

    /** `llvm_assemble`: an existing `.ll` source to a `.bc` file with llvm-as. */
    method LlvmAssemble(bitcode: Path, source: Path) returns (r: Outcome)
      modifies this
      ensures dirs == old(dirs)
      ensures !(source.suffix == Ll && source in old(files) && bitcode.suffix == Bc) ==>
        r == Raised(AssertionError) && log == old(log) && files == old(files)
      ensures source.suffix == Ll && source in old(files) && bitcode.suffix == Bc ==>
        log == old(log) + [LlvmAsCommand(bitcode, source)]
        && r == (if exitStatus(|old(log)|) == 0 then Done else Raised(CalledProcessError(exitStatus(|old(log)|))))
        && files == (if r == Done then old(files) + {bitcode} else old(files))
      ensures Stopped(exitStatus, old(log), log, [LlvmAsCommand(bitcode, source)], r)
    {
      if !(source.suffix == Ll && source in files) || bitcode.suffix != Bc {
        return Raised(AssertionError);
      }
      r := CheckCall(LlvmAsCommand(bitcode, source), bitcode);
      StepStopped(exitStatus, old(log), log, LlvmAsCommand(bitcode, source), r);
    }

    /** `llvm_link`: existing `.bc` files to one linked `.bc` file with llvm-link. */
    method LlvmLinkFiles(linked: Path, bitcodes: seq<Path>) returns (r: Outcome)
      modifies this
      ensures dirs == old(dirs)
      ensures var ok := (forall i :: 0 <= i < |bitcodes| ==> bitcodes[i].suffix == Bc && bitcodes[i] in old(files))
                        && linked.suffix == Bc;
        (!ok ==> r == Raised(AssertionError) && log == old(log) && files == old(files))
        && (ok ==>
              log == old(log) + [LlvmLinkCommand(linked, bitcodes)]
              && r == (if exitStatus(|old(log)|) == 0 then Done else Raised(CalledProcessError(exitStatus(|old(log)|))))
              && files == (if r == Done then old(files) + {linked} else old(files)))
      ensures Stopped(exitStatus, old(log), log, [LlvmLinkCommand(linked, bitcodes)], r)
    {
      var i := 0;
      while i < |bitcodes|
        invariant 0 <= i <= |bitcodes|
        invariant forall j :: 0 <= j < i ==> bitcodes[j].suffix == Bc && bitcodes[j] in files
      {
        if !(bitcodes[i].suffix == Bc && bitcodes[i] in files) {
          return Raised(AssertionError);
        }
        i := i + 1;
      }
      if linked.suffix != Bc {
        return Raised(AssertionError);
      }
      r := CheckCall(LlvmLinkCommand(linked, bitcodes), linked);
      StepStopped(exitStatus, old(log), log, LlvmLinkCommand(linked, bitcodes), r);
    }

    /** `llvm_compile`: an existing `.ll` or `.bc` file to a `.s` file with llc. */
    method LlvmCompile(asm: Path, ir: Path) returns (r: Outcome)
      modifies this
      ensures dirs == old(dirs)
      ensures !(ir.suffix in {Ll, Bc} && ir in old(files) && asm.suffix == S) ==>
        r == Raised(AssertionError) && log == old(log) && files == old(files)
      ensures ir.suffix in {Ll, Bc} && ir in old(files) && asm.suffix == S ==>
        log == old(log) + [LlcCommand(asm, ir)]
        && r == (if exitStatus(|old(log)|) == 0 then Done else Raised(CalledProcessError(exitStatus(|old(log)|))))
        && files == (if r == Done then old(files) + {asm} else old(files))
      ensures Stopped(exitStatus, old(log), log, [LlcCommand(asm, ir)], r)
    {
      if !(ir.suffix in {Ll, Bc} && ir in files) {
        return Raised(AssertionError);
      }
      if asm.suffix != S {
        return Raised(AssertionError);
      }
      r := CheckCall(LlcCommand(asm, ir), asm);
      StepStopped(exitStatus, old(log), log, LlcCommand(asm, ir), r);
    }

    /** `native_assemble`: an existing `.s` file to a `.o` file with as. */
    method NativeAssemble(obj: Path, asm: Path) returns (r: Outcome)
      modifies this
      ensures dirs == old(dirs)
      ensures !(asm.suffix == S && asm in old(files) && obj.suffix == O) ==>
        r == Raised(AssertionError) && log == old(log) && files == old(files)
      ensures asm.suffix == S && asm in old(files) && obj.suffix == O ==>
        log == old(log) + [GnuAsCommand(obj, asm)]
        && r == (if exitStatus(|old(log)|) == 0 then Done else Raised(CalledProcessError(exitStatus(|old(log)|))))
        && files == (if r == Done then old(files) + {obj} else old(files))
      ensures Stopped(exitStatus, old(log), log, [GnuAsCommand(obj, asm)], r)
    {
      if !(asm.suffix == S && asm in files) || obj.suffix != O {
        return Raised(AssertionError);
      }
      r := CheckCall(GnuAsCommand(obj, asm), obj);
      StepStopped(exitStatus, old(log), log, GnuAsCommand(obj, asm), r);
    }

    /** `native_link`: existing `.o` files to an executable with ld, adding `-lSystem` on Darwin. */
    method NativeLink(exe: Path, objs: seq<Path>) returns (r: Outcome)
      modifies this
      ensures dirs == old(dirs)
      ensures var ok := (forall i :: 0 <= i < |objs| ==> objs[i].suffix == O && objs[i] in old(files))
                        && exe.suffix == NoSuffix;
        (!ok ==> r == Raised(AssertionError) && log == old(log) && files == old(files))
        && (ok ==>
              log == old(log) + [LdCommand(exe, objs, isDarwin)]
              && r == (if exitStatus(|old(log)|) == 0 then Done else Raised(CalledProcessError(exitStatus(|old(log)|))))
              && files == (if r == Done then old(files) + {exe} else old(files)))
      ensures Stopped(exitStatus, old(log), log, [LdCommand(exe, objs, isDarwin)], r)
    {
      var i := 0;
      while i < |objs|
        invariant 0 <= i <= |objs|
        invariant forall j :: 0 <= j < i ==> objs[j].suffix == O && objs[j] in files
      {
        if !(objs[i].suffix == O && objs[i] in files) {
          return Raised(AssertionError);
        }
        i := i + 1;
      }
      if exe.suffix != NoSuffix {
        return Raised(AssertionError);
      }
      var cmd := Command(Ld, Files(objs) + [Word("-o"), File(exe)]);
      if isDarwin {
        cmd := cmd.(args := cmd.args + [Word("-lSystem")]);
      }
      assert cmd == LdCommand(exe, objs, isDarwin);
      r := CheckCall(cmd, exe);
      StepStopped(exitStatus, old(log), log, LdCommand(exe, objs, isDarwin), r);
    }

    /** `llvm_interpret`: run an existing `.bc` file with lli; its exit status is only reported. */
    method LlvmInterpret(bitcode: Path, args: seq<string>) returns (r: Outcome, status: int)
      modifies this
      ensures files == old(files) && dirs == old(dirs)
      ensures !(bitcode.suffix == Bc && bitcode in old(files)) ==> r == Raised(AssertionError) && log == old(log)
      ensures bitcode.suffix == Bc && bitcode in old(files) ==>
        r == Done && log == old(log) + [LliCommand(bitcode, args)] && status == exitStatus(|old(log)|)
    {
      status := 0;
      if !(bitcode.suffix == Bc && bitcode in files) {
        return Raised(AssertionError), status;
      }
      status := Call(LliCommand(bitcode, args));
      r := Done;
    }

    /** `native_execute`: run an existing executable; its exit status is only reported. */
    method NativeExecute(exe: Path, args: seq<string>) returns (r: Outcome, status: int)
      modifies this
      ensures files == old(files) && dirs == old(dirs)
      ensures !(exe.suffix == NoSuffix && exe in old(files)) ==> r == Raised(AssertionError) && log == old(log)
      ensures exe.suffix == NoSuffix && exe in old(files) ==>
        r == Done && log == old(log) + [ExecuteCommand(exe, args)] && status == exitStatus(|old(log)|)
    {
      status := 0;
      if !(exe.suffix == NoSuffix && exe in files) {
        return Raised(AssertionError), status;
      }
      status := Call(ExecuteCommand(exe, args));
      r := Done;
    }

    /** One iteration of `build_with_linking_objectcode`: compile a source to `.s`, then assemble it to `.o`. */
    method CompileSource(source: FileName, sourceDir: string, buildDir: string) returns (r: Outcome, obj: Path)
      modifies this
      ensures dirs == old(dirs) && old(files) <= files
      ensures obj == WithSuffix(Join(buildDir, source), O)
      ensures Stopped(exitStatus, old(log), log, CompilePair(source, sourceDir, buildDir), r)
      ensures r == Done ==> log == old(log) + CompilePair(source, sourceDir, buildDir) && obj in files
      ensures source.suffix in {Ll, Bc} && Join(sourceDir, source) in old(files) ==> r != Raised(AssertionError)
      ensures (source.suffix in {Ll, Bc} && Join(sourceDir, source) in old(files)
               && exitStatus(|old(log)|) == 0 && exitStatus(|old(log)| + 1) == 0) ==> r == Done
    {
      ghost var pair := CompilePair(source, sourceDir, buildDir);
      ghost var log0 := log;
      var asm := WithSuffix(Join(buildDir, source), S);
      r := LlvmCompile(asm, Join(sourceDir, source));
      obj := WithSuffix(Join(buildDir, source), O);
      assert [] + [pair[0]] == [pair[0]] <= pair;
      StoppedAfter(exitStatus, log0, log0, log, [], [pair[0]], pair, r);
      if r != Done {
        return;
      }
      ghost var mid := log;
      r := NativeAssemble(obj, asm);
      assert [pair[0]] + [pair[1]] == pair;
      StoppedAfter(exitStatus, log0, mid, log, [pair[0]], [pair[1]], pair, r);
    }

    /** One turn of that loop: source i is compiled and assembled, and its object joins the others. */
    method CompileNext(sources: seq<FileName>, i: nat, sourceDir: string, buildDir: string,
                       ghost log0: seq<Command>, objs: seq<Path>) returns (r: Outcome, grown: seq<Path>)
      requires i < |sources|
      requires log == log0 + CompileSteps(sources[..i], sourceDir, buildDir)
      requires SucceedsFrom(exitStatus, |log0|, |log| - |log0|)
      requires objs == ObjectFiles(sources[..i], buildDir) && AllExist(objs, files)
      modifies this
      ensures dirs == old(dirs) && old(files) <= files
      ensures log0 <= log <= log0 + CompileSteps(sources, sourceDir, buildDir)
      ensures Stopped(exitStatus, old(log), log, CompilePair(sources[i], sourceDir, buildDir), r)
      ensures r == Done ==> SucceedsFrom(exitStatus, |log0|, |log| - |log0|)
      ensures r != Done ==> Stopped(exitStatus, log0, log, CompileSteps(sources, sourceDir, buildDir), r)
      ensures r == Done ==>
        log == log0 + CompileSteps(sources[..i + 1], sourceDir, buildDir)
        && |log| == |old(log)| + 2
        && grown == ObjectFiles(sources[..i + 1], buildDir)
        && AllExist(grown, files)
      ensures sources[i].suffix in {Ll, Bc} && Join(sourceDir, sources[i]) in old(files) ==>
        r != Raised(AssertionError)
      ensures (sources[i].suffix in {Ll, Bc} && Join(sourceDir, sources[i]) in old(files)
               && exitStatus(|old(log)|) == 0 && exitStatus(|old(log)| + 1) == 0) ==> r == Done
    {
      var obj;
      r, obj := CompileSource(sources[i], sourceDir, buildDir);
      CompileIteration(log0, sources, i, sourceDir, buildDir, old(log), log);
      assert sources[..i + 1][..i] == sources[..i];
      CompileStepsPrefix(sources, i + 1, sourceDir, buildDir);
      StoppedAfter(exitStatus, log0, old(log), log, CompileSteps(sources[..i], sourceDir, buildDir),
                   CompilePair(sources[i], sourceDir, buildDir), CompileSteps(sources, sourceDir, buildDir), r);
      grown := objs + [obj];
      if r == Done {
        ObjectFilesStep(sources, i, buildDir);
        AllExistGrow(objs, obj, old(files), files);
      }
    }

    /** The loop of `build_with_linking_objectcode`: compile and assemble each source, in order. */
    method CompileSources(t: Target, sourceDir: string, buildDir: string) returns (r: Outcome, objs: seq<Path>)
      modifies this
      ensures dirs == old(dirs) && old(files) <= files
      ensures Stopped(exitStatus, old(log), log, CompileSteps(t.sources, sourceDir, buildDir), r)
      ensures r == Done ==>
        log == old(log) + CompileSteps(t.sources, sourceDir, buildDir)
        && |log| == |old(log)| + 2 * |t.sources|
        && objs == ObjectFiles(t.sources, buildDir)
        && AllExist(objs, files)
      ensures ObjectcodeBuildable(t, sourceDir, old(files)) ==> r != Raised(AssertionError)
      ensures (ObjectcodeBuildable(t, sourceDir, old(files)) && SucceedsFrom(exitStatus, |old(log)|, 2 * |t.sources|))
              ==> r == Done
    {
      ghost var buildable := ObjectcodeBuildable(t, sourceDir, files);
      ghost var succeeds := SucceedsFrom(exitStatus, |log|, 2 * |t.sources|);
      r := Done;
      objs := [];
      var i := 0;
      while i < |t.sources|
        invariant 0 <= i <= |t.sources|
        invariant dirs == old(dirs) && old(files) <= files
        invariant log == old(log) + CompileSteps(t.sources[..i], sourceDir, buildDir)
        invariant |log| == |old(log)| + 2 * i
        invariant SucceedsFrom(exitStatus, |old(log)|, |log| - |old(log)|)
        invariant objs == ObjectFiles(t.sources[..i], buildDir)
        invariant AllExist(objs, files)
        invariant r == Done
        invariant buildable ==> ObjectcodeBuildable(t, sourceDir, files)
      {
        if buildable {
          assert t.sources[i].suffix in {Ll, Bc} && Join(sourceDir, t.sources[i]) in files;
        }
        if buildable && succeeds {
          assert exitStatus(|log|) == 0 && exitStatus(|log| + 1) == 0;
        }
        r, objs := CompileNext(t.sources, i, sourceDir, buildDir, old(log), objs);
        if r != Done {
          return;
        }
        i := i + 1;
      }
      assert t.sources[..i] == t.sources;
    }

    /**
     * `target.build_with_linking_objectcode`: compile and assemble each source in
     * order, then link all objects.  A raise stops the build at once.
     */
    method BuildWithLinkingObjectcode(t: Target, sourceDir: string, buildDir: string) returns (r: Outcome)
      modifies this
      ensures dirs == old(dirs) && old(files) <= files
      ensures Stopped(exitStatus, old(log), log, ObjectcodePlan(t, sourceDir, buildDir, isDarwin), r)
      ensures r == Done ==>
        log == old(log) + ObjectcodePlan(t, sourceDir, buildDir, isDarwin) && Executable(t, buildDir) in files
      ensures ObjectcodeBuildable(t, sourceDir, old(files)) ==> r != Raised(AssertionError)
      ensures (ObjectcodeBuildable(t, sourceDir, old(files))
               && SucceedsFrom(exitStatus, |old(log)|, 2 * |t.sources| + 1))
              ==> r == Done
    {
      ghost var steps := CompileSteps(t.sources, sourceDir, buildDir);
      ghost var link := [LdCommand(Executable(t, buildDir), ObjectFiles(t.sources, buildDir), isDarwin)];
      var objs;
      r, objs := CompileSources(t, sourceDir, buildDir);
      if r != Done {
        StoppedThen(exitStatus, old(log), log, log, steps, link, r, r);
        return;
      }
      ghost var mid := log;
      r := NativeLink(Join(buildDir, t.name), objs);
      StoppedThen(exitStatus, old(log), mid, log, steps, link, Done, r);
    }

    /** One turn of that loop: source i is assembled to bitcode, which joins the others. */
    method AssembleNext(sources: seq<FileName>, i: nat, sourceDir: string, buildDir: string,
                        ghost log0: seq<Command>, bitcodes: seq<Path>) returns (r: Outcome, grown: seq<Path>)
      requires i < |sources|
      requires log == log0 + AssembleSteps(sources[..i], sourceDir, buildDir)
      requires SucceedsFrom(exitStatus, |log0|, |log| - |log0|)
      requires bitcodes == BitcodeFiles(sources[..i], buildDir) && AllExist(bitcodes, files)
      modifies this
      ensures dirs == old(dirs) && old(files) <= files
      ensures log0 <= log <= log0 + AssembleSteps(sources, sourceDir, buildDir)
      ensures Stopped(exitStatus, old(log), log, [AssembleCommand(sources[i], sourceDir, buildDir)], r)
      ensures r == Done ==> SucceedsFrom(exitStatus, |log0|, |log| - |log0|)
      ensures r != Done ==> Stopped(exitStatus, log0, log, AssembleSteps(sources, sourceDir, buildDir), r)
      ensures r == Done ==>
        log == log0 + AssembleSteps(sources[..i + 1], sourceDir, buildDir)
        && |log| == |old(log)| + 1
        && grown == BitcodeFiles(sources[..i + 1], buildDir)
        && AllExist(grown, files)
      ensures sources[i].suffix == Ll && Join(sourceDir, sources[i]) in old(files) ==> r != Raised(AssertionError)
      ensures (sources[i].suffix == Ll && Join(sourceDir, sources[i]) in old(files)
               && exitStatus(|old(log)|) == 0) ==> r == Done
    {
      var bitcode := WithSuffix(Join(buildDir, sources[i]), Bc);
      r := LlvmAssemble(bitcode, Join(sourceDir, sources[i]));
      AssembleIteration(log0, sources, i, sourceDir, buildDir, old(log), log);
      assert sources[..i + 1][..i] == sources[..i];
      AssembleStepsPrefix(sources, i + 1, sourceDir, buildDir);
      StoppedAfter(exitStatus, log0, old(log), log, AssembleSteps(sources[..i], sourceDir, buildDir),
                   [AssembleCommand(sources[i], sourceDir, buildDir)], AssembleSteps(sources, sourceDir, buildDir), r);
      grown := bitcodes + [bitcode];
      if r == Done {
        BitcodeFilesStep(sources, i, buildDir);
        AllExistGrow(bitcodes, bitcode, old(files), files);
      }
    }

    /** The loop of `build_with_linking_bitcode`: assemble each source to bitcode, in order. */
    method AssembleSources(t: Target, sourceDir: string, buildDir: string) returns (r: Outcome, bitcodes: seq<Path>)
      modifies this
      ensures dirs == old(dirs) && old(files) <= files
      ensures Stopped(exitStatus, old(log), log, AssembleSteps(t.sources, sourceDir, buildDir), r)
      ensures r == Done ==>
        log == old(log) + AssembleSteps(t.sources, sourceDir, buildDir)
        && |log| == |old(log)| + |t.sources|
        && bitcodes == BitcodeFiles(t.sources, buildDir)
        && AllExist(bitcodes, files)
      ensures BitcodeBuildable(t, sourceDir, old(files)) ==> r != Raised(AssertionError)
      ensures (BitcodeBuildable(t, sourceDir, old(files)) && SucceedsFrom(exitStatus, |old(log)|, |t.sources|))
              ==> r == Done
    {
      ghost var buildable := BitcodeBuildable(t, sourceDir, files);
      ghost var succeeds := SucceedsFrom(exitStatus, |log|, |t.sources|);
      r := Done;
      bitcodes := [];
      var i := 0;
      while i < |t.sources|
        invariant 0 <= i <= |t.sources|
        invariant dirs == old(dirs) && old(files) <= files
        invariant log == old(log) + AssembleSteps(t.sources[..i], sourceDir, buildDir)
        invariant |log| == |old(log)| + i
        invariant SucceedsFrom(exitStatus, |old(log)|, |log| - |old(log)|)
        invariant bitcodes == BitcodeFiles(t.sources[..i], buildDir)
        invariant AllExist(bitcodes, files)
        invariant r == Done
        invariant buildable ==> BitcodeBuildable(t, sourceDir, files)
      {
        if buildable {
          assert t.sources[i].suffix == Ll && Join(sourceDir, t.sources[i]) in files;
        }
        if buildable && succeeds {
          assert exitStatus(|log|) == 0;
        }
        r, bitcodes := AssembleNext(t.sources, i, sourceDir, buildDir, old(log), bitcodes);
        if r != Done {
          return;
        }
        i := i + 1;
      }
      assert t.sources[..i] == t.sources;
    }

    /** The last three steps of `build_with_linking_bitcode`: `llc` on `name.bc`, `as`, then `ld` of `name.o`. */
    method LowerToNative(exe: Path) returns (r: Outcome)
      modifies this
      ensures dirs == old(dirs) && old(files) <= files
      ensures Stopped(exitStatus, old(log), log, LowerModule(exe, isDarwin), r)
      ensures r == Done ==> log == old(log) + LowerModule(exe, isDarwin) && exe in files
      ensures WithSuffix(exe, Bc) in old(files) && exe.suffix == NoSuffix ==> r != Raised(AssertionError)
      ensures (WithSuffix(exe, Bc) in old(files) && exe.suffix == NoSuffix && SucceedsFrom(exitStatus, |old(log)|, 3))
              ==> r == Done
    {
      ghost var steps := LowerModule(exe, isDarwin);
      assert [] + [steps[0]] <= steps;
      assert [steps[0]] + [steps[1]] <= steps;
      assert [steps[0], steps[1]] + [steps[2]] == steps;
      ghost var log0 := log;
      r := LlvmCompile(WithSuffix(exe, S), WithSuffix(exe, Bc));
      StoppedAfter(exitStatus, log0, log0, log, [], [steps[0]], steps, r);
      if r != Done {
        return;
      }
      ghost var log1 := log;
      r := NativeAssemble(WithSuffix(exe, O), WithSuffix(exe, S));
      StoppedAfter(exitStatus, log0, log1, log, [steps[0]], [steps[1]], steps, r);
      if r != Done {
        return;
      }
      ghost var log2 := log;
      r := NativeLink(exe, [WithSuffix(exe, O)]);
      StoppedAfter(exitStatus, log0, log2, log, [steps[0], steps[1]], [steps[2]], steps, r);
    }

    /** The tail of `build_with_linking_bitcode`: link to `name.bc`, then lower that one module to `name`. */
    method LinkAndLower(exe: Path, bitcodes: seq<Path>) returns (r: Outcome)
      modifies this
      ensures dirs == old(dirs) && old(files) <= files
      ensures Stopped(exitStatus, old(log), log, LowerSteps(exe, bitcodes, isDarwin), r)
      ensures r == Done ==>
        log == old(log) + LowerSteps(exe, bitcodes, isDarwin)
        && exe in files && WithSuffix(exe, Bc) in files
      ensures (forall j :: 0 <= j < |bitcodes| ==> bitcodes[j].suffix == Bc && bitcodes[j] in old(files))
              && exe.suffix == NoSuffix
              ==> r != Raised(AssertionError)
      ensures ((forall j :: 0 <= j < |bitcodes| ==> bitcodes[j].suffix == Bc && bitcodes[j] in old(files))
               && exe.suffix == NoSuffix && SucceedsFrom(exitStatus, |old(log)|, 4))
              ==> r == Done
    {
      ghost var link := [LlvmLinkCommand(WithSuffix(exe, Bc), bitcodes)];
      ghost var rest := LowerModule(exe, isDarwin);
      r := LlvmLinkFiles(WithSuffix(exe, Bc), bitcodes);
      if r != Done {
        StoppedThen(exitStatus, old(log), log, log, link, rest, r, r);
        return;
      }
      ghost var mid := log;
      r := LowerToNative(exe);
      StoppedThen(exitStatus, old(log), mid, log, link, rest, Done, r);
    }

    /**
     * `target.build_with_linking_bitcode`: assemble each source to bitcode, link the
     * bitcode into `name.bc`, then compile, assemble and link that one module.
     */
    method BuildWithLinkingBitcode(t: Target, sourceDir: string, buildDir: string) returns (r: Outcome)
      modifies this
      ensures dirs == old(dirs) && old(files) <= files
      ensures Stopped(exitStatus, old(log), log, BitcodePlan(t, sourceDir, buildDir, isDarwin), r)
      ensures r == Done ==>
        log == old(log) + BitcodePlan(t, sourceDir, buildDir, isDarwin)
        && Executable(t, buildDir) in files && WithSuffix(Executable(t, buildDir), Bc) in files
      ensures BitcodeBuildable(t, sourceDir, old(files)) ==> r != Raised(AssertionError)
      ensures (BitcodeBuildable(t, sourceDir, old(files)) && SucceedsFrom(exitStatus, |old(log)|, |t.sources| + 4))
              ==> r == Done
    {
      var bitcodes;
      r, bitcodes := AssembleSources(t, sourceDir, buildDir);
      ghost var assembled := AssembleSteps(t.sources, sourceDir, buildDir);
      var exe := Join(buildDir, t.name);
      ghost var tail := LowerSteps(exe, BitcodeFiles(t.sources, buildDir), isDarwin);
      assert BitcodePlan(t, sourceDir, buildDir, isDarwin) == assembled + tail;
      if r != Done {
        StoppedThen(exitStatus, old(log), log, log, assembled, tail, r, r);
        return;
      }
      ghost var mid := log;
      r := LinkAndLower(exe, bitcodes);
      StoppedThen(exitStatus, old(log), mid, log, assembled, tail, Done, r);
    }

    /** `target.build`: create the build directory (if missing, with parents), then build by the chosen stage. */
    method Build(t: Target, sourceDir: string, buildDir: string, stage: LinkStage) returns (r: Outcome)
      modifies this
      ensures dirs == old(dirs) + {buildDir} && old(files) <= files
      ensures Stopped(exitStatus, old(log), log, BuildPlan(t, sourceDir, buildDir, isDarwin, stage), r)
      ensures r == Done ==>
        log == old(log) + BuildPlan(t, sourceDir, buildDir, isDarwin, stage) && Executable(t, buildDir) in files
      ensures r == Done && stage == Bitcode ==> WithSuffix(Executable(t, buildDir), Bc) in files
      ensures Buildable(t, sourceDir, old(files), stage) ==> r != Raised(AssertionError)
      ensures (Buildable(t, sourceDir, old(files), stage)
               && SucceedsFrom(exitStatus, |old(log)|, |BuildPlan(t, sourceDir, buildDir, isDarwin, stage)|))
              ==> r == Done
    {
      dirs := dirs + {buildDir};
      match stage {
        case Objectcode =>
          ObjectcodePlanShape(t, sourceDir, buildDir, isDarwin);
          r := BuildWithLinkingObjectcode(t, sourceDir, buildDir);
        case Bitcode =>
          BitcodePlanShape(t, sourceDir, buildDir, isDarwin);
          r := BuildWithLinkingBitcode(t, sourceDir, buildDir);
      }
    }

    /** `target.run`: execute the native binary, then interpret `name.bc` only if that file exists. */
    method Run(t: Target, buildDir: string, args: seq<string>) returns (r: Outcome)
      modifies this
      ensures files == old(files) && dirs == old(dirs)
      ensures var exe := Executable(t, buildDir);
        var bitcode := WithSuffix(exe, Bc);
        if exe.suffix == NoSuffix && exe in old(files) then
          r == Done
          && log == old(log) + [ExecuteCommand(exe, args)]
                            + (if bitcode in old(files) then [LliCommand(bitcode, args)] else [])
        else
          r == Raised(AssertionError) && log == old(log)
    {
      var exe := Join(buildDir, t.name);
      var bitcode := WithSuffix(exe, Bc);
      var status;
      r, status := NativeExecute(exe, args);
      if r != Done {
        return;
      }
      if bitcode in files {
        r, status := LlvmInterpret(bitcode, args);
      }
    }
  }
}
