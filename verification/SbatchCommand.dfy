// submit_slurm's command line: which jobs it accepts, and that the shell on the login node
// reads the line it builds as exactly the arguments meant for sbatch.
module SbatchCommand {
  import opened Wrappers
  import opened ShellWords

  datatype Command = Line(text: string) | Argv(words: seq<string>)

  // Paths are strings that pathlib would leave as they are.
  datatype Job = Job(
    name: string,
    stdout: Option<string>,
    stderr: Option<string>,
    script: Option<string>,
    command: Option<Command>,
    workingDirectory: Option<string>,
    submissionDirectory: Option<string>,
    timeLimit: Option<string>,
    options: seq<(string, string)>,
    account: Option<string>)

  datatype Problem =
    | WorkingDirectoryNotAbsolute
    | SubmissionDirectoryNotAbsolute
    | ScriptNotAbsolute
    | NoStdoutPath
    | NothingToRun

  datatype Built = Sbatch(line: string) | Rejected(problem: Problem)

  predicate Absolute(path: string) {
    path != "" && path[0] == '/'
  }

  // The pattern of _TILDE_ABSOLUTE_RE, whose $ also matches before a final newline.
  predicate LooksLikeHome(path: string) {
    path != "" && path[0] == '~' &&
    var n := 1 + LoginLength(path[1..]);
    n == |path| || path[n] == '/' || (n == |path| - 1 && path[n] == '\n')
  }

  // A home directory followed by nothing but a newline.
  predicate StrayNewline(path: string) {
    path != "" && path[0] == '~' && 1 + LoginLength(path[1..]) == |path| - 1 && path[|path| - 1] == '\n'
  }

  // An accepted home-relative path is expanded by the login node's shell, with the exception
  // of a home directory with a newline stuck to it.
  lemma AcceptedHomeIsLiveIff(path: string)
    requires LooksLikeHome(path)
    ensures LiveTilde(PathWord(path)) <==> !StrayNewline(path)
  {
    QuotePathIsOneWord(path);
  }

  // One such path, accepted and then taken literally.
  lemma TildeNewlineIsNoHome(path: string)
    requires path == "~\n"
    ensures LooksLikeHome(path) && !LiveTilde(PathWord(path)) && Words(QuotePath(path)) == Some([PathWord(path)])
  {
    assert LoginLength(path[1..]) == 0;
    AcceptedHomeIsLiveIff(path);
    QuotePathIsOneWord(path);
  }

  function JoinPath(directory: string, name: string): string {
    if directory != "" && directory[|directory| - 1] == '/' then directory + name else directory + "/" + name
  }

  // The default output file lies in a home directory exactly when the working directory does.
  lemma JoinStaysAtHome(directory: string, name: string)
    requires directory != ""
    ensures StartsAtHome(JoinPath(directory, name)) <==> StartsAtHome(directory)
  {
    if directory[0] == '~' {
      var rest := JoinPath(directory, name)[|directory|..];
      assert JoinPath(directory, name) == directory + rest;
      assert (directory + rest)[1..] == directory[1..] + rest;
      LoginLengthOfPrefix(directory[1..], rest);
    }
  }

  lemma {:induction false} LoginLengthOfPrefix(a: string, b: string)
    requires (a != "" && a[|a| - 1] == '/') || (b != "" && b[0] == '/')
    ensures LoginLength(a + b) == LoginLength(a)
  {
    if a == "" {
      assert a + b == b;
    } else {
      assert (a + b)[1..] == a[1..] + b;
      if LoginChar(a[0]) {
        LoginLengthOfPrefix(a[1..], b);
      }
    }
  }

  // The directory of an absolute path.
  function Parent(path: string): string {
    if path == "" then "/"
    else if path[|path| - 1] == '/' then (if |path| == 1 then "/" else path[..|path| - 1])
    else Parent(path[..|path| - 1])
  }

  function OutputName(name: string): string {
    "slurm_job_" + name + "_%j.out"
  }

  function StdoutPath(job: Job): Option<string> {
    match job.stdout
    case Some(path) => Some(path)
    case None =>
      match job.workingDirectory
      case Some(wd) => Some(JoinPath(wd, OutputName(job.name)))
      case None =>
        match job.script
        case Some(script) => Some(JoinPath(Parent(script), OutputName(job.name)))
        case None => None
  }

  // An argument meant for sbatch: written as it is, an option with a quoted value, or a path.
  datatype Arg = Fixed(text: string) | Valued(option: string, value: string) | PathArg(path: string)

  function ArgValue(arg: Arg): string {
    match arg
    case Fixed(text) => text
    case Valued(option, value) => option + value
    case PathArg(path) => path
  }

  // The word it is to be: options and fixed text unquoted, values quoted when they need it,
  // and paths with their home directory left to the shell.
  function ArgWord(arg: Arg): Word {
    match arg
    case Fixed(text) => Marked(text, false)
    case Valued(option, value) => Marked(option, false) + Marked(value, NeedsQuotes(value))
    case PathArg(path) => PathWord(path)
  }

  function WrapValue(command: Command): string {
    match command
    case Line(text) => text
    case Argv(words) => Join(words)
  }

  predicate Runs(command: Option<Command>) {
    command.Some? && match command.value case Line(text) => text != "" case Argv(words) => words != []
  }

  // What the job runs: a script path wins over a command, and an empty one counts as absent.
  function Payload(job: Job): Option<Arg> {
    if job.script.Some? && job.script.value != "" then Some(PathArg(job.script.value))
    else if Runs(job.command) then Some(Valued("--wrap=", WrapValue(job.command.value)))
    else None
  }

  // "auto" stands for the account of the context.
  function ResolveAccount(account: Option<string>, ofContext: Option<string>): Option<string> {
    if account == Some("auto") then ofContext else account
  }

  function OptionText(option: (string, string)): string {
    "--" + option.0 + "=" + option.1
  }

  function OptionArgs(options: seq<(string, string)>): seq<Arg> {
    seq(|options|, i requires 0 <= i < |options| => Fixed(OptionText(options[i])))
  }

  function PathArgs(job: Job): seq<Arg>
    requires StdoutPath(job).Some?
  {
    [Fixed("sbatch"), Valued("--job-name=", job.name)]
    + [Fixed("--output"), PathArg(StdoutPath(job).value)]
    + (if job.stderr.Some? then [Fixed("--error"), PathArg(job.stderr.value)] else [])
    + (if job.workingDirectory.Some? then [Fixed("--chdir"), PathArg(job.workingDirectory.value)] else [])
  }

  function LimitArgs(job: Job, account: Option<string>): seq<Arg> {
    (if job.timeLimit.Some? then [Fixed("--time=" + job.timeLimit.value)] else [])
    + (if account.Some? then [Fixed("--account=" + account.value)] else [])
  }

  // The arguments sbatch is meant to receive.
  function IntendedArgs(job: Job, ofContext: Option<string>): seq<Arg>
    requires StdoutPath(job).Some? && Payload(job).Some?
  {
    PathArgs(job) + LimitArgs(job, ResolveAccount(job.account, ofContext)) + OptionArgs(job.options) + [Payload(job).value]
  }

  predicate Usable(job: Job) {
    && (job.workingDirectory.Some? ==> Absolute(job.workingDirectory.value) || LooksLikeHome(job.workingDirectory.value))
    && (job.submissionDirectory.Some? ==> Absolute(job.submissionDirectory.value))
    && (job.workingDirectory.None? && job.script.Some? ==> Absolute(job.script.value))
    && StdoutPath(job).Some?
    && Payload(job).Some?
  }

  // Each rejection names something that is wrong with the job.
  predicate Explains(problem: Problem, job: Job) {
    match problem
    case WorkingDirectoryNotAbsolute =>
      job.workingDirectory.Some? && !Absolute(job.workingDirectory.value) && !LooksLikeHome(job.workingDirectory.value)
    case SubmissionDirectoryNotAbsolute => job.submissionDirectory.Some? && !Absolute(job.submissionDirectory.value)
    case ScriptNotAbsolute => job.workingDirectory.None? && job.script.Some? && !Absolute(job.script.value)
    case NoStdoutPath => job.stdout.None? && job.workingDirectory.None? && job.script.None?
    case NothingToRun => Payload(job).None?
  }

  ghost predicate Plain(text: string) {
    forall c | c in text :: !Special(c)
  }

  // The values that go onto the line unquoted.
  ghost predicate PlainOptions(job: Job, ofContext: Option<string>) {
    && (job.timeLimit.Some? ==> Plain(job.timeLimit.value))
    && (ResolveAccount(job.account, ofContext).Some? ==> Plain(ResolveAccount(job.account, ofContext).value))
    && PlainTexts(job.options)
  }

  ghost predicate PlainTexts(options: seq<(string, string)>) {
    forall i | 0 <= i < |options| :: Plain(OptionText(options[i]))
  }

  // Parts of the line that are to be read as these arguments.
  ghost predicate Renders(parts: seq<string>, args: seq<Arg>) {
    && |parts| == |args|
    && forall i | 0 <= i < |parts| :: Reads(parts[i], ArgWord(args[i]))
  }

  function ArgWords(args: seq<Arg>): seq<Word> {
    seq(|args|, i requires 0 <= i < |args| => ArgWord(args[i]))
  }

  function Argv(args: seq<Arg>): seq<string> {
    seq(|args|, i requires 0 <= i < |args| => ArgValue(args[i]))
  }

  lemma ArgWordValue(arg: Arg)
    ensures Value(ArgWord(arg)) == ArgValue(arg)
  {
    if arg.PathArg? {
      QuotePathIsOneWord(arg.path);
    }
  }

  lemma RendersLine(parts: seq<string>, args: seq<Arg>)
    requires Renders(parts, args)
    ensures Words(JoinParts(parts)) == Some(ArgWords(args)) && Values(ArgWords(args)) == Argv(args)
  {
    JoinedReads(parts, ArgWords(args));
    forall i | 0 <= i < |args|
      ensures Value(ArgWord(args[i])) == ArgValue(args[i])
    {
      ArgWordValue(args[i]);
    }
  }

  lemma PathOptionsArePlain()
    ensures Plain("sbatch") && Plain("--job-name=") && Plain("--output") && Plain("--error") && Plain("--chdir")
  {
  }

  lemma RawOptionsArePlain()
    ensures Plain("--time=") && Plain("--account=") && Plain("--wrap=")
  {
  }

  lemma FixedReads(option: string, text: string)
    requires option != "" && option[0] != '#' && Plain(option) && Plain(text)
    ensures Reads(option + text, ArgWord(Fixed(option + text)))
  {
    PlainReads(option + text);
  }

  lemma ValuedReads(option: string, value: string)
    requires option != "" && option[0] != '#' && Plain(option)
    ensures Reads(option + Quote(value), ArgWord(Valued(option, value)))
  {
    PrefixedQuoteReads(option, value);
  }

  lemma PathArgReads(option: string, path: string)
    requires option != "" && option[0] != '#' && Plain(option)
    ensures Renders([option, QuotePath(path)], [Fixed(option), PathArg(path)])
  {
    PlainReads(option);
    PathReads(path);
  }

  lemma NameRenders(name: string)
    ensures Renders(["sbatch", "--job-name=" + Quote(name)], [Fixed("sbatch"), Valued("--job-name=", name)])
  {
    PathOptionsArePlain();
    PlainReads("sbatch");
    ValuedReads("--job-name=", name);
  }

  lemma RendersBoth(parts: seq<string>, args: seq<Arg>, parts': seq<string>, args': seq<Arg>)
    requires Renders(parts, args) && Renders(parts', args')
    ensures Renders(parts + parts', args + args')
  {
  }

  // The validation of the paths, and the output path.
  method ResolveStdout(job: Job) returns (problem: Option<Problem>, stdoutPath: string)
    ensures problem.Some? ==> Explains(problem.value, job) && !Usable(job)
    ensures problem.None? ==> (Usable(job) <==> Payload(job).Some?) && StdoutPath(job) == Some(stdoutPath)
  {
    stdoutPath := "";
    if job.workingDirectory.Some? {
      if !Absolute(job.workingDirectory.value) && !LooksLikeHome(job.workingDirectory.value) {
        return Some(WorkingDirectoryNotAbsolute), stdoutPath;
      }
    }
    if job.submissionDirectory.Some? && !Absolute(job.submissionDirectory.value) {
      return Some(SubmissionDirectoryNotAbsolute), stdoutPath;
    }
    if job.workingDirectory.None? && job.script.Some? && !Absolute(job.script.value) {
      return Some(ScriptNotAbsolute), stdoutPath;
    }
    if job.stdout.Some? {
      stdoutPath := job.stdout.value;
    } else if job.workingDirectory.Some? {
      stdoutPath := JoinPath(job.workingDirectory.value, OutputName(job.name));
    } else if job.script.Some? {
      stdoutPath := JoinPath(Parent(job.script.value), OutputName(job.name));
    } else {
      return Some(NoStdoutPath), stdoutPath;
    }
    problem := None;
  }

  // The name and the paths.
  method PathParts(job: Job, stdoutPath: string) returns (parts: seq<string>)
    requires StdoutPath(job) == Some(stdoutPath)
    ensures Renders(parts, PathArgs(job))
  {
    PathOptionsArePlain();
    parts := ["sbatch", "--job-name=" + Quote(job.name)] + ["--output", QuotePath(stdoutPath)];
    ghost var args := [Fixed("sbatch"), Valued("--job-name=", job.name)] + [Fixed("--output"), PathArg(stdoutPath)];
    NameRenders(job.name);
    PathArgReads("--output", stdoutPath);
    if job.stderr.Some? {
      PathArgReads("--error", job.stderr.value);
      RendersBoth(parts, args, ["--error", QuotePath(job.stderr.value)], [Fixed("--error"), PathArg(job.stderr.value)]);
      parts := parts + ["--error", QuotePath(job.stderr.value)];
      args := args + [Fixed("--error"), PathArg(job.stderr.value)];
    }
    if job.workingDirectory.Some? {
      var wd := job.workingDirectory.value;
      PathArgReads("--chdir", wd);
      RendersBoth(parts, args, ["--chdir", QuotePath(wd)], [Fixed("--chdir"), PathArg(wd)]);
      parts := parts + ["--chdir", QuotePath(wd)];
      args := args + [Fixed("--chdir"), PathArg(wd)];
    }
    assert args == PathArgs(job);
  }

  // The further options, put on the line as they are.
  method OptionParts(options: seq<(string, string)>) returns (parts: seq<string>)
    ensures PlainTexts(options) ==> Renders(parts, OptionArgs(options))
  {
    parts := [];
    for i := 0 to |options|
      invariant PlainTexts(options) ==> Renders(parts, OptionArgs(options[..i]))
    {
      var text := OptionText(options[i]);
      if PlainTexts(options) {
        PlainReads(text);
        RendersBoth(parts, OptionArgs(options[..i]), [text], [Fixed(text)]);
      }
      assert OptionArgs(options[..i + 1]) == OptionArgs(options[..i]) + [Fixed(text)];
      parts := parts + [text];
    }
    assert options[..|options|] == options;
  }

  // The time limit and the account, put on the line as they are.
  method LimitParts(job: Job, account: Option<string>) returns (parts: seq<string>)
    ensures (job.timeLimit.Some? ==> Plain(job.timeLimit.value)) && (account.Some? ==> Plain(account.value)) ==>
      Renders(parts, LimitArgs(job, account))
  {
    RawOptionsArePlain();
    parts := [];
    if job.timeLimit.Some? {
      parts := parts + ["--time=" + job.timeLimit.value];
      if Plain(job.timeLimit.value) {
        FixedReads("--time=", job.timeLimit.value);
      }
    }
    if account.Some? {
      parts := parts + ["--account=" + account.value];
      if Plain(account.value) {
        FixedReads("--account=", account.value);
      }
    }
  }

  // The construction of the command line. A job is accepted exactly when it is usable, a
  // rejection names something wrong with it, and when the values that are not quoted are
  // plain the shell reads the line as exactly the intended arguments.
  method BuildLine(job: Job, ofContext: Option<string>) returns (r: Built)
    ensures r.Sbatch? <==> Usable(job)
    ensures r.Rejected? ==> Explains(r.problem, job)
    ensures r.Sbatch? && PlainOptions(job, ofContext) ==>
      && Words(r.line) == Some(ArgWords(IntendedArgs(job, ofContext)))
      && Values(ArgWords(IntendedArgs(job, ofContext))) == Argv(IntendedArgs(job, ofContext))
  {
    var problem, stdoutPath := ResolveStdout(job);
    if problem.Some? {
      return Rejected(problem.value);
    }
    var parts := PathParts(job, stdoutPath);
    var account := ResolveAccount(job.account, ofContext);
    var limits := LimitParts(job, account);
    var options := OptionParts(job.options);
    var last;
    if job.script.Some? && job.script.value != "" {
      last := QuotePath(job.script.value);
      PathReads(job.script.value);
    } else if Runs(job.command) {
      var wrapValue := match job.command.value case Line(text) => text case Argv(words) => Join(words);
      last := "--wrap=" + Quote(wrapValue);
      ValuedReads("--wrap=", wrapValue);
    } else {
      return Rejected(NothingToRun);
    }
    if PlainOptions(job, ofContext) {
      RendersBoth(parts, PathArgs(job), limits, LimitArgs(job, account));
      RendersBoth(parts + limits, PathArgs(job) + LimitArgs(job, account), options, OptionArgs(job.options));
      RendersBoth(parts + limits + options, PathArgs(job) + LimitArgs(job, account) + OptionArgs(job.options),
                  [last], [Payload(job).value]);
      RendersLine(parts + limits + options + [last], IntendedArgs(job, ofContext));
    }
    r := Sbatch(JoinParts(parts + limits + options + [last]));
  }

  // The second level: what the job's own shell makes of the --wrap value is the user's list
  // of arguments, for every list of strings.
  lemma WrapRoundTrip(job: Job, words: seq<string>)
    requires Payload(job).Some? && !Payload(job).value.PathArg? && job.command == Some(Command.Argv(words))
    ensures var value := ArgValue(Payload(job).value);
      && value[..7] == "--wrap="
      && Words(value[7..]) == Some(ArgvWords(words)) && Values(ArgvWords(words)) == words
  {
    JoinRoundTrip(words);
    assert ("--wrap=" + Join(words))[7..] == Join(words);
  }
}
