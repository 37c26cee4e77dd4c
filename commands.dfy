/** `process_command`: one command line, with the session's current directory,
    becomes a response text and the next current directory. The shell lexer,
    the file system and the external programs are collaborators; they are the
    fields of a `World`. */
module Commands {
  import opened Wrappers
  import opened Strings
  import opened Paths
  import opened Sanitizer

  /** What `Command::output` gave back for a spawned program. */
  datatype ProcessOutcome =
    | Success(stdout: string)     // exit status zero; stdout as decoded text
    | NonZero(stderr: string)     // exit status non-zero; stderr as decoded text
    | NotFound                    // spawning failed with `ErrorKind::NotFound`
    | OtherErr(message: string)   // spawning failed otherwise; the error as displayed

  /** A program to spawn: its name, its working directory and its arguments. */
  datatype Invocation = Invocation(program: string, dir: Path, args: seq<string>)

  /** The collaborators of one command, as seen when it runs. */
  datatype World = World(
    split: string -> Option<seq<string>>,   // `shlex::split`; `None` for unclosed quotes or bad escapes
    canonicalize: Path -> Option<Path>,     // `Path::canonicalize`; `None` when it fails
    isDir: Path -> bool,                    // `Path::is_dir`
    homeDir: Option<Path>,                  // `dirs::home_dir()`
    run: Invocation -> ProcessOutcome)      // spawning the program and waiting for it

  /** The pair `process_command` returns. */
  datatype Reply = Reply(response: string, newCwd: Path)

  /** The command words with a branch of their own. */
  const Builtins: set<string> :=
    {"help", "cd", "pwd", "ls", "whoami", "echo", "about", "birthday", "heyeuuu", "creeper", ""}

  const InvalidFormat: string := "Error: Invalid command format (unclosed quotes or invalid escapes).\r\n"
  const NoHomeDirectory: string := "Error: Could not find home directory.\r\n"
  const AboutText: string :=
    "This is the Rust Axum backend for your Web terminal.\r\nIt handles commands sent via WebSocket.\r\n"
  const BirthdayText: string := "Happy Birthday ohhhhhyeahhhhhhh! \U{1F389}\U{1F382}"
  const HeyeuuuText: string := "suki~~~Bless for sheeeeee~"
  const CreeperText: string := "suki~"

  /** The terminal colour codes the help text is written with. */
  const ColourOn: string := "\U{1B}[32m"
  const ColourOff: string := "\U{1B}[0m"

  /** One line of the help text: a green command name, then its description. */
  function HelpLine(name: string, rest: string): string {
    ColourOn + "  " + name + ColourOff + rest
  }

  const HelpHeader: string := "\r\nAvailable Commands (handled by backend):\r\n"

  const HelpText: string :=
    HelpHeader
    + HelpLine("help", "        - Show list of available commands\r\n")
    + HelpLine("echo <text>", " - Echoes the text you provide\r\n")
    + HelpLine("about", "       - About this backend\r\n")
    + HelpLine("pwd", "         - Prints working directory\r\n")
    + HelpLine("ls", "          - List directory contents\r\n")
    + HelpLine("cd <path>", "   - Change current directory\r\n")
    + HelpLine("whoami", "      - Print the user name associated with the current effective user ID\r\n")

  function InvalidPath(target: string): string {
    "Error: Path '" + target + "' is invalid or does not exist.\r\n"
  }

  function NotADirectory(target: string): string {
    "Error: " + target + " is not a directory or does not exist.\r\n"
  }

  function ExecutionError(cmd: string, stderr: string): string {
    "Error executing " + cmd + ": " + stderr + "\r\n"
  }

  function CommandNotFound(cmd: string): string {
    "Error: Command '" + cmd + "' not found. Is it installed and in your PATH?\r\n"
  }

  function FailedToExecute(cmd: string, message: string): string {
    "Failed to execute " + cmd + " command: " + message + "\r\n"
  }

  function UnknownCommand(line: string): string {
    "Unknown command: " + line + "\r\n"
  }

  /** The path `cd` tries: an absolute target as given, a relative one joined
      to the current directory. */
  function Resolve(cwd: Path, target: string): Path {
    if IsAbsolute(target) then target else JoinPath(cwd, target)
  }

  /** The `cd` branch. */
  function ChangeDirectory(args: seq<string>, cwd: Path, w: World): Reply {
    if args == [] then
      match w.homeDir
      case Some(home) => Reply("", home)
      case None => Reply(NoHomeDirectory, cwd)
    else
      var target := args[0];
      match w.canonicalize(Resolve(cwd, target))
      case Some(canonical) =>
        if w.isDir(canonical) then Reply("", canonical) else Reply(NotADirectory(target), cwd)
      case None => Reply(InvalidPath(target), cwd)
  }

  /** The response of the `ls` and `whoami` branch for what the program did. */
  function DescribeOutcome(cmd: string, outcome: ProcessOutcome): string {
    match outcome
    case Success(stdout) => CleanOutput(stdout)
    case NonZero(stderr) => CleanOutput(ExecutionError(cmd, stderr))
    case NotFound => CommandNotFound(cmd)
    case OtherErr(message) => FailedToExecute(cmd, message)
  }

  /** The `match` on the lower-cased command word. */
  function Execute(cmd: string, args: seq<string>, line: string, cwd: Path, w: World): Reply {
    match cmd
    case "help" => Reply(HelpText, cwd)
    case "cd" => ChangeDirectory(args, cwd, w)
    case "pwd" => Reply(cwd + "\r\n", cwd)
    case "ls" => Reply(DescribeOutcome(cmd, w.run(Invocation(cmd, cwd, args))), cwd)
    case "whoami" => Reply(DescribeOutcome(cmd, w.run(Invocation(cmd, cwd, args))), cwd)
    case "echo" => Reply(Join(args, " ") + "\r\n", cwd)
    case "about" => Reply(AboutText, cwd)
    case "birthday" => Reply(BirthdayText, cwd)
    case "heyeuuu" => Reply(HeyeuuuText, cwd)
    case "creeper" => Reply(CreeperText, cwd)
    case "" => Reply("", cwd)
    case _ => Reply(UnknownCommand(line), cwd)
  }

  /** `process_command` as a function of the (trimmed) line, the current
      directory and the collaborators. */
  function Dispatch(line: string, cwd: Path, w: World): Reply {
    match w.split(line)
    case None => Reply(InvalidFormat, cwd)
    case Some(parts) =>
      if parts == [] then Reply("", cwd) else Execute(Lower(parts[0]), parts[1..], line, cwd, w)
  }

  /** `process_command`, step by step: two early returns, then one branch per
      command word that sets the response and possibly the new directory; the
      `ls`/`whoami` branch adds the arguments to the program one at a time. */
  method ProcessCommand(line: string, cwd: Path, w: World) returns (response: string, newCwd: Path)
    ensures Reply(response, newCwd) == Dispatch(line, cwd, w)
  {
    var parsed := w.split(line);
    if parsed.None? {
      return InvalidFormat, cwd;
    }
    var parts := parsed.value;
    if parts == [] {
      return "", cwd;
    }
    var cmd := Lower(parts[0]);
    var args := parts[1..];
    newCwd := cwd;
    match cmd {
      case "help" =>
        response := HelpText;
      case "cd" =>
        if args == [] {
          if w.homeDir.Some? {
            newCwd := w.homeDir.value;
            response := "";
          } else {
            response := NoHomeDirectory;
          }
        } else {
          var target := args[0];
          var resolved := if IsAbsolute(target) then target else JoinPath(cwd, target);
          var canonical := w.canonicalize(resolved);
          if canonical.Some? {
            if w.isDir(canonical.value) {
              newCwd := canonical.value;
              response := "";
            } else {
              response := NotADirectory(target);
            }
          } else {
            response := InvalidPath(target);
          }
        }
      case "pwd" =>
        response := cwd + "\r\n";
      case "ls" | "whoami" =>
        var command := Invocation(cmd, cwd, []);
        for i := 0 to |args|
          invariant command == Invocation(cmd, cwd, args[..i])
        {
          command := command.(args := command.args + [args[i]]);
        }
        assert args[..|args|] == args;
        match w.run(command) {
          case Success(stdout) =>
            response := CleanOutput(stdout);
          case NonZero(stderr) =>
            response := CleanOutput(ExecutionError(cmd, stderr));
          case NotFound =>
            response := CommandNotFound(cmd);
          case OtherErr(message) =>
            response := FailedToExecute(cmd, message);
        }
      case "echo" =>
        response := Join(args, " ") + "\r\n";
      case "about" =>
        response := AboutText;
      case "birthday" =>
        response := BirthdayText;
      case "heyeuuu" =>
        response := HeyeuuuText;
      case "creeper" =>
        response := CreeperText;
      case "" =>
        response := "";
      case _ =>
        response := UnknownCommand(line);
    }
  }

  // ---------------------------------------------------------------------
  // What the dispatcher promises, branch by branch.

  /** A line the lexer rejects gives the fixed format error; a line without
      words gives nothing. Neither changes the directory. */
  lemma EarlyExits(line: string, cwd: Path, w: World)
    ensures w.split(line) == None ==> Dispatch(line, cwd, w) == Reply(InvalidFormat, cwd)
    ensures w.split(line) == Some([]) ==> Dispatch(line, cwd, w) == Reply("", cwd)
  {
  }

  /** The command word is matched without regard to case: two lines whose first
      words differ only in case, followed by the same arguments, get the same
      reply when the word is a builtin and the same directory in any case. */
  lemma VerbIsCaseInsensitive(l1: string, l2: string, v1: string, v2: string, args: seq<string>, cwd: Path, w: World)
    requires w.split(l1) == Some([v1] + args) && w.split(l2) == Some([v2] + args)
    requires |v1| == |v2| && forall i :: 0 <= i < |v1| ==> LowerChar(v1[i]) == LowerChar(v2[i])
    ensures Dispatch(l1, cwd, w).newCwd == Dispatch(l2, cwd, w).newCwd
    ensures Lower(v1) in Builtins ==> Dispatch(l1, cwd, w) == Dispatch(l2, cwd, w)
  {
    LowerEqualIff(v1, v2);
    DispatchWords(l1, v1, args, cwd, w);
    DispatchWords(l2, v2, args, cwd, w);
    ExecuteIgnoresLine(Lower(v1), args, l1, l2, cwd, w);
  }

  /** A line the lexer splits into words is handled by the branch of its
      lower-cased first word, with the other words as arguments. */
  lemma DispatchWords(line: string, v: string, args: seq<string>, cwd: Path, w: World)
    requires w.split(line) == Some([v] + args)
    ensures Dispatch(line, cwd, w) == Execute(Lower(v), args, line, cwd, w)
  {
    assert ([v] + args)[1..] == args;
  }

  /** Only the reply to an unknown word mentions the line itself. */
  lemma ExecuteIgnoresLine(cmd: string, args: seq<string>, l1: string, l2: string, cwd: Path, w: World)
    ensures Execute(cmd, args, l1, cwd, w).newCwd == Execute(cmd, args, l2, cwd, w).newCwd
    ensures cmd in Builtins ==> Execute(cmd, args, l1, cwd, w) == Execute(cmd, args, l2, cwd, w)
  {
  }

  /** A word that is not a builtin gets the whole line echoed back as unknown. */
  lemma UnknownCommandReply(line: string, v: string, args: seq<string>, cwd: Path, w: World)
    requires w.split(line) == Some([v] + args) && Lower(v) !in Builtins
    ensures Dispatch(line, cwd, w) == Reply(UnknownCommand(line), cwd)
  {
    DispatchWords(line, v, args, cwd, w);
  }

  /** `pwd` prints the current directory and a line end, whatever its arguments. */
  lemma PwdReply(line: string, v: string, args: seq<string>, cwd: Path, w: World)
    requires w.split(line) == Some([v] + args) && Lower(v) == "pwd"
    ensures Dispatch(line, cwd, w) == Reply(cwd + "\r\n", cwd)
  {
    DispatchWords(line, v, args, cwd, w);
  }

  /** `help` prints the help text whatever follows the word, and stays. */
  lemma HelpReply(line: string, v: string, args: seq<string>, cwd: Path, w: World)
    requires w.split(line) == Some([v] + args) && Lower(v) == "help"
    ensures Dispatch(line, cwd, w) == Reply(HelpText, cwd)
  {
    DispatchWords(line, v, args, cwd, w);
  }

  /** `about`, the three greetings and the empty word print fixed texts,
      whatever follows them, and stay. */
  lemma FixedReplies(line: string, v: string, args: seq<string>, cwd: Path, w: World)
    requires w.split(line) == Some([v] + args)
    ensures Lower(v) == "about" ==> Dispatch(line, cwd, w) == Reply(AboutText, cwd)
    ensures Lower(v) == "birthday" ==> Dispatch(line, cwd, w) == Reply(BirthdayText, cwd)
    ensures Lower(v) == "heyeuuu" ==> Dispatch(line, cwd, w) == Reply(HeyeuuuText, cwd)
    ensures Lower(v) == "creeper" ==> Dispatch(line, cwd, w) == Reply(CreeperText, cwd)
    ensures Lower(v) == "" ==> Dispatch(line, cwd, w) == Reply("", cwd)
  {
    DispatchWords(line, v, args, cwd, w);
  }

  /** `echo` prints its arguments separated by single spaces and a line end;
      when no argument holds a space, the arguments can be read back by
      splitting the printed text at its spaces. */
  lemma EchoReply(line: string, v: string, args: seq<string>, cwd: Path, w: World)
    requires w.split(line) == Some([v] + args) && Lower(v) == "echo"
    ensures Dispatch(line, cwd, w) == Reply(Join(args, " ") + "\r\n", cwd)
    ensures args != [] && (forall i :: 0 <= i < |args| ==> ' ' !in args[i]) ==>
      Split(Join(args, " "), ' ') == args
  {
    DispatchWords(line, v, args, cwd, w);
    ExecuteEcho(args, line, cwd, w);
    if args != [] && (forall i :: 0 <= i < |args| ==> ' ' !in args[i]) {
      SplitJoin(args, ' ');
    }
  }

  lemma ExecuteEcho(args: seq<string>, line: string, cwd: Path, w: World)
    ensures Execute("echo", args, line, cwd, w) == Reply(Join(args, " ") + "\r\n", cwd)
  {
  }

  /** Where `cd` looks: an absolute target is taken as it is; a relative one
      extends the current directory by its own components. */
  lemma ResolveTarget(cwd: Path, target: string)
    ensures IsAbsolute(target) ==> Resolve(cwd, target) == target
    ensures !IsAbsolute(target) && cwd != [] ==>
      Components(Resolve(cwd, target)) == Components(cwd) + Normalize(Split(target, Separator))
  {
    if !IsAbsolute(target) && cwd != [] {
      JoinPathComponents(cwd, target);
    }
  }

  /** Bare `cd` goes to the home directory, or reports that there is none. */
  lemma CdWithoutArgument(line: string, v: string, cwd: Path, w: World)
    requires w.split(line) == Some([v]) && Lower(v) == "cd"
    ensures w.homeDir.Some? ==> Dispatch(line, cwd, w) == Reply("", w.homeDir.value)
    ensures w.homeDir.None? ==> Dispatch(line, cwd, w) == Reply(NoHomeDirectory, cwd)
  {
    assert [v] + [] == [v];
    DispatchWords(line, v, [], cwd, w);
  }

  /** `cd p` succeeds, silently, exactly when `p` resolves to a canonical path
      that is a directory, and then moves there; otherwise it reports which of
      the two checks failed and stays. */
  lemma CdWithArgument(line: string, v: string, target: string, rest: seq<string>, cwd: Path, w: World)
    requires w.split(line) == Some([v, target] + rest) && Lower(v) == "cd"
    ensures var r := Dispatch(line, cwd, w);
      var canonical := w.canonicalize(Resolve(cwd, target));
      (r.response == "" <==> canonical.Some? && w.isDir(canonical.value))
      && (r.response == "" ==> r.newCwd == canonical.value)
      && (canonical.None? ==> r == Reply(InvalidPath(target), cwd))
      && (canonical.Some? && !w.isDir(canonical.value) ==> r == Reply(NotADirectory(target), cwd))
  {
    assert [v, target] + rest == [v] + ([target] + rest);
    DispatchWords(line, v, [target] + rest, cwd, w);
  }

  /** Only the first argument of `cd` matters. */
  lemma CdUsesFirstArgumentOnly(l1: string, l2: string, v1: string, v2: string, target: string,
                                rest1: seq<string>, rest2: seq<string>, cwd: Path, w: World)
    requires w.split(l1) == Some([v1, target] + rest1) && w.split(l2) == Some([v2, target] + rest2)
    requires Lower(v1) == "cd" && Lower(v2) == "cd"
    ensures Dispatch(l1, cwd, w) == Dispatch(l2, cwd, w)
  {
    assert [v1, target] + rest1 == [v1] + ([target] + rest1);
    assert [v2, target] + rest2 == [v2] + ([target] + rest2);
    DispatchWords(l1, v1, [target] + rest1, cwd, w);
    DispatchWords(l2, v2, [target] + rest2, cwd, w);
  }

  /** Only `cd` moves, it moves silently, and only to the home directory or to
      a canonical path the file system reports as a directory. */
  lemma DirectoryChangesOnlyByCd(line: string, cwd: Path, w: World)
    ensures var r := Dispatch(line, cwd, w);
      r.newCwd != cwd ==>
        r.response == ""
        && w.split(line).Some? && |w.split(line).value| > 0 && Lower(w.split(line).value[0]) == "cd"
        && (w.homeDir == Some(r.newCwd)
            || (w.isDir(r.newCwd) && exists target :: w.canonicalize(Resolve(cwd, target)) == Some(r.newCwd)))
  {
    var r := Dispatch(line, cwd, w);
    if r.newCwd != cwd {
      var parts := w.split(line).value;
      var args := parts[1..];
      if args != [] {
        var target := args[0];
        if w.homeDir != Some(r.newCwd) {
          assert w.canonicalize(Resolve(cwd, target)) == Some(r.newCwd);
        }
      }
    }
  }

  /** `ls` and `whoami` run the program of that name in the current directory
      with the arguments in order, and turn what it did into the response;
      the directory stays. Output the program produced is already clean, so
      cleaning it again when it is sent changes nothing. */
  lemma ProgramReply(line: string, v: string, args: seq<string>, cwd: Path, w: World)
    requires w.split(line) == Some([v] + args) && Lower(v) in {"ls", "whoami"}
    ensures var cmd := Lower(v);
      var r := Dispatch(line, cwd, w);
      var outcome := w.run(Invocation(cmd, cwd, args));
      r.newCwd == cwd
      && (outcome.Success? ==> r.response == CleanOutput(outcome.stdout))
      && (outcome.NonZero? ==> r.response == CleanOutput(ExecutionError(cmd, outcome.stderr)))
      && (outcome.NotFound? ==> r.response == CommandNotFound(cmd))
      && (outcome.OtherErr? ==> r.response == FailedToExecute(cmd, outcome.message))
      && (outcome.Success? || outcome.NonZero? ==> CleanOutput(r.response) == r.response)
  {
    DispatchWords(line, v, args, cwd, w);
    var outcome := w.run(Invocation(Lower(v), cwd, args));
    match outcome {
      case Success(stdout) => CleanOutputIdempotent(stdout);
      case NonZero(stderr) => CleanOutputIdempotent(ExecutionError(Lower(v), stderr));
      case NotFound =>
      case OtherErr(_) =>
    }
  }

  /** A text whose first or last character is allowed survives cleaning. */
  lemma EdgeSurvives(s: string)
    requires s != [] && (IsAllowed(s[0]) || IsAllowed(s[|s| - 1]))
    ensures CleanOutput(s) != []
  {
    if IsAllowed(s[0]) {
      CleanOutputNonEmpty(s, 0);
    } else {
      CleanOutputNonEmpty(s, |s| - 1);
    }
  }

  /** A non-empty response never cleans to nothing, so every `Output` message
      the session sends carries text. */
  lemma RepliesSurviveCleaning(line: string, cwd: Path, w: World)
    ensures var r := Dispatch(line, cwd, w);
      r.response != [] ==> CleanOutput(r.response) != []
  {
    match w.split(line)
    case None =>
      EdgeSurvives(InvalidFormat);
    case Some(parts) =>
      if parts != [] {
        ExecuteSurvivesCleaning(Lower(parts[0]), parts[1..], line, cwd, w);
      }
  }

  lemma OutcomeSurvivesCleaning(cmd: string, outcome: ProcessOutcome)
    ensures var d := DescribeOutcome(cmd, outcome);
      d != [] ==> CleanOutput(d) != []
  {
    var d := DescribeOutcome(cmd, outcome);
    match outcome
    case Success(stdout) => CleanOutputIdempotent(stdout);
    case NonZero(stderr) => CleanOutputIdempotent(ExecutionError(cmd, stderr));
    case NotFound => EdgeSurvives(d);
    case OtherErr(_) => EdgeSurvives(d);
  }

  lemma ExecuteSurvivesCleaning(cmd: string, args: seq<string>, line: string, cwd: Path, w: World)
    ensures var r := Execute(cmd, args, line, cwd, w);
      r.response != [] ==> CleanOutput(r.response) != []
  {
    var r := Execute(cmd, args, line, cwd, w);
    if cmd == "ls" || cmd == "whoami" {
      OutcomeSurvivesCleaning(cmd, w.run(Invocation(cmd, cwd, args)));
    } else if cmd == "birthday" || cmd == "heyeuuu" || cmd == "creeper" {
      assert IsAllowed(r.response[0]);
      EdgeSurvives(r.response);
    } else if r.response != [] {
      RepliesEndLines(cmd, args, line, cwd, w);
      EdgeSurvives(r.response);
    }
  }

  /** Every reply other than a program's output and the three greetings ends
      with a line end, unless it is empty. */
  lemma RepliesEndLines(cmd: string, args: seq<string>, line: string, cwd: Path, w: World)
    requires cmd !in {"ls", "whoami", "birthday", "heyeuuu", "creeper"}
    ensures var r := Execute(cmd, args, line, cwd, w);
      r.response == [] || r.response[|r.response| - 1] == '\n'
  {
  }

  // ---------------------------------------------------------------------
  // The help text reaches the terminal without its escape characters.

  lemma CleanColourCodes()
    ensures CleanOutput(ColourOn) == "[32m" && CleanOutput(ColourOff) == "[0m"
  {
    assert ColourOn == [Escape] + "[32m";
    assert ColourOff == [Escape] + "[0m";
    CleanOutputAppend([Escape], "[32m");
    CleanOutputAppend([Escape], "[0m");
    CleanOutputFixpoint("[32m");
    CleanOutputFixpoint("[0m");
  }

  /** A help line loses the ESC of both colour codes; what remains of them,
      `[32m` and `[0m`, is shown as text. */
  lemma CleanHelpLine(name: string, rest: string)
    requires AllAllowed(name) && AllAllowed(rest)
    ensures CleanOutput(HelpLine(name, rest)) == "[32m  " + name + "[0m" + rest
  {
    CleanColourCodes();
    CleanOutputFixpoint("  ");
    CleanOutputFixpoint(name);
    CleanOutputFixpoint(rest);
    CleanOutputAppend(ColourOn, "  ");
    CleanOutputAppend(ColourOn + "  ", name);
    CleanOutputAppend(ColourOn + "  " + name, ColourOff);
    CleanOutputAppend(ColourOn + "  " + name + ColourOff, rest);
  }

  /** The help text holds ESC characters, and its cleaned form, which is what
      the session sends, holds none. */
  lemma HelpLosesEscape()
    ensures Escape in HelpText && Escape !in CleanOutput(HelpText)
  {
    assert HelpLine("help", "        - Show list of available commands\r\n")[0] == Escape;
  }
}
