/** The command tree: a command knows its name, usage and description,
    holds its subcommands by name and points back to its parent. A call
    first looks up one level of subcommand in the parameters, then lets the
    option parser of the command it found consume them, then runs that
    command. */
module Commands {
  import opened Strings
  import opened Docs

  /** What the option parser in use for a command makes of the parameters.
      The parsers themselves are foreign (pflag for a command that declares
      flags, the utils argument parser for one that does not); a command
      carries the one it uses as a function. `terminated` is the minimal
      parser's report that a `--` ended the options. */
  datatype ParseOutcome =
    | Parsed(rest: seq<string>, terminated: bool)
    | HelpRequested
    | ParseFailed(message: string)

  /** The errors a call returns: a formatted error, or the request for help
      that carries the synopsis to show. */
  datatype Error = Errorf(message: string) | ErrHelp(message: string)

  /** What came of a call: the command whose run callback was invoked, the
      error returned before any callback ran, or the runtime panic of
      invoking a command that has no run callback. */
  datatype Outcome = Ran(command: Command) | Failed(err: Error) | Panicked(command: Command)

  /** Invoking the run callback of `c`: a panic when it has none. */
  function RunOutcome(c: Command): Outcome
    reads c
  {
    if c.Runnable() then Ran(c) else Panicked(c)
  }

  /** The error for a subcommand name that no child carries. */
  function UnknownSubcommand(name: string): (e: Error)
    ensures e.Errorf? && e.message == "error: Unknown subcommand: " + name
  {
    Errorf("error: Unknown subcommand: " + name)
  }

  /** `args.HasSubcommand()`: there is a first parameter and it does not
      look like a flag. */
  predicate StartsWithSubcommand(params: seq<string>) {
    |params| > 0 && !(|params[0]| > 0 && params[0][0] == '-')
  }

  /** What `parseArguments` does to the parameters and the terminator mark,
      given what the parser made of them and the synopsis of the command. */
  datatype ParseEffect = ParseEffect(err: Option<Error>, params: seq<string>, terminator: bool)

  /** The effect of `parseArguments`. A command without flags takes the
      positionals and the terminator mark from the minimal parser. A command
      with flags takes the positionals from pflag and scans the parameters
      itself for a literal `--`, which can set the mark but never clears it.
      Help and failures leave the parameters alone and carry the synopsis. */
  function ParseArgumentsEffect(hasFlags: bool, outcome: ParseOutcome, params: seq<string>,
                                terminator: bool, synopsis: string): (e: ParseEffect)
    ensures e.err.Some? <==> !outcome.Parsed?
    ensures e.err.Some? ==> e.params == params && e.terminator == terminator
    ensures outcome.HelpRequested? ==> e.err == Some(ErrHelp(synopsis))
    ensures outcome.ParseFailed? ==> e.err == Some(Errorf(outcome.message + "\n" + synopsis))
    ensures outcome.Parsed? ==> e.params == outcome.rest
    ensures outcome.Parsed? && hasFlags ==> (e.terminator <==> terminator || "--" in params)
    ensures outcome.Parsed? && !hasFlags ==> e.terminator == outcome.terminated
  {
    match outcome
    case ParseFailed(m) => ParseEffect(Some(Errorf(m + "\n" + synopsis)), params, terminator)
    case HelpRequested => ParseEffect(Some(ErrHelp(synopsis)), params, terminator)
    case Parsed(rest, terminated) =>
      if hasFlags then ParseEffect(None, rest, terminator || "--" in params)
      else ParseEffect(None, rest, terminated)
  }

  /** The parameters of one invocation, consumed from the front as the call
      proceeds, and whether a `--` ended the options. */
  class Args {
    var params: seq<string>
    var terminator: bool

    constructor (params: seq<string>)
      ensures this.params == params && !terminator
    {
      this.params := params;
      terminator := false;
    }

    predicate HasSubcommand()
      reads this
    {
      StartsWithSubcommand(params)
    }

    function FirstParam(): string
      reads this
      requires |params| > 0
    {
      params[0]
    }
  }

  class Command {
    var key: string
    var usage: string
    var long: string
    var gitExtension: bool
    /** The command has a run callback. */
    var hasRun: bool
    /** The command's flag set declares at least one flag. */
    var hasFlags: bool
    /** The option parser the command uses. */
    var parser: seq<string> -> ParseOutcome
    var subCommands: map<string, Command>
    var parentCommand: Command?

    constructor (key: string, usage: string, long: string, gitExtension: bool,
                 hasRun: bool, hasFlags: bool, parser: seq<string> -> ParseOutcome)
      ensures this.key == key && this.usage == usage && this.long == long
      ensures this.gitExtension == gitExtension && this.hasRun == hasRun
      ensures this.hasFlags == hasFlags && this.parser == parser
      ensures subCommands == map[] && parentCommand == null
    {
      this.key := key;
      this.usage := usage;
      this.long := long;
      this.gitExtension := gitExtension;
      this.hasRun := hasRun;
      this.hasFlags := hasFlags;
      this.parser := parser;
      subCommands := map[];
      parentCommand := null;
    }

    /** The name the command is called by: its key, or else the first word
        of its trimmed usage. */
    function Name(): (r: string)
      reads this`key, this`usage
      ensures key != "" ==> r == key
      ensures key == "" ==> IsFirstWord(r, TrimSpace(usage))
    {
      NameOf(key, usage)
    }

    predicate Runnable()
      reads this
    {
      hasRun
    }

    /** The synopsis of the command, from its own usage, or from its parent's
        when its own is empty. Only the parent is consulted, never a
        grandparent. */
    function Synopsis(): (r: string)
      reads this, parentCommand
      ensures usage != "" ==> r == SynopsisOf(usage)
      ensures usage == "" && parentCommand != null ==> r == SynopsisOf(parentCommand.usage)
      ensures usage == "" && (parentCommand == null || parentCommand.usage == "") ==> r == ""
    {
      SynopsisOfEmpty();
      if usage == "" && parentCommand != null then SynopsisOf(parentCommand.usage)
      else SynopsisOf(usage)
    }

    /** The error reporting a misuse: the message, then the synopsis. */
    function UsageError(msg: string): (e: Error)
      reads this, parentCommand
      ensures e.Errorf?
      ensures msg == "" ==> e.message == Synopsis()
      ensures msg != "" ==> e.message == msg + "\n" + Synopsis()
    {
      Errorf(UsageErrorMessage(msg, Synopsis()))
    }

    /** The manual page of the command, from its own usage and description
        (never the parent's): the title line, the fixed synopsis heading, the
        synopsis block and the rewritten body, line by line. */
    function HelpText(): (r: string)
      reads this
      ensures '\n' !in key ==>
                Split(r, '\n')
                == ["hub-" + Name() + "(1) -- " + SummaryAndBody(long).0, "===", "", "## Synopsis", ""]
                   + Split(HelpUsage(usage), '\n') + Split(HelpBody(SummaryAndBody(long).1), '\n')
    {
      var name := Name();
      if '\n' in name then HelpTextOf(name, usage, long)
      else
        HelpTextLines(name, usage, long);
        HelpTextOf(name, usage, long)
    }

    /** Adds `sub` as a child under its name, replacing any child of that
        name, and makes this command its parent. */
    method Use(sub: Command)
      modifies this`subCommands, sub`parentCommand
      ensures subCommands == old(subCommands)[sub.Name() := sub]
      ensures subCommands.Keys == old(subCommands).Keys + {sub.Name()}
      ensures sub.parentCommand == this
    {
      var name := sub.Name();
      subCommands := subCommands[name := sub];
      sub.parentCommand := this;
      assert name == sub.Name();
    }

    /** One step of subcommand lookup. When the command has children and the
        parameters start with a subcommand token, a child of that name is
        returned and the token dropped from the parameters, and a name no
        child carries is an error that leaves the parameters alone; in every
        other case the command itself is returned. */
    method LookupSubCommand(args: Args) returns (runCommand: Command?, err: Option<Error>)
      modifies args`params
      ensures |subCommands| > 0 && old(args.HasSubcommand()) && old(args.params)[0] in subCommands ==>
                runCommand == subCommands[old(args.params)[0]] && err == None
                && args.params == old(args.params)[1..]
      ensures |subCommands| > 0 && old(args.HasSubcommand()) && old(args.params)[0] !in subCommands ==>
                runCommand == null && err == Some(UnknownSubcommand(old(args.params)[0]))
                && args.params == old(args.params)
      ensures !(|subCommands| > 0 && old(args.HasSubcommand())) ==>
                runCommand == this && err == None && args.params == old(args.params)
    {
      if |subCommands| > 0 && args.HasSubcommand() {
        var subCommandName := args.FirstParam();
        if subCommandName in subCommands {
          runCommand := subCommands[subCommandName];
          err := None;
          args.params := args.params[1..];
        } else {
          runCommand := null;
          err := Some(UnknownSubcommand(subCommandName));
        }
      } else {
        runCommand := this;
        err := None;
      }
    }

    /** What this command's `parseArguments` does to these parameters and
        this terminator mark. */
    function ParsingEffect(params: seq<string>, terminator: bool): ParseEffect
      reads this, parentCommand
    {
      ParseArgumentsEffect(hasFlags, parser(params), params, terminator, Synopsis())
    }

    /** Lets the command's option parser consume the parameters. */
    method ParseArguments(args: Args) returns (err: Option<Error>)
      modifies args
      ensures var e := ParsingEffect(old(args.params), old(args.terminator));
              err == e.err && args.params == e.params && args.terminator == e.terminator
    {
      var outcome := parser(args.params);
      if !hasFlags {
        match outcome {
          case Parsed(rest, terminated) =>
            args.params := rest;
            args.terminator := terminated;
            err := None;
          case HelpRequested =>
            err := Some(ErrHelp(Synopsis()));
          case ParseFailed(m) =>
            err := Some(Errorf(m + "\n" + Synopsis()));
        }
        return;
      }
      match outcome
      case Parsed(rest, _) =>
        var i := 0;
        while i < |args.params|
          invariant 0 <= i <= |args.params|
          invariant args.params == old(args.params)
          invariant args.terminator <==> old(args.terminator) || "--" in args.params[..i]
        {
          if args.params[i] == "--" {
            args.terminator := true;
          }
          assert args.params[..i + 1] == args.params[..i] + [args.params[i]];
          i := i + 1;
        }
        assert args.params[..i] == args.params;
        args.params := rest;
        err := None;
      case HelpRequested =>
        err := Some(ErrHelp(Synopsis()));
      case ParseFailed(m) =>
        err := Some(Errorf(m + "\n" + Synopsis()));
    }

    /** The parameters start with a subcommand name that no child carries. */
    predicate NamesUnknown(params: seq<string>)
      reads this
    {
      |subCommands| > 0 && StartsWithSubcommand(params) && params[0] !in subCommands
    }

    /** The parameters start with the name of a child. */
    predicate NamesChild(params: seq<string>)
      reads this
    {
      |subCommands| > 0 && StartsWithSubcommand(params) && params[0] in subCommands
    }

    /** The command one step of lookup settles on: the named child, or this
        command. */
    function Target(params: seq<string>): Command
      reads this
    {
      if NamesChild(params) then subCommands[params[0]] else this
    }

    /** The parameters left after one step of lookup. */
    function Remaining(params: seq<string>): seq<string>
      reads this
    {
      if NamesChild(params) then params[1..] else params
    }

    /** Looks up one level of subcommand; on an unknown name returns that
        error before anything is parsed or run. Unless this command (the
        receiver, not the one found) is a git extension, the found command's
        parser then consumes the parameters, and a parse error is returned
        without running anything, with the subcommand token still consumed.
        Finally the found command's run callback is invoked; the state of
        `args` given here is the state that callback is handed. */
    method Call(args: Args) returns (outcome: Outcome)
      modifies args
      ensures NamesUnknown(old(args.params)) ==>
                outcome == Failed(UnknownSubcommand(old(args.params)[0]))
                && args.params == old(args.params) && args.terminator == old(args.terminator)
      ensures !NamesUnknown(old(args.params)) && gitExtension ==>
                outcome == RunOutcome(Target(old(args.params)))
                && args.params == Remaining(old(args.params)) && args.terminator == old(args.terminator)
      ensures !NamesUnknown(old(args.params)) && !gitExtension ==>
                var e := Target(old(args.params)).ParsingEffect(Remaining(old(args.params)), old(args.terminator));
                args.params == e.params && args.terminator == e.terminator
                && outcome == (if e.err.Some? then Failed(e.err.value) else RunOutcome(Target(old(args.params))))
    {
      var runCommand, err := LookupSubCommand(args);
      if err.Some? {
        return Failed(err.value);
      }
      assert runCommand == Target(old(args.params)) && args.params == Remaining(old(args.params));
      if !gitExtension {
        err := runCommand.ParseArguments(args);
        if err.Some? {
          return Failed(err.value);
        }
      }
      outcome := RunOutcome(runCommand);
    }
  }

  /** A parser that accepts every parameter as a positional. */
  function AcceptAll(params: seq<string>): ParseOutcome {
    Parsed(params, false)
  }

  /** A parser that rejects every parameter list. */
  function RejectAll(params: seq<string>): ParseOutcome {
    ParseFailed("unknown flag")
  }

  /** A name no child carries is reported before any parser sees the
      parameters, and the parameters are left as they were. */
  method UnknownSubcommandIsReported() returns (outcome: Outcome, rest: seq<string>)
    ensures outcome == Failed(UnknownSubcommand("bad"))
    ensures rest == ["bad", "-x"]
  {
    var root := new Command("hub", "", "", false, true, false, RejectAll);
    var good := new Command("good", "", "", false, true, false, AcceptAll);
    root.Use(good);
    var args := new Args(["bad", "-x"]);
    assert root.subCommands == map["good" := good];
    assert StartsWithSubcommand(args.params) && args.params[0] !in root.subCommands;
    outcome := root.Call(args);
    rest := args.params;
  }

  /** A receiver that is a git extension skips option parsing, so a parser
      that would reject the parameters never runs. */
  method GitExtensionSkipsParsing() returns (outcome: Outcome, rest: seq<string>)
    ensures outcome.Ran? && rest == ["--bogus", "x"]
  {
    var root := new Command("hub", "", "", true, true, true, RejectAll);
    var args := new Args(["--bogus", "x"]);
    outcome := root.Call(args);
    rest := args.params;
  }

  /** A parse failure of the subcommand found is returned without running
      anything, and the subcommand token stays consumed. */
  method ParseFailureKeepsTokenConsumed() returns (outcome: Outcome, rest: seq<string>)
    ensures outcome == Failed(Errorf("unknown flag" + "\n"))
    ensures rest == ["-x"]
  {
    var root := new Command("hub", "", "", false, true, false, AcceptAll);
    var sub := new Command("sub", "", "", false, true, true, RejectAll);
    root.Use(sub);
    var args := new Args(["sub", "-x"]);
    assert root.subCommands == map["sub" := sub];
    assert root.NamesChild(args.params) && !root.NamesUnknown(args.params);
    assert root.Target(args.params) == sub && root.Remaining(args.params) == ["-x"];
    assert sub.Synopsis() == "";
    assert sub.parser(["-x"]) == ParseFailed("unknown flag");
    assert "unknown flag" + "\n" + "" == "unknown flag" + "\n";
    assert sub.ParsingEffect(["-x"], false).err == Some(Errorf("unknown flag" + "\n"));
    outcome := root.Call(args);
    rest := args.params;
  }

  /** A literal `--` among the parameters of a command with flags marks the
      options as terminated, whatever pflag made of them. */
  method DoubleDashSetsTerminator() returns (outcome: Outcome, terminated: bool)
    ensures outcome.Ran? && terminated
  {
    var root := new Command("hub", "", "", false, true, true, AcceptAll);
    var args := new Args(["a", "--", "-b"]);
    outcome := root.Call(args);
    terminated := args.terminator;
  }

  /** Registering a second child under a name already taken replaces the
      first; both children still point at the parent. */
  method UseReplacesSameName() returns (found: Command, first: Command, second: Command)
    ensures found == second && found != first
    ensures first.parentCommand == second.parentCommand
  {
    var root := new Command("hub", "", "", false, true, false, AcceptAll);
    first := new Command("sub", "", "", false, true, false, AcceptAll);
    second := new Command("sub", "", "", false, false, false, AcceptAll);
    root.Use(first);
    root.Use(second);
    found := root.subCommands["sub"];
  }
}
