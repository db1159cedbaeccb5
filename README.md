# hub command tree, modelled in Dafny

This project models the command layer of hub, the git wrapper for GitHub,
as implemented in `commands/commands.go`. A `Command` has a key, a usage
template, a long description and a git-extension flag. It holds its
subcommands in a map by name and points back to its parent. The model covers:

- how a command derives its name, its synopsis, the text of a usage error
  and its manual page from those templates;
- how `Use` attaches a child;
- how `Call` dispatches one invocation. It looks up one level of
  subcommand, lets the found command's option parser consume the
  parameters (unless the receiver is a git extension), and then invokes
  the found command's run callback.

The project has three modules:

- `Strings` (`strings.dfy`): the Go `strings` functions the command layer
  relies on. These are `Split` and `Join` on one character, `TrimSpace`
  with Go's `unicode.IsSpace`, `Index`, `Replace` with a count of one, and
  `Replace` of one character everywhere. It also holds their round-trip
  lemmas.
- `Docs` (`docs.dfy`): name, synopsis, usage-error text and manual page as
  pure functions of strings. Each `(?m)`-anchored regular expression of
  `HelpText` is modelled as a rewrite of each line. Each of these patterns
  matches within one line. The definition-list pattern is the exception:
  it also takes the tab that starts the next line, and a line that starts
  with a tab can never start a match itself.
- `Commands` (`commands.dfy`): classes `Command` and `Args`.
  - `Use`, `LookupSubCommand`, `ParseArguments` and `Call` are methods
    that update these objects in place.
  - The scan of `parseArguments` for a literal `--` is a loop with its
    invariant.
  - The option parsers (pflag and hub's own minimal argument parser) are
    foreign. Each command carries the parser it uses as a function from
    parameters to `ParseOutcome`.
  - `Call` returns an `Outcome`:
    - `Ran(c)` when `c`'s run callback is invoked;
    - `Failed(e)` when an error is returned;
    - `Panicked(c)` when `c` has no run callback, which panics in Go.

Behaviour of `commands.go` worth knowing:

- **Subcommand lookup.** `Call` looks up a single level of subcommand
  (`lookupSubCommand` is called once). A grandchild named in the
  parameters is not descended into; its name is left to the child's parser.
- **Git extension.** Parsing is skipped when the *receiver* of `Call` is a
  git extension, whatever the command that was found.
- **Rewrite order.** The body of the manual page is rewritten in this
  order: quotes to backticks, heading colons, one indent level, then
  definition lists. Headings are handled before indents, so an indented
  heading keeps its colon (`Docs.IndentedHeadingKeepsColon`).
- **Idempotence.** Rendering is not idempotent. A heading ending in two
  colons loses one per pass (`Docs.HeadingRewriteNotIdempotent`).
- **Parse errors.** A parse error always puts a line break between the
  parser's message and the synopsis. A usage error adds the line break
  only when its message is non-empty.

## Model

| member | source | states |
|---|---|---|
| Strings.Join | commands/commands.go:146 | no contract of its own; `Strings.JoinSplit` and `Strings.SplitJoin` tie it to `Split` |
| Strings.ReplaceFirst | commands/commands.go:150 | no contract of its own; `Strings.ReplaceFirstSpec` states it |
| Strings.Split | commands/commands.go:139 | at least one piece; no piece holds the separator |
| Strings.JoinSplit | commands/commands.go:157-159 | joining the pieces of a split gives back the text |
| Strings.SplitJoin | commands/commands.go:146 | splitting a join of separator-free pieces gives back the pieces |
| Strings.SplitConcat | commands/commands.go:171 | splitting around a separator splits each side separately |
| Strings.SplitHead | commands/commands.go:178-179 | the first piece is the longest prefix without the separator |
| Strings.SplitNoSep | commands/commands.go:157 | a text without the separator is one piece |
| Strings.SplitAvoids | commands/commands.go:139 | a character missing from the text is missing from every piece |
| Strings.JoinAvoids | commands/commands.go:146 | joining adds nothing but separators |
| Strings.TrimLeft | commands/commands.go:153 | drops exactly the leading white space (a suffix, whose first character is not white space) |
| Strings.TrimRight | commands/commands.go:153 | drops exactly the trailing white space |
| Strings.TrimSpace | commands/commands.go:156 | the result neither starts nor ends with white space |
| Strings.TrimSpaceSlice | commands/commands.go:156 | the result is a slice of the input with only white space cut off either side |
| Strings.TrimSpaceIsSlice | commands/commands.go:156 | the result is the input between the end of the leading white space and the start of the trailing white space |
| Strings.TrimSpaceCutsSpace | commands/commands.go:156 | everything cut off either side is white space |
| Strings.TrimSpaceIdempotent | commands/commands.go:178 | trimming twice equals trimming once |
| Strings.OccursShift | commands/commands.go:150 | occurrences past the first character are the occurrences in the tail |
| Strings.Index | commands/commands.go:150 | the first occurrence of the pattern, or -1 when there is none |
| Strings.ReplaceFirstSpec | commands/commands.go:150 | the first occurrence is replaced; without one the text is unchanged |
| Strings.ReplaceChar | commands/commands.go:162 | every quote becomes a backtick and nothing else changes; none is left |
| Docs.NameOf | commands/commands.go:174-180 | the key when non-empty, else the first word of the first line of the trimmed usage |
| Docs.FirstWordUnique | commands/commands.go:178-179 | the first word of a text is unique, so a keyless name is fixed by its usage |
| Docs.SynopsisLinesSpec | commands/commands.go:139-145 | one line per non-empty usage line, in order, the first behind "Usage:", the rest behind six spaces, then " hub " |
| Docs.NonEmptyLinesFrom | commands/commands.go:140 | the kept lines are non-empty and carry no separator |
| Docs.SynopsisLinesUnbroken | commands/commands.go:141 | no synopsis line holds a line break |
| Docs.SynopsisEmptyIff | commands/commands.go:139-146 | the synopsis is empty exactly when the usage has no non-empty line |
| Docs.SynopsisShape | commands/commands.go:139-146 | the synopsis read line by line: each line is its 11-character prefix followed by the usage line unchanged |
| Docs.SynopsisOfEmpty | commands/commands.go:134-137 | an empty usage gives an empty synopsis |
| Docs.UsageErrorMessage | commands/commands.go:123-129 | the synopsis alone for an empty message, else message, line break, synopsis |
| Docs.UsageErrorLines | commands/commands.go:128 | a usage error reads as the message's lines followed by the synopsis's lines |
| Docs.SummaryAndBody | commands/commands.go:155-160 | the summary holds no line break |
| Docs.SplitMany | commands/commands.go:157 | a split has several pieces exactly when the separator occurs |
| Docs.SummarySplit | commands/commands.go:155-160 | several lines: summary, line break, body rebuild the trimmed description; one line: empty summary, all body |
| Docs.HeadingLine | commands/commands.go:163-164 | a "## " heading of at least one title character ending in a colon loses exactly that colon; any other line is unchanged |
| Docs.IndentLine | commands/commands.go:166-167 | a line starting with a tab loses that one tab; any other line is unchanged |
| Docs.DropColon | commands/commands.go:168 | a term longer than one character ending in a colon loses exactly that colon; otherwise it is unchanged |
| Docs.TermText | commands/commands.go:168-169 | a term exists exactly when the line starts with a character other than '#' or white space; it is the line after a "* " bullet when a term character follows the bullet, else the whole line, minus one trailing colon |
| Docs.TermsDoNotOverlap | commands/commands.go:168-169 | the line after a term cannot itself be a term, so matches never compete |
| Docs.DefinitionList | commands/commands.go:168-169 | one output line per input line |
| Docs.UsageWordLength | commands/commands.go:151-152 | the longest run of `[a-z-]` at the line start |
| Docs.StripHeadingColons | commands/commands.go:163-164 | no contract of its own; `Docs.StripHeadingColonsLines` states it |
| Docs.StripHeadingColonsLines | commands/commands.go:163-164 | line i of the result is `HeadingLine` of line i, and the line count is kept |
| Docs.StripIndent | commands/commands.go:166-167 | no contract of its own; `Docs.StripIndentLines` states it |
| Docs.StripIndentLines | commands/commands.go:166-167 | line i of the result is `IndentLine` of line i, and the line count is kept |
| Docs.UsageLine | commands/commands.go:151-152 | no contract of its own: a line starting with a `[a-z-]` run (length by `Docs.UsageWordLength`) gets that run wrapped as code behind "hub", then the rest of the line and two spaces; other lines stay |
| Docs.HelpUsage | commands/commands.go:150-153 | no contract of its own: the first "-^" quoted (`Strings.ReplaceFirstSpec`), each line through `UsageLine`, then trimmed |
| Docs.HelpBody | commands/commands.go:162-169 | no contract of its own; `Docs.HelpBodyHasNoQuote` and `Docs.HelpBodyLineCount` state it |
| Docs.HelpTextOf | commands/commands.go:149-171 | no contract of its own; `Docs.HelpTextLines` states it |
| Docs.Page | commands/commands.go:171 | no contract of its own; `Docs.PageLines` states it |
| Docs.ReplaceLinesShape | commands/commands.go:163-167 | a rewrite of each line that adds no line break keeps one line per line |
| Docs.ReplaceLinesAvoids | commands/commands.go:163-167 | a rewrite of each line that adds no `c` adds none to the text |
| Docs.LineRewritesAvoid | commands/commands.go:163-169 | the heading, indent and definition-list rewrites add no character except the definition colon |
| Docs.HelpBodyHasNoQuote | commands/commands.go:162-169 | no straight quote survives into the body of the page |
| Docs.HelpBodyLineCount | commands/commands.go:162-169 | the rewritten body has as many lines as the description body |
| Docs.QuotesCommuteWithJoin | commands/commands.go:162 | replacing quotes commutes with joining lines |
| Docs.IndentedHeadingKeepsColon | commands/commands.go:163-167 | heading before indent: an indented heading keeps its colon |
| Docs.HeadingRewriteNotIdempotent | commands/commands.go:163-164 | a second pass of the heading rewrite can change its output |
| Docs.HelpTextLines | commands/commands.go:171 | the page is the title line, "===", a blank line, "## Synopsis", a blank line, then the usage block and body lines |
| Docs.PageLines | commands/commands.go:171 | the fixed frame of the page, line by line |
| Docs.FrameLines | commands/commands.go:171 | five single lines before two texts split into those lines and the texts' lines |
| Docs.TwoLines | commands/commands.go:171 | two single lines before a text |
| Docs.FirstLine | commands/commands.go:171 | one single line before a text |
| Commands.RunOutcome | commands/commands.go:47 | no contract of its own: `Ran` for a command with a run callback, `Panicked` for one without |
| Commands.Args.HasSubcommand | commands/commands.go:187 | no contract of its own: `StartsWithSubcommand` of the parameters |
| Commands.Args.FirstParam | commands/commands.go:188 | no contract of its own: the first parameter, called only when there is one |
| Commands.Command.Runnable | commands/commands.go:182-184 | no contract of its own: whether the command has a run callback |
| Commands.UnknownSubcommand | commands/commands.go:193 | the error names the unknown subcommand |
| Commands.ParseArgumentsEffect | commands/commands.go:67-103 | an error iff the parser did not accept. On help or failure the parameters and mark are untouched, and help carries the synopsis. A failure carries message, line break, synopsis. On success the positionals replace the parameters. With flags, the mark is set iff it was set or a literal `--` is among the parameters. Without flags, the mark is the minimal parser's |
| Commands.Command.constructor | commands/commands.go:21-32 | a command with the given fields, no children and no parent |
| Commands.Command.Name | commands/commands.go:174-180 | the key, or the first word of the trimmed usage |
| Commands.Command.Synopsis | commands/commands.go:131-147 | from its own usage, else its parent's when it has a parent; never a grandparent's |
| Commands.Command.UsageError | commands/commands.go:123-129 | a formatted error: message, line break when the message is non-empty, synopsis |
| Commands.Command.HelpText | commands/commands.go:149-172 | the page read line by line, from the command's own usage and description |
| Commands.Command.Use | commands/commands.go:115-121 | the child is registered under its name, replacing any earlier child of that name; the other entries stay; the child's parent is this command |
| Commands.Command.LookupSubCommand | commands/commands.go:186-200 | a known leading name returns that child and drops the token. An unknown one returns the error and leaves the parameters. No children, or no leading subcommand token, returns the command itself |
| Commands.Command.ParseArguments | commands/commands.go:67-103 | the error and the new parameters and terminator mark are those of `ParseArgumentsEffect`; the `--` scan is the loop |
| Commands.Command.Call | commands/commands.go:34-50 | an unknown name fails before parsing, with the parameters untouched. Otherwise, for a git-extension receiver, the found command runs on the remaining parameters. Else that command's parse effect applies, a parse error is returned with the subcommand token still consumed, and success runs the found command (a panic when it has no run callback) |
| Commands.UnknownSubcommandIsReported | commands/commands.go:186-194 | a call with an unregistered name fails with the unknown-subcommand error for that name and keeps its parameters |
| Commands.GitExtensionSkipsParsing | commands/commands.go:40-47 | a git-extension receiver runs even though its parser would reject the parameters |
| Commands.ParseFailureKeepsTokenConsumed | commands/commands.go:41-43 | a parse failure of the found subcommand returns the error and leaves the token consumed |
| Commands.DoubleDashSetsTerminator | commands/commands.go:91-95 | a literal `--` sets the terminator mark of a command with flags |
| Commands.UseReplacesSameName | commands/commands.go:119-120 | a second child under a taken name replaces the first |

## Left out

- The option parsers. pflag and hub's minimal argument parser (`utils.NewArgsParserWithUsage`) are not part of this model. Each command carries the parser it uses as a function of the parameters. Configuring pflag (interspersed mode, name, error handling, the silenced usage callback and the `bytes.Buffer` output sink, lines 82-87) has no effect the model can see.
- `hasFlags` (lines 60-65) visits pflag's flag set. It is a boolean field of the command.
- `FlagPassed` (lines 105-113) asks pflag which flags were set. It is left out with the parser state.
- The assignment of the minimal parser to `args.Flag` (line 69). `Args` keeps only the parameters and the terminator mark; the rest of `Args` lives in `commands/args.go`, which is not part of this model.
- Commands.StartsWithSubcommand: `Args.HasSubcommand` is in `commands/args.go`, which is not part of this model. It is taken to mean that a first parameter exists and does not start with `-`.
- Commands.Command.Call: the `args` state its contract gives is the state the run callback is handed (line 47). The callback may change `args` further, and those changes are not modelled, because the callback bodies are outside the command layer.
- Run callbacks. Their bodies are outside the command layer. A command records only whether it has one. Invoking it is the `Ran` outcome, and invoking a missing one is the `Panicked` outcome.
- `ErrHelp.Error` (lines 52-58) returns the stored message. It is the `message` field of `Error.ErrHelp`.
- The regular-expression constants `NameRe`, `OwnerRe`, `NameWithOwnerRe` and the shared `CmdRunner` (lines 13-19). The command layer does not use them.
- Docs.DefinitionList: states only the line count in its own contract. What each line becomes is given by its definition and by `TermText`. `Docs.LineRewritesAvoid` and `Docs.TermsDoNotOverlap` bound what it can add and rule out competing matches.
- Docs.SummaryAndBody: its own contract states only that the summary is one line. The full split is `Docs.SummarySplit`.
