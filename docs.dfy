/** The text a command derives from its templates: its name, its synopsis,
    the text of a usage error and its manual page. Every function here is a
    pure transform of strings; the `Commands` module applies them to a
    command's fields. */
module Docs {
  import opened Strings

  datatype Option<T> = None | Some(value: T)

  // ---------------------------------------------------------------- Name

  /** `w` is the first word of `t`: a prefix of `t` holding no space and no
      line break, which ends where `t` ends or at a space or a line break. */
  predicate IsFirstWord(w: string, t: string) {
    w <= t && ' ' !in w && '\n' !in w && (|w| == |t| || t[|w|] == ' ' || t[|w|] == '\n')
  }

  /** The name of a command: its key when it has one, else the first
      space-delimited word of the first line of its trimmed usage. */
  function NameOf(key: string, usage: string): (r: string)
    ensures key != "" ==> r == key
    ensures key == "" ==> IsFirstWord(r, TrimSpace(usage))
  {
    if key != "" then key
    else
      var t := TrimSpace(usage);
      var line := Split(t, '\n')[0];
      var w := Split(line, ' ')[0];
      SplitHead(t, '\n');
      SplitHead(line, ' ');
      w
  }

  /** The first word of a text is determined by the text, so the name of a
      command without a key is fixed by its usage alone. */
  lemma FirstWordUnique(w1: string, w2: string, t: string)
    requires IsFirstWord(w1, t) && IsFirstWord(w2, t)
    ensures w1 == w2
  {
  }

  // ------------------------------------------------------------ Synopsis

  const UsagePrefix := "Usage:"
  /** Six spaces: replaces `UsagePrefix` on every synopsis line after the first. */
  const ContinuationPrefix := "      "

  /** The lines of a usage template that are not empty, in order. */
  function NonEmptyLines(lines: seq<string>): seq<string>
    decreases |lines|
  {
    if |lines| == 0 then []
    else if lines[0] == "" then NonEmptyLines(lines[1..])
    else [lines[0]] + NonEmptyLines(lines[1..])
  }

  /** The loop that builds the synopsis: each non-empty line becomes
      `prefix + " hub " + line`, and the prefix turns into six spaces once
      the first line has been written. */
  function SynopsisLines(lines: seq<string>, prefix: string): seq<string>
    decreases |lines|
  {
    if |lines| == 0 then []
    else if lines[0] == "" then SynopsisLines(lines[1..], prefix)
    else [prefix + " hub " + lines[0]] + SynopsisLines(lines[1..], ContinuationPrefix)
  }

  /** The synopsis of a usage template: its rendered lines joined by line breaks. */
  function SynopsisOf(usage: string): string {
    Join(SynopsisLines(Split(usage, '\n'), UsagePrefix), '\n')
  }

  /** One synopsis line per non-empty usage line, in the same order, the
      first behind `prefix` and the rest behind six spaces. */
  lemma {:induction false} SynopsisLinesSpec(lines: seq<string>, prefix: string)
    ensures var r := SynopsisLines(lines, prefix);
            var ne := NonEmptyLines(lines);
            |r| == |ne|
            && forall i :: 0 <= i < |r| ==>
                 r[i] == (if i == 0 then prefix else ContinuationPrefix) + " hub " + ne[i]
    decreases |lines|
  {
    if |lines| > 0 {
      if lines[0] == "" {
        SynopsisLinesSpec(lines[1..], prefix);
      } else {
        SynopsisLinesSpec(lines[1..], ContinuationPrefix);
        var r, ne := SynopsisLines(lines, prefix), NonEmptyLines(lines);
        var r', ne' := SynopsisLines(lines[1..], ContinuationPrefix), NonEmptyLines(lines[1..]);
        assert r == [prefix + " hub " + lines[0]] + r';
        assert ne == [lines[0]] + ne';
        forall i | 1 <= i < |r| ensures r[i] == ContinuationPrefix + " hub " + ne[i] {
          assert r[i] == r'[i - 1] && ne[i] == ne'[i - 1];
        }
      }
    }
  }

  /** Every non-empty line is a line of the template, so none holds a line break. */
  lemma {:induction false} NonEmptyLinesFrom(lines: seq<string>, c: char)
    requires forall i :: 0 <= i < |lines| ==> c !in lines[i]
    ensures forall i :: 0 <= i < |NonEmptyLines(lines)| ==>
              c !in NonEmptyLines(lines)[i] && NonEmptyLines(lines)[i] != ""
    decreases |lines|
  {
    if |lines| > 0 {
      NonEmptyLinesFrom(lines[1..], c);
      if lines[0] != "" {
        assert NonEmptyLines(lines) == [lines[0]] + NonEmptyLines(lines[1..]);
        assert c !in lines[0];
      }
    }
  }

  /** The prefix in front of synopsis line `i`: "Usage: hub " on the first
      line, seven spaces and "hub " on the others. */
  function SynopsisPrefix(i: nat): string {
    (if i == 0 then UsagePrefix else ContinuationPrefix) + " hub "
  }

  /** The lines the synopsis is made of hold no line break. */
  lemma SynopsisLinesUnbroken(lines: seq<string>)
    requires forall i :: 0 <= i < |lines| ==> '\n' !in lines[i]
    ensures forall i :: 0 <= i < |SynopsisLines(lines, UsagePrefix)| ==>
              '\n' !in SynopsisLines(lines, UsagePrefix)[i]
  {
    var r := SynopsisLines(lines, UsagePrefix);
    SynopsisLinesSpec(lines, UsagePrefix);
    NonEmptyLinesFrom(lines, '\n');
    forall i | 0 <= i < |r| ensures '\n' !in r[i] {
      assert r[i] == SynopsisPrefix(i) + NonEmptyLines(lines)[i];
    }
  }

  /** The synopsis is empty exactly when the template has no non-empty line. */
  lemma SynopsisEmptyIff(usage: string)
    ensures SynopsisOf(usage) == "" <==> NonEmptyLines(Split(usage, '\n')) == []
  {
    var lines := Split(usage, '\n');
    var r := SynopsisLines(lines, UsagePrefix);
    SynopsisLinesSpec(lines, UsagePrefix);
    if r != [] {
      assert |r[0]| > 0;
      if |r| > 1 {
        JoinCons(r[0], r[1..], '\n');
        assert r == [r[0]] + r[1..];
      }
    }
  }

  /** When the template has a non-empty line, the synopsis's lines are
      its non-empty lines in order, the first behind "Usage: hub " and each
      later one behind seven spaces and "hub ": both prefixes are eleven
      characters wide, so the lines align, and each ends with its template
      line unchanged. */
  lemma SynopsisShape(usage: string)
    requires NonEmptyLines(Split(usage, '\n')) != []
    ensures |Split(SynopsisOf(usage), '\n')| == |NonEmptyLines(Split(usage, '\n'))|
    ensures forall i :: 0 <= i < |Split(SynopsisOf(usage), '\n')| ==>
              Split(SynopsisOf(usage), '\n')[i] == SynopsisPrefix(i) + NonEmptyLines(Split(usage, '\n'))[i]
    ensures forall i: nat :: |SynopsisPrefix(i)| == 11
  {
    var lines := Split(usage, '\n');
    var r := SynopsisLines(lines, UsagePrefix);
    SynopsisLinesSpec(lines, UsagePrefix);
    SynopsisLinesUnbroken(lines);
    SplitJoin(r, '\n');
  }

  /** The synopsis of an empty usage template is empty. */
  lemma SynopsisOfEmpty()
    ensures SynopsisOf("") == ""
  {
  }

  // --------------------------------------------------------- Usage error

  /** The message of a usage error: the caller's message, a line break when
      that message is not empty, then the synopsis. */
  function UsageErrorMessage(msg: string, synopsis: string): (r: string)
    ensures msg == "" ==> r == synopsis
    ensures msg != "" ==> r == msg + "\n" + synopsis
  {
    var nl := if msg != "" then "\n" else "";
    msg + nl + synopsis
  }

  /** A usage error reads as the lines of the message followed by the lines
      of the synopsis. */
  lemma UsageErrorLines(msg: string, synopsis: string)
    requires msg != ""
    ensures Split(UsageErrorMessage(msg, synopsis), '\n') == Split(msg, '\n') + Split(synopsis, '\n')
  {
    SplitConcat(msg, synopsis, '\n');
  }

  // ----------------------------------------------------------- Help text

  /** Splits the trimmed long description into a summary and a body: when
      the text has more than one line the summary is its first line and the
      body the rest, otherwise the summary is empty and the body is all. */
  function SummaryAndBody(long: string): (r: (string, string))
    ensures '\n' !in r.0
  {
    var t := TrimSpace(long);
    var lines := Split(t, '\n');
    if |lines| > 1 then (lines[0], Join(lines[1..], '\n')) else ("", t)
  }

  lemma SplitMany(s: string, sep: char)
    ensures |Split(s, sep)| > 1 <==> sep in s
  {
    JoinSplit(s, sep);
    if sep !in s {
      SplitNoSep(s, sep);
    }
  }

  /** The summary is the first line of the trimmed description exactly when
      the description has several lines, and summary, line break and body
      give back the description; a one-line description is all body. */
  lemma SummarySplit(long: string)
    ensures var (desc, body) := SummaryAndBody(long);
            var t := TrimSpace(long);
            '\n' !in desc
            && ('\n' in t ==> desc + "\n" + body == t)
            && ('\n' !in t ==> desc == "" && body == t)
  {
    var t := TrimSpace(long);
    var lines := Split(t, '\n');
    SplitMany(t, '\n');
    if |lines| > 1 {
      JoinSplit(t, '\n');
      assert lines == [lines[0]] + lines[1..];
      JoinCons(lines[0], lines[1..], '\n');
    }
  }

  /** Rewrites every line of `s` with `f`: the model of a
      `regexp.ReplaceAllString` whose pattern is anchored at a line start by
      `(?m)^` and cannot run past the end of that line. */
  function ReplaceLines(s: string, f: string -> string): string {
    var lines := Split(s, '\n');
    Join(seq(|lines|, i requires 0 <= i < |lines| => f(lines[i])), '\n')
  }

  /** `(?m)^(## .+):$` replaced by `$1`: a heading line "## Title:" loses its
      final colon. */
  function HeadingLine(line: string): (r: string)
    ensures r <= line && |line| - 1 <= |r|
    ensures r != line ==> r + ":" == line && "## " <= r && |r| >= 4
    ensures |line| >= 5 && "## " <= line && line[|line| - 1] == ':' ==> r + ":" == line
  {
    if |line| >= 5 && line[..3] == "## " && line[|line| - 1] == ':' then line[..|line| - 1] else line
  }

  /** `(?m)^\t` replaced by nothing: one leading tab goes. */
  function IndentLine(line: string): (r: string)
    ensures |line| - 1 <= |r| <= |line| && r == line[|line| - |r|..]
    ensures |line| > 0 && line[0] == '\t' ==> r == line[1..]
    ensures !(|line| > 0 && line[0] == '\t') ==> r == line
  {
    if |line| > 0 && line[0] == '\t' then line[1..] else line
  }

  /** The characters RE2's `\s` stands for. */
  predicate IsReSpace(c: char) {
    c == '\t' || c == '\n' || c == '\U{000C}' || c == '\r' || c == ' '
  }

  /** `[^#\s]`: a character that may begin a definition term. */
  predicate IsTermStart(c: char) {
    c != '#' && !IsReSpace(c)
  }

  /** The shortest match of `[^#\s][^\n]*?` before an optional colon: one
      trailing colon is dropped when something precedes it. */
  function DropColon(t: string): (r: string)
    ensures r <= t && |t| - 1 <= |r|
    ensures r != t ==> r + ":" == t && r != ""
    ensures |t| >= 2 && t[|t| - 1] == ':' ==> r + ":" == t
  {
    if |t| >= 2 && t[|t| - 1] == ':' then t[..|t| - 1] else t
  }

  /** The `$2` of `(?m)^(\* )?([^#\s][^\n]*?):?\n\t` when the pattern matches
      at the start of `line` (the following line beginning with a tab), and
      None when no match can start there. A leading "* " is part of the
      bullet only when a term character follows it. */
  function TermText(line: string): (r: Option<string>)
    ensures r.Some? <==> |line| > 0 && IsTermStart(line[0])
    ensures r.Some? ==> (r.value <= line || ("* " + r.value <= line))
    ensures r.Some? && |line| >= 3 && "* " <= line && IsTermStart(line[2]) ==> r.value == DropColon(line[2..])
    ensures r.Some? && !(|line| >= 3 && "* " <= line && IsTermStart(line[2])) ==> r.value == DropColon(line)
  {
    if |line| >= 3 && line[..2] == "* " && IsTermStart(line[2]) then Some(DropColon(line[2..]))
    else if |line| >= 1 && IsTermStart(line[0]) then Some(DropColon(line))
    else None
  }

  /** Line `i` is a definition term: it matches and the next line starts with a tab. */
  predicate IsTermAt(lines: seq<string>, i: int) {
    0 <= i && i + 1 < |lines| && |lines[i + 1]| > 0 && lines[i + 1][0] == '\t'
    && TermText(lines[i]).Some?
  }

  /** A line that continues a term cannot start a term itself, so the
      matches of the definition-list pattern never compete for a line. */
  lemma TermsDoNotOverlap(lines: seq<string>, i: int)
    requires IsTermAt(lines, i)
    ensures !IsTermAt(lines, i + 1)
  {
  }

  /** `definitionListRe` replaced by `$2\n:\t`: a term line followed by an
      indented line becomes the bare term, and the indented line gets a
      leading colon. Every other line stays as it is. */
  function DefinitionList(lines: seq<string>): (r: seq<string>)
    ensures |r| == |lines|
  {
    seq(|lines|, i requires 0 <= i < |lines| =>
      (if IsTermAt(lines, i - 1) then ":" else "")
      + (if IsTermAt(lines, i) then TermText(lines[i]).value else lines[i]))
  }

  /** `(?m)^([a-z-]+)(.*)$` and its replacement: the characters the pattern's first group accepts. */
  predicate IsUsageWordChar(c: char) {
    ('a' <= c <= 'z') || c == '-'
  }

  /** The length of the longest run of `[a-z-]` at the start of `line`. */
  function UsageWordLength(line: string): (k: nat)
    ensures k <= |line|
    ensures forall j :: 0 <= j < k ==> IsUsageWordChar(line[j])
    ensures k == |line| || !IsUsageWordChar(line[k])
    decreases |line|
  {
    if |line| > 0 && IsUsageWordChar(line[0]) then 1 + UsageWordLength(line[1..]) else 0
  }

  /** `(?m)^([a-z-]+)(.*)$` replaced by "`hub $1`$2  ": a usage line that
      starts with a lower-case word gets that word wrapped as code behind
      "hub", and two trailing spaces. */
  function UsageLine(line: string): string {
    var k := UsageWordLength(line);
    if k == 0 then line else "`hub " + line[..k] + "`" + line[k..] + "  "
  }

  /** The synopsis block of the manual page: the first "-^" wrapped as
      code, every usage line code-wrapped, the whole trimmed. */
  function HelpUsage(usage: string): string {
    var u := ReplaceFirst(usage, "-^", "`-^`");
    TrimSpace(ReplaceLines(u, UsageLine))
  }

  /** `strings.Replace(long, "'", "`", -1)`. */
  function QuotesToBackticks(s: string): string {
    ReplaceChar(s, '\'', '`')
  }

  /** `headingRe.ReplaceAllString(long, "$1")`. */
  function StripHeadingColons(s: string): string {
    ReplaceLines(s, HeadingLine)
  }

  /** `indentRe.ReplaceAllLiteralString(long, "")`. */
  function StripIndent(s: string): string {
    ReplaceLines(s, IndentLine)
  }

  /** `definitionListRe.ReplaceAllString(long, "$2\n:\t")`. */
  function DefinitionLists(s: string): string {
    Join(DefinitionList(Split(s, '\n')), '\n')
  }

  /** The body of the manual page, after the fixed sequence of rewrites:
      quotes to backticks, heading colons, one indent level, definition lists. */
  function HelpBody(body: string): string {
    DefinitionLists(StripIndent(StripHeadingColons(QuotesToBackticks(body))))
  }

  /** The heading rewrite works line by line: line `i` of the result is
      line `i` of the text, without its final colon exactly when it is a
      "## " heading ending in a colon. */
  lemma StripHeadingColonsLines(s: string)
    ensures |Split(StripHeadingColons(s), '\n')| == |Split(s, '\n')|
    ensures forall i :: 0 <= i < |Split(s, '\n')| ==>
              Split(StripHeadingColons(s), '\n')[i] == HeadingLine(Split(s, '\n')[i])
  {
    LineRewritesAvoid('\n');
    ReplaceLinesShape(s, HeadingLine);
  }

  /** The indent rewrite works line by line: line `i` of the result is line
      `i` of the text without one leading tab. */
  lemma StripIndentLines(s: string)
    ensures |Split(StripIndent(s), '\n')| == |Split(s, '\n')|
    ensures forall i :: 0 <= i < |Split(s, '\n')| ==>
              Split(StripIndent(s), '\n')[i] == IndentLine(Split(s, '\n')[i])
  {
    LineRewritesAvoid('\n');
    ReplaceLinesShape(s, IndentLine);
  }

  /** A line rewrite that puts no line break into a line keeps the line
      structure: one output line per input line, each rewritten. */
  lemma ReplaceLinesShape(s: string, f: string -> string)
    requires forall line :: '\n' !in line ==> '\n' !in f(line)
    ensures |Split(ReplaceLines(s, f), '\n')| == |Split(s, '\n')|
    ensures forall i :: 0 <= i < |Split(s, '\n')| ==>
              Split(ReplaceLines(s, f), '\n')[i] == f(Split(s, '\n')[i])
  {
    var lines := Split(s, '\n');
    var out := seq(|lines|, i requires 0 <= i < |lines| => f(lines[i]));
    assert forall i :: 0 <= i < |out| ==> '\n' !in out[i];
    SplitJoin(out, '\n');
  }

  /** A line rewrite that puts no `c` into a line puts none into the text. */
  lemma ReplaceLinesAvoids(s: string, f: string -> string, c: char)
    requires c != '\n' && c !in s
    requires forall line :: c !in line ==> c !in f(line)
    ensures c !in ReplaceLines(s, f)
  {
    var lines := Split(s, '\n');
    SplitAvoids(s, '\n', c);
    var out := seq(|lines|, i requires 0 <= i < |lines| => f(lines[i]));
    JoinAvoids(out, '\n', c);
  }

  /** The heading, indent and definition-list rewrites only ever remove
      characters, except for the colon that marks a definition. */
  lemma LineRewritesAvoid(c: char)
    requires c != ':'
    ensures forall line :: c !in line ==> c !in HeadingLine(line)
    ensures forall line :: c !in line ==> c !in IndentLine(line)
    ensures forall lines: seq<string> :: (forall i :: 0 <= i < |lines| ==> c !in lines[i]) ==>
              forall i :: 0 <= i < |DefinitionList(lines)| ==> c !in DefinitionList(lines)[i]
  {
    forall line | c !in line ensures c !in HeadingLine(line) && c !in IndentLine(line) {
      if |line| > 0 {
        assert forall x :: x in line[..|line| - 1] ==> x in line;
        assert forall x :: x in line[1..] ==> x in line;
      }
    }
    forall lines: seq<string> | forall i :: 0 <= i < |lines| ==> c !in lines[i]
      ensures forall i :: 0 <= i < |DefinitionList(lines)| ==> c !in DefinitionList(lines)[i]
    {
      forall i | 0 <= i < |lines| ensures c !in DefinitionList(lines)[i] {
        var line := lines[i];
        assert c !in line;
        if IsTermAt(lines, i) {
          var t := TermText(line).value;
          assert t <= line || "* " + t <= line;
          if t <= line {
            assert forall x :: x in t ==> x in line;
          } else {
            assert forall x :: x in t ==> x in line by {
              forall x | x in t ensures x in line {
                var k :| 0 <= k < |t| && t[k] == x;
                assert line[k + 2] == x;
              }
            }
          }
        }
      }
    }
  }

  /** No straight quote survives into the body of the manual page. */
  lemma HelpBodyHasNoQuote(body: string)
    ensures '\'' !in HelpBody(body)
  {
    var b1 := QuotesToBackticks(body);
    LineRewritesAvoid('\'');
    ReplaceLinesAvoids(b1, HeadingLine, '\'');
    var b2 := StripHeadingColons(b1);
    ReplaceLinesAvoids(b2, IndentLine, '\'');
    var b3 := StripIndent(b2);
    SplitAvoids(b3, '\n', '\'');
    JoinAvoids(DefinitionList(Split(b3, '\n')), '\n', '\'');
  }

  /** Every rewrite of the body works line for line: the body of the
      manual page has as many lines as the description body it came from. */
  lemma HelpBodyLineCount(body: string)
    ensures |Split(HelpBody(body), '\n')| == |Split(body, '\n')|
  {
    var b1 := QuotesToBackticks(body);
    var lines := Split(body, '\n');
    forall i | 0 <= i < |lines| ensures '\n' !in lines[i] { }
    assert b1 == Join(seq(|lines|, i requires 0 <= i < |lines| => QuotesToBackticks(lines[i])), '\n') by {
      JoinSplit(body, '\n');
      QuotesCommuteWithJoin(lines);
    }
    assert |Split(b1, '\n')| == |lines| by {
      var q := seq(|lines|, i requires 0 <= i < |lines| => QuotesToBackticks(lines[i]));
      assert forall i :: 0 <= i < |q| ==> '\n' !in q[i];
      SplitJoin(q, '\n');
    }
    LineRewritesAvoid('\n');
    ReplaceLinesShape(b1, HeadingLine);
    var b2 := StripHeadingColons(b1);
    ReplaceLinesShape(b2, IndentLine);
    var b3 := StripIndent(b2);
    var d := DefinitionList(Split(b3, '\n'));
    SplitJoin(d, '\n');
  }

  /** Replacing quotes line by line is replacing them in the joined text. */
  lemma {:induction false} QuotesCommuteWithJoin(lines: seq<string>)
    ensures QuotesToBackticks(Join(lines, '\n'))
            == Join(seq(|lines|, i requires 0 <= i < |lines| => QuotesToBackticks(lines[i])), '\n')
    decreases |lines|
  {
    var q := seq(|lines|, i requires 0 <= i < |lines| => QuotesToBackticks(lines[i]));
    if |lines| > 1 {
      QuotesCommuteWithJoin(lines[1..]);
      assert q[1..] == seq(|lines| - 1, i requires 0 <= i < |lines| - 1 => QuotesToBackticks(lines[1..][i]));
      ReplaceCharConcat(lines[0] + "\n", Join(lines[1..], '\n'));
      ReplaceCharConcat(lines[0], "\n");
    }
  }

  lemma ReplaceCharConcat(a: string, b: string)
    ensures QuotesToBackticks(a + b) == QuotesToBackticks(a) + QuotesToBackticks(b)
  {
  }

  /** The heading rewrite runs before the indent rewrite, so an indented
      heading keeps its colon: the tab hides it from the heading pattern. */
  lemma IndentedHeadingKeepsColon(h: string)
    ensures IndentLine(HeadingLine("\t" + h)) == h
  {
  }

  /** The heading rewrite is not idempotent: a heading ending in two colons
      loses one per pass, so rendering rendered text can change it again. */
  lemma HeadingRewriteNotIdempotent()
    ensures HeadingLine(HeadingLine("## A::")) != HeadingLine("## A::")
  {
    assert HeadingLine("## A::") == "## A:";
    assert HeadingLine("## A:") == "## A";
  }

  /** The manual page of a command named `name`. */
  function HelpTextOf(name: string, usage: string, long: string): string {
    var summary := SummaryAndBody(long);
    Page("hub-" + name + "(1) -- " + summary.0, HelpUsage(usage), HelpBody(summary.1))
  }

  /** The layout of a manual page: title, underline, synopsis block, body. */
  function Page(title: string, usage: string, body: string): string {
    title + "\n===\n\n## Synopsis\n\n" + usage + "\n" + body
  }

  /** The manual page reads, line by line: the title line
      "hub-<name>(1) -- <summary>", the "===" underline, a blank line, the
      "## Synopsis" heading, a blank line, the lines of the synopsis block and
      then the lines of the rewritten body. */
  lemma HelpTextLines(name: string, usage: string, long: string)
    requires '\n' !in name
    ensures Split(HelpTextOf(name, usage, long), '\n')
            == ["hub-" + name + "(1) -- " + SummaryAndBody(long).0, "===", "", "## Synopsis", ""]
               + Split(HelpUsage(usage), '\n') + Split(HelpBody(SummaryAndBody(long).1), '\n')
  {
    var sb := SummaryAndBody(long);
    var title := "hub-" + name + "(1) -- " + sb.0;
    TitleUnbroken(name, sb.0);
    PageLines(title, HelpUsage(usage), HelpBody(sb.1));
  }

  lemma TitleUnbroken(name: string, desc: string)
    requires '\n' !in name && '\n' !in desc
    ensures '\n' !in "hub-" + name + "(1) -- " + desc
  {
  }

  /** The fixed frame of the manual page around its title, synopsis block and body. */
  lemma PageLines(title: string, u: string, b: string)
    requires '\n' !in title
    ensures Split(Page(title, u, b), '\n')
            == [title, "===", "", "## Synopsis", ""] + Split(u, '\n') + Split(b, '\n')
  {
    assert Page(title, u, b)
        == title + "\n" + ("===" + "\n" + ("" + "\n" + ("## Synopsis" + "\n" + ("" + "\n" + (u + "\n" + b)))));
    FrameLines(title, "===", "", "## Synopsis", "", u, b);
  }

  /** Five single lines in front of two texts. */
  lemma FrameLines(l1: string, l2: string, l3: string, l4: string, l5: string, u: string, b: string)
    requires '\n' !in l1 && '\n' !in l2 && '\n' !in l3 && '\n' !in l4 && '\n' !in l5
    ensures Split(l1 + "\n" + (l2 + "\n" + (l3 + "\n" + (l4 + "\n" + (l5 + "\n" + (u + "\n" + b))))), '\n')
            == [l1, l2, l3, l4, l5] + Split(u, '\n') + Split(b, '\n')
  {
    var t0 := u + "\n" + b;
    SplitConcat(u, b, '\n');
    var t2 := l4 + "\n" + (l5 + "\n" + t0);
    TwoLines(l4, l5, t0);
    var t4 := l2 + "\n" + (l3 + "\n" + t2);
    TwoLines(l2, l3, t2);
    FirstLine(l1, t4);
  }

  /** Two single lines in front of a text. */
  lemma TwoLines(a: string, b: string, rest: string)
    requires '\n' !in a && '\n' !in b
    ensures Split(a + "\n" + (b + "\n" + rest), '\n') == [a, b] + Split(rest, '\n')
  {
    FirstLine(b, rest);
    FirstLine(a, b + "\n" + rest);
  }

  /** A line without a break, a break, then the rest: one more line in front. */
  lemma FirstLine(a: string, rest: string)
    requires '\n' !in a
    ensures Split(a + "\n" + rest, '\n') == [a] + Split(rest, '\n')
  {
    SplitConcat(a, rest, '\n');
    SplitNoSep(a, '\n');
  }
}
