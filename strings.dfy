/** The parts of Go's `strings` package that the command tree relies on:
    splitting on and joining with a one-character separator, trimming
    white space, replacing the first occurrence of a pattern and replacing
    one character everywhere. */
module Strings {

  /** Go's `unicode.IsSpace`: the Latin-1 spaces plus the other code points
      with the Unicode White_Space property. */
  predicate IsSpace(c: char) {
    c == '\t' || c == '\n' || c == '\U{000B}' || c == '\U{000C}' || c == '\r' || c == ' '
    || c == '\U{0085}' || c == '\U{00A0}' || c == '\U{1680}'
    || ('\U{2000}' <= c <= '\U{200A}')
    || c == '\U{2028}' || c == '\U{2029}' || c == '\U{202F}' || c == '\U{205F}' || c == '\U{3000}'
  }

  /** `strings.Split(s, string(sep))`: the pieces of `s` between separators.
      There is always at least one piece, and no piece holds the separator. */
  function Split(s: string, sep: char): (r: seq<string>)
    ensures |r| >= 1
    ensures forall i :: 0 <= i < |r| ==> sep !in r[i]
    decreases |s|
  {
    if |s| == 0 then [""]
    else
      var rest := Split(s[1..], sep);
      if s[0] == sep then [""] + rest
      else [[s[0]] + rest[0]] + rest[1..]
  }

  /** `strings.Join(xs, string(sep))`. */
  function Join(xs: seq<string>, sep: char): string
    decreases |xs|
  {
    if |xs| == 0 then ""
    else if |xs| == 1 then xs[0]
    else xs[0] + [sep] + Join(xs[1..], sep)
  }

  lemma JoinCons(x: string, xs: seq<string>, sep: char)
    requires |xs| >= 1
    ensures Join([x] + xs, sep) == x + [sep] + Join(xs, sep)
  {
    assert ([x] + xs)[1..] == xs;
  }

  lemma {:induction false} JoinPrependChar(c: char, xs: seq<string>, sep: char)
    requires |xs| >= 1
    ensures Join([[c] + xs[0]] + xs[1..], sep) == [c] + Join(xs, sep)
  {
    if |xs| > 1 {
      JoinCons([c] + xs[0], xs[1..], sep);
    }
  }

  /** Joining the pieces of a split gives back the original text. */
  lemma {:induction false} JoinSplit(s: string, sep: char)
    ensures Join(Split(s, sep), sep) == s
  {
    if |s| > 0 {
      var rest := Split(s[1..], sep);
      JoinSplit(s[1..], sep);
      if s[0] == sep {
        JoinCons("", rest, sep);
        assert s == [sep] + s[1..];
      } else {
        JoinPrependChar(s[0], rest, sep);
        assert s == [s[0]] + s[1..];
      }
    }
  }

  /** A text without the separator is a single piece. */
  lemma {:induction false} SplitNoSep(s: string, sep: char)
    requires sep !in s
    ensures Split(s, sep) == [s]
  {
    if |s| > 0 {
      SplitNoSep(s[1..], sep);
      assert [s[0]] + s[1..] == s;
    }
  }

  /** Splitting around one separator splits each side on its own. */
  lemma {:induction false} SplitConcat(a: string, b: string, sep: char)
    ensures Split(a + [sep] + b, sep) == Split(a, sep) + Split(b, sep)
    decreases |a|
  {
    var s := a + [sep] + b;
    if |a| == 0 {
      assert s[1..] == b;
    } else {
      assert s[1..] == a[1..] + [sep] + b;
      SplitConcat(a[1..], b, sep);
    }
  }

  /** Splitting a joined list gives back the list, provided it is not empty
      and no element holds the separator. */
  lemma {:induction false} SplitJoin(xs: seq<string>, sep: char)
    requires |xs| >= 1
    requires forall i :: 0 <= i < |xs| ==> sep !in xs[i]
    ensures Split(Join(xs, sep), sep) == xs
    decreases |xs|
  {
    if |xs| == 1 {
      SplitNoSep(xs[0], sep);
    } else {
      SplitJoin(xs[1..], sep);
      SplitConcat(xs[0], Join(xs[1..], sep), sep);
      SplitNoSep(xs[0], sep);
    }
  }

  /** The first piece of a split is the longest separator-free prefix. */
  lemma {:induction false} SplitHead(s: string, sep: char)
    ensures var h := Split(s, sep)[0];
            h <= s && sep !in h && (|h| == |s| || s[|h|] == sep)
    decreases |s|
  {
    if |s| > 0 {
      SplitHead(s[1..], sep);
    }
  }

  /** A character missing from the text is missing from every piece. */
  lemma {:induction false} SplitAvoids(s: string, sep: char, c: char)
    requires c !in s
    ensures forall i :: 0 <= i < |Split(s, sep)| ==> c !in Split(s, sep)[i]
    decreases |s|
  {
    if |s| > 0 {
      assert forall x :: x in s[1..] ==> x in s;
      SplitAvoids(s[1..], sep, c);
    }
  }

  /** Joining adds only separators. */
  lemma {:induction false} JoinAvoids(xs: seq<string>, sep: char, c: char)
    requires c != sep
    requires forall i :: 0 <= i < |xs| ==> c !in xs[i]
    ensures c !in Join(xs, sep)
    decreases |xs|
  {
    if |xs| > 1 {
      JoinAvoids(xs[1..], sep, c);
    }
  }

  /** `strings.TrimLeftFunc(s, unicode.IsSpace)`. */
  function TrimLeft(s: string): (r: string)
    ensures |r| <= |s| && r == s[|s| - |r|..]
    ensures r == "" || !IsSpace(r[0])
    ensures forall k :: 0 <= k < |s| - |r| ==> IsSpace(s[k])
    decreases |s|
  {
    if |s| > 0 && IsSpace(s[0]) then TrimLeft(s[1..]) else s
  }

  /** `strings.TrimRightFunc(s, unicode.IsSpace)`. */
  function TrimRight(s: string): (r: string)
    ensures |r| <= |s| && r == s[..|r|]
    ensures r == "" || !IsSpace(r[|r| - 1])
    ensures forall k :: |r| <= k < |s| ==> IsSpace(s[k])
    decreases |s|
  {
    if |s| > 0 && IsSpace(s[|s| - 1]) then TrimRight(s[..|s| - 1]) else s
  }

  /** `strings.TrimSpace`: drops the leading and trailing white space. */
  function TrimSpace(s: string): (r: string)
    ensures r == "" || (!IsSpace(r[0]) && !IsSpace(r[|r| - 1]))
  {
    TrimRight(TrimLeft(s))
  }

  /** `s[i..j]` has only white space on either side of it in `s`. */
  predicate SpaceAround(s: string, i: int, j: int) {
    0 <= i <= j <= |s|
    && (forall k :: 0 <= k < i ==> IsSpace(s[k]))
    && (forall k :: j <= k < |s| ==> IsSpace(s[k]))
  }

  /** The bounds of TrimSpace's result in its input. */
  function TrimStart(s: string): nat {
    |s| - |TrimLeft(s)|
  }

  function TrimEnd(s: string): nat {
    |s| - |TrimLeft(s)| + |TrimSpace(s)|
  }

  lemma TrimSpaceIsSlice(s: string)
    ensures TrimStart(s) <= TrimEnd(s) <= |s|
    ensures TrimSpace(s) == s[TrimStart(s)..TrimEnd(s)]
  {
    var l := TrimLeft(s);
    var t := TrimRight(l);
    var i := |s| - |l|;
    assert l == s[i..];
    assert t == l[..|t|];
    assert s[i..][..|t|] == s[i..i + |t|];
  }

  lemma TrimSpaceCutsSpace(s: string)
    ensures TrimStart(s) <= TrimEnd(s) <= |s|
    ensures SpaceAround(s, TrimStart(s), TrimEnd(s))
  {
    var l := TrimLeft(s);
    var i, j := TrimStart(s), TrimEnd(s);
    forall k | j <= k < |s| ensures IsSpace(s[k]) {
      assert s[k] == l[k - i];
    }
  }

  /** What TrimSpace removes is white space and nothing else: the result is
      a slice of the input with only spaces on either side. */
  lemma TrimSpaceSlice(s: string)
    ensures exists i, j :: SpaceAround(s, i, j) && TrimSpace(s) == s[i..j]
  {
    TrimSpaceIsSlice(s);
    TrimSpaceCutsSpace(s);
    assert SpaceAround(s, TrimStart(s), TrimEnd(s)) && TrimSpace(s) == s[TrimStart(s)..TrimEnd(s)];
  }

  /** Trimming twice trims nothing more. */
  lemma TrimSpaceIdempotent(s: string)
    ensures TrimSpace(TrimSpace(s)) == TrimSpace(s)
  {
    var t := TrimSpace(s);
    assert TrimLeft(t) == t;
    assert TrimRight(t) == t;
  }

  /** The pattern occurs in `s` at index `k`. */
  predicate OccursAt(s: string, pat: string, k: int) {
    0 <= k && k + |pat| <= |s| && s[k..k + |pat|] == pat
  }

  /** An occurrence in `s` past its first character is one in `s[1..]`. */
  lemma OccursShift(s: string, pat: string)
    requires |s| > 0
    ensures forall k :: 1 <= k <= |s| ==> (OccursAt(s, pat, k) <==> OccursAt(s[1..], pat, k - 1))
  {
    forall k | 1 <= k <= |s| ensures OccursAt(s, pat, k) <==> OccursAt(s[1..], pat, k - 1) {
      if k + |pat| <= |s| {
        var here, there := s[k..k + |pat|], s[1..][k - 1..k - 1 + |pat|];
        assert forall j :: 0 <= j < |pat| ==> here[j] == there[j];
        assert here == there;
      }
    }
  }

  /** `strings.Index`: the first index at which `pat` occurs, or -1. */
  function Index(s: string, pat: string): (r: int)
    ensures -1 <= r <= |s|
    ensures r >= 0 ==> OccursAt(s, pat, r)
    ensures forall k :: 0 <= k < (if r < 0 then |s| + 1 else r) ==> !OccursAt(s, pat, k)
    decreases |s|
  {
    if pat <= s then 0
    else if |s| == 0 then -1
    else
      var i := Index(s[1..], pat);
      OccursShift(s, pat);
      if i < 0 then -1 else i + 1
  }

  /** `strings.Replace(s, pat, rep, 1)`. */
  function ReplaceFirst(s: string, pat: string, rep: string): string
    decreases |s|
  {
    if pat <= s then rep + s[|pat|..]
    else if |s| == 0 then s
    else [s[0]] + ReplaceFirst(s[1..], pat, rep)
  }

  /** The first occurrence of `pat` is replaced by `rep`; without one, `s`
      comes back unchanged. */
  lemma {:induction false} ReplaceFirstSpec(s: string, pat: string, rep: string)
    ensures var i := Index(s, pat);
            ReplaceFirst(s, pat, rep) == if i < 0 then s else s[..i] + rep + s[i + |pat|..]
    decreases |s|
  {
    if !(pat <= s) && |s| > 0 {
      ReplaceFirstSpec(s[1..], pat, rep);
      var i := Index(s[1..], pat);
      assert Index(s, pat) == (if i < 0 then -1 else i + 1);
      if i < 0 {
        assert s == [s[0]] + s[1..];
      } else {
        assert s[..i + 1] == [s[0]] + s[1..][..i];
        assert s[i + 1 + |pat|..] == s[1..][i + |pat|..];
      }
    }
  }

  /** `strings.Replace(s, string(from), string(to), -1)` for one character:
      every `from` becomes `to`, and nothing else changes. */
  function ReplaceChar(s: string, from: char, to: char): (r: string)
    ensures |r| == |s|
    ensures forall k :: 0 <= k < |s| ==> r[k] == (if s[k] == from then to else s[k])
    ensures from != to ==> from !in r
  {
    seq(|s|, k requires 0 <= k < |s| => if s[k] == from then to else s[k])
  }
}
