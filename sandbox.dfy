/**
 * The `quote` Handlebars helper of src/sandbox/index.ts: a string argument is
 * turned into a Markdown block quote by splitting it on "\n", joining the
 * pieces with "\n> " and putting "> " in front; any other argument is
 * returned as it is.
 */
module Sandbox {

  /** The argument of a Handlebars helper: a string, or any other template value. */
  datatype HelperArg<T> = Text(s: string) | Other(value: T)

  /** `s.split("\n")`: the pieces of `s` between newlines; there is always at least one. */
  function Lines(s: string): (ls: seq<string>)
    ensures |ls| >= 1
    ensures forall i :: 0 <= i < |ls| ==> '\n' !in ls[i]
  {
    if s == [] then [""]
    else
      var rest := Lines(s[1..]);
      if s[0] == '\n' then [""] + rest
      else [[s[0]] + rest[0]] + rest[1..]
  }

  /** `ls.join(sep)`. */
  function Join(ls: seq<string>, sep: string): string {
    if |ls| == 0 then ""
    else if |ls| == 1 then ls[0]
    else ls[0] + sep + Join(ls[1..], sep)
  }

  /** The quoted form of a string: `> ${s.split("\n").join("\n> ")}`. */
  function Quote(s: string): string {
    "> " + Join(Lines(s), "\n> ")
  }

  /** The `quote` helper: strings are quoted, every other argument passes through unchanged. */
  function QuoteHelper<T>(data: HelperArg<T>): (r: HelperArg<T>)
    ensures data.Other? ==> r == data
    ensures data.Text? ==> r.Text? && |r.s| >= 2 && r.s[..2] == "> "
  {
    match data
    case Text(s) => Text(Quote(s))
    case Other(_) => data
  }

  // ---------------------------------------------------------------------------
  // Reference definitions
  // ---------------------------------------------------------------------------

  /** `s` with every newline replaced by a newline followed by "> ". */
  function ReplaceNewlines(s: string): string {
    if s == [] then ""
    else (if s[0] == '\n' then "\n> " else [s[0]]) + ReplaceNewlines(s[1..])
  }

  /** Every line with "> " in front. */
  function PrefixLines(ls: seq<string>): (r: seq<string>)
    ensures |r| == |ls|
    ensures forall i :: 0 <= i < |ls| ==> r[i] == "> " + ls[i]
  {
    if ls == [] then [] else ["> " + ls[0]] + PrefixLines(ls[1..])
  }

  /** A line with a leading "> " removed, when it has one. */
  function StripPrefix(line: string): string {
    if |line| >= 2 && line[..2] == "> " then line[2..] else line
  }

  function StripLines(ls: seq<string>): (r: seq<string>)
    ensures |r| == |ls|
    ensures forall i :: 0 <= i < |ls| ==> r[i] == StripPrefix(ls[i])
  {
    if ls == [] then [] else [StripPrefix(ls[0])] + StripLines(ls[1..])
  }

  /** The inverse of quoting: remove the leading "> " from every line. */
  function Unquote(t: string): string {
    Join(StripLines(Lines(t)), "\n")
  }

  // ---------------------------------------------------------------------------
  // Splitting and joining
  // ---------------------------------------------------------------------------

  /** Joining the lines of `s` with newlines gives back `s`. */
  lemma {:induction false} JoinLines(s: string)
    ensures Join(Lines(s), "\n") == s
  {
    if s != [] {
      var rest := Lines(s[1..]);
      JoinLines(s[1..]);
      if s[0] == '\n' {
        assert Lines(s) == [""] + rest;
      } else {
        JoinConsHead(s[0], rest, "\n");
      }
      assert s == [s[0]] + s[1..];
    }
  }

  /** Putting a character in front of the first line puts it in front of the joined text. */
  lemma JoinConsHead(c: char, ls: seq<string>, sep: string)
    requires |ls| >= 1
    ensures Join([[c] + ls[0]] + ls[1..], sep) == [c] + Join(ls, sep)
  {
    var ms := [[c] + ls[0]] + ls[1..];
    if |ls| > 1 {
      assert ms[1..] == ls[1..];
    }
  }

  /** A text without a newline, followed by more text, opens its first line. */
  lemma {:induction false} LinesAppend(l: string, t: string)
    requires '\n' !in l
    ensures Lines(l + t) == [l + Lines(t)[0]] + Lines(t)[1..]
  {
    var lt := Lines(t);
    if l == [] {
      assert l + t == t && l + lt[0] == lt[0];
      assert lt == [lt[0]] + lt[1..];
    } else {
      LinesAppend(l[1..], t);
      assert (l + t)[1..] == l[1..] + t;
      var rest := Lines(l[1..] + t);
      assert rest[0] == l[1..] + lt[0] && rest[1..] == lt[1..];
      assert [l[0]] + (l[1..] + lt[0]) == l + lt[0];
    }
  }

  /** Splitting newline-free lines joined with newlines gives back the lines. */
  lemma {:induction false} LinesJoin(ls: seq<string>)
    requires |ls| >= 1
    requires forall i :: 0 <= i < |ls| ==> '\n' !in ls[i]
    ensures Lines(Join(ls, "\n")) == ls
  {
    if |ls| == 1 {
      LinesAppend(ls[0], "");
      assert ls[0] + "" == ls[0];
    } else {
      var rest := Join(ls[1..], "\n");
      LinesJoin(ls[1..]);
      LinesAppend(ls[0], "\n" + rest);
      assert ls[0] + "\n" + rest == ls[0] + ("\n" + rest);
      assert ("\n" + rest)[1..] == rest;
      assert Lines("\n" + rest) == [""] + ls[1..];
      assert ls[0] + "" == ls[0];
    }
  }

  /** Joining with "\n> " after a leading "> " is joining the prefixed lines with "\n". */
  lemma {:induction false} QuoteAsPrefixedLines(ls: seq<string>)
    requires |ls| >= 1
    ensures "> " + Join(ls, "\n> ") == Join(PrefixLines(ls), "\n")
  {
    if |ls| > 1 {
      QuoteAsPrefixedLines(ls[1..]);
      assert PrefixLines(ls)[1..] == PrefixLines(ls[1..]);
      assert "> " + (ls[0] + "\n> " + Join(ls[1..], "\n> "))
          == ("> " + ls[0]) + "\n" + ("> " + Join(ls[1..], "\n> "));
    }
  }

  // ---------------------------------------------------------------------------
  // What quoting does
  // ---------------------------------------------------------------------------

  /** Quoting is "> " followed by the text with every "\n" replaced by "\n> "; it starts with "> " even for "". */
  lemma {:induction false} QuoteReplacesNewlines(s: string)
    ensures Quote(s) == "> " + ReplaceNewlines(s)
    ensures Quote("") == "> "
  {
    JoinReplaces(s);
  }

  lemma {:induction false} JoinReplaces(s: string)
    ensures Join(Lines(s), "\n> ") == ReplaceNewlines(s)
  {
    if s != [] {
      var rest := Lines(s[1..]);
      JoinReplaces(s[1..]);
      if s[0] == '\n' {
        assert Lines(s) == [""] + rest;
        assert ([""] + rest)[1..] == rest;
      } else {
        JoinConsHead(s[0], rest, "\n> ");
      }
    }
  }

  /** Quoting adds no newline and removes none. */
  lemma {:induction false} QuoteKeepsNewlines(s: string)
    ensures multiset(Quote(s))['\n'] == multiset(s)['\n']
  {
    QuoteReplacesNewlines(s);
    ReplaceKeepsNewlines(s);
  }

  lemma {:induction false} ReplaceKeepsNewlines(s: string)
    ensures multiset(ReplaceNewlines(s))['\n'] == multiset(s)['\n']
  {
    if s != [] {
      ReplaceKeepsNewlines(s[1..]);
      var head := if s[0] == '\n' then "\n> " else [s[0]];
      assert ReplaceNewlines(s) == head + ReplaceNewlines(s[1..]);
      assert multiset(head)['\n'] == multiset([s[0]])['\n'];
      assert s == [s[0]] + s[1..];
    }
  }

  /** Line `i` of the quoted text is "> " followed by line `i` of the text. */
  lemma QuoteLines(s: string)
    ensures Lines(Quote(s)) == PrefixLines(Lines(s))
    ensures |Lines(Quote(s))| == |Lines(s)|
    ensures forall i :: 0 <= i < |Lines(s)| ==> Lines(Quote(s))[i] == "> " + Lines(s)[i]
  {
    var ls := Lines(s);
    QuoteAsPrefixedLines(ls);
    forall i | 0 <= i < |ls| ensures '\n' !in PrefixLines(ls)[i] {
      assert PrefixLines(ls)[i] == "> " + ls[i];
    }
    LinesJoin(PrefixLines(ls));
  }

  /** Removing the leading "> " of every quoted line gives back the text. */
  lemma QuoteRoundTrip(s: string)
    ensures Unquote(Quote(s)) == s
  {
    var ls := Lines(s);
    QuoteLines(s);
    forall i | 0 <= i < |ls| ensures StripPrefix("> " + ls[i]) == ls[i] {
      assert ("> " + ls[i])[..2] == "> ";
      assert ("> " + ls[i])[2..] == ls[i];
    }
    assert StripLines(PrefixLines(ls)) == ls;
    JoinLines(s);
  }
}
