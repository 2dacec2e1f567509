/** The ignore-list builder `loadIgnore` (main.go and src/main.go hold the same
    code): find `.loccignore` upwards from the working directory, split its text
    on line feeds, and apply each line to the global pattern list in order. */
module IgnoreFile {
  import opened Optional
  import opened Paths
  import opened GoStrings
  import Glob
  import FindUp

  const FileName: string := ".loccignore"

  /** `bytes.HasPrefix(line, []byte{c})`. */
  predicate StartsWith(line: string, c: char) {
    line != [] && line[0] == c
  }

  /** What one line does to the list: nothing, remove every entry equal to a
      pattern, or append a pattern. */
  datatype Rule = Skip | Remove(pattern: string) | Append(pattern: string)

  /** How a line is read. Blank lines and lines whose raw text starts with `#` are
      skipped; a line whose raw text starts with `!` removes its trimmed text with
      every leading `!` stripped; any other line appends its trimmed text. The two
      prefix tests look at the line before it is trimmed. */
  function RuleOf(line: string): (r: Rule)
    ensures r.Append? ==> r.pattern != [] && Trimmed(r.pattern) && line != [] && line[0] != '#' && line[0] != '!'
    ensures r.Remove? ==> line != [] && line[0] == '!' && (r.pattern == [] || r.pattern[0] != '!')
  {
    var text := TrimSpace(line);
    if text != "" && !StartsWith(line, '#') && StartsWith(line, '!') then Remove(TrimLeftChar(text, '!'))
    else if text != "" && !StartsWith(line, '#') then Append(text)
    else Skip
  }

  /** The list with every entry equal to `x` left out, the others kept in order. */
  function Without(ps: seq<string>, x: string): (r: seq<string>)
    ensures x !in r
    ensures forall y :: y in r <==> y in ps && y != x
    ensures |r| <= |ps|
  {
    if ps == [] then [] else (if ps[0] == x then [] else [ps[0]]) + Without(ps[1..], x)
  }

  /** The list after one line. */
  function AfterLine(ps: seq<string>, line: string): (r: seq<string>)
    ensures |r| <= |ps| + 1
  {
    match RuleOf(line)
    case Skip => ps
    case Remove(p) => Without(ps, p)
    case Append(p) => ps + [p]
  }

  /** The list after a sequence of lines, applied first to last. */
  function AfterLines(ps: seq<string>, lines: seq<string>): seq<string> {
    if lines == [] then ps else AfterLine(AfterLines(ps, lines[..|lines| - 1]), lines[|lines| - 1])
  }

  /** The list after the whole content of an ignore file. */
  function Loaded(ps: seq<string>, content: string): seq<string> {
    AfterLines(ps, Split(content, '\n'))
  }

  /** The list after `loadIgnore`: unchanged when the working directory is
      unknown, the file is found nowhere up to the root, or it cannot be read. */
  function AfterIgnoreFile(ps: seq<string>, getwd: Option<Path>, present: Path -> bool,
                           readFile: Path -> Option<string>): seq<string> {
    match FindUp.Locate(getwd, present, FileName)
    case Found(path) => (match readFile(path) case None => ps case Some(content) => Loaded(ps, content))
    case _ => ps
  }

  /** The global `IGNORE` slice, which `loadIgnore` rebuilds line by line. */
  class PatternList {
    var patterns: seq<string>

    constructor (initial: seq<string>)
      ensures patterns == initial
    {
      patterns := initial;
    }

    /** The inner loop of a `!` line: keep every entry that differs from `x`. */
    method Remove(x: string)
      modifies this
      ensures patterns == Without(old(patterns), x)
    {
      var ps := patterns;
      var kept: seq<string> := [];
      var k := 0;
      while k < |ps|
        invariant 0 <= k <= |ps|
        invariant kept == Without(ps[..k], x)
      {
        WithoutConcat(ps[..k], [ps[k]], x);
        assert ps[..k + 1] == ps[..k] + [ps[k]];
        if x != ps[k] {
          kept := kept + [ps[k]];
        }
        k := k + 1;
      }
      assert ps[..k] == ps;
      patterns := kept;
    }

    /** One iteration of `loadIgnore`'s loop over the lines. */
    method ApplyLine(line: string)
      modifies this
      ensures patterns == AfterLine(old(patterns), line)
    {
      var text := TrimSpace(line);
      if text != "" && !StartsWith(line, '#') && StartsWith(line, '!') {
        Remove(TrimLeftChar(text, '!'));
      } else if text != "" && !StartsWith(line, '#') {
        patterns := patterns + [text];
      }
    }

    /** `loadIgnore`'s loop over `bytes.SplitSeq(content, "\n")`. */
    method ApplyContent(content: string)
      modifies this
      ensures patterns == Loaded(old(patterns), content)
    {
      var lines := Split(content, '\n');
      var i := 0;
      while i < |lines|
        invariant 0 <= i <= |lines|
        invariant patterns == AfterLines(old(patterns), lines[..i])
      {
        assert lines[..i + 1][..i] == lines[..i];
        ApplyLine(lines[i]);
        i := i + 1;
      }
      assert lines[..i] == lines;
    }
  }

  /** `loadIgnore`: locate the file, read it, apply it. A failed search or read
      leaves the list as it was. */
  method LoadIgnore(list: PatternList, getwd: Option<Path>, present: Path -> bool,
                    readFile: Path -> Option<string>)
    modifies list
    ensures list.patterns == AfterIgnoreFile(old(list.patterns), getwd, present, readFile)
  {
    var located := FindUp.FindUp(getwd, present, FileName);
    if located.Found? {
      var content := readFile(located.path);
      if content.Some? {
        list.ApplyContent(content.value);
      }
    }
  }

  /** Leaving out entries distributes over concatenation, so the kept entries
      stay in their original order. */
  lemma {:induction false} WithoutConcat(a: seq<string>, b: seq<string>, x: string)
    ensures Without(a + b, x) == Without(a, x) + Without(b, x)
  {
    if a == [] {
      assert a + b == b;
    } else {
      var head := if a[0] == x then [] else [a[0]];
      assert (a + b)[0] == a[0];
      assert (a + b)[1..] == a[1..] + b;
      WithoutConcat(a[1..], b, x);
      assert Without(a + b, x) == head + Without(a[1..] + b, x);
      assert Without(a, x) == head + Without(a[1..], x);
      assert head + (Without(a[1..], x) + Without(b, x)) == (head + Without(a[1..], x)) + Without(b, x);
    }
  }

  /** Negating a pattern that is not in the list changes nothing. */
  lemma {:induction false} WithoutAbsent(ps: seq<string>, x: string)
    requires x !in ps
    ensures Without(ps, x) == ps
  {
    if ps != [] {
      WithoutAbsent(ps[1..], x);
    }
  }

  /** Every entry other than `x` keeps its number of occurrences. */
  lemma {:induction false} WithoutCounts(ps: seq<string>, x: string)
    ensures multiset(Without(ps, x)) == multiset(ps)[x := 0]
  {
    if ps != [] {
      var rest := Without(ps[1..], x);
      WithoutCounts(ps[1..], x);
      assert ps == [ps[0]] + ps[1..];
      assert multiset(ps) == multiset([ps[0]]) + multiset(ps[1..]);
      if ps[0] == x {
        assert Without(ps, x) == rest;
      } else {
        assert Without(ps, x) == [ps[0]] + rest;
        assert multiset(Without(ps, x)) == multiset([ps[0]]) + multiset(rest);
      }
    }
  }

  /** The effect of a line, by its shape: white space, non-empty text with no
      white space at its ends, white space. Only an unindented `#` or `!` is a
      mark; an indented one is kept as part of the appended text. */
  lemma LineEffect(ps: seq<string>, pre: string, t: string, post: string)
    requires AllSpace(pre) && AllSpace(post) && t != [] && Trimmed(t)
    ensures AfterLine(ps, pre + t + post) ==
      if pre == [] && t[0] == '#' then ps
      else if pre == [] && t[0] == '!' then Without(ps, TrimLeftChar(t, '!'))
      else ps + [t]
  {
    var line := pre + t + post;
    TrimSpacePadded(pre, t, post);
    if pre == [] {
      assert line[0] == t[0];
    } else {
      assert line[0] == pre[0];
    }
    RuleOfTrimmed(line, t);
  }

  /** A line of white space only changes nothing. */
  lemma BlankLineSkipped(ps: seq<string>, line: string)
    requires AllSpace(line)
    ensures AfterLine(ps, line) == ps
  {
    TrimSpaceEmpty(line);
  }

  /** How a line is read, given its trimmed text. */
  lemma RuleOfTrimmed(line: string, text: string)
    requires TrimSpace(line) == text
    ensures text == "" || StartsWith(line, '#') ==> RuleOf(line) == Skip
    ensures text != "" && StartsWith(line, '!') ==> RuleOf(line) == Remove(TrimLeftChar(text, '!'))
    ensures text != "" && !StartsWith(line, '#') && !StartsWith(line, '!') ==> RuleOf(line) == Append(text)
  {
  }

  /** The `!` test looks at the raw line: an indented `!` line appends its text,
      mark included. */
  lemma IndentedBangAppends(x: string)
    requires x != [] && Trimmed(x)
    ensures RuleOf("  !" + x) == Append("!" + x)
  {
    TrimSpaceMarked("  ", "!", x);
    assert "  " + ("!" + x) == "  !" + x;
    RuleOfTrimmed("  !" + x, "!" + x);
  }

  /** The `#` test looks at the raw line: an indented `#` line is not a comment
      and appends its text, mark included. */
  lemma IndentedHashAppends(x: string)
    requires x != [] && Trimmed(x)
    ensures RuleOf("  #" + x) == Append("#" + x)
  {
    TrimSpaceMarked("  ", "#", x);
    assert "  " + ("#" + x) == "  #" + x;
    RuleOfTrimmed("  #" + x, "#" + x);
  }

  /** Every leading `!` is stripped, so `!!x` negates `x`. */
  lemma RepeatedBangsNegate(x: string)
    requires x != [] && Trimmed(x) && x[0] != '!'
    ensures RuleOf("!!" + x) == Remove(x)
  {
    TrimSpaceMarked("", "!!", x);
    assert "" + ("!!" + x) == "!!" + x;
    TrimLeftCharPadded("!!", x, '!');
    RuleOfTrimmed("!!" + x, "!!" + x);
  }

  /** White space after the `!` stays part of the negated pattern: `! x` negates
      ` x`. */
  lemma SpaceAfterBangKept(x: string)
    requires x != [] && Trimmed(x)
    ensures RuleOf("! " + x) == Remove(" " + x)
  {
    TrimSpaceMarked("", "! ", x);
    assert "" + ("! " + x) == "! " + x == "!" + (" " + x);
    TrimLeftCharPadded("!", " " + x, '!');
    RuleOfTrimmed("! " + x, "! " + x);
  }

  /** Entries that do not start with white space: what appending trimmed lines
      produces, and what the built-in defaults are. */
  predicate NoLeadingSpace(ps: seq<string>) {
    forall k :: 0 <= k < |ps| ==> ps[k] == [] || !IsSpace(ps[k][0])
  }

  /** Applying lines keeps every entry free of leading white space. */
  lemma {:induction false} AfterLinesNoLeadingSpace(ps: seq<string>, lines: seq<string>)
    requires NoLeadingSpace(ps)
    ensures NoLeadingSpace(AfterLines(ps, lines))
  {
    if lines != [] {
      var before := AfterLines(ps, lines[..|lines| - 1]);
      AfterLinesNoLeadingSpace(ps, lines[..|lines| - 1]);
      match RuleOf(lines[|lines| - 1])
      case Skip =>
      case Append(p) =>
      case Remove(p) =>
        var after := Without(before, p);
        forall k | 0 <= k < |after| ensures after[k] == [] || !IsSpace(after[k][0]) {
          assert after[k] in before;
        }
    }
  }

  /** A `!` line whose pattern, once its `!` marks are stripped, starts with white
      space names something such a list never holds, so the line removes
      nothing: `! x` does not undo `x`. */
  lemma SpacedNegationIsNoOp(ps: seq<string>, line: string)
    requires NoLeadingSpace(ps)
    requires RuleOf(line).Remove?
    requires RuleOf(line).pattern != [] && IsSpace(RuleOf(line).pattern[0])
    ensures AfterLine(ps, line) == ps
  {
    WithoutAbsent(ps, RuleOf(line).pattern);
  }

  /** A line kept as it stands is non-empty, already trimmed and starts with
      neither mark. */
  lemma AppendedAsIs(x: string)
    requires RuleOf(x) == Append(x)
    ensures x != [] && Trimmed(x) && !StartsWith(x, '#') && !StartsWith(x, '!')
  {
    RuleOfTrimmed(x, TrimSpace(x));
  }

  /** `!x` negates a trimmed `x` that does not start with `!`. */
  lemma SingleBangNegates(x: string)
    requires x != [] && Trimmed(x) && x[0] != '!'
    ensures RuleOf("!" + x) == Remove(x)
  {
    TrimSpaceMarked("", "!", x);
    assert "" + ("!" + x) == "!" + x;
    TrimLeftCharPadded("!", x, '!');
    RuleOfTrimmed("!" + x, "!" + x);
  }

  /** A line kept as it stands, preceded by `!`, negates exactly that line. */
  lemma NegatedAppend(x: string)
    requires RuleOf(x) == Append(x)
    ensures RuleOf("!" + x) == Remove(x)
  {
    AppendedAsIs(x);
    SingleBangNegates(x);
  }

  /** Two lines applied in order. */
  lemma AfterTwoLines(ps: seq<string>, a: string, b: string)
    ensures AfterLines(ps, [a, b]) == AfterLine(AfterLine(ps, a), b)
  {
    assert [a, b][..1] == [a];
    assert [a][..0] == [];
    assert AfterLines(ps, [a]) == AfterLine(ps, a);
  }

  /** Appending a pattern and then negating it leaves no copy of it; negating it
      before it was ever added does nothing, so a later append still takes
      effect. */
  lemma NegationOrder(ps: seq<string>, x: string)
    requires RuleOf(x) == Append(x)
    ensures x !in AfterLines(ps, [x, "!" + x])
    ensures x !in ps ==> AfterLines(ps, ["!" + x, x]) == ps + [x]
  {
    NegatedAppend(x);
    AfterTwoLines(ps, x, "!" + x);
    AfterTwoLines(ps, "!" + x, x);
    if x !in ps {
      WithoutAbsent(ps, x);
    }
  }

  /** After a negation, the list matches a candidate exactly when some other
      pattern of the old list did: the negated text itself no longer counts,
      and nothing else is lost. */
  lemma NegationAndMatching(m: Glob.Matcher, ps: seq<string>, x: string, candidates: seq<string>)
    ensures Glob.Hits(m, Without(ps, x), candidates) <==>
      exists i, j :: 0 <= i < |ps| && 0 <= j < |candidates| && ps[i] != x && m(ps[i], candidates[j]) == Glob.Matched
  {
    var r := Without(ps, x);
    if Glob.Hits(m, r, candidates) {
      var i, j :| 0 <= i < |r| && 0 <= j < |candidates| && m(r[i], candidates[j]) == Glob.Matched;
      assert r[i] in ps;
      var k :| 0 <= k < |ps| && ps[k] == r[i];
      assert ps[k] != x && m(ps[k], candidates[j]) == Glob.Matched;
    }
    if exists i, j :: 0 <= i < |ps| && 0 <= j < |candidates| && ps[i] != x && m(ps[i], candidates[j]) == Glob.Matched {
      var i, j :| 0 <= i < |ps| && 0 <= j < |candidates| && ps[i] != x && m(ps[i], candidates[j]) == Glob.Matched;
      assert ps[i] in r;
      var k :| 0 <= k < |r| && r[k] == ps[i];
      assert m(r[k], candidates[j]) == Glob.Matched;
    }
  }
}
