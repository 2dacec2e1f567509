/** The current program, main.go: build the ignore list, walk the working
    directory, count lines, comment lines and blank lines of every file that is
    not ignored, and print a padded summary. Directories are never matched
    against the patterns; each file is. */
module Locc {
  import opened Optional
  import opened Paths
  import opened GoStrings
  import opened FileWalk
  import Glob
  import IgnoreFile
  import HelperColors

  /** The literal value of `IGNORE`. */
  const Defaults: seq<string> := [".git", "**/node_modules/**", "**/dist/**", "**/coverage/**"]

  /** An entry of `helpers.Languages`. */
  datatype LanguageMeta = LanguageMeta(ext: string, lang: string, color: string)

  /** The tables of the helpers package the program consults:
      `helpers.BINARY_EXTENSIONS`, `helpers.CommentMarkers` and
      `helpers.Languages`. Their contents are not part of this model. */
  datatype Tables = Tables(binaryExtensions: seq<string>, commentMarkers: map<string, string>,
                           languages: seq<LanguageMeta>)

  /** `IGNORE` once `main` has appended the binary extensions, before the ignore
      file is read. */
  function InitialPatterns(t: Tables): (ps: seq<string>)
    ensures |ps| == |Defaults| + |t.binaryExtensions|
    ensures ps[..|Defaults|] == Defaults && ps[|Defaults|..] == t.binaryExtensions
  {
    Defaults + t.binaryExtensions
  }

  // ---------------------------------------------------------------- counting

  /** The three numbers `countLines` returns. */
  datatype Counts = Counts(lines: int, comments: int, blanks: int)

  const Zero: Counts := Counts(0, 0, 0)

  function Add(a: Counts, b: Counts): Counts {
    Counts(a.lines + b.lines, a.comments + b.comments, a.blanks + b.blanks)
  }

  /** No counter is negative and no line is both blank and a comment. */
  predicate Sane(c: Counts) {
    0 <= c.comments && 0 <= c.blanks && c.comments + c.blanks <= c.lines
  }

  predicate IsBlank(line: string) {
    TrimSpace(line) == ""
  }

  predicate IsComment(line: string, marker: string) {
    HasPrefix(TrimSpace(line), marker)
  }

  /** The number of blank lines. */
  function Blanks(lines: seq<string>): nat {
    if lines == [] then 0
    else Blanks(lines[..|lines| - 1]) + (if IsBlank(lines[|lines| - 1]) then 1 else 0)
  }

  /** The number of lines whose trimmed text starts with `marker`. */
  function Comments(lines: seq<string>, marker: string): nat {
    if lines == [] then 0
    else Comments(lines[..|lines| - 1], marker) + (if IsComment(lines[|lines| - 1], marker) then 1 else 0)
  }

  /** What `countLines(path, marker)` reports: nothing when the file cannot be
      opened or the scan fails, the three counts otherwise. */
  function FileCounts(text: FileText, marker: string): Option<Counts> {
    if text.Scanned? && !text.failed then Some(Counts(|text.lines|, Comments(text.lines, marker), Blanks(text.lines)))
    else None
  }

  /** Counting one more line. */
  lemma CountStep(lines: seq<string>, marker: string, i: nat)
    requires i < |lines|
    ensures Blanks(lines[..i + 1]) == Blanks(lines[..i]) + (if IsBlank(lines[i]) then 1 else 0)
    ensures Comments(lines[..i + 1], marker) == Comments(lines[..i], marker) + (if IsComment(lines[i], marker) then 1 else 0)
  {
    var p := lines[..i + 1];
    assert p[..i] == lines[..i] && p[i] == lines[i];
  }

  /** `countLines`: one pass over the scanned lines with three counters; all
      three are 0 when the file cannot be opened or the scanner reports an
      error. */
  method CountLines(text: FileText, marker: string) returns (c: Counts, ok: bool)
    ensures ok <==> FileCounts(text, marker).Some?
    ensures c == if ok then FileCounts(text, marker).value else Zero
  {
    if text.Unopenable? {
      return Zero, false;
    }
    var lines := text.lines;
    var count, commentCount, blankCount := 0, 0, 0;
    var i := 0;
    while i < |lines|
      invariant 0 <= i <= |lines|
      invariant count == i
      invariant blankCount == Blanks(lines[..i]) && commentCount == Comments(lines[..i], marker)
    {
      CountStep(lines, marker, i);
      var line := TrimSpace(lines[i]);
      if line == "" {
        blankCount := blankCount + 1;
      }
      if HasPrefix(line, marker) {
        commentCount := commentCount + 1;
      }
      count := count + 1;
      i := i + 1;
    }
    assert lines[..i] == lines;
    if text.failed {
      return Zero, false;
    }
    return Counts(count, commentCount, blankCount), true;
  }

  /** With a non-empty marker a blank line is never a comment, so blank and
      comment lines together are at most all lines. */
  lemma {:induction false} BlanksAndComments(lines: seq<string>, marker: string)
    requires marker != ""
    ensures Comments(lines, marker) + Blanks(lines) <= |lines|
  {
    if lines != [] {
      BlanksAndComments(lines[..|lines| - 1], marker);
    }
  }

  /** A file of blank lines only has every line blank and, with a non-empty
      marker, none a comment. */
  lemma {:induction false} AllBlank(lines: seq<string>, marker: string)
    requires marker != ""
    requires forall k :: 0 <= k < |lines| ==> IsBlank(lines[k])
    ensures Blanks(lines) == |lines| && Comments(lines, marker) == 0
  {
    if lines != [] {
      AllBlank(lines[..|lines| - 1], marker);
    }
  }

  /** A file whose every line starts with the marker counts each as a comment and,
      with a non-empty marker, none as blank. */
  lemma {:induction false} AllComments(lines: seq<string>, marker: string)
    requires marker != ""
    requires forall k :: 0 <= k < |lines| ==> IsComment(lines[k], marker)
    ensures Comments(lines, marker) == |lines| && Blanks(lines) == 0
  {
    if lines != [] {
      AllComments(lines[..|lines| - 1], marker);
    }
  }

  lemma FileCountsSane(text: FileText, marker: string)
    requires marker != ""
    ensures FileCounts(text, marker).Some? ==> Sane(FileCounts(text, marker).value)
  {
    if text.Scanned? {
      BlanksAndComments(text.lines, marker);
    }
  }

  /** `helpers.CommentMarkers[filepath.Ext(path)]`, with `//` when the lookup
      gives nothing. */
  function CommentMarker(markers: map<string, string>, path: Path): (marker: string)
    ensures marker != ""
    ensures marker != "//" ==> Ext(Render(path)) in markers && markers[Ext(Render(path))] == marker
    ensures Ext(Render(path)) !in markers ==> marker == "//"
    ensures Ext(Render(path)) in markers && markers[Ext(Render(path))] != "" ==> marker == markers[Ext(Render(path))]
  {
    var ext := Ext(Render(path));
    if ext in markers && markers[ext] != "" then markers[ext] else "//"
  }

  // ---------------------------------------------------------------- languages

  /** The language reported when no entry has the file's extension. */
  const Unknown: LanguageMeta := LanguageMeta("", "Unknown", HelperColors.Gray)

  /** The first entry of the table with extension `ext`, or `Unknown`. */
  function FirstLanguage(langs: seq<LanguageMeta>, ext: string): LanguageMeta {
    if langs == [] then Unknown
    else if langs[0].ext == ext then langs[0]
    else FirstLanguage(langs[1..], ext)
  }

  /** `FirstLanguage` is the `Unknown` default when no entry has the extension,
      and otherwise an entry with it that no earlier entry has. */
  lemma {:induction false} FirstLanguageIsFirst(langs: seq<LanguageMeta>, ext: string)
    ensures var l := FirstLanguage(langs, ext);
      ((forall k :: 0 <= k < |langs| ==> langs[k].ext != ext) ==> l == Unknown)
      && ((exists k :: 0 <= k < |langs| && langs[k].ext == ext) ==>
        exists i :: 0 <= i < |langs| && l == langs[i] && l.ext == ext && forall j :: 0 <= j < i ==> langs[j].ext != ext)
  {
    if langs != [] && langs[0].ext != ext {
      FirstLanguageIsFirst(langs[1..], ext);
      assert forall j :: 1 <= j < |langs| ==> langs[j] == langs[1..][j - 1];
      if exists k :: 0 <= k < |langs| && langs[k].ext == ext {
        var k :| 0 <= k < |langs| && langs[k].ext == ext;
        assert langs[1..][k - 1].ext == ext;
        var i :| 0 <= i < |langs| - 1 && FirstLanguage(langs, ext) == langs[1..][i] && langs[1..][i].ext == ext
          && forall j :: 0 <= j < i ==> langs[1..][j].ext != ext;
        assert FirstLanguage(langs, ext) == langs[i + 1];
      }
    } else if langs != [] {
      assert FirstLanguage(langs, ext) == langs[0];
    }
  }

  /** The loop over `helpers.Languages`: the first entry with the extension, else
      the `Unknown`/gray default. */
  method LookupLanguage(langs: seq<LanguageMeta>, ext: string) returns (l: LanguageMeta)
    ensures l == FirstLanguage(langs, ext)
  {
    l := Unknown;
    var i := 0;
    while i < |langs|
      invariant 0 <= i <= |langs|
      invariant FirstLanguage(langs, ext) == FirstLanguage(langs[i..], ext)
    {
      if langs[i].ext == ext {
        l := langs[i];
        return;
      }
      assert langs[i..][1..] == langs[i + 1..];
      i := i + 1;
    }
  }

  // ---------------------------------------------------------------- matching

  /** What the walk callback works with: the final pattern list, the match
      oracle, `filepath.Rel` from the working directory, and the tables. */
  datatype Config = Config(patterns: seq<string>, m: Glob.Matcher, rel: Path -> Option<string>,
                           markers: map<string, string>, languages: seq<LanguageMeta>)

  /** The three strings `shouldIgnore` tries each pattern on: the base name, the
      path relative to the working directory (the full path when `Rel` fails) and
      the full path. */
  function Candidates(cfg: Config, path: Path): seq<string> {
    var norm := Render(path);
    var rel := match cfg.rel(path) case Some(r) => r case None => norm;
    [Base(path), rel, norm]
  }

  /** `shouldIgnore(path)`. */
  predicate Ignored(cfg: Config, path: Path) {
    Glob.Hits(cfg.m, cfg.patterns, Candidates(cfg, path))
  }

  /** `shouldIgnore`: true exactly when some pattern matches one of the three
      candidates. */
  method ShouldIgnore(cfg: Config, path: Path) returns (ignored: bool)
    ensures ignored <==> exists i, j :: (0 <= i < |cfg.patterns| && 0 <= j < 3 &&
      cfg.m(cfg.patterns[i], Candidates(cfg, path)[j]) == Glob.Matched)
    ensures ignored <==> Ignored(cfg, path)
  {
    var norm := Render(path);
    var rel := cfg.rel(path);
    var relText := if rel.Some? then rel.value else norm;
    assert Candidates(cfg, path) == [Base(path), relText, norm];
    ignored := Glob.MatchesAny(cfg.m, cfg.patterns, [Base(path), relText, norm]);
  }

  // ---------------------------------------------------------------- the walk

  /** A per-file report line: relative path, language and counts. */
  datatype Row = Row(relativePath: string, language: LanguageMeta, counts: Counts)

  /** The variables the callback updates: the three totals and the report lines
      printed so far. */
  datatype Tally = Tally(totals: Counts, rows: seq<Row>)

  /** What `main` makes of a file: nothing when it is ignored or its lines cannot
      be counted, its counts otherwise. */
  function Counted(cfg: Config, path: Path, text: FileText): Option<Counts> {
    if Ignored(cfg, path) then None else FileCounts(text, CommentMarker(cfg.markers, path))
  }

  /** What an event adds to the totals: a counted file's counts, nothing for
      anything else. */
  function Contribution(cfg: Config, ev: Event): Counts {
    match ev
    case FileEvent(path, text) => (match Counted(cfg, path, text) case None => Zero case Some(c) => c)
    case _ => Zero
  }

  /** The report line an event prints: one for a counted file whose relative path
      is known, none otherwise. A counted file whose relative path cannot be
      computed still adds to the totals. */
  function ReportLines(cfg: Config, ev: Event): seq<Row> {
    match ev
    case FileEvent(path, text) =>
      (match Counted(cfg, path, text)
       case None => []
       case Some(c) =>
         match cfg.rel(path)
         case None => []
         case Some(r) => [Row(r, FirstLanguage(cfg.languages, Ext(r)), c)])
    case _ => []
  }

  /** The walk callback of `main`. An error stops the walk; a directory is
      entered without being matched; any other event continues, adding what it
      contributes to the totals and its report line to the rows. */
  function Callback(cfg: Config, t: Tally, ev: Event): (r: Reply<Tally>)
    ensures r.signal != SkipDir
    ensures r.signal == Stop <==> ev.ErrorEvent?
  {
    if ev.ErrorEvent? then Reply(t, Stop)
    else Reply(Tally(Add(t.totals, Contribution(cfg, ev)), t.rows + ReportLines(cfg, ev)), Continue)
  }

  function Cb(cfg: Config): (Tally, Event) -> Reply<Tally> {
    (t: Tally, ev: Event) => Callback(cfg, t, ev)
  }

  /** The sum of the counts of every file among the events that is not ignored and
      can be counted. */
  function Summed(cfg: Config, evs: seq<Event>): Counts {
    if evs == [] then Zero else Add(Contribution(cfg, evs[0]), Summed(cfg, evs[1..]))
  }

  predicate NoErrorEvent(evs: seq<Event>) {
    forall k :: 0 <= k < |evs| ==> !evs[k].ErrorEvent?
  }

  /** The callback only ever answers nil or an error; it never skips. */
  lemma CallbackNeverSkips(cfg: Config)
    ensures NeverSkips(Cb(cfg))
  {
  }

  /** Only a file event changes the tally: a directory or an error event leaves
      the totals and the rows as they were. */
  lemma CallbackOnlyFiles(cfg: Config, t: Tally, ev: Event)
    requires !ev.FileEvent?
    ensures Callback(cfg, t, ev).state == t
  {
    assert Contribution(cfg, ev) == Zero && ReportLines(cfg, ev) == [];
    assert t.rows + [] == t.rows;
  }

  /** One call of the callback: it answers an error for an error event and nil
      otherwise, and adds the event's contribution to the totals. */
  lemma CallbackStep(cfg: Config, t: Tally, ev: Event)
    ensures Cb(cfg)(t, ev).signal == if ev.ErrorEvent? then Stop else Continue
    ensures Cb(cfg)(t, ev).state.totals == if ev.ErrorEvent? then t.totals else Add(t.totals, Contribution(cfg, ev))
  {
  }

  lemma NoErrorEventStep(evs: seq<Event>)
    requires evs != []
    ensures NoErrorEvent(evs) <==> !evs[0].ErrorEvent? && NoErrorEvent(evs[1..])
  {
    assert forall k :: 1 <= k < |evs| ==> evs[k] == evs[1..][k - 1];
  }

  /** The first step of a fold with the callback. */
  lemma FoldStep(cfg: Config, evs: seq<Event>, t: Tally)
    requires evs != []
    ensures Fold(evs, t, Cb(cfg)) ==
      if evs[0].ErrorEvent? then Reply(t, Stop) else Fold(evs[1..], Cb(cfg)(t, evs[0]).state, Cb(cfg))
  {
    CallbackStep(cfg, t, evs[0]);
  }

  lemma {:induction false} FoldSignal(cfg: Config, evs: seq<Event>, t: Tally)
    ensures Fold(evs, t, Cb(cfg)).signal == Continue <==> NoErrorEvent(evs)
  {
    if evs != [] {
      FoldStep(cfg, evs, t);
      NoErrorEventStep(evs);
      if !evs[0].ErrorEvent? {
        FoldSignal(cfg, evs[1..], Cb(cfg)(t, evs[0]).state);
      }
    }
  }

  lemma {:induction false} FoldSum(cfg: Config, evs: seq<Event>, t: Tally)
    requires NoErrorEvent(evs)
    ensures Fold(evs, t, Cb(cfg)).state.totals == Add(t.totals, Summed(cfg, evs))
  {
    if evs != [] {
      NoErrorEventStep(evs);
      FoldStep(cfg, evs, t);
      CallbackStep(cfg, t, evs[0]);
      var u := Cb(cfg)(t, evs[0]).state;
      assert u.totals == Add(t.totals, Contribution(cfg, evs[0]));
      FoldSum(cfg, evs[1..], u);
      assert Summed(cfg, evs) == Add(Contribution(cfg, evs[0]), Summed(cfg, evs[1..]));
    }
  }

  /** Feeding events to the callback goes through exactly when none of them is an
      error, and then the totals have grown by the counts of the files that are
      neither ignored nor unreadable. */
  lemma FoldTotals(cfg: Config, evs: seq<Event>, t: Tally)
    ensures Fold(evs, t, Cb(cfg)).signal == Continue <==> NoErrorEvent(evs)
    ensures NoErrorEvent(evs) ==> Fold(evs, t, Cb(cfg)).state.totals == Add(t.totals, Summed(cfg, evs))
  {
    FoldSignal(cfg, evs, t);
    if NoErrorEvent(evs) {
      FoldSum(cfg, evs, t);
    }
  }

  /** The callback keeps the totals sane. */
  lemma CallbackKeepsSane(cfg: Config, t: Tally, ev: Event)
    requires Sane(t.totals)
    ensures Sane(Callback(cfg, t, ev).state.totals)
  {
    if ev.FileEvent? {
      FileCountsSane(ev.text, CommentMarker(cfg.markers, ev.path));
    }
  }

  lemma {:induction false} FoldKeepsSane(cfg: Config, evs: seq<Event>, t: Tally)
    requires Sane(t.totals)
    ensures Sane(Fold(evs, t, Cb(cfg)).state.totals)
  {
    if evs != [] {
      CallbackKeepsSane(cfg, t, evs[0]);
      FoldKeepsSane(cfg, evs[1..], Callback(cfg, t, evs[0]).state);
    }
  }

  /** The walk of `main`: it succeeds exactly when no entry of the tree is an
      error; its totals are then the sums over the counted files, and the code
      line count `lines - comments - blanks` is never negative. */
  lemma WalkOutcome(cfg: Config, root: Entry, wd: Path)
    ensures var (t, ok) := Walk(root, wd, Tally(Zero, []), Cb(cfg));
      (ok <==> NoErrorEvent(Preorder(root, wd)))
      && (ok ==> t.totals == Summed(cfg, Preorder(root, wd)))
      && Sane(t.totals) && t.totals.lines - t.totals.comments - t.totals.blanks >= 0
  {
    var evs, t0 := Preorder(root, wd), Tally(Zero, []);
    CallbackNeverSkips(cfg);
    WalkIsFold(root, wd, t0, Cb(cfg));
    FoldTotals(cfg, evs, t0);
    FoldKeepsSane(cfg, evs, t0);
    var f := Fold(evs, t0, Cb(cfg));
    assert Walk(root, wd, t0, Cb(cfg)) == (f.state, f.signal == Continue);
  }

  /** The state the walk callback of `main` captures. */
  class Walker {
    var totals: Counts
    var rows: seq<Row>

    function State(): Tally
      reads this
    {
      Tally(totals, rows)
    }

    constructor ()
      ensures totals == Zero && rows == []
    {
      totals := Zero;
      rows := [];
    }

    /** One call of the callback. */
    method Visit(cfg: Config, ev: Event) returns (signal: Signal)
      modifies this
      ensures Reply(State(), signal) == Callback(cfg, old(State()), ev)
      ensures Sane(old(totals)) ==> Sane(totals)
    {
      if Sane(totals) {
        CallbackKeepsSane(cfg, State(), ev);
      }
      assert rows + [] == rows && Add(totals, Zero) == totals;
      match ev
      case ErrorEvent(_) =>
        return Stop;
      case DirEvent(_) =>
        return Continue;
      case FileEvent(path, text) =>
        var ignored := ShouldIgnore(cfg, path);
        if ignored {
          assert Counted(cfg, path, text) == None;
          return Continue;
        }
        var marker := CommentMarker(cfg.markers, path);
        var c, ok := CountLines(text, marker);
        if !ok {
          return Continue;
        }
        assert Counted(cfg, path, text) == Some(c);
        totals := Add(totals, c);
        var rel := cfg.rel(path);
        if rel.None? {
          return Continue;
        }
        var lang := LookupLanguage(cfg.languages, Ext(rel.value));
        rows := rows + [Row(rel.value, lang, c)];
        return Continue;
    }

    /** `filepath.Walk(wd, callback)`: the callback is called on each event of the
        preorder until it returns an error. */
    method WalkTree(cfg: Config, root: Entry, wd: Path) returns (ok: bool)
      modifies this
      ensures (State(), ok) == Walk(root, wd, old(State()), Cb(cfg))
    {
      CallbackNeverSkips(cfg);
      WalkIsFold(root, wd, State(), Cb(cfg));
      var evs := Preorder(root, wd);
      var i := 0;
      while i < |evs|
        invariant 0 <= i <= |evs|
        invariant Fold(evs, old(State()), Cb(cfg)) == Fold(evs[i..], State(), Cb(cfg))
      {
        var signal := Visit(cfg, evs[i]);
        if signal != Continue {
          return false;
        }
        assert evs[i..][1..] == evs[i + 1..];
        i := i + 1;
      }
      return true;
    }
  }

  // ---------------------------------------------------------------- summary

  /** `n` spaces. */
  function Spaces(n: nat): (s: string)
    ensures |s| == n && forall k :: 0 <= k < n ==> s[k] == ' '
  {
    if n == 0 then "" else Spaces(n - 1) + " "
  }

  /** `fmt.Sprintf("%-*s", width, s)`: `s` padded on the right with spaces to
      `width`, unchanged when it is already that long. */
  function PadRight(s: string, width: nat): string {
    if |s| >= width then s else s + Spaces(width - |s|)
  }

  /** `max(len(a), len(b), ...)`. */
  function Longest(ss: seq<string>): nat {
    if ss == [] then 0 else if |ss[0]| >= Longest(ss[1..]) then |ss[0]| else Longest(ss[1..])
  }

  function PadAll(ss: seq<string>, width: nat): seq<string> {
    if ss == [] then [] else [PadRight(ss[0], width)] + PadAll(ss[1..], width)
  }

  /** The number renderings the summary needs: `%d` for a count and `%.2f` of the
      code percentage for given code and total line counts. */
  datatype Formats = Formats(show: int -> string, percent: (int, int) -> string)

  /** The four summary strings before padding, in the order they are printed. */
  function SummaryStrings(totals: Counts, fmt: Formats): seq<string> {
    var code := totals.lines - totals.comments - totals.blanks;
    [" TOTAL " + fmt.show(totals.lines) + " ",
     " COMMENTS " + fmt.show(totals.comments) + " ",
     " BLANKS " + fmt.show(totals.blanks) + " ",
     " CODE " + fmt.show(code) + " (" + fmt.percent(code, totals.lines) + "%) "]
  }

  /** The summary strings padded to the longest of them. */
  function Summary(totals: Counts, fmt: Formats): seq<string> {
    var ss := SummaryStrings(totals, fmt);
    PadAll(ss, Longest(ss))
  }

  lemma {:induction false} LongestBounds(ss: seq<string>)
    ensures forall k :: 0 <= k < |ss| ==> |ss[k]| <= Longest(ss)
    ensures ss != [] ==> exists k :: 0 <= k < |ss| && |ss[k]| == Longest(ss)
  {
    if ss != [] {
      LongestBounds(ss[1..]);
      assert forall k :: 1 <= k < |ss| ==> ss[k] == ss[1..][k - 1];
      if |ss[0]| < Longest(ss[1..]) {
        var k :| 0 <= k < |ss[1..]| && |ss[1..][k]| == Longest(ss[1..]);
        assert |ss[k + 1]| == Longest(ss);
      }
    }
  }

  /** Padding to a width no string exceeds makes every string that long, each
      being its original followed by nothing but spaces. */
  lemma {:induction false} PadAllShape(ss: seq<string>, width: nat)
    requires forall k :: 0 <= k < |ss| ==> |ss[k]| <= width
    ensures |PadAll(ss, width)| == |ss|
    ensures forall k :: 0 <= k < |ss| ==> (|PadAll(ss, width)[k]| == width
      && PadAll(ss, width)[k][..|ss[k]|] == ss[k]
      && forall j :: |ss[k]| <= j < width ==> PadAll(ss, width)[k][j] == ' ')
  {
    if ss != [] {
      PadAllShape(ss[1..], width);
      var p := PadAll(ss, width);
      assert p == [PadRight(ss[0], width)] + PadAll(ss[1..], width);
      forall k | 0 <= k < |ss|
        ensures |p[k]| == width && p[k][..|ss[k]|] == ss[k] && forall j :: |ss[k]| <= j < width ==> p[k][j] == ' '
      {
        if k == 0 {
          assert p[0] == PadRight(ss[0], width);
        } else {
          assert p[k] == PadAll(ss[1..], width)[k - 1] && ss[k] == ss[1..][k - 1];
        }
      }
    }
  }

  /** All four summary strings come out as long as the longest of them, each
      being its original followed only by spaces. */
  lemma SummaryShape(totals: Counts, fmt: Formats)
    ensures var ss := SummaryStrings(totals, fmt); var ps := Summary(totals, fmt);
      |ps| == 4 && forall k :: 0 <= k < 4 ==>
        (|ss[k]| <= |ps[k]| == Longest(ss) && ps[k][..|ss[k]|] == ss[k]
         && forall j :: |ss[k]| <= j < |ps[k]| ==> ps[k][j] == ' ')
    ensures var ss := SummaryStrings(totals, fmt);
      exists k :: 0 <= k < 4 && |Summary(totals, fmt)[k]| == |ss[k]|
  {
    var ss := SummaryStrings(totals, fmt);
    LongestBounds(ss);
    PadAllShape(ss, Longest(ss));
  }

  // ---------------------------------------------------------------- main

  /** The file system and the foreign functions `main` depends on: `os.Getwd`,
      `os.Stat` and `os.ReadFile` for the ignore file, the tree under the working
      directory, `filepath.Rel` from it, and `doublestar.Match`. */
  datatype Host = Host(getwd: Option<Path>, present: Path -> bool, readFile: Path -> Option<string>,
                       tree: Entry, rel: Path -> Option<string>, m: Glob.Matcher)

  /** How `main` ends: `must` exits because the working directory is unknown, the
      walk returns an error after printing some report lines, or the walk
      completes and the summary is printed. */
  datatype Outcome =
    | Exited
    | WalkFailed(rows: seq<Row>)
    | Completed(totals: Counts, rows: seq<Row>, summary: seq<string>)

  /** The pattern list the walk uses. */
  function Patterns(host: Host, tables: Tables): seq<string> {
    IgnoreFile.AfterIgnoreFile(InitialPatterns(tables), host.getwd, host.present, host.readFile)
  }

  function WalkConfig(host: Host, tables: Tables): Config {
    Config(Patterns(host, tables), host.m, host.rel, tables.commentMarkers, tables.languages)
  }

  /** What `main` does, as a value. */
  function Expected(host: Host, tables: Tables, fmt: Formats): Outcome {
    match host.getwd
    case None => Exited
    case Some(wd) =>
      var (t, ok) := Walk(host.tree, wd, Tally(Zero, []), Cb(WalkConfig(host, tables)));
      if ok then Completed(t.totals, t.rows, Summary(t.totals, fmt)) else WalkFailed(t.rows)
  }

  /** `main`: defaults plus binary extensions, the ignore file, the walk, the
      summary. */
  method Run(host: Host, tables: Tables, fmt: Formats) returns (o: Outcome)
    ensures o == Expected(host, tables, fmt)
  {
    var list := new IgnoreFile.PatternList(InitialPatterns(tables));
    IgnoreFile.LoadIgnore(list, host.getwd, host.present, host.readFile);
    if host.getwd.None? {
      return Exited;
    }
    var cfg := Config(list.patterns, host.m, host.rel, tables.commentMarkers, tables.languages);
    var walker := new Walker();
    var ok := walker.WalkTree(cfg, host.tree, host.getwd.value);
    if !ok {
      return WalkFailed(walker.rows);
    }
    return Completed(walker.totals, walker.rows, Summary(walker.totals, fmt));
  }

  /** A completed run reports totals whose code line count is not negative and
      four summary strings of equal width; a run fails exactly when the tree holds
      an entry that cannot be examined. */
  lemma RunOutcome(host: Host, tables: Tables, fmt: Formats)
    requires host.getwd.Some?
    ensures Expected(host, tables, fmt).Completed? <==> NoErrorEvent(Preorder(host.tree, host.getwd.value))
    ensures var o := Expected(host, tables, fmt);
      o.Completed? ==> (o.totals.lines - o.totals.comments - o.totals.blanks >= 0
        && |o.summary| == 4 && forall k :: 0 <= k < 4 ==> |o.summary[k]| == |o.summary[0]|)
  {
    var cfg := WalkConfig(host, tables);
    WalkOutcome(cfg, host.tree, host.getwd.value);
    var (t, ok) := Walk(host.tree, host.getwd.value, Tally(Zero, []), Cb(cfg));
    SummaryShape(t.totals, fmt);
  }
}
