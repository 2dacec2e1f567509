/** The older program, src/main.go: the same ignore file, but patterns are
    matched against the full path only, a matched directory is pruned with
    `SkipDir`, a matched file answers `SkipDir` too, and only the total number
    of lines is counted. */
module LoccSrc {
  import opened Optional
  import opened Paths
  import opened FileWalk
  import Glob
  import IgnoreFile

  /** The literal value of `IGNORE`. */
  const Defaults: seq<string> := ["**/.git/**", "**/node_modules/**", "**/dist/**", "**/coverage/**", "README.md", "LICENSE"]

  /** `BINARY_EXTENSIONS`. */
  const BinaryExtensions: seq<string> := ["**/*.exe", "**/*.dll", "**/*.so", "**/*.dylib", "**/*.o", "**/*.a",
                                          "**/*.lib", "**/*.class", "**/*.jar", "**/*.pyc", "**/*.pyo"]

  /** `IGNORE` once `main` has appended the binary extensions. */
  const InitialPatterns: seq<string> := Defaults + BinaryExtensions

  /** The six defaults come first, then the eleven extension patterns, in order. */
  lemma InitialPatternsOrder()
    ensures |InitialPatterns| == 17
    ensures InitialPatterns[..6] == Defaults && InitialPatterns[6..] == BinaryExtensions
    ensures forall k :: 6 <= k < 17 ==> |InitialPatterns[k]| > 5 && InitialPatterns[k][..5] == "**/*."
  {
  }

  // ---------------------------------------------------------------- counting

  /** What `countLines(path)` reports: the number of scanned lines, or nothing
      when the file cannot be opened or the scan fails. */
  function LineCount(text: FileText): Option<nat> {
    if text.Scanned? && !text.failed then Some(|text.lines|) else None
  }

  /** `countLines`: one counter incremented per scanned line; 0 together with the
      error when the file cannot be opened or the scan fails. */
  method CountLines(text: FileText) returns (count: nat, ok: bool)
    ensures ok <==> LineCount(text).Some?
    ensures count == if ok then LineCount(text).value else 0
  {
    if text.Unopenable? {
      return 0, false;
    }
    count := 0;
    var i := 0;
    while i < |text.lines|
      invariant 0 <= i <= |text.lines|
      invariant count == i
    {
      count := count + 1;
      i := i + 1;
    }
    if text.failed {
      return 0, false;
    }
    return count, true;
  }

  // ---------------------------------------------------------------- matching

  /** `shouldIgnore(path)`: some pattern matches the full path. */
  predicate Ignored(m: Glob.Matcher, patterns: seq<string>, path: Path) {
    Glob.Hits(m, patterns, [Render(path)])
  }

  /** `shouldIgnore`: one loop over the patterns against the full path; a
      malformed pattern moves on to the next one. */
  method ShouldIgnore(m: Glob.Matcher, patterns: seq<string>, path: Path) returns (ignored: bool)
    ensures ignored <==> exists i :: 0 <= i < |patterns| && m(patterns[i], Render(path)) == Glob.Matched
    ensures ignored <==> Ignored(m, patterns, path)
  {
    var norm := Render(path);
    var i := 0;
    while i < |patterns|
      invariant 0 <= i <= |patterns|
      invariant forall k :: 0 <= k < i ==> m(patterns[k], norm) != Glob.Matched
    {
      var matched := m(patterns[i], norm);
      if matched == Glob.BadPattern {
        i := i + 1;
        continue;
      }
      if matched == Glob.Matched {
        assert [norm][0] == norm;
        return true;
      }
      i := i + 1;
    }
    return false;
  }

  // ---------------------------------------------------------------- the walk

  /** The walk callback works with the final pattern list, the match oracle and
      `filepath.Rel` from the working directory. */
  datatype Config = Config(patterns: seq<string>, m: Glob.Matcher, rel: Path -> Option<string>)

  /** A per-file report line: the relative path and the line count. */
  datatype Row = Row(relativePath: string, lines: nat)

  /** A file that reaches the addition to `totalLines`, with its count. */
  datatype Counted = Counted(path: Path, lines: nat)

  /** What the callback updates: `totalLines` and the report lines printed so
      far. `counted` lists the files added to the total, in walk order; the
      program itself keeps only their sum. */
  datatype Tally = Tally(total: int, counted: seq<Counted>, rows: seq<Row>)

  const Start: Tally := Tally(0, [], [])

  predicate Matches(cfg: Config, path: Path) {
    Ignored(cfg.m, cfg.patterns, path)
  }

  /** The walk callback of `main`. An error stops the walk; a matched directory
      or file answers `SkipDir`; an unmatched directory is entered; an unmatched
      file whose lines can be counted adds to the total, and gets a report line
      only when its relative path can be computed. */
  function Callback(cfg: Config, t: Tally, ev: Event): (r: Reply<Tally>)
    ensures r.signal == Stop <==> ev.ErrorEvent?
    ensures r.signal == SkipDir <==> !ev.ErrorEvent? && Matches(cfg, ev.path)
    ensures r.signal != Continue ==> r.state == t
    ensures r.state.total >= t.total
  {
    match ev
    case ErrorEvent(_) => Reply(t, Stop)
    case DirEvent(path) => if Matches(cfg, path) then Reply(t, SkipDir) else Reply(t, Continue)
    case FileEvent(path, text) =>
      if Matches(cfg, path) then Reply(t, SkipDir)
      else
        match LineCount(text)
        case None => Reply(t, Continue)
        case Some(n) =>
          var added := Tally(t.total + n, t.counted + [Counted(path, n)], t.rows);
          match cfg.rel(path)
          case None => Reply(added, Continue)
          case Some(r) => Reply(added.(rows := t.rows + [Row(r, n)]), Continue)
  }

  function Cb(cfg: Config): (Tally, Event) -> Reply<Tally> {
    (t: Tally, ev: Event) => Callback(cfg, t, ev)
  }

  /** The sum of the counts. */
  function Sum(cs: seq<Counted>): int {
    if cs == [] then 0 else Sum(cs[..|cs| - 1]) + cs[|cs| - 1].lines
  }

  /** `totalLines` is the sum over the files counted so far. */
  predicate TotalIsSum(t: Tally) {
    t.total == Sum(t.counted)
  }

  lemma CallbackKeepsSum(cfg: Config, t: Tally, ev: Event)
    requires TotalIsSum(t)
    ensures TotalIsSum(Callback(cfg, t, ev).state)
  {
    var r := Callback(cfg, t, ev);
    if r.state.counted != t.counted {
      assert r.state.counted[..|r.state.counted| - 1] == t.counted;
    }
  }

  /** The walk keeps `totalLines` equal to the sum over the files that reached
      the addition, whatever was skipped or pruned. */
  lemma {:induction false} WalkEntryKeepsSum(cfg: Config, e: Entry, path: Path, t: Tally)
    requires TotalIsSum(t)
    ensures TotalIsSum(WalkEntry(e, path, t, Cb(cfg)).state)
    decreases e
  {
    match e
    case File(_, text) =>
      CallbackKeepsSum(cfg, t, FileEvent(path, text));
    case Vanished(_) =>
    case Dir(_, children, listable) =>
      if listable {
        CallbackKeepsSum(cfg, t, DirEvent(path));
        var r := Callback(cfg, t, DirEvent(path));
        if r.signal == Continue {
          WalkChildrenKeepsSum(cfg, children, path, r.state);
        }
      }
  }

  lemma {:induction false} WalkChildrenKeepsSum(cfg: Config, cs: seq<Entry>, parent: Path, t: Tally)
    requires TotalIsSum(t)
    ensures TotalIsSum(WalkChildren(cs, parent, t, Cb(cfg)).state)
    decreases cs
  {
    if cs != [] {
      WalkEntryKeepsSum(cfg, cs[0], parent + [cs[0].name], t);
      var r := WalkEntry(cs[0], parent + [cs[0].name], t, Cb(cfg));
      WalkChildrenKeepsSum(cfg, cs[1..], parent, r.state);
    }
  }

  /** `q` lies at or below `below`, and from `below`'s depth plus `from` down to
      `q` itself no directory and not `q` is matched. */
  predicate Clear(cfg: Config, below: Path, from: nat, q: Path) {
    |below| <= |q| && q[..|below|] == below
    && forall j :: |below| + from <= j <= |q| ==> !Matches(cfg, q[..j])
  }

  /** The walk from `t` left the files counted before unchanged and counted only
      files below `at` that are clear from `from` levels down. */
  predicate CountedBelow(cfg: Config, t: Tally, u: Tally, at: Path, from: nat) {
    |t.counted| <= |u.counted| && u.counted[..|t.counted|] == t.counted
    && forall k :: |t.counted| <= k < |u.counted| ==> Clear(cfg, at, from, u.counted[k].path)
  }

  lemma CountedBelowTrans(cfg: Config, t: Tally, u: Tally, v: Tally, at: Path, from: nat)
    requires CountedBelow(cfg, t, u, at, from) && CountedBelow(cfg, u, v, at, from)
    ensures CountedBelow(cfg, t, v, at, from)
  {
    assert v.counted[..|t.counted|] == v.counted[..|u.counted|][..|t.counted|];
    forall k | |t.counted| <= k < |v.counted| ensures Clear(cfg, at, from, v.counted[k].path) {
      if k < |u.counted| {
        assert v.counted[k] == u.counted[k];
      }
    }
  }

  /** Pruning: every file the walk of `e` counts lies under `path`, and neither
      it nor any directory between `path` and it is matched. A matched directory
      contributes nothing below it. */
  lemma {:induction false} WalkEntryPrunes(cfg: Config, e: Entry, path: Path, t: Tally)
    ensures CountedBelow(cfg, t, WalkEntry(e, path, t, Cb(cfg)).state, path, 0)
    decreases e
  {
    var u := WalkEntry(e, path, t, Cb(cfg)).state;
    assert path[..|path|] == path;
    match e
    case File(_, text) =>
      if u.counted != t.counted {
        assert u.counted[..|t.counted|] == t.counted;
      }
    case Vanished(_) =>
    case Dir(_, children, listable) =>
      if listable {
        var r := Callback(cfg, t, DirEvent(path));
        if r.signal == Continue {
          WalkChildrenPrunes(cfg, children, path, t);
          forall k | |t.counted| <= k < |u.counted| ensures Clear(cfg, path, 0, u.counted[k].path) {
            var q := u.counted[k].path;
            assert Clear(cfg, path, 1, q);
            assert q[..|path|] == path;
          }
        }
      }
  }

  lemma {:induction false} WalkChildrenPrunes(cfg: Config, cs: seq<Entry>, parent: Path, t: Tally)
    ensures CountedBelow(cfg, t, WalkChildren(cs, parent, t, Cb(cfg)).state, parent, 1)
    decreases cs
  {
    if cs != [] {
      var child := parent + [cs[0].name];
      var r := WalkEntry(cs[0], child, t, Cb(cfg));
      WalkEntryPrunes(cfg, cs[0], child, t);
      forall k | |t.counted| <= k < |r.state.counted| ensures Clear(cfg, parent, 1, r.state.counted[k].path) {
        var q := r.state.counted[k].path;
        assert Clear(cfg, child, 0, q);
        assert q[..|parent|] == q[..|child|][..|parent|];
      }
      assert CountedBelow(cfg, t, r.state, parent, 1);
      if r.signal == Continue || (r.signal == SkipDir && !cs[0].File?) {
        WalkChildrenPrunes(cfg, cs[1..], parent, r.state);
        CountedBelowTrans(cfg, t, r.state, WalkChildren(cs, parent, t, Cb(cfg)).state, parent, 1);
      }
    }
  }

  /** A matched directory answers `SkipDir` at once: nothing below it is visited
      or counted, and its parent goes on with the next entry. */
  lemma MatchedDirectoryPruned(cfg: Config, name: string, children: seq<Entry>, path: Path, t: Tally)
    requires Matches(cfg, path)
    ensures WalkEntry(Dir(name, children, true), path, t, Cb(cfg)) == Reply(t, SkipDir)
  {
  }

  /** A matched file ends the loop over its directory: the entries after it in
      lexical order are not visited, even the unmatched ones, and the state is the
      one left by the entries before it. */
  lemma MatchedFileSkipsRest(cfg: Config, pre: seq<Entry>, f: Entry, post: seq<Entry>, parent: Path, t: Tally)
    requires f.File? && Matches(cfg, parent + [f.name])
    requires WalkChildren(pre, parent, t, Cb(cfg)).signal == Continue
    ensures WalkChildren(pre + [f] + post, parent, t, Cb(cfg)) ==
      Reply(WalkChildren(pre, parent, t, Cb(cfg)).state, SkipDir)
  {
    SkippedAfterFile(pre, f, post, parent, t, Cb(cfg));
  }

  /** An unmatched directory is entered and walks its entries; when a matched
      file among them ends that loop with `SkipDir`, the directory still counts as
      walked: its own parent goes on with the next entry from the state reached. */
  lemma SkipFromFileStaysLocal(cfg: Config, d: Entry, post: seq<Entry>, parent: Path, t: Tally)
    requires d.Dir? && d.listable && !Matches(cfg, parent + [d.name])
    ensures WalkEntry(d, parent + [d.name], t, Cb(cfg)) == WalkChildren(d.children, parent + [d.name], t, Cb(cfg))
    ensures WalkEntry(d, parent + [d.name], t, Cb(cfg)).signal == SkipDir ==>
      WalkChildren([d] + post, parent, t, Cb(cfg)) ==
      WalkChildren(post, parent, WalkEntry(d, parent + [d.name], t, Cb(cfg)).state, Cb(cfg))
  {
    assert ([d] + post)[0] == d && ([d] + post)[1..] == post;
  }

  /** An entry that cannot be examined, reached after entries that went through,
      stops the loop with an error. */
  lemma ErrorAborts(cfg: Config, pre: seq<Entry>, e: Entry, post: seq<Entry>, parent: Path, t: Tally)
    requires e.Vanished? || (e.Dir? && !e.listable)
    requires WalkChildren(pre, parent, t, Cb(cfg)).signal == Continue
    ensures WalkChildren(pre + [e] + post, parent, t, Cb(cfg)) ==
      Reply(WalkChildren(pre, parent, t, Cb(cfg)).state, Stop)
  {
    StoppedAfter(pre, e, post, parent, t, Cb(cfg));
  }

  /** Errors are the only way the walk fails: in a tree whose every entry can be
      examined, `filepath.Walk` returns nil. */
  lemma NoErrorCompletes(cfg: Config, root: Entry, wd: Path, t: Tally)
    requires !HasError(root)
    ensures Walk(root, wd, t, Cb(cfg)).1
  {
    NoErrorEntryNoStop(root, wd, t, Cb(cfg));
  }

  /** The walk's outcome: the total is the sum over the counted files, and each of
      them is unmatched along its whole path below the working directory. */
  lemma WalkOutcome(cfg: Config, root: Entry, wd: Path)
    ensures var t := Walk(root, wd, Start, Cb(cfg)).0;
      t.total == Sum(t.counted)
      && forall k :: 0 <= k < |t.counted| ==> Clear(cfg, wd, 0, t.counted[k].path)
  {
    WalkEntryKeepsSum(cfg, root, wd, Start);
    WalkEntryPrunes(cfg, root, wd, Start);
  }

  /** A file whose relative path cannot be computed still adds to the total; it
      only gets no report line. */
  lemma RelFailureStillCounted(cfg: Config, t: Tally, path: Path, text: FileText)
    requires !Matches(cfg, path) && LineCount(text).Some? && cfg.rel(path).None?
    ensures Callback(cfg, t, FileEvent(path, text)) ==
      Reply(Tally(t.total + LineCount(text).value, t.counted + [Counted(path, LineCount(text).value)], t.rows), Continue)
  {
  }

  /** The state the callback of `main` captures, and `filepath.Walk` over it. */
  class Walker {
    var total: int
    /** The files added to the total so far; the program keeps no such list, so
        it exists only for the proof. */
    ghost var counted: seq<Counted>
    var rows: seq<Row>

    ghost function State(): Tally
      reads this
    {
      Tally(total, counted, rows)
    }

    constructor ()
      ensures State() == Start
    {
      total, counted, rows := 0, [], [];
    }

    /** One call of the callback. */
    method Visit(cfg: Config, ev: Event) returns (signal: Signal)
      modifies this
      ensures Reply(State(), signal) == Callback(cfg, old(State()), ev)
    {
      match ev
      case ErrorEvent(_) =>
        return Stop;
      case DirEvent(path) =>
        var ignored := ShouldIgnore(cfg.m, cfg.patterns, path);
        return if ignored then SkipDir else Continue;
      case FileEvent(path, text) =>
        var ignored := ShouldIgnore(cfg.m, cfg.patterns, path);
        if ignored {
          return SkipDir;
        }
        var n, ok := CountLines(text);
        if !ok {
          return Continue;
        }
        total := total + n;
        counted := counted + [Counted(path, n)];
        var rel := cfg.rel(path);
        if rel.Some? {
          rows := rows + [Row(rel.value, n)];
        }
        return Continue;
    }

    /** filepath's `walk` for one entry. */
    method WalkEntry(cfg: Config, e: Entry, path: Path) returns (signal: Signal)
      modifies this
      ensures Reply(State(), signal) == FileWalk.WalkEntry(e, path, old(State()), Cb(cfg))
      decreases e
    {
      match e
      case File(_, text) =>
        signal := Visit(cfg, FileEvent(path, text));
      case Vanished(_) =>
        signal := Visit(cfg, ErrorEvent(path));
      case Dir(_, children, listable) =>
        if !listable {
          signal := Visit(cfg, ErrorEvent(path));
          return;
        }
        signal := Visit(cfg, DirEvent(path));
        if signal != Continue {
          return;
        }
        signal := WalkChildren(cfg, children, path);
    }

    /** The loop over a directory's sorted names. */
    method WalkChildren(cfg: Config, cs: seq<Entry>, parent: Path) returns (signal: Signal)
      modifies this
      ensures Reply(State(), signal) == FileWalk.WalkChildren(cs, parent, old(State()), Cb(cfg))
      decreases cs
    {
      var i := 0;
      while i < |cs|
        invariant 0 <= i <= |cs|
        invariant FileWalk.WalkChildren(cs, parent, old(State()), Cb(cfg)) == FileWalk.WalkChildren(cs[i..], parent, State(), Cb(cfg))
      {
        assert cs[i..][0] == cs[i] && cs[i..][1..] == cs[i + 1..];
        signal := WalkEntry(cfg, cs[i], parent + [cs[i].name]);
        if !(signal == Continue || (signal == SkipDir && !cs[i].File?)) {
          return;
        }
        i := i + 1;
      }
      return Continue;
    }
  }

  // ---------------------------------------------------------------- main

  /** The file system and the foreign functions `main` depends on. */
  datatype Host = Host(getwd: Option<Path>, present: Path -> bool, readFile: Path -> Option<string>,
                       tree: Entry, rel: Path -> Option<string>, m: Glob.Matcher)

  /** How `main` ends: `must` exits, the walk fails after printing some report
      lines, or the total is printed. */
  datatype Outcome = Exited | WalkFailed(rows: seq<Row>) | Completed(total: int, rows: seq<Row>)

  function WalkConfig(host: Host): Config {
    Config(IgnoreFile.AfterIgnoreFile(InitialPatterns, host.getwd, host.present, host.readFile), host.m, host.rel)
  }

  /** What `main` does, as a value. */
  function Expected(host: Host): Outcome {
    match host.getwd
    case None => Exited
    case Some(wd) =>
      var (t, ok) := Walk(host.tree, wd, Start, Cb(WalkConfig(host)));
      if ok then Completed(t.total, t.rows) else WalkFailed(t.rows)
  }

  /** `main`: defaults and binary extensions, the ignore file, the walk, the
      total. */
  method Run(host: Host) returns (o: Outcome)
    ensures o == Expected(host)
  {
    var list := new IgnoreFile.PatternList(InitialPatterns);
    IgnoreFile.LoadIgnore(list, host.getwd, host.present, host.readFile);
    if host.getwd.None? {
      return Exited;
    }
    var cfg := Config(list.patterns, host.m, host.rel);
    var walker := new Walker();
    var signal := walker.WalkEntry(cfg, host.tree, host.getwd.value);
    if signal == Stop {
      return WalkFailed(walker.rows);
    }
    return Completed(walker.total, walker.rows);
  }
}
