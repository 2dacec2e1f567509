# locc, modelled in Dafny

locc counts the lines of every file under the working directory. For each file not excluded by its ignore patterns, it counts total, comment and blank lines, prints one report line per file and then a four-line summary. The repository holds two versions of the program:

- `main.go` is the current one. It matches each file (never a directory) against three forms of its path and counts all three numbers.
- `src/main.go` is an older copy. It matches every entry's full path, prunes matched directories with `filepath.SkipDir`, answers `SkipDir` for a matched file too, and counts only total lines.

Both versions build their pattern list the same way:
1. built-in defaults;
2. then binary-extension patterns;
3. then the lines of the nearest `.loccignore` found upwards from the working directory.

In that file, a line whose untrimmed text starts with `!` removes every entry equal to its trimmed text with all leading `!` stripped. A line that is blank or starts with `#` is skipped. Any other line appends its trimmed text.

The project's modules:

- `GoStrings`: the Go string functions used (`TrimSpace`, `TrimLeft` for `!`, `HasPrefix`, splitting on `'\n'`).
- `Paths`: paths as segment sequences (`Dir`, `Join`, `Base`, `Ext`).
- `FindUp`: the upward search.
- `Glob`: the pattern/candidate search behind `shouldIgnore`.
- `IgnoreFile`: the global `IGNORE` list as a class, and `loadIgnore`. The two versions' code for this is identical.
- `FileWalk`: `filepath.Walk` over a tree value, including its `SkipDir` rules.
- `Locc`: main.go.
- `LoccSrc`: src/main.go.
- `Sgr`, `HelperColors`, `Colors`: the two copies of `Colorize` and their ECMA-48 SGR constants.

## Behaviour of the code worth knowing

- **The `#` test reads the raw line.** `loadIgnore` trims a line, but it tests the untrimmed bytes for both `#` and `!`. So `"  #x"` appends `#x`, and `"  !x"` appends `!x` (`IgnoreFile.IndentedHashAppends`, `IgnoreFile.IndentedBangAppends`).
- **main.go never tests a directory.** Its callback returns nil for every directory before any match, so a matched directory is still entered, and only its files are tested one by one (`Locc.Callback`, `Locc.CallbackNeverSkips`). So main.go's default `.git` prunes nothing. It only excludes an entry whose base name, relative path or full path the matcher accepts for `.git`. src/main.go tests directories and prunes a matched one (`LoccSrc.MatchedDirectoryPruned`).
- **An error on one entry aborts the whole walk.** Both callbacks return the error `filepath.Walk` hands them for an entry whose `Lstat` or listing failed, so the walk ends there and `main` prints the walk error (`LoccSrc.ErrorAborts`, `Locc.FoldTotals`).
- **A matched file in src/main.go ends its directory.** The callback answers `SkipDir` for a matched file too. `filepath.Walk` then skips every later entry of the same directory, matched or not (`LoccSrc.MatchedFileSkipsRest`).

## Model

| member | source | states |
|---|---|---|
| GoStrings.TrimSpace | main.go:135 | `bytes.TrimSpace`: the result is no longer than the line and has no white space at either end |
| GoStrings.TrimSpaceSurrounds | main.go:135 | the trimmed text occurs in the line with only ASCII white space before and after it |
| GoStrings.TrimSpaceEmpty | main.go:135 | trimming gives the empty text exactly when the line is all white space |
| GoStrings.TrimSpacePadded | main.go:135 | text with no white space at its ends, surrounded by white space, is exactly what trimming returns |
| GoStrings.TrimSpaceFixed | main.go:135 | trimming leaves a text unchanged exactly when it has no white space at either end, so trimming twice is trimming once |
| GoStrings.TrimLeadingRemovesSpace | main.go:135 | the leading trim keeps a suffix, and what it removes is white space |
| GoStrings.TrimTrailingRemovesSpace | main.go:135 | the trailing trim keeps a prefix, and what it removes is white space |
| GoStrings.TrimLeftChar | main.go:140 | `strings.TrimLeft(s, "!")`: the result is no longer than `s` and does not start with `!` |
| GoStrings.TrimLeftCharRemovesRun | main.go:140 | `TrimLeft(s, "!")` keeps a suffix and removes a run of `!` only |
| GoStrings.TrimLeftCharPadded | main.go:140 | a run of `!` followed by text not starting with `!` leaves exactly that text |
| GoStrings.Split | main.go:133 | `bytes.SplitSeq` on `'\n'`: there is always at least one piece, even for empty content |
| GoStrings.SplitJoin | main.go:133 | no piece of the split on `'\n'` contains a line feed, and joining the pieces gives back the content |
| GoStrings.JoinSplit | main.go:133 | splitting the join of line-feed-free pieces gives back the pieces |
| Paths.Dir | src/helpers/findup.go:19 | the parent equals the path exactly at the root, and otherwise drops the last segment |
| Paths.Ext | main.go:52 | `filepath.Ext`: the extension is no longer than the path and, when non-empty, starts with a dot |
| Paths.ExtIsSuffix | main.go:52 | the extension is empty or a suffix that starts with a dot and holds no other dot and no slash; it is empty only when every dot is followed later by a slash |
| FindUp.FindUp | src/helpers/findup.go:8-26 | the loop returns what the recursive search returns; when the working directory's own candidate exists, that candidate is the result |
| FindUp.LocateFromNearest | src/helpers/findup.go:14-18 | a found path is the candidate of the nearest ancestor-or-self holding the file; no nearer candidate exists |
| FindUp.LocateFromAbsent | src/helpers/findup.go:19-25 | the search reports absence (not an error) exactly when no directory up to the root holds the file |
| FindUp.AncestorOfParent | src/helpers/findup.go:19-23 | going to the parent moves one level up the ancestor chain |
| Glob.MatchesAny | main.go:195-220 | the nested loop answers true exactly when some pattern matches some candidate; a malformed pattern only moves on |
| Glob.SamePatternsSameAnswer | main.go:195-220 | the answer depends only on which patterns are present |
| Glob.SkippedPattern | main.go:209-213 | a pattern that matches nothing, malformed or not, can be removed from any position without changing the answer |
| IgnoreFile.PatternList.constructor | main.go:19 | the list starts as the given initial patterns |
| IgnoreFile.Without | main.go:138-144 | the kept entries are exactly those different from the negated pattern, and none equals it |
| IgnoreFile.PatternList.Remove | main.go:138-144 | the filter loop leaves the entries different from the pattern, in order |
| IgnoreFile.PatternList.ApplyLine | main.go:135-148 | one line changes the list as its rule says (src/main.go:92-105 is the same code) |
| IgnoreFile.PatternList.ApplyContent | main.go:133-149 | the content's lines are applied first to last |
| IgnoreFile.LoadIgnore | main.go:121-151 | the list after `loadIgnore`: unchanged when the search fails or finds nothing or the read fails, else the file's lines applied (src/main.go:78-108 is the same code) |
| IgnoreFile.WithoutConcat | main.go:139-143 | the removal distributes over concatenation, so kept entries stay in their original order |
| IgnoreFile.WithoutAbsent | main.go:139-144 | negating an absent pattern is a no-op |
| IgnoreFile.WithoutCounts | main.go:139-144 | every other entry keeps its number of occurrences; the negated one drops to zero |
| IgnoreFile.RuleOf | main.go:135-148 | a line appends only non-empty trimmed text from a raw line starting with neither `#` nor `!`; it removes only for a raw line starting with `!`, and the removed pattern never starts with `!` |
| IgnoreFile.AfterLine | main.go:135-148 | one line adds at most one entry to the list |
| IgnoreFile.LineEffect | main.go:135-148 | for a line made of white space, text and white space: an unindented `#` text is skipped, an unindented `!` text removes the text with its leading `!` stripped, and any other text, an indented `#` or `!` included, is appended |
| IgnoreFile.BlankLineSkipped | main.go:135-146 | a line of white space only leaves the list unchanged |
| IgnoreFile.IndentedBangAppends | main.go:137 | `"  !x"` appends `!x` because the `!` test reads the raw line |
| IgnoreFile.IndentedHashAppends | main.go:146-147 | `"  #x"` appends `#x` because the `#` test reads the raw line |
| IgnoreFile.RepeatedBangsNegate | main.go:140 | `!!x` negates `x`, as every leading `!` is stripped |
| IgnoreFile.SpaceAfterBangKept | main.go:140 | `! x` negates ` x`, since white space after the `!` is kept |
| IgnoreFile.AfterLinesNoLeadingSpace | main.go:135-147 | a list with no entry starting with white space keeps that shape through any lines |
| IgnoreFile.SpacedNegationIsNoOp | main.go:140 | a negated pattern starting with white space removes nothing from such a list |
| IgnoreFile.NegatedAppend | main.go:137-140 | `!` in front of a line kept as it stands negates exactly that line |
| IgnoreFile.NegationOrder | main.go:137-147 | appending then negating leaves no copy; negating before appending does nothing, so the later append holds |
| IgnoreFile.NegationAndMatching | main.go:139-144 | after negation, matching succeeds exactly when some other pattern of the old list matches |
| FileWalk.WalkEntry | main.go:39 | `filepath.Walk`'s `walk` for one entry: a file or an entry that cannot be examined is one callback call; a directory is one call and then, on nil, its entries in order |
| FileWalk.WalkChildren | main.go:39 | the loop over a directory's sorted entries: it goes on after nil, and after `SkipDir` from anything but a file; any other answer ends it and is returned |
| FileWalk.Walk | src/main.go:35 | `filepath.Walk` succeeds unless the walk of the root ended with an error |
| FileWalk.FoldAppend | main.go:39-93 | feeding two runs of events is feeding the first and, if it went through, the second |
| FileWalk.WalkEntryIsFold | main.go:44-46 | with a callback that never answers `SkipDir`, the walk is a fold over the preorder of the tree |
| FileWalk.WalkChildrenIsFold | main.go:44-46 | the same for a directory's entries |
| FileWalk.WalkIsFold | main.go:39-97 | such a walk succeeds exactly when that fold goes through, with the same final state |
| FileWalk.WalkChildrenSplit | src/main.go:48-50 | a sibling loop that went through some entries continues with the rest from the state they left |
| FileWalk.SkippedAfterFile | src/main.go:48-50 | `SkipDir` from a file ends its directory's loop; no later entry is visited |
| FileWalk.StoppedAfter | src/main.go:36-38 | an error answer ends the loop at once |
| FileWalk.NoErrorEntryNoStop | src/main.go:71-74 | in a tree whose entries can all be examined, the walk fails only if the callback answers an error for a file or directory |
| Locc.InitialPatterns | main.go:33 | the list before the ignore file is the four literal defaults followed by the binary-extension patterns, in order |
| Locc.CountLines | main.go:154-183 | the line count, the blank lines, and the lines starting with the marker after trimming; all zero on an open or scan error |
| Locc.BlanksAndComments | main.go:166-176 | with a non-empty marker, blank plus comment lines are at most all lines |
| Locc.AllBlank | main.go:168-171 | a file of blank lines has every line blank and none a comment |
| Locc.AllComments | main.go:172-174 | a file whose every line starts with the marker has every line a comment and none blank |
| Locc.FileCountsSane | main.go:161-182 | a file's counts are non-negative and their blanks and comments do not exceed its lines |
| Locc.CommentMarker | main.go:52-55 | the marker is never empty; it is the table's entry for the path's extension when that entry is non-empty, and `//` when the entry is missing or empty |
| Locc.FirstLanguageIsFirst | main.go:72-82 | the first table entry with the extension, or the `Unknown`/gray default when there is none |
| Locc.LookupLanguage | main.go:76-82 | the loop returns that same entry |
| Locc.ShouldIgnore | main.go:185-221 | true exactly when some pattern matches the base name, the relative path (full path if `Rel` fails) or the full path |
| Locc.CallbackNeverSkips | main.go:40-92 | the callback never answers `SkipDir`: directories are never tested |
| Locc.Callback | main.go:39-92 | the callback never answers `SkipDir`, and it answers an error exactly for an error event |
| Locc.CallbackOnlyFiles | main.go:40-46 | a directory or an error event leaves the totals and report lines unchanged |
| Locc.FoldSignal | main.go:40-42 | feeding events to the callback goes through exactly when none is an error |
| Locc.FoldSum | main.go:57-64 | without error events, the totals grow by the counts of the unignored readable files |
| Locc.FoldTotals | main.go:57-64 | feeding events goes through exactly when none is an error, and the totals then grow by the counts of the unignored readable files |
| Locc.CallbackKeepsSane | main.go:62-64 | adding a file keeps the totals sane |
| Locc.FoldKeepsSane | main.go:62-64 | any run of events keeps the totals sane |
| Locc.WalkOutcome | main.go:39-98 | the walk succeeds exactly when no entry is an error; totals are then the sum over counted files; `codeLines` is never negative |
| Locc.Walker.constructor | main.go:36-38 | the totals start at zero with no report lines |
| Locc.Walker.Visit | main.go:40-92 | one callback call updates the totals and report lines as the pure callback says and keeps them sane |
| Locc.Walker.WalkTree | main.go:39-93 | the imperative walk ends in the same state and with the same success as `filepath.Walk` with the callback |
| Locc.Spaces | main.go:109-112 | `n` space characters |
| Locc.LongestBounds | main.go:108 | the longest length is at least every string's length and is some string's length |
| Locc.PadAllShape | main.go:109-112 | padding gives strings of the target width, each its original followed by spaces only |
| Locc.SummaryShape | main.go:103-112 | the four summary strings come out as long as the longest, each its original followed only by spaces |
| Locc.Run | main.go:31-119 | `main` exits without a working directory, fails if the walk fails, and otherwise reports totals, rows and the padded summary |
| Locc.RunOutcome | main.go:94-112 | a run completes exactly when no entry is an error; its code lines are not negative and its summary strings are equally wide |
| LoccSrc.InitialPatternsOrder | src/main.go:19-20 | the six defaults come first, then the eleven binary-extension patterns, in order |
| LoccSrc.CountLines | src/main.go:110-129 | the number of scanned lines, or 0 on an open or scan error |
| LoccSrc.ShouldIgnore | src/main.go:131-147 | true exactly when some pattern matches the full path; a malformed pattern moves on |
| LoccSrc.Callback | src/main.go:35-70 | an error answer exactly for an error event; `SkipDir` exactly for a matched file or directory; the state changes only on a continue, and the total never decreases |
| LoccSrc.CallbackKeepsSum | src/main.go:57 | the callback keeps `totalLines` equal to the sum over the counted files |
| LoccSrc.WalkEntryKeepsSum | src/main.go:52-62 | the walk of an entry keeps it so |
| LoccSrc.WalkChildrenKeepsSum | src/main.go:52-62 | the walk of a directory's entries keeps it so |
| LoccSrc.CountedBelowTrans | src/main.go:40-50 | the pruning fact composes over consecutive entries |
| LoccSrc.WalkEntryPrunes | src/main.go:40-50 | every counted file lies below the entry, and neither it nor any directory on the way is matched |
| LoccSrc.WalkChildrenPrunes | src/main.go:40-50 | the same for a directory's entries |
| LoccSrc.MatchedDirectoryPruned | src/main.go:40-42 | a matched directory answers `SkipDir` at once; nothing below it is visited or counted |
| LoccSrc.MatchedFileSkipsRest | src/main.go:48-50 | a matched file ends its directory's loop: later entries are not visited even if unmatched |
| LoccSrc.SkipFromFileStaysLocal | src/main.go:44-50 | an unmatched directory is entered and walks its entries; when a matched file among them ends that loop with `SkipDir`, the directory's parent goes on with its next entry from the state reached |
| LoccSrc.ErrorAborts | src/main.go:36-38 | an entry that cannot be examined stops the loop with an error |
| LoccSrc.NoErrorCompletes | src/main.go:71-74 | a tree whose every entry can be examined is walked without error |
| LoccSrc.WalkOutcome | src/main.go:35-70 | after the walk the total is the sum over the counted files, and each is unmatched along its whole path below the working directory |
| LoccSrc.RelFailureStillCounted | src/main.go:57-62 | a file whose relative path fails still adds to the total and only gets no report line |
| LoccSrc.Walker.constructor | src/main.go:34 | the total starts at zero |
| LoccSrc.Walker.Visit | src/main.go:35-70 | one callback call updates the state and answers as the pure callback says |
| LoccSrc.Walker.WalkEntry | src/main.go:35 | the recursive walk of an entry ends as `filepath.Walk`'s `walk` does |
| LoccSrc.Walker.WalkChildren | src/main.go:35 | the loop over a directory's entries ends as `walk`'s loop does |
| LoccSrc.Run | src/main.go:30-76 | `main` exits without a working directory, fails if the walk fails, and otherwise reports the total and rows |
| Sgr.Wrapped | src/helpers/colors.go:22-24 | the coloured text is never shorter than the text |
| Sgr.NoColors | src/helpers/colors.go:21-26 | with no colours the text is returned unchanged |
| Sgr.OpeningLength | src/helpers/colors.go:22-24 | the opening sequences are as long as all colours together |
| Sgr.RepeatLength | src/helpers/colors.go:22-24 | `n` resets are `n` times as long as one |
| Sgr.WrappedLength | src/helpers/colors.go:22-24 | the result's length is the text's plus every colour's plus one reset per colour |
| Sgr.TextInside | src/helpers/colors.go:22-24 | the text occurs whole inside the result, right after the opening sequences |
| Sgr.Ends | src/helpers/colors.go:22-24 | with a colour, the result starts with the last colour and ends with the reset |
| Sgr.WrappedTwice | src/helpers/colors.go:22-24 | colouring a coloured text is colouring the original with both lists, the second outermost |
| HelperColors.Colorize | src/helpers/colors.go:21-26 | the loop returns `cn + … + c1 + text` followed by one reset per colour |
| HelperColors.ConstantsAreSequences | src/helpers/colors.go:3-19 | every constant is `ESC [` numeric parameters `m`, single numbers except `Orange`; `Reset` is `ESC [0m` |
| Colors.Colorize | src/colors/colors.go:15-20 | the same loop returns `cn + … + c1 + text` followed by one reset per colour |
| Colors.ConstantsAreSequences | src/colors/colors.go:3-13 | every constant is `ESC [` digits `m`; `Reset` is `ESC [0m` |

## Left out

- Terminal output is left out: the header with the version, the per-file report lines, the coloured summary and every diagnostic print. The report lines are kept as data (`Row`), and the summary as its four padded strings.
- Number rendering by `fmt.Sprint` and `%d` is a parameter (`Formats.show`).
- The floating-point `codePercent` and its `%.2f` text are a parameter (`Formats.percent`).
- `doublestar.Match` is a foreign library. It is a parameter that answers matched, no match or bad pattern.
- File system access becomes values and parameters:
  - `os.Getwd` is an optional path;
  - `os.Stat` succeeding is a predicate;
  - `os.ReadFile` is an optional content;
  - `os.Open` with `bufio.Scanner` gives a file's text already split into lines, plus whether the scan failed. The scanner's line splitting and token-size limit are not modelled.
- The directory tree is a value:
  - each directory's children are assumed to be in the lexical order `filepath.Walk` sorts them into;
  - a failed `Lstat` of a listed name is a `Vanished` entry;
  - a failed listing is an unlistable directory.
- `filepath.Rel` from the working directory is a parameter. `filepath.ToSlash` is the identity. `Base`, `Dir` and `Join` work on segment sequences, and `Ext` works on the rendered path.
- `os.Getwd` is called in several places: inside `FindUp` (src/helpers/findup.go:9, reached from `loadIgnore`), and under `must` at main.go:39, main.go:65, src/main.go:35 and src/main.go:58. The model has one answer, `Host.getwd`, for all of them. A failing `must` becomes the `Exited` outcome, and a failing `FindUp` leaves the list unchanged. A run in which these calls disagree is not modelled: for example, `FindUp`'s call failing while `main`'s succeeds, or a callback's call seeing another directory.
- `helpers.BINARY_EXTENSIONS`, `helpers.CommentMarkers`, `helpers.Languages` and `helpers.LanguageMeta` are not part of this model. They are parameters (`Locc.Tables`).
- `TrimSpace` knows only ASCII white space. Text is a sequence of characters, and the padding width counts characters.
- `Locc.Counts`: counters are unbounded integers; Go's `int` overflow is not modelled.
- `LoccSrc.Tally`: `totalLines` and each file's line count are unbounded integers; Go's `int` overflow is not modelled.
- `GoStrings.TrimLeftChar`: `strings.TrimLeft` is modelled only for the one-character cutset `"!"` the program uses.

