/** `FindUp` (src/helpers/findup.go): look for a file in the working directory
    and then in each of its ancestors, stopping at the root. The working
    directory is `os.Getwd`'s answer, passed in; `os.Stat` succeeding is the
    predicate `present`. */
module FindUp {
  import opened Optional
  import opened Paths

  /** The three outcomes of `FindUp`: `(path, nil)`, `("", nil)` and `("", err)`. */
  datatype Located = Found(path: Path) | NotFound | GetwdFailed

  /** The directory `up` levels above `wd` (`wd` itself for 0). */
  function Ancestor(wd: Path, up: nat): Path
    requires up <= |wd|
  {
    wd[..|wd| - up]
  }

  /** The search started from `dir`, as a recursion on the parent. */
  function LocateFrom(dir: Path, present: Path -> bool, filename: string): Located
    decreases |dir|
  {
    if present(Join(dir, filename)) then Found(Join(dir, filename))
    else if Dir(dir) == dir then NotFound
    else LocateFrom(Dir(dir), present, filename)
  }

  /** What `FindUp(filename)` returns. */
  function Locate(getwd: Option<Path>, present: Path -> bool, filename: string): Located {
    match getwd
    case None => GetwdFailed
    case Some(wd) => LocateFrom(wd, present, filename)
  }

  /** The candidate `up` levels above `dir` exists. */
  predicate HasFileAt(dir: Path, up: nat, present: Path -> bool, filename: string)
    requires up <= |dir|
  {
    present(Join(Ancestor(dir, up), filename))
  }

  /** No candidate fewer than `levels` levels above `dir` exists. */
  predicate AbsentBelow(dir: Path, levels: nat, present: Path -> bool, filename: string)
    requires levels <= |dir| + 1
  {
    forall up :: 0 <= up < levels ==> !HasFileAt(dir, up, present, filename)
  }

  lemma AncestorOfParent(dir: Path, up: nat)
    requires dir != [] && up <= |dir| - 1
    ensures Ancestor(Dir(dir), up) == Ancestor(dir, up + 1)
  {
  }

  /** A search that succeeds returns the candidate of the nearest ancestor-or-self
      of `dir` that holds the file. */
  lemma {:induction false} LocateFromNearest(dir: Path, present: Path -> bool, filename: string)
    requires LocateFrom(dir, present, filename).Found?
    ensures exists up :: (0 <= up <= |dir|
      && LocateFrom(dir, present, filename).path == Join(Ancestor(dir, up), filename)
      && HasFileAt(dir, up, present, filename) && AbsentBelow(dir, up, present, filename))
    decreases |dir|
  {
    assert Ancestor(dir, 0) == dir;
    if !present(Join(dir, filename)) {
      var parent := Dir(dir);
      LocateFromNearest(parent, present, filename);
      var up :| 0 <= up <= |parent| && LocateFrom(parent, present, filename).path == Join(Ancestor(parent, up), filename)
        && HasFileAt(parent, up, present, filename) && AbsentBelow(parent, up, present, filename);
      AncestorOfParent(dir, up);
      forall nearer | 0 < nearer < up + 1 ensures !HasFileAt(dir, nearer, present, filename) {
        AncestorOfParent(dir, nearer - 1);
        assert !HasFileAt(parent, nearer - 1, present, filename);
      }
      assert AbsentBelow(dir, up + 1, present, filename);
    }
  }

  /** A search reports absence exactly when no directory from `dir` up to the root
      holds the file. */
  lemma {:induction false} LocateFromAbsent(dir: Path, present: Path -> bool, filename: string)
    ensures !LocateFrom(dir, present, filename).GetwdFailed?
    ensures LocateFrom(dir, present, filename).NotFound? <==> AbsentBelow(dir, |dir| + 1, present, filename)
    decreases |dir|
  {
    assert Ancestor(dir, 0) == dir;
    if !present(Join(dir, filename)) && dir != [] {
      var parent := Dir(dir);
      LocateFromAbsent(parent, present, filename);
      if AbsentBelow(parent, |parent| + 1, present, filename) {
        forall up | 0 < up <= |dir| ensures !HasFileAt(dir, up, present, filename) {
          AncestorOfParent(dir, up - 1);
          assert !HasFileAt(parent, up - 1, present, filename);
        }
        assert AbsentBelow(dir, |dir| + 1, present, filename);
      } else {
        var up :| 0 <= up <= |parent| && HasFileAt(parent, up, present, filename);
        AncestorOfParent(dir, up);
        assert HasFileAt(dir, up + 1, present, filename);
      }
    } else {
      assert HasFileAt(dir, 0, present, filename) <==> present(Join(dir, filename));
    }
  }

  /** The loop of `FindUp`: probe `dir/filename`, stop at the root, else move to
      the parent. */
  method FindUp(getwd: Option<Path>, present: Path -> bool, filename: string) returns (r: Located)
    ensures r == Locate(getwd, present, filename)
    ensures getwd.Some? && present(Join(getwd.value, filename)) ==> r == Found(Join(getwd.value, filename))
  {
    if getwd.None? {
      return GetwdFailed;
    }
    var dir := getwd.value;
    while true
      invariant LocateFrom(dir, present, filename) == Locate(getwd, present, filename)
      decreases |dir|
    {
      var path := Join(dir, filename);
      if present(path) {
        return Found(path);
      }
      var parent := Dir(dir);
      if parent == dir {
        break;
      }
      dir := parent;
    }
    return NotFound;
  }
}
