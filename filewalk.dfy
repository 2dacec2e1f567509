/** `filepath.Walk` over a directory tree held as a value. Both programs walk the
    working directory with a callback; the callback sees each entry's path and
    what the file system said about it, and answers with nil, `SkipDir` or an
    error. Directory listings are in lexical order, as `filepath.Walk` sorts
    them; the children of a `Dir` are taken to be in that order already. */
module FileWalk {
  import opened Paths

  /** What scanning a file gives: it could not be opened, or the lines the
      scanner produced and whether the scan ended in an error. */
  datatype FileText = Unopenable | Scanned(lines: seq<string>, failed: bool)

  /** An entry of the tree. `Vanished` is a name the listing returned but
      `os.Lstat` then failed on; an unlistable `Dir` is one `readDirNames`
      failed on. */
  datatype Entry =
    | File(name: string, text: FileText)
    | Dir(name: string, children: seq<Entry>, listable: bool)
    | Vanished(name: string)

  /** What the callback is called with: a file, a directory about to be entered,
      or an entry whose `Lstat` or listing failed (the callback's `err` is
      non-nil). */
  datatype Event = FileEvent(path: Path, text: FileText) | DirEvent(path: Path) | ErrorEvent(path: Path)

  /** The callback's answer: nil, `filepath.SkipDir`, or any other error, which
      stops the walk. */
  datatype Signal = Continue | SkipDir | Stop

  /** The callback's new state (the variables it captures) and its answer. */
  datatype Reply<S> = Reply(state: S, signal: Signal)

  /** filepath's `walk(path, info, fn)`: a file gets one call; a directory that
      cannot be listed gets one call with the error; any other directory gets a
      call first and, when that call says nil, its children in order. The signal
      is what `walk` returns. */
  function WalkEntry<S>(e: Entry, path: Path, s: S, cb: (S, Event) -> Reply<S>): Reply<S>
    decreases e
  {
    match e
    case File(_, text) => cb(s, FileEvent(path, text))
    case Vanished(_) => cb(s, ErrorEvent(path))
    case Dir(_, children, listable) =>
      if !listable then cb(s, ErrorEvent(path))
      else
        var r := cb(s, DirEvent(path));
        if r.signal != Continue then r else WalkChildren(children, path, r.state, cb)
  }

  /** The loop over a directory's names. `SkipDir` from a directory (or from an
      entry that could not be examined) moves on to the next name; from a file it
      ends the loop and is returned, so the parent's remaining entries are
      skipped. Any other error is returned at once. */
  function WalkChildren<S>(cs: seq<Entry>, parent: Path, s: S, cb: (S, Event) -> Reply<S>): Reply<S>
    decreases cs
  {
    if cs == [] then Reply(s, Continue)
    else
      var r := WalkEntry(cs[0], parent + [cs[0].name], s, cb);
      if r.signal == Continue || (r.signal == SkipDir && !cs[0].File?) then WalkChildren(cs[1..], parent, r.state, cb)
      else r
  }

  /** `filepath.Walk(root, fn)`: the walk of the root, where `SkipDir` counts as
      success. The result is the final state and whether the walk returned nil. */
  function Walk<S>(root: Entry, rootPath: Path, s: S, cb: (S, Event) -> Reply<S>): (S, bool) {
    var r := WalkEntry(root, rootPath, s, cb);
    (r.state, r.signal != Stop)
  }

  /** The events of a full walk in which nothing is skipped, in visiting order. */
  function Preorder(e: Entry, path: Path): seq<Event>
    decreases e
  {
    match e
    case File(_, text) => [FileEvent(path, text)]
    case Vanished(_) => [ErrorEvent(path)]
    case Dir(_, children, listable) =>
      if !listable then [ErrorEvent(path)] else [DirEvent(path)] + PreorderAll(children, path)
  }

  function PreorderAll(cs: seq<Entry>, parent: Path): seq<Event>
    decreases cs
  {
    if cs == [] then [] else Preorder(cs[0], parent + [cs[0].name]) + PreorderAll(cs[1..], parent)
  }

  /** Feeding events to the callback one after another until it answers
      anything but nil. */
  function Fold<S>(evs: seq<Event>, s: S, cb: (S, Event) -> Reply<S>): Reply<S> {
    if evs == [] then Reply(s, Continue)
    else
      var r := cb(s, evs[0]);
      if r.signal == Continue then Fold(evs[1..], r.state, cb) else r
  }

  /** Folding over two runs of events is folding over the first and, if it went
      through, continuing with the second. */
  lemma {:induction false} FoldAppend<S>(a: seq<Event>, b: seq<Event>, s: S, cb: (S, Event) -> Reply<S>)
    ensures Fold(a + b, s, cb) ==
      (var r := Fold(a, s, cb); if r.signal == Continue then Fold(b, r.state, cb) else r)
  {
    if a == [] {
      assert a + b == b;
    } else {
      assert (a + b)[0] == a[0];
      assert (a + b)[1..] == a[1..] + b;
      FoldAppend(a[1..], b, cb(s, a[0]).state, cb);
    }
  }

  /** The callback never answers `SkipDir`. */
  ghost predicate NeverSkips<S(!new)>(cb: (S, Event) -> Reply<S>) {
    forall s, ev :: cb(s, ev).signal != SkipDir
  }

  /** A callback that never asks to skip sees exactly the preorder of the tree,
      up to the first error it returns; its walk is a fold over that preorder. */
  lemma {:induction false} WalkEntryIsFold<S(!new)>(e: Entry, path: Path, s: S, cb: (S, Event) -> Reply<S>)
    requires NeverSkips(cb)
    ensures WalkEntry(e, path, s, cb) == Fold(Preorder(e, path), s, cb)
    ensures WalkEntry(e, path, s, cb).signal != SkipDir
    decreases e
  {
    match e
    case File(_, text) =>
      assert Preorder(e, path)[1..] == [];
    case Vanished(_) =>
      assert Preorder(e, path)[1..] == [];
    case Dir(_, children, listable) =>
      if !listable {
        assert Preorder(e, path)[1..] == [];
      } else {
        var evs := Preorder(e, path);
        assert evs[0] == DirEvent(path) && evs[1..] == PreorderAll(children, path);
        var r := cb(s, DirEvent(path));
        if r.signal == Continue {
          WalkChildrenIsFold(children, path, r.state, cb);
        }
      }
  }

  lemma {:induction false} WalkChildrenIsFold<S(!new)>(cs: seq<Entry>, parent: Path, s: S, cb: (S, Event) -> Reply<S>)
    requires NeverSkips(cb)
    ensures WalkChildren(cs, parent, s, cb) == Fold(PreorderAll(cs, parent), s, cb)
    ensures WalkChildren(cs, parent, s, cb).signal != SkipDir
    decreases cs
  {
    if cs != [] {
      var first := Preorder(cs[0], parent + [cs[0].name]);
      var rest := PreorderAll(cs[1..], parent);
      WalkEntryIsFold(cs[0], parent + [cs[0].name], s, cb);
      FoldAppend(first, rest, s, cb);
      var r := WalkEntry(cs[0], parent + [cs[0].name], s, cb);
      assert r.signal != SkipDir;
      if r.signal == Continue {
        WalkChildrenIsFold(cs[1..], parent, r.state, cb);
      }
    }
  }

  /** `filepath.Walk` with such a callback succeeds exactly when the fold over
      the preorder does. */
  lemma WalkIsFold<S(!new)>(root: Entry, rootPath: Path, s: S, cb: (S, Event) -> Reply<S>)
    requires NeverSkips(cb)
    ensures Walk(root, rootPath, s, cb).0 == Fold(Preorder(root, rootPath), s, cb).state
    ensures Walk(root, rootPath, s, cb).1 <==> Fold(Preorder(root, rootPath), s, cb).signal == Continue
  {
    WalkEntryIsFold(root, rootPath, s, cb);
  }

  /** A sibling loop that went through a first group of entries goes on with the
      rest from the state it reached. */
  lemma {:induction false} WalkChildrenSplit<S>(pre: seq<Entry>, post: seq<Entry>, parent: Path, s: S, cb: (S, Event) -> Reply<S>)
    requires WalkChildren(pre, parent, s, cb).signal == Continue
    ensures WalkChildren(pre + post, parent, s, cb) ==
      WalkChildren(post, parent, WalkChildren(pre, parent, s, cb).state, cb)
    decreases pre
  {
    if pre == [] {
      assert pre + post == post;
    } else {
      assert (pre + post)[0] == pre[0];
      assert (pre + post)[1..] == pre[1..] + post;
      var r := WalkEntry(pre[0], parent + [pre[0].name], s, cb);
      WalkChildrenSplit(pre[1..], post, parent, r.state, cb);
    }
  }

  /** After a group of entries the loop went through, a file whose call answers
      `SkipDir` ends the loop: none of the entries after it is visited, and the
      state is the one the file's call left. */
  lemma SkippedAfterFile<S>(pre: seq<Entry>, f: Entry, post: seq<Entry>, parent: Path, s: S, cb: (S, Event) -> Reply<S>)
    requires f.File?
    requires WalkChildren(pre, parent, s, cb).signal == Continue
    requires WalkEntry(f, parent + [f.name], WalkChildren(pre, parent, s, cb).state, cb).signal == SkipDir
    ensures WalkChildren(pre + [f] + post, parent, s, cb) ==
      WalkEntry(f, parent + [f.name], WalkChildren(pre, parent, s, cb).state, cb)
  {
    assert pre + [f] + post == pre + ([f] + post);
    WalkChildrenSplit(pre, [f] + post, parent, s, cb);
    assert ([f] + post)[0] == f;
  }

  /** A call answering with an error that is not `SkipDir` ends the walk of every
      enclosing directory with that answer. */
  lemma StoppedAfter<S>(pre: seq<Entry>, e: Entry, post: seq<Entry>, parent: Path, s: S, cb: (S, Event) -> Reply<S>)
    requires WalkChildren(pre, parent, s, cb).signal == Continue
    requires WalkEntry(e, parent + [e.name], WalkChildren(pre, parent, s, cb).state, cb).signal == Stop
    ensures WalkChildren(pre + [e] + post, parent, s, cb) ==
      WalkEntry(e, parent + [e.name], WalkChildren(pre, parent, s, cb).state, cb)
  {
    assert pre + [e] + post == pre + ([e] + post);
    WalkChildrenSplit(pre, [e] + post, parent, s, cb);
    assert ([e] + post)[0] == e;
  }

  /** The tree holds an entry the walk cannot examine. */
  predicate HasError(e: Entry)
    decreases e
  {
    match e
    case File(_, _) => false
    case Vanished(_) => true
    case Dir(_, children, listable) => !listable || AnyError(children)
  }

  predicate AnyError(cs: seq<Entry>)
    decreases cs
  {
    cs != [] && (HasError(cs[0]) || AnyError(cs[1..]))
  }

  /** The walk of a tree in which every entry can be examined ends in an error
      only if the callback answered one for a file or a directory. */
  lemma {:induction false} NoErrorEntryNoStop<S>(e: Entry, path: Path, s: S, cb: (S, Event) -> Reply<S>)
    requires !HasError(e)
    requires forall s', p, t :: cb(s', FileEvent(p, t)).signal != Stop
    requires forall s', p :: cb(s', DirEvent(p)).signal != Stop
    ensures WalkEntry(e, path, s, cb).signal != Stop
    decreases e
  {
    match e
    case File(_, _) =>
    case Vanished(_) =>
    case Dir(_, children, listable) =>
      var r := cb(s, DirEvent(path));
      if r.signal == Continue {
        NoErrorChildrenNoStop(children, path, r.state, cb);
      }
  }

  lemma {:induction false} NoErrorChildrenNoStop<S>(cs: seq<Entry>, parent: Path, s: S, cb: (S, Event) -> Reply<S>)
    requires !AnyError(cs)
    requires forall s', p, t :: cb(s', FileEvent(p, t)).signal != Stop
    requires forall s', p :: cb(s', DirEvent(p)).signal != Stop
    ensures WalkChildren(cs, parent, s, cb).signal != Stop
    decreases cs
  {
    if cs != [] {
      NoErrorEntryNoStop(cs[0], parent + [cs[0].name], s, cb);
      var r := WalkEntry(cs[0], parent + [cs[0].name], s, cb);
      if r.signal == Continue || (r.signal == SkipDir && !cs[0].File?) {
        NoErrorChildrenNoStop(cs[1..], parent, r.state, cb);
      }
    }
  }
}
