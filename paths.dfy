/** The stock optional value, used for the results of foreign calls that can fail. */
module Optional {
  datatype Option<+T> = None | Some(value: T)
}

/** Slash-separated absolute paths, held as their segments: `[]` is the root
    `/`, and `["home", "u", "proj"]` is `/home/u/proj`. Segments are assumed to be
    non-empty and free of `/`, as the names a directory listing returns are.
    These stand in for Go's `path/filepath` functions on a system whose
    separator is already `/`, where `filepath.ToSlash` is the identity. */
module Paths {

  type Path = seq<string>

  /** `filepath.Dir`: the parent directory; the root is its own parent. */
  function Dir(p: Path): (d: Path)
    ensures d == p <==> p == []
    ensures p != [] ==> d + [p[|p| - 1]] == p
  {
    if p == [] then [] else p[..|p| - 1]
  }

  /** `filepath.Join(dir, name)` for a plain file name. */
  function Join(dir: Path, name: string): Path {
    dir + [name]
  }

  /** `filepath.Base`: the last segment, or `/` for the root. */
  function Base(p: Path): string {
    if p == [] then "/" else p[|p| - 1]
  }

  /** The text of a path: each segment preceded by a slash. */
  function Slashed(p: Path): string {
    if p == [] then "" else "/" + p[0] + Slashed(p[1..])
  }

  /** The path as the walk hands it to its callback, after `filepath.ToSlash`. */
  function Render(p: Path): string {
    if p == [] then "/" else Slashed(p)
  }

  /** `filepath.Ext`: the suffix of `s` from the last dot of its final element, or
      `""` when the final element has no dot. The search runs backwards and gives
      up at the first slash. */
  function Ext(s: string): (e: string)
    ensures |e| <= |s|
    ensures e != "" ==> e[0] == '.'
  {
    if s == "" then ""
    else if s[|s| - 1] == '.' then "."
    else if s[|s| - 1] == '/' then ""
    else
      var e := Ext(s[..|s| - 1]);
      if e == "" then "" else e + [s[|s| - 1]]
  }

  /** A non-empty extension is a suffix starting with a dot and holding no
      other dot and no slash. */
  lemma {:induction false} ExtShape(s: string)
    ensures var e := Ext(s);
      (e != "" ==> |e| <= |s| && e == s[|s| - |e|..] && e[0] == '.')
      && (forall k :: 0 < k < |e| ==> e[k] != '.' && e[k] != '/')
  {
    if s != "" && s[|s| - 1] != '.' && s[|s| - 1] != '/' {
      var p := s[..|s| - 1];
      ExtShape(p);
      var e := Ext(p);
      if e != "" {
        assert p[|p| - |e|..] + [s[|s| - 1]] == s[|s| - 1 - |e|..];
      }
    }
  }

  /** The extension is empty only when every dot is followed, later on, by a
      slash. */
  lemma {:induction false} ExtEmpty(s: string)
    ensures Ext(s) == "" ==> forall k :: 0 <= k < |s| && s[k] == '.' ==> '/' in s[k..]
  {
    if s != "" && s[|s| - 1] == '/' {
      forall k | 0 <= k < |s| ensures '/' in s[k..] {
        assert s[k..][|s| - 1 - k] == '/';
      }
    } else if s != "" && s[|s| - 1] != '.' {
      var p := s[..|s| - 1];
      ExtEmpty(p);
      if Ext(p) == "" {
        forall k | 0 <= k < |s| && s[k] == '.' ensures '/' in s[k..] {
          assert s[k] == p[k];
          assert p[k..] == s[k..][..|p| - k];
        }
      }
    }
  }

  /** The extension is empty or a suffix starting with a dot and holding no
      other dot and no slash; it is empty only when every dot is followed, later
      on, by a slash. */
  lemma ExtIsSuffix(s: string)
    ensures var e := Ext(s);
      (e != "" ==> |e| <= |s| && e == s[|s| - |e|..] && e[0] == '.')
      && (forall k :: 0 < k < |e| ==> e[k] != '.' && e[k] != '/')
      && (e == "" ==> forall k :: 0 <= k < |s| && s[k] == '.' ==> '/' in s[k..])
  {
    ExtShape(s);
    ExtEmpty(s);
  }
}
