/** The string operations of Go's standard library that the program relies on:
    trimming white space, trimming a leading character, and splitting on a
    separator. Text is treated as ASCII: `TrimSpace` knows only the six ASCII
    white-space characters. */
module GoStrings {

  /** The ASCII white space `strings.TrimSpace` and `bytes.TrimSpace` remove. */
  predicate IsSpace(c: char) {
    c == ' ' || c == '\t' || c == '\n' || c == '\r' || c == '\U{0B}' || c == '\U{0C}'
  }

  predicate AllSpace(s: string) {
    forall k :: 0 <= k < |s| ==> IsSpace(s[k])
  }

  /** `s` is `r` with white space only before it (the first `i` characters) and after it. */
  predicate Surrounds(s: string, r: string, i: nat) {
    i + |r| <= |s| && s[i..i + |r|] == r && AllSpace(s[..i]) && AllSpace(s[i + |r|..])
  }

  /** `s` without its leading white space. */
  function TrimLeadingSpace(s: string): (r: string)
    ensures |r| <= |s|
    ensures r == [] || !IsSpace(r[0])
  {
    if s != [] && IsSpace(s[0]) then TrimLeadingSpace(s[1..]) else s
  }

  /** `s` without its trailing white space. */
  function TrimTrailingSpace(s: string): (r: string)
    ensures |r| <= |s| && (r != [] ==> r[0] == s[0])
    ensures r == [] || !IsSpace(r[|r| - 1])
  {
    if s != [] && IsSpace(s[|s| - 1]) then TrimTrailingSpace(s[..|s| - 1]) else s
  }

  /** `strings.TrimSpace`: the text with leading and trailing white space removed. */
  function TrimSpace(s: string): (r: string)
    ensures |r| <= |s|
    ensures r == [] || (!IsSpace(r[0]) && !IsSpace(r[|r| - 1]))
  {
    TrimTrailingSpace(TrimLeadingSpace(s))
  }

  /** `TrimLeadingSpace` keeps a suffix and what it removes is white space. */
  lemma {:induction false} TrimLeadingRemovesSpace(s: string)
    ensures TrimLeadingSpace(s) == s[|s| - |TrimLeadingSpace(s)|..]
    ensures AllSpace(s[..|s| - |TrimLeadingSpace(s)|])
    decreases |s|
  {
    if s != [] && IsSpace(s[0]) {
      TrimLeadingRemovesSpace(s[1..]);
      assert s[1..][|s| - 1 - |TrimLeadingSpace(s)|..] == s[|s| - |TrimLeadingSpace(s)|..];
      var n := |s| - |TrimLeadingSpace(s)|;
      assert forall k :: 1 <= k < n ==> s[k] == s[1..][..n - 1][k - 1];
    }
  }

  /** `TrimTrailingSpace` keeps a prefix and what it removes is white space. */
  lemma {:induction false} TrimTrailingRemovesSpace(s: string)
    ensures TrimTrailingSpace(s) == s[..|TrimTrailingSpace(s)|]
    ensures AllSpace(s[|TrimTrailingSpace(s)|..])
    decreases |s|
  {
    if s != [] && IsSpace(s[|s| - 1]) {
      var t := s[..|s| - 1];
      TrimTrailingRemovesSpace(t);
      assert t[..|TrimTrailingSpace(s)|] == s[..|TrimTrailingSpace(s)|];
      var n := |TrimTrailingSpace(s)|;
      assert forall k :: n <= k < |s| - 1 ==> s[k] == t[n..][k - n];
    }
  }

  /** `TrimSpace(s)` occurs in `s` at some position with only white space around it. */
  lemma TrimSpaceSurrounds(s: string)
    ensures exists i :: Surrounds(s, TrimSpace(s), i)
  {
    var t := TrimLeadingSpace(s);
    var r := TrimTrailingSpace(t);
    var i := |s| - |t|;
    TrimLeadingRemovesSpace(s);
    TrimTrailingRemovesSpace(t);
    assert t == s[i..];
    assert r == t[..|r|];
    assert s[i..i + |r|] == r;
    assert s[i + |r|..] == t[|r|..];
    assert Surrounds(s, TrimSpace(s), i);
  }

  /** Text that is all white space has nothing left after its leading white space. */
  lemma {:induction false} TrimLeadingAllSpace(s: string)
    requires AllSpace(s)
    ensures TrimLeadingSpace(s) == []
    decreases |s|
  {
    if s != [] {
      assert AllSpace(s[1..]) by { assert forall k :: 0 <= k < |s| - 1 ==> s[1..][k] == s[k + 1]; }
      TrimLeadingAllSpace(s[1..]);
    }
  }

  /** Trimming gives nothing exactly when the text is all white space. */
  lemma TrimSpaceEmpty(s: string)
    ensures TrimSpace(s) == [] <==> AllSpace(s)
  {
    var t := TrimLeadingSpace(s);
    if AllSpace(s) {
      TrimLeadingAllSpace(s);
    }
    if TrimSpace(s) == [] {
      TrimLeadingRemovesSpace(s);
      TrimTrailingRemovesSpace(t);
      assert t == [] by { assert t[0..] == t; }
      assert s[..|s|] == s;
    }
  }

  /** Text that does not start with white space is left alone by the leading trim. */
  lemma TrimLeadingNone(s: string)
    requires s == [] || !IsSpace(s[0])
    ensures TrimLeadingSpace(s) == s
  {
  }

  /** Text that does not end in white space is left alone by the trailing trim. */
  lemma TrimTrailingNone(s: string)
    requires s == [] || !IsSpace(s[|s| - 1])
    ensures TrimTrailingSpace(s) == s
  {
  }

  lemma {:induction false} TrimLeadingPadded(pre: string, rest: string)
    requires AllSpace(pre) && (rest == [] || !IsSpace(rest[0]))
    ensures TrimLeadingSpace(pre + rest) == rest
  {
    if pre == [] {
      assert pre + rest == rest;
    } else {
      assert (pre + rest)[1..] == pre[1..] + rest;
      TrimLeadingPadded(pre[1..], rest);
    }
  }

  lemma {:induction false} TrimTrailingPadded(rest: string, post: string)
    requires AllSpace(post) && (rest == [] || !IsSpace(rest[|rest| - 1]))
    ensures TrimTrailingSpace(rest + post) == rest
  {
    if post == [] {
      assert rest + post == rest;
    } else {
      assert (rest + post)[..|rest + post| - 1] == rest + post[..|post| - 1];
      TrimTrailingPadded(rest, post[..|post| - 1]);
    }
  }

  /** Trimming is unambiguous: text with white space only around it, and none at
      its own ends, is what `TrimSpace` returns. */
  lemma TrimSpacePadded(pre: string, r: string, post: string)
    requires AllSpace(pre) && AllSpace(post)
    requires r != [] && !IsSpace(r[0]) && !IsSpace(r[|r| - 1])
    ensures TrimSpace(pre + r + post) == r
  {
    assert pre + r + post == pre + (r + post);
    TrimLeadingPadded(pre, r + post);
    TrimTrailingPadded(r, post);
  }

  /** Text with no white space at either end. */
  predicate Trimmed(s: string) {
    s == [] || (!IsSpace(s[0]) && !IsSpace(s[|s| - 1]))
  }

  /** Trimmed text is exactly the text `TrimSpace` leaves unchanged, so trimming
      twice is trimming once. */
  lemma TrimSpaceFixed(s: string)
    ensures TrimSpace(s) == s <==> Trimmed(s)
    ensures TrimSpace(TrimSpace(s)) == TrimSpace(s)
  {
    TrimmedFixed(TrimSpace(s));
    if Trimmed(s) {
      TrimmedFixed(s);
    }
  }

  lemma TrimmedFixed(s: string)
    requires Trimmed(s)
    ensures TrimSpace(s) == s
  {
    TrimLeadingNone(s);
    TrimTrailingNone(s);
  }

  /** Trimming text made of white space, a mark and already trimmed text keeps
      the mark and the text. */
  lemma TrimSpaceMarked(pre: string, mark: string, x: string)
    requires AllSpace(pre) && mark != [] && !IsSpace(mark[0])
    requires x != [] && Trimmed(x)
    ensures TrimSpace(pre + (mark + x)) == mark + x
  {
    var t := mark + x;
    assert Trimmed(t) by {
      assert t[0] == mark[0] && t[|t| - 1] == x[|x| - 1];
    }
    TrimSpaceLeftPadded(pre, t);
  }

  /** Trimmed text preceded by white space trims to itself. */
  lemma TrimSpaceLeftPadded(pre: string, t: string)
    requires AllSpace(pre) && Trimmed(t)
    ensures TrimSpace(pre + t) == t
  {
    TrimLeadingPadded(pre, t);
    TrimTrailingNone(t);
  }

  /** `strings.TrimLeft(s, cutset)` for a one-character cutset: every leading `c` removed. */
  function TrimLeftChar(s: string, c: char): (r: string)
    ensures |r| <= |s|
    ensures r == [] || r[0] != c
  {
    if s != [] && s[0] == c then TrimLeftChar(s[1..], c) else s
  }

  /** `TrimLeftChar` keeps a suffix and what it removes is a run of `c`. */
  lemma {:induction false} TrimLeftCharRemovesRun(s: string, c: char)
    ensures TrimLeftChar(s, c) == s[|s| - |TrimLeftChar(s, c)|..]
    ensures forall k :: 0 <= k < |s| - |TrimLeftChar(s, c)| ==> s[k] == c
    decreases |s|
  {
    if s != [] && s[0] == c {
      TrimLeftCharRemovesRun(s[1..], c);
      assert s[1..][|s| - 1 - |TrimLeftChar(s, c)|..] == s[|s| - |TrimLeftChar(s, c)|..];
      assert forall k :: 1 <= k < |s| ==> s[k] == s[1..][k - 1];
    }
  }

  /** Stripping `c` from text that is a run of `c` followed by something else
      leaves that something else. */
  lemma {:induction false} TrimLeftCharPadded(pre: string, rest: string, c: char)
    requires forall k :: 0 <= k < |pre| ==> pre[k] == c
    requires rest == [] || rest[0] != c
    ensures TrimLeftChar(pre + rest, c) == rest
  {
    if pre == [] {
      assert pre + rest == rest;
    } else {
      assert (pre + rest)[1..] == pre[1..] + rest;
      TrimLeftCharPadded(pre[1..], rest, c);
    }
  }

  /** `strings.HasPrefix(s, prefix)`. */
  predicate HasPrefix(s: string, prefix: string) {
    |prefix| <= |s| && s[..|prefix|] == prefix
  }

  /** The position of the first `c` in `s`. */
  function IndexOf(s: string, c: char): (i: nat)
    requires c in s
    ensures i < |s| && s[i] == c && c !in s[..i]
  {
    if s[0] == c then 0 else 1 + IndexOf(s[1..], c)
  }

  /** `bytes.SplitSeq(s, sep)` for a one-character separator: the pieces between
      separators, in order. There is always at least one piece, so the empty text
      splits into one empty piece. */
  function Split(s: string, sep: char): (pieces: seq<string>)
    ensures |pieces| >= 1
    decreases |s|
  {
    if sep !in s then [s]
    else
      var i := IndexOf(s, sep);
      [s[..i]] + Split(s[i + 1..], sep)
  }

  /** `strings.Join(pieces, sep)`, the inverse of `Split`. */
  function JoinWith(pieces: seq<string>, sep: char): string
    requires |pieces| >= 1
  {
    if |pieces| == 1 then pieces[0] else pieces[0] + [sep] + JoinWith(pieces[1..], sep)
  }

  /** The first separator found is at `i` when `i` holds one and none comes before. */
  lemma {:induction false} IndexOfAt(s: string, c: char, i: nat)
    requires i < |s| && s[i] == c && c !in s[..i]
    ensures c in s && IndexOf(s, c) == i
  {
    assert s[i] in s;
    if i > 0 {
      assert s[0] == s[..i][0];
      assert s[1..][i - 1] == c;
      assert s[1..][..i - 1] == s[..i][1..];
      assert forall d :: d in s[..i][1..] ==> d in s[..i];
      IndexOfAt(s[1..], c, i - 1);
    }
  }

  /** A text holding the separator splits into the text before its first
      separator and the split of what follows it. */
  lemma SplitAt(s: string, sep: char)
    requires sep in s
    ensures var i := IndexOf(s, sep); Split(s, sep) == [s[..i]] + Split(s[i + 1..], sep)
  {
  }

  /** Joining a first piece and at least one more. */
  lemma JoinWithCons(p: string, rest: seq<string>, sep: char)
    requires |rest| >= 1
    ensures JoinWith([p] + rest, sep) == p + [sep] + JoinWith(rest, sep)
  {
    assert ([p] + rest)[1..] == rest;
  }

  lemma {:induction false} SplitPiecesFree(s: string, sep: char)
    ensures forall k :: 0 <= k < |Split(s, sep)| ==> sep !in Split(s, sep)[k]
    decreases |s|
  {
    if sep in s {
      var i := IndexOf(s, sep);
      var rest := Split(s[i + 1..], sep);
      SplitPiecesFree(s[i + 1..], sep);
      SplitAt(s, sep);
      var all := Split(s, sep);
      forall k | 0 <= k < |all| ensures sep !in all[k] {
        if k > 0 {
          assert all[k] == rest[k - 1];
        }
      }
    }
  }

  lemma {:induction false} SplitJoinBack(s: string, sep: char)
    ensures JoinWith(Split(s, sep), sep) == s
    decreases |s|
  {
    if sep in s {
      var i := IndexOf(s, sep);
      var rest := Split(s[i + 1..], sep);
      SplitJoinBack(s[i + 1..], sep);
      SplitAt(s, sep);
      JoinWithCons(s[..i], rest, sep);
      assert s == s[..i] + [sep] + s[i + 1..];
    }
  }

  /** No piece of a split contains the separator, and joining the pieces gives back the text. */
  lemma SplitJoin(s: string, sep: char)
    ensures forall k :: 0 <= k < |Split(s, sep)| ==> sep !in Split(s, sep)[k]
    ensures JoinWith(Split(s, sep), sep) == s
  {
    SplitPiecesFree(s, sep);
    SplitJoinBack(s, sep);
  }

  /** Splitting the join of separator-free pieces gives back the pieces. */
  lemma {:induction false} JoinSplit(pieces: seq<string>, sep: char)
    requires |pieces| >= 1
    requires forall k :: 0 <= k < |pieces| ==> sep !in pieces[k]
    ensures Split(JoinWith(pieces, sep), sep) == pieces
  {
    if |pieces| > 1 {
      var p, more := pieces[0], pieces[1..];
      assert pieces == [p] + more;
      var tail := JoinWith(more, sep);
      JoinWithCons(p, more, sep);
      var s := p + [sep] + tail;
      assert s[..|p|] == p && s[|p|] == sep && s[|p| + 1..] == tail;
      IndexOfAt(s, sep, |p|);
      SplitAt(s, sep);
      assert forall k :: 0 <= k < |more| ==> more[k] == pieces[k + 1];
      JoinSplit(more, sep);
    }
  }
}
