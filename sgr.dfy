/** Terminal colouring by SGR (select graphic rendition) control sequences,
    section 8.3.117 of ECMA-48: `ESC [` parameters `m`. Both copies of
    `Colorize` wrap a text in each colour and a reset, one colour after another,
    so the last colour given ends up outermost. */
module Sgr {

  const Esc: char := '\U{1B}'

  predicate IsDigit(c: char) {
    '0' <= c <= '9'
  }

  /** A control sequence of the form `ESC [ p m`. */
  predicate IsSequence(s: string) {
    |s| >= 3 && s[0] == Esc && s[1] == '[' && s[|s| - 1] == 'm'
  }

  /** The parameters of `s` are decimal numbers only. */
  predicate DigitParameters(s: string)
    requires IsSequence(s)
  {
    |s| > 3 && forall k :: 2 <= k < |s| - 1 ==> IsDigit(s[k])
  }

  /** The parameters of `s` are decimal numbers separated by `;`, as in the
      256-colour extension `38;5;n`. */
  predicate NumericParameters(s: string)
    requires IsSequence(s)
  {
    |s| > 3 && IsDigit(s[2]) && IsDigit(s[|s| - 2])
    && forall k :: 2 <= k < |s| - 1 ==> IsDigit(s[k]) || (s[k] == ';' && IsDigit(s[k + 1]))
  }

  /** The opening sequences in the order they end up in front of the text: the
      last colour first. */
  function Opening(colors: seq<string>): string {
    if colors == [] then "" else colors[|colors| - 1] + Opening(colors[..|colors| - 1])
  }

  /** `n` copies of `s`. */
  function Repeat(s: string, n: nat): string {
    if n == 0 then "" else Repeat(s, n - 1) + s
  }

  /** What `Colorize(text, colors...)` returns when its reset sequence is `reset`. */
  function Wrapped(text: string, colors: seq<string>, reset: string): (r: string)
    ensures |r| >= |text|
  {
    Opening(colors) + text + Repeat(reset, |colors|)
  }

  /** The combined length of the colours. */
  function TotalLength(colors: seq<string>): nat {
    if colors == [] then 0 else TotalLength(colors[..|colors| - 1]) + |colors[|colors| - 1]|
  }

  lemma {:induction false} OpeningLength(colors: seq<string>)
    ensures |Opening(colors)| == TotalLength(colors)
  {
    if colors != [] {
      OpeningLength(colors[..|colors| - 1]);
    }
  }

  lemma {:induction false} RepeatLength(s: string, n: nat)
    ensures |Repeat(s, n)| == n * |s|
  {
    if n > 0 {
      RepeatLength(s, n - 1);
    }
  }

  /** Without colours the text comes back unchanged. */
  lemma NoColors(text: string, reset: string)
    ensures Wrapped(text, [], reset) == text
  {
    assert Opening([]) + text + Repeat(reset, 0) == text;
  }

  /** The result is the text plus every colour plus one reset per colour. */
  lemma WrappedLength(text: string, colors: seq<string>, reset: string)
    ensures |Wrapped(text, colors, reset)| == |text| + TotalLength(colors) + |colors| * |reset|
  {
    OpeningLength(colors);
    RepeatLength(reset, |colors|);
  }

  /** The text sits whole inside the result, right after the opening sequences. */
  lemma TextInside(text: string, colors: seq<string>, reset: string)
    ensures var w := Wrapped(text, colors, reset); var i := |Opening(colors)|;
      i + |text| <= |w| && w[i..i + |text|] == text
  {
    var w := Wrapped(text, colors, reset);
    var i := |Opening(colors)|;
    assert w == Opening(colors) + text + Repeat(reset, |colors|);
    assert w[i..i + |text|] == text;
  }

  /** With at least one colour the result starts with the last colour and ends
      with the reset. */
  lemma Ends(text: string, colors: seq<string>, reset: string)
    requires colors != []
    ensures var w := Wrapped(text, colors, reset); var last := colors[|colors| - 1];
      |last| <= |w| && w[..|last|] == last && |reset| <= |w| && w[|w| - |reset|..] == reset
  {
    var w := Wrapped(text, colors, reset);
    var last := colors[|colors| - 1];
    var inner := Opening(colors[..|colors| - 1]);
    var resets := Repeat(reset, |colors| - 1);
    assert Opening(colors) == last + inner;
    assert Repeat(reset, |colors|) == resets + reset;
    assert w == last + (inner + text + resets + reset);
    assert w[..|last|] == last;
    assert w == (last + inner + text + resets) + reset;
    assert w[|w| - |reset|..] == reset;
  }

  lemma {:induction false} OpeningAppend(a: seq<string>, b: seq<string>)
    ensures Opening(a + b) == Opening(b) + Opening(a)
    decreases |b|
  {
    if b == [] {
      assert a + b == a;
    } else {
      var c := a + b;
      assert c[..|c| - 1] == a + b[..|b| - 1];
      assert c[|c| - 1] == b[|b| - 1];
      OpeningAppend(a, b[..|b| - 1]);
    }
  }

  lemma {:induction false} RepeatAppend(s: string, m: nat, n: nat)
    ensures Repeat(s, m + n) == Repeat(s, m) + Repeat(s, n)
    decreases n
  {
    if n > 0 {
      RepeatAppend(s, m, n - 1);
    }
  }

  /** Colouring an already coloured text is colouring the original with both
      lists, the second one outermost. */
  lemma WrappedTwice(text: string, a: seq<string>, b: seq<string>, reset: string)
    ensures Wrapped(Wrapped(text, a, reset), b, reset) == Wrapped(text, a + b, reset)
  {
    OpeningAppend(a, b);
    RepeatAppend(reset, |a|, |b|);
  }
}
