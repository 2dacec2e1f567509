/** The pattern matcher behind `shouldIgnore`. `doublestar.Match` is a foreign
    library, so it is a parameter here: a function from a pattern and a candidate
    to one of three answers. */
module Glob {

  /** `doublestar.Match`'s answer: `(true, nil)`, `(false, nil)` or an error for a
      malformed pattern. */
  datatype MatchResult = Matched | NoMatch | BadPattern

  type Matcher = (string, string) -> MatchResult

  /** Some pattern matches some candidate. */
  predicate Hits(m: Matcher, patterns: seq<string>, candidates: seq<string>) {
    exists i, j :: 0 <= i < |patterns| && 0 <= j < |candidates| && m(patterns[i], candidates[j]) == Matched
  }

  /** The nested loop of `shouldIgnore` (main.go): every pattern against every
      candidate, stopping at the first match. A malformed pattern moves on to the
      next candidate; it is never fatal. */
  method MatchesAny(m: Matcher, patterns: seq<string>, candidates: seq<string>) returns (hit: bool)
    ensures hit <==> Hits(m, patterns, candidates)
  {
    var i := 0;
    while i < |patterns|
      invariant 0 <= i <= |patterns|
      invariant forall i', j :: 0 <= i' < i && 0 <= j < |candidates| ==> m(patterns[i'], candidates[j]) != Matched
    {
      var pattern := patterns[i];
      var j := 0;
      while j < |candidates|
        invariant 0 <= j <= |candidates|
        invariant forall j' :: 0 <= j' < j ==> m(pattern, candidates[j']) != Matched
      {
        var matched := m(pattern, candidates[j]);
        if matched == BadPattern {
          j := j + 1;
          continue;
        }
        if matched == Matched {
          return true;
        }
        j := j + 1;
      }
      i := i + 1;
    }
    return false;
  }

  /** The answer depends only on which patterns are present, not on their order
      or repetition. */
  lemma SamePatternsSameAnswer(m: Matcher, ps: seq<string>, qs: seq<string>, candidates: seq<string>)
    requires forall p :: p in ps <==> p in qs
    ensures Hits(m, ps, candidates) <==> Hits(m, qs, candidates)
  {
    if Hits(m, ps, candidates) {
      var i, j :| 0 <= i < |ps| && 0 <= j < |candidates| && m(ps[i], candidates[j]) == Matched;
      assert ps[i] in qs;
      var k :| 0 <= k < |qs| && qs[k] == ps[i];
      assert m(qs[k], candidates[j]) == Matched;
    }
    if Hits(m, qs, candidates) {
      var i, j :| 0 <= i < |qs| && 0 <= j < |candidates| && m(qs[i], candidates[j]) == Matched;
      assert qs[i] in ps;
      var k :| 0 <= k < |ps| && ps[k] == qs[i];
      assert m(ps[k], candidates[j]) == Matched;
    }
  }

  /** A pattern that matches no candidate, malformed or not, is skipped: taking it
      out of the list does not change the answer, whatever its position. */
  lemma {:induction false} SkippedPattern(m: Matcher, before: seq<string>, p: string, after: seq<string>, candidates: seq<string>)
    requires forall j :: 0 <= j < |candidates| ==> m(p, candidates[j]) != Matched
    ensures Hits(m, before + [p] + after, candidates) <==> Hits(m, before + after, candidates)
  {
    var ps, qs := before + [p] + after, before + after;
    if Hits(m, ps, candidates) {
      var i, j :| 0 <= i < |ps| && 0 <= j < |candidates| && m(ps[i], candidates[j]) == Matched;
      var k := if i < |before| then i else i - 1;
      assert qs[k] == ps[i];
    }
    if Hits(m, qs, candidates) {
      var i, j :| 0 <= i < |qs| && 0 <= j < |candidates| && m(qs[i], candidates[j]) == Matched;
      var k := if i < |before| then i else i + 1;
      assert ps[k] == qs[i];
    }
  }
}
