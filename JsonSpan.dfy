/** The greedy search `re.search(r'\{.*\}', text, re.DOTALL)` and
    `match.group(0)` of app.py:110-112, over one string.

    With DOTALL the dot matches every character, so the pattern matches a span
    that starts with `{` and ends with a later `}`. The search takes the
    leftmost start at which any such span exists and, the star being greedy,
    the longest span from that start. */
module JsonSpan {
  import opened Wrappers

  /** The first position of `c` in `s`. */
  function FirstIndexOf(s: string, c: char): (r: Option<nat>)
    ensures r.None? <==> c !in s
    ensures r.Some? ==> r.value < |s| && s[r.value] == c
    ensures r.Some? ==> forall k :: 0 <= k < r.value ==> s[k] != c
  {
    if s == [] then None
    else if s[0] == c then Some(0)
    else match FirstIndexOf(s[1..], c)
      case None => None
      case Some(k) => Some(k + 1)
  }

  /** The last position of `c` in `s`. */
  function LastIndexOf(s: string, c: char): (r: Option<nat>)
    ensures r.None? <==> c !in s
    ensures r.Some? ==> r.value < |s| && s[r.value] == c
    ensures r.Some? ==> forall k :: r.value < k < |s| ==> s[k] != c
  {
    if s == [] then None
    else if s[|s| - 1] == c then Some(|s| - 1)
    else
      assert s == s[..|s| - 1] + [s[|s| - 1]];
      LastIndexOf(s[..|s| - 1], c)
  }

  /** The half-open bounds `[i, j)` of the match: from the first `{` to the
      last `}`, when that `}` comes after the `{`. The bounds always delimit a
      span the pattern matches. */
  function MatchBounds(s: string): (r: Option<(nat, nat)>)
    ensures r.Some? ==> IsCandidate(s, r.value.0, r.value.1)
  {
    match FirstIndexOf(s, '{')
    case None => None
    case Some(f) =>
      match LastIndexOf(s, '}')
      case None => None
      case Some(l) => if f < l then Some((f, l + 1)) else None
  }

  /** `match.group(0)`, or None when the pattern does not match. */
  function Extract(s: string): (r: Option<string>)
    ensures r.Some? ==> |r.value| >= 2 && r.value[0] == '{' && r.value[|r.value| - 1] == '}'
  {
    match MatchBounds(s)
    case None => None
    case Some((i, j)) => Some(s[i..j])
  }

  /** `s[i..j]` is a string the pattern `\{.*\}` matches (DOTALL). */
  ghost predicate IsCandidate(s: string, i: int, j: int)
  {
    0 <= i && i + 2 <= j <= |s| && s[i] == '{' && s[j - 1] == '}'
  }

  /** The match is the leftmost candidate span and, among the candidates that
      start there, the longest: exactly what a leftmost search with a greedy
      star returns. */
  lemma MatchIsLeftmostLongest(s: string)
    requires MatchBounds(s).Some?
    ensures IsCandidate(s, MatchBounds(s).value.0, MatchBounds(s).value.1)
    ensures forall i, j :: IsCandidate(s, i, j) ==>
              MatchBounds(s).value.0 <= i && (i == MatchBounds(s).value.0 ==> j <= MatchBounds(s).value.1)
  {
  }

  /** The pattern fails to match exactly when there is no candidate span. */
  lemma NoMatchIffNoCandidate(s: string)
    ensures MatchBounds(s).None? <==> forall i, j :: !IsCandidate(s, i, j)
  {
    if MatchBounds(s).Some? {
      MatchIsLeftmostLongest(s);
    }
  }

  /** There is no match exactly when the text has no `{`, or has no `}` after
      its first `{`. */
  lemma NoMatchIff(s: string)
    ensures Extract(s).None? <==>
            ('{' !in s || '}' !in s[FirstIndexOf(s, '{').value + 1..])
  {
    if FirstIndexOf(s, '{').Some? {
      var f := FirstIndexOf(s, '{').value;
      var tail := s[f + 1..];
      assert forall k :: 0 <= k < |tail| ==> tail[k] == s[f + 1 + k];
      if LastIndexOf(s, '}').Some? {
        var l := LastIndexOf(s, '}').value;
        assert f < l ==> tail[l - (f + 1)] == '}';
      }
    }
  }

  /** When there is a match it is the text from the first `{` to the last `}`. */
  lemma MatchIsFirstToLast(s: string)
    requires Extract(s).Some?
    ensures FirstIndexOf(s, '{').Some? && LastIndexOf(s, '}').Some?
    ensures Extract(s).value == s[FirstIndexOf(s, '{').value..LastIndexOf(s, '}').value + 1]
  {
  }

  /** A payload framed by braces, with commentary before it that has no `{`
      and commentary after it that has no `}`, is extracted exactly. */
  lemma {:induction false} ExtractRoundTrip(before: string, payload: string, after: string)
    requires '{' !in before && '}' !in after
    requires |payload| >= 2 && payload[0] == '{' && payload[|payload| - 1] == '}'
    ensures Extract(before + payload + after) == Some(payload)
  {
    var s := before + payload + after;
    var f := |before|;
    var l := |before| + |payload| - 1;
    assert s[f] == '{' && s[l] == '}';
    assert forall k :: 0 <= k < f ==> s[k] == before[k];
    assert forall k :: l < k < |s| ==> s[k] == after[k - (l + 1)];
    assert FirstIndexOf(s, '{') == Some(f);
    assert LastIndexOf(s, '}') == Some(l);
    assert s[f..l + 1] == payload;
  }
}
