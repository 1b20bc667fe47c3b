/** Best-candidate selection over the decoder's quality scores:
    `maskScores.indexOf(Math.max(...maskScores))` in app/page.jsx. Scores are reals; NaN is not modelled. */
module MaskSelect {

  /** `k` is the first index whose score is greater than or equal to every score. */
  ghost predicate IsFirstMax(s: seq<real>, k: int) {
    && 0 <= k < |s|
    && (forall j :: 0 <= j < |s| ==> s[j] <= s[k])
    && (forall j :: 0 <= j < k ==> s[j] < s[k])
  }

  /** `Math.max(...s)` over a non-empty score list. */
  function MaxScore(s: seq<real>): (m: real)
    requires |s| > 0
    ensures m in s
    ensures forall j :: 0 <= j < |s| ==> s[j] <= m
  {
    if |s| == 1 then s[0]
    else
      var rest := MaxScore(s[1..]);
      if s[0] >= rest then s[0] else rest
  }

  /** `Array.prototype.indexOf`: the first position holding `v`, or -1 when there is none. */
  function IndexOf(s: seq<real>, v: real): (i: int)
    ensures -1 <= i < |s|
    ensures i == -1 <==> v !in s
    ensures 0 <= i ==> s[i] == v && forall j :: 0 <= j < i ==> s[j] != v
  {
    if |s| == 0 then -1
    else if s[0] == v then 0
    else
      var k := IndexOf(s[1..], v);
      if k == -1 then -1 else k + 1
  }

  /** The index of the mask the client keeps. On an empty list JavaScript's `Math.max()` is
      -Infinity, which `indexOf` does not find, so the index is -1. */
  function BestMaskIndex(scores: seq<real>): (k: int)
    ensures |scores| == 0 <==> k == -1
    ensures |scores| > 0 ==> IsFirstMax(scores, k)
  {
    if |scores| == 0 then -1 else IndexOf(scores, MaxScore(scores))
  }

  /** At most one index is the first maximum. */
  lemma FirstMaxUnique(s: seq<real>, a: int, b: int)
    requires IsFirstMax(s, a) && IsFirstMax(s, b)
    ensures a == b
  {
    assert s[a] == s[b];
  }

  /** An independent formulation: a single left-to-right scan that moves the candidate only on
      a strictly greater score picks the same index as `indexOf(Math.max(...))`. */
  method ScanBest(scores: seq<real>) returns (best: int)
    ensures best == BestMaskIndex(scores)
  {
    if |scores| == 0 {
      return -1;
    }
    best := 0;
    var i := 1;
    while i < |scores|
      invariant 1 <= i <= |scores|
      invariant IsFirstMax(scores[..i], best)
    {
      if scores[i] > scores[best] {
        best := i;
      }
      i := i + 1;
    }
    assert scores[..i] == scores;
    FirstMaxUnique(scores, best, BestMaskIndex(scores));
  }
}
