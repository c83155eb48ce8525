/**
 * The shape shared by the source's id extractors: `s.match(/marker(cls+)/)`
 * returns the maximal run of `cls` characters that directly follows the
 * leftmost occurrence of `marker` that is followed by at least one such
 * character, or null when there is none.
 */
module Capture {
  import opened Wrappers
  import opened Text

  /** End of the maximal run of `cls` characters that starts at `j`. */
  function RunEnd(s: string, cls: char -> bool, j: nat): (e: nat)
    requires j <= |s|
    ensures j <= e <= |s|
    ensures forall k :: j <= k < e ==> cls(s[k])
    ensures e == |s| || !cls(s[e])
    decreases |s| - j
  {
    if j < |s| && cls(s[j]) then RunEnd(s, cls, j + 1) else j
  }

  /** The regex `marker(cls+)` can start matching at index `i`. */
  predicate CaptureAt(s: string, marker: string, cls: char -> bool, i: int) {
    OccursAt(s, marker, i) && i + |marker| < |s| && cls(s[i + |marker|])
  }

  /** The group captured by a match that starts at `i`: the maximal run after the marker. */
  function CaptureRun(s: string, marker: string, cls: char -> bool, i: int): (r: string)
    requires CaptureAt(s, marker, cls, i)
    ensures |r| >= 1 && AllChars(r, cls)
    ensures i + |marker| + |r| <= |s| && r == s[i + |marker|..i + |marker| + |r|]
    ensures i + |marker| + |r| == |s| || !cls(s[i + |marker| + |r|])
  {
    s[i + |marker|..RunEnd(s, cls, i + |marker|)]
  }

  /** The index where the leftmost match at or after `i` starts. */
  function LeftmostCapture(s: string, marker: string, cls: char -> bool, i: nat): (r: Option<nat>)
    ensures r.None? <==> forall k :: i <= k ==> !CaptureAt(s, marker, cls, k)
    ensures r.Some? ==> i <= r.value && CaptureAt(s, marker, cls, r.value)
    ensures r.Some? ==> forall k :: i <= k < r.value ==> !CaptureAt(s, marker, cls, k)
    decreases |s| - i
  {
    if i >= |s| then None
    else if CaptureAt(s, marker, cls, i) then Some(i)
    else LeftmostCapture(s, marker, cls, i + 1)
  }

  /** What `s.match(/marker(cls+)/)` yields as its first group. */
  function FirstCapture(s: string, marker: string, cls: char -> bool): (r: Option<string>)
    ensures r.None? <==> forall k :: !CaptureAt(s, marker, cls, k)
    ensures r.Some? ==> exists k :: IsLeftmostCapture(s, marker, cls, k) && r.value == CaptureRun(s, marker, cls, k)
  {
    match LeftmostCapture(s, marker, cls, 0)
    case None => None
    case Some(k) => assert IsLeftmostCapture(s, marker, cls, k); Some(CaptureRun(s, marker, cls, k))
  }

  predicate IsLeftmostCapture(s: string, marker: string, cls: char -> bool, k: int) {
    CaptureAt(s, marker, cls, k) && forall j :: 0 <= j < k ==> !CaptureAt(s, marker, cls, j)
  }
}
