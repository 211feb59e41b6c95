/**
 * Python's `xs[start:end]` and JavaScript's `xs.slice(start, end)`: both read a
 * negative bound as counting back from the end and clamp every bound into
 * [0, |xs|]; an end at or before the start gives the empty sequence.
 */
module Slicing {

  /** Normalises one slice bound against a length `n`. */
  function ClampIndex(i: int, n: nat): (r: nat)
    ensures r <= n
    ensures 0 <= i <= n ==> r == i
    ensures i > n ==> r == n
    ensures 0 < -i <= n ==> r == n + i
    ensures n < -i ==> r == 0
  {
    if i < 0 then (if n + i < 0 then 0 else n + i)
    else if i > n then n
    else i
  }

  function Slice<T>(xs: seq<T>, start: int, end: int): (r: seq<T>)
    ensures |r| <= |xs|
    ensures var lo := ClampIndex(start, |xs|);
            && |r| == (if lo < ClampIndex(end, |xs|) then ClampIndex(end, |xs|) - lo else 0)
            && forall i | 0 <= i < |r| :: r[i] == xs[lo + i]
    ensures 0 <= start <= end ==>
              && |r| == (if start >= |xs| then 0 else (if end < |xs| then end else |xs|) - start)
              && forall i | 0 <= i < |r| :: r[i] == xs[start + i]
  {
    var lo := ClampIndex(start, |xs|);
    var hi := ClampIndex(end, |xs|);
    if lo < hi then xs[lo..hi] else []
  }
}
