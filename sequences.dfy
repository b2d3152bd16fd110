/** Sequence views shared by the orchestrator and the UI. */
module Sequences {

  /** The last `n` elements of `s`, newest first: what `ORDER BY created_at DESC
      LIMIT n` returns from a table kept in insertion order, and what a
      newest-first history of bounded length holds. */
  function Recent<T>(s: seq<T>, n: nat): (r: seq<T>)
    ensures |r| == if n < |s| then n else |s|
    ensures forall k :: 0 <= k < |r| ==> r[k] == s[|s| - 1 - k]
    decreases n
  {
    if n == 0 || s == [] then [] else [s[|s| - 1]] + Recent(s[..|s| - 1], n - 1)
  }
}
