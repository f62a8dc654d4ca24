/** Python's slice `s[:stop]`, including its reading of a negative stop. */
module PySlice {

  function Min(a: int, b: int): int {
    if a < b then a else b
  }

  /** Where `s[:stop]` ends in a sequence of length `n`: a negative stop
      counts from the end, and the result is clamped to `0..n`. */
  function StopIndex(n: nat, stop: int): (k: nat)
    ensures k <= n
  {
    if stop < 0 then (if stop + n < 0 then 0 else stop + n)
    else if stop > n then n
    else stop
  }

  /** `s[:stop]`: the first `stop` elements when `stop` is not negative,
      otherwise everything but the last `-stop` elements; never an error. */
  function SliceTo<T>(s: seq<T>, stop: int): (r: seq<T>)
    ensures |r| <= |s| && r == s[..|r|]
    ensures 0 <= stop ==> |r| == Min(stop, |s|)
    ensures stop < 0 ==> |s| - |r| == Min(-stop, |s|)
  {
    s[..StopIndex(|s|, stop)]
  }

  /** `s[:stop]` is empty exactly when `s` is, when `stop` is zero, or when
      a negative `stop` reaches back past the start. */
  lemma SliceToEmpty<T>(s: seq<T>, stop: int)
    ensures SliceTo(s, stop) == [] <==> |s| == 0 || stop == 0 || stop <= -|s|
  {
  }
}
