/** Python slice forms used by the memory store, with their behaviour on
    zero and negative bounds written out. */
module Slices {

  function Min(a: int, b: int): (m: int) { if a <= b then a else b }
  function Max(a: int, b: int): (m: int) { if a <= b then b else a }

  /** `s[-m:]`. For m > 0 the last m elements; `-0` is `0`, so m == 0 keeps
      the whole sequence; for m < 0 it drops the first -m elements. */
  function PyTail<T>(s: seq<T>, m: int): (r: seq<T>)
    ensures |r| <= |s| && r == s[|s| - |r|..]
    ensures m > 0 ==> |r| == Min(m, |s|)
    ensures m == 0 ==> r == s
    ensures m < 0 ==> |r| == Max(|s| + m, 0)
  {
    if m == 0 then s
    else if m > 0 then (if m >= |s| then s else s[|s| - m..])
    else (if -m >= |s| then [] else s[-m..])
  }

  /** `s[:n]`. For n >= 0 the first n elements; for n < 0 all but the last -n. */
  function PyTake<T>(s: seq<T>, n: int): (r: seq<T>)
    ensures |r| <= |s| && r == s[..|r|]
    ensures n >= 0 ==> |r| == Min(n, |s|)
    ensures n < 0 ==> |r| == Max(|s| + n, 0)
  {
    if n >= 0 then (if n >= |s| then s else s[..n])
    else (if -n >= |s| then [] else s[..|s| + n])
  }
}
