/** Shared result types and the few string operations the editor core takes from its language. */
module Prelude {
  datatype Option<+T> = None | Some(value: T)

  datatype Result<+T, +E> = Ok(value: T) | Err(error: E)

  /** `sub` occurs in `s` at position `k`. */
  predicate At<T(==)>(s: seq<T>, sub: seq<T>, k: int) {
    0 <= k <= |s| - |sub| && s[k..k + |sub|] == sub
  }

  /** Least occurrence at or after `from`, or -1: `str.find(sub, from)`. */
  function Find<T(==)>(s: seq<T>, sub: seq<T>, from: nat): (r: int)
    ensures r == -1 || (from <= r && At(s, sub, r))
    ensures forall k | from <= k && At(s, sub, k) :: 0 <= r <= k
    decreases |s| - from
  {
    if from > |s| - |sub| then -1
    else if At(s, sub, from) then from
    else Find(s, sub, from + 1)
  }

  /** Greatest occurrence ending at or before `high`, or -1: `str.rfind(sub, 0, high)`. */
  function RFind<T(==)>(s: seq<T>, sub: seq<T>, high: int): (r: int)
    ensures r == -1 || (At(s, sub, r) && r + |sub| <= high)
    ensures forall k | At(s, sub, k) && k + |sub| <= high :: k <= r
    decreases high
  {
    if high < |sub| then -1
    else if At(s, sub, high - |sub|) then high - |sub|
    else RFind(s, sub, high - 1)
  }

  function Max(a: int, b: int): int { if a < b then b else a }

  function Min(a: int, b: int): int { if a < b then a else b }

  lemma SliceOfSlice<T>(s: seq<T>, i: nat, j: nat, a: nat, b: nat)
    requires i <= j <= |s| && a <= b <= j - i
    ensures s[i..j][a..b] == s[i + a..i + b]
  {
    forall k | 0 <= k < b - a ensures s[i..j][a..b][k] == s[i + a..i + b][k] {}
  }
}
