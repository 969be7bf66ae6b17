/** Sequence helpers that mirror the JavaScript array operations the pages rely on. */
module Sequences {

  function Min(a: int, b: int): int { if a <= b then a else b }

  function Max(a: int, b: int): int { if a >= b then a else b }

  /** Normalises one `slice` bound: a negative index counts from the end, and
      every index is clamped into 0..n. */
  function SliceBound(n: nat, k: int): (r: nat)
    ensures r <= n
  {
    if k < 0 then Max(n + k, 0) else Min(k, n)
  }

  /** `Array.prototype.slice(start, end)`: for bounds from 0 up, the run from
      `start` to `end`, both clipped to the length. */
  function Slice<T>(s: seq<T>, start: int, end: int): (r: seq<T>)
    ensures |r| <= |s|
    ensures 0 <= start <= end ==> r == s[Min(start, |s|)..Min(end, |s|)]
  {
    var from, to := SliceBound(|s|, start), SliceBound(|s|, end);
    if from < to then s[from..to] else []
  }

  /** `a` is `b` with some elements removed and the rest kept in order. */
  predicate SubsequenceOf<T(==)>(a: seq<T>, b: seq<T>)
    decreases |b|
  {
    if a == [] then true
    else if b == [] then false
    else (a[0] == b[0] && SubsequenceOf(a[1..], b[1..])) || SubsequenceOf(a, b[1..])
  }

  lemma {:induction false} SubsequenceReflexive<T>(s: seq<T>)
    ensures SubsequenceOf(s, s)
  {
    if s != [] {
      SubsequenceReflexive(s[1..]);
    }
  }
}
