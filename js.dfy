/** The few JavaScript value rules the components rely on. */
module Js {
  import opened Wrappers

  /** JavaScript truthiness of an optional string prop: `undefined` and `""` are falsy. */
  predicate Truthy(s: Option<string>): (r: bool)
    ensures r ==> s.Some?
    ensures s.Some? ==> (r <==> |s.value| > 0)
  {
    s.Some? && s.value != ""
  }

  /** `a || b` for optional strings. */
  function Or(a: Option<string>, b: Option<string>): Option<string>
  {
    if Truthy(a) then a else b
  }

  /** How `Array.prototype.slice` turns a (possibly negative) argument into an index of a
      sequence of length `n`: negative values count from the end, and the result is clamped
      to `[0, n]`. `-0` is `0`, so it selects the whole sequence. */
  function RelativeIndex(k: int, n: nat): (r: nat)
    ensures r <= n
    ensures 0 <= k <= n ==> r == k
    ensures k < 0 && 0 <= n + k ==> r == n + k
    ensures k > n ==> r == n
    ensures n + k < 0 ==> r == 0
  {
    if k < 0 then (if n + k < 0 then 0 else n + k)
    else if k > n then n
    else k
  }

  /** `s.slice(start, end)`. */
  function Slice<T>(s: seq<T>, start: int, end: int): (r: seq<T>)
    ensures |r| <= |s|
    ensures 0 <= start <= end <= |s| ==> r == s[start..end]
    ensures -|s| <= start < 0 && |s| <= end ==> r == s[|s| + start..]
    ensures 0 <= start <= |s| <= end ==> r == s[start..]
  {
    var a := RelativeIndex(start, |s|);
    var b := RelativeIndex(end, |s|);
    if a < b then s[a..b] else []
  }

  /** In general `s.slice(start, end)` holds the `max(0, b - a)` elements from index `a` on,
      where `a` and `b` are the arguments turned into indices. */
  lemma SliceElements<T>(s: seq<T>, start: int, end: int)
    ensures var a, b := RelativeIndex(start, |s|), RelativeIndex(end, |s|);
      |Slice(s, start, end)| == (if a < b then b - a else 0)
    ensures forall k :: 0 <= k < |Slice(s, start, end)| ==>
      RelativeIndex(start, |s|) + k < |s| && Slice(s, start, end)[k] == s[RelativeIndex(start, |s|) + k]
  {
  }

  /** `s.slice(start)`. */
  function SliceFrom<T>(s: seq<T>, start: int): (r: seq<T>)
    ensures -|s| <= start < 0 ==> r == s[|s| + start..]
    ensures start == 0 ==> r == s
  {
    Slice(s, start, |s|)
  }
}
