/**
 * The three JavaScript array operations the selection relies on, with the
 * semantics of the ECMAScript built-ins: includes and indexOf (which answers -1
 * when the value is absent) on arrays of strings, which JavaScript compares by
 * value, and splice(start, 1) (which accepts a negative or too large start) on
 * arrays of any element type.
 */
module JsArray {

  /** `s.includes(x)`. */
  function Includes(s: seq<string>, x: string): (b: bool)
    ensures b <==> exists i :: 0 <= i < |s| && s[i] == x
  {
    x in s
  }

  /** `s.indexOf(x)`: the first position holding x, or -1. */
  function IndexOf(s: seq<string>, x: string): (i: int)
    ensures -1 <= i < |s|
    ensures i == -1 <==> x !in s
    ensures 0 <= i ==> s[i] == x && x !in s[..i]
  {
    if |s| == 0 then -1
    else if s[0] == x then 0
    else
      var j := IndexOf(s[1..], x);
      assert j >= 0 ==> s[..j + 1] == [s[0]] + s[1..][..j];
      if j == -1 then -1 else j + 1
  }

  /** Where splice starts for a given start argument on an array of length n. */
  function RelativeStart(start: int, n: nat): (k: nat)
    ensures k <= n
    ensures 0 <= start <= n ==> k == start
    ensures start > n ==> k == n
    ensures start < 0 && -start <= n ==> k == n + start
    ensures start < -(n as int) ==> k == 0
  {
    if start < 0 then (if n + start < 0 then 0 else n + start)
    else if start > n then n
    else start
  }

  /**
   * The array left behind by `s.splice(start, 1)`: the element at the
   * relative start is dropped when there is one, and the rest keep their order.
   */
  function SpliceOne<T>(s: seq<T>, start: int): (r: seq<T>)
    ensures var k := RelativeStart(start, |s|);
      && (k < |s| ==> |r| == |s| - 1)
      && (k == |s| ==> r == s)
      && (forall j :: 0 <= j < k && j < |r| ==> r[j] == s[j])
      && (forall j :: k <= j < |r| ==> r[j] == s[j + 1])
  {
    var k := RelativeStart(start, |s|);
    if k < |s| then s[..k] + s[k + 1..] else s
  }
}
