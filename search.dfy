/** JavaScript's `Array.prototype.findIndex`, `find` and `some`, all of which look
    for the first element that satisfies a test. */
module Search {

  /** The index of the first element of `s` that satisfies `p`, or -1 if none does. */
  function FirstMatch<T>(s: seq<T>, p: T -> bool): (r: int)
    ensures -1 <= r < |s|
    ensures 0 <= r ==> p(s[r]) && forall k :: 0 <= k < r ==> !p(s[k])
    ensures r < 0 ==> forall k :: 0 <= k < |s| ==> !p(s[k])
    decreases |s|
  {
    if s == [] then -1
    else if p(s[0]) then 0
    else
      var r := FirstMatch(s[1..], p);
      if r < 0 then -1 else r + 1
  }

  /** The scan `findIndex` performs, element by element from the front. */
  method FindFirst<T>(s: seq<T>, p: T -> bool) returns (idx: int)
    ensures idx == FirstMatch(s, p)
  {
    idx := 0;
    while idx < |s| && !p(s[idx])
      invariant 0 <= idx <= |s|
      invariant forall k :: 0 <= k < idx ==> !p(s[k])
    {
      idx := idx + 1;
    }
    if idx == |s| {
      idx := -1;
    }
    FirstMatchUnique(s, p, idx);
  }

  /** The contract of `FirstMatch` determines its result. */
  lemma FirstMatchUnique<T>(s: seq<T>, p: T -> bool, i: int)
    requires -1 <= i < |s|
    requires 0 <= i ==> p(s[i]) && forall k :: 0 <= k < i ==> !p(s[k])
    requires i < 0 ==> forall k :: 0 <= k < |s| ==> !p(s[k])
    ensures i == FirstMatch(s, p)
  {
  }
}
