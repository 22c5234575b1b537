/** The JavaScript array and `Set` primitives the charm calculator is written
    with (`indexOf` and the index behind `find`, `Set.prototype.add` followed by
    `Array.from`), as functions on sequences. */
module SeqUtil {
  import opened Wrappers

  /** No element occurs twice. */
  predicate Distinct<T(==)>(s: seq<T>)
  {
    forall i, j | 0 <= i < j < |s| :: s[i] != s[j]
  }

  /** `Array.prototype.indexOf` with `p` testing equality, and the position
      `find` stops at: the first position whose element satisfies `p`, or -1. */
  function FirstIndex<T>(s: seq<T>, p: T -> bool): (r: int)
    ensures -1 <= r < |s|
    ensures r == -1 <==> forall i | 0 <= i < |s| :: !p(s[i])
    ensures 0 <= r ==> p(s[r]) && forall j | 0 <= j < r :: !p(s[j])
  {
    if |s| == 0 then -1
    else if p(s[0]) then 0
    else
      var k := FirstIndex(s[1..], p);
      if k == -1 then -1 else k + 1
  }

  /** `set.add(x)` on a JavaScript `Set`, observed through `Array.from(set)`:
      the elements in first-insertion order, `x` appended unless present. */
  function AddDistinct<T(==)>(s: seq<T>, x: T): (r: seq<T>)
    ensures Distinct(s) ==> Distinct(r)
    ensures x in r && forall i | 0 <= i < |s| :: s[i] in r
    ensures forall i | 0 <= i < |r| :: r[i] in s || r[i] == x
    ensures x in s ==> r == s
  {
    if x in s then s else s + [x]
  }
}
