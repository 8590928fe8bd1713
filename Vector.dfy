/**
 * The swap-erase helpers on `std::vector`.  A vector taken by reference is
 * modelled as the sequence before the call and the sequence the call leaves.
 */
module Vector {

  /**
   * `w` holds exactly the elements of `v` that `matches` rejects, each as
   * often as in `v`, in any order.
   */
  ghost predicate KeepsExactlyUnmatched<T>(v: seq<T>, w: seq<T>, matches: T -> bool)
  {
    forall x | x in v + w :: multiset(w)[x] == if matches(x) then 0 else multiset(v)[x]
  }

  lemma SwapPopMultiset<T>(s: seq<T>, i: nat)
    requires i < |s|
    ensures multiset(s[i := s[|s| - 1]][..|s| - 1]) == multiset(s) - multiset{s[i]}
  {
    var last := |s| - 1;
    var t := s[i := s[last]][..last];
    if i == last {
      assert s == t + [s[i]];
    } else {
      assert s == s[..i] + [s[i]] + s[i + 1..last] + [s[last]];
      assert t == s[..i] + [s[last]] + s[i + 1..last];
    }
  }

  /**
   * `vectorSwapEraseIf`: removes every element that `matches`, swapping it
   * with the last element and popping; the index is not advanced after a
   * removal, so the element swapped in is examined too.  Returns the number
   * of removed elements.
   */
  method SwapEraseIf<T>(v: seq<T>, matches: T -> bool) returns (w: seq<T>, removed: nat)
    ensures |w| == |v| - removed
    ensures forall k :: 0 <= k < |w| ==> !matches(w[k])
    ensures KeepsExactlyUnmatched(v, w, matches)
  {
    w, removed := v, 0;
    var i := 0;
    while i < |w|
      invariant 0 <= i <= |w|
      invariant |w| + removed == |v|
      invariant forall k :: 0 <= k < i ==> !matches(w[k])
      invariant forall x :: !matches(x) ==> multiset(w)[x] == multiset(v)[x]
      invariant forall x :: matches(x) ==> multiset(w)[x] <= multiset(v)[x]
      decreases |w| - i
    {
      if matches(w[i]) {
        SwapPopMultiset(w, i);
        w := w[i := w[|w| - 1]][..|w| - 1];
        removed := removed + 1;
      } else {
        i := i + 1;
      }
    }
  }

  /**
   * `vectorSwapEraseAt`: an index past the end leaves the vector alone;
   * otherwise the last element moves into slot `at` and the vector shrinks by one.
   */
  function SwapEraseAt<T>(v: seq<T>, at: nat): (w: seq<T>)
    ensures at >= |v| ==> w == v
    ensures at < |v| ==> |w| == |v| - 1
    ensures at < |v| - 1 ==> w[at] == v[|v| - 1]
    ensures at < |v| ==> forall k :: 0 <= k < |w| && k != at ==> w[k] == v[k]
    ensures at < |v| ==> multiset(w) == multiset(v) - multiset{v[at]}
  {
    if at < |v| then
      var last := |v| - 1;
      if at != last then
        SwapPopMultiset(v, at);
        v[at := v[last]][..last]
      else
        assert v == v[..last] + [v[last]];
        v[..last]
    else
      v
  }
}
