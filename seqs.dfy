/** Sequence helpers shared by the modules: Python's `filter` and list comprehensions with a condition. */
module Seqs {

  /** The elements of s that p accepts, in order. */
  function Filter<T>(s: seq<T>, p: T -> bool): seq<T>
  {
    if |s| == 0 then []
    else Filter(s[..|s| - 1], p) + (if p(s[|s| - 1]) then [s[|s| - 1]] else [])
  }

  /** The filter keeps every copy of an accepted element and none of a rejected one. */
  lemma {:induction false} FilterCount<T>(s: seq<T>, p: T -> bool)
    ensures forall x :: multiset(Filter(s, p))[x] == if p(x) then multiset(s)[x] else 0
  {
    if |s| > 0 {
      var init := s[..|s| - 1];
      FilterCount(init, p);
      assert s == init + [s[|s| - 1]];
    }
  }

  /** Filtering a prefix gives a prefix of the filtered whole. */
  lemma {:induction false} FilterPrefix<T>(s: seq<T>, p: T -> bool, n: nat)
    requires n <= |s|
    ensures Filter(s[..n], p) <= Filter(s, p)
  {
    if n < |s| {
      var init := s[..|s| - 1];
      FilterPrefix(init, p, n);
      assert init[..n] == s[..n];
    } else {
      assert s[..n] == s;
    }
  }

  /** One more element: the filter of a longer prefix from that of the shorter one. */
  lemma FilterStep<T>(s: seq<T>, p: T -> bool, i: nat)
    requires i < |s|
    ensures Filter(s[..i + 1], p) == Filter(s[..i], p) + (if p(s[i]) then [s[i]] else [])
  {
    assert s[..i + 1][..i] == s[..i];
  }

  /** Every element the filter keeps is an element of s that p accepts. */
  lemma {:induction false} FilterFrom<T>(s: seq<T>, p: T -> bool, k: nat)
    requires k < |Filter(s, p)|
    ensures p(Filter(s, p)[k])
    ensures exists i :: 0 <= i < |s| && s[i] == Filter(s, p)[k]
  {
    var init := s[..|s| - 1];
    if k < |Filter(init, p)| {
      FilterFrom(init, p, k);
      var i :| 0 <= i < |init| && init[i] == Filter(s, p)[k];
      assert s[i] == init[i];
    } else {
      assert s[|s| - 1] == Filter(s, p)[k];
    }
  }
}
