/** A stable sort on sequences, the behaviour of Python's `list.sort` and `sorted`.
    `le(a, b)` says that a may come before b; for a descending sort it is "key(a) >= key(b)". */
module Sorting {

  /** a may come before b, and b before c. */
  predicate Chain<T>(a: T, b: T, c: T, le: (T, T) -> bool)
  {
    le(a, b) && le(b, c)
  }

  /** Any two elements compare, and the order is transitive. Transitivity fires only on an
      explicit Chain, which keeps proofs about sorted sequences from chaining every pair. */
  ghost predicate TotalPreorder<T(!new)>(le: (T, T) -> bool)
  {
    && (forall a, b :: le(a, b) || le(b, a))
    && (forall a, b, c {:trigger Chain(a, b, c, le)} :: Chain(a, b, c, le) ==> le(a, c))
  }

  ghost predicate Sorted<T>(s: seq<T>, le: (T, T) -> bool)
  {
    forall i, j :: 0 <= i < j < |s| ==> le(s[i], s[j])
  }

  /** a and b have equal sort keys. */
  predicate Tied<T>(a: T, b: T, le: (T, T) -> bool)
  {
    le(a, b) && le(b, a)
  }

  /** The elements of s whose key equals k's, in the order s has them. */
  function Ties<T>(s: seq<T>, k: T, le: (T, T) -> bool): seq<T>
  {
    if |s| == 0 then []
    else (if Tied(s[0], k, le) then [s[0]] else []) + Ties(s[1..], k, le)
  }

  /** Puts x after every element of s that may come before it. */
  function Insert<T>(x: T, s: seq<T>, le: (T, T) -> bool): (r: seq<T>)
    ensures multiset(r) == multiset(s) + multiset{x}
  {
    if |s| == 0 then [x]
    else if le(s[0], x) then
      assert s == [s[0]] + s[1..];
      [s[0]] + Insert(x, s[1..], le)
    else [x] + s
  }

  /** Insertion sort that takes the input from left to right: stable. */
  function StableSort<T>(s: seq<T>, le: (T, T) -> bool): (r: seq<T>)
    ensures multiset(r) == multiset(s)
  {
    if |s| == 0 then []
    else
      assert s == s[..|s| - 1] + [s[|s| - 1]];
      Insert(s[|s| - 1], StableSort(s[..|s| - 1], le), le)
  }

  lemma {:induction false} InsertSorted<T(!new)>(x: T, s: seq<T>, le: (T, T) -> bool)
    requires TotalPreorder(le)
    requires Sorted(s, le)
    ensures Sorted(Insert(x, s, le), le)
  {
    if |s| > 0 {
      if le(s[0], x) {
        var rest := Insert(x, s[1..], le);
        InsertSorted(x, s[1..], le);
        forall y | y in rest ensures le(s[0], y) {
          assert y in multiset(rest);
          if y != x {
            assert y in multiset(s[1..]);
            var j :| 0 <= j < |s[1..]| && s[1..][j] == y;
            assert s[j + 1] == y;
          }
        }
        var r := [s[0]] + rest;
        forall i, j | 0 <= i < j < |r| ensures le(r[i], r[j]) {
          if i == 0 {
            assert r[j] == rest[j - 1];
            assert rest[j - 1] in rest;
          } else {
            assert r[i] == rest[i - 1] && r[j] == rest[j - 1];
          }
        }
      } else {
        assert le(x, s[0]);
        var r := [x] + s;
        forall i, j | 0 <= i < j < |r| ensures le(r[i], r[j]) {
          if i == 0 {
            assert r[j] == s[j - 1];
            if j > 1 {
              assert le(s[0], s[j - 1]);
              assert Chain(x, s[0], s[j - 1], le);
            }
          } else {
            assert r[i] == s[i - 1] && r[j] == s[j - 1];
          }
        }
      }
    }
  }

  lemma {:induction false} StableSortSorted<T(!new)>(s: seq<T>, le: (T, T) -> bool)
    requires TotalPreorder(le)
    ensures Sorted(StableSort(s, le), le)
  {
    if |s| > 0 {
      StableSortSorted(s[..|s| - 1], le);
      InsertSorted(s[|s| - 1], StableSort(s[..|s| - 1], le), le);
    }
  }

  lemma {:induction false} TiesAppend<T>(a: seq<T>, b: seq<T>, k: T, le: (T, T) -> bool)
    ensures Ties(a + b, k, le) == Ties(a, k, le) + Ties(b, k, le)
  {
    if |a| == 0 {
      assert a + b == b;
    } else {
      var ab := a + b;
      var head := if Tied(a[0], k, le) then [a[0]] else [];
      assert ab[0] == a[0] && ab[1..] == a[1..] + b;
      TiesAppend(a[1..], b, k, le);
      calc {
        Ties(ab, k, le);
        head + Ties(ab[1..], k, le);
        head + (Ties(a[1..], k, le) + Ties(b, k, le));
        (head + Ties(a[1..], k, le)) + Ties(b, k, le);
      }
    }
  }

  lemma {:induction false} TiesNone<T>(s: seq<T>, k: T, le: (T, T) -> bool)
    requires forall i :: 0 <= i < |s| ==> !Tied(s[i], k, le)
    ensures Ties(s, k, le) == []
  {
    if |s| > 0 {
      TiesNone(s[1..], k, le);
    }
  }

  lemma {:induction false} TiesInsert<T(!new)>(x: T, s: seq<T>, k: T, le: (T, T) -> bool)
    requires TotalPreorder(le)
    requires Sorted(s, le)
    ensures Ties(Insert(x, s, le), k, le) == Ties(s, k, le) + (if Tied(x, k, le) then [x] else [])
  {
    var tail := if Tied(x, k, le) then [x] else [];
    if |s| == 0 {
      assert Ties([x], k, le) == tail;
    } else if le(s[0], x) {
      var head := if Tied(s[0], k, le) then [s[0]] else [];
      var rest := Insert(x, s[1..], le);
      calc {
        Ties(Insert(x, s, le), k, le);
        { assert ([s[0]] + rest)[1..] == rest; }
        head + Ties(rest, k, le);
        { TiesInsert(x, s[1..], k, le); }
        head + (Ties(s[1..], k, le) + tail);
        Ties(s, k, le) + tail;
      }
    } else {
      assert ([x] + s)[1..] == s;
      if Tied(x, k, le) {
        var first := s[0];
        forall i | 0 <= i < |s| ensures !Tied(s[i], k, le) {
          var y := s[i];
          assert Chain(y, k, x, le) ==> le(y, x);
          if i > 0 {
            assert le(first, y);
            assert Chain(first, y, x, le) ==> le(first, x);
          }
        }
        TiesNone(s, k, le);
      }
    }
  }


  /** Elements with equal keys keep their input order: the sort is stable. */
  lemma {:induction false} StableSortStable<T(!new)>(s: seq<T>, k: T, le: (T, T) -> bool)
    requires TotalPreorder(le)
    ensures Ties(StableSort(s, le), k, le) == Ties(s, k, le)
  {
    if |s| > 0 {
      var init, last := s[..|s| - 1], s[|s| - 1];
      var sorted := StableSort(init, le);
      var tail := if Tied(last, k, le) then [last] else [];
      StableSortSorted(init, le);
      calc {
        Ties(StableSort(s, le), k, le);
        Ties(Insert(last, sorted, le), k, le);
        { TiesInsert(last, sorted, k, le); }
        Ties(sorted, k, le) + tail;
        { StableSortStable(init, k, le); }
        Ties(init, k, le) + tail;
        { assert Ties([last], k, le) == tail; TiesAppend(init, [last], k, le); }
        Ties(init + [last], k, le);
        { assert init + [last] == s; }
        Ties(s, k, le);
      }
    }
  }

  /** An element that may come before every element, and comes first, is still first after sorting. */
  lemma {:induction false} FirstStaysFirst<T(!new)>(s: seq<T>, le: (T, T) -> bool)
    requires TotalPreorder(le)
    requires |s| > 0
    requires forall i :: 0 <= i < |s| ==> le(s[0], s[i])
    ensures |StableSort(s, le)| == |s| && StableSort(s, le)[0] == s[0]
  {
    var r := StableSort(s, le);
    assert |multiset(r)| == |multiset(s)|;
    StableSortSorted(s, le);
    StableSortStable(s, s[0], le);
    assert s[0] in multiset(r);
    var j :| 0 <= j < |r| && r[j] == s[0];
    assert le(r[0], s[0]) by {
      if j > 0 { assert le(r[0], r[j]); }
    }
    assert r[0] in multiset(s);
    var i :| 0 <= i < |s| && s[i] == r[0];
    assert Tied(r[0], s[0], le);
    assert Ties(r, s[0], le)[0] == r[0];
    assert Tied(s[0], s[0], le);
    assert Ties(s, s[0], le)[0] == s[0];
  }
}
