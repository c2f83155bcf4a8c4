/** Insertion sort by an integer key. It stands for the storage engine's
    ORDER BY: it only ever promises an ordered permutation of its input. */
module Sorting {

  ghost predicate SortedBy<T>(s: seq<T>, key: T -> int)
  {
    forall i, j :: 0 <= i < j < |s| ==> key(s[i]) <= key(s[j])
  }

  /** Inserts `x` in front of the first element whose key is not smaller. */
  function InsertBy<T>(x: T, s: seq<T>, key: T -> int): (r: seq<T>)
    requires SortedBy(s, key)
    ensures SortedBy(r, key)
    ensures multiset(r) == multiset(s) + multiset{x}
    ensures |r| == |s| + 1
  {
    if s == [] then [x]
    else if key(x) <= key(s[0]) then [x] + s
    else
      var rest := InsertBy(x, s[1..], key);
      assert s == [s[0]] + s[1..];
      HeadBoundsInsert(x, s, rest, key);
      PrependSorted(s[0], rest, key);
      [s[0]] + rest
  }

  /** The head of a sorted sequence bounds every element of its tail with
      a larger element inserted. */
  lemma HeadBoundsInsert<T>(x: T, s: seq<T>, rest: seq<T>, key: T -> int)
    requires SortedBy(s, key) && s != [] && key(s[0]) < key(x)
    requires multiset(rest) == multiset(s[1..]) + multiset{x}
    ensures forall z | z in rest :: key(s[0]) <= key(z)
  {
    forall z | z in rest
      ensures key(s[0]) <= key(z)
    {
      assert z in multiset(rest);
      if z != x {
        assert z in s[1..];
        var k :| 0 <= k < |s[1..]| && s[1..][k] == z;
        assert s[k + 1] == z;
      }
    }
  }

  /** An element no larger than every element of a sorted sequence can go
      in front of it. */
  lemma PrependSorted<T>(y: T, rest: seq<T>, key: T -> int)
    requires SortedBy(rest, key) && forall z | z in rest :: key(y) <= key(z)
    ensures SortedBy([y] + rest, key)
  {
    forall i, j | 0 <= i < j < |[y] + rest|
      ensures key(([y] + rest)[i]) <= key(([y] + rest)[j])
    {
      assert ([y] + rest)[j] == rest[j - 1];
      if i > 0 {
        assert ([y] + rest)[i] == rest[i - 1];
      }
    }
  }

  /** An ordered permutation of `s`, ascending by `key`. */
  function SortBy<T>(s: seq<T>, key: T -> int): (r: seq<T>)
    ensures SortedBy(r, key)
    ensures multiset(r) == multiset(s)
    ensures |r| == |s|
  {
    if s == [] then []
    else
      assert s == [s[0]] + s[1..];
      InsertBy(s[0], SortBy(s[1..], key), key)
  }
}
