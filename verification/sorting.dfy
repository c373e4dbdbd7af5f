/** A sort parameterised by a total preorder. pandas' `sort_values` uses an
    unstable quicksort by default, so nothing here depends on how ties are
    broken: the contract is "a permutation of the input, ordered by `le`". */
module Sorting {

  /** `le` is total and transitive: every pair is comparable. */
  ghost predicate TotalPreorder<T(!new)>(le: (T, T) -> bool)
  {
    && (forall a, b :: le(a, b) || le(b, a))
    && (forall a, b, c :: le(a, b) && le(b, c) ==> le(a, c))
  }

  ghost predicate SortedBy<T>(s: seq<T>, le: (T, T) -> bool)
  {
    forall i, j :: 0 <= i < j < |s| ==> le(s[i], s[j])
  }

  /** Places `x` into the sorted sequence `s`. */
  function Insert<T(!new)>(x: T, s: seq<T>, le: (T, T) -> bool): (r: seq<T>)
    requires TotalPreorder(le)
    requires SortedBy(s, le)
    ensures multiset(r) == multiset(s) + multiset{x}
    ensures SortedBy(r, le)
    decreases |s|
  {
    if |s| == 0 then [x]
    else if le(x, s[0]) then
      assert forall j :: 0 < j < |s| ==> le(s[0], s[j]);
      [x] + s
    else
      var rest := Insert(x, s[1..], le);
      assert multiset(s) == multiset{s[0]} + multiset(s[1..]) by {
        assert s == [s[0]] + s[1..];
      }
      assert forall y :: y in rest ==> le(s[0], y) by {
        forall y | y in rest
          ensures le(s[0], y)
        {
          assert y in multiset(rest);
          if y != x {
            assert y in multiset(s[1..]);
            var j :| 0 <= j < |s[1..]| && s[1..][j] == y;
            assert s[j + 1] == y;
          }
        }
      }
      [s[0]] + rest
  }

  /** Insertion sort: a permutation of `s` ordered by `le`. */
  function Sort<T(!new)>(s: seq<T>, le: (T, T) -> bool): (r: seq<T>)
    requires TotalPreorder(le)
    ensures multiset(r) == multiset(s)
    ensures SortedBy(r, le)
    ensures |r| == |s|
    decreases |s|
  {
    if |s| == 0 then []
    else
      assert s == [s[0]] + s[1..];
      var r := Insert(s[0], Sort(s[1..], le), le);
      assert |r| == |multiset(r)|;
      r
  }
}
