/** Python's comparison of `str` values: lexicographic by code point, a proper
    prefix ordering before any of its extensions. This is the order `min` and
    `max` use on the raw `opened_at` column and the order `groupby` uses to
    arrange string keys. */
module StringOrder {

  /** `a <= b` on Python strings. */
  predicate StrLe(a: string, b: string)
    decreases |a|
  {
    if |a| == 0 then true
    else if |b| == 0 then false
    else if a[0] != b[0] then a[0] < b[0]
    else StrLe(a[1..], b[1..])
  }

  /** `a < b` on Python strings. */
  predicate StrLt(a: string, b: string)
  {
    StrLe(a, b) && a != b
  }

  predicate IsPrefix(a: string, b: string)
  {
    |a| <= |b| && a == b[..|a|]
  }

  /** `a` and `b` agree before position `k` and `a` has the smaller
      character there. */
  predicate FirstDifferenceBelow(a: string, b: string, k: nat)
  {
    k < |a| && k < |b| && a[..k] == b[..k] && a[k] < b[k]
  }

  /** The usual reading of the order: `a <= b` exactly when `a` is a prefix
      of `b` or, at the first position where they differ, `a` has the
      smaller code point. */
  lemma {:induction false} StrLeFirstDifference(a: string, b: string)
    ensures StrLe(a, b) <==> IsPrefix(a, b) || exists k: nat :: FirstDifferenceBelow(a, b, k)
    decreases |a|
  {
    if |a| == 0 {
    } else if |b| == 0 {
      assert !IsPrefix(a, b);
      assert forall k: nat :: !FirstDifferenceBelow(a, b, k);
    } else if a[0] != b[0] {
      assert !IsPrefix(a, b) by {
        if |a| <= |b| {
          assert b[..|a|][0] == b[0];
        }
      }
      forall k: nat | 0 < k <= |a| && k <= |b|
        ensures a[..k] != b[..k]
      {
        assert a[..k][0] == a[0] && b[..k][0] == b[0];
      }
      if a[0] < b[0] {
        assert FirstDifferenceBelow(a, b, 0);
      }
    } else {
      var a', b' := a[1..], b[1..];
      StrLeFirstDifference(a', b');
      assert a == [a[0]] + a' && b == [b[0]] + b';
      assert IsPrefix(a, b) <==> IsPrefix(a', b') by {
        if |a| <= |b| {
          assert b[..|a|] == [b[0]] + b'[..|a'|];
        }
      }
      if exists k: nat :: FirstDifferenceBelow(a', b', k) {
        var k: nat :| FirstDifferenceBelow(a', b', k);
        assert a[..k + 1] == [a[0]] + a'[..k] && b[..k + 1] == [b[0]] + b'[..k];
        assert FirstDifferenceBelow(a, b, k + 1);
      }
      if exists k: nat :: FirstDifferenceBelow(a, b, k) {
        var k: nat :| FirstDifferenceBelow(a, b, k);
        assert k > 0;
        assert a'[..k - 1] == a[..k][1..] && b'[..k - 1] == b[..k][1..];
        assert FirstDifferenceBelow(a', b', k - 1);
      }
    }
  }

  lemma {:induction false} StrLeReflexive(a: string)
    ensures StrLe(a, a)
    decreases |a|
  {
    if |a| > 0 {
      StrLeReflexive(a[1..]);
    }
  }

  lemma {:induction false} StrLeTotal(a: string, b: string)
    ensures StrLe(a, b) || StrLe(b, a)
    decreases |a|
  {
    if |a| > 0 && |b| > 0 && a[0] == b[0] {
      StrLeTotal(a[1..], b[1..]);
    }
  }

  lemma {:induction false} StrLeAntisymmetric(a: string, b: string)
    requires StrLe(a, b) && StrLe(b, a)
    ensures a == b
    decreases |a|
  {
    if |a| > 0 {
      StrLeAntisymmetric(a[1..], b[1..]);
      assert a == [a[0]] + a[1..];
      assert b == [b[0]] + b[1..];
    }
  }

  lemma {:induction false} StrLeTransitive(a: string, b: string, c: string)
    requires StrLe(a, b) && StrLe(b, c)
    ensures StrLe(a, c)
    decreases |a|
  {
    if |a| > 0 && a[0] == b[0] && b[0] == c[0] {
      StrLeTransitive(a[1..], b[1..], c[1..]);
    }
  }
}
