/** Group-count tables: what pandas' `groupby(...).count()` and
    `value_counts()` produce when no grouping field is null — one entry per
    distinct key together with the number of rows that carry it. */
module Groups {
  import opened Sorting

  /** One line of a group-count table. */
  datatype Group<K> = Group(key: K, count: nat)

  /** The count stored under `k`, or 0 when the table has no entry for `k`
      (the first entry wins; in a table with distinct keys there is one). */
  function CountOf<K(==)>(t: seq<Group<K>>, k: K): nat
  {
    if |t| == 0 then 0
    else if t[0].key == k then t[0].count
    else CountOf(t[1..], k)
  }

  /** Sum of the count column. */
  function Total<K>(t: seq<Group<K>>): nat
  {
    if |t| == 0 then 0 else t[0].count + Total(t[1..])
  }

  predicate DistinctKeys<K(==)>(t: seq<Group<K>>)
  {
    forall i, j :: 0 <= i < j < |t| ==> t[i].key != t[j].key
  }

  predicate PositiveCounts<K>(t: seq<Group<K>>)
  {
    forall i :: 0 <= i < |t| ==> t[i].count > 0
  }

  /** `t` is a group-count table of the key column `keys`: every key observed
      in `keys` has exactly one entry, whose count is its number of
      occurrences, and no other key has an entry. */
  ghost predicate IsCountTable<K(!new)>(t: seq<Group<K>>, keys: seq<K>)
  {
    && DistinctKeys(t)
    && PositiveCounts(t)
    && forall k :: CountOf(t, k) == multiset(keys)[k]
  }

  lemma {:induction false} TotalConcat<K>(a: seq<Group<K>>, b: seq<Group<K>>)
    ensures Total(a + b) == Total(a) + Total(b)
    decreases |a|
  {
    if |a| > 0 {
      assert (a + b)[0] == a[0];
      assert (a + b)[1..] == a[1..] + b;
      TotalConcat(a[1..], b);
    } else {
      assert a + b == b;
    }
  }

  /** In a table with positive counts, a key has a non-zero count exactly
      when it has an entry. */
  lemma {:induction false} CountOfPositive<K>(t: seq<Group<K>>, k: K)
    requires PositiveCounts(t)
    ensures CountOf(t, k) > 0 <==> exists i :: 0 <= i < |t| && t[i].key == k
    decreases |t|
  {
    if |t| > 0 && t[0].key != k {
      CountOfPositive(t[1..], k);
      if exists i :: 0 <= i < |t| && t[i].key == k {
        var i :| 0 <= i < |t| && t[i].key == k;
        assert t[1..][i - 1].key == k;
      }
      if exists i :: 0 <= i < |t[1..]| && t[1..][i].key == k {
        var i :| 0 <= i < |t[1..]| && t[1..][i].key == k;
        assert t[i + 1].key == k;
      }
    }
  }

  /** A key with no entry looks up as 0. */
  lemma {:induction false} CountOfAbsent<K>(t: seq<Group<K>>, k: K)
    requires forall i :: 0 <= i < |t| ==> t[i].key != k
    ensures CountOf(t, k) == 0
    decreases |t|
  {
    if |t| > 0 {
      assert forall i :: 0 <= i < |t[1..]| ==> t[1..][i] == t[i + 1];
      CountOfAbsent(t[1..], k);
    }
  }

  /** With distinct keys, looking up an entry's key finds that entry. */
  lemma {:induction false} CountOfEntry<K>(t: seq<Group<K>>, i: nat)
    requires DistinctKeys(t)
    requires i < |t|
    ensures CountOf(t, t[i].key) == t[i].count
    decreases |t|
  {
    if i > 0 {
      assert t[0].key != t[i].key;
      assert t[1..][i - 1] == t[i];
      CountOfEntry(t[1..], i - 1);
    }
  }

  /** Adds one occurrence of `k`: increments its entry or appends a new one. */
  function Bump<K(==,!new)>(t: seq<Group<K>>, k: K): (r: seq<Group<K>>)
    requires DistinctKeys(t) && PositiveCounts(t)
    ensures DistinctKeys(r) && PositiveCounts(r)
    ensures CountOf(r, k) == CountOf(t, k) + 1
    ensures forall k' :: k' != k ==> CountOf(r, k') == CountOf(t, k')
    ensures Total(r) == Total(t) + 1
    decreases |t|
  {
    if |t| == 0 then [Group(k, 1)]
    else if t[0].key == k then
      var r := [Group(k, t[0].count + 1)] + t[1..];
      assert r[1..] == t[1..];
      r
    else
      var rest := Bump(t[1..], k);
      var r := [t[0]] + rest;
      assert r[1..] == rest;
      assert DistinctKeys(r) by {
        assert forall j :: 0 <= j < |t[1..]| ==> t[1..][j].key != t[0].key;
        CountOfPositive(t[1..], t[0].key);
        CountOfPositive(rest, t[0].key);
      }
      r
  }

  /** Counts the occurrences of every key, in order of first appearance. */
  function Tally<K(==,!new)>(keys: seq<K>): (r: seq<Group<K>>)
    ensures DistinctKeys(r) && PositiveCounts(r)
    ensures forall k :: CountOf(r, k) == multiset(keys)[k]
    ensures Total(r) == |keys|
    decreases |keys|
  {
    if |keys| == 0 then []
    else
      var init := keys[..|keys| - 1];
      assert keys == init + [keys[|keys| - 1]];
      Bump(Tally(init), keys[|keys| - 1])
  }

  lemma {:induction false} AtMostOnce<K>(t: seq<Group<K>>, x: Group<K>)
    requires DistinctKeys(t)
    ensures multiset(t)[x] <= 1
    decreases |t|
  {
    if |t| > 0 {
      assert t == [t[0]] + t[1..];
      AtMostOnce(t[1..], x);
      if x == t[0] {
        assert forall j :: 0 <= j < |t[1..]| ==> t[1..][j] != x by {
          assert forall j :: 0 < j < |t| ==> t[j].key != t[0].key;
        }
      }
    }
  }

  lemma TwoOccurrences<T>(s: seq<T>, i: nat, j: nat)
    requires i < j < |s|
    requires s[i] == s[j]
    ensures multiset(s)[s[i]] >= 2
  {
    assert s == s[..i] + [s[i]] + s[i + 1..j] + [s[j]] + s[j + 1..];
  }

  /** Taking out the first entry of `rest` takes one copy of it out of the
      multiset and its count out of the total. */
  lemma SplitOff<K>(before: seq<Group<K>>, rest: seq<Group<K>>)
    requires |rest| > 0
    ensures multiset(before + rest) == multiset(before + rest[1..]) + multiset{rest[0]}
    ensures Total(before + rest) == rest[0].count + Total(before + rest[1..])
  {
    assert rest == [rest[0]] + rest[1..];
    calc {
      multiset(before + rest);
      multiset(before) + multiset(rest);
      multiset(before) + (multiset{rest[0]} + multiset(rest[1..]));
      multiset(before + rest[1..]) + multiset{rest[0]};
    }
    TotalConcat(before, rest);
    TotalConcat(before, rest[1..]);
  }

  lemma Cancel<T>(a: multiset<T>, b: multiset<T>, c: multiset<T>)
    requires a + c == b + c
    ensures a == b
  {
    forall y
      ensures a[y] == b[y]
    {
      assert (a + c)[y] == (b + c)[y];
    }
  }

  /** Reordering a sequence of entries leaves the sum of its counts alone. */
  lemma {:induction false} TotalOfPermutation<K>(s: seq<Group<K>>, t: seq<Group<K>>)
    requires multiset(s) == multiset(t)
    ensures Total(s) == Total(t)
    decreases |s|
  {
    if |s| == 0 {
      assert |t| == |multiset(t)| == 0;
    } else {
      var x := s[0];
      assert s == [x] + s[1..];
      assert multiset(s) == multiset(s[1..]) + multiset{x};
      assert x in multiset(t);
      var i :| 0 <= i < |t| && t[i] == x;
      var before, rest := t[..i], t[i..];
      assert t == before + rest;
      SplitOff(before, rest);
      var t' := before + rest[1..];
      Cancel(multiset(s[1..]), multiset(t'), multiset{x});
      TotalOfPermutation(s[1..], t');
    }
  }

  /** Any reordering of a table with distinct keys and positive counts is
      again such a table, with the same lookups and the same total. */
  lemma PermutationKeepsCounts<K(!new)>(t: seq<Group<K>>, r: seq<Group<K>>)
    requires multiset(r) == multiset(t)
    requires DistinctKeys(t) && PositiveCounts(t)
    ensures DistinctKeys(r) && PositiveCounts(r)
    ensures forall k :: CountOf(r, k) == CountOf(t, k)
    ensures Total(r) == Total(t)
  {
    forall i | 0 <= i < |r|
      ensures r[i] in t
    {
      assert r[i] in multiset(r);
    }
    // two entries of `t` with the same key are the same entry
    forall x, y | x in t && y in t && x.key == y.key
      ensures x == y
    {
      var i :| 0 <= i < |t| && t[i] == x;
      var j :| 0 <= j < |t| && t[j] == y;
      assert i == j;
    }
    forall i, j | 0 <= i < j < |r|
      ensures r[i].key != r[j].key
    {
      if r[i].key == r[j].key {
        assert r[i] == r[j];
        TwoOccurrences(r, i, j);
        AtMostOnce(t, r[i]);
        assert false;
      }
    }
    forall k
      ensures CountOf(r, k) == CountOf(t, k)
    {
      CountOfPositive(t, k);
      CountOfPositive(r, k);
      if CountOf(r, k) > 0 {
        var i :| 0 <= i < |r| && r[i].key == k;
        var j :| 0 <= j < |t| && t[j] == r[i];
        CountOfEntry(r, i);
        CountOfEntry(t, j);
      }
      if CountOf(t, k) > 0 {
        var j :| 0 <= j < |t| && t[j].key == k;
        assert t[j] in multiset(r);
        var i :| 0 <= i < |r| && r[i] == t[j];
        CountOfEntry(r, i);
        CountOfEntry(t, j);
      }
    }
    TotalOfPermutation(r, t);
  }

  /** Group-count tables of the same key column differ only in the order of
      their entries. */
  lemma CountTablesArePermutations<K(!new)>(t1: seq<Group<K>>, t2: seq<Group<K>>, keys: seq<K>)
    requires IsCountTable(t1, keys) && IsCountTable(t2, keys)
    ensures multiset(t1) == multiset(t2)
  {
    forall x | x in t1
      ensures x in t2
    {
      Transfer(t1, t2, x);
    }
    forall x | x in t2
      ensures x in t1
    {
      Transfer(t2, t1, x);
    }
    forall x
      ensures multiset(t1)[x] == multiset(t2)[x]
    {
      AtMostOnce(t1, x);
      AtMostOnce(t2, x);
      if x in t1 {
        assert x in t2;
      } else {
        assert x !in t2;
      }
    }
  }

  lemma Transfer<K(!new)>(a: seq<Group<K>>, b: seq<Group<K>>, x: Group<K>)
    requires DistinctKeys(a) && PositiveCounts(a)
    requires DistinctKeys(b) && PositiveCounts(b)
    requires forall k :: CountOf(a, k) == CountOf(b, k)
    requires x in a
    ensures x in b
  {
    var i :| 0 <= i < |a| && a[i] == x;
    CountOfEntry(a, i);
    CountOfPositive(b, x.key);
    var j :| 0 <= j < |b| && b[j].key == x.key;
    CountOfEntry(b, j);
  }

  /** The counts of a group-count table add up to the number of rows. */
  lemma CountTableTotal<K(!new)>(t: seq<Group<K>>, keys: seq<K>)
    requires IsCountTable(t, keys)
    ensures Total(t) == |keys|
  {
    var u := Tally(keys);
    CountTablesArePermutations(t, u, keys);
    TotalOfPermutation(t, u);
  }

  /** Every entry of a group-count table is keyed by a value that occurs. */
  lemma EntryKeyOccurs<K(!new)>(t: seq<Group<K>>, keys: seq<K>, i: nat)
    requires IsCountTable(t, keys)
    requires i < |t|
    ensures t[i].key in keys
  {
    CountOfEntry(t, i);
    assert multiset(keys)[t[i].key] > 0;
  }

  /** A column holding the single value `k` has the one-entry table
      `(k, |keys|)`. */
  lemma SingleKeyTable<K(!new)>(t: seq<Group<K>>, keys: seq<K>, k: K)
    requires IsCountTable(t, keys)
    requires |keys| > 0
    requires forall i :: 0 <= i < |keys| ==> keys[i] == k
    ensures t == [Group(k, |keys|)]
  {
    CountTableTotal(t, keys);
    forall i | 0 <= i < |t|
      ensures t[i].key == k
    {
      EntryKeyOccurs(t, keys, i);
    }
    assert |t| == 1;
    assert Total(t) == t[0].count + Total(t[1..]);
  }

  /** With distinct keys drawn from those of entries `ia` and `ib`, every
      entry is one of those two. */
  lemma OneOfTwoEntries<K>(t: seq<Group<K>>, ia: nat, ib: nat, i: nat)
    requires DistinctKeys(t)
    requires ia < |t| && ib < |t| && i < |t|
    requires t[i].key == t[ia].key || t[i].key == t[ib].key
    ensures i == ia || i == ib
  {
  }

  /** A column holding two values `a` and `b`, `a` the rarer, has the
      count-ascending table `(a, #a), (b, #b)` and no other. */
  lemma TwoKeyTableAscending<K(!new)>(t: seq<Group<K>>, keys: seq<K>, a: K, b: K)
    requires IsCountTable(t, keys)
    requires SortedBy(t, CountLe)
    requires forall i :: 0 <= i < |keys| ==> keys[i] == a || keys[i] == b
    requires 0 < multiset(keys)[a] < multiset(keys)[b]
    ensures t == [Group(a, multiset(keys)[a]), Group(b, multiset(keys)[b])]
  {
    forall i | 0 <= i < |t|
      ensures t[i].key == a || t[i].key == b
    {
      EntryKeyOccurs(t, keys, i);
    }
    CountOfPositive(t, a);
    CountOfPositive(t, b);
    var ia :| 0 <= ia < |t| && t[ia].key == a;
    var ib :| 0 <= ib < |t| && t[ib].key == b;
    CountOfEntry(t, ia);
    CountOfEntry(t, ib);
    assert ia != ib;
    var last := |t| - 1;
    OneOfTwoEntries(t, ia, ib, 0);
    OneOfTwoEntries(t, ia, ib, last - 1);
    OneOfTwoEntries(t, ia, ib, last);
    assert |t| == 2;
    assert CountLe(t[0], t[1]);
    assert ia == 0 && ib == 1;
  }

  /** `groupby(key).count()` followed by `sort_values` on the count column:
      the group-count table of `keys`, ordered by `le`. */
  function CountTable<K(==,!new)>(keys: seq<K>, le: (Group<K>, Group<K>) -> bool): (r: seq<Group<K>>)
    requires TotalPreorder(le)
    ensures IsCountTable(r, keys)
    ensures SortedBy(r, le)
    ensures Total(r) == |keys|
  {
    var u := Tally(keys);
    var r := Sort(u, le);
    PermutationKeepsCounts(u, r);
    r
  }

  /** Ascending by count: the order `sort_values(by=<count>)` produces. */
  function CountLe<K>(a: Group<K>, b: Group<K>): bool
  {
    a.count <= b.count
  }

  /** Descending by count: the order `value_counts()` produces. */
  function CountGe<K>(a: Group<K>, b: Group<K>): bool
  {
    a.count >= b.count
  }

  lemma CountOrdersArePreorders<K(!new)>()
    ensures TotalPreorder(CountLe<K>)
    ensures TotalPreorder(CountGe<K>)
  {
  }
}
