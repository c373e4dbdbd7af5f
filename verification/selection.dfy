/** The sidebar filter: `df.query("assigned_to==@person & opened_at==@date")`
    with `person` and `date` the lists chosen in the two multiselects. A list
    on the right of `==` in a query means membership. The date list holds raw
    `opened_at` texts, so two timestamps of one day are two separate choices. */
module Selection {
  import opened Tickets

  /** The row's agent and its raw `opened_at` text are both allowed. */
  predicate Selected(r: Row, agents: set<string>, dates: set<string>)
  {
    r.assignedTo in agents && r.openedAt in dates
  }

  /** The selected rows, in their original order. */
  function Filter(rows: seq<Row>, agents: set<string>, dates: set<string>): (r: seq<Row>)
    ensures forall x :: x in r <==> x in rows && Selected(x, agents, dates)
    ensures |r| <= |rows|
    decreases |rows|
  {
    if |rows| == 0 then []
    else
      assert rows == [rows[0]] + rows[1..];
      (if Selected(rows[0], agents, dates) then [rows[0]] else []) + Filter(rows[1..], agents, dates)
  }

  /** A kept row is kept as many times as it occurs; a dropped row not at all. */
  lemma {:induction false} FilterMultiplicity(rows: seq<Row>, agents: set<string>, dates: set<string>, x: Row)
    ensures multiset(Filter(rows, agents, dates))[x] ==
      if Selected(x, agents, dates) then multiset(rows)[x] else 0
    decreases |rows|
  {
    if |rows| > 0 {
      var head := if Selected(rows[0], agents, dates) then [rows[0]] else [];
      FilterMultiplicity(rows[1..], agents, dates, x);
      assert rows == [rows[0]] + rows[1..];
      assert multiset(rows) == multiset([rows[0]]) + multiset(rows[1..]);
      assert Filter(rows, agents, dates) == head + Filter(rows[1..], agents, dates);
      assert multiset(Filter(rows, agents, dates)) == multiset(head) + multiset(Filter(rows[1..], agents, dates));
    }
  }

  /** Filtering works piecewise: the rows kept from `a + b` are those kept
      from `a` followed by those kept from `b`. */
  lemma {:induction false} FilterConcat(a: seq<Row>, b: seq<Row>, agents: set<string>, dates: set<string>)
    ensures Filter(a + b, agents, dates) == Filter(a, agents, dates) + Filter(b, agents, dates)
    decreases |a|
  {
    if |a| == 0 {
      assert a + b == b;
    } else {
      assert (a + b)[0] == a[0];
      assert (a + b)[1..] == a[1..] + b;
      FilterConcat(a[1..], b, agents, dates);
    }
  }

  /** A kept row lands at the position given by the number of kept rows
      before it, so the filter preserves the input order. */
  lemma FilterPosition(rows: seq<Row>, agents: set<string>, dates: set<string>, i: nat)
    requires i < |rows|
    requires Selected(rows[i], agents, dates)
    ensures |Filter(rows[..i], agents, dates)| < |Filter(rows, agents, dates)|
    ensures Filter(rows, agents, dates)[|Filter(rows[..i], agents, dates)|] == rows[i]
  {
    assert rows == rows[..i] + rows[i..];
    FilterConcat(rows[..i], rows[i..], agents, dates);
    assert rows[i..][0] == rows[i];
  }

  /** The selected rows keep the relative order they had in the input. */
  lemma FilterKeepsOrder(rows: seq<Row>, agents: set<string>, dates: set<string>, i: nat, j: nat)
    requires i < j < |rows|
    requires Selected(rows[i], agents, dates) && Selected(rows[j], agents, dates)
    ensures |Filter(rows[..i], agents, dates)| < |Filter(rows[..j], agents, dates)|
  {
    var prefix := rows[..j];
    assert prefix[i] == rows[i];
    FilterPosition(prefix, agents, dates, i);
    assert prefix[..i] == rows[..i];
  }

  /** With both multiselects left at their defaults — every observed agent
      and every observed `opened_at` — nothing is filtered out. */
  lemma {:induction false} DefaultSelectionKeepsAll(rows: seq<Row>)
    ensures Filter(rows, Observed(rows, AssignedTo), Observed(rows, OpenedAt)) == rows
  {
    var agents, dates := Observed(rows, AssignedTo), Observed(rows, OpenedAt);
    assert forall i :: 0 <= i < |rows| ==> Selected(rows[i], agents, dates) by {
      forall i | 0 <= i < |rows|
        ensures Selected(rows[i], agents, dates)
      {
        assert Get(rows[i], AssignedTo) in agents;
        assert Get(rows[i], OpenedAt) in dates;
      }
    }
    KeepsAllSelected(rows, agents, dates);
  }

  lemma {:induction false} KeepsAllSelected(rows: seq<Row>, agents: set<string>, dates: set<string>)
    requires forall i :: 0 <= i < |rows| ==> Selected(rows[i], agents, dates)
    ensures Filter(rows, agents, dates) == rows
    decreases |rows|
  {
    if |rows| > 0 {
      KeepsAllSelected(rows[1..], agents, dates);
      assert rows == [rows[0]] + rows[1..];
    }
  }

  /** Clearing either multiselect empties the selection. */
  lemma EmptyAllowSetSelectsNothing(rows: seq<Row>, agents: set<string>, dates: set<string>)
    requires agents == {} || dates == {}
    ensures Filter(rows, agents, dates) == []
  {
  }
}
