/** The scalar metrics shown above the charts: the task totals, the incident
    state totals with their "Number of tickets" sum, and the From/To range
    of `opened_at`. */
module Metrics {
  import opened Wrappers
  import opened StringOrder
  import opened Groups
  import opened Tickets
  import opened Tables

  /** `(df_selection[f] == v).sum()`: rows whose field `f` equals `v`. */
  function CountWhere(rows: seq<Row>, f: Field, v: string): (n: nat)
    ensures n <= |rows|
    ensures n == 0 <==> forall i :: 0 <= i < |rows| ==> Get(rows[i], f) != v
    decreases |rows|
  {
    if |rows| == 0 then 0
    else
      var n := (if Get(rows[0], f) == v then 1 else 0) + CountWhere(rows[1..], f, v);
      assert (forall i :: 0 <= i < |rows| ==> Get(rows[i], f) != v)
         <==> Get(rows[0], f) != v && forall i :: 0 <= i < |rows[1..]| ==> Get(rows[1..][i], f) != v by {
        if forall i :: 0 <= i < |rows[1..]| ==> Get(rows[1..][i], f) != v {
          forall i | 0 < i < |rows|
            ensures Get(rows[i], f) != v
          {
            assert rows[i] == rows[1..][i - 1];
          }
        }
      }
      n
  }

  /** One step of the count: the first row, then the rest. */
  lemma CountWhereStep(rows: seq<Row>, f: Field, v: string)
    requires |rows| > 0
    ensures CountWhere(rows, f, v) == (if Get(rows[0], f) == v then 1 else 0) + CountWhere(rows[1..], f, v)
  {
  }

  /** The count agrees with the column's occurrences of `v`. */
  lemma {:induction false} CountWhereOccurrences(rows: seq<Row>, f: Field, v: string)
    ensures CountWhere(rows, f, v) == multiset(Column(rows, f))[v]
    decreases |rows|
  {
    if |rows| > 0 {
      var c, rest := Column(rows, f), Column(rows[1..], f);
      CountWhereOccurrences(rows[1..], f, v);
      assert c[1..] == rest;
      assert c == [c[0]] + c[1..];
      assert multiset(c) == multiset([c[0]]) + multiset(rest);
      CountWhereStep(rows, f, v);
    }
  }

  /** Rows with one value and rows with another are disjoint, so together
      they are at most all the rows. */
  lemma {:induction false} TwoValuesAtMostAll(rows: seq<Row>, f: Field, a: string, b: string)
    requires a != b
    ensures CountWhere(rows, f, a) + CountWhere(rows, f, b) <= |rows|
    decreases |rows|
  {
    if |rows| > 0 {
      TwoValuesAtMostAll(rows[1..], f, a, b);
    }
  }

  // ------------------------------------------------------------------ tasks

  datatype TaskTotals = TaskTotals(total: nat, closedComplete: nat, closedSkipped: nat)

  /** "Total Ticket", "Total Closed Completed Ticket" and "Total Closed
      Skipped Ticket". The total counts the non-null `priority` values, which
      is every selected row. */
  function TaskSummary(rows: seq<Row>): (m: TaskTotals)
    ensures m.total == |rows|
    ensures m.closedComplete == multiset(Column(rows, State))["Closed Complete"]
    ensures m.closedSkipped == multiset(Column(rows, State))["Closed Skipped"]
    ensures m.closedComplete + m.closedSkipped <= m.total
  {
    TwoValuesAtMostAll(rows, State, "Closed Complete", "Closed Skipped");
    CountWhereOccurrences(rows, State, "Closed Complete");
    CountWhereOccurrences(rows, State, "Closed Skipped");
    TaskTotals(|rows|, CountWhere(rows, State, "Closed Complete"), CountWhere(rows, State, "Closed Skipped"))
  }

  // -------------------------------------------------------------- incidents

  /** The four incident states the "Number of tickets" metric adds up. */
  const RecognizedStates: set<string> := {"On Hold", "In Progress", "Resolved", "Closed"}

  /** Selected rows whose state is one of the four recognized states. */
  function CountRecognized(rows: seq<Row>): nat
    decreases |rows|
  {
    if |rows| == 0 then 0
    else (if rows[0].state in RecognizedStates then 1 else 0) + CountRecognized(rows[1..])
  }

  /** The four per-state counts add up to the rows in a recognized state. */
  lemma {:induction false} FourStatesAddUp(rows: seq<Row>)
    ensures CountWhere(rows, State, "On Hold") + CountWhere(rows, State, "In Progress")
          + CountWhere(rows, State, "Resolved") + CountWhere(rows, State, "Closed")
         == CountRecognized(rows)
    decreases |rows|
  {
    if |rows| > 0 {
      var s, rest := rows[0].state, rows[1..];
      FourStatesAddUp(rest);
      CountWhereStep(rows, State, "On Hold");
      CountWhereStep(rows, State, "In Progress");
      CountWhereStep(rows, State, "Resolved");
      CountWhereStep(rows, State, "Closed");
      assert CountRecognized(rows) == (if s in RecognizedStates then 1 else 0) + CountRecognized(rest);
      RecognizedIsOneOfFour(s);
    }
  }

  /** A state is recognized when it is exactly one of the four names, which
      are pairwise different (they differ in length). */
  lemma RecognizedIsOneOfFour(s: string)
    ensures (if s in RecognizedStates then 1 else 0)
         == (if s == "On Hold" then 1 else 0) + (if s == "In Progress" then 1 else 0)
          + (if s == "Resolved" then 1 else 0) + (if s == "Closed" then 1 else 0)
  {
    assert |"On Hold"| == 7 && |"In Progress"| == 11 && |"Resolved"| == 8 && |"Closed"| == 6;
  }

  /** At most every row is in a recognized state, and all rows are exactly
      when no row has any other state. */
  lemma {:induction false} RecognizedAtMostAll(rows: seq<Row>)
    ensures CountRecognized(rows) <= |rows|
    ensures CountRecognized(rows) == |rows| <==> forall i :: 0 <= i < |rows| ==> rows[i].state in RecognizedStates
    decreases |rows|
  {
    if |rows| > 0 {
      RecognizedAtMostAll(rows[1..]);
      if forall i :: 0 <= i < |rows| ==> rows[i].state in RecognizedStates {
        assert forall i :: 0 <= i < |rows[1..]| ==> rows[1..][i].state == rows[i + 1].state;
      }
      if forall i :: 0 <= i < |rows[1..]| ==> rows[1..][i].state in RecognizedStates {
        if rows[0].state in RecognizedStates {
          forall i | 0 <= i < |rows|
            ensures rows[i].state in RecognizedStates
          {
            if i > 0 {
              assert rows[i] == rows[1..][i - 1];
            }
          }
        }
      }
    }
  }

  datatype IncidentTotals = IncidentTotals(tickets: nat, onHold: nat, inProgress: nat, resolved: nat, closed: nat)

  /** `state_counts.at[s, 'assigned_to']` when `s` appears in the state
      table, and 0 when it does not. */
  function StateTotal(stateTable: seq<Group<string>>, s: string): (n: nat)
    ensures (forall i :: 0 <= i < |stateTable| ==> stateTable[i].key != s) ==> n == 0
    ensures DistinctKeys(stateTable) ==>
      forall i :: 0 <= i < |stateTable| && stateTable[i].key == s ==> n == stateTable[i].count
  {
    assert (forall i :: 0 <= i < |stateTable| ==> stateTable[i].key != s) ==> CountOf(stateTable, s) == 0 by {
      if forall i :: 0 <= i < |stateTable| ==> stateTable[i].key != s {
        CountOfAbsent(stateTable, s);
      }
    }
    assert DistinctKeys(stateTable) ==>
      forall i :: 0 <= i < |stateTable| && stateTable[i].key == s ==> CountOf(stateTable, s) == stateTable[i].count by {
      forall i | DistinctKeys(stateTable) && 0 <= i < |stateTable| && stateTable[i].key == s
        ensures CountOf(stateTable, s) == stateTable[i].count
      {
        CountOfEntry(stateTable, i);
      }
    }
    CountOf(stateTable, s)
  }

  /** The incident state metrics: each of the four looked up in the state
      table with 0 for a state no selected row has, and "Number of tickets"
      as their sum — not the number of selected rows. */
  function IncidentSummary(rows: seq<Row>): (m: IncidentTotals)
    ensures m.onHold == CountWhere(rows, State, "On Hold")
    ensures m.inProgress == CountWhere(rows, State, "In Progress")
    ensures m.resolved == CountWhere(rows, State, "Resolved")
    ensures m.closed == CountWhere(rows, State, "Closed")
    ensures m.tickets == m.onHold + m.inProgress + m.resolved + m.closed
    ensures m.tickets <= |rows|
    ensures m.tickets == |rows| <==> forall i :: 0 <= i < |rows| ==> rows[i].state in RecognizedStates
  {
    var table := CountsBy(rows, State);
    CountWhereOccurrences(rows, State, "On Hold");
    CountWhereOccurrences(rows, State, "In Progress");
    CountWhereOccurrences(rows, State, "Resolved");
    CountWhereOccurrences(rows, State, "Closed");
    var onHold := StateTotal(table, "On Hold");
    var inProgress := StateTotal(table, "In Progress");
    var resolved := StateTotal(table, "Resolved");
    var closed := StateTotal(table, "Closed");
    FourStatesAddUp(rows);
    RecognizedAtMostAll(rows);
    IncidentTotals(onHold + inProgress + resolved + closed, onHold, inProgress, resolved, closed)
  }

  /** A state no selected row has gets no line in the state table at all —
      not a line with count 0 — and its metric reads 0. */
  lemma AbsentStateHasNoLine(rows: seq<Row>, s: string)
    requires forall i :: 0 <= i < |rows| ==> rows[i].state != s
    ensures forall i :: 0 <= i < |CountsBy(rows, State)| ==> CountsBy(rows, State)[i].key != s
    ensures StateTotal(CountsBy(rows, State), s) == 0
  {
    var table := CountsBy(rows, State);
    assert s !in Column(rows, State);
    CountOfPositive(table, s);
  }

  // ------------------------------------------------------------- date range

  /** `min(xs)`: Python scans left to right and keeps a later value only
      when it is strictly smaller. */
  function MinText(xs: seq<string>): (m: string)
    requires |xs| > 0
    ensures m in xs
    ensures forall i :: 0 <= i < |xs| ==> StrLe(m, xs[i])
    decreases |xs|
  {
    if |xs| == 1 then
      StrLeReflexive(xs[0]);
      xs[0]
    else
      var init := xs[..|xs| - 1];
      var last := xs[|xs| - 1];
      var m := MinText(init);
      assert xs == init + [last];
      StrLeTotal(m, last);
      StrLeReflexive(last);
      if StrLt(last, m) then
        assert forall i :: 0 <= i < |init| ==> StrLe(last, init[i]) by {
          forall i | 0 <= i < |init|
            ensures StrLe(last, init[i])
          {
            StrLeTransitive(last, m, init[i]);
          }
        }
        last
      else
        m
  }

  /** `max(xs)`: keeps a later value only when it is strictly larger. */
  function MaxText(xs: seq<string>): (m: string)
    requires |xs| > 0
    ensures m in xs
    ensures forall i :: 0 <= i < |xs| ==> StrLe(xs[i], m)
    decreases |xs|
  {
    if |xs| == 1 then
      StrLeReflexive(xs[0]);
      xs[0]
    else
      var init := xs[..|xs| - 1];
      var last := xs[|xs| - 1];
      var m := MaxText(init);
      assert xs == init + [last];
      StrLeTotal(m, last);
      StrLeReflexive(last);
      if StrLt(m, last) then
        assert forall i :: 0 <= i < |init| ==> StrLe(init[i], last) by {
          forall i | 0 <= i < |init|
            ensures StrLe(init[i], last)
          {
            StrLeTransitive(init[i], m, last);
          }
        }
        last
      else
        m
  }

  /** The From/To pair: `min` and `max` of the raw `opened_at` texts. On no
      rows Python's `min` raises, so there is no range. */
  function DateRange(rows: seq<Row>): (r: Option<(string, string)>)
    ensures r.None? <==> |rows| == 0
    ensures r.Some? ==>
      && (exists i :: 0 <= i < |rows| && rows[i].openedAt == r.value.0)
      && (exists i :: 0 <= i < |rows| && rows[i].openedAt == r.value.1)
      && forall i :: 0 <= i < |rows| ==> StrLe(r.value.0, rows[i].openedAt) && StrLe(rows[i].openedAt, r.value.1)
  {
    if |rows| == 0 then None
    else
      var texts := Column(rows, OpenedAt);
      var first, last := MinText(texts), MaxText(texts);
      assert exists i :: 0 <= i < |rows| && rows[i].openedAt == first by {
        var i :| 0 <= i < |texts| && texts[i] == first;
        assert Get(rows[i], OpenedAt) == first;
      }
      assert exists i :: 0 <= i < |rows| && rows[i].openedAt == last by {
        var i :| 0 <= i < |texts| && texts[i] == last;
        assert Get(rows[i], OpenedAt) == last;
      }
      Some((first, last))
  }

  /** When every row has the same `opened_at`, From and To are that value. */
  lemma RangeOfOneValue(rows: seq<Row>, d: string)
    requires |rows| > 0
    requires forall i :: 0 <= i < |rows| ==> rows[i].openedAt == d
    ensures DateRange(rows) == Some((d, d))
  {
  }

  /** The range compares text, not time: a ticket of 31 December 2023 and one
      of 1 January 2024 give From = the 2024 text and To = the 2023 text. */
  lemma RangeIsTextual(rows: seq<Row>)
    requires |rows| == 2
    requires rows[0].openedAt == "12/31/2023 09:00:00 AM"
    requires rows[1].openedAt == "01/01/2024 09:00:00 AM"
    ensures DateRange(rows) == Some(("01/01/2024 09:00:00 AM", "12/31/2023 09:00:00 AM"))
  {
    var late, early := rows[0].openedAt, rows[1].openedAt;
    assert StrLe(early, late) && !StrLe(late, early);
  }
}
