/** The grouped tables the dashboard draws: tickets per agent, per priority,
    per state, per category, per calendar day, and per (agent, category) and
    (agent, priority) pair. Every table here is computed from the already
    filtered rows. */
module Tables {
  import opened Wrappers
  import opened Sorting
  import opened Groups
  import opened StringOrder
  import opened Timestamps
  import opened Tickets

  // ------------------------------------------------------- single-key tables

  /** `df_selection['assigned_to'].value_counts()`: tickets per agent, most
      loaded agent first. */
  function AgentTickets(rows: seq<Row>): (t: seq<Group<string>>)
    ensures IsCountTable(t, Column(rows, AssignedTo))
    ensures SortedBy(t, CountGe)
    ensures Total(t) == |rows|
  {
    CountOrdersArePreorders<string>();
    CountTable(Column(rows, AssignedTo), CountGe)
  }

  /** `df_selection.groupby(by=[f]).count()[[c]].sort_values(by=c)`: tickets
      per value of `f`, smallest group first. The counted column `c` is never
      null, so each count is the group's size. */
  function CountsBy(rows: seq<Row>, f: Field): (t: seq<Group<string>>)
    ensures IsCountTable(t, Column(rows, f))
    ensures SortedBy(t, CountLe)
    ensures Total(t) == |rows|
  {
    CountOrdersArePreorders<string>();
    CountTable(Column(rows, f), CountLe)
  }

  // ----------------------------------------------------------- per-day table

  /** `pd.to_datetime` could not read the `opened_at` text of a row. */
  datatype TimestampError = UnreadableTimestamp(row: nat, text: string)

  /** `pd.to_datetime(df_selection['opened_at']).dt.date`: the calendar date
      of every row, or the first row whose timestamp cannot be read. */
  function DaysOf(rows: seq<Row>): (r: Result<seq<Date>, TimestampError>)
    ensures r.Success? ==>
      && |r.value| == |rows|
      && forall i :: 0 <= i < |rows| ==> DateOf(rows[i].openedAt) == Some(r.value[i])
    ensures r.Failure? ==>
      && r.error.row < |rows|
      && DateOf(rows[r.error.row].openedAt) == None
      && r.error.text == rows[r.error.row].openedAt
      && forall i :: 0 <= i < r.error.row ==> DateOf(rows[i].openedAt).Some?
    decreases |rows|
  {
    if |rows| == 0 then Success([])
    else
      match DateOf(rows[0].openedAt)
      case None => Failure(UnreadableTimestamp(0, rows[0].openedAt))
      case Some(d) =>
        match DaysOf(rows[1..])
        case Failure(e) => Failure(UnreadableTimestamp(e.row + 1, e.text))
        case Success(ds) => Success([d] + ds)
  }

  /** When every timestamp can be read, the dates are those of the rows. */
  lemma {:induction false} DaysOfReadable(rows: seq<Row>, days: seq<Date>)
    requires |days| == |rows|
    requires forall i :: 0 <= i < |rows| ==> DateOf(rows[i].openedAt) == Some(days[i])
    ensures DaysOf(rows) == Success(days)
    decreases |rows|
  {
    if |rows| > 0 {
      assert DateOf(rows[0].openedAt) == Some(days[0]);
      DaysOfReadable(rows[1..], days[1..]);
      assert days == [days[0]] + days[1..];
    }
  }

  /** Chronological order on the `Day` column. */
  function DayKeyLe(a: Group<Date>, b: Group<Date>): bool
  {
    DateLe(a.key, b.key)
  }

  lemma DayKeyLeIsPreorder()
    ensures TotalPreorder(DayKeyLe)
  {
  }

  /** The `Day`/`Number` table: rows grouped by the calendar date of
      `opened_at`, one entry per date, in chronological order. The sort by
      count that precedes the final `sort_values(by=['Day'])` does not show in
      the result, since the days are distinct. */
  function DayCounts(rows: seq<Row>): (r: Result<seq<Group<Date>>, TimestampError>)
    ensures r.Success? <==> DaysOf(rows).Success?
    ensures r.Failure? ==> r.error == DaysOf(rows).error
    ensures r.Success? ==>
      && IsCountTable(r.value, DaysOf(rows).value)
      && Total(r.value) == |rows|
      && forall i, j :: 0 <= i < j < |r.value| ==>
           DateLe(r.value[i].key, r.value[j].key) && r.value[i].key != r.value[j].key
  {
    match DaysOf(rows)
    case Failure(e) => Failure(e)
    case Success(days) =>
      DayKeyLeIsPreorder();
      Success(CountTable(days, DayKeyLe))
  }

  // --------------------------------------------------------- two-key tables

  /** The key column of `groupby(['assigned_to', f])`. */
  function PairColumn(rows: seq<Row>, f: Field): (c: seq<(string, string)>)
    ensures |c| == |rows|
    ensures forall i :: 0 <= i < |rows| ==> c[i] == (rows[i].assignedTo, Get(rows[i], f))
  {
    seq(|rows|, i requires 0 <= i < |rows| => (rows[i].assignedTo, Get(rows[i], f)))
  }

  /** The order `groupby` gives its (agent, other) keys: by agent, then by
      the other field, comparing strings as Python does. */
  predicate PairLe(a: (string, string), b: (string, string))
  {
    StrLt(a.0, b.0) || (a.0 == b.0 && StrLe(a.1, b.1))
  }

  function PairKeyLe(a: Group<(string, string)>, b: Group<(string, string)>): bool
  {
    PairLe(a.key, b.key)
  }

  lemma PairKeyLeIsPreorder()
    ensures TotalPreorder(PairKeyLe)
  {
    forall a: Group<(string, string)>, b: Group<(string, string)>
      ensures PairKeyLe(a, b) || PairKeyLe(b, a)
    {
      StrLeTotal(a.key.0, b.key.0);
      StrLeTotal(a.key.1, b.key.1);
    }
    forall a: Group<(string, string)>, b: Group<(string, string)>, c: Group<(string, string)>
      | PairKeyLe(a, b) && PairKeyLe(b, c)
      ensures PairKeyLe(a, c)
    {
      var x, y, z := a.key, b.key, c.key;
      if x.0 == y.0 && y.0 == z.0 {
        StrLeTransitive(x.1, y.1, z.1);
      } else if x.0 != y.0 && y.0 != z.0 {
        StrLeTransitive(x.0, y.0, z.0);
        if x.0 == z.0 {
          StrLeAntisymmetric(x.0, y.0);
        }
      }
    }
  }

  /** Two pairs each at most the other are the same pair. */
  lemma PairLeAntisymmetric(a: (string, string), b: (string, string))
    requires PairLe(a, b) && PairLe(b, a)
    ensures a == b
  {
    if a.0 == b.0 {
      StrLeAntisymmetric(a.1, b.1);
    } else {
      StrLeAntisymmetric(a.0, b.0);
    }
  }

  /** `df_selection.groupby(['assigned_to', f]).agg(n=(f, 'count'))`: one
      entry per (agent, value) pair that occurs, with its number of rows, in
      ascending key order; there is no `sort_values` on these tables. */
  function PairCounts(rows: seq<Row>, f: Field): (t: seq<Group<(string, string)>>)
    ensures IsCountTable(t, PairColumn(rows, f))
    ensures Total(t) == |rows|
    ensures forall i, j :: 0 <= i < j < |t| ==> PairLe(t[i].key, t[j].key) && t[i].key != t[j].key
  {
    PairKeyLeIsPreorder();
    CountTable(PairColumn(rows, f), PairKeyLe)
  }

  // -------------------------------------------------------- worked examples

  /** Agents `A, A, B`: the per-agent count table is `B: 1, A: 2` — the
      counts differ, so the ascending sort leaves no choice of order. */
  lemma AgentCountsExample(rows: seq<Row>)
    requires |rows| == 3
    requires rows[0].assignedTo == "A" && rows[1].assignedTo == "A" && rows[2].assignedTo == "B"
    ensures CountsBy(rows, AssignedTo) == [Group("B", 1), Group("A", 2)]
  {
    var keys := Column(rows, AssignedTo);
    assert keys == ["A", "A", "B"];
    assert multiset(keys) == multiset{"A", "A", "B"};
    assert multiset(keys)["A"] == 2 && multiset(keys)["B"] == 1;
    TwoKeyTableAscending(CountsBy(rows, AssignedTo), keys, "B", "A");
  }

  /** Two rows opened on 2 January 2024, one at 10:00 AM and one at
      11:00 PM: the per-day table has the single entry (2024-01-02, 2). */
  lemma SameDayOneBucket(rows: seq<Row>)
    requires |rows| == 2
    requires rows[0].openedAt == "01/02/2024 10:00:00 AM"
    requires rows[1].openedAt == "01/02/2024 11:00:00 PM"
    ensures DayCounts(rows) == Success([Group(Date(2024, 1, 2), 2)])
  {
    SecondOfJanuaryRows(rows);
    OneDayOneBucket(rows, Date(2024, 1, 2));
  }

  lemma SecondOfJanuaryRows(rows: seq<Row>)
    requires |rows| == 2
    requires rows[0].openedAt == "01/02/2024 10:00:00 AM"
    requires rows[1].openedAt == "01/02/2024 11:00:00 PM"
    ensures forall i :: 0 <= i < |rows| ==> DateOf(rows[i].openedAt) == Some(Date(2024, 1, 2))
  {
    forall i | 0 <= i < |rows|
      ensures DateOf(rows[i].openedAt) == Some(Date(2024, 1, 2))
    {
      ReadsSecondOfJanuary(rows[i].openedAt);
    }
  }

  /** Rows all opened on one calendar date, whatever their times of day,
      form a single bucket holding every row. */
  lemma OneDayOneBucket(rows: seq<Row>, day: Date)
    requires |rows| > 0
    requires forall i :: 0 <= i < |rows| ==> DateOf(rows[i].openedAt) == Some(day)
    ensures DayCounts(rows) == Success([Group(day, |rows|)])
  {
    var days := seq(|rows|, i => day);
    DaysOfReadable(rows, days);
    SingleKeyTable(DayCounts(rows).value, days, day);
  }

  /** The reader turns both example texts into the date 2024-01-02. */
  lemma ReadsSecondOfJanuary(ts: string)
    requires ts == "01/02/2024 10:00:00 AM" || ts == "01/02/2024 11:00:00 PM"
    ensures DateOf(ts) == Some(Date(2024, 1, 2))
  {
    if ts == "01/02/2024 10:00:00 AM" {
      MorningFields(ts);
    } else {
      EveningFields(ts);
    }
    assert Value2("01") == 1 && Value2("02") == 2 && Value4("2024") == 2024 && Value2("00") == 0;
    assert Value2("10") == 10 && Value2("11") == 11;
    ReadsFields(ts, Date(2024, 1, 2), Value2(ts[11..13]));
  }

  lemma MorningFields(ts: string)
    requires ts == "01/02/2024 10:00:00 AM"
    ensures Shaped(ts)
    ensures ts[0..2] == "01" && ts[3..5] == "02" && ts[6..10] == "2024"
    ensures ts[11..13] == "10" && ts[14..16] == "00" && ts[17..19] == "00"
  {
    assert ts[11] == '1' && ts[12] == '0' && ts[20] == 'A';
  }

  lemma EveningFields(ts: string)
    requires ts == "01/02/2024 11:00:00 PM"
    ensures Shaped(ts)
    ensures ts[0..2] == "01" && ts[3..5] == "02" && ts[6..10] == "2024"
    ensures ts[11..13] == "11" && ts[14..16] == "00" && ts[17..19] == "00"
  {
    assert ts[11] == '1' && ts[12] == '1' && ts[20] == 'P';
  }

  /** A shaped text whose fields read as a real date and a 12-hour clock
      time reads as that date. */
  lemma ReadsFields(ts: string, d: Date, hour: nat)
    requires Shaped(ts) && ValidDate(d)
    requires Value2(ts[0..2]) == d.month && Value2(ts[3..5]) == d.day && Value4(ts[6..10]) == d.year
    requires Value2(ts[11..13]) == hour && 1 <= hour <= 12
    requires Value2(ts[14..16]) < 60 && Value2(ts[17..19]) < 60
    ensures DateOf(ts) == Some(d)
  {
  }
}
