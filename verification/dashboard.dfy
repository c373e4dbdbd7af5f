/** One pass of the dashboard over the uploaded exports: the file name picks
    the task or the incident path, the sidebar selection filters the rows,
    and the path computes its tables and metrics from the selected rows. */
module Dashboard {
  import opened Wrappers
  import opened Sorting
  import opened Groups
  import opened Timestamps
  import opened Tickets
  import opened Selection
  import opened Tables
  import opened Metrics

  datatype Kind = TaskExport | IncidentExport

  /** The file name, compared exactly, picks the path; any other name picks
      none and the file is passed over without a message. */
  function Route(fileName: string): (k: Option<Kind>)
    ensures k == Some(TaskExport) <==> fileName == "sc_task.csv"
    ensures k == Some(IncidentExport) <==> fileName == "incident.csv"
    ensures k == None <==> fileName != "sc_task.csv" && fileName != "incident.csv"
  {
    if fileName == "sc_task.csv" then Some(TaskExport)
    else if fileName == "incident.csv" then Some(IncidentExport)
    else None
  }

  /** What the task page shows. */
  datatype TaskView = TaskView(
    selection: seq<Row>,
    agentTickets: seq<Group<string>>,   // value_counts, most tickets first
    byPriority: seq<Group<string>>,
    byDay: seq<Group<Date>>,
    byAgent: seq<Group<string>>,        // groupby agent, fewest tickets first
    totals: TaskTotals,
    from: string,
    to: string)

  /** What the incident page shows. */
  datatype IncidentView = IncidentView(
    selection: seq<Row>,
    byDay: seq<Group<Date>>,
    byState: seq<Group<string>>,
    byCategory: seq<Group<string>>,
    agentCategory: seq<Group<(string, string)>>,
    byPriority: seq<Group<string>>,
    agentPriority: seq<Group<(string, string)>>,
    from: string,
    to: string,
    totals: IncidentTotals)

  /** Why a page stops with an exception: `pd.to_datetime` cannot read a
      timestamp, or `min` is asked for the range of no rows. */
  datatype Problem = Unreadable(error: TimestampError) | EmptySelection

  datatype Outcome =
    | Skipped
    | Failed(problem: Problem)
    | ShowTasks(tasks: TaskView)
    | ShowIncidents(incidents: IncidentView)

  /** The per-day table of `sel`: one entry per calendar date of the rows,
      counting that date's rows, in strictly chronological order. */
  ghost predicate DayTableOf(t: seq<Group<Date>>, sel: seq<Row>)
  {
    && DaysOf(sel).Success?
    && IsCountTable(t, DaysOf(sel).value)
    && forall i, j :: 0 <= i < j < |t| ==> DateLe(t[i].key, t[j].key) && t[i].key != t[j].key
  }

  /** A count table of column `f` of `sel`, fewest rows first. */
  ghost predicate AscendingTableOf(t: seq<Group<string>>, sel: seq<Row>, f: Field)
  {
    IsCountTable(t, Column(sel, f)) && SortedBy(t, CountLe)
  }

  /** A count table of the (agent, `f`) pairs of `sel`, in ascending key order. */
  ghost predicate PairTableOf(t: seq<Group<(string, string)>>, sel: seq<Row>, f: Field)
  {
    && IsCountTable(t, PairColumn(sel, f))
    && forall i, j :: 0 <= i < j < |t| ==> PairLe(t[i].key, t[j].key) && t[i].key != t[j].key
  }

  /** Everything the task page shows, drawn from the selected rows `sel`. */
  ghost predicate TaskViewOf(v: TaskView, sel: seq<Row>)
  {
    && v.selection == sel
    && IsCountTable(v.agentTickets, Column(sel, AssignedTo)) && SortedBy(v.agentTickets, CountGe)
    && AscendingTableOf(v.byPriority, sel, Priority)
    && DayTableOf(v.byDay, sel)
    && AscendingTableOf(v.byAgent, sel, AssignedTo)
    && v.totals == TaskSummary(sel)
    && DateRange(sel) == Some((v.from, v.to))
  }

  /** Everything the incident page shows, drawn from the selected rows `sel`. */
  ghost predicate IncidentViewOf(v: IncidentView, sel: seq<Row>)
  {
    && v.selection == sel
    && DayTableOf(v.byDay, sel)
    && AscendingTableOf(v.byState, sel, State)
    && AscendingTableOf(v.byCategory, sel, Category)
    && PairTableOf(v.agentCategory, sel, Category)
    && AscendingTableOf(v.byPriority, sel, Priority)
    && PairTableOf(v.agentPriority, sel, Priority)
    && DateRange(sel) == Some((v.from, v.to))
    && v.totals == IncidentSummary(sel)
  }

  /** The `sc_task.csv` path. The per-day table (which reads the timestamps)
      comes before the From/To metrics (which need a row). */
  function TaskPage(rows: seq<Row>, agents: set<string>, dates: set<string>): (o: Outcome)
    ensures !o.Skipped? && !o.ShowIncidents?
    ensures o.ShowTasks? ==>
      && TaskViewOf(o.tasks, Filter(rows, agents, dates))
      && |o.tasks.selection| > 0
      && o.tasks.totals.total == |o.tasks.selection|
      && Total(o.tasks.agentTickets) == Total(o.tasks.byPriority) == Total(o.tasks.byDay)
         == Total(o.tasks.byAgent) == o.tasks.totals.total
    ensures o.Failed? && o.problem.EmptySelection? <==> Filter(rows, agents, dates) == []
    ensures o.Failed? && o.problem.Unreadable? <==> DaysOf(Filter(rows, agents, dates)).Failure?
    ensures o.Failed? && o.problem.Unreadable? ==> o.problem.error == DaysOf(Filter(rows, agents, dates)).error
  {
    var sel := Filter(rows, agents, dates);
    match DayCounts(sel)
    case Failure(e) => Failed(Unreadable(e))
    case Success(byDay) =>
      match DateRange(sel)
      case None => Failed(EmptySelection)
      case Some(range) =>
        ShowTasks(TaskView(sel, AgentTickets(sel), CountsBy(sel, Priority), byDay,
                           CountsBy(sel, AssignedTo), TaskSummary(sel), range.0, range.1))
  }

  /** The `incident.csv` path. */
  function IncidentPage(rows: seq<Row>, agents: set<string>, dates: set<string>): (o: Outcome)
    ensures !o.Skipped? && !o.ShowTasks?
    ensures o.ShowIncidents? ==>
      && IncidentViewOf(o.incidents, Filter(rows, agents, dates))
      && |o.incidents.selection| > 0
      && Total(o.incidents.byDay) == Total(o.incidents.byState) == Total(o.incidents.byCategory)
         == Total(o.incidents.agentCategory) == Total(o.incidents.byPriority)
         == Total(o.incidents.agentPriority) == |o.incidents.selection|
      && o.incidents.totals.tickets <= |o.incidents.selection|
    ensures o.Failed? && o.problem.EmptySelection? <==> Filter(rows, agents, dates) == []
    ensures o.Failed? && o.problem.Unreadable? <==> DaysOf(Filter(rows, agents, dates)).Failure?
    ensures o.Failed? && o.problem.Unreadable? ==> o.problem.error == DaysOf(Filter(rows, agents, dates)).error
  {
    var sel := Filter(rows, agents, dates);
    match DayCounts(sel)
    case Failure(e) => Failed(Unreadable(e))
    case Success(byDay) =>
      match DateRange(sel)
      case None => Failed(EmptySelection)
      case Some(range) =>
        ShowIncidents(IncidentView(sel, byDay, CountsBy(sel, State), CountsBy(sel, Category),
                                   PairCounts(sel, Category), CountsBy(sel, Priority),
                                   PairCounts(sel, Priority), range.0, range.1, IncidentSummary(sel)))
  }

  /** One uploaded export with the agents and dates chosen for it. */
  function Process(fileName: string, rows: seq<Row>, agents: set<string>, dates: set<string>): (o: Outcome)
    ensures o.Skipped? <==> fileName != "sc_task.csv" && fileName != "incident.csv"
    ensures fileName == "sc_task.csv" ==> o == TaskPage(rows, agents, dates)
    ensures fileName == "incident.csv" ==> o == IncidentPage(rows, agents, dates)
    ensures o.ShowTasks? ==> fileName == "sc_task.csv"
    ensures o.ShowIncidents? ==> fileName == "incident.csv"
  {
    match Route(fileName)
    case None => Skipped
    case Some(TaskExport) => TaskPage(rows, agents, dates)
    case Some(IncidentExport) => IncidentPage(rows, agents, dates)
  }

  datatype Upload = Upload(name: string, rows: seq<Row>, agents: set<string>, dates: set<string>)

  function Run(u: Upload): Outcome
  {
    Process(u.name, u.rows, u.agents, u.dates)
  }

  /** The outcomes up to and including the first failure. */
  function UpToFailure(outs: seq<Outcome>): (r: seq<Outcome>)
    ensures |r| <= |outs| && r == outs[..|r|]
    ensures forall i :: 0 <= i < |r| - 1 ==> !r[i].Failed?
    ensures |r| < |outs| ==> 0 < |r| && r[|r| - 1].Failed?
    decreases |outs|
  {
    if |outs| == 0 then []
    else if outs[0].Failed? then [outs[0]]
    else [outs[0]] + UpToFailure(outs[1..])
  }

  /** Outcomes that are not failures let the run continue into whatever
      comes after them. */
  lemma {:induction false} UpToFailureContinues(a: seq<Outcome>, b: seq<Outcome>)
    requires forall i :: 0 <= i < |a| ==> !a[i].Failed?
    ensures UpToFailure(a + b) == a + UpToFailure(b)
    decreases |a|
  {
    if |a| == 0 {
      assert a + b == b;
    } else {
      assert (a + b)[0] == a[0];
      assert (a + b)[1..] == a[1..] + b;
      UpToFailureContinues(a[1..], b);
      assert a == [a[0]] + a[1..];
    }
  }

  /** The loop over the uploaded files, in upload order. Nothing catches an
      exception, so a page that fails ends the run and the later files are
      never looked at. */
  function ProcessAll(uploads: seq<Upload>): (r: seq<Outcome>)
    ensures |r| <= |uploads|
    ensures forall i :: 0 <= i < |r| ==> r[i] == Run(uploads[i])
    ensures forall i :: 0 <= i < |r| - 1 ==> !r[i].Failed?
    ensures |r| < |uploads| ==> 0 < |r| && r[|r| - 1].Failed?
  {
    UpToFailure(seq(|uploads|, i requires 0 <= i < |uploads| => Run(uploads[i])))
  }

  /** The run stops at the first failing file: everything before it is
      shown or skipped, and the files after it get no outcome. */
  lemma StopsAtFirstFailure(uploads: seq<Upload>, k: nat)
    requires k < |uploads| && Run(uploads[k]).Failed?
    requires forall i :: 0 <= i < k ==> !Run(uploads[i]).Failed?
    ensures |ProcessAll(uploads)| == k + 1
  {
  }

  /** With the sidebar left at its defaults, a task export with at least one
      row and readable timestamps shows every one of its rows. */
  lemma DefaultTaskPageShowsEverything(rows: seq<Row>)
    requires |rows| > 0
    requires DaysOf(rows).Success?
    ensures var o := TaskPage(rows, Observed(rows, AssignedTo), Observed(rows, OpenedAt));
      o.ShowTasks? && o.tasks.selection == rows && o.tasks.totals.total == |rows|
  {
    DefaultSelectionKeepsAll(rows);
  }

  /** The same for an incident export. */
  lemma DefaultIncidentPageShowsEverything(rows: seq<Row>)
    requires |rows| > 0
    requires DaysOf(rows).Success?
    ensures var o := IncidentPage(rows, Observed(rows, AssignedTo), Observed(rows, OpenedAt));
      o.ShowIncidents? && o.incidents.selection == rows
  {
    DefaultSelectionKeepsAll(rows);
  }

  /** The date filter sees raw timestamps while the per-day table sees
      calendar dates: choosing only the 10:00 AM text keeps one of two rows
      that the per-day table counts together. */
  lemma FilterSplitsWhatDaysMerge(rows: seq<Row>, agents: set<string>)
    requires |rows| == 2
    requires rows[0].openedAt == "01/02/2024 10:00:00 AM"
    requires rows[1].openedAt == "01/02/2024 11:00:00 PM"
    requires rows[0].assignedTo in agents && rows[1].assignedTo in agents
    ensures Filter(rows, agents, {"01/02/2024 10:00:00 AM"}) == [rows[0]]
    ensures DayCounts(rows) == Success([Group(Date(2024, 1, 2), 2)])
  {
    SameDayOneBucket(rows);
    KeepsTheMorningRow(rows, agents);
  }

  lemma KeepsTheMorningRow(rows: seq<Row>, agents: set<string>)
    requires |rows| == 2
    requires rows[0].openedAt == "01/02/2024 10:00:00 AM"
    requires rows[1].openedAt == "01/02/2024 11:00:00 PM"
    requires rows[0].assignedTo in agents && rows[1].assignedTo in agents
    ensures Filter(rows, agents, {"01/02/2024 10:00:00 AM"}) == [rows[0]]
  {
    var dates := {"01/02/2024 10:00:00 AM"};
    assert rows[1].openedAt != "01/02/2024 10:00:00 AM" by {
      assert rows[1].openedAt[20] != "01/02/2024 10:00:00 AM"[20];
    }
    assert Selected(rows[0], agents, dates) && !Selected(rows[1], agents, dates);
    assert rows == [rows[0]] + [rows[1]];
    FilterConcat([rows[0]], [rows[1]], agents, dates);
  }
}
