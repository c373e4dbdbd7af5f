/** Ticket rows as read from a task (`sc_task.csv`) or incident
    (`incident.csv`) export. Every field is a non-null string; `opened_at`
    keeps its raw text. A task export has no `category` column and nothing on
    the task path reads that field. */
module Tickets {

  datatype Row = Row(
    number: string,
    assignedTo: string,
    openedAt: string,
    priority: string,
    state: string,
    category: string,
    assignmentGroup: string)

  /** The columns the dashboard filters and groups by. */
  datatype Field = AssignedTo | OpenedAt | Priority | State | Category | AssignmentGroup

  /** `row[field]`. */
  function Get(r: Row, f: Field): string
  {
    match f
    case AssignedTo => r.assignedTo
    case OpenedAt => r.openedAt
    case Priority => r.priority
    case State => r.state
    case Category => r.category
    case AssignmentGroup => r.assignmentGroup
  }

  /** `df[field]`: one column, row by row. */
  function Column(rows: seq<Row>, f: Field): (c: seq<string>)
    ensures |c| == |rows|
    ensures forall i :: 0 <= i < |rows| ==> c[i] == Get(rows[i], f)
  {
    seq(|rows|, i requires 0 <= i < |rows| => Get(rows[i], f))
  }

  /** `df[field].unique()`, as a set: every value the column holds. */
  function Observed(rows: seq<Row>, f: Field): (o: set<string>)
    ensures forall v :: v in o <==> v in Column(rows, f)
  {
    set i | 0 <= i < |rows| :: Get(rows[i], f)
  }
}
