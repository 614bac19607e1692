/** The task record the store slices hold and the list views display. */
module Tasks {

  /** A status as read from the wire. The views compare it against the
      three names `pending`, `in-progress` and `completed`; any other text
      the server sends is kept as `Other`. */
  datatype RawStatus = Pending | InProgress | Completed | Other(name: string)

  /** `Other` never spells one of the three named statuses. */
  predicate WellFormedStatus(s: RawStatus) {
    s.Other? ==> s.name !in {"pending", "in-progress", "completed"}
  }

  /** A task's status: one spelling per status, so that comparing statuses
      is comparing their wire names. */
  type Status = s: RawStatus | WellFormedStatus(s) witness Pending

  /** The wire name of a status. */
  function StatusName(s: Status): string {
    match s
    case Pending => "pending"
    case InProgress => "in-progress"
    case Completed => "completed"
    case Other(n) => n
  }

  /** Reads a status from its wire name. */
  function ParseStatus(name: string): (s: Status)
    ensures s.Other? <==> name !in {"pending", "in-progress", "completed"}
    ensures StatusName(s) == name
  {
    if name == "pending" then Pending
    else if name == "in-progress" then InProgress
    else if name == "completed" then Completed
    else Other(name)
  }

  /** Reading back a written status gives the same status. */
  lemma ParseName(s: Status)
    ensures ParseStatus(StatusName(s)) == s
  {
  }

  /** Two statuses are equal exactly when their wire names are, so the
      views' `task.status === filter` on strings is equality of statuses. */
  lemma NameInjective(a: Status, b: Status)
    ensures a == b <==> StatusName(a) == StatusName(b)
  {
    ParseName(a);
    ParseName(b);
  }

  /** The task record; the due date and timestamps are opaque strings. */
  datatype Task = Task(
    id: string,
    title: string,
    description: string,
    dueDate: string,
    status: Status,
    priority: string,
    userId: string,
    createdAt: string,
    updatedAt: string)
}
