/** The task record as the `tasks` table stores it. */
module TaskEntity {
  import opened Common

  /** The workflow states of a task. */
  datatype TaskStatus = Pending | InProgress | Completed

  /** The status a task gets when it is created without one (the column default). */
  const DefaultStatus: TaskStatus := Pending

  /** The string each status is stored and transmitted as. */
  function StatusName(s: TaskStatus): string {
    match s
    case Pending => "PENDING"
    case InProgress => "IN_PROGRESS"
    case Completed => "COMPLETED"
  }

  /** The status whose stored string is `name`, if there is one. */
  function ParseStatus(name: string): (r: Option<TaskStatus>)
    ensures r.Some? <==> name == "PENDING" || name == "IN_PROGRESS" || name == "COMPLETED"
    ensures r.Some? ==> StatusName(r.value) == name
  {
    if name == "PENDING" then Some(Pending)
    else if name == "IN_PROGRESS" then Some(InProgress)
    else if name == "COMPLETED" then Some(Completed)
    else None
  }

  /** Parsing inverts naming: each of the three statuses has its own string. */
  lemma StatusNameRoundTrip(s: TaskStatus)
    ensures ParseStatus(StatusName(s)) == Some(s)
  {
  }

  /**
   * A stored task. `description` is nullable; `createdAt` is the instant the
   * record was first saved; `userId` names the owning user.
   */
  datatype Task = Task(
    id: Uuid,
    title: string,
    description: Option<string>,
    status: TaskStatus,
    createdAt: int,
    userId: Uuid)
}
