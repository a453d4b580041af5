/**
 * The task record (`TaskItemType`) and its closed value domains.
 * Dates are the milliseconds `Date.prototype.getTime` returns.
 */
module Tasks {

  /** `StatusType`. */
  datatype Status = InProgress | NotStarted | Done

  /** The string a status compares as. */
  function StatusName(s: Status): string {
    match s
    case InProgress => "inProgress"
    case NotStarted => "notStarted"
    case Done => "done"
  }

  /** The `priority` member's union of literals. */
  datatype Priority = Low | Medium | High

  /** The string a priority compares as. */
  function PriorityName(p: Priority): string {
    match p
    case Low => "low"
    case Medium => "medium"
    case High => "high"
  }

  /** `taskId: string | number`. */
  datatype TaskId = TextId(text: string) | NumberId(number: int)

  datatype Task = Task(
    taskId: TaskId,
    title: string,
    description: string,
    dueDate: int,
    createdAt: int,
    priority: Priority,
    status: Status,
    category: string)

  /** The string view of a status loses nothing: distinct statuses compare unequal. */
  lemma StatusNameInjective(a: Status, b: Status)
    ensures StatusName(a) == StatusName(b) <==> a == b
  {
    if a != b {
      assert StatusName(a)[0] != StatusName(b)[0] || |StatusName(a)| != |StatusName(b)|;
    }
  }

  /** Likewise for priorities. */
  lemma PriorityNameInjective(a: Priority, b: Priority)
    ensures PriorityName(a) == PriorityName(b) <==> a == b
  {
    if a != b {
      assert PriorityName(a)[0] != PriorityName(b)[0];
    }
  }
}
