/** The per-task view of client/src/components/TaskItem.jsx: the overdue rule, the
    colour class of a priority and the suffix of the due-date label. */
module TaskItem {
  import opened Values
  import opened TaskModel

  /** A task is overdue when it has a due date, is not completed, and the due date lies
      strictly before `now`. */
  predicate IsOverdue(t: Task, now: int) {
    t.dueDate.Some? && !t.completed && t.dueDate.value < now
  }

  /** The three cases the rule excludes. */
  lemma OverdueExclusions(t: Task, now: int)
    ensures t.completed ==> !IsOverdue(t, now)
    ensures t.dueDate.None? ==> !IsOverdue(t, now)
    ensures t.dueDate == Some(now) ==> !IsOverdue(t, now)
  {
  }

  /** The CSS class of a priority; any value outside the enum is shown as "low". */
  function PriorityColor(priority: string): (c: string)
    ensures c == "high" <==> priority == "High"
    ensures c == "medium" <==> priority == "Medium"
    ensures c == "low" <==> priority != "High" && priority != "Medium"
  {
    if priority == "High" then "high"
    else if priority == "Medium" then "medium"
    else "low"
  }

  /** Every stored priority gets the colour of its own name. */
  lemma StoredPriorityColor(p: Priority)
    ensures PriorityColor(PriorityName(p)) == LowerName(p)
  {
  }

  function LowerName(p: Priority): string {
    match p
    case Low => "low"
    case Medium => "medium"
    case High => "high"
  }

  /** The suffix after the formatted due date: no date label at all without a due date,
      " (Overdue)" for an overdue task, nothing otherwise. */
  function DueDateSuffix(t: Task, now: int): (s: Option<string>)
    ensures s.None? <==> t.dueDate.None?
    ensures s == Some(" (Overdue)") <==> t.dueDate.Some? && IsOverdue(t, now)
    ensures s.Some? && s != Some(" (Overdue)") ==> s == Some("")
  {
    if t.dueDate.None? then None
    else if IsOverdue(t, now) then Some(" (Overdue)")
    else Some("")
  }
}
