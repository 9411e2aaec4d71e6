/** The task page of client/src/pages/Tasks.jsx: a read-through cache of the server's
    tasks, the form that creates tasks, the search and status filter over the cache and
    the counters shown above the list. Each request to the server is represented by its
    outcome, passed in: the document the server answered with, or None when the request
    failed. */
module TasksPage {
  import opened Values
  import opened JsText
  import opened Sequences
  import opened TaskModel
  import opened TaskRoutes
  import opened TaskItem

  // ---------------------------------------------------------------------------------
  // Cache updates

  /** `prev.map(t => t.id === id ? updated : t)`. */
  function ReplaceById(s: seq<Task>, id: string, updated: Task): (r: seq<Task>)
    ensures |r| == |s|
    ensures forall i | 0 <= i < |s| :: s[i].id == id ==> r[i] == updated
    ensures forall i | 0 <= i < |s| :: s[i].id != id ==> r[i] == s[i]
  {
    if s == [] then []
    else [if s[0].id == id then updated else s[0]] + ReplaceById(s[1..], id, updated)
  }

  predicate NotId(id: string, t: Task) { t.id != id }

  /** `prev.filter(t => t.id !== id)`. */
  function RemoveById(s: seq<Task>, id: string): (r: seq<Task>)
    ensures forall i | 0 <= i < |r| :: r[i].id != id
    ensures forall i | 0 <= i < |s| && s[i].id != id :: s[i] in r
    ensures IsSubsequence(r, s)
  {
    SelectIsSubsequence(s, (t: Task) => NotId(id, t));
    Select(s, (t: Task) => NotId(id, t))
  }

  /** Removing an id that is not cached leaves the cache as it is. */
  lemma RemoveAbsentId(s: seq<Task>, id: string)
    requires forall i | 0 <= i < |s| :: s[i].id != id
    ensures RemoveById(s, id) == s
  {
    SelectAll(s, (t: Task) => NotId(id, t));
  }

  // ---------------------------------------------------------------------------------
  // The create form

  /** The body `addTask` sends: the title and category trimmed, the priority as selected,
      and `dueDate || null`; no description. */
  function CreatePayload(title: string, priority: string, category: string, dueDate: DateText): (b: CreateBody)
    ensures b.title == Given(Trim(title)) && b.category == Given(Trim(category))
    ensures b.priority == Given(priority)
    ensures b.dueDate.Null? <==> dueDate == EmptyText
    ensures dueDate != EmptyText ==> b.dueDate == Given(dueDate)
    ensures b.description == Missing
  {
    CreateBody(
      Given(Trim(title)),
      Given(priority),
      Given(Trim(category)),
      if dueDate == EmptyText then Null else Given(dueDate),
      Missing)
  }

  /** A payload the form sends always passes the server's title check, and the server
      stores exactly the trimmed title and no other due date than the one picked. */
  lemma PayloadPassesTitleCheck(title: string, priority: string, category: string, dueDate: DateText, id: string, now: int)
    requires Trim(title) != ""
    ensures !BlankTitle(CreatePayload(title, priority, category, dueDate).title)
    ensures var r := CreateOutcome(CreatePayload(title, priority, category, dueDate), id, now);
      r.Ok? ==> r.value.title == Trim(title) && r.value.dueDate == DateOf(Given(dueDate))
  {
    TrimIdempotent(title);
  }

  /** A blank category in the form is stored by the server as "General". */
  lemma BlankCategoryStoredAsGeneral(title: string, priority: string, category: string, dueDate: DateText, id: string, now: int)
    requires Trim(category) == ""
    requires CreateOutcome(CreatePayload(title, priority, category, dueDate), id, now).Ok?
    ensures CreateOutcome(CreatePayload(title, priority, category, dueDate), id, now).value.category == "General"
  {
    EmptyCategoryIsGeneral(CreatePayload(title, priority, category, dueDate), id, now);
  }

  // ---------------------------------------------------------------------------------
  // Search, status filter and counters

  /** The search text occurs in the lower-cased title, or in the lower-cased category
      when there is one. */
  predicate MatchesSearch(t: Task, searchTerm: string) {
    || Contains(Lower(t.title), Lower(searchTerm))
    || (t.category != "" && Contains(Lower(t.category), Lower(searchTerm)))
  }

  /** "all" keeps every task, "active" the open ones, "completed" the done ones, and any
      other value none. */
  predicate MatchesFilter(t: Task, filter: string) {
    || filter == "all"
    || (filter == "active" && !t.completed)
    || (filter == "completed" && t.completed)
  }

  predicate Shown(t: Task, searchTerm: string, filter: string) {
    MatchesSearch(t, searchTerm) && MatchesFilter(t, filter)
  }

  /** `filteredTasks`: the cached tasks that match both, in cache order. */
  function FilteredTasks(tasks: seq<Task>, searchTerm: string, filter: string): (r: seq<Task>)
    ensures IsSubsequence(r, tasks)
    ensures forall i | 0 <= i < |r| :: Shown(r[i], searchTerm, filter)
    ensures forall i | 0 <= i < |tasks| :: tasks[i] in r <==> Shown(tasks[i], searchTerm, filter)
  {
    SelectIsSubsequence(tasks, (t: Task) => Shown(t, searchTerm, filter));
    Select(tasks, (t: Task) => Shown(t, searchTerm, filter))
  }

  /** An empty search matches every task, so only the status filter selects. */
  lemma EmptySearchMatchesAll(t: Task)
    ensures MatchesSearch(t, "")
  {
    ContainsEmpty(Lower(t.title));
  }

  /** With an empty search and the "all" filter the whole cache is listed. */
  lemma UnfilteredListsAll(tasks: seq<Task>)
    ensures FilteredTasks(tasks, "", "all") == tasks
  {
    forall t | t in tasks ensures Shown(t, "", "all") {
      EmptySearchMatchesAll(t);
    }
    SelectAll(tasks, (t: Task) => Shown(t, "", "all"));
  }

  /** A filter value other than the three known ones lists nothing. */
  lemma UnknownFilterListsNothing(tasks: seq<Task>, searchTerm: string, filter: string)
    requires filter != "all" && filter != "active" && filter != "completed"
    ensures FilteredTasks(tasks, searchTerm, filter) == []
  {
  }

  datatype TaskStats = TaskStats(total: nat, completed: nat, active: nat, overdue: nat)

  predicate IsDone(t: Task) { t.completed }
  predicate IsActive(t: Task) { !t.completed }

  /** The counters' own overdue test: not completed, a due date, and that date before `now`. */
  predicate CountedOverdue(t: Task, now: int) {
    !t.completed && t.dueDate.Some? && t.dueDate.value < now
  }

  /** `taskStats`, computed from the whole cache at time `now`. */
  function Stats(tasks: seq<Task>, now: int): (s: TaskStats)
    ensures s.total == |tasks|
    ensures s.completed + s.active == s.total
    ensures s.completed == Count(tasks, IsDone) && s.active == Count(tasks, IsActive)
    ensures s.overdue == Count(tasks, (t: Task) => IsOverdue(t, now))
    ensures s.overdue <= s.active
  {
    CountSplits(tasks, IsDone, IsActive);
    CountMonotonic(tasks, (t: Task) => CountedOverdue(t, now), IsActive);
    SelectCongruent(tasks, (t: Task) => CountedOverdue(t, now), (t: Task) => IsOverdue(t, now));
    TaskStats(|tasks|, Count(tasks, IsDone), Count(tasks, IsActive), Count(tasks, (t: Task) => CountedOverdue(t, now)))
  }

  /** The counters' overdue number is the number of list items that show the overdue
      marker when the list is unfiltered: both use the same rule. */
  lemma OverdueCountAgreesWithItems(tasks: seq<Task>, now: int)
    ensures Stats(tasks, now).overdue == Count(FilteredTasks(tasks, "", "all"), (t: Task) => IsOverdue(t, now))
  {
    UnfilteredListsAll(tasks);
    SelectCongruent(tasks, (t: Task) => CountedOverdue(t, now), (t: Task) => IsOverdue(t, now));
  }

  // ---------------------------------------------------------------------------------
  // The page state

  class TasksPageState {
    var tasks: seq<Task>
    var title: string
    var priority: string
    var category: string
    var dueDate: DateText
    var searchTerm: string
    var filter: string
    var loading: bool

    /** The initial state: an empty cache, an empty form with priority "Medium", no
        search, the "all" filter, and loading. */
    constructor()
      ensures tasks == [] && title == "" && priority == "Medium" && category == ""
      ensures dueDate == EmptyText && searchTerm == "" && filter == "all" && loading
    {
      tasks := [];
      title := "";
      priority := "Medium";
      category := "";
      dueDate := EmptyText;
      searchTerm := "";
      filter := "all";
      loading := true;
    }

    /** `loadTasks` with the server's answer, None when the request failed. */
    method LoadTasks(reply: Option<seq<Task>>)
      modifies this
      ensures tasks == (if reply.Some? then reply.value else old(tasks))
      ensures !loading
      ensures title == old(title) && priority == old(priority) && category == old(category)
      ensures dueDate == old(dueDate) && searchTerm == old(searchTerm) && filter == old(filter)
    {
      if reply.Some? {
        tasks := reply.value;
      }
      loading := false;
    }

    /** `addTask`: nothing is sent for a blank title; otherwise the payload is sent and,
        when the server answers with the new task, it is put first in the cache and the
        form is cleared except for the priority. */
    method AddTask(reply: Option<Task>) returns (request: Option<CreateBody>)
      modifies this
      ensures Trim(old(title)) == "" ==> request.None?
      ensures Trim(old(title)) != "" ==>
        request == Some(CreatePayload(old(title), old(priority), old(category), old(dueDate)))
      ensures request.Some? && reply.Some? ==>
        && tasks == [reply.value] + old(tasks)
        && title == "" && category == "" && dueDate == EmptyText && priority == old(priority)
      ensures request.None? || reply.None? ==>
        && tasks == old(tasks) && title == old(title) && category == old(category)
        && dueDate == old(dueDate) && priority == old(priority)
      ensures searchTerm == old(searchTerm) && filter == old(filter) && loading == old(loading)
    {
      if Trim(title) == "" {
        return None;
      }
      request := Some(CreatePayload(title, priority, category, dueDate));
      if reply.Some? {
        tasks := [reply.value] + tasks;
        title := "";
        category := "";
        dueDate := EmptyText;
      }
    }

    /** `toggleTask`: asks for the opposite completion state and, when the server
        answers, puts its answer in place of every cached task with that id. */
    method ToggleTask(task: Task, reply: Option<Task>) returns (id: string, request: PatchBody)
      modifies this
      ensures id == task.id
      ensures request == PatchBody(Missing, Some(!task.completed), None, None, Missing, None)
      ensures reply.Some? ==> tasks == ReplaceById(old(tasks), task.id, reply.value)
      ensures reply.None? ==> tasks == old(tasks)
      ensures |tasks| == |old(tasks)|
      ensures title == old(title) && priority == old(priority) && category == old(category)
      ensures dueDate == old(dueDate) && searchTerm == old(searchTerm) && filter == old(filter)
      ensures loading == old(loading)
    {
      id := task.id;
      request := PatchBody(Missing, Some(!task.completed), None, None, Missing, None);
      if reply.Some? {
        tasks := ReplaceById(tasks, task.id, reply.value);
      }
    }

    /** `removeTask`: when the server confirms the delete, every cached task with that id
        is dropped. */
    method RemoveTask(id: string, deleted: bool)
      modifies this
      ensures deleted ==> tasks == RemoveById(old(tasks), id)
      ensures !deleted ==> tasks == old(tasks)
      ensures title == old(title) && priority == old(priority) && category == old(category)
      ensures dueDate == old(dueDate) && searchTerm == old(searchTerm) && filter == old(filter)
      ensures loading == old(loading)
    {
      if deleted {
        tasks := RemoveById(tasks, id);
      }
    }
  }

  /** The toggle request is a PATCH the server accepts: it never trips the title check
      and writes only `completed`. */
  lemma ToggleRequestWritesCompleted(task: Task, stored: Task)
    ensures !TitleRejected(PatchBody(Missing, Some(!task.completed), None, None, Missing, None))
    ensures Patched(stored, PatchBody(Missing, Some(!task.completed), None, None, Missing, None))
         == stored.(completed := !task.completed)
  {
  }
}
