/** The list query of `GET /api/tasks` (server/routes/tasks.js): the equality filter built
    from the query string, the sort chosen by `sortBy`, and the sorted result. The
    database's `find(filter).sort(sort)` is modelled as a filter followed by a sort. */
module TaskQuery {
  import opened Values
  import opened Sequences
  import opened TaskModel
  import opened JsText

  /** The query-string parameters the handler reads; None is an absent parameter. */
  datatype ListQuery = ListQuery(
    completed: Option<string>,
    priority: Option<string>,
    category: Option<string>,
    sortBy: Option<string>)

  /** The Mongo filter object; None is a key the handler did not set. */
  datatype TaskFilter = TaskFilter(
    completed: Option<bool>,
    priority: Option<string>,
    category: Option<string>)

  /** The three sort objects the handler can choose between. */
  datatype SortKey =
    | NewestFirst            // { createdAt: -1 }
    | DueDateThenNewest      // { dueDate: 1, createdAt: -1 }
    | PriorityNameThenNewest // { priority: 1, createdAt: -1 }

  /** A present `completed` parameter filters on `completed === 'true'`; `priority` and
      `category` filter only when non-empty. The database casts a filter value through
      the path's setters, so the category is compared trimmed. */
  function BuildFilter(q: ListQuery): (f: TaskFilter)
    ensures f.completed.Some? <==> q.completed.Some?
    ensures f.completed.Some? ==> (f.completed.value <==> q.completed.value == "true")
    ensures f.priority.Some? <==> q.priority.Some? && q.priority.value != ""
    ensures f.priority.Some? ==> f.priority == q.priority
    ensures f.category.Some? <==> q.category.Some? && q.category.value != ""
    ensures f.category.Some? ==> f.category.value == Trim(q.category.value)
  {
    TaskFilter(
      if q.completed.Some? then Some(q.completed.value == "true") else None,
      if q.priority.Some? && q.priority.value != "" then q.priority else None,
      if q.category.Some? && q.category.value != "" then Some(Trim(q.category.value)) else None)
  }

  /** A document matches when it equals every value the filter sets. */
  predicate Matches(f: TaskFilter, t: Task) {
    && (f.completed.Some? ==> t.completed == f.completed.value)
    && (f.priority.Some? ==> PriorityName(t.priority) == f.priority.value)
    && (f.category.Some? ==> t.category == f.category.value)
  }

  /** `sortBy=priority` and `sortBy=dueDate` pick their sort objects; any other value, or
      none, sorts newest first. */
  function ChooseSort(sortBy: Option<string>): (k: SortKey)
    ensures k == PriorityNameThenNewest <==> sortBy == Some("priority")
    ensures k == DueDateThenNewest <==> sortBy == Some("dueDate")
  {
    if sortBy == Some("priority") then PriorityNameThenNewest
    else if sortBy == Some("dueDate") then DueDateThenNewest
    else NewestFirst
  }

  /** Ordering of strings by code unit, shorter prefix first, as the database orders
      the ASCII priority names. */
  predicate StrLess(a: string, b: string)
    decreases |a|
  {
    if a == [] then b != []
    else if b == [] then false
    else if a[0] != b[0] then a[0] < b[0]
    else StrLess(a[1..], b[1..])
  }

  lemma {:induction false} StrLessTrichotomy(a: string, b: string)
    ensures a == b || StrLess(a, b) || StrLess(b, a)
    ensures !(StrLess(a, b) && StrLess(b, a))
    decreases |a|
  {
    if a != [] && b != [] && a[0] == b[0] {
      StrLessTrichotomy(a[1..], b[1..]);
      assert a == [a[0]] + a[1..] && b == [b[0]] + b[1..];
    }
  }

  lemma {:induction false} StrLessTransitive(a: string, b: string, c: string)
    requires StrLess(a, b) && StrLess(b, c)
    ensures StrLess(a, c)
    decreases |a|
  {
    if a != [] && a[0] == b[0] && b[0] == c[0] {
      StrLessTransitive(a[1..], b[1..], c[1..]);
    }
  }

  /** Ascending on dates, with documents that have no due date first, as the database
      orders `null` before dates. */
  predicate DueBefore(a: Option<int>, b: Option<int>) {
    match (a, b)
    case (None, Some(_)) => true
    case (Some(x), Some(y)) => x < y
    case _ => false
  }

  /** `a` may come before `b` under the sort object `k`. */
  predicate InOrder(k: SortKey, a: Task, b: Task) {
    match k
    case NewestFirst => a.createdAt >= b.createdAt
    case DueDateThenNewest =>
      DueBefore(a.dueDate, b.dueDate) || (a.dueDate == b.dueDate && a.createdAt >= b.createdAt)
    case PriorityNameThenNewest =>
      var na, nb := PriorityName(a.priority), PriorityName(b.priority);
      StrLess(na, nb) || (na == nb && a.createdAt >= b.createdAt)
  }

  lemma InOrderTotal(k: SortKey, a: Task, b: Task)
    ensures InOrder(k, a, b) || InOrder(k, b, a)
  {
    StrLessTrichotomy(PriorityName(a.priority), PriorityName(b.priority));
  }

  lemma InOrderTransitive(k: SortKey, a: Task, b: Task, c: Task)
    requires InOrder(k, a, b) && InOrder(k, b, c)
    ensures InOrder(k, a, c)
  {
    if k.PriorityNameThenNewest? {
      var na, nb, nc := PriorityName(a.priority), PriorityName(b.priority), PriorityName(c.priority);
      if StrLess(na, nb) && StrLess(nb, nc) {
        StrLessTransitive(na, nb, nc);
      }
    }
  }

  predicate Sorted(k: SortKey, s: seq<Task>) {
    forall i, j | 0 <= i < j < |s| :: InOrder(k, s[i], s[j])
  }

  /** Places `x` before the first element it may precede. */
  function Insert(k: SortKey, x: Task, s: seq<Task>): (r: seq<Task>)
    ensures multiset(r) == multiset(s) + multiset{x}
  {
    if s == [] then [x]
    else if InOrder(k, x, s[0]) then [x] + s
    else
      assert s == [s[0]] + s[1..];
      [s[0]] + Insert(k, x, s[1..])
  }

  /** The database's sort, modelled as a stable insertion sort. */
  function SortTasks(k: SortKey, s: seq<Task>): (r: seq<Task>)
    ensures multiset(r) == multiset(s)
  {
    if s == [] then []
    else
      assert s == [s[0]] + s[1..];
      Insert(k, s[0], SortTasks(k, s[1..]))
  }

  /** An element that may precede every element of a sorted sequence may head it. */
  lemma SortedCons(k: SortKey, a: Task, rest: seq<Task>)
    requires Sorted(k, rest)
    requires forall j | 0 <= j < |rest| :: InOrder(k, a, rest[j])
    ensures Sorted(k, [a] + rest)
  {
    var r := [a] + rest;
    forall i, j | 0 <= i < j < |r| ensures InOrder(k, r[i], r[j]) {
      assert r[j] == rest[j - 1];
      if i > 0 { assert r[i] == rest[i - 1]; }
    }
  }

  /** Every element of `Insert(k, x, s)` is `x` or an element of `s`. */
  lemma InsertElements(k: SortKey, x: Task, s: seq<Task>, j: int)
    requires 0 <= j < |Insert(k, x, s)|
    ensures Insert(k, x, s)[j] == x || Insert(k, x, s)[j] in s
  {
    var r := Insert(k, x, s);
    assert r[j] in multiset(r);
  }

  lemma {:induction false} InsertSorted(k: SortKey, x: Task, s: seq<Task>)
    requires Sorted(k, s)
    ensures Sorted(k, Insert(k, x, s))
  {
    if s == [] {
    } else if InOrder(k, x, s[0]) {
      forall j | 0 <= j < |s| ensures InOrder(k, x, s[j]) {
        if j > 0 { InOrderTransitive(k, x, s[0], s[j]); }
      }
      SortedCons(k, x, s);
    } else {
      InOrderTotal(k, x, s[0]);
      var rest := Insert(k, x, s[1..]);
      InsertSorted(k, x, s[1..]);
      forall j | 0 <= j < |rest| ensures InOrder(k, s[0], rest[j]) {
        InsertElements(k, x, s[1..], j);
        if rest[j] != x {
          var m :| 0 <= m < |s[1..]| && s[1..][m] == rest[j];
          assert s[m + 1] == rest[j];
        }
      }
      SortedCons(k, s[0], rest);
    }
  }

  lemma {:induction false} SortTasksSorted(k: SortKey, s: seq<Task>)
    ensures Sorted(k, SortTasks(k, s))
  {
    if s != [] {
      SortTasksSorted(k, s[1..]);
      InsertSorted(k, s[0], SortTasks(k, s[1..]));
    }
  }

  /** Sorting only reorders: each element of the result is an element of the input. */
  lemma SortTasksElements(k: SortKey, s: seq<Task>)
    ensures forall i | 0 <= i < |SortTasks(k, s)| :: SortTasks(k, s)[i] in s
  {
    var r := SortTasks(k, s);
    forall i | 0 <= i < |r| ensures r[i] in s {
      assert r[i] in multiset(r);
    }
  }

  /** `Task.find(filter).sort(sort)`: exactly the documents that match the filter, each
      as often as it is stored, in the chosen order. */
  function ListTasks(docs: seq<Task>, q: ListQuery): (r: seq<Task>)
    ensures multiset(r) == multiset(Select(docs, (t: Task) => Matches(BuildFilter(q), t)))
    ensures forall i | 0 <= i < |r| :: r[i] in docs && Matches(BuildFilter(q), r[i])
    ensures Sorted(ChooseSort(q.sortBy), r)
  {
    var f := BuildFilter(q);
    var k := ChooseSort(q.sortBy);
    var matching := Select(docs, (t: Task) => Matches(f, t));
    SortTasksSorted(k, matching);
    SortTasksElements(k, matching);
    SortTasks(k, matching)
  }

  /** What the query parameters mean for one document. */
  lemma ListFilterMeaning(q: ListQuery, t: Task)
    ensures Matches(BuildFilter(q), t) <==>
      && (q.completed.Some? ==> t.completed == (q.completed.value == "true"))
      && (q.priority.Some? && q.priority.value != "" ==> PriorityName(t.priority) == q.priority.value)
      && (q.category.Some? && q.category.value != "" ==> t.category == Trim(q.category.value))
  {
  }

  /** A padded `category` parameter finds the documents whose stored, trimmed category
      it names. */
  lemma PaddedCategoryMatches(t: Task)
    requires t.category == "Work"
    ensures Matches(BuildFilter(ListQuery(None, None, Some(" Work "), None)), t)
  {
    assert Trim(" Work ") == Trim("Work ") == Trim("Work") == "Work";
  }

  /** Sorting by priority compares the names as strings, so the order is High, Low,
      Medium, not the High, Medium, Low the handler's comment announces. */
  lemma PriorityNameOrder()
    ensures StrLess(PriorityName(High), PriorityName(Low))
    ensures StrLess(PriorityName(Low), PriorityName(Medium))
    ensures !StrLess(PriorityName(Medium), PriorityName(Low))
  {
  }

  /** With no completed document stored, `?completed=true` lists nothing. */
  lemma NoCompletedListsEmpty(docs: seq<Task>, q: ListQuery)
    requires forall i | 0 <= i < |docs| :: !docs[i].completed
    requires q.completed == Some("true")
    ensures ListTasks(docs, q) == []
  {
  }
}
