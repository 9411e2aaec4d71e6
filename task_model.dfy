/** The task document of server/models/Task.js: its paths, the priority enum, the
    `trim` setters, the `required`/`maxlength`/`enum` validators, the defaults and the
    `timestamps` option, for documents created with `new Task(...)` and for updates
    run with `runValidators`. */
module TaskModel {
  import opened Values
  import opened JsText

  datatype Priority = Low | Medium | High

  /** The schema's `enum` for `priority`. */
  const PriorityNames: seq<string> := ["Low", "Medium", "High"]

  const TitleMaxLength: nat := 200
  const CategoryMaxLength: nat := 50
  const DescriptionMaxLength: nat := 1000

  /** The schema defaults of the paths the create handler may leave unset. */
  const DefaultPriority: string := "Medium"
  const DefaultCategory: string := "General"
  const DefaultDescription: string := ""

  function PriorityName(p: Priority): string {
    match p
    case Low => "Low"
    case Medium => "Medium"
    case High => "High"
  }

  /** Casting a string to the enum: defined exactly on the enum's values. */
  function ParsePriority(s: string): (r: Option<Priority>)
    ensures r.Some? <==> s in PriorityNames
    ensures r.Some? ==> PriorityName(r.value) == s
  {
    if s == "Low" then Some(Low)
    else if s == "Medium" then Some(Medium)
    else if s == "High" then Some(High)
    else None
  }

  /** A stored document. Dates are integers; `dueDate` None is `null`. */
  datatype Task = Task(
    id: string,
    title: string,
    completed: bool,
    priority: Priority,
    category: string,
    dueDate: Option<int>,
    description: string,
    createdAt: int,
    updatedAt: int)

  /** A value kept by a `trim: true` path with a `maxlength` bound. */
  predicate TrimmedWithin(s: string, max: nat) {
    Trim(s) == s && Length(s) <= max
  }

  /** What the schema guarantees of every stored document. */
  predicate StoredValid(t: Task) {
    && t.title != "" && TrimmedWithin(t.title, TitleMaxLength)
    && TrimmedWithin(t.category, CategoryMaxLength)
    && TrimmedWithin(t.description, DescriptionMaxLength)
    && t.createdAt <= t.updatedAt
  }

  /** One failed validator, as listed in a ValidationError. */
  datatype Violation =
    | TitleRequired
    | TitleTooLong
    | PriorityNotInEnum(value: string)
    | CategoryTooLong
    | DescriptionTooLong

  /** The message of a failed validator: the schema's own text, or Mongoose's
      default enum message. */
  function Message(v: Violation): string {
    match v
    case TitleRequired => "Task title is required"
    case TitleTooLong => "Task title cannot exceed 200 characters"
    case PriorityNotInEnum(p) => "`" + p + "` is not a valid enum value for path `priority`."
    case CategoryTooLong => "Category cannot exceed 50 characters"
    case DescriptionTooLong => "Description cannot exceed 1000 characters"
  }

  // The validators of each path, run on the value its setter produced.

  function TitleViolations(title: string): seq<Violation> {
    if title == "" then [TitleRequired]
    else if Length(title) > TitleMaxLength then [TitleTooLong]
    else []
  }

  function PriorityViolations(p: string): seq<Violation> {
    if p in PriorityNames then [] else [PriorityNotInEnum(p)]
  }

  function CategoryViolations(c: string): seq<Violation> {
    if Length(c) > CategoryMaxLength then [CategoryTooLong] else []
  }

  function DescriptionViolations(d: string): seq<Violation> {
    if Length(d) > DescriptionMaxLength then [DescriptionTooLong] else []
  }

  /** The object given to `new Task(...)`; a path left None takes its schema default,
      and `completed` is never given, so it always takes its default. */
  datatype TaskInit = TaskInit(
    title: string,
    priority: Option<string>,
    category: Option<string>,
    dueDate: Option<int>,
    description: Option<string>)

  /** `new Task(init)` followed by `save()` at time `now` under identifier `id`: defaults
      fill the unset paths, setters trim, validators check, `timestamps` sets both dates. */
  function NewDocument(init: TaskInit, id: string, now: int): (r: Result<Task, seq<Violation>>)
    ensures r.Ok? <==>
      && Trim(init.title) != "" && Length(Trim(init.title)) <= TitleMaxLength
      && init.priority.GetOr(DefaultPriority) in PriorityNames
      && Length(Trim(init.category.GetOr(DefaultCategory))) <= CategoryMaxLength
      && Length(Trim(init.description.GetOr(DefaultDescription))) <= DescriptionMaxLength
    ensures r.Err? ==> r.error != []
    ensures r.Ok? ==> StoredValid(r.value)
    ensures r.Ok? ==>
      && r.value.id == id && r.value.createdAt == now && r.value.updatedAt == now
      && r.value.title == Trim(init.title) && !r.value.completed
      && PriorityName(r.value.priority) == init.priority.GetOr(DefaultPriority)
      && r.value.category == Trim(init.category.GetOr(DefaultCategory))
      && r.value.dueDate == init.dueDate
      && r.value.description == Trim(init.description.GetOr(DefaultDescription))
  {
    var title := Trim(init.title);
    var priority := init.priority.GetOr(DefaultPriority);
    var category := Trim(init.category.GetOr(DefaultCategory));
    var description := Trim(init.description.GetOr(DefaultDescription));
    var violations := TitleViolations(title) + PriorityViolations(priority)
      + CategoryViolations(category) + DescriptionViolations(description);
    if violations != [] then Err(violations)
    else
      TrimIdempotent(init.title);
      TrimIdempotent(init.category.GetOr(DefaultCategory));
      TrimIdempotent(init.description.GetOr(DefaultDescription));
      Ok(Task(id, title, false, ParsePriority(priority).value, category, init.dueDate,
              description, now, now))
  }

  /** A document given only a title gets every schema default: not completed, priority
      Medium, category "General", no due date, empty description. */
  lemma DefaultDocument(title: string, id: string, now: int)
    requires Trim(title) != "" && Length(Trim(title)) <= TitleMaxLength
    ensures NewDocument(TaskInit(title, None, None, None, None), id, now)
         == Ok(Task(id, Trim(title), false, Medium, "General", None, "", now, now))
  {
    DefaultsWithin();
    var r := NewDocument(TaskInit(title, None, None, None, None), id, now);
    assert r.Ok? && PriorityName(r.value.priority) == "Medium";
  }

  /** The default category and description are their own trim and within bounds. */
  lemma DefaultsWithin()
    ensures Trim(DefaultCategory) == DefaultCategory && Length(DefaultCategory) <= CategoryMaxLength
    ensures Trim(DefaultDescription) == DefaultDescription && Length(DefaultDescription) <= DescriptionMaxLength
    ensures DefaultPriority in PriorityNames
  {
    TrimOfTrimmed(DefaultCategory);
  }

  /** One entry of an update object, as cast to the path's type. */
  datatype Change =
    | SetTitle(title: string)
    | SetCompleted(completed: bool)
    | SetPriority(priority: string)
    | SetCategory(category: string)
    | SetDueDate(dueDate: Option<int>)
    | SetDescription(description: string)

  /** The update validators of the path a change writes, on the value after its setter. */
  function ChangeViolations(c: Change): seq<Violation> {
    match c
    case SetTitle(s) => TitleViolations(Trim(s))
    case SetCompleted(_) => []
    case SetPriority(p) => PriorityViolations(p)
    case SetCategory(s) => CategoryViolations(Trim(s))
    case SetDueDate(_) => []
    case SetDescription(s) => DescriptionViolations(Trim(s))
  }

  function UpdateViolations(cs: seq<Change>): seq<Violation> {
    if cs == [] then [] else ChangeViolations(cs[0]) + UpdateViolations(cs[1..])
  }

  /** Writing one path, through its setter. A priority outside the enum is never
      written: such an update is rejected by its validator first. */
  function ApplyChange(t: Task, c: Change): Task {
    match c
    case SetTitle(s) => t.(title := Trim(s))
    case SetCompleted(b) => t.(completed := b)
    case SetPriority(p) => if p in PriorityNames then t.(priority := ParsePriority(p).value) else t
    case SetCategory(s) => t.(category := Trim(s))
    case SetDueDate(d) => t.(dueDate := d)
    case SetDescription(s) => t.(description := Trim(s))
  }

  function ApplyChanges(t: Task, cs: seq<Change>): Task
    decreases |cs|
  {
    if cs == [] then t else ApplyChanges(ApplyChange(t, cs[0]), cs[1..])
  }

  /** Validating a concatenated update object validates each part in turn. */
  lemma {:induction false} UpdateViolationsAppend(a: seq<Change>, b: seq<Change>)
    ensures UpdateViolations(a + b) == UpdateViolations(a) + UpdateViolations(b)
    decreases |a|
  {
    if a != [] {
      assert (a + b)[0] == a[0] && (a + b)[1..] == a[1..] + b;
      UpdateViolationsAppend(a[1..], b);
      var head := ChangeViolations(a[0]);
      assert UpdateViolations(a + b) == head + UpdateViolations(a[1..] + b);
      assert head + (UpdateViolations(a[1..]) + UpdateViolations(b))
          == (head + UpdateViolations(a[1..])) + UpdateViolations(b);
    } else {
      assert a + b == b;
    }
  }

  /** Writing a concatenated update object writes the first part, then the second. */
  lemma {:induction false} ApplyChangesAppend(t: Task, a: seq<Change>, b: seq<Change>)
    ensures ApplyChanges(t, a + b) == ApplyChanges(ApplyChanges(t, a), b)
    decreases |a|
  {
    if a != [] {
      assert (a + b)[0] == a[0] && (a + b)[1..] == a[1..] + b;
      ApplyChangesAppend(ApplyChange(t, a[0]), a[1..], b);
    } else {
      assert a + b == b;
    }
  }

  lemma ApplyChangeKeepsValid(t: Task, c: Change)
    requires StoredValid(t) && ChangeViolations(c) == []
    ensures StoredValid(ApplyChange(t, c))
    ensures ApplyChange(t, c).id == t.id
    ensures ApplyChange(t, c).createdAt == t.createdAt
    ensures ApplyChange(t, c).updatedAt == t.updatedAt
  {
    match c {
      case SetTitle(s) => TrimIdempotent(s);
      case SetCategory(s) => TrimIdempotent(s);
      case SetDescription(s) => TrimIdempotent(s);
      case _ =>
    }
  }

  /** An update that passes its validators keeps a document valid, its identity and
      its creation date. */
  lemma {:induction false} ApplyChangesKeepsValid(t: Task, cs: seq<Change>)
    requires StoredValid(t) && UpdateViolations(cs) == []
    ensures StoredValid(ApplyChanges(t, cs))
    ensures ApplyChanges(t, cs).id == t.id
    ensures ApplyChanges(t, cs).createdAt == t.createdAt
    ensures ApplyChanges(t, cs).updatedAt == t.updatedAt
    decreases |cs|
  {
    if cs != [] {
      assert UpdateViolations(cs) == ChangeViolations(cs[0]) + UpdateViolations(cs[1..]);
      ApplyChangeKeepsValid(t, cs[0]);
      ApplyChangesKeepsValid(ApplyChange(t, cs[0]), cs[1..]);
    }
  }

  /** `findByIdAndUpdate(id, changes, { new: true, runValidators: true })` on an existing
      document at time `now`: rejected with the failed validators, or the document with
      the changes written and `updatedAt` refreshed. */
  function UpdateDocument(t: Task, cs: seq<Change>, now: int): (r: Result<Task, seq<Violation>>)
    requires StoredValid(t) && t.updatedAt <= now
    ensures r.Err? <==> UpdateViolations(cs) != []
    ensures r.Err? ==> r.error == UpdateViolations(cs)
    ensures r.Ok? ==> StoredValid(r.value) && r.value.updatedAt == now
    ensures r.Ok? ==> r.value.id == t.id && r.value.createdAt == t.createdAt
    ensures r.Ok? ==> r.value == ApplyChanges(t, cs).(updatedAt := now)
  {
    var violations := UpdateViolations(cs);
    if violations != [] then Err(violations)
    else
      ApplyChangesKeepsValid(t, cs);
      Ok(ApplyChanges(t, cs).(updatedAt := now))
  }
}
