/** The REST handlers of server/routes/tasks.js over the task collection. The collection
    is a store of documents with distinct identifiers; each handler is one atomic step
    that answers with a document (or a count) or with one of the handler's error replies. */
module TaskRoutes {
  import opened Values
  import opened JsText
  import opened Sequences
  import opened TaskModel

  /** The error replies of the handlers, with their status codes and texts. */
  datatype ApiError =
    | MissingTitle                           // POST with a blank title
    | TitleCannotBeEmpty                     // PATCH with a blank title
    | ValidationFailed(violations: seq<Violation>)
    | InvalidIdFormat                        // an id that does not cast to an ObjectId
    | TaskNotFound
    | TaskIdsRequired                        // bulk complete without a non-empty array
    | ServerError(message: string)

  function Status(e: ApiError): (code: int)
    ensures code == 404 <==> e.TaskNotFound?
    ensures code == 500 <==> e.ServerError?
    ensures code == 400 <==> !e.TaskNotFound? && !e.ServerError?
  {
    match e
    case TaskNotFound => 404
    case ServerError(_) => 500
    case _ => 400
  }

  function ErrorText(e: ApiError): string {
    match e
    case MissingTitle => "Task title is required"
    case TitleCannotBeEmpty => "Task title cannot be empty"
    case ValidationFailed(_) => "Validation failed"
    case InvalidIdFormat => "Invalid task ID format"
    case TaskNotFound => "Task not found"
    case TaskIdsRequired => "taskIds array is required"
    case ServerError(m) => m
  }

  /** The `details` of a "Validation failed" reply: one message per failed validator. */
  function Details(vs: seq<Violation>): (ms: seq<string>)
    ensures |ms| == |vs|
    ensures forall i | 0 <= i < |vs| :: ms[i] == Message(vs[i])
  {
    if vs == [] then [] else [Message(vs[0])] + Details(vs[1..])
  }

  predicate IsHexDigit(c: char) {
    ('0' <= c <= '9') || ('a' <= c <= 'f') || ('A' <= c <= 'F')
  }

  /** An id string that casts to an ObjectId: 24 hexadecimal digits. */
  predicate ValidId(s: string) {
    |s| == 24 && forall i | 0 <= i < |s| :: IsHexDigit(s[i])
  }

  /** An id as the server writes it out: the hexadecimal string of an ObjectId, whose
      letters are lower case. */
  predicate CanonicalId(s: string) {
    ValidId(s) && forall i | 0 <= i < |s| :: !IsAsciiUpper(s[i])
  }

  /** The ObjectId an id string casts to, written out as the server writes ids. Hex
      digits are read whatever their case, so a request may spell a stored id in upper
      or mixed case and still name that document. */
  function ObjectIdOf(s: string): (r: string)
    ensures |r| == |s|
    ensures ValidId(s) ==> CanonicalId(r)
    ensures CanonicalId(s) ==> r == s
  {
    Lower(s)
  }

  /** Two spellings of an id that differ only in the case of their letters cast to the
      same ObjectId, and one passes the cast exactly when the other does. */
  lemma ObjectIdIgnoresCase(s: string)
    ensures ValidId(Upper(s)) <==> ValidId(s)
    ensures ObjectIdOf(Upper(s)) == ObjectIdOf(s)
  {
    forall i | 0 <= i < |s|
      ensures LowerChar(UpperChar(s[i])) == LowerChar(s[i])
      ensures IsHexDigit(Upper(s)[i]) <==> IsHexDigit(s[i])
    {
      if IsAsciiLower(s[i]) {
        assert IsAsciiUpper(UpperChar(s[i]));
      }
    }
    if ValidId(Upper(s)) {
      assert forall i | 0 <= i < |s| :: IsHexDigit(s[i]);
    }
  }

  // ---------------------------------------------------------------------------------
  // The collection

  predicate UniqueIds(docs: seq<Task>) {
    forall i, j | 0 <= i < |docs| && 0 <= j < |docs| && i != j :: docs[i].id != docs[j].id
  }

  function IdSet(docs: seq<Task>): set<string> {
    set i | 0 <= i < |docs| :: docs[i].id
  }

  /** `findById`: the position of the document with identifier `id`. */
  function Lookup(docs: seq<Task>, id: string): (r: Option<nat>)
    ensures r.Some? ==> r.value < |docs| && docs[r.value].id == id
    ensures r.None? <==> id !in IdSet(docs)
  {
    if docs == [] then None
    else if docs[0].id == id then Some(0)
    else
      match Lookup(docs[1..], id)
      case None =>
        assert IdSet(docs) == {docs[0].id} + IdSet(docs[1..]) by {
          forall x | x in IdSet(docs) ensures x in {docs[0].id} + IdSet(docs[1..]) {
            var i :| 0 <= i < |docs| && docs[i].id == x;
            if i > 0 { assert docs[1..][i - 1].id == x; }
          }
        }
        None
      case Some(k) => Some(k + 1)
  }

  /** Every stored document satisfies the schema and was last written no later than `now`. */
  predicate DocsValidAt(docs: seq<Task>, now: int) {
    forall i | 0 <= i < |docs| :: StoredValid(docs[i]) && docs[i].updatedAt <= now
  }

  // ---------------------------------------------------------------------------------
  // POST /api/tasks

  /** A `dueDate` of a request body: the empty string, or a string that parses to a time. */
  datatype DateText = EmptyText | Date(time: int)

  datatype CreateBody = CreateBody(
    title: Input<string>,
    priority: Input<string>,
    category: Input<string>,
    dueDate: Input<DateText>,
    description: Input<string>)

  /** A string field that is present, not null and not "". */
  predicate Truthy(v: Input<string>) {
    v.Given? && v.value != ""
  }

  /** `v || d`. */
  function OrDefault(v: Input<string>, d: string): (r: string)
    ensures Truthy(v) ==> r == v.value
    ensures !Truthy(v) ==> r == d
  {
    if v.Given? && v.value != "" then v.value else d
  }

  /** `new Date(v)` when `v` is truthy; no due date otherwise. */
  function DateOf(v: Input<DateText>): Option<int> {
    match v
    case Given(Date(t)) => Some(t)
    case _ => None
  }

  predicate BlankTitle(title: Input<string>) {
    !Truthy(title) || Trim(title.value) == ""
  }

  /** The object the handler passes to `new Task(...)` once the title is accepted. */
  function CreateData(b: CreateBody): TaskInit
    requires !BlankTitle(b.title)
  {
    TaskInit(
      Trim(b.title.value),
      Some(OrDefault(b.priority, DefaultPriority)),
      Some(OrDefault(b.category, DefaultCategory)),
      DateOf(b.dueDate),
      Some(OrDefault(b.description, DefaultDescription)))
  }

  /** The reply to `POST /` for document identifier `id` at time `now`. */
  function CreateOutcome(b: CreateBody, id: string, now: int): (r: Result<Task, ApiError>)
    ensures r == Err(MissingTitle) <==> BlankTitle(b.title)
    ensures r.Err? && r.error.ValidationFailed? ==> r.error.violations != []
    ensures r.Err? ==> r.error == MissingTitle || r.error.ValidationFailed?
    ensures r.Ok? ==> StoredValid(r.value) && r.value.id == id
    ensures r.Ok? ==> r.value.createdAt == now && r.value.updatedAt == now
  {
    if BlankTitle(b.title) then Err(MissingTitle)
    else
      match NewDocument(CreateData(b), id, now)
      case Err(vs) => Err(ValidationFailed(vs))
      case Ok(t) => Ok(t)
  }

  /** What an accepted POST stores: the trimmed title, not completed, and for every other
      field the request's value when truthy and the default otherwise, trimmed. */
  lemma CreateStores(b: CreateBody, id: string, now: int)
    requires CreateOutcome(b, id, now).Ok?
    ensures var t := CreateOutcome(b, id, now).value;
      && t.title == Trim(b.title.value)
      && !t.completed
      && PriorityName(t.priority) == OrDefault(b.priority, "Medium")
      && t.category == Trim(OrDefault(b.category, "General"))
      && t.dueDate == (if b.dueDate.Given? && b.dueDate.value.Date? then Some(b.dueDate.value.time) else None)
      && t.description == Trim(OrDefault(b.description, ""))
  {
    TrimIdempotent(b.title.value);
  }

  /** When is an accepted title rejected by the schema: a priority outside the enum or a
      field longer than its bound, measured after trimming. */
  lemma CreateValidation(b: CreateBody, id: string, now: int)
    requires !BlankTitle(b.title)
    ensures CreateOutcome(b, id, now).Err? <==>
      || Length(Trim(b.title.value)) > TitleMaxLength
      || OrDefault(b.priority, "Medium") !in PriorityNames
      || Length(Trim(OrDefault(b.category, "General"))) > CategoryMaxLength
      || Length(Trim(OrDefault(b.description, ""))) > DescriptionMaxLength
  {
    TrimIdempotent(b.title.value);
  }

  /** An empty category is falsy, so it is stored as "General". */
  lemma EmptyCategoryIsGeneral(b: CreateBody, id: string, now: int)
    requires b.category == Given("")
    requires CreateOutcome(b, id, now).Ok?
    ensures CreateOutcome(b, id, now).value.category == "General"
  {
    TrimOfTrimmed("General");
  }

  // ---------------------------------------------------------------------------------
  // PATCH /api/tasks/:id

  datatype UpdateKey = TitleKey | CompletedKey | PriorityKey | CategoryKey | DueDateKey | DescriptionKey

  /** The keys PATCH copies from the body, in the order it visits them. */
  const AllowedUpdates: seq<UpdateKey> :=
    [TitleKey, CompletedKey, PriorityKey, CategoryKey, DueDateKey, DescriptionKey]

  /** The allowed keys of a PATCH body; every other key of the body is ignored, so it is
      not represented. */
  datatype PatchBody = PatchBody(
    title: Input<string>,
    completed: Option<bool>,
    priority: Option<string>,
    category: Option<string>,
    dueDate: Input<DateText>,
    description: Option<string>)

  /** `req.body.hasOwnProperty(key)`. */
  predicate Has(b: PatchBody, k: UpdateKey) {
    match k
    case TitleKey => !b.title.Missing?
    case CompletedKey => b.completed.Some?
    case PriorityKey => b.priority.Some?
    case CategoryKey => b.category.Some?
    case DueDateKey => !b.dueDate.Missing?
    case DescriptionKey => b.description.Some?
  }

  /** A title that is present but null, empty or only white space. */
  predicate TitleRejected(b: PatchBody) {
    b.title.Null? || (b.title.Given? && Trim(b.title.value) == "")
  }

  /** The entry written into `updates` for key `k`, as the database casts it: none when
      the key is absent. A falsy `dueDate` is copied as is, and both `null` and "" cast to
      no date. */
  function KeyChange(b: PatchBody, k: UpdateKey): (cs: seq<Change>)
    ensures |cs| <= 1
    ensures cs == [] <==> !Has(b, k) || (k == TitleKey && b.title.Null?)
  {
    match k
    case TitleKey => if b.title.Given? then [SetTitle(b.title.value)] else []
    case CompletedKey => if b.completed.Some? then [SetCompleted(b.completed.value)] else []
    case PriorityKey => if b.priority.Some? then [SetPriority(b.priority.value)] else []
    case CategoryKey => if b.category.Some? then [SetCategory(b.category.value)] else []
    case DueDateKey => if b.dueDate.Missing? then [] else [SetDueDate(DateOf(b.dueDate))]
    case DescriptionKey => if b.description.Some? then [SetDescription(b.description.value)] else []
  }

  /** The entries written for `keys`, in order. */
  function ChangesFor(b: PatchBody, keys: seq<UpdateKey>): seq<Change> {
    if keys == [] then [] else KeyChange(b, keys[0]) + ChangesFor(b, keys[1..])
  }

  /** The `updates` object built by the handler's loop, or its early 400 reply. */
  function UpdatesOf(b: PatchBody): (r: Result<seq<Change>, ApiError>)
    ensures r.Err? <==> TitleRejected(b)
    ensures r.Err? ==> r.error == TitleCannotBeEmpty
  {
    if TitleRejected(b) then Err(TitleCannotBeEmpty) else Ok(ChangesFor(b, AllowedUpdates))
  }

  lemma ChangesForStep(b: PatchBody, keys: seq<UpdateKey>, i: int)
    requires 0 <= i < |keys|
    ensures ChangesFor(b, keys[i..]) == KeyChange(b, keys[i]) + ChangesFor(b, keys[i + 1..])
  {
    assert keys[i..][1..] == keys[i + 1..];
  }

  /** The handler's loop over `allowedUpdates`. */
  method CollectUpdates(b: PatchBody) returns (r: Result<seq<Change>, ApiError>)
    ensures r == UpdatesOf(b)
  {
    var updates: seq<Change> := [];
    for i := 0 to |AllowedUpdates|
      invariant updates + ChangesFor(b, AllowedUpdates[i..]) == ChangesFor(b, AllowedUpdates)
      invariant i > 0 ==> !TitleRejected(b)
    {
      var key := AllowedUpdates[i];
      ChangesForStep(b, AllowedUpdates, i);
      ghost var next := ChangesFor(b, AllowedUpdates[i + 1..]);
      if Has(b, key) {
        if key == TitleKey && TitleRejected(b) {
          return Err(TitleCannotBeEmpty);
        }
        assert updates + (KeyChange(b, key) + next) == (updates + KeyChange(b, key)) + next;
        updates := updates + KeyChange(b, key);
      } else {
        assert KeyChange(b, key) + next == next;
      }
    }
    assert AllowedUpdates[|AllowedUpdates|..] == [];
    assert updates + [] == updates;
    return Ok(updates);
  }

  /** The update object is the entries of the six keys in order. */
  lemma PatchChangesSplit(b: PatchBody)
    ensures ChangesFor(b, AllowedUpdates)
         == KeyChange(b, TitleKey) + (KeyChange(b, CompletedKey) + (KeyChange(b, PriorityKey)
          + (KeyChange(b, CategoryKey) + (KeyChange(b, DueDateKey) + KeyChange(b, DescriptionKey)))))
  {
    var k1: seq<UpdateKey> := [DescriptionKey];
    var k2 := [DueDateKey] + k1;
    var k3 := [CategoryKey] + k2;
    var k4 := [PriorityKey] + k3;
    var k5 := [CompletedKey] + k4;
    var k6 := [TitleKey] + k5;
    assert k6 == AllowedUpdates;
    assert k1[0] == DescriptionKey && k1[1..] == [];
    assert ChangesFor(b, k1) == KeyChange(b, DescriptionKey);
    assert k2[0] == DueDateKey && k2[1..] == k1;
    assert ChangesFor(b, k2) == KeyChange(b, DueDateKey) + ChangesFor(b, k1);
    assert k3[0] == CategoryKey && k3[1..] == k2;
    assert ChangesFor(b, k3) == KeyChange(b, CategoryKey) + ChangesFor(b, k2);
    assert k4[0] == PriorityKey && k4[1..] == k3;
    assert ChangesFor(b, k4) == KeyChange(b, PriorityKey) + ChangesFor(b, k3);
    assert k5[0] == CompletedKey && k5[1..] == k4;
    assert ChangesFor(b, k5) == KeyChange(b, CompletedKey) + ChangesFor(b, k4);
    assert k6[0] == TitleKey && k6[1..] == k5;
    assert ChangesFor(b, k6) == KeyChange(b, TitleKey) + ChangesFor(b, k5);
  }

  /** The reference meaning of an accepted PATCH: each allowed key present in the body
      overwrites its field (through the field's setter), every other field is kept. */
  function Patched(t: Task, b: PatchBody): (r: Task)
    ensures r.id == t.id && r.createdAt == t.createdAt && r.updatedAt == t.updatedAt
    ensures (forall k :: !Has(b, k)) ==> r == t
  {
    assert (forall k :: !Has(b, k)) ==>
      && !Has(b, TitleKey) && !Has(b, CompletedKey) && !Has(b, PriorityKey)
      && !Has(b, CategoryKey) && !Has(b, DueDateKey) && !Has(b, DescriptionKey);
    t.(
      title := if b.title.Given? then Trim(b.title.value) else t.title,
      completed := b.completed.GetOr(t.completed),
      priority :=
        if b.priority.Some? && ParsePriority(b.priority.value).Some?
        then ParsePriority(b.priority.value).value else t.priority,
      category := if b.category.Some? then Trim(b.category.value) else t.category,
      dueDate := if b.dueDate.Missing? then t.dueDate else DateOf(b.dueDate),
      description := if b.description.Some? then Trim(b.description.value) else t.description)
  }

  /** Writing the entry of one key: that key's field as `Patched` sets it, the others kept. */
  function Step(t: Task, b: PatchBody, k: UpdateKey): Task {
    var p := Patched(t, b);
    match k
    case TitleKey => t.(title := p.title)
    case CompletedKey => t.(completed := p.completed)
    case PriorityKey => t.(priority := p.priority)
    case CategoryKey => t.(category := p.category)
    case DueDateKey => t.(dueDate := p.dueDate)
    case DescriptionKey => t.(description := p.description)
  }

  lemma WriteKey(t: Task, b: PatchBody, k: UpdateKey)
    ensures ApplyChanges(t, KeyChange(b, k)) == Step(t, b, k)
  {
    var cs := KeyChange(b, k);
    if cs != [] {
      assert ApplyChanges(t, cs) == ApplyChanges(ApplyChange(t, cs[0]), []);
    }
  }

  /** Writing the update object built from `b` gives `Patched(t, b)`. */
  lemma {:induction false} PatchWrites(t: Task, b: PatchBody)
    ensures ApplyChanges(t, ChangesFor(b, AllowedUpdates)) == Patched(t, b)
  {
    PatchChangesSplit(b);
    var c1, c2, c3 := KeyChange(b, TitleKey), KeyChange(b, CompletedKey), KeyChange(b, PriorityKey);
    var c4, c5, c6 := KeyChange(b, CategoryKey), KeyChange(b, DueDateKey), KeyChange(b, DescriptionKey);
    var t1 := Step(t, b, TitleKey);
    var t2 := Step(t1, b, CompletedKey);
    var t3 := Step(t2, b, PriorityKey);
    var t4 := Step(t3, b, CategoryKey);
    var t5 := Step(t4, b, DueDateKey);
    var t6 := Step(t5, b, DescriptionKey);
    WriteKey(t, b, TitleKey);
    WriteKey(t1, b, CompletedKey);
    WriteKey(t2, b, PriorityKey);
    WriteKey(t3, b, CategoryKey);
    WriteKey(t4, b, DueDateKey);
    WriteKey(t5, b, DescriptionKey);
    ApplyChangesAppend(t, c1, c2 + (c3 + (c4 + (c5 + c6))));
    ApplyChangesAppend(t1, c2, c3 + (c4 + (c5 + c6)));
    ApplyChangesAppend(t2, c3, c4 + (c5 + c6));
    ApplyChangesAppend(t3, c4, c5 + c6);
    ApplyChangesAppend(t4, c5, c6);
    assert ApplyChanges(t, ChangesFor(b, AllowedUpdates)) == t6;
    StepsPatch(t, b);
  }

  /** Writing the six fields one after the other gives the patched document. */
  lemma StepsPatch(t: Task, b: PatchBody)
    ensures Step(Step(Step(Step(Step(Step(t, b, TitleKey), b, CompletedKey), b, PriorityKey),
              b, CategoryKey), b, DueDateKey), b, DescriptionKey) == Patched(t, b)
  {
  }

  /** The value a body gives key `k` is acceptable for that path after its setter. */
  predicate KeyAcceptable(b: PatchBody, k: UpdateKey) {
    match k
    case TitleKey => b.title.Given? ==> Trim(b.title.value) != "" && Length(Trim(b.title.value)) <= TitleMaxLength
    case PriorityKey => b.priority.Some? ==> b.priority.value in PriorityNames
    case CategoryKey => b.category.Some? ==> Length(Trim(b.category.value)) <= CategoryMaxLength
    case DescriptionKey => b.description.Some? ==> Length(Trim(b.description.value)) <= DescriptionMaxLength
    case _ => true
  }

  /** The validators of one key's entry pass exactly when its value is acceptable. */
  lemma ValidateKey(b: PatchBody, k: UpdateKey)
    ensures UpdateViolations(KeyChange(b, k)) == [] <==> KeyAcceptable(b, k)
  {
    var cs := KeyChange(b, k);
    if cs != [] {
      assert UpdateViolations(cs) == ChangeViolations(cs[0]) + UpdateViolations([]);
    }
  }

  /** The violations of the update object are those of the six keys, in order. */
  lemma PatchViolationsSplit(b: PatchBody)
    ensures UpdateViolations(ChangesFor(b, AllowedUpdates))
         == UpdateViolations(KeyChange(b, TitleKey)) + (UpdateViolations(KeyChange(b, CompletedKey))
          + (UpdateViolations(KeyChange(b, PriorityKey)) + (UpdateViolations(KeyChange(b, CategoryKey))
          + (UpdateViolations(KeyChange(b, DueDateKey)) + UpdateViolations(KeyChange(b, DescriptionKey))))))
  {
    PatchChangesSplit(b);
    var c1, c2, c3 := KeyChange(b, TitleKey), KeyChange(b, CompletedKey), KeyChange(b, PriorityKey);
    var c4, c5, c6 := KeyChange(b, CategoryKey), KeyChange(b, DueDateKey), KeyChange(b, DescriptionKey);
    UpdateViolationsAppend(c1, c2 + (c3 + (c4 + (c5 + c6))));
    UpdateViolationsAppend(c2, c3 + (c4 + (c5 + c6)));
    UpdateViolationsAppend(c3, c4 + (c5 + c6));
    UpdateViolationsAppend(c4, c5 + c6);
    UpdateViolationsAppend(c5, c6);
  }

  /** The validators of the update object pass exactly when each of the four validated
      keys is acceptable. */
  lemma PatchViolationsEmpty(b: PatchBody)
    ensures UpdateViolations(ChangesFor(b, AllowedUpdates)) == [] <==>
      && KeyAcceptable(b, TitleKey) && KeyAcceptable(b, PriorityKey)
      && KeyAcceptable(b, CategoryKey) && KeyAcceptable(b, DescriptionKey)
  {
    PatchViolationsSplit(b);
    ValidateKey(b, TitleKey);
    ValidateKey(b, CompletedKey);
    ValidateKey(b, PriorityKey);
    ValidateKey(b, CategoryKey);
    ValidateKey(b, DueDateKey);
    ValidateKey(b, DescriptionKey);
  }

  /** The validators of an update object fail exactly when a present field is invalid
      after its setter. */
  lemma PatchValidation(b: PatchBody)
    requires !TitleRejected(b)
    ensures UpdateViolations(ChangesFor(b, AllowedUpdates)) == [] <==>
      && (b.title.Given? ==> Length(Trim(b.title.value)) <= TitleMaxLength)
      && (b.priority.Some? ==> b.priority.value in PriorityNames)
      && (b.category.Some? ==> Length(Trim(b.category.value)) <= CategoryMaxLength)
      && (b.description.Some? ==> Length(Trim(b.description.value)) <= DescriptionMaxLength)
  {
    PatchViolationsEmpty(b);
    assert KeyAcceptable(b, TitleKey) <==> (b.title.Given? ==> Length(Trim(b.title.value)) <= TitleMaxLength);
    assert KeyAcceptable(b, PriorityKey) <==> (b.priority.Some? ==> b.priority.value in PriorityNames);
    assert KeyAcceptable(b, CategoryKey) <==>
      (b.category.Some? ==> Length(Trim(b.category.value)) <= CategoryMaxLength);
    assert KeyAcceptable(b, DescriptionKey) <==>
      (b.description.Some? ==> Length(Trim(b.description.value)) <= DescriptionMaxLength);
  }

  /** The reply to `PATCH /:id` at time `now`: the title check of the loop, the id cast,
      the update validators and the lookup, in that order. */
  function PatchOutcome(docs: seq<Task>, id: string, b: PatchBody, now: int): (r: Result<Task, ApiError>)
    requires DocsValidAt(docs, now)
    ensures TitleRejected(b) ==> r == Err(TitleCannotBeEmpty)
    ensures !TitleRejected(b) && !ValidId(id) ==> r == Err(InvalidIdFormat)
    ensures r.Err? && r.error.ValidationFailed? ==>
      r.error.violations == UpdateViolations(ChangesFor(b, AllowedUpdates)) && r.error.violations != []
    ensures !TitleRejected(b) && ValidId(id) && UpdateViolations(ChangesFor(b, AllowedUpdates)) != [] ==>
      r == Err(ValidationFailed(UpdateViolations(ChangesFor(b, AllowedUpdates))))
    ensures r == Err(TaskNotFound) <==>
      !TitleRejected(b) && ValidId(id) && UpdateViolations(ChangesFor(b, AllowedUpdates)) == []
      && ObjectIdOf(id) !in IdSet(docs)
    ensures (!TitleRejected(b) && ValidId(id) && UpdateViolations(ChangesFor(b, AllowedUpdates)) == []
      && ObjectIdOf(id) in IdSet(docs)) ==> r.Ok?
    ensures r.Ok? ==> Lookup(docs, ObjectIdOf(id)).Some?
    ensures r.Ok? ==> r.value == Patched(docs[Lookup(docs, ObjectIdOf(id)).value], b).(updatedAt := now)
    ensures r.Ok? ==> StoredValid(r.value)
  {
    match UpdatesOf(b)
    case Err(e) => Err(e)
    case Ok(cs) =>
      if !ValidId(id) then Err(InvalidIdFormat)
      else if UpdateViolations(cs) != [] then Err(ValidationFailed(UpdateViolations(cs)))
      else
        match Lookup(docs, ObjectIdOf(id))
        case None => Err(TaskNotFound)
        case Some(i) =>
          PatchWrites(docs[i], b);
          match UpdateDocument(docs[i], cs, now)
          case Ok(t) => Ok(t)
          case Err(vs) => Err(ValidationFailed(vs))
  }

  /** A blank title is refused before the store is consulted: the reply is the same
      whatever the collection and the id. */
  lemma BlankTitleIgnoresStore(docs1: seq<Task>, docs2: seq<Task>, id1: string, id2: string, b: PatchBody, now: int)
    requires DocsValidAt(docs1, now) && DocsValidAt(docs2, now)
    requires TitleRejected(b)
    ensures PatchOutcome(docs1, id1, b, now) == PatchOutcome(docs2, id2, b, now) == Err(TitleCannotBeEmpty)
  {
  }

  // ---------------------------------------------------------------------------------
  // DELETE /api/tasks/:id

  /** The collection without its `i`-th document. */
  function RemoveAt(docs: seq<Task>, i: nat): (r: seq<Task>)
    requires i < |docs|
    ensures |r| == |docs| - 1
  {
    docs[..i] + docs[i + 1..]
  }

  /** Removing a document removes its identifier and keeps every other document. */
  lemma RemoveAtMeaning(docs: seq<Task>, i: nat)
    requires i < |docs| && UniqueIds(docs)
    ensures UniqueIds(RemoveAt(docs, i))
    ensures IdSet(RemoveAt(docs, i)) == IdSet(docs) - {docs[i].id}
    ensures forall j | 0 <= j < |docs| && j != i :: docs[j] in RemoveAt(docs, i)
    ensures forall t | t in RemoveAt(docs, i) :: t in docs
  {
    var r := RemoveAt(docs, i);
    assert forall j | 0 <= j < i :: r[j] == docs[j];
    assert forall j | i < j < |docs| :: r[j - 1] == docs[j];
    forall x | x in IdSet(docs) - {docs[i].id} ensures x in IdSet(r) {
      var j :| 0 <= j < |docs| && docs[j].id == x;
      if j < i { assert r[j].id == x; } else { assert r[j - 1].id == x; }
    }
  }

  // ---------------------------------------------------------------------------------
  // POST /api/tasks/bulk/complete

  /** The `$in` list once every element is cast to an ObjectId. */
  function CastIds(ids: seq<string>): seq<string> {
    seq(|ids|, k requires 0 <= k < |ids| => ObjectIdOf(ids[k]))
  }

  /** What `updateMany({ _id: { $in: ids } }, { completed: true })` makes of a matched
      document, `timestamps` refreshing its `updatedAt`. */
  function MarkCompleted(t: Task, now: int): Task {
    t.(completed := true, updatedAt := now)
  }

  /** The collection after `updateMany`: listed documents marked, the others kept. */
  function CompleteListed(docs: seq<Task>, ids: seq<string>, now: int): (r: seq<Task>)
    ensures |r| == |docs|
    ensures forall i | 0 <= i < |docs| ::
      r[i] == (if docs[i].id in ids then MarkCompleted(docs[i], now) else docs[i])
  {
    if docs == [] then []
    else
      [if docs[0].id in ids then MarkCompleted(docs[0], now) else docs[0]]
        + CompleteListed(docs[1..], ids, now)
  }

  /** Marking documents keeps their identifiers and the schema's guarantees. */
  lemma CompleteListedKeepsValid(docs: seq<Task>, ids: seq<string>, clock: int, now: int)
    requires UniqueIds(docs) && DocsValidAt(docs, clock) && clock <= now
    ensures UniqueIds(CompleteListed(docs, ids, now))
    ensures DocsValidAt(CompleteListed(docs, ids, now), now)
    ensures forall i | 0 <= i < |docs| :: CompleteListed(docs, ids, now)[i].id == docs[i].id
  {
    var r := CompleteListed(docs, ids, now);
    forall i | 0 <= i < |docs| ensures r[i].id == docs[i].id && StoredValid(r[i]) && r[i].updatedAt <= now {
      assert StoredValid(docs[i]) && docs[i].updatedAt <= clock;
    }
  }

  /** `modifiedCount`: the matched documents the update actually changes. Every listed
      open document is among them, and only listed documents are. */
  function ModifiedCount(docs: seq<Task>, ids: seq<string>, now: int): (n: nat)
    ensures Count(docs, (t: Task) => t.id in ids && !t.completed) <= n
    ensures n <= Count(docs, (t: Task) => t.id in ids)
  {
    CountMonotonic(docs, (t: Task) => t.id in ids && !t.completed, (t: Task) => t.id in ids && MarkCompleted(t, now) != t);
    CountMonotonic(docs, (t: Task) => t.id in ids && MarkCompleted(t, now) != t, (t: Task) => t.id in ids);
    Count(docs, (t: Task) => t.id in ids && MarkCompleted(t, now) != t)
  }

  /** The distinct listed identifiers that belong to a stored document. */
  function ListedExisting(docs: seq<Task>, ids: seq<string>): set<string> {
    (set k | 0 <= k < |ids| :: ids[k]) * IdSet(docs)
  }

  /** With distinct identifiers, the documents whose id is listed are as many as the
      distinct listed ids that exist. */
  lemma {:induction false} CountListed(docs: seq<Task>, ids: seq<string>)
    requires UniqueIds(docs)
    ensures Count(docs, (t: Task) => t.id in ids) == |ListedExisting(docs, ids)|
  {
    if docs != [] {
      var rest := docs[1..];
      UniqueIdsTail(docs);
      CountListed(rest, ids);
      ListedExistingCons(docs, ids);
      assert Count(docs, (t: Task) => t.id in ids)
          == (if docs[0].id in ids then 1 else 0) + Count(rest, (t: Task) => t.id in ids);
    }
  }

  /** The tail of a collection with distinct identifiers has distinct identifiers, none of
      them the head's. */
  lemma UniqueIdsTail(docs: seq<Task>)
    requires docs != [] && UniqueIds(docs)
    ensures UniqueIds(docs[1..])
    ensures docs[0].id !in IdSet(docs[1..])
  {
    var rest := docs[1..];
    forall i, j | 0 <= i < |rest| && 0 <= j < |rest| && i != j ensures rest[i].id != rest[j].id {
      assert rest[i] == docs[i + 1] && rest[j] == docs[j + 1];
    }
  }

  /** A collection valid at one time is valid at any later time. */
  lemma DocsValidLater(docs: seq<Task>, clock: int, now: int)
    requires DocsValidAt(docs, clock) && clock <= now
    ensures DocsValidAt(docs, now)
  {
  }

  /** Appending a document adds exactly its id. */
  lemma IdSetSnoc(docs: seq<Task>, t: Task)
    ensures IdSet(docs + [t]) == IdSet(docs) + {t.id}
  {
    var r := docs + [t];
    assert r[|docs|] == t;
    forall x | x in IdSet(r) ensures x in IdSet(docs) + {t.id} {
      var i :| 0 <= i < |r| && r[i].id == x;
      if i < |docs| { assert docs[i].id == x; }
    }
    forall x | x in IdSet(docs) ensures x in IdSet(r) {
      var i :| 0 <= i < |docs| && docs[i].id == x;
      assert r[i].id == x;
    }
  }

  lemma IdSetCons(docs: seq<Task>)
    requires docs != []
    ensures IdSet(docs) == {docs[0].id} + IdSet(docs[1..])
  {
    var rest := docs[1..];
    forall x | x in IdSet(docs) ensures x in {docs[0].id} + IdSet(rest) {
      var i :| 0 <= i < |docs| && docs[i].id == x;
      if i > 0 { assert rest[i - 1].id == x; }
    }
    forall x | x in IdSet(rest) ensures x in IdSet(docs) {
      var i :| 0 <= i < |rest| && rest[i].id == x;
      assert docs[i + 1].id == x;
    }
  }

  /** The listed ids that exist gain the head's id exactly when it is listed. */
  lemma ListedExistingCons(docs: seq<Task>, ids: seq<string>)
    requires docs != [] && UniqueIds(docs)
    ensures docs[0].id !in ListedExisting(docs[1..], ids)
    ensures ListedExisting(docs, ids)
         == ListedExisting(docs[1..], ids) + (if docs[0].id in ids then {docs[0].id} else {})
  {
    UniqueIdsTail(docs);
    IdSetCons(docs);
    var listed := set k | 0 <= k < |ids| :: ids[k];
    assert docs[0].id in ids <==> docs[0].id in listed;
  }

  /** `modifiedCount` never exceeds the number of distinct listed ids that exist. */
  lemma ModifiedAtMostListed(docs: seq<Task>, ids: seq<string>, now: int)
    requires UniqueIds(docs)
    ensures ModifiedCount(docs, ids, now) <= |ListedExisting(docs, ids)|
  {
    CountMonotonic(docs, (t: Task) => t.id in ids && MarkCompleted(t, now) != t, (t: Task) => t.id in ids);
    CountListed(docs, ids);
  }

  /** The number of positions at which two collections of the same length hold
      different documents. */
  function ChangedCount(before: seq<Task>, after: seq<Task>): nat
    requires |before| == |after|
  {
    if before == [] then 0
    else (if after[0] != before[0] then 1 else 0) + ChangedCount(before[1..], after[1..])
  }

  /** `modifiedCount` is the number of documents the update actually changed. */
  lemma {:induction false} ModifiedCountIsChanged(docs: seq<Task>, ids: seq<string>, now: int)
    ensures ModifiedCount(docs, ids, now) == ChangedCount(docs, CompleteListed(docs, ids, now))
  {
    if docs != [] {
      ModifiedCountIsChanged(docs[1..], ids, now);
      assert CompleteListed(docs, ids, now)[1..] == CompleteListed(docs[1..], ids, now);
    }
  }

  // ---------------------------------------------------------------------------------
  // DELETE /api/tasks/bulk/completed

  predicate IsCompleted(t: Task) { t.completed }
  predicate IsOpen(t: Task) { !t.completed }

  /** `deleteMany({ completed: true })` leaves exactly the incomplete documents, in order,
      and deletes as many as were completed. */
  lemma BulkDeleteMeaning(docs: seq<Task>)
    ensures forall t | t in Select(docs, IsOpen) :: !t.completed
    ensures forall t | t in docs && !t.completed :: t in Select(docs, IsOpen)
    ensures IsSubsequence(Select(docs, IsOpen), docs)
    ensures |Select(docs, IsOpen)| + Count(docs, IsCompleted) == |docs|
  {
    SelectIsSubsequence(docs, IsOpen);
    CountSplits(docs, IsCompleted, IsOpen);
  }

  /** A selection from a collection with distinct identifiers has distinct identifiers. */
  lemma {:induction false} SelectKeepsUniqueIds(docs: seq<Task>, keep: Task -> bool)
    requires UniqueIds(docs)
    ensures UniqueIds(Select(docs, keep))
  {
    if docs != [] {
      var rest := docs[1..];
      assert UniqueIds(rest) by {
        forall i, j | 0 <= i < |rest| && 0 <= j < |rest| && i != j ensures rest[i].id != rest[j].id {
          assert rest[i] == docs[i + 1] && rest[j] == docs[j + 1];
        }
      }
      SelectKeepsUniqueIds(rest, keep);
      var s := Select(rest, keep);
      if keep(docs[0]) {
        forall k | 0 <= k < |s| ensures s[k].id != docs[0].id {
          var m :| 0 <= m < |rest| && rest[m] == s[k];
          assert docs[m + 1] == s[k];
        }
        var r := [docs[0]] + s;
        forall i, j | 0 <= i < |r| && 0 <= j < |r| && i != j ensures r[i].id != r[j].id {
          if i > 0 && j > 0 { assert r[i] == s[i - 1] && r[j] == s[j - 1]; }
          else if i == 0 { assert r[j] == s[j - 1]; }
          else { assert r[i] == s[i - 1]; }
        }
      }
    }
  }

  // ---------------------------------------------------------------------------------
  // The store

  /** Replacing a document by a valid one with the same identifier keeps the collection
      valid and every position's identifier. */
  lemma ReplaceKeepsValid(docs: seq<Task>, i: nat, t: Task, clock: int, now: int)
    requires i < |docs| && UniqueIds(docs) && DocsValidAt(docs, clock) && clock <= now
    requires StoredValid(t) && t.updatedAt <= now && t.id == docs[i].id
    ensures UniqueIds(docs[i := t]) && DocsValidAt(docs[i := t], now)
    ensures forall j | 0 <= j < |docs| :: docs[i := t][j].id == docs[j].id
  {
    var r := docs[i := t];
    forall j | 0 <= j < |docs| ensures r[j].id == docs[j].id && StoredValid(r[j]) && r[j].updatedAt <= now {
      if j != i { assert r[j] == docs[j]; }
    }
  }

  /** Adding a valid document whose identifier was never issued keeps the collection
      valid and every identifier in it issued. */
  lemma AppendKeepsValid(docs: seq<Task>, issued: set<string>, t: Task, clock: int, now: int)
    requires UniqueIds(docs) && DocsValidAt(docs, clock) && clock <= now
    requires forall i | 0 <= i < |docs| :: docs[i].id in issued && CanonicalId(docs[i].id)
    requires StoredValid(t) && t.updatedAt <= now && t.id !in issued && CanonicalId(t.id)
    ensures UniqueIds(docs + [t]) && DocsValidAt(docs + [t], now)
    ensures forall i | 0 <= i < |docs + [t]| :: (docs + [t])[i].id in issued + {t.id} && CanonicalId((docs + [t])[i].id)
  {
    var r := docs + [t];
    forall i | 0 <= i < |docs| ensures r[i] == docs[i] && r[i].id != t.id {
      assert docs[i].id in issued;
    }
  }

  /** The task collection. `issued` holds every identifier ever handed out and `clock`
      the latest time a handler ran; both exist for the proof only. */
  class TaskStore {
    var docs: seq<Task>
    ghost var issued: set<string>
    ghost var clock: int

    ghost predicate Valid()
      reads this
    {
      && UniqueIds(docs)
      && DocsValidAt(docs, clock)
      && (forall i | 0 <= i < |docs| :: docs[i].id in issued && CanonicalId(docs[i].id))
    }

    /** An empty collection. */
    constructor(now: int)
      ensures Valid() && docs == [] && issued == {} && clock == now
    {
      docs := [];
      issued := {};
      clock := now;
    }

    /** `GET /:id`. */
    method Get(id: string) returns (r: Result<Task, ApiError>)
      ensures !ValidId(id) ==> r == Err(InvalidIdFormat)
      ensures ValidId(id) && ObjectIdOf(id) !in IdSet(docs) ==> r == Err(TaskNotFound)
      ensures ValidId(id) && ObjectIdOf(id) in IdSet(docs) ==>
        r.Ok? && r.value in docs && r.value.id == ObjectIdOf(id)
    {
      if !ValidId(id) {
        return Err(InvalidIdFormat);
      }
      match Lookup(docs, ObjectIdOf(id)) {
        case None => r := Err(TaskNotFound);
        case Some(i) => r := Ok(docs[i]);
      }
    }

    /** `POST /` at time `now`; the database generates `freshId`, a new ObjectId, which
        it writes in lower case. */
    method Create(b: CreateBody, now: int, freshId: string) returns (r: Result<Task, ApiError>)
      requires Valid() && clock <= now
      requires CanonicalId(freshId) && freshId !in issued
      modifies this
      ensures Valid()
      ensures r == CreateOutcome(b, freshId, now)
      ensures r.Ok? ==> docs == old(docs) + [r.value]
      ensures r.Err? ==> docs == old(docs)
      ensures clock == now && issued == old(issued) + (if r.Ok? then {freshId} else {})
    {
      clock := now;
      r := CreateOutcome(b, freshId, now);
      if r.Ok? {
        AppendKeepsValid(docs, issued, r.value, old(clock), now);
        docs := docs + [r.value];
        issued := issued + {freshId};
      }
    }

    /** `PATCH /:id` at time `now`: the matching document is replaced by its patched
        version, or nothing changes. */
    method Patch(id: string, b: PatchBody, now: int) returns (r: Result<Task, ApiError>)
      requires Valid() && clock <= now
      modifies this
      ensures Valid()
      ensures r == PatchOutcome(old(docs), id, b, now)
      ensures r.Ok? ==> docs == old(docs)[Lookup(old(docs), ObjectIdOf(id)).value := r.value]
      ensures r.Err? ==> docs == old(docs)
      ensures clock == now && issued == old(issued)
    {
      DocsValidLater(docs, clock, now);
      clock := now;
      var updates := CollectUpdates(b);
      if updates.Err? {
        return Err(updates.error);
      }
      if !ValidId(id) {
        return Err(InvalidIdFormat);
      }
      var violations := UpdateViolations(updates.value);
      if violations != [] {
        return Err(ValidationFailed(violations));
      }
      match Lookup(docs, ObjectIdOf(id)) {
        case None =>
          r := Err(TaskNotFound);
        case Some(i) =>
          var written := UpdateDocument(docs[i], updates.value, now);
          r := Ok(written.value);
          ReplaceKeepsValid(docs, i, written.value, old(clock), now);
          docs := docs[i := written.value];
      }
    }

    /** `DELETE /:id`: the matching document is removed and echoed. */
    method Delete(id: string) returns (r: Result<Task, ApiError>)
      requires Valid()
      modifies this
      ensures Valid()
      ensures !ValidId(id) ==> r == Err(InvalidIdFormat)
      ensures ValidId(id) && ObjectIdOf(id) !in IdSet(old(docs)) ==> r == Err(TaskNotFound)
      ensures ValidId(id) && ObjectIdOf(id) in IdSet(old(docs)) ==> r.Ok?
      ensures r.Err? ==> docs == old(docs)
      ensures r.Ok? ==> Lookup(old(docs), ObjectIdOf(id)).Some?
      ensures r.Ok? ==> r.value == old(docs)[Lookup(old(docs), ObjectIdOf(id)).value]
      ensures r.Ok? ==> docs == RemoveAt(old(docs), Lookup(old(docs), ObjectIdOf(id)).value)
      ensures r.Ok? ==> IdSet(docs) == IdSet(old(docs)) - {ObjectIdOf(id)}
      ensures clock == old(clock) && issued == old(issued)
    {
      if !ValidId(id) {
        return Err(InvalidIdFormat);
      }
      match Lookup(docs, ObjectIdOf(id)) {
        case None =>
          r := Err(TaskNotFound);
        case Some(i) =>
          r := Ok(docs[i]);
          RemoveAtMeaning(docs, i);
          docs := RemoveAt(docs, i);
      }
    }

    /** `POST /bulk/complete` at time `now`; an id that does not cast to an ObjectId makes
        the update throw, which this handler reports as a server error. */
    method BulkComplete(taskIds: Option<seq<string>>, now: int) returns (r: Result<nat, ApiError>)
      requires Valid() && clock <= now
      modifies this
      ensures Valid()
      ensures taskIds.None? || taskIds.value == [] ==> r == Err(TaskIdsRequired)
      ensures taskIds.Some? && taskIds.value != [] && (exists k | 0 <= k < |taskIds.value| :: !ValidId(taskIds.value[k]))
        ==> r == Err(ServerError("Failed to complete tasks"))
      ensures r.Err? ==> docs == old(docs)
      ensures r.Ok? ==> docs == CompleteListed(old(docs), CastIds(taskIds.value), now)
      ensures r.Ok? ==> r.value == ModifiedCount(old(docs), CastIds(taskIds.value), now)
      ensures r.Ok? ==> r.value <= |ListedExisting(old(docs), CastIds(taskIds.value))|
      ensures r.Ok? ==> r.value == ChangedCount(old(docs), docs)
      ensures clock == now && issued == old(issued)
    {
      clock := now;
      if taskIds.None? || taskIds.value == [] {
        return Err(TaskIdsRequired);
      }
      if exists k | 0 <= k < |taskIds.value| :: !ValidId(taskIds.value[k]) {
        return Err(ServerError("Failed to complete tasks"));
      }
      var ids := CastIds(taskIds.value);
      ModifiedAtMostListed(docs, ids, now);
      ModifiedCountIsChanged(docs, ids, now);
      CompleteListedKeepsValid(docs, ids, clock, now);
      r := Ok(ModifiedCount(docs, ids, now));
      docs := CompleteListed(docs, ids, now);
    }

    /** `DELETE /bulk/completed`: every completed document is removed. */
    method BulkDeleteCompleted() returns (deletedCount: nat)
      requires Valid()
      modifies this
      ensures Valid()
      ensures docs == Select(old(docs), IsOpen)
      ensures deletedCount == Count(old(docs), IsCompleted)
      ensures clock == old(clock) && issued == old(issued)
    {
      deletedCount := Count(docs, IsCompleted);
      SelectKeepsUniqueIds(docs, IsOpen);
      docs := Select(docs, IsOpen);
    }
  }

  /** A create followed by the delete of what it stored: the id is issued when the
      create succeeds, and it is not stored afterwards either way. */
  method CreateThenDelete(store: TaskStore, b: CreateBody, now: int, id: string)
    returns (created: Result<Task, ApiError>)
    requires store.Valid() && store.clock <= now
    requires CanonicalId(id) && id !in store.issued
    modifies store
    ensures store.Valid() && store.clock == now
    ensures created == CreateOutcome(b, id, now)
    ensures store.issued == old(store.issued) + (if created.Ok? then {id} else {})
    ensures id !in IdSet(store.docs)
  {
    created := store.Create(b, now, id);
    if created.Ok? {
      IdSetSnoc(old(store.docs), created.value);
      var _ := store.Delete(id);
    }
  }

  /** Requests one after the other: a create, the delete of what it stored, and a second
      create at a later time under another fresh id. The deleted id stays issued, so it
      is never handed out again, and it is no longer stored. */
  method CreateDeleteCreate(store: TaskStore, b: CreateBody, t1: int, t2: int, id1: string, id2: string)
    returns (first: Result<Task, ApiError>, second: Result<Task, ApiError>)
    requires store.Valid() && store.clock <= t1 <= t2
    requires CanonicalId(id1) && CanonicalId(id2) && id1 != id2
    requires id1 !in store.issued && id2 !in store.issued
    modifies store
    ensures store.Valid() && store.clock == t2
    ensures first == CreateOutcome(b, id1, t1) && second == CreateOutcome(b, id2, t2)
    ensures first.Ok? ==> id1 in store.issued
    ensures id1 !in IdSet(store.docs)
  {
    first := CreateThenDelete(store, b, t1, id1);
    var before := store.docs;
    second := store.Create(b, t2, id2);
    if second.Ok? {
      IdSetSnoc(before, second.value);
    }
  }

  /** Reading an id and reading it in upper case give the same reply: both find the
      stored document whose identifier is the cast of the id. */
  method GetIgnoresCase(store: TaskStore, id: string)
    returns (asGiven: Result<Task, ApiError>, upperCased: Result<Task, ApiError>)
    requires store.Valid()
    ensures asGiven == upperCased
    ensures ValidId(id) && ObjectIdOf(id) in IdSet(store.docs) ==>
      upperCased.Ok? && upperCased.value.id == ObjectIdOf(id)
  {
    ObjectIdIgnoresCase(id);
    asGiven := store.Get(id);
    upperCased := store.Get(Upper(id));
    if asGiven.Ok? && upperCased.Ok? {
      var i :| 0 <= i < |store.docs| && store.docs[i] == asGiven.value;
      var j :| 0 <= j < |store.docs| && store.docs[j] == upperCased.value;
      assert store.docs[i].id == store.docs[j].id;
    }
  }

  /** After a successful delete, reading the same id answers 404. */
  method DeleteThenGet(store: TaskStore, id: string) returns (r: Result<Task, ApiError>)
    requires store.Valid()
    modifies store
    ensures r.Err?
    ensures r.error == TaskNotFound || r.error == InvalidIdFormat
  {
    var d := store.Delete(id);
    r := store.Get(id);
  }
}
