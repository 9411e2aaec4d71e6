# DayMate task manager, modelled in Dafny

DayMate is a small task manager. An Express server keeps tasks in a MongoDB
collection through a Mongoose schema, and a React client lists, adds, completes and
deletes them. Around the task list the client has a simulated sign-in, a theme
switch, a registration form, an account menu, a profile page, a help page and a
settings page. This project models both halves:

- **`TaskModel`** (`task_model.dfy`) is the task document. It covers the paths, the
  `trim` setters and the `required`/`maxlength`/`enum` validators with their
  messages. It also covers the defaults, `timestamps`, and updates run with
  `runValidators`.
- **`TaskQuery`** (`task_query.dfy`) is the list query: the filter built from the
  query string, the three sort objects, and the sorted, filtered result.
- **`TaskRoutes`** (`task_routes.dfy`) holds the route handlers as a `TaskStore`
  class over the collection. It covers get, create, patch (with the handler's loop
  over the allowed keys), delete, bulk complete and bulk delete. Each handler has its
  status codes and error texts.
- **`TasksPage`** and **`TaskItem`** (`tasks_page.dfy`, `task_item.dfy`) are the
  client's task page. They cover the cached list and the form, the requests the page
  sends, the search and status filter, the counters, and the overdue and priority
  display of one task.
- **`ThemeContext`** and **`AuthContext`** (`theme_context.dfy`, `auth_context.dfy`)
  are the two shared client states. The theme flag is mirrored into storage and the
  document. The simulated session is stored in local storage.
- **`RegisterForm`**, **`ProfileDropdown`**, **`ProfilePage`**, **`HelpSupport`** and
  **`SettingsPage`** are the remaining pages. They cover the form checks and the two
  regular expressions, the two different initials functions, the help search, and
  the settings record against the page's controls.
- **`Values`**, **`Sequences`** and **`JsText`** are support modules. They hold
  options and results, filtering and counting over sequences, and the JavaScript
  string operations the code uses: `trim` over the ECMAScript white-space set,
  `toLowerCase`/`toUpperCase`, `includes`, `split` on one character and `join`.

Conventions:

- Time is an integer parameter `now`. The server's clock is assumed never to step
  back. Each store method that writes a timestamp requires `clock <= now`, where
  `clock` is the time of the last write. `UpdateDocument` requires the document's
  `updatedAt <= now`. The collection invariant `DocsValidAt` says that no stored
  `updatedAt` lies after the clock. A stored document's `createdAt <= updatedAt`
  rests on this assumption.
- Lengths that a `maxlength` validator or the client's `.length` measures are counted
  in UTF-16 code units (`JsText.Length`): two for a character outside the Basic
  Multilingual Plane, one for any other.
- Fresh document identifiers (24 lower-case hexadecimal digits, as the database generates them) and session tokens are parameters.
- The answers of asynchronous requests are parameters too: a reply, or `None` for a
  failed request.

Sorting by `sortBy=priority` uses `{ priority: 1 }`, which compares the priority
names as strings. The order is therefore High, Low, Medium, although the comment
beside the code announces High, Medium, Low. The model follows the code
(`TaskQuery.PriorityNameOrder`).

## Model

| member | source | states |
|---|---|---|
| TaskModel.ParsePriority | server/models/Task.js:14-18 | the enum cast is defined exactly on "Low", "Medium" and "High", and gives back the name it was given |
| JsText.Length | server/models/Task.js:8 | the length `maxlength` measures lies between the number of characters and twice that number |
| JsText.LengthOfPlainText | server/models/Task.js:8 | on text without characters outside the Basic Multilingual Plane the measured length is the number of characters |
| TaskModel.NewDocument | server/models/Task.js:3-37 | `new Task(init).save()` succeeds exactly when the trimmed title is non-empty and at most 200 UTF-16 code units, the priority (default "Medium") is in the enum, and the trimmed category (default "General") and description (default "") are within 50 and 1000 code units; a success stores the trimmed values, `completed` false, both timestamps `now`, and satisfies the schema; a failure lists at least one violation |
| TaskModel.DefaultDocument | server/models/Task.js:10-34 | a document given only a title gets every schema default: not completed, Medium, "General", no due date, empty description |
| TaskModel.DefaultsWithin | server/models/Task.js:14-33 | the default priority is in the enum, and the default category and description are their own trim and within their bounds |
| TaskModel.ApplyChangesKeepsValid | server/models/Task.js:3-34 | an update whose validators pass keeps a document within the schema and keeps its id and timestamps |
| TaskModel.UpdateDocument | server/routes/tasks.js:104-108 | an update with `runValidators` fails exactly when some written path fails its validator, and reports those violations; otherwise the result is the changes applied to the document with `updatedAt` = now, satisfies the schema, and keeps id and `createdAt` |
| TaskQuery.ListTasks | server/routes/tasks.js:8-24 | the listed documents are exactly the stored ones matching the filter, with their multiplicities, sorted by the chosen sort object |
| TaskQuery.BuildFilter | server/routes/tasks.js:11-14 | `completed` is set exactly when the parameter is present, to whether it is "true"; priority and category are set exactly when non-empty, the category trimmed as the path's setter casts it |
| TaskQuery.Matches | server/routes/tasks.js:11-14 | defined as: the document equals every value the filter sets (its meaning is stated by `ListFilterMeaning`) |
| TaskQuery.ChooseSort | server/routes/tasks.js:17-22 | the priority sort exactly for `sortBy=priority`, the due-date sort exactly for `sortBy=dueDate`, newest first otherwise |
| TaskQuery.PaddedCategoryMatches | server/routes/tasks.js:14 | a stored "Work" task is found by `?category=%20Work%20` |
| TaskQuery.SortTasks | server/routes/tasks.js:24 | sorting is a permutation of its input |
| TaskQuery.SortTasksElements | server/routes/tasks.js:24 | every element of the sorted result is an element of its input |
| TaskQuery.SortTasksSorted | server/routes/tasks.js:17-24 | the sort result is ordered under the chosen sort object, newest first among equal keys |
| TaskQuery.InOrderTotal | server/routes/tasks.js:17-22 | any two documents are ordered one way or the other under each sort object |
| TaskQuery.InOrderTransitive | server/routes/tasks.js:17-22 | each sort order is transitive |
| TaskQuery.ListFilterMeaning | server/routes/tasks.js:11-14 | a document passes the filter iff it has `completed === (completed == 'true')` when that parameter is present, equals the priority when that is non-empty, and equals the trimmed category when that is non-empty |
| TaskQuery.PriorityNameOrder | server/routes/tasks.js:19-22 | the priority sort orders High before Low before Medium |
| TaskQuery.NoCompletedListsEmpty | server/routes/tasks.js:12 | `?completed=true` lists nothing when no stored task is completed |
| TaskRoutes.Status | server/routes/tasks.js:36-45 | 404 exactly for "Task not found", 500 exactly for the server failures, 400 for every other error |
| TaskRoutes.ValidId | server/routes/tasks.js:35-38 | defined as: exactly 24 hexadecimal digits in either case, the ids that cast to an ObjectId |
| TaskRoutes.ObjectIdOf | server/routes/tasks.js:35-38 | the cast of a valid id is an id as the server writes it (24 lower-case hexadecimal digits), and such an id casts to itself |
| TaskRoutes.ObjectIdIgnoresCase | server/routes/tasks.js:35-38 | an id and its upper-case spelling are both valid or both invalid, and cast to the same ObjectId |
| TaskRoutes.Details | server/routes/tasks.js:76-78 | the details list one message per failed validator, in order |
| TaskRoutes.Lookup | server/routes/tasks.js:35-38 | `findById` on a cast id finds a position holding the id, and finds none exactly when no stored document has it |
| TaskRoutes.OrDefault | server/routes/tasks.js:60-62 | `v \|\| d` is `v` when it is present, non-null and non-empty, and `d` otherwise |
| TaskRoutes.CreateOutcome | server/routes/tasks.js:50-82 | the reply is "Task title is required" exactly for a missing, null or blank title; its other failure is a non-empty validation failure; a success is a valid document with the fresh id and both timestamps `now` |
| TaskRoutes.CreateStores | server/routes/tasks.js:58-71 | an accepted create stores the trimmed title, not completed, `priority \|\| 'Medium'`, the trimmed `category \|\| 'General'`, the trimmed `description \|\| ''`, and the parsed due date when one is given |
| TaskRoutes.CreateValidation | server/routes/tasks.js:70-79 | with the title accepted, the create fails exactly when the trimmed title is over 200 UTF-16 code units, the priority is outside the enum, or the trimmed category or description is over its bound in code units |
| TaskRoutes.EmptyCategoryIsGeneral | server/routes/tasks.js:61 | an empty category is falsy and is stored as "General" |
| TaskRoutes.KeyChange | server/routes/tasks.js:92-100 | a key contributes at most one entry, and none exactly when it is absent from the body (or a null title, which the loop has already refused) |
| TaskRoutes.CollectUpdates | server/routes/tasks.js:91-102 | the loop over the allowed keys builds the update object of `UpdatesOf`, or stops with "Task title cannot be empty" |
| TaskRoutes.UpdatesOf | server/routes/tasks.js:91-102 | the update object is refused exactly for a null or blank title, with "Task title cannot be empty" |
| TaskRoutes.Patched | server/routes/tasks.js:104-108 | the reference patch keeps id and both timestamps, and a body with none of the six keys changes nothing |
| TaskRoutes.PatchChangesSplit | server/routes/tasks.js:87-102 | the update object lists the entries of title, completed, priority, category, dueDate and description in that order |
| TaskRoutes.WriteKey | server/routes/tasks.js:104-108 | writing one key's entry sets that field as the reference patch does and keeps the others |
| TaskRoutes.PatchWrites | server/routes/tasks.js:104-108 | writing the whole update object gives the reference patched document `Patched` |
| TaskRoutes.StepsPatch | server/routes/tasks.js:104-108 | writing the six keys one after the other is the reference patched document |
| TaskRoutes.ValidateKey | server/routes/tasks.js:120-122 | one key's entry passes its validators exactly when its value is acceptable for that path |
| TaskRoutes.PatchValidation | server/routes/tasks.js:104-122 | the update validators pass exactly when every present field is acceptable: trimmed title within 200 UTF-16 code units, priority in the enum, trimmed category and description within their bounds in code units |
| TaskRoutes.PatchOutcome | server/routes/tasks.js:85-126 | a blank title is refused first, then an id that is not an ObjectId, then failing validators, which answer "Validation failed" with exactly their messages; "Task not found" exactly when the id is valid, the update passes and no document has the id's ObjectId; when such a document exists the reply is a success: the reference patch of that document with `updatedAt` = now, which stays valid |
| TaskRoutes.BlankTitleIgnoresStore | server/routes/tasks.js:93-95 | a blank title gets the same 400 reply whatever the store and the id |
| TaskRoutes.RemoveAt | server/routes/tasks.js:131 | removing one document shortens the collection by one |
| TaskRoutes.RemoveAtMeaning | server/routes/tasks.js:131 | the removal keeps ids distinct, removes exactly that id, and keeps every other document |
| TaskRoutes.CompleteListed | server/routes/tasks.js:155-158 | `updateMany` marks completed, with `updatedAt` = now, exactly the documents whose id is listed, and keeps the rest |
| TaskRoutes.CompleteListedKeepsValid | server/routes/tasks.js:155-158 | bulk completion keeps ids, distinct ids and the schema's guarantees |
| TaskRoutes.CountListed | server/routes/tasks.js:155-163 | with distinct ids, the number of listed documents is the number of distinct listed ids that exist |
| TaskRoutes.ModifiedCount | server/routes/tasks.js:155-163 | `modifiedCount` counts every listed open document and only listed documents |
| TaskRoutes.ModifiedCountIsChanged | server/routes/tasks.js:155-163 | `modifiedCount` is the number of positions at which the completed collection differs from the one before |
| TaskRoutes.ModifiedAtMostListed | server/routes/tasks.js:155-163 | `modifiedCount` never exceeds the number of distinct listed ids that exist |
| TaskRoutes.BulkDeleteMeaning | server/routes/tasks.js:173-178 | `deleteMany({ completed: true })` keeps exactly the open documents in order, and kept plus deleted is the old size |
| TaskRoutes.SelectKeepsUniqueIds | server/routes/tasks.js:173 | a deletion keeps the remaining ids distinct |
| TaskRoutes.ReplaceKeepsValid | server/routes/tasks.js:104-108 | replacing a document by a valid one with the same id keeps the collection valid |
| TaskRoutes.AppendKeepsValid | server/routes/tasks.js:70-71 | saving a valid document under a never-issued ObjectId keeps ids distinct and the collection valid |
| TaskRoutes.TaskStore.constructor | server/models/Task.js:44 | the collection starts empty and valid |
| TaskRoutes.TaskStore.Get | server/routes/tasks.js:33-47 | 400 for an id that is not an ObjectId, 404 when no document has the id's ObjectId, otherwise the stored document with that ObjectId, in whatever case the id was written |
| TaskRoutes.TaskStore.Create | server/routes/tasks.js:50-82 | the reply is `CreateOutcome` under a fresh lower-case id; a success appends the document and issues its id, a failure stores nothing and issues nothing; the clock moves to `now` and the store stays valid |
| TaskRoutes.TaskStore.Patch | server/routes/tasks.js:85-126 | the reply is `PatchOutcome`; a success replaces that document in place, a failure changes nothing; no id is issued, the clock moves to `now` and the store stays valid |
| TaskRoutes.TaskStore.Delete | server/routes/tasks.js:129-145 | 400 for an invalid id and 404 when no document has its ObjectId, with nothing changed; otherwise the removed document is echoed and exactly that ObjectId leaves the store; clock and issued ids are kept |
| TaskRoutes.TaskStore.BulkComplete | server/routes/tasks.js:148-169 | 400 for a missing or empty list, 500 when an id does not cast; otherwise the documents whose ObjectId is listed, in any case, are completed and `modifiedCount` is returned: the number of documents changed, at most the number of listed ids that exist; no id is issued and the clock moves to `now` |
| TaskRoutes.TaskStore.BulkDeleteCompleted | server/routes/tasks.js:171-184 | the open documents remain in order, and `deletedCount` is the number of completed ones; clock and issued ids are kept |
| TaskRoutes.DeleteThenGet | server/routes/tasks.js:131-137 | reading an id right after deleting it never finds a document |
| TaskRoutes.GetIgnoresCase | server/routes/tasks.js:33-47 | reading an id and reading its upper-case spelling give the same reply, the stored document with that ObjectId when there is one |
| TaskRoutes.CreateThenDelete | server/routes/tasks.js:50-145 | a create followed by the delete of its document answers as `CreateOutcome` says, issues the id exactly when the create succeeds, and leaves the id unstored |
| TaskRoutes.CreateDeleteCreate | server/routes/tasks.js:50-145 | a create, the delete of its document and a later create answer as `CreateOutcome` says; the deleted id stays issued, is no longer stored, and the store stays valid |
| TaskItem.OverdueExclusions | client/src/components/TaskItem.jsx:4 | a completed task, a task without a due date and a task due exactly now are not overdue |
| TaskItem.IsOverdue | client/src/components/TaskItem.jsx:4 | defined as: a due date, not completed, and the due date strictly before `now` (its exclusions are `OverdueExclusions`) |
| TaskItem.PriorityColor | client/src/components/TaskItem.jsx:26-33 | "high" exactly for High, "medium" exactly for Medium, "low" for every other value |
| TaskItem.StoredPriorityColor | client/src/components/TaskItem.jsx:26-33 | every stored priority is shown in the class of its own lower-cased name |
| TaskItem.DueDateSuffix | client/src/components/TaskItem.jsx:61-71 | no date label without a due date; the " (Overdue)" suffix exactly for an overdue task with a due date |
| TasksPage.ReplaceById | client/src/pages/Tasks.jsx:57 | every cached task with the id is replaced by the server's copy, the others stay, the length is kept |
| TasksPage.RemoveById | client/src/pages/Tasks.jsx:66 | no task with the id remains, every other task remains, and the order is kept |
| TasksPage.RemoveAbsentId | client/src/pages/Tasks.jsx:66 | removing an id that is not cached leaves the cache as it is |
| TasksPage.CreatePayload | client/src/pages/Tasks.jsx:35-40 | the request has the trimmed title and category, the selected priority, `dueDate` null exactly for an empty date and the picked date otherwise, and no description |
| TasksPage.PayloadPassesTitleCheck | client/src/pages/Tasks.jsx:32-42 | a payload the page sends never trips the server's title check; the server either stores it or rejects it by the schema |
| TasksPage.BlankCategoryStoredAsGeneral | client/src/pages/Tasks.jsx:38 | a blank category in the form is stored by the server as "General" |
| TasksPage.FilteredTasks | client/src/pages/Tasks.jsx:73-82 | the listed tasks are the cached ones that match both the search and the status filter, in cache order |
| TasksPage.MatchesSearch | client/src/pages/Tasks.jsx:74-75 | defined as: the lower-cased title, or a non-empty lower-cased category, includes the lower-cased search term |
| TasksPage.MatchesFilter | client/src/pages/Tasks.jsx:77-79 | defined as: "all" keeps every task, "active" the open ones, "completed" the done ones, any other value none |
| TasksPage.EmptySearchMatchesAll | client/src/pages/Tasks.jsx:74 | the empty search matches every task |
| TasksPage.UnfilteredListsAll | client/src/pages/Tasks.jsx:73-82 | with no search and the "all" filter the whole cache is listed |
| TasksPage.UnknownFilterListsNothing | client/src/pages/Tasks.jsx:77-79 | a filter value other than all, active and completed lists nothing |
| TasksPage.Stats | client/src/pages/Tasks.jsx:84-89 | total is the cache size, completed and active count the done and the open tasks and add up to the total, overdue counts the tasks `TaskItem.IsOverdue` marks and is at most active |
| TasksPage.OverdueCountAgreesWithItems | client/src/pages/Tasks.jsx:88 | when the list is unfiltered (no search, filter "all"), the overdue counter equals the number of listed items that show the overdue mark |
| TasksPage.TasksPageState.constructor | client/src/pages/Tasks.jsx:6-13 | the page starts with an empty cache, an empty form with priority Medium, no search, filter "all" and loading |
| TasksPage.TasksPageState.LoadTasks | client/src/pages/Tasks.jsx:19-28 | a reply replaces the cache, a failure keeps it; loading ends either way |
| TasksPage.TasksPageState.AddTask | client/src/pages/Tasks.jsx:30-52 | nothing is sent for a blank title; otherwise the payload is sent, and a reply is put first in the cache and clears title, category and date |
| TasksPage.TasksPageState.ToggleTask | client/src/pages/Tasks.jsx:54-61 | the request asks for the opposite completion only, and the reply replaces the task by id |
| TasksPage.TasksPageState.RemoveTask | client/src/pages/Tasks.jsx:63-70 | a confirmed delete drops the id from the cache, a failed one changes nothing |
| TasksPage.ToggleRequestWritesCompleted | client/src/pages/Tasks.jsx:56 | the toggle request passes the title check and writes only `completed` |
| ThemeContext.ThemeName | client/src/context/ThemeContext.jsx:50-52 | "dark" exactly in dark mode, "light" exactly otherwise |
| ThemeContext.DataTheme | client/src/context/ThemeContext.jsx:23-32 | no `data-theme` attribute exactly in dark mode, "light" otherwise |
| ThemeContext.ThemeState.CurrentTheme | client/src/context/ThemeContext.jsx:50-52 | `getCurrentTheme` answers "dark" exactly in dark mode and "light" exactly otherwise |
| ThemeContext.ThemeState.constructor | client/src/context/ThemeContext.jsx:14-21 | the saved preference is used when there is one, and dark mode otherwise |
| ThemeContext.ThemeState.ApplyEffect | client/src/context/ThemeContext.jsx:23-32 | the effect makes storage and document follow the flag |
| ThemeContext.ThemeState.ToggleTheme | client/src/context/ThemeContext.jsx:34-36 | toggling flips the flag, and storage and document follow |
| ThemeContext.ThemeState.SetTheme | client/src/context/ThemeContext.jsx:38-48 | "dark" and "light" set the flag, "auto" takes the system preference, and any other value changes nothing |
| ThemeContext.ToggleTwice | client/src/context/ThemeContext.jsx:34-36 | toggling twice restores flag, storage and document |
| ThemeContext.SetThenRead | client/src/context/ThemeContext.jsx:38-52 | after `setTheme("dark")` or `setTheme("light")`, `getCurrentTheme` answers that name |
| AuthContext.LocalPart | client/src/context/AuthContext.jsx:38 | the local part is the longest prefix of the address without an "@": it has none, and it is the whole address or is followed by an "@" |
| AuthContext.SplitGivesLocalPart | client/src/context/AuthContext.jsx:38 | `email.split('@')[0]` is the local part |
| AuthContext.Capitalize | client/src/context/AuthContext.jsx:38 | the first character is upper-cased and the rest is kept |
| AuthContext.DerivedName | client/src/context/AuthContext.jsx:38 | the derived name is as long as the text before the first "@", with its first character upper-cased and the rest kept |
| AuthContext.AuthState.constructor | client/src/context/AuthContext.jsx:13-28 | the session is authenticated exactly when a non-empty token and user data are stored, and then the user is the stored one |
| AuthContext.AuthState.SignIn | client/src/context/AuthContext.jsx:43-47 | the token and user are stored and the session adopts the user |
| AuthContext.AuthState.Login | client/src/context/AuthContext.jsx:30-56 | an empty address or password fails with "Invalid credentials" and changes nothing; otherwise the session holds the user with the derived name |
| AuthContext.AuthState.Register | client/src/context/AuthContext.jsx:58-84 | an empty name, address or password fails with "Please fill all fields" and changes nothing; otherwise the session holds the user with the given name |
| AuthContext.AuthState.Logout | client/src/context/AuthContext.jsx:86-91 | storage is cleared and the session is signed out |
| AuthContext.LoginThenReload | client/src/context/AuthContext.jsx:18-47 | a session restored from what login stored is authenticated as the same user |
| RegisterForm.SimpleAddressMatches | client/src/pages/Register.jsx:72 | every local@domain.tld with non-empty, white-space-free parts matches `\S+@\S+\.\S+` |
| RegisterForm.NoAtNoMatch | client/src/pages/Register.jsx:72 | an address without "@" never matches |
| RegisterForm.EmailPattern | client/src/pages/Register.jsx:72 | defined as: somewhere in the address a non-white-space character, an "@", a non-empty run of non-white-space characters, a "." and a non-white-space character follow one another, which is where the unanchored `\S+@\S+\.\S+` finds a match |
| RegisterForm.PasswordPatternOneLine | client/src/pages/Register.jsx:80 | on a password without line terminators the lookaheads hold exactly when it has a lower-case letter, an upper-case letter and a digit |
| RegisterForm.NoDigitNoMatch | client/src/pages/Register.jsx:80 | a password without a digit never matches |
| RegisterForm.PasswordPattern | client/src/pages/Register.jsx:80 | defined as: from one position, lookaheads over non-line-terminators find a lower-case letter, an upper-case letter and a digit |
| RegisterForm.NameError | client/src/pages/Register.jsx:64-68 | no error exactly when the trimmed name has at least 2 UTF-16 code units; "Name is required" exactly for a blank name; "Name must be at least 2 characters" exactly for a trimmed name of one code unit |
| RegisterForm.AstralNameIsLongEnough | client/src/pages/Register.jsx:66 | a name of one emoji is two code units long and passes the check |
| RegisterForm.EmailError | client/src/pages/Register.jsx:70-74 | no error exactly for a non-empty address that matches the pattern; "Email is required" exactly for an empty one; "Please enter a valid email" exactly for a non-empty one that does not match |
| RegisterForm.PasswordError | client/src/pages/Register.jsx:76-82 | no error exactly when the untrimmed password has at least 6 UTF-16 code units and matches the pattern; "Password is required" exactly when empty, the too-short message exactly for 1 to 5 code units, the too-weak message exactly for a long enough password that does not match |
| RegisterForm.ConfirmError | client/src/pages/Register.jsx:84-88 | no error exactly when the confirmation is non-empty and equals the password; "Please confirm your password" exactly when it is empty; "Passwords do not match" exactly when it is non-empty and differs |
| RegisterForm.FormErrors | client/src/pages/Register.jsx:61-91 | defined as: the four checks' messages written into an empty object in field order (its meaning is `FormErrorsMeaning`) |
| RegisterForm.FormErrorsMeaning | client/src/pages/Register.jsx:61-91 | the error object has a key exactly for each failing field, holding that field's message, never `general`; it is empty exactly when the form is valid |
| RegisterForm.ValidFormHasAllFields | client/src/pages/Register.jsx:97-102 | a valid form has a non-empty name, address and password, so `register` accepts it |
| RegisterForm.RegisterFormState.constructor | client/src/pages/Register.jsx:9-16 | four empty fields and no errors |
| RegisterForm.RegisterFormState.HandleChange | client/src/pages/Register.jsx:46-59 | the field takes the value; its message is cleared only when it was non-empty |
| RegisterForm.RegisterFormState.ValidateForm | client/src/pages/Register.jsx:61-92 | the errors become the error object of the checks, and the answer is whether the form is valid |
| RegisterForm.RegisterFormState.HandleSubmit | client/src/pages/Register.jsx:94-115 | the form is submitted exactly when valid; an invalid form leaves the session alone, a valid one signs the new user in |
| ProfileDropdown.FirstChars | client/src/components/ProfileDropdown.jsx:70-73 | one character per non-empty word, none for an empty one |
| ProfileDropdown.Words | client/src/components/ProfileDropdown.jsx:60-63 | the words are non-empty and contain no space |
| ProfileDropdown.GetInitials | client/src/components/ProfileDropdown.jsx:58-75 | one or two characters, none an ASCII lower-case letter; "U" for a missing or blank name |
| ProfileDropdown.WordsOfJoin | client/src/components/ProfileDropdown.jsx:63 | a trimmed name written as space-separated pieces has exactly its non-empty pieces as words |
| ProfileDropdown.FirstWordStartsName | client/src/components/ProfileDropdown.jsx:60-64 | a trimmed, non-blank name has a first word, and it starts with the name's first character |
| ProfileDropdown.GetInitialsOfWords | client/src/components/ProfileDropdown.jsx:63-74 | the initials of a non-blank name are the upper-cased first characters of its first one or two words |
| ProfileDropdown.GetDisplayName | client/src/components/ProfileDropdown.jsx:77-82 | the trimmed name, or "User" when the name is missing or blank |
| ProfileDropdown.GetDisplayEmail | client/src/components/ProfileDropdown.jsx:84-89 | the trimmed address, or "No email" when it is missing or blank |
| ProfileDropdown.HandleLogout | client/src/components/ProfileDropdown.jsx:37-41 | after logout the menu is closed and shows "User", "No email" and "U" |
| ProfilePage.Initials | client/src/pages/Profile.jsx:62-70 | at most two characters, and "U" for a missing or empty name |
| ProfilePage.FirstCharsSkipsEmpty | client/src/pages/Profile.jsx:64-66 | the empty pieces of a split contribute no character |
| ProfilePage.InitialsOfNonEmptyPieces | client/src/pages/Profile.jsx:62-70 | the initials are the upper-cased first characters of the first two non-empty pieces between single spaces |
| ProfilePage.SameInitialsOnTrimmedNames | client/src/pages/Profile.jsx:62-70 | on a non-empty name with no white space at either end, the page and the account menu show the same initials |
| ProfilePage.SpacesHaveNoInitials | client/src/pages/Profile.jsx:64-67 | a name of spaces only yields no characters |
| ProfilePage.BlankNameDiffers | client/src/pages/Profile.jsx:63-69 | a name of spaces gets the empty initials on the page but "U" in the account menu |
| ProfilePage.ProfileState.constructor | client/src/pages/Profile.jsx:10-17 | the form starts from the user's name and address, an empty bio, "UTC", notifications on and the current theme |
| ProfilePage.ProfileState.HandleInputChange | client/src/pages/Profile.jsx:28-41 | the field takes the box state for a checkbox and the text otherwise; only the theme field switches the theme, to that name or, for "auto", to the system preference |
| HelpSupport.FilteredSections | client/src/pages/HelpSupport.jsx:125-131 | the found sections keep page order and are exactly those whose title, or some question or answer, mentions the query case-insensitively |
| HelpSupport.Mentions | client/src/pages/HelpSupport.jsx:126-130 | defined as: the lower-cased text includes the lower-cased query |
| HelpSupport.VisibleItems | client/src/pages/HelpSupport.jsx:198-202 | a section lists, in order, exactly the questions shown with no query or matching it |
| HelpSupport.RenderedSections | client/src/pages/HelpSupport.jsx:189-190 | a section is drawn exactly when it is found and is the selected one or a query is typed |
| HelpSupport.EmptyQueryKeepsAll | client/src/pages/HelpSupport.jsx:125-131 | with no query every section is found and every question is listed |
| HelpSupport.TitleOnlyMatchShowsNoItems | client/src/pages/HelpSupport.jsx:198-202 | a section found by its title only lists no questions under the query |
| HelpSupport.NoResultsMeaning | client/src/pages/HelpSupport.jsx:213 | the no-results notice shows exactly when a query is typed and no section mentions it |
| HelpSupport.RenderedMeaning | client/src/pages/HelpSupport.jsx:189-190 | with a query all found sections are drawn; without one exactly the selected section is |
| HelpSupport.EmptyContact | client/src/pages/HelpSupport.jsx:6-11 | the contact form has exactly name, email, subject and message, all empty |
| HelpSupport.HelpState.constructor | client/src/pages/HelpSupport.jsx:5-12 | the page starts on "getting-started" with an empty contact form and no query |
| HelpSupport.HelpState.SelectSection | client/src/pages/HelpSupport.jsx:161 | a click selects that section and changes nothing else |
| HelpSupport.HelpState.SetSearchQuery | client/src/pages/HelpSupport.jsx:148 | typing sets the query and changes nothing else |
| HelpSupport.HelpState.HandleInputChange | client/src/pages/HelpSupport.jsx:22-25 | exactly the named contact field takes the value |
| HelpSupport.HelpState.HandleContactSubmit | client/src/pages/HelpSupport.jsx:14-20 | the message handed on is the form as it was, and the form is emptied |
| SettingsPage.ResetIsInitial | client/src/pages/Settings.jsx:52-75 | the record the reset writes is the initial record |
| SettingsPage.InitialSettings | client/src/pages/Settings.jsx:7-35 | defined as: the eighteen initial settings (its keys are `InitialKeys`) |
| SettingsPage.ResetSettings | client/src/pages/Settings.jsx:52-75 | defined as: the record the reset writes (equal to the initial one by `ResetIsInitial`) |
| SettingsPage.AppearanceDefaults | client/src/pages/Settings.jsx:82-118 | each Appearance default is one of its list's options or a switch state |
| SettingsPage.AppearanceIds | client/src/pages/Settings.jsx:82-118 | the Appearance controls edit theme, language, fontSize and animations |
| SettingsPage.NotificationsDefaults | client/src/pages/Settings.jsx:125-146 | each Notifications default is a switch state |
| SettingsPage.NotificationsIds | client/src/pages/Settings.jsx:125-146 | the Notifications controls edit the four notification switches |
| SettingsPage.PrivacyDefaults | client/src/pages/Settings.jsx:152-172 | each Privacy default fits its control |
| SettingsPage.PrivacyIds | client/src/pages/Settings.jsx:152-172 | the Privacy controls edit profileVisibility, dataCollection and analytics |
| SettingsPage.TaskManagementDefaults | client/src/pages/Settings.jsx:178-210 | each Task Management default fits its control |
| SettingsPage.TaskManagementIds | client/src/pages/Settings.jsx:178-210 | the Task Management controls edit defaultPriority, autoArchive, showCompleted and sortBy |
| SettingsPage.AdvancedDefaults | client/src/pages/Settings.jsx:216-231 | each Advanced default is a switch state |
| SettingsPage.AdvancedIds | client/src/pages/Settings.jsx:216-231 | the Advanced controls edit experimentalFeatures, debugMode and autoSave |
| SettingsPage.DefaultsConform | client/src/pages/Settings.jsx:7-35 | every control on the page finds in the initial record a value it can show |
| SettingsPage.InitialKeys | client/src/pages/Settings.jsx:7-35 | the initial record has exactly the eighteen settings of the five sections |
| SettingsPage.ControlledIdsBySection | client/src/pages/Settings.jsx:77-234 | the controlled ids are those of the five sections together |
| SettingsPage.AllControlledIds | client/src/pages/Settings.jsx:77-234 | the page's controls edit exactly the eighteen settings |
| SettingsPage.RecordKeysAreControlled | client/src/pages/Settings.jsx:7-35 | the record has one key per control on the page, and no other |
| SettingsPage.ChangeKeepsConformance | client/src/pages/Settings.jsx:274-287 | a change a control can make keeps every control showable |
| SettingsPage.SettingsState.constructor | client/src/pages/Settings.jsx:7-37 | the page starts with the initial record on the "appearance" section, and every control can show its value |
| SettingsPage.SettingsState.HandleSettingChange | client/src/pages/Settings.jsx:39-44 | exactly the named setting takes the new value |
| SettingsPage.SettingsState.HandleResetSettings | client/src/pages/Settings.jsx:52-75 | a confirmed reset restores the initial record; a refused one changes nothing |
| SettingsPage.SettingsState.SelectSection | client/src/pages/Settings.jsx:250 | a click selects that section and keeps the record |

## Left out

- The collection is a sequence of documents with distinct ids in insertion order. Mongo's natural order and its storage engine are not modelled.
- ObjectIds are exactly 24 hexadecimal digits, read whatever the case of their letters and stored in lower case. The 12-byte strings and other forms Mongoose also casts are not modelled.
- Dates are integers. Parsing and formatting date strings is left out (`new Date(...)`, `toLocaleDateString`, "Today" and "Tomorrow").
- Request bodies are typed. A JSON value of the wrong type (a number for a title, a string for `completed`) is not modelled.
- TaskRoutes.KeyChange: a PATCH that sends `null` for priority, completed, category or description is modelled as absent. The source would write `null`.
- TaskRoutes.Details: the messages follow the schema's path order. Mongoose's own order of `error.errors` is not modelled.
- The `message` strings of the bulk replies are left out, since they only echo the counts that are modelled. Server-side logging is left out too.
- TaskRoutes.TaskStore.BulkComplete: a database failure other than a bad id is not modelled. Neither are failures of the other handlers' database calls.
- The mapping of `_id` to the `id` the client reads, and the client's HTTP wrapper, are not part of this model.
- Asynchronous interleaving is left out. Each handler runs to completion, as does each client request with its reply. The transient `isLoading` flags are left out.
- The browser's `required` and `type="email"` checks run before `handleSubmit`. They are not modelled.
- Register's own copy of the theme flag is not modelled. It duplicates `ThemeContext`.
- Register's general error message is not modelled, because `register` cannot fail on a form that passed `validateForm`.
- Profile's effect that re-reads the theme is not modelled. Neither is `handleSave`, which only writes to storage after a timer.
- ProfileDropdown.FirstChars: `charAt(0)` answers one UTF-16 code unit, so a word that starts outside the Basic Multilingual Plane contributes half a surrogate pair in the source. The model contributes the whole character, since a Dafny `char` is a whole Unicode scalar value.
- ProfileDropdown.GetInitials: the same `charAt(0)` difference as `FirstChars`, for a first or second word that starts outside the Basic Multilingual Plane.
- ProfilePage.Initials: the same `charAt(0)` difference, and `slice(0, 2)` counts code units in the source but characters in the model. The two agree on text within the Basic Multilingual Plane.
- A server clock that steps back is not modelled: every timestamped write requires `clock <= now`.
- JsText.Lower: `toLowerCase` and `toUpperCase` map ASCII letters only. Other scripts' case mappings are not modelled, so `Mentions` and `MatchesSearch` are exact only on ASCII text.
- The help page's sections and the settings page's labels are static content. They enter as parameters or constants. Icons, layout and navigation are left out.
- The settings save is not modelled, since it only writes a log line and shows an alert.
