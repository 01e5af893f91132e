# Lab-6 to-do apps: task bookkeeping in Dafny

The repository holds several small to-do list applications:

- a Flask server that keeps its tasks in memory (`8s/app8s.py`) and the page that drives it (`8s/static/js/app.js`);
- a Flask server over SQLite (`1s/database.py`, with the pydantic schemas of `1s/models.py`) and its page (`1s/static/js/app.js`);
- a FastAPI server with a plain list (`10/main.py`) and its page (`10/static/app.js`);
- a demo API with a greeting and a calculator (`8/main.py`).

This project models the bookkeeping under the HTTP and DOM layers of all of them and proves what each operation promises.

The servers are classes whose fields are the task list and the id counter:

- `FlaskTaskStore.Store`
- `FastApiTaskStore.Store`
- `TaskDatabase.Database`, where the SQLite table is modelled as a sequence of rows in id order.

Each handler is a method whose `ensures` gives the answer and the new state for every branch. Those branches are 404, 415 and 400, success, and "nothing qualifies". Each store's `Valid()` keeps ids strictly increasing along the list and every id below the counter. `FlaskTaskStore.Store` also keeps a ghost set `issued` of every id handed out, all below the counter, with every listed id in it. That set is what shows that a create after a delete-all still gets a fresh id.

The request schemas are predicates in `TaskSchemas`. A JSON key there is a `Field`: absent, `null`, or given. That is the distinction pydantic's `exclude_unset` draws.

The pages are modelled as follows:

- `DatabaseClient.Page` and `CachedClient.Page` are classes over the page's globals.
- `PatchClient.DisplayTasks` sorts the page's `array` in place.
- The form logic the two Flask pages share word for word is `TaskForm`.
- Every server answer, every `confirm`/`prompt` outcome and the clock are inputs. A failed request is `None`.

Display orders use one stable insertion sort, `Ordering.SortBy`, over a two-level `Rank` key. Stable is what JavaScript's `Array.prototype.sort` is.

On a failed load or search, the 1s page stays on its loading view. The page declares `showError` twice. The one-argument calls reach the two-argument declaration, which looks for an element whose id is the message, finds none, and changes nothing. `DatabaseClient.Page.LoadTasks` and `DatabaseClient.Page.SearchTasks` state this.

## Model

| member | source | states |
|---|---|---|
| Text.Trim | 1s/static/js/app.js:152-153 | `trim()`: a contiguous slice of the input with only white space cut off at both ends, and none left at either end |
| Text.TrimEmptyIffBlank | 1s/database.py:203 | `keyword.strip()` is empty exactly when the keyword is all white space |
| Text.TrimIdempotent | 10/static/app.js:69 | trimming a trimmed title changes nothing |
| Ordering.SortBy | 1s/static/js/app.js:99-104 | the display sort: the result is ordered by the key and is a permutation of the input |
| Ordering.SortByStable | 1s/static/js/app.js:99-104 | the sort is stable: for every key, the elements with that key appear in the same order as in the input |
| Ordering.SortBySorted | 1s/static/js/app.js:99-104 | the stable sort leaves a list that is already in order unchanged |
| Ordering.SortedPermutationUnique | 8s/static/js/app.js:90-93 | with a key that tells all elements apart, there is only one sorted permutation |
| TaskStats.CompletionRate | 8s/app8s.py:213 | the rate is 0 with no task; otherwise rate × total = completed × 100; it lies in [0, 100] and is 100 when all are done |
| TaskSchemas.StringFieldErrors | 1s/models.py:7-8 | one string field yields no error exactly when its value is within bounds, or when it is an optional field that was left out or sent as null |
| TaskSchemas.ValidateCreate | 1s/models.py:5-8 | `TaskCreate` accepts exactly a given title of 1..100 characters with no description or one of at most 500; it reports a title error iff the title fails |
| TaskSchemas.ValidateUpdate | 1s/models.py:11-15 | for well-typed bodies, `TaskUpdate` accepts exactly those whose sent strings are within the same bounds; such a body can fail only a length check |
| TaskSchemas.EmptyUpdateValid | 1s/models.py:13-15 | a body with no string values is always valid |
| TaskSchemas.ParseResponse | 1s/models.py:18-25 | `TaskResponse` needs the four task fields; the timestamps are `None` exactly when absent or null |
| FlaskTaskStore.IndexOf | 8s/app8s.py:67-71 | the index of the first task with the id, or -1 exactly when none has it |
| FlaskTaskStore.Store.constructor | 8s/app8s.py:49-58 | the two seeded tasks and `current_id` 3 |
| FlaskTaskStore.Store.FindTask | 8s/app8s.py:60-64 | the first task with the id, or none |
| FlaskTaskStore.Store.FindTaskIndex | 8s/app8s.py:67-71 | the index of that same task, or -1 |
| FlaskTaskStore.Store.CreateTask | 8s/app8s.py:102-127 | 415 and 400 leave list and counter unchanged; on success one task is appended with the counter's unused id, the description or "" and not completed, and the counter goes up by one |
| FlaskTaskStore.Updated | 8s/app8s.py:146-150 | PUT/PATCH replace exactly the fields sent with a value; the id and every unsent field stay |
| FlaskTaskStore.ApplyAssignments | 8s/app8s.py:148-150 | the `setattr` loop yields the task with all assignments applied in order |
| FlaskTaskStore.UpdateIdempotent | 8s/app8s.py:146-150 | applying the same update twice equals applying it once |
| FlaskTaskStore.UpdateKeepsTitleValid | 8s/app8s.py:139-150 | an update that passed `TaskUpdate` keeps a valid title valid |
| FlaskTaskStore.Store.UpdateTask | 8s/app8s.py:129-152 | an unknown id gives 404 before any check; then 415, then 400, each changing nothing; otherwise only the matched task is replaced, by the corrected `Updated` (a key sent as `null` keeps the field; see Findings) |
| FlaskTaskStore.Store.PatchTask | 8s/app8s.py:154-177 | the same outcomes as PUT, with the same corrected `Updated` |
| FlaskTaskStore.NullTitleErasesTitle | 8s/app8s.py:146-150 | as written, `{"title": null}` passes validation and stores `None` as the title; the corrected update keeps the title |
| FlaskTaskStore.AsWrittenAgreesWithoutNulls | 8s/app8s.py:171-175 | without null keys, the code as written and the corrected update agree |
| FlaskTaskStore.Removed | 8s/app8s.py:185 | `pop(index)`: the other tasks, in their order |
| FlaskTaskStore.RemoveKeepsOrder | 8s/app8s.py:181-185 | after a removal, ids still increase, and none equals the removed task's id |
| FlaskTaskStore.Store.DeleteTask | 8s/app8s.py:179-189 | an unknown id gives 404 and no change; otherwise the matched task is removed and returned, and no task with that id remains |
| FlaskTaskStore.Store.Pop | 8s/app8s.py:185 | `tasks_db.pop(index)`: returns the task at the index, leaves the list without it in its old order, keeps the counter, and no task with that id remains |
| FlaskTaskStore.Store.DeleteAllTasks | 8s/app8s.py:191-199 | returns the old list and its length and empties the list, keeping `current_id` |
| FlaskTaskStore.IdsNeverReused | 8s/app8s.py:117-125 | a create after a delete-all gets a larger id than the one before |
| FlaskTaskStore.CountCompleted | 8s/app8s.py:206 | the number of completed tasks is at most the list length |
| FlaskTaskStore.Store.GetStats | 8s/app8s.py:201-214 | total is the list length, completed is the count, active = total − completed ≥ 0, and the rate is `CompletionRate` (0 with no task) |
| FastApiTaskStore.Store.constructor | 10/main.py:13-18 | the three seeded tasks, ids 1..3, and `next_id` 4 |
| FastApiTaskStore.Store.CreateTask | 10/main.py:28-44 | a missing, null or empty title gives the error and no change; otherwise `{next_id, title, false}` is appended and `next_id` goes up by one |
| FastApiTaskStore.Store.UpdateTask | 10/main.py:46-58 | the first task with the id gets the keys sent and nothing else; an unknown id gives the error and no change |
| FastApiTaskStore.Without | 10/main.py:63 | the filter keeps exactly the tasks with another id |
| FastApiTaskStore.WithoutAbsent | 10/main.py:60-64 | deleting an id no task has changes nothing |
| FastApiTaskStore.WithoutIdempotent | 10/main.py:60-64 | deleting twice equals deleting once |
| FastApiTaskStore.WithoutKeepsOrder | 10/main.py:63 | the survivors keep increasing id order |
| FastApiTaskStore.Store.DeleteTask | 10/main.py:60-64 | removes every task with the id, keeps the rest, and always answers success |
| TaskDatabase.SampleRows | 1s/database.py:57-63 | five seeded rows under consecutive ids |
| TaskDatabase.Database.constructor | 1s/database.py:20-49 | a new table is seeded with the five sample rows, ids 1..5 |
| TaskDatabase.Database.InitDb | 1s/database.py:43-49 | only an empty table is seeded, under fresh ids |
| TaskDatabase.RowIndex | 1s/database.py:91-97 | the position of the row with the id, or -1 exactly when there is none |
| TaskDatabase.Database.GetTaskById | 1s/database.py:86-97 | the row with the id, the only one, or `None` exactly when there is none |
| TaskDatabase.Database.CreateTask | 1s/database.py:102-114 | appends and returns one open row under a fresh id with the given title and description |
| TaskDatabase.Qualifying | 1s/database.py:128-132 | exactly the allowed, non-`None` arguments make it into the `SET` list |
| TaskDatabase.QualifyingLookup | 1s/database.py:128-141 | a column is set exactly when its argument is allowed and not `None`, to that argument's value |
| TaskDatabase.FilterKeepsColumns | 1s/database.py:128-141 | dropping disallowed and `None` arguments changes no column |
| TaskDatabase.FalseIsApplied | 1s/database.py:130 | `completed=False` qualifies and sets the flag to false |
| TaskDatabase.Database.UpdateTask | 1s/database.py:119-144 | with no qualifying argument, or no such row, it returns `None` and leaves the table alone; otherwise only that row gets the given columns and the new `updated_at` |
| TaskDatabase.Database.ToggleTaskCompletion | 1s/database.py:222-243 | an unknown id gives `None` and no change; otherwise only `completed` and `updated_at` of that row change, and the flag is flipped |
| TaskDatabase.Without | 1s/database.py:154 | the rows without that id |
| TaskDatabase.WithoutKeepsOrder | 1s/database.py:154 | the remaining rows keep increasing id order |
| TaskDatabase.Database.DeleteTask | 1s/database.py:149-156 | true exactly when a row with the id existed; afterwards no row has it |
| TaskDatabase.Database.DeleteAllTasks | 1s/database.py:161-171 | returns the row count before and leaves the table empty; ids are not reset |
| TaskDatabase.CountCompleted | 1s/database.py:185 | the done count is at most the row count, and equals it when every row is done |
| TaskDatabase.Database.GetStats | 1s/database.py:177-194 | total is the row count; completed/active are null exactly on an empty table, otherwise they add up to total; the rate is `CompletionRate` and 0 when empty |
| TaskDatabase.Listing | 1s/database.py:75-81 | a permutation of the table: open rows before done ones, newer before older within a group |
| TaskDatabase.Database.GetAllTasks | 1s/database.py:70-81 | answers `Listing` of the table |
| TaskDatabase.Matching | 1s/database.py:213 | exactly the rows whose title or description contains the keyword, each as often as in the table |
| TaskDatabase.Database.SearchTasks | 1s/database.py:200-217 | a blank keyword answers the same as `get_all_tasks`; otherwise a permutation of the matching rows, newest first |
| TaskDatabase.StoredRowParses | 1s/database.py:86-97 | a row as `dict(row)` returns it always parses as a `TaskResponse` (1s/models.py:18-25) with its columns and both timestamps |
| TaskForm.CheckDraft | 1s/static/js/app.js:152-168 | on the trimmed inputs, in order: blank title, title over 100, description over 500; accepts exactly when none applies; `8s/static/js/app.js:134-153` does the same |
| TaskForm.PostBody | 1s/static/js/app.js:176-179 | the trimmed title, and the trimmed description, which is left out when empty |
| TaskForm.AcceptedDraftPassesServer | 1s/static/js/app.js:152-179 | any body the form sends passes `TaskCreate` |
| TaskForm.BlankTitleOnlyClientRejects | 1s/models.py:7 | a white-space title is refused by the form but accepted by the schema, which does not strip |
| TaskForm.LastMessage | 1s/static/js/app.js:186-193 | a field's message is the one from its last entry, and there is one exactly when some entry names the field |
| TaskForm.RouteFieldErrors | 1s/static/js/app.js:186-193 | `title` and `description` entries go to their own field, the last one winning; other entries are dropped; `8s/static/js/app.js:169-179` does the same |
| TaskForm.ShowRejection | 1s/static/js/app.js:184-197 | a `details` array gives inline messages only (an empty one shows nothing); otherwise one alert with `error`, or the default when it is missing or empty; `8s/static/js/app.js:169-184` does the same |
| TaskForm.EditRequest | 1s/static/js/app.js:231-254 | a failed fetch or a cancelled prompt sends nothing; otherwise the typed title, the description unless empty, and the fetched `completed`; `8s/static/js/app.js:223-246` does the same |
| TaskForm.EmptyEditedTitleRefused | 1s/static/js/app.js:238-253 | an emptied title is sent unchecked and refused by `TaskUpdate` |
| DatabaseClient.Display | 1s/static/js/app.js:88-104 | the empty state exactly for an empty list; otherwise a sorted permutation in which tasks with equal keys keep their arrival order |
| DatabaseClient.DisplayKeepsServerOrder | 1s/static/js/app.js:99-104 | the page shows `get_all_tasks`' answer in the server's order |
| DatabaseClient.PanelOf | 1s/static/js/app.js:76-80 | each count is shown as received and a missing one as 0; the rate is shown as received, and a missing or zero rate shows '0%' |
| DatabaseClient.PanelOfDatabaseStats | 1s/static/js/app.js:76-80 | an empty table's null sums show as zeros; open + done = total on the panel; a shown rate lies in (0, 100] |
| DatabaseClient.Page.constructor | 1s/static/js/app.js:19-20 | empty cache, not searching |
| DatabaseClient.Page.LoadStats | 1s/static/js/app.js:69-85 | the panel is replaced only after a successful request |
| DatabaseClient.Page.LoadTasks | 1s/static/js/app.js:50-67 | the cache is replaced wholesale by, and the view shows, only a successful answer; a failure keeps the loading view |
| DatabaseClient.Page.SearchTasks | 1s/static/js/app.js:304-326 | a blank keyword reloads; otherwise the trimmed keyword is sent, and results are shown with the cache and panel untouched and the search flag set |
| DatabaseClient.Page.ClearSearch | 1s/static/js/app.js:328-332 | clears the search flag and reloads |
| PatchClient.DisplayTasks | 8s/static/js/app.js:79-93 | an empty array shows the empty state and is untouched; any other is sorted in place (open first, larger id first) and shown in that order |
| PatchClient.DisplayOrderDeterministic | 8s/static/js/app.js:90-93 | with unique ids, every sorted permutation is the one shown |
| PatchClient.LoadTasks | 8s/static/js/app.js:60-77 | a failed request shows the error; a successful one is displayed by `displayTasks` |
| PatchClient.RateLabelOf | 8s/static/js/app.js:53-54 | '0%' exactly when there is no task, else the server's rate |
| PatchClient.RateLabelInRange | 8s/static/js/app.js:53-54 | for the server's statistics the shown rate lies in [0, 100] and is 100 exactly when all are done |
| PatchClient.ToggleRequest | 8s/static/js/app.js:199-214 | a failed GET sends nothing; otherwise the body is `{completed: !task.completed}` only |
| PatchClient.ToggleFlipsCompletion | 8s/static/js/app.js:201-214 | the toggle body passes validation and flips exactly `completed` of the task it was read from |
| PatchClient.ToggleTwiceRestores | 8s/static/js/app.js:199-214 | two toggles restore the task |
| PatchClient.EditKeepsCompletion | 8s/static/js/app.js:236-246 | the edit body, when the server applies it, keeps `completed`, sets the typed title, and cannot clear the description |
| PatchClient.EditRoundTrip | 8s/static/js/app.js:223-246 | against the in-memory server (8s/app8s.py:92-100, 129-152): nothing is sent for an unknown id or a cancelled prompt; the edit is applied exactly when the typed title has 1 to 100 characters and the description at most 500, and then only the title and a non-empty description of that task change; otherwise 400 and no change |
| CachedClient.Display | 10/static/app.js:23-53 | a message for an empty list, otherwise the tasks in server order |
| CachedClient.Find | 10/static/app.js:109 | the first cached task with the id, or none exactly when no cached task has it |
| CachedClient.Page.constructor | 10/static/app.js:1 | the cache starts empty |
| CachedClient.Page.LoadTasks | 10/static/app.js:4-21 | only a successful answer replaces the cache; a failure keeps it |
| CachedClient.AddRequest | 10/static/app.js:69-85 | a blank input sends nothing; any other sends its trimmed text |
| CachedClient.AddRequestAccepted | 10/static/app.js:69-85 | every title sent passes the server's presence check and has no outer white space |
| CachedClient.ToggleRequest | 10/static/app.js:105-124 | an id missing from the cache sends nothing; otherwise it sends the negation of the cached flag |
| CachedClient.ToggleMatchesServerTask | 10/static/app.js:109-123 | the request negates the flag of the first cached task with the id |
| CachedClient.ToggleRoundTrip | 10/static/app.js:105-140 | against the FastAPI server (10/main.py:46-58) while the cache matches it: the server flips exactly the flag of the task the page read, answers that task, and changes nothing else |
| CachedClient.DeleteLabel | 10/static/app.js:151-152 | the cached title, or 'задачу' when the id is not cached |
| CachedClient.DeleteRoundTrip | 10/static/app.js:142-166 | a confirmed delete sent to the FastAPI server (10/main.py:60-64) always meets the page's success test: the server drops the id and the page reloads |
| CachedClient.Page.DeleteTask | 10/static/app.js:142-171 | a declined confirm sends nothing; success needs an ok status and a true `success`, and only then is the list reloaded |
| DemoApi.OperationOrDefault | 8/main.py:59 | the operation defaults to "add" |
| DemoApi.Calculate | 8/main.py:58-81 | exactly an unlisted operation is refused, with add, subtract, multiply, divide listed in that order; otherwise operation, a and b are echoed; add, subtract and multiply answer `a + b`, `a - b` and `a * b`; divide by zero answers the message, any other divide the exact quotient |
| DemoApi.CalculateInverses | 8/main.py:61-66 | subtract undoes add, and divide undoes multiply by a non-zero number |
| DemoApi.DefaultIsAddition | 8/main.py:59-62 | with no operation, the sum |
| DemoApi.GreetGet | 8/main.py:26-37 | a non-empty name appears in the greeting; otherwise the page asks for a name; the input keeps the name or "" |
| DemoApi.GreetPost | 8/main.py:39-47 | the greeting contains the name |
| DemoApi.ApiGreet | 8/main.py:49-56 | the greeting contains the name, "Гость" when absent |

## Findings

| source | as written | input that shows it | evidently intended | confidence | as-written member | corrected member |
|---|---|---|---|---|---|---|
| 8s/app8s.py:146-150 | `model_dump(exclude_unset=True)` keeps a key sent as `null`, and the `setattr` loop stores `None` into the task (the same at lines 171-175 for PATCH) | `PUT /tasks/1` with body `{"title": null}` passes `TaskUpdate` and leaves task 1 with no title | a key sent as `null` leaves the field as it was, as in the SQLite server's `value is not None` filter | high; not executed | FlaskTaskStore.NullTitleErasesTitle | FlaskTaskStore.Updated |

## Left out

- HTTP, `fetch`, JSON encoding, DOM rendering, character counters, `alert`/`confirm`/`prompt` and logging are not modelled. Their outcomes are parameters.
- Overlapping `loadTasks` calls are not modelled: concurrency, and the code has no ordering logic.
- Floating point is not modelled. Rates and quotients are exact `real`s, and `Math.round` is left to the label.
- Date parsing and locale formatting are not modelled. `created_at` is an optional integer, and `CURRENT_TIMESTAMP` is the `now` argument.
- TaskDatabase: several SQLite details are abstracted:
  - `LIKE` case folding and its `%`/`_` wildcards (matching is a case-sensitive substring test);
  - connections and errors swallowed into `[]`/`None`/`0`;
  - the tie order of rows with equal sort keys, which is modelled as table order.
- Text.IsSpace: only the ASCII white-space characters are trimmed, not the other Unicode spaces.
- String lengths count code points, not the UTF-16 units JavaScript's `length` counts.
- FlaskTaskStore: `Task` objects are updated in place in the source. The model replaces the list element. The only other reference is `initial_tasks` (8s/app8s.py:52-57), which nothing reads after the list is built.
- FlaskTaskStore.Store.UpdateTask, FlaskTaskStore.Store.PatchTask: both apply the corrected `Updated`. As written, the source stores `None` for a key sent as `null`; that behaviour is `UpdatedAsWritten` (see Findings).
- TaskDatabase.Database.UpdateTask: only well-typed arguments are modelled (strings for text columns, a boolean for `completed`), with distinct names.
- TaskSchemas: values of the wrong JSON type are not modelled, such as `{"completed": "maybe"}` or `{"title": 5}`, which pydantic rejects. A `Field` holds only a value of the declared type, so type errors are never reported.
- FlaskTaskStore.Store.CreateTask, FlaskTaskStore.Store.UpdateTask, FlaskTaskStore.Store.PatchTask: the 500 path is left out. A JSON body that is not an object (`[]`, `5`), or malformed JSON under a JSON content type, makes the schema call raise something other than a validation error. `validate_pydantic_error` (8s/app8s.py:73-81) then fails on `error.errors()`, so the request ends in a 500. `Body` has no value for such a body.
- FastApiTaskStore: only the `title` and `completed` keys are modelled. Non-object JSON bodies and values of other types are left out, and so are the 500 answers.
- DemoApi.Calculate: the `expression` text and the `except` branch are left out. The branch fires only when a true-division quotient overflows a float (for example `a = 10**400, b = 1`). It can also fire when Python refuses to turn an integer with too many digits into text for the `expression` string. The model's exact reals and unbounded integers capture neither case.
- DatabaseClient: the toggle, delete and clear-all functions of the 1s page are left out. They send one request and reload, which is `DatabaseClient.Page.LoadTasks`.
- CachedClient: `testAPI` and the `initialized` flag are left out. They only log or guard the single start-up.
- The routing and status mapping in `1s/main1s.py` and the template routes of `8/main.py` are not part of this model.
