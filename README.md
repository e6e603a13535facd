# TaskMaker data layer in Dafny

This project models the data layer of the TaskMaker Android sample, a to-do list app.

- **Task store.** The SQLite `tasks` table is an in-memory map from `_id` to the four data columns: description, `is_complete`, `is_priority` and `due_date`. The AUTOINCREMENT `sqlite_sequence` entry is a counter that only grows while the table exists. The open helper creates the table and seeds one demo task. On upgrade it drops the table and seeds it again.
- **Content provider.** Requests are routed by content URI. The collection URI is `content://com.google.developer.taskmaker/tasks` and an item URI is `.../tasks/<id>`.
  - `query` and `insert` throw UnsupportedOperationException on any other URI.
  - `update` accepts only an item URI. `delete` accepts the collection or an item. Both throw IllegalArgumentException("Illegal delete URI") otherwise.
  - On an item URI, the id taken from the URI replaces the caller's selection.
  - Change notifications are kept as the log of URIs passed to `notifyChange`.
- **Task record.** A task uses -1 for "no id" and `Long.MAX_VALUE` for "no due date". It can be built from discrete values or decoded from a cursor row. A flag decodes as `getInt(column) == 1`.
- **List adapter.** The adapter's pure display rule is: complete → DONE, else due before now → OVERDUE, else NORMAL. On top of that:
  - the priority icon and the "Not Set" date text;
  - item count and lookup by position;
  - swapping the cursor;
  - forwarding clicks to the listener, if one is set.

Files and modules:

| file | module | models |
|---|---|---|
| primitives.dfy | `Primitives` | Java `long` range, the `(int)` narrowing in `Cursor.getInt`, `String.valueOf(long)`, `Long.parseLong`, exceptions |
| uris.dfy | `Uris` | the provider's URI matcher, `ContentUris.parseId` and `withAppendedId` |
| database.dfy | `Database` | the table schema as a row type, and the SQLite operations the layer calls (`insert`, `insertOrThrow`, `update`, `delete`, create and drop) over a map |
| task_db_helper.dfy | `DbHelper` | `TaskDbHelper`: `onCreate`, `onUpgrade`, `loadDemoTask` |
| task_provider.dfy | `Provider` | `TaskProvider`: `query`, `insert`, `update`, `delete` |
| task.dfy | `Tasks` | `Task`: sentinels, the three constructors, `hasDueDate` |
| task_adapter.dfy | `Adapter` | `TaskAdapter`: the binding rules, `getItemCount`, `getItem`, `getItemId`, `swapCursor`, the listener guards |
| scenarios.dfy | `Scenarios` | runs of the provider, checked statically: seeding, insert then query by id, update of a missing id, two toggles, clearing the collection |

Modelling choices:
- A selection (the WHERE clause with its arguments) is a predicate on `_id` and row. A null selection selects every row.
- An item query compares `_id` with the numeric value of the URI's last segment, as SQLite does for an INTEGER column. A segment too large for a `long` therefore matches nothing. `update` and `delete` on the same URI throw NumberFormatException from `parseId` instead.
- `insert` ignores the result of `db.insert`. So it notifies and returns the collection URI even when the row could not be added. In the model that happens when the sequence is exhausted at `Long.MAX_VALUE`.
- `Cursor.getInt` narrows the stored `long` to 32 bits. Every stored flag that is 1 modulo 2^32, such as 2^32 + 1, therefore reads as set (`Tasks.DecodeFlagNarrows`). The app only ever stores 0 and 1.
- Dropping the table also drops its sequence entry, so the reseeded demo row gets id 1.

## Model

| member | source | states |
|---|---|---|
| `Uris.Match` | app/src/main/java/com/google/developer/taskmaker/data/TaskProvider.java:27-39 | a URI is the collection exactly when it has the provider's authority and the single segment `tasks`; it is an item exactly when it has that authority and the two segments `tasks` and a run of digits |
| `Uris.ParseId` | app/src/main/java/com/google/developer/taskmaker/data/TaskProvider.java:186-189 | the id of a URI is its last segment parsed as a `long` (-1 when there is no segment) |
| `Uris.WithAppendedId` | app/src/main/java/com/google/developer/taskmaker/MainActivity.java:128-130 | an item URI is the base URI with the id's decimal text appended as one more segment |
| `Uris.ItemUriRoundTrip` | app/src/main/java/com/google/developer/taskmaker/MainActivity.java:128-130 | the URI built for a non-negative id is matched as an item, and parsing it gives back that id |
| `Uris.NegativeItemUriUnmatched` | app/src/main/java/com/google/developer/taskmaker/data/TaskProvider.java:35-38 | the URI built for a negative id matches nothing, because `#` accepts only digits |
| `Uris.ItemIdParse` | app/src/main/java/com/google/developer/taskmaker/data/TaskProvider.java:241-250 | on an item URI the id is the digits' value when it fits in a `long`; otherwise NumberFormatException |
| `Primitives.LongTextRoundTrip` | app/src/main/java/com/google/developer/taskmaker/data/TaskAdapter.java:122 | parsing the text a cursor gives for a `long` column returns the stored value, for every `long` |
| `Primitives.LongToInt` | app/src/main/java/com/google/developer/taskmaker/data/TaskAdapter.java:113-119 | `getInt` gives a 32-bit value congruent to the stored `long` modulo 2^32 |
| `Database.DeleteCount` | app/src/main/java/com/google/developer/taskmaker/data/TaskProvider.java:267-277 | the count a delete returns plus the rows left equals the rows before |
| `Database.DeleteAllRows` | app/src/main/java/com/google/developer/taskmaker/data/TaskProvider.java:232-235 | deleting with every row selected empties the table and counts every former row |
| `Database.SelectDeletePartition` | app/src/main/java/com/google/developer/taskmaker/data/TaskProvider.java:93-101 | a query and a delete with the same selection split the table: the rows queried are exactly the rows deleted, and with the rows left they make up the whole table |
| `Database.ApplyIdempotent` | app/src/main/java/com/google/developer/taskmaker/data/TaskProvider.java:212 | applying the same update values twice gives the same row as applying them once |
| `Database.IdSelection` | app/src/main/java/com/google/developer/taskmaker/data/TaskProvider.java:241-250 | an `_id = ?` selection picks at most the named row; a query, delete or update through it touches that row only |
| `Database.IdOutOfRange` | app/src/main/java/com/google/developer/taskmaker/data/TaskProvider.java:93-101 | an id argument beyond the `long` range selects no row |
| `Database.TaskDatabase.InsertOrThrow` | app/src/main/java/com/google/developer/taskmaker/data/TaskDbHelper.java:16-24 | AUTOINCREMENT: a new row's id is one past the sequence, so it exceeds every id issued before; when the sequence is exhausted the insert throws and nothing changes |
| `Database.TaskDatabase.Insert` | app/src/main/java/com/google/developer/taskmaker/data/TaskProvider.java:146-150 | the same insert, but a failure is reported as row id -1 instead of thrown |
| `Database.TaskDatabase.Update` | app/src/main/java/com/google/developer/taskmaker/data/TaskProvider.java:212 | empty values throw IllegalArgumentException("Empty values") with nothing changed; otherwise the count is the number of selected rows, exactly those rows take the put columns, and the sequence is kept |
| `Database.TaskDatabase.CreateTable` | app/src/main/java/com/google/developer/taskmaker/data/TaskDbHelper.java:35 | on a store without the table it creates an empty table with a fresh sequence; over an existing table it throws and changes nothing |
| `Database.TaskDatabase.DropTableIfExists` | app/src/main/java/com/google/developer/taskmaker/data/TaskDbHelper.java:41 | whatever the store held, afterwards there is no table, no row and no sequence entry |
| `Database.TaskDatabase.Delete` | app/src/main/java/com/google/developer/taskmaker/data/TaskProvider.java:267 | a delete removes exactly the selected rows, returns their number and keeps the sequence |
| `DbHelper.DemoRow` | app/src/main/java/com/google/developer/taskmaker/data/TaskDbHelper.java:46-50 | the seed row holds the demo text, reads as not complete and as priority, and has the no-date sentinel |
| `DbHelper.TaskDbHelper.constructor` | app/src/main/java/com/google/developer/taskmaker/data/TaskDbHelper.java:28-31 | the helper keeps the app's demo text, which the seed row uses |
| `DbHelper.TaskDbHelper.OnCreate` | app/src/main/java/com/google/developer/taskmaker/data/TaskDbHelper.java:33-37 | on a store without the table, afterwards the table holds exactly the demo row, with id 1; creating over an existing table throws and changes nothing |
| `DbHelper.TaskDbHelper.OnUpgrade` | app/src/main/java/com/google/developer/taskmaker/data/TaskDbHelper.java:39-43 | whatever the store held before, afterwards the table holds exactly the demo row |
| `DbHelper.TaskDbHelper.LoadDemoTask` | app/src/main/java/com/google/developer/taskmaker/data/TaskDbHelper.java:45-53 | the seed row is added under the next id; a failed insert is returned as an exception, not ignored |
| `DbHelper.DemoTaskDecoded` | app/src/main/java/com/google/developer/taskmaker/data/TaskDbHelper.java:48-50 | the seed row reads back as an incomplete priority task with no due date |
| `Provider.TaskProvider.constructor` | app/src/main/java/com/google/developer/taskmaker/data/TaskProvider.java:41-46 | over an opened database (the tasks table exists), the provider is ready for every operation: it satisfies the invariant they require, holds a fresh helper and has notified nothing yet |
| `Provider.TaskProvider.Query` | app/src/main/java/com/google/developer/taskmaker/data/TaskProvider.java:54-125 | throws exactly on a URI that is neither shape. A collection query returns the rows the caller's selection picks, or all rows. An item query returns only the row whose id the URI names and ignores the caller's selection. The sort order is passed through and the cursor watches the queried URI |
| `Provider.TaskProvider.Insert` | app/src/main/java/com/google/developer/taskmaker/data/TaskProvider.java:127-177 | only the collection URI is accepted; anything else throws with the table and the log untouched. The row goes in under the next id, the result is the collection URI, and the passed URI is notified even when the insert failed |
| `Provider.TaskProvider.Update` | app/src/main/java/com/google/developer/taskmaker/data/TaskProvider.java:179-223 | only an item URI is accepted; the collection and every other URI throw "Illegal delete URI" with the table untouched. The count is 1 if the named row exists and 0 otherwise. Only that row changes. A notification is added exactly when the count is positive |
| `Provider.TaskProvider.Delete` | app/src/main/java/com/google/developer/taskmaker/data/TaskProvider.java:225-278 | with no selection the collection loses every row and the count is the former size; with a selection it loses exactly the selected rows. An item URI removes exactly the named row (count 1) or nothing (count 0). Other URIs throw. A notification is added exactly when the count is positive. The sequence is kept, so deleted ids are not issued again |
| `Tasks.NewTask` | app/src/main/java/com/google/developer/taskmaker/data/Task.java:30-36 | a task built from values has id NO_ID and exactly the given fields; it has a due date exactly when the date is not NO_DATE |
| `Tasks.NewUndatedTask` | app/src/main/java/com/google/developer/taskmaker/data/Task.java:41-43 | the three-value constructor is the four-value one with NO_DATE, and the result has no due date |
| `Tasks.FromCursor` | app/src/main/java/com/google/developer/taskmaker/data/Task.java:48-54 | a task decoded from a row keeps the row's id, description and due date, and reads each flag as `getInt(column) == 1` |
| `Tasks.DecodeFlag` | app/src/main/java/com/google/developer/taskmaker/data/Task.java:51-52 | for a stored value in `int` range, a flag decodes as set exactly when the value is 1 |
| `Tasks.Task.HasDueDate` | app/src/main/java/com/google/developer/taskmaker/data/Task.java:59-61 | a task has a due date exactly when its date is below the `Long.MAX_VALUE` sentinel; every other date counts as set |
| `Tasks.DecodeFlagNarrows` | app/src/main/java/com/google/developer/taskmaker/data/Task.java:51-52 | for every stored `long`, a flag decodes as set exactly when the value is 1 modulo 2^32, because the decoder reads through `getInt` |
| `Tasks.DecodeStoredTask` | app/src/main/java/com/google/developer/taskmaker/data/Task.java:48-54 | storing a task as 1/0 flags and decoding the row gives back the same task, now carrying the row's id |
| `Adapter.TitleFor` | app/src/main/java/com/google/developer/taskmaker/data/TaskAdapter.java:131-158 | the title is DONE exactly when the complete flag reads 1, whatever the date; it is OVERDUE only for a due date before now, so never for the no-date sentinel |
| `Adapter.Bind` | app/src/main/java/com/google/developer/taskmaker/data/TaskAdapter.java:89-193 | the box is checked exactly in the DONE state, and this binding sets the strike-through flag exactly then; this binding makes the date view visible exactly when a date is shown; the title is the description |
| `Adapter.DoneIffComplete` | app/src/main/java/com/google/developer/taskmaker/data/TaskAdapter.java:131-140 | a row is shown DONE, with the box checked, exactly when the task is complete, whatever its due date |
| `Adapter.OverdueIffPastDue` | app/src/main/java/com/google/developer/taskmaker/data/TaskAdapter.java:143-158 | an incomplete task is OVERDUE exactly when its due date is before now, and NORMAL exactly when it is not |
| `Adapter.UndatedNeverOverdue` | app/src/main/java/com/google/developer/taskmaker/data/TaskAdapter.java:143-176 | a task with the no-date sentinel is never OVERDUE and its date reads "Not Set" |
| `Adapter.DateTextFollowsDueDate` | app/src/main/java/com/google/developer/taskmaker/data/TaskAdapter.java:173-188 | the date text is "Not Set" exactly when the task has no due date; otherwise it is that due date, formatted |
| `Adapter.PriorityIconFollowsFlag` | app/src/main/java/com/google/developer/taskmaker/data/TaskAdapter.java:161-170 | the priority icon is shown exactly when the task reads as priority |
| `Adapter.TaskAdapter.constructor` | app/src/main/java/com/google/developer/taskmaker/data/TaskAdapter.java:60-62 | the adapter holds the given cursor, with no listener yet |
| `Adapter.TaskAdapter.SetOnItemClickListener` | app/src/main/java/com/google/developer/taskmaker/data/TaskAdapter.java:64-66 | the listener is replaced by the given one |
| `Adapter.TaskAdapter.CompletionToggled` | app/src/main/java/com/google/developer/taskmaker/data/TaskAdapter.java:68-72 | a toggle reaches the listener only when one is set; with none, nothing happens |
| `Adapter.TaskAdapter.PostItemClick` | app/src/main/java/com/google/developer/taskmaker/data/TaskAdapter.java:74-78 | a click reaches the listener only when one is set; with none, nothing happens |
| `Adapter.TaskAdapter.OnClick` | app/src/main/java/com/google/developer/taskmaker/data/TaskAdapter.java:46-53 | a click on the checkbox is delivered as a toggle and any other click as an item click, each only when a listener is set |
| `Adapter.TaskAdapter.OnBindViewHolder` | app/src/main/java/com/google/developer/taskmaker/data/TaskAdapter.java:89-110 | binding a position shows that row by the display rule; its title is DONE exactly when the decoded task is complete |
| `Adapter.TaskAdapter.GetItemCount` | app/src/main/java/com/google/developer/taskmaker/data/TaskAdapter.java:195-198 | the count is 0 without a cursor and the cursor's row count otherwise |
| `Adapter.TaskAdapter.GetItem` | app/src/main/java/com/google/developer/taskmaker/data/TaskAdapter.java:207-213 | a position inside the cursor gives the decoded task at that row. A position outside it throws IllegalStateException. With no cursor the call fails on null |
| `Adapter.TaskAdapter.GetItemId` | app/src/main/java/com/google/developer/taskmaker/data/TaskAdapter.java:215-218 | succeeds exactly where `getItem` does, with that row's `_id` |
| `Adapter.TaskAdapter.SwapCursor` | app/src/main/java/com/google/developer/taskmaker/data/TaskAdapter.java:220-228 | the adapter afterwards holds the new cursor, so count and items come from it, and observers are told the data set changed once |

## Left out

- Provider.TaskProvider.Query: the rows are returned as a map from id to row. Their order, which the sort order decides inside SQLite, is not modelled. The sort order is only passed through.
- Adapter.Bind: the strike-through flag and the date view's visibility are what this binding sets. The source never clears the flag or hides the date view, so a recycled holder keeps both from an earlier row; holder recycling is not modelled. The relative-time text (`DateUtils.getRelativeTimeSpanString`) is kept as the due date it would format. View inflation and the view holder's widgets are not modelled.
- The periodic cleanup job (`manageCleanupJob`, JobScheduler) is not modelled. It is an OS scheduling call, and the job's staleness rule is not part of the code shown. `getType` is not modelled either: it returns null and nothing uses it.
- SQL text is not modelled: selection strings, sort strings, projections and the CREATE statement. A selection is a row predicate. The SQLite error raised when selection arguments come with a null collection-delete selection is not modelled.
- Insert values always carry all four columns, as every caller supplies them. NULL cells, `putNull` in updates, and an explicit `_id` in the values are not modelled.
- Observer delivery by the ContentResolver is not modelled; only the notified URIs are logged. `getContext()` is taken to be non-null, as it is for an attached provider.
- Uris.Match: `#` accepts an empty segment here, as the matcher's digit loop does; `Uri.getPathSegments` never yields an empty segment, which is why `Uris.ItemIdParse` requires a non-empty one.
- The platform URI matcher is modelled by the two patterns the provider registers. It reads only the authority and the path segments; the scheme is kept but not examined. Its behaviour on extra segments after an item id is not modelled.
- `Long.parseLong` is modelled for ASCII digits only. Java also accepts other Unicode decimal digits, which a matched URI never contains.
- `SQLiteOpenHelper` decides when `onCreate` and `onUpgrade` run, from the stored version. That decision is not modelled.
- Provider.TaskProvider.constructor: the lazy open on first `getReadable/WritableDatabase`, which runs the helper's `onCreate`, is not modelled. The constructor takes the database already opened (`Scenarios.OpenThenQueryScenario` opens it with `OnCreate` first), so the provider's helper is not used by its operations.
- The demo task's text is a string resource (`R.string.demo_task`) and is a parameter here. `DatabaseContract` is not part of this model. The authority and table name come from the comments next to the matcher. Its `getColumn*` helpers are taken to read through `Cursor.getLong`/`getInt`/`getString`.
- `Task.id` is a public mutable field in the source, but no code shown assigns it after construction; the model's task is an immutable value.
- A cursor is a sequence of rows. Its read position, which `moveToPosition` changes, is not modelled. The item tag read with `getInt` is kept as the narrowed id.
- `System.currentTimeMillis()` is the parameter `now`.
- Not modelled: MainActivity (loaders, intents, the sort-order preference), TaskDetailActivity (views, menu, AlarmScheduler, the past-date check), the background update service, and the instrumentation test. These are UI, OS and threading code.
