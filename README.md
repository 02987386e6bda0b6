# Todo app core in Dafny

This project models the core of a Django to-do application. It covers three parts.

- **The `Todo` record** (module `Models`, `models.dfy`). This includes:
  - the priority and category choice lists with their defaults;
  - the `is_today`, `is_tomorrow` and `is_upcoming` predicates;
  - the colour and icon lookups with their fallbacks;
  - the declared listing order: due date ascending, then newest first.
- **The home page** (module `Buckets`, `buckets.dfy`). The owner's rows are narrowed by a case-insensitive search and put in listing order. They are then split into five overlapping buckets: today, tomorrow, upcoming, overdue and completed. The page picks a "current" list by a fixed precedence chain and computes the sidebar counts. All of this is written as pure functions over a sequence of rows.
- **The owner-scoped handlers** (module `Store`, `store.dfy`). These are creation, `toggle_todo`, `edit_todo` and `delete_todo`. Each looks its row up by (id, owner), so another user's id behaves like a missing one. The table is a map from primary key to row:
  - one pure function per handler gives its effect on the table;
  - the `TodoStore` class holds the table and the next primary key;
  - its methods are proved to have exactly that effect and to keep the table valid.
- **The administration page** (module `Admin`, `admin.dfy`).
  - The statistics of `changelist_view`: total, completed, pending, the completion rate, the per-priority counts, overdue and due today. They are computed over every user's rows.
  - The five bulk actions. Each sets `completed` or `priority` on the selected rows, refreshes `updated_at`, and returns how many rows it changed. They run on the store through a loop that rewrites one selected row at a time.

Conventions:

- Dates are day numbers. Times of day and timestamps are integers.
- A timestamp's date is `DateOf(ts) = ts / 86400`. This is the date in UTC.
- The current date and the current time are parameters: `today` and `now`.
- Where the database, not the code, decides where rows with no due date go in the order, that choice is the parameter `nullsLast`.

Two facts about the code shape the model:

- **Sidebar counts.** The counts are taken over the search-filtered `user_todos` (`myapp/views.py:62-66`), not over all of the owner's rows. `Buckets.Home` states them over the filtered rows.
- **Rows without a due date.** `ordering = ['due_date', '-created_at']` (`myapp/models.py:82`) leaves the placement of NULL due dates to the database backend. The model keeps both placements through `nullsLast`.

## Model

| member | source | states |
|---|---|---|
| Models.NewTodo | myapp/models.py:21-29 | A row built from the field defaults is not completed, has no due date or time, has priority "medium" and category "personal", and has both timestamps equal to the save time. It is well formed exactly when its text fits 200 characters. |
| Models.WellFormed | myapp/models.py:9-27 | Defines a stored row: text of at most 200 characters, priority in low/medium/high, category in work/home/personal. |
| Models.DateOf | myapp/views.py:41 | The date of a timestamp is the day whose 86400-second span contains it. |
| Models.IsToday | myapp/models.py:34-38 | Defines is_today: a due date is present and equals today. |
| Models.IsTomorrow | myapp/models.py:40-45 | Defines is_tomorrow: a due date is present and equals today + 1. |
| Models.IsUpcoming | myapp/models.py:47-52 | Defines is_upcoming: a due date is present and later than today + 1. |
| Models.DatePredicatesExclusive | myapp/models.py:34-52 | is_today means due == today, is_tomorrow means due == today + 1, and is_upcoming means due > today + 1. At most one of them holds for a row, and none holds without a due date, even for a row created today. |
| Models.DatePredicatesCoverFuture | myapp/models.py:34-52 | A row with a due date of today or later satisfies one of the three predicates, and, by the previous lemma, only one. |
| Models.PriorityColor | myapp/models.py:54-61 | low, medium and high map to their fixed colours. The result is the fallback colour exactly when the priority is not one of the choices. |
| Models.CategoryColor | myapp/models.py:63-70 | work, home and personal map to their fixed colours. The result is the fallback colour exactly when the category is not one of the choices. |
| Models.CategoryIcon | myapp/models.py:72-79 | work, home and personal map to their icons. The result is the fallback icon exactly when the category is not one of the choices. |
| Models.WellFormedHasNoFallback | myapp/models.py:9-27 | A row within the declared choices never reaches any of the three fallbacks. |
| Models.InOrderTotal | myapp/models.py:82 | The listing order compares every pair of rows, one way or the other. |
| Models.InOrderTransitive | myapp/models.py:82 | The listing order is transitive. |
| Models.InsertPermutes | myapp/models.py:82 | Inserting a row into a listing adds exactly that row. |
| Models.InsertSorted | myapp/models.py:82 | Inserting a row into a sorted listing keeps it sorted. |
| Models.Ordered | myapp/models.py:81-82 | The ordered listing is a permutation of the rows (the same multiset). It is sorted by due date ascending, then created_at descending. Rows with no due date go first or last, depending on nullsLast. |
| Models.OrderedSameRows | myapp/models.py:82 | The ordered listing holds exactly the rows of its input. |
| Models.OrderedListing | myapp/models.py:82 | Of two rows at positions i < j of the listing, the earlier is due no later. On equal due dates, the earlier row was created no earlier. |
| Buckets.Filter | myapp/views.py:31-45 | A queryset filter keeps exactly the rows that satisfy its condition, each as many times as in the input, and drops every other row. |
| Buckets.FilterSorted | myapp/views.py:41-45 | Filtering a listing keeps it in listing order. |
| Buckets.FilterDisjointUnion | myapp/views.py:41 | A union of two filters with disjoint conditions (the `|` of two querysets) has the sum of their sizes. |
| Buckets.FilterSame | myapp/views.py:62-66 | Two filters whose conditions agree on every row give the same rows. |
| Buckets.IContains | myapp/views.py:35 | Defines text__icontains: the lower-cased query occurs at some position of the lower-cased text. |
| Buckets.IContainsFacts | myapp/views.py:34-35 | The case-insensitive search matches every text for the empty query, a text always matches itself, and the match ignores the query's letter case. |
| Buckets.UserTodos | myapp/views.py:31-35 | The owner's rows in listing order. The listing is a permutation of the rows of the table that belong to the owner and (for a non-empty search) contain the search text ignoring case: each appears as often as in the table, and no other row appears. |
| Buckets.UserTodosScope | myapp/views.py:31-35 | A row is listed exactly when it is in the table, belongs to the requesting owner, and contains the search text ignoring case. The empty search matches every text. |
| Buckets.InToday | myapp/views.py:41 | Defines the today condition: due today, or no due date and created today. |
| Buckets.InTomorrow | myapp/views.py:42 | Defines the tomorrow condition: due today + 1. |
| Buckets.InUpcoming | myapp/views.py:43 | Defines the upcoming condition: due later than today + 1. |
| Buckets.InOverdue | myapp/views.py:44 | Defines the overdue condition: due before today and not completed. |
| Buckets.InCompleted | myapp/views.py:45 | Defines the completed condition. |
| Buckets.TodayBucket | myapp/views.py:41 | The rows meeting the today condition, in listing order. |
| Buckets.TomorrowBucket | myapp/views.py:42 | The rows meeting the tomorrow condition, in listing order. |
| Buckets.UpcomingBucket | myapp/views.py:43 | The rows meeting the upcoming condition, in listing order. |
| Buckets.OverdueBucket | myapp/views.py:44 | The rows meeting the overdue condition, in listing order. |
| Buckets.CompletedBucket | myapp/views.py:45 | The completed rows, in listing order. |
| Buckets.CategoryBucket | myapp/views.py:49 | The rows of one category, in listing order. |
| Buckets.BucketsAgainstDatePredicates | myapp/views.py:41-45 | today is is_today or (no due date and created today). tomorrow is is_tomorrow and upcoming is is_upcoming. overdue is a due date before today and not completed, so a completed past-due row is never overdue. |
| Buckets.BucketsDisjoint | myapp/views.py:41-45 | No row is in two of the today, tomorrow and upcoming buckets, and no overdue row is in the completed bucket. |
| Buckets.CompletedOverlapsDateBuckets | myapp/views.py:41-45 | A completed row due today is in both the today and the completed buckets. A completed row due in the past is in the completed bucket and not overdue. |
| Buckets.BucketsSorted | myapp/views.py:41-45 | Each bucket of a sorted listing is itself in listing order. |
| Buckets.Current | myapp/views.py:48-59 | A non-empty category gives exactly that category's rows. Otherwise the views upcoming, today, completed and missed give the upcoming, today, completed and overdue buckets, and any other view gives the today bucket. |
| Buckets.Home | myapp/views.py:30-66 | Each bucket on the page is taken over the searched owner's rows. The current list follows the precedence chain. Each category count is the size of that category's rows. missed_count equals the size of the overdue bucket, and completed_count equals the size of the completed bucket. |
| Buckets.CategoryBucketsPartition | myapp/views.py:62-64 | For rows within the category choices, the three category buckets add up to all of them. |
| Buckets.CategoryCountsCoverUserTodos | myapp/views.py:62-64 | For a table of well-formed rows, personal_count + work_count + home_count equals the number of searched owner's rows. |
| Store.Lookup | myapp/views.py:182 | The lookup finds the row exactly when the id is in the table and belongs to the owner. |
| Store.OwnedBy | myapp/views.py:31 | The owner's part of the table holds exactly the ids the owner's lookup finds, with rows unchanged. |
| Store.FromForm | myapp/views.py:22-26 | A created row takes the form's text, due date, time, priority and category, and the requesting owner. It is not completed and has both timestamps at now. A valid form gives a well-formed row. |
| Store.WithForm | myapp/views.py:185-187 | An edited row takes the form's five fields and a new updated_at. Its id, owner, completion flag and created_at stay as they were. |
| Store.Toggled | myapp/views.py:174-175 | Toggling flips completed, sets updated_at, and changes no other field. |
| Store.CreateIn | myapp/views.py:21-28 | A valid form adds exactly one row for the new id. An invalid form changes nothing. Existing rows are untouched. |
| Store.ToggleIn | myapp/views.py:171-178 | Only the matched row is toggled, the key set is kept, and a failed lookup leaves the table unchanged. |
| Store.EditIn | myapp/views.py:181-189 | The owner's row is rewritten by a valid form. A failed lookup or an invalid form leaves the table unchanged, and no other row changes. |
| Store.DeleteIn | myapp/views.py:201-206 | A found row is removed and nothing else. A failed lookup leaves the table unchanged. |
| Store.FormValid | myapp/views.py:23 | Defines form.is_valid(): a non-empty text of at most 200 characters, and priority and category in their choices. |
| Store.KeyedById | myapp/models.py:21-29 | Defines a table whose every row sits under its own primary key. |
| Store.Rows | myapp/views.py:31 | Defines the table read as a sequence: the rows with a key below n, by increasing key. |
| Store.RowsKeyed | myapp/views.py:31 | For a table keyed by id, the sequence lists each row with a key below n exactly once and no other row, and its keys increase strictly along the sequence. |
| Store.RowsCount | myapp/admin.py:111 | A valid table read as rows has one row per key. |
| Store.PageShowsOwnedRows | myapp/views.py:31 | The owner's listing read from a valid table holds each row of OwnedBy exactly once and nothing else, so the page queries and the handlers describe the same rows. |
| Store.ToggleOnPage | myapp/views.py:171-178 | After a toggle, the page read from the store shows the toggled row in the completed list exactly when it was pending before, and in the today, tomorrow and upcoming lists exactly where it was before. |
| Store.Chronological | myapp/models.py:28-29 | Defines created_at <= updated_at for every row. |
| Store.StampedBy | myapp/models.py:29 | Defines that no row was written after now. |
| Store.HandlersKeepChronology | myapp/models.py:28-29 | With a clock that has not run backwards, toggle, edit, delete and create keep created_at <= updated_at on every row and stamp no row after now. |
| Store.ForeignIdActsAsMissing | myapp/views.py:173-204 | An id owned by another user is looked up exactly as if the row were absent. Toggle, edit and delete leave the table unchanged for it. |
| Store.OwnershipIsolation | myapp/views.py:171-206 | Toggle, edit, delete and create by one user leave every other user's rows exactly as they were. |
| Store.DeleteTwiceFails | myapp/views.py:201-204 | After a delete, the same id is not found, and a second delete changes nothing. |
| Store.CreateStampsOwner | myapp/views.py:24-26 | The requesting owner finds the created row, and any other user does not. |
| Store.EditKeepsOwner | myapp/forms.py:28 | An edit never changes any row's owner, completion flag or creation time. |
| Store.ToggleTwice | myapp/views.py:174-175 | Toggling twice restores the row, apart from updated_at. |
| Store.ToggleMovesStatusOnly | myapp/views.py:174-175 | A toggle moves a row into or out of the completed bucket and keeps its today, tomorrow and upcoming memberships. A toggled past-due row is overdue exactly when it was completed before. |
| Store.HasUserAttribute | myapp/views.py:165 | hasattr(todo, 'user') on a draft row holds only once an owner is set. |
| Store.SaveDraft | myapp/views.py:167 | Saving a draft without an owner is an integrity error, since the owner column is NOT NULL. |
| Store.AddTodoAsWritten | myapp/views.py:160-168 | add_todo as written: the owner-setting branch is guarded by hasattr on an owner-less draft. |
| Store.AddTodoNeverSaves | myapp/views.py:160-168 | As written, add_todo ends every valid form in an integrity error. Creation with the owner assigned stores the row for the requesting owner. |
| Store.TableValid | myapp/models.py:21-29 | Defines a valid table: rows keyed by id, all keys below the next key, every row well formed with non-empty text. |
| Store.TodoStore.constructor | myapp/models.py:21-29 | The empty table is valid, and its first key is 1. |
| Store.TodoStore.Create | myapp/views.py:21-28 | A new key is returned exactly when the form is valid, and the next key then moves on by one; otherwise it stays. The table becomes CreateIn of the old table under the old next key, and stays valid. With a clock that has not run backwards, created_at <= updated_at keeps holding. |
| Store.TodoStore.Toggle | myapp/views.py:171-178 | Reports whether the owner's lookup found the row. The table becomes ToggleIn of the old table and stays valid. With a clock that has not run backwards, created_at <= updated_at keeps holding. |
| Store.TodoStore.Edit | myapp/views.py:181-189 | The outcome is not-found exactly when the lookup fails, and invalid exactly when it succeeds with an invalid form. The table becomes EditIn of the old table and stays valid. With a clock that has not run backwards, created_at <= updated_at keeps holding. |
| Store.TodoStore.Delete | myapp/views.py:201-206 | Reports whether the owner's lookup found the row. The table becomes DeleteIn of the old table and stays valid. |
| Store.DeleteTwice | myapp/views.py:201-204 | Of two deletes of one id, the second reports not found. The table ends as after the first. |
| Admin.CompletionRateTenths | myapp/admin.py:134 | The rate is 0 with no rows. Otherwise it is within half a tenth of completed / total * 100 per cent, and it is at most 100.0 when completed <= total. |
| Admin.CompletionRateExamples | myapp/admin.py:134 | 0 of 0 gives 0, 1 of 4 gives 25.0, 2 of 3 gives 66.7, and 1 of 16 gives 6.2. |
| Admin.CompletedRows | myapp/admin.py:112 | The rows of filter(completed=True) over all users. |
| Admin.PriorityRows | myapp/admin.py:116-118 | The rows of filter(priority=...) over all users. |
| Admin.DueOnRows | myapp/admin.py:128 | The rows of filter(due_date=today) over all users. |
| Admin.ChangelistStatistics | myapp/admin.py:111-128 | total is the number of rows. completed is the size of the completed bucket over all rows, and never exceeds total. pending is total - completed and never negative. The rate is the completion rate of completed over total: 0 with no rows and at most 100.0. high, medium and low are the numbers of rows with that priority. overdue is the size of the overdue bucket over all rows. dueToday is the number of rows due today. |
| Admin.StatisticsOfStore | myapp/admin.py:111 | Over a valid table read as rows, total_todos is the number of stored rows. |
| Admin.PriorityRowsPartition | myapp/admin.py:116-118 | For rows within the priority choices, the three priority counts add up to all of them. |
| Admin.PriorityCountsCoverTotal | myapp/admin.py:111-118 | For well-formed rows, high + medium + low equals total_todos. |
| Admin.DueTodayVersusTodayBucket | myapp/admin.py:128 | The today bucket over the same rows holds the due-today figure plus the undated rows created today. |
| Admin.OverdueFigureCoversEveryOwner | myapp/admin.py:121-125 | Every row overdue on any owner's page is counted in the admin overdue figure. |
| Admin.ActionValid | myapp/admin.py:90-102 | Defines a valid action: a priority it sets is one of the choices. |
| Admin.Applied | myapp/admin.py:81 | An action sets its own field and updated_at, and no other field. A valid action keeps a row well formed. |
| Admin.BulkIn | myapp/admin.py:80-102 | Selected rows are rewritten by the action, and unselected rows and the key set are unchanged. |
| Admin.BulkIdempotent | myapp/admin.py:90-102 | Applying an action twice to the same selection gives the state of the second application alone. |
| Admin.BulkSelection | myapp/admin.py:80-102 | Only the selected ids that name rows matter, and an empty selection changes nothing. |
| Admin.BulkKeepsValid | myapp/admin.py:80-102 | A valid action keeps a valid table valid. |
| Admin.BulkKeepsChronology | myapp/admin.py:81 | With a clock that has not run backwards, a bulk action keeps created_at <= updated_at on every row. |
| Admin.UpdateSelected | myapp/admin.py:81 | The loop produces BulkIn of the table and counts exactly the selected ids that name rows. |
| Admin.BulkUpdate | myapp/admin.py:81 | The store's table becomes BulkIn of the old table. The returned count is the number of selected rows, and the store stays valid. With a clock that has not run backwards, created_at <= updated_at keeps holding. |
| Admin.MarkCompleted | myapp/admin.py:80-82 | Every selected row becomes completed. Nothing else changes but updated_at, and the count of selected rows is returned. |
| Admin.MarkIncomplete | myapp/admin.py:85-87 | Every selected row becomes pending. Nothing else changes but updated_at, and the count of selected rows is returned. |
| Admin.SetHighPriority | myapp/admin.py:90-92 | Every selected row gets priority high. Nothing else changes but updated_at, and the count of selected rows is returned. |
| Admin.SetMediumPriority | myapp/admin.py:95-97 | Every selected row gets priority medium. Nothing else changes but updated_at, and the count of selected rows is returned. |
| Admin.SetLowPriority | myapp/admin.py:100-102 | Every selected row gets priority low. Nothing else changes but updated_at, and the count of selected rows is returned. |

## Left out

- Admin.CompletionRateTenths: Python's `round` on a binary float is not modelled. The rate is the exact ratio rounded half-to-even to a tenth of a percent, so it can differ from the float result in the last digit at a tie.
- Buckets.IContains: only ASCII letters are case-folded. Unicode case folding and the backend's collation are not modelled.
- Models.DateOf: `created_at__date` is taken in UTC. The time-zone conversion of the configured zone is not modelled.
- Models.Ordered: rows that tie on both keys keep an order chosen by the sort. The database leaves that order unspecified. Where rows without a due date go is the parameter `nullsLast`.
- Store.FormValid: form validation is reduced to a non-empty text of at most 200 characters and priority and category in their choices. Stripping of whitespace, the parsing of dates and times, and the widgets of `myapp/forms.py` are not modelled.
- Store.TodoStore.Edit: the GET branch of `edit_todo`, which renders the row, is modelled only by the lookup `Store.Lookup`. The GET branches of `toggle_todo`, `delete_todo` and `add_todo` change nothing and only redirect, so they are not modelled.
- Store.TableValid: created_at <= updated_at is not part of validity, because the clock `now` is a parameter that the handlers cannot constrain. It is proved only for a clock that has not run backwards (Store.HandlersKeepChronology, Admin.BulkKeepsChronology and the matching ensures clauses of the store methods).
- Store.TodoStore.Create: the auto-increment key is the field `nextId`. Keys are never reused after a delete.
- Admin.BulkUpdate: the queryset passed to an action is the set of selected ids. Ids that name no row are ignored and not counted, as an update on a queryset of existing rows would do.
- Admin.ChangelistStatistics: the figures are read over a single snapshot of the table. The separate queries Django issues could see concurrent changes.
- The clock: `timezone.now()` is the parameter `now` (a timestamp) or `today` (a date).
- Rendering and presentation are not modelled. This covers the templates, `render`, `redirect`, `messages`, `message_user`, the admin display helpers `priority_badge` and `completed_status`, and the admin site headers.
- The authentication, registration, profile and password views (`myapp/views.py:88-157`) are thin wrappers over Django's authentication framework and are not part of this model. Neither is `myapp/urls.py`.
- Users are only their ids. Deleting a user, which cascades to the user's rows, is not modelled.
- Concurrency and transactions are not modelled: every handler runs alone.

## Findings

| source | as written | input that shows it | evidently intended | confidence | as-written member | corrected member |
|---|---|---|---|---|---|---|
| myapp/views.py:165-166 | `add_todo` assigns the owner only if `hasattr(todo, 'user')`. On a row from `form.save(commit=False)` the foreign key is unset. Reading it raises a `RelatedObjectDoesNotExist`, which is an `AttributeError`, so `hasattr` is false and the owner is never set. `todo.save()` then violates the NOT NULL owner column. | Any valid POST to `add_todo`, for example text "buy milk" with priority "medium" and category "personal". | Assign the requesting user unconditionally before saving, as the POST branch of `home` does (`myapp/views.py:24-26`). | high that the guard is always false; not executed | Store.AddTodoNeverSaves | Store.CreateIn |
