/** The todo table and the owner-scoped handlers of myapp/views.py that
    change it: creation (home and add_todo), toggle_todo, edit_todo and
    delete_todo. Each handler finds its row by (id, owner), so an id that
    belongs to another user behaves exactly like an id that does not exist.
    The table is a map from primary key to row; the pure functions below
    give each handler's effect on it, and the TodoStore methods are proved
    to have exactly that effect. */
module Store {
  import opened Models
  import opened Buckets

  type Table = map<TodoId, Todo>

  /** The fields of TodoForm: text, due date, due time, priority and
      category. The owner, the completion flag and the timestamps are not
      among them. */
  datatype TodoForm = TodoForm(
    text: string,
    dueDate: Option<Date>,
    dueTime: Option<TimeOfDay>,
    priority: string,
    category: string)

  /** form.is_valid(): the text is required and fits 200 characters, and
      priority and category are values of their choice lists; the due date
      and time are optional. */
  predicate FormValid(f: TodoForm)
  {
    && 0 < |f.text| <= MaxTextLength
    && f.priority in PriorityChoices
    && f.category in CategoryChoices
  }

  /** get_object_or_404(Todo, id=id, user=owner). */
  function Lookup(m: Table, id: TodoId, owner: UserId): (r: Option<Todo>)
    ensures r.Some? ==> id in m && r.value == m[id] && r.value.owner == owner
    ensures r.None? ==> id !in m || m[id].owner != owner
  {
    if id in m && m[id].owner == owner then Some(m[id]) else None
  }

  /** The rows of the table that belong to owner. */
  function OwnedBy(m: Table, owner: UserId): (r: Table)
    ensures forall id :: id in r <==> Lookup(m, id, owner).Some?
    ensures forall id | id in r :: id in m && r[id] == m[id]
  {
    map id | id in m && m[id].owner == owner :: m[id]
  }

  // ---------------------------------------------------------------------
  // The rows the handlers write.

  /** The row created from a valid form for owner: the form's fields, the
      model's defaults for the rest, and owner taken from the request. */
  function FromForm(id: TodoId, owner: UserId, f: TodoForm, now: Timestamp): (t: Todo)
    ensures t.id == id && t.owner == owner && !t.completed
    ensures t.text == f.text && t.dueDate == f.dueDate && t.dueTime == f.dueTime
    ensures t.priority == f.priority && t.category == f.category
    ensures t.createdAt == t.updatedAt == now
    ensures FormValid(f) ==> WellFormed(t)
  {
    NewTodo(id, owner, f.text, now).(dueDate := f.dueDate, dueTime := f.dueTime,
                                     priority := f.priority, category := f.category)
  }

  /** form.save() on an existing row: the form's five fields are replaced
      and updated_at refreshed; id, owner, completion and created_at stay. */
  function WithForm(t: Todo, f: TodoForm, now: Timestamp): (r: Todo)
    ensures r.id == t.id && r.owner == t.owner && r.completed == t.completed
    ensures r.createdAt == t.createdAt && r.updatedAt == now
    ensures r.text == f.text && r.dueDate == f.dueDate && r.dueTime == f.dueTime
    ensures r.priority == f.priority && r.category == f.category
    ensures FormValid(f) ==> WellFormed(r)
  {
    t.(text := f.text, dueDate := f.dueDate, dueTime := f.dueTime,
       priority := f.priority, category := f.category, updatedAt := now)
  }

  /** todo.completed = not todo.completed; todo.save(). */
  function Toggled(t: Todo, now: Timestamp): (r: Todo)
    ensures r.completed == !t.completed && r.updatedAt == now
    ensures r.(completed := t.completed, updatedAt := t.updatedAt) == t
    ensures WellFormed(t) ==> WellFormed(r)
  {
    t.(completed := !t.completed, updatedAt := now)
  }

  // ---------------------------------------------------------------------
  // Each handler's effect on the table.

  function CreateIn(m: Table, id: TodoId, owner: UserId, f: TodoForm, now: Timestamp): (r: Table)
    requires id !in m
    ensures FormValid(f) ==> r.Keys == m.Keys + {id} && r[id] == FromForm(id, owner, f, now)
    ensures !FormValid(f) ==> r == m
    ensures forall k | k in m :: k in r && r[k] == m[k]
  {
    if FormValid(f) then m[id := FromForm(id, owner, f, now)] else m
  }

  function ToggleIn(m: Table, id: TodoId, owner: UserId, now: Timestamp): (r: Table)
    ensures r.Keys == m.Keys
    ensures forall k | k in m && k != id :: r[k] == m[k]
    ensures Lookup(m, id, owner).Some? ==> r[id] == Toggled(m[id], now)
    ensures Lookup(m, id, owner).None? ==> r == m
  {
    if Lookup(m, id, owner).Some? then m[id := Toggled(m[id], now)] else m
  }

  function EditIn(m: Table, id: TodoId, owner: UserId, f: TodoForm, now: Timestamp): (r: Table)
    ensures r.Keys == m.Keys
    ensures forall k | k in m && k != id :: r[k] == m[k]
    ensures Lookup(m, id, owner).Some? && FormValid(f) ==> r[id] == WithForm(m[id], f, now)
    ensures Lookup(m, id, owner).None? || !FormValid(f) ==> r == m
  {
    if Lookup(m, id, owner).Some? && FormValid(f) then m[id := WithForm(m[id], f, now)] else m
  }

  function DeleteIn(m: Table, id: TodoId, owner: UserId): (r: Table)
    ensures Lookup(m, id, owner).Some? ==> r.Keys == m.Keys - {id}
    ensures Lookup(m, id, owner).None? ==> r == m
    ensures forall k | k in r :: k in m && r[k] == m[k]
  {
    if Lookup(m, id, owner).Some? then m - {id} else m
  }

  // ---------------------------------------------------------------------
  // The table as the sequence of rows the pages read.

  /** Every row sits under its own primary key. */
  predicate KeyedById(m: Table)
  {
    forall id | id in m :: m[id].id == id
  }

  /** The rows whose key is below n, in key order: Todo.objects.all() on a
      table whose keys are all below n. */
  function Rows(m: Table, n: TodoId): seq<Todo>
  {
    if n == 0 then [] else Rows(m, n - 1) + (if n - 1 in m then [m[n - 1]] else [])
  }

  /** For a table keyed by id, Rows lists each row with a key below n once,
      no other row, and in increasing key order. */
  lemma {:induction false} RowsKeyed(m: Table, n: TodoId)
    requires KeyedById(m)
    ensures forall t :: multiset(Rows(m, n))[t] == (if t.id < n && t.id in m && m[t.id] == t then 1 else 0)
    ensures forall i | 0 <= i < |Rows(m, n)| :: Rows(m, n)[i].id < n
    ensures forall i, j | 0 <= i < j < |Rows(m, n)| :: Rows(m, n)[i].id < Rows(m, n)[j].id
  {
    if n > 0 {
      RowsKeyed(m, n - 1);
      var last := if n - 1 in m then [m[n - 1]] else [];
      RowsStepCount(m, n, Rows(m, n - 1), last);
      RowsStepOrder(m, n, Rows(m, n - 1), last);
    }
  }

  /** One step of Rows: appending the row under key n - 1, if any, to the
      rows below n - 1 counts each row below n once. */
  lemma RowsStepCount(m: Table, n: TodoId, front: seq<Todo>, last: seq<Todo>)
    requires n > 0 && KeyedById(m)
    requires forall t :: multiset(front)[t] == (if t.id < n - 1 && t.id in m && m[t.id] == t then 1 else 0)
    requires last == if n - 1 in m then [m[n - 1]] else []
    ensures forall t :: multiset(front + last)[t] == (if t.id < n && t.id in m && m[t.id] == t then 1 else 0)
  {
    forall t ensures multiset(front + last)[t] == (if t.id < n && t.id in m && m[t.id] == t then 1 else 0) {
      assert multiset(front + last)[t] == multiset(front)[t] + multiset(last)[t];
      if n - 1 in m {
        assert multiset(last)[t] == (if t == m[n - 1] then 1 else 0);
      }
    }
  }

  /** One step of Rows: the row under key n - 1 comes after every row below
      n - 1, so the rows stay in key order. */
  lemma RowsStepOrder(m: Table, n: TodoId, front: seq<Todo>, last: seq<Todo>)
    requires n > 0 && KeyedById(m)
    requires forall i | 0 <= i < |front| :: front[i].id < n - 1
    requires forall i, j | 0 <= i < j < |front| :: front[i].id < front[j].id
    requires last == if n - 1 in m then [m[n - 1]] else []
    ensures forall i | 0 <= i < |front + last| :: (front + last)[i].id < n
    ensures forall i, j | 0 <= i < j < |front + last| :: (front + last)[i].id < (front + last)[j].id
  {
  }

  function KeysBelow(m: Table, n: TodoId): set<TodoId>
  {
    set id | id in m && id < n
  }

  lemma {:induction false} RowsCountKeys(m: Table, n: TodoId)
    ensures |Rows(m, n)| == |KeysBelow(m, n)|
  {
    if n > 0 {
      RowsCountKeys(m, n - 1);
      if n - 1 in m {
        assert KeysBelow(m, n) == KeysBelow(m, n - 1) + {n - 1};
      } else {
        assert KeysBelow(m, n) == KeysBelow(m, n - 1);
      }
    }
  }

  /** A valid table, read as rows, has one row per key. */
  lemma RowsCount(m: Table, nextId: TodoId)
    requires TableValid(m, nextId)
    ensures |Rows(m, nextId)| == |m|
  {
    RowsCountKeys(m, nextId);
    assert KeysBelow(m, nextId) == m.Keys;
  }

  /** The owner's listing read from a valid table holds exactly the owner's
      rows of the table, each once: the sequence views.py:31 filters and the
      map the handlers change describe the same rows. */
  lemma PageShowsOwnedRows(m: Table, nextId: TodoId, owner: UserId, nullsLast: bool)
    requires TableValid(m, nextId)
    ensures forall t :: multiset(UserTodos(Rows(m, nextId), owner, "", nullsLast))[t]
                        == (if t.id in OwnedBy(m, owner) && OwnedBy(m, owner)[t.id] == t then 1 else 0)
  {
    RowsKeyed(m, nextId);
  }

  // ---------------------------------------------------------------------
  // Properties of the handlers.

  /** An id that belongs to another user is indistinguishable from an id
      that does not exist: the lookup fails exactly as it would if the row
      were absent, and no handler changes the table. */
  lemma ForeignIdActsAsMissing(m: Table, id: TodoId, owner: UserId, f: TodoForm, now: Timestamp)
    requires id in m && m[id].owner != owner
    ensures Lookup(m, id, owner) == Lookup(m - {id}, id, owner) == None
    ensures ToggleIn(m, id, owner, now) == m
    ensures EditIn(m, id, owner, f, now) == m
    ensures DeleteIn(m, id, owner) == m
  {
  }

  /** A table that differs from m at most at id, where neither holds a row
      of other, has the same rows of other. */
  lemma SameRowsOfOther(m: Table, r: Table, id: TodoId, other: UserId)
    requires forall k | k != id :: (k in r <==> k in m) && (k in r ==> r[k] == m[k])
    requires id in m ==> m[id].owner != other
    requires id in r ==> r[id].owner != other
    ensures OwnedBy(r, other) == OwnedBy(m, other)
  {
    assert OwnedBy(r, other).Keys == OwnedBy(m, other).Keys;
  }

  /** What one user does never changes another user's rows. */
  lemma OwnershipIsolation(m: Table, id: TodoId, owner: UserId, other: UserId,
      f: TodoForm, now: Timestamp)
    requires other != owner
    ensures OwnedBy(ToggleIn(m, id, owner, now), other) == OwnedBy(m, other)
    ensures OwnedBy(EditIn(m, id, owner, f, now), other) == OwnedBy(m, other)
    ensures OwnedBy(DeleteIn(m, id, owner), other) == OwnedBy(m, other)
    ensures id !in m ==> OwnedBy(CreateIn(m, id, owner, f, now), other) == OwnedBy(m, other)
  {
    if Lookup(m, id, owner).Some? {
      SameRowsOfOther(m, ToggleIn(m, id, owner, now), id, other);
      SameRowsOfOther(m, EditIn(m, id, owner, f, now), id, other);
      SameRowsOfOther(m, DeleteIn(m, id, owner), id, other);
    }
    if id !in m {
      SameRowsOfOther(m, CreateIn(m, id, owner, f, now), id, other);
    }
  }

  /** Deleting an id a second time finds nothing and changes nothing. */
  lemma DeleteTwiceFails(m: Table, id: TodoId, owner: UserId)
    ensures Lookup(DeleteIn(m, id, owner), id, owner).None?
    ensures DeleteIn(DeleteIn(m, id, owner), id, owner) == DeleteIn(m, id, owner)
  {
  }

  /** The owner finds the row created for them, and no other user does. */
  lemma CreateStampsOwner(m: Table, id: TodoId, owner: UserId, other: UserId, f: TodoForm, now: Timestamp)
    requires id !in m && FormValid(f) && other != owner
    ensures Lookup(CreateIn(m, id, owner, f, now), id, owner) == Some(FromForm(id, owner, f, now))
    ensures Lookup(CreateIn(m, id, owner, f, now), id, other).None?
  {
  }

  /** An edit never reassigns the owner, the completion flag or the
      creation time of any row. */
  lemma EditKeepsOwner(m: Table, id: TodoId, owner: UserId, f: TodoForm, now: Timestamp)
    ensures var r := EditIn(m, id, owner, f, now);
      forall k | k in r :: r[k].owner == m[k].owner && r[k].completed == m[k].completed
        && r[k].createdAt == m[k].createdAt
  {
  }

  /** Toggling twice restores the row, apart from updated_at. */
  lemma ToggleTwice(t: Todo, now1: Timestamp, now2: Timestamp)
    ensures Toggled(Toggled(t, now1), now2) == t.(updatedAt := now2)
  {
  }

  /** Toggling moves a row into or out of the completed bucket and leaves
      its today, tomorrow and upcoming memberships as they were; a toggled
      past-due row is overdue exactly when it was completed before. */
  lemma ToggleMovesStatusOnly(t: Todo, now: Timestamp, today: Date)
    ensures InCompleted(Toggled(t, now)) == !InCompleted(t)
    ensures InToday(Toggled(t, now), today) == InToday(t, today)
    ensures InTomorrow(Toggled(t, now), today) == InTomorrow(t, today)
    ensures InUpcoming(Toggled(t, now), today) == InUpcoming(t, today)
    ensures InOverdue(Toggled(t, now), today) == (t.dueDate.Some? && t.dueDate.value < today && t.completed)
  {
  }

  /** Toggling a row of the owner's page moves it into or out of the page's
      completed list and leaves it where it was in the today, tomorrow and
      upcoming lists: a row due today that is marked done is shown in both
      the today and the completed list. */
  lemma ToggleOnPage(m: Table, nextId: TodoId, id: TodoId, owner: UserId, now: Timestamp,
      today: Date, nullsLast: bool)
    requires TableValid(m, nextId) && Lookup(m, id, owner).Some?
    ensures var t := ToggleIn(m, id, owner, now)[id];
      var page := Home(Rows(ToggleIn(m, id, owner, now), nextId), owner, today, "", "", "", nullsLast);
      && (t in page.completed <==> !m[id].completed)
      && (t in page.today <==> InToday(m[id], today))
      && (t in page.tomorrow <==> InTomorrow(m[id], today))
      && (t in page.upcoming <==> InUpcoming(m[id], today))
  {
    var m' := ToggleIn(m, id, owner, now);
    var t := m'[id];
    assert KeyedById(m');
    RowsKeyed(m', nextId);
    assert multiset(Rows(m', nextId))[t] == 1;
    assert t in UserTodos(Rows(m', nextId), owner, "", nullsLast);
    ToggleMovesStatusOnly(m[id], now, today);
  }

  // ---------------------------------------------------------------------
  // Timestamps. created_at <= updated_at holds as long as the clock does
  // not run backwards, which the handlers cannot check: the clock is a
  // parameter here.

  /** No row was updated before it was created. */
  predicate Chronological(m: Table)
  {
    forall id | id in m :: m[id].createdAt <= m[id].updatedAt
  }

  /** Every row was last written no later than now. */
  predicate StampedBy(m: Table, now: Timestamp)
  {
    forall id | id in m :: m[id].updatedAt <= now
  }

  /** With a clock that has not run backwards, every handler keeps every
      row's created_at no later than its updated_at, and no row is stamped
      after now. */
  lemma HandlersKeepChronology(m: Table, id: TodoId, owner: UserId, f: TodoForm, now: Timestamp)
    requires Chronological(m) && StampedBy(m, now)
    ensures Chronological(ToggleIn(m, id, owner, now)) && StampedBy(ToggleIn(m, id, owner, now), now)
    ensures Chronological(EditIn(m, id, owner, f, now)) && StampedBy(EditIn(m, id, owner, f, now), now)
    ensures Chronological(DeleteIn(m, id, owner)) && StampedBy(DeleteIn(m, id, owner), now)
    ensures id !in m ==>
      Chronological(CreateIn(m, id, owner, f, now)) && StampedBy(CreateIn(m, id, owner, f, now), now)
  {
  }

  // ---------------------------------------------------------------------
  // add_todo as written: it assigns the owner only if hasattr(todo, 'user').

  /** hasattr(todo, 'user') on a row built by form.save(commit=False):
      reading a foreign key that is not set raises an exception that is an
      AttributeError, so hasattr answers true only once an owner is set. */
  predicate HasUserAttribute(draftOwner: Option<UserId>)
  {
    draftOwner.Some?
  }

  datatype SaveResult = Saved(table: Table) | IntegrityError

  /** todo.save() on a draft row: the owner column is NOT NULL. */
  function SaveDraft(m: Table, id: TodoId, draftOwner: Option<UserId>, f: TodoForm, now: Timestamp): SaveResult
  {
    if draftOwner.None? then IntegrityError else Saved(m[id := FromForm(id, draftOwner.value, f, now)])
  }

  /** add_todo on a POST. The draft from the form has no owner, so the
      branch that would set it is never taken. */
  function AddTodoAsWritten(m: Table, id: TodoId, owner: UserId, f: TodoForm, now: Timestamp): SaveResult
  {
    if !FormValid(f) then Saved(m)
    else
      var draftOwner: Option<UserId> := None;
      var stamped := if HasUserAttribute(draftOwner) then Some(owner) else draftOwner;
      SaveDraft(m, id, stamped, f, now)
  }

  /** As written, add_todo fails to save every valid form; creation by
      CreateIn, where the owner is assigned unconditionally (as home does),
      stores the row for the requesting user. */
  lemma AddTodoNeverSaves(m: Table, id: TodoId, owner: UserId, f: TodoForm, now: Timestamp)
    requires FormValid(f) && id !in m
    ensures AddTodoAsWritten(m, id, owner, f, now) == IntegrityError
    ensures Lookup(CreateIn(m, id, owner, f, now), id, owner).Some?
  {
  }

  // ---------------------------------------------------------------------
  // The table as an object the handlers update in place.

  datatype EditOutcome = NotFound | Invalid | Updated

  /** Every row sits under its own primary key, below the next key to be
      assigned, is well formed, and has the non-empty text its form
      validation demanded. */
  ghost predicate TableValid(m: Table, nextId: TodoId)
  {
    && KeyedById(m)
    && forall id | id in m :: id < nextId && WellFormed(m[id]) && 0 < |m[id].text|
  }

  class TodoStore {
    var todos: Table
    /** The next value of the auto-increment primary key. */
    var nextId: TodoId

    ghost predicate Valid()
      reads this
    {
      TableValid(todos, nextId)
    }

    constructor ()
      ensures Valid() && todos == map[] && nextId == 1
    {
      todos := map[];
      nextId := 1;
    }

    /** The POST branch of home (and add_todo with the owner assigned): a
        valid form becomes a new row owned by the requesting user under the
        next primary key; an invalid one changes nothing. */
    method Create(owner: UserId, f: TodoForm, now: Timestamp) returns (r: Option<TodoId>)
      requires Valid()
      modifies this
      ensures Valid()
      ensures r.Some? <==> FormValid(f)
      ensures r.Some? ==> r.value == old(nextId) && r.value !in old(todos)
      ensures nextId == if FormValid(f) then old(nextId) + 1 else old(nextId)
      ensures todos == CreateIn(old(todos), old(nextId), owner, f, now)
      ensures old(Chronological(todos) && StampedBy(todos, now)) ==> Chronological(todos) && StampedBy(todos, now)
    {
      assert nextId !in todos;
      if FormValid(f) {
        todos := todos[nextId := FromForm(nextId, owner, f, now)];
        r := Some(nextId);
        nextId := nextId + 1;
      } else {
        r := None;
      }
    }

    /** toggle_todo on a POST. */
    method Toggle(id: TodoId, owner: UserId, now: Timestamp) returns (found: bool)
      requires Valid()
      modifies this
      ensures Valid() && nextId == old(nextId)
      ensures found <==> Lookup(old(todos), id, owner).Some?
      ensures todos == ToggleIn(old(todos), id, owner, now)
      ensures old(Chronological(todos) && StampedBy(todos, now)) ==> Chronological(todos) && StampedBy(todos, now)
    {
      found := Lookup(todos, id, owner).Some?;
      if found {
        todos := todos[id := Toggled(todos[id], now)];
      }
    }

    /** edit_todo on a POST: not found first, then form validation. */
    method Edit(id: TodoId, owner: UserId, f: TodoForm, now: Timestamp) returns (outcome: EditOutcome)
      requires Valid()
      modifies this
      ensures Valid() && nextId == old(nextId)
      ensures outcome == NotFound <==> Lookup(old(todos), id, owner).None?
      ensures outcome == Invalid <==> Lookup(old(todos), id, owner).Some? && !FormValid(f)
      ensures todos == EditIn(old(todos), id, owner, f, now)
      ensures old(Chronological(todos) && StampedBy(todos, now)) ==> Chronological(todos) && StampedBy(todos, now)
    {
      if Lookup(todos, id, owner).None? {
        outcome := NotFound;
      } else if !FormValid(f) {
        outcome := Invalid;
      } else {
        todos := todos[id := WithForm(todos[id], f, now)];
        outcome := Updated;
      }
    }

    /** delete_todo on a POST. */
    method Delete(id: TodoId, owner: UserId) returns (found: bool)
      requires Valid()
      modifies this
      ensures Valid() && nextId == old(nextId)
      ensures found <==> Lookup(old(todos), id, owner).Some?
      ensures todos == DeleteIn(old(todos), id, owner)
    {
      found := Lookup(todos, id, owner).Some?;
      if found {
        todos := todos - {id};
      }
    }
  }

  /** Deleting the same id twice through the store: the second call reports
      not found and leaves the table as the first call left it. */
  method DeleteTwice(store: TodoStore, id: TodoId, owner: UserId) returns (first: bool, second: bool)
    requires store.Valid()
    modifies store
    ensures !second
    ensures first <==> Lookup(old(store.todos), id, owner).Some?
    ensures store.todos == DeleteIn(old(store.todos), id, owner)
  {
    first := store.Delete(id, owner);
    second := store.Delete(id, owner);
  }
}
