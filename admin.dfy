/** The administration side (myapp/admin.py): the statistics changelist_view
    shows over every user's rows, and the five bulk actions that set the
    completion flag or the priority of the selected rows. */
module Admin {
  import opened Models
  import opened Buckets
  import opened Store

  // ---------------------------------------------------------------------
  // Statistics.

  /** round(completed / total * 100, 1), or 0 when there are no rows, in
      tenths of a percent: the exact ratio rounded to the nearest tenth,
      ties to even. */
  function CompletionRateTenths(completed: nat, total: nat): (r: nat)
    ensures total == 0 ==> r == 0
    ensures total > 0 ==> -(total as int) <= 2 * (r * total - completed * 1000) <= total
    ensures completed <= total ==> r <= 1000
  {
    if total == 0 then 0
    else
      var q := completed * 1000 / total;
      var rem := completed * 1000 % total;
      RateBounds(completed, total, q, rem);
      if 2 * rem > total || (2 * rem == total && q % 2 == 1) then q + 1 else q
  }

  lemma RateBounds(completed: nat, total: nat, q: int, rem: int)
    requires total > 0 && q == completed * 1000 / total && rem == completed * 1000 % total
    ensures completed * 1000 == q * total + rem && 0 <= rem < total && q >= 0
    ensures q * total - completed * 1000 == -rem
    ensures (q + 1) * total - completed * 1000 == total - rem
    ensures completed <= total ==> q <= 1000 && (q == 1000 ==> rem == 0)
  {
    assert (q + 1) * total == q * total + total;
    if completed <= total && q >= 1000 {
      assert q * total >= 1000 * total;
      assert completed * 1000 <= total * 1000;
    }
  }

  /** The rate of the worked examples: nothing to count gives 0, one of four
      gives 25.0, two of three gives 66.7, and one of sixteen (6.25 exactly)
      rounds to the even 6.2. */
  lemma CompletionRateExamples()
    ensures CompletionRateTenths(0, 0) == 0
    ensures CompletionRateTenths(1, 4) == 250
    ensures CompletionRateTenths(2, 3) == 667
    ensures CompletionRateTenths(1, 16) == 62
  {
  }

  function CompletedRows(rows: seq<Todo>): seq<Todo>
  {
    Filter(rows, (t: Todo) => t.completed)
  }

  function PriorityRows(rows: seq<Todo>, priority: string): seq<Todo>
  {
    Filter(rows, (t: Todo) => t.priority == priority)
  }

  /** Todo.objects.filter(due_date=today). */
  function DueOnRows(rows: seq<Todo>, today: Date): seq<Todo>
  {
    Filter(rows, (t: Todo) => t.dueDate == Some(today))
  }

  datatype Statistics = Statistics(
    total: nat,
    completed: nat,
    pending: int,
    completionRateTenths: nat,
    high: nat,
    medium: nat,
    low: nat,
    overdue: nat,
    dueToday: nat)

  /** The figures of the changelist, over all rows of all users. */
  function ChangelistStatistics(rows: seq<Todo>, today: Date): (s: Statistics)
    ensures s.total == |rows| && s.completed <= s.total
    ensures s.completed == |CompletedBucket(rows)|
    ensures s.pending == s.total - s.completed && s.pending >= 0
    ensures s.completionRateTenths == CompletionRateTenths(s.completed, s.total)
    ensures s.total == 0 ==> s.completionRateTenths == 0
    ensures s.completionRateTenths <= 1000
    ensures s.high == |PriorityRows(rows, "high")|
    ensures s.medium == |PriorityRows(rows, "medium")|
    ensures s.low == |PriorityRows(rows, "low")|
    ensures s.overdue == |OverdueBucket(rows, today)|
    ensures s.dueToday == |DueOnRows(rows, today)|
  {
    var total := |rows|;
    var completed := |CompletedRows(rows)|;
    FilterSame(rows, (t: Todo) => t.completed, InCompleted);
    var overdue := Filter(rows, (t: Todo) => t.dueDate.Some? && t.dueDate.value < today && !t.completed);
    FilterSame(rows, (t: Todo) => t.dueDate.Some? && t.dueDate.value < today && !t.completed,
      (t: Todo) => InOverdue(t, today));
    Statistics(
      total,
      completed,
      total - completed,
      CompletionRateTenths(completed, total),
      |PriorityRows(rows, "high")|,
      |PriorityRows(rows, "medium")|,
      |PriorityRows(rows, "low")|,
      |overdue|,
      |DueOnRows(rows, today)|)
  }

  /** A priority count counts its first row, then the rest. */
  lemma PriorityRowsStep(rows: seq<Todo>, priority: string)
    requires rows != []
    ensures |PriorityRows(rows, priority)|
      == |PriorityRows(rows[1..], priority)| + (if rows[0].priority == priority then 1 else 0)
  {
  }

  /** Given the closed priority list, the three priority rows of stored
      rows add up to all of them. */
  lemma {:induction false} PriorityRowsPartition(rows: seq<Todo>)
    requires forall t | t in rows :: WellFormed(t)
    ensures |PriorityRows(rows, "high")| + |PriorityRows(rows, "medium")| + |PriorityRows(rows, "low")| == |rows|
  {
    if rows != [] {
      WellFormedTail(rows);
      PriorityRowsPartition(rows[1..]);
      PriorityRowsStep(rows, "high");
      PriorityRowsStep(rows, "medium");
      PriorityRowsStep(rows, "low");
    }
  }

  lemma PriorityCountsCoverTotal(rows: seq<Todo>, today: Date)
    requires forall t | t in rows :: WellFormed(t)
    ensures var s := ChangelistStatistics(rows, today);
      s.high + s.medium + s.low == s.total
  {
    PriorityRowsPartition(rows);
  }

  /** The rows with no due date that were created today. */
  function UndatedCreatedOn(rows: seq<Todo>, today: Date): seq<Todo>
  {
    Filter(rows, (t: Todo) => t.dueDate.None? && DateOf(t.createdAt) == today)
  }

  /** The figure "due today" counts only due_date = today: a page's today
      bucket over the same rows holds exactly those plus the undated rows
      created today. */
  lemma DueTodayVersusTodayBucket(rows: seq<Todo>, today: Date)
    ensures |TodayBucket(rows, today)|
      == ChangelistStatistics(rows, today).dueToday + |UndatedCreatedOn(rows, today)|
  {
    FilterDisjointUnion(rows, (t: Todo) => t.dueDate == Some(today),
      (t: Todo) => t.dueDate.None? && DateOf(t.createdAt) == today,
      (t: Todo) => InToday(t, today));
  }

  /** Over a valid table, read as rows, the total is the number of rows
      stored. */
  lemma StatisticsOfStore(m: Table, nextId: TodoId, today: Date)
    requires TableValid(m, nextId)
    ensures ChangelistStatistics(Rows(m, nextId), today).total == |m|
  {
    RowsCount(m, nextId);
  }

  /** The overdue figure uses the rule of the overdue bucket over every
      user's rows: each row overdue on some owner's page is counted in it. */
  lemma OverdueFigureCoversEveryOwner(rows: seq<Todo>, today: Date, owner: UserId, search: string,
      nullsLast: bool)
    ensures forall t :: t in OverdueBucket(UserTodos(rows, owner, search, nullsLast), today) ==>
      t in OverdueBucket(rows, today)
  {
  }

  // ---------------------------------------------------------------------
  // Bulk actions: queryset.update(field=value, updated_at=now).

  datatype BulkAction = SetCompleted(value: bool) | SetPriority(priority: string)

  predicate ActionValid(a: BulkAction)
  {
    a.SetPriority? ==> a.priority in PriorityChoices
  }

  /** The row after the action: the action's field and updated_at change,
      nothing else. */
  function Applied(t: Todo, a: BulkAction, now: Timestamp): (r: Todo)
    ensures r.(completed := t.completed, priority := t.priority, updatedAt := t.updatedAt) == t
    ensures r.updatedAt == now
    ensures a.SetCompleted? ==> r.completed == a.value && r.priority == t.priority
    ensures a.SetPriority? ==> r.priority == a.priority && r.completed == t.completed
    ensures WellFormed(t) && ActionValid(a) ==> WellFormed(r)
  {
    match a
    case SetCompleted(value) => t.(completed := value, updatedAt := now)
    case SetPriority(priority) => t.(priority := priority, updatedAt := now)
  }

  /** The table after the action on the selected ids. */
  function BulkIn(m: Table, selected: set<TodoId>, a: BulkAction, now: Timestamp): (r: Table)
    ensures r.Keys == m.Keys
    ensures forall k | k in m && k in selected :: r[k] == Applied(m[k], a, now)
    ensures forall k | k in m && k !in selected :: r[k] == m[k]
  {
    map k | k in m :: if k in selected then Applied(m[k], a, now) else m[k]
  }

  /** Applying an action a second time to the same selection gives the state
      the second application alone would give: the field is already set,
      only updated_at moves. */
  lemma BulkIdempotent(m: Table, selected: set<TodoId>, a: BulkAction, now1: Timestamp, now2: Timestamp)
    ensures BulkIn(BulkIn(m, selected, a, now1), selected, a, now2) == BulkIn(m, selected, a, now2)
    ensures BulkIn(BulkIn(m, selected, a, now1), selected, a, now1) == BulkIn(m, selected, a, now1)
  {
    var once := BulkIn(m, selected, a, now2);
    var twice := BulkIn(BulkIn(m, selected, a, now1), selected, a, now2);
    assert twice.Keys == once.Keys;
    forall k | k in twice ensures twice[k] == once[k] {
      if k in selected {
        match a
        case SetCompleted(_) =>
        case SetPriority(_) =>
      }
    }
  }

  /** One step of the update loop: moving one pending id to the done set
      rewrites that row and keeps the selection accounted for. */
  lemma BulkStep(m: Table, selected: set<TodoId>, done: set<TodoId>, pending: set<TodoId>,
      id: TodoId, r: Table, a: BulkAction, now: Timestamp)
    requires pending + done == selected * m.Keys && pending !! done && id in pending
    requires r == BulkIn(m, done, a, now)
    ensures (pending - {id}) + (done + {id}) == selected * m.Keys && (pending - {id}) !! (done + {id})
    ensures id in r && r[id := Applied(r[id], a, now)] == BulkIn(m, done + {id}, a, now)
    ensures |done + {id}| == |done| + 1
  {
    var l := BulkIn(m, done + {id}, a, now);
    var u := r[id := Applied(r[id], a, now)];
    assert l.Keys == u.Keys;
  }

  /** Only the selected ids that name a row matter, and an empty selection
      changes nothing. */
  lemma BulkSelection(m: Table, selected: set<TodoId>, a: BulkAction, now: Timestamp)
    ensures BulkIn(m, selected * m.Keys, a, now) == BulkIn(m, selected, a, now)
    ensures BulkIn(m, {}, a, now) == m
  {
    assert BulkIn(m, selected * m.Keys, a, now).Keys == BulkIn(m, selected, a, now).Keys;
    assert BulkIn(m, {}, a, now).Keys == m.Keys;
  }

  /** A valid action keeps a valid table valid. */
  lemma BulkKeepsValid(m: Table, nextId: TodoId, selected: set<TodoId>, a: BulkAction, now: Timestamp)
    requires TableValid(m, nextId) && ActionValid(a)
    ensures TableValid(BulkIn(m, selected, a, now), nextId)
  {
  }

  /** With a clock that has not run backwards, a bulk action keeps every
      row's created_at no later than its updated_at. */
  lemma BulkKeepsChronology(m: Table, selected: set<TodoId>, a: BulkAction, now: Timestamp)
    requires Chronological(m) && StampedBy(m, now)
    ensures Chronological(BulkIn(m, selected, a, now)) && StampedBy(BulkIn(m, selected, a, now), now)
  {
  }

  /** The rows of queryset.update: every selected row of m is rewritten,
      one at a time, and the number of rows rewritten is counted. */
  method UpdateSelected(m: Table, selected: set<TodoId>, a: BulkAction, now: Timestamp)
      returns (r: Table, updated: nat)
    ensures r == BulkIn(m, selected, a, now)
    ensures updated == |selected * m.Keys|
  {
    r := m;
    var pending := selected * m.Keys;
    ghost var done: set<TodoId> := {};
    updated := 0;
    BulkSelection(m, selected, a, now);
    while pending != {}
      invariant pending + done == selected * m.Keys && pending !! done
      invariant r == BulkIn(m, done, a, now)
      invariant updated == |done|
      decreases pending
    {
      var id :| id in pending;
      BulkStep(m, selected, done, pending, id, r, a, now);
      r := r[id := Applied(r[id], a, now)];
      pending := pending - {id};
      done := done + {id};
      updated := updated + 1;
    }
  }

  /** queryset.update(...) on the store: the selected rows that exist are
      updated in one statement and their number is returned. */
  method BulkUpdate(store: TodoStore, selected: set<TodoId>, a: BulkAction, now: Timestamp)
      returns (updated: nat)
    requires store.Valid() && ActionValid(a)
    modifies store
    ensures store.Valid() && store.nextId == old(store.nextId)
    ensures store.todos == BulkIn(old(store.todos), selected, a, now)
    ensures updated == |selected * old(store.todos).Keys|
    ensures old(Chronological(store.todos) && StampedBy(store.todos, now)) ==>
      Chronological(store.todos) && StampedBy(store.todos, now)
  {
    BulkKeepsValid(store.todos, store.nextId, selected, a, now);
    if Chronological(store.todos) && StampedBy(store.todos, now) {
      BulkKeepsChronology(store.todos, selected, a, now);
    }
    var r;
    r, updated := UpdateSelected(store.todos, selected, a, now);
    store.todos := r;
  }

  method MarkCompleted(store: TodoStore, selected: set<TodoId>, now: Timestamp) returns (updated: nat)
    requires store.Valid()
    modifies store
    ensures store.Valid() && store.nextId == old(store.nextId)
    ensures store.todos == BulkIn(old(store.todos), selected, SetCompleted(true), now)
    ensures updated == |selected * old(store.todos).Keys|
  {
    updated := BulkUpdate(store, selected, SetCompleted(true), now);
  }

  method MarkIncomplete(store: TodoStore, selected: set<TodoId>, now: Timestamp) returns (updated: nat)
    requires store.Valid()
    modifies store
    ensures store.Valid() && store.nextId == old(store.nextId)
    ensures store.todos == BulkIn(old(store.todos), selected, SetCompleted(false), now)
    ensures updated == |selected * old(store.todos).Keys|
  {
    updated := BulkUpdate(store, selected, SetCompleted(false), now);
  }

  method SetHighPriority(store: TodoStore, selected: set<TodoId>, now: Timestamp) returns (updated: nat)
    requires store.Valid()
    modifies store
    ensures store.Valid() && store.nextId == old(store.nextId)
    ensures store.todos == BulkIn(old(store.todos), selected, SetPriority("high"), now)
    ensures updated == |selected * old(store.todos).Keys|
  {
    updated := BulkUpdate(store, selected, SetPriority("high"), now);
  }

  method SetMediumPriority(store: TodoStore, selected: set<TodoId>, now: Timestamp) returns (updated: nat)
    requires store.Valid()
    modifies store
    ensures store.Valid() && store.nextId == old(store.nextId)
    ensures store.todos == BulkIn(old(store.todos), selected, SetPriority("medium"), now)
    ensures updated == |selected * old(store.todos).Keys|
  {
    updated := BulkUpdate(store, selected, SetPriority("medium"), now);
  }

  method SetLowPriority(store: TodoStore, selected: set<TodoId>, now: Timestamp) returns (updated: nat)
    requires store.Valid()
    modifies store
    ensures store.Valid() && store.nextId == old(store.nextId)
    ensures store.todos == BulkIn(old(store.todos), selected, SetPriority("low"), now)
    ensures updated == |selected * old(store.todos).Keys|
  {
    updated := BulkUpdate(store, selected, SetPriority("low"), now);
  }
}
