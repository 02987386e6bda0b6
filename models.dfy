/** The Todo record of the application (myapp/models.py): its fields and
    their defaults, the choice lists of priority and category, the date
    predicates is_today, is_tomorrow and is_upcoming, the colour and icon
    lookups, and the declared listing order (due date ascending, then
    creation time descending). */
module Models {

  datatype Option<T> = None | Some(value: T)

  /** Identity of a user, supplied by the authentication layer. */
  type UserId = nat
  /** Primary key of a Todo row. */
  type TodoId = nat
  /** A calendar date, as a day number. */
  type Date = int
  /** A time of day, as seconds after midnight. */
  type TimeOfDay = int
  /** A timestamp, as seconds since the epoch in UTC. */
  type Timestamp = int

  const SecondsPerDay: int := 86400
  const MaxTextLength: nat := 200

  /** The stored values of PRIORITY_CHOICES and CATEGORY_CHOICES. */
  const PriorityChoices: seq<string> := ["low", "medium", "high"]
  const CategoryChoices: seq<string> := ["work", "home", "personal"]

  const DefaultPriority: string := "medium"
  const DefaultCategory: string := "personal"

  /** The calendar date (UTC) of a timestamp; Dafny's division is floor
      division for a positive divisor, as Python's is. */
  function DateOf(ts: Timestamp): (d: Date)
    ensures d * SecondsPerDay <= ts < (d + 1) * SecondsPerDay
  {
    ts / SecondsPerDay
  }

  /** One row of the todo table. Priority and category are stored as the
      strings of their choice lists, as the character columns store them. */
  datatype Todo = Todo(
    id: TodoId,
    owner: UserId,
    text: string,
    completed: bool,
    dueDate: Option<Date>,
    dueTime: Option<TimeOfDay>,
    priority: string,
    category: string,
    createdAt: Timestamp,
    updatedAt: Timestamp)

  /** What the field declarations demand of a stored row: the text fits its
      200-character column, and priority and category are values of their
      choice lists. */
  predicate WellFormed(t: Todo)
  {
    && |t.text| <= MaxTextLength
    && t.priority in PriorityChoices
    && t.category in CategoryChoices
  }

  /** A row built from the field defaults alone, saved at time now. */
  function NewTodo(id: TodoId, owner: UserId, text: string, now: Timestamp): (t: Todo)
    ensures !t.completed && t.dueDate.None? && t.dueTime.None?
    ensures t.priority == "medium" && t.category == "personal"
    ensures t.createdAt == t.updatedAt == now
    ensures WellFormed(t) <==> |text| <= MaxTextLength
  {
    Todo(id, owner, text, false, None, None, DefaultPriority, DefaultCategory, now, now)
  }

  // ---------------------------------------------------------------------
  // Date predicates. The clock is a parameter: today is the current date.

  predicate IsToday(t: Todo, today: Date)
  {
    if t.dueDate.Some? then t.dueDate.value == today else false
  }

  predicate IsTomorrow(t: Todo, today: Date)
  {
    if t.dueDate.Some? then t.dueDate.value == today + 1 else false
  }

  predicate IsUpcoming(t: Todo, today: Date)
  {
    if t.dueDate.Some? then t.dueDate.value > today + 1 else false
  }

  /** The three date predicates are each "the due date is present and
      compares so with today"; at most one of them holds, and none holds
      without a due date, whenever the row was created. */
  lemma DatePredicatesExclusive(t: Todo, today: Date)
    ensures IsToday(t, today) <==> t.dueDate == Some(today)
    ensures IsTomorrow(t, today) <==> t.dueDate == Some(today + 1)
    ensures IsUpcoming(t, today) <==> t.dueDate.Some? && t.dueDate.value > today + 1
    ensures !(IsToday(t, today) && IsTomorrow(t, today))
    ensures !(IsToday(t, today) && IsUpcoming(t, today))
    ensures !(IsTomorrow(t, today) && IsUpcoming(t, today))
    ensures t.dueDate.None? ==> !IsToday(t, today) && !IsTomorrow(t, today) && !IsUpcoming(t, today)
  {
  }

  /** A present due date is either in the past or satisfies exactly one of
      the three predicates. */
  lemma DatePredicatesCoverFuture(t: Todo, today: Date)
    requires t.dueDate.Some? && t.dueDate.value >= today
    ensures IsToday(t, today) || IsTomorrow(t, today) || IsUpcoming(t, today)
  {
  }

  // ---------------------------------------------------------------------
  // Colour and icon lookups: a dictionary lookup with a fallback value.

  const PriorityColors: map<string, string> :=
    map["low" := "#4CAF50", "medium" := "#FF9800", "high" := "#F44336"]
  const PriorityFallbackColor: string := "#9E9E9E"

  const CategoryColors: map<string, string> :=
    map["work" := "#2196F3", "home" := "#4CAF50", "personal" := "#9C27B0"]
  const CategoryFallbackColor: string := "#607D8B"

  const CategoryIcons: map<string, string> :=
    map["work" := "\U{1F4BC}", "home" := "\U{1F3E0}", "personal" := "\U{1F464}"]
  const CategoryFallbackIcon: string := "\U{1F4DD}"

  function PriorityColor(t: Todo): (c: string)
    ensures t.priority in PriorityChoices <==> c != PriorityFallbackColor
    ensures t.priority == "low" ==> c == "#4CAF50"
    ensures t.priority == "medium" ==> c == "#FF9800"
    ensures t.priority == "high" ==> c == "#F44336"
  {
    if t.priority in PriorityColors then PriorityColors[t.priority] else PriorityFallbackColor
  }

  function CategoryColor(t: Todo): (c: string)
    ensures t.category in CategoryChoices <==> c != CategoryFallbackColor
    ensures t.category == "work" ==> c == "#2196F3"
    ensures t.category == "home" ==> c == "#4CAF50"
    ensures t.category == "personal" ==> c == "#9C27B0"
  {
    if t.category in CategoryColors then CategoryColors[t.category] else CategoryFallbackColor
  }

  function CategoryIcon(t: Todo): (icon: string)
    ensures t.category in CategoryChoices <==> icon != CategoryFallbackIcon
    ensures t.category == "work" ==> icon == "\U{1F4BC}"
    ensures t.category == "home" ==> icon == "\U{1F3E0}"
    ensures t.category == "personal" ==> icon == "\U{1F464}"
    ensures |icon| == 1
  {
    if t.category in CategoryIcons then CategoryIcons[t.category] else CategoryFallbackIcon
  }

  /** A stored row never shows a fallback colour or icon. */
  lemma WellFormedHasNoFallback(t: Todo)
    requires WellFormed(t)
    ensures PriorityColor(t) != PriorityFallbackColor
    ensures CategoryColor(t) != CategoryFallbackColor
    ensures CategoryIcon(t) != CategoryFallbackIcon
  {
  }

  // ---------------------------------------------------------------------
  // Listing order: ordering = ['due_date', '-created_at'].
  // Where NULL due dates go under an ascending order is up to the
  // database (last on PostgreSQL, first on SQLite): nullsLast says which.

  /** The due date a comes strictly before the due date b. */
  predicate DueBefore(a: Option<Date>, b: Option<Date>, nullsLast: bool)
  {
    match (a, b)
    case (Some(x), Some(y)) => x < y
    case (Some(_), None) => nullsLast
    case (None, Some(_)) => !nullsLast
    case (None, None) => false
  }

  /** a may be listed before b. */
  predicate InOrder(a: Todo, b: Todo, nullsLast: bool)
  {
    || DueBefore(a.dueDate, b.dueDate, nullsLast)
    || (a.dueDate == b.dueDate && a.createdAt >= b.createdAt)
  }

  predicate Sorted(s: seq<Todo>, nullsLast: bool)
  {
    forall i, j :: 0 <= i < j < |s| ==> InOrder(s[i], s[j], nullsLast)
  }

  lemma InOrderTotal(a: Todo, b: Todo, nullsLast: bool)
    ensures InOrder(a, b, nullsLast) || InOrder(b, a, nullsLast)
  {
  }

  lemma InOrderTransitive(a: Todo, b: Todo, c: Todo, nullsLast: bool)
    requires InOrder(a, b, nullsLast) && InOrder(b, c, nullsLast)
    ensures InOrder(a, c, nullsLast)
  {
  }

  /** Insert x before the first element it may precede. */
  function Insert(x: Todo, s: seq<Todo>, nullsLast: bool): seq<Todo>
  {
    if s == [] then [x]
    else if InOrder(x, s[0], nullsLast) then [x] + s
    else [s[0]] + Insert(x, s[1..], nullsLast)
  }

  lemma {:induction false} InsertPermutes(x: Todo, s: seq<Todo>, nullsLast: bool)
    ensures multiset(Insert(x, s, nullsLast)) == multiset(s) + multiset{x}
  {
    if s != [] && !InOrder(x, s[0], nullsLast) {
      InsertPermutes(x, s[1..], nullsLast);
      assert s == [s[0]] + s[1..];
    }
  }

  lemma SortedTail(s: seq<Todo>, nullsLast: bool)
    requires Sorted(s, nullsLast) && s != []
    ensures Sorted(s[1..], nullsLast)
  {
    var tail := s[1..];
    forall i, j | 0 <= i < j < |tail| ensures InOrder(tail[i], tail[j], nullsLast) {
      assert tail[i] == s[i + 1] && tail[j] == s[j + 1];
    }
  }

  /** Putting x in front of a sorted s that x may precede keeps it sorted. */
  lemma SortedCons(x: Todo, s: seq<Todo>, nullsLast: bool)
    requires Sorted(s, nullsLast)
    requires forall k :: 0 <= k < |s| ==> InOrder(x, s[k], nullsLast)
    ensures Sorted([x] + s, nullsLast)
  {
    var r := [x] + s;
    forall i, j | 0 <= i < j < |r| ensures InOrder(r[i], r[j], nullsLast) {
      if i == 0 {
        assert r[j] == s[j - 1];
      } else {
        assert r[i] == s[i - 1] && r[j] == s[j - 1];
      }
    }
  }

  lemma {:induction false} InsertSorted(x: Todo, s: seq<Todo>, nullsLast: bool)
    requires Sorted(s, nullsLast)
    ensures Sorted(Insert(x, s, nullsLast), nullsLast)
  {
    if s == [] {
    } else if InOrder(x, s[0], nullsLast) {
      forall k | 0 <= k < |s| ensures InOrder(x, s[k], nullsLast) {
        if k > 0 { InOrderTransitive(x, s[0], s[k], nullsLast); }
      }
      SortedCons(x, s, nullsLast);
    } else {
      InOrderTotal(x, s[0], nullsLast);
      var tail := s[1..];
      SortedTail(s, nullsLast);
      InsertSorted(x, tail, nullsLast);
      InsertPermutes(x, tail, nullsLast);
      var rest := Insert(x, tail, nullsLast);
      forall k | 0 <= k < |rest| ensures InOrder(s[0], rest[k], nullsLast) {
        var y := rest[k];
        assert y in multiset(rest);
        if y != x {
          assert y in multiset(tail);
          var m :| 0 <= m < |tail| && tail[m] == y;
          assert s[m + 1] == y;
        }
      }
      SortedCons(s[0], rest, nullsLast);
    }
  }

  lemma MultisetCons(rows: seq<Todo>)
    requires rows != []
    ensures multiset(rows) == multiset(rows[1..]) + multiset{rows[0]}
  {
    assert rows == [rows[0]] + rows[1..];
  }

  /** The rows in the declared listing order: a permutation of the input,
      ordered by due date ascending, then by creation time descending. */
  function Ordered(rows: seq<Todo>, nullsLast: bool): (r: seq<Todo>)
    ensures multiset(r) == multiset(rows)
    ensures Sorted(r, nullsLast)
  {
    if rows == [] then []
    else
      var rest := Ordered(rows[1..], nullsLast);
      InsertPermutes(rows[0], rest, nullsLast);
      InsertSorted(rows[0], rest, nullsLast);
      MultisetCons(rows);
      Insert(rows[0], rest, nullsLast)
  }

  /** A listing holds exactly the rows it was given. */
  lemma OrderedSameRows(rows: seq<Todo>, nullsLast: bool)
    ensures forall t :: t in Ordered(rows, nullsLast) <==> t in rows
  {
    var r := Ordered(rows, nullsLast);
    forall t ensures t in r <==> t in rows {
      assert t in r <==> t in multiset(r);
      assert t in rows <==> t in multiset(rows);
    }
  }

  /** In a listing, a row due earlier comes first, and among rows due the
      same day the later-created one comes first. */
  lemma OrderedListing(rows: seq<Todo>, nullsLast: bool, i: nat, j: nat)
    requires i < j < |Ordered(rows, nullsLast)|
    ensures var r := Ordered(rows, nullsLast);
      DueBefore(r[i].dueDate, r[j].dueDate, nullsLast) || r[i].dueDate == r[j].dueDate
    ensures var r := Ordered(rows, nullsLast);
      r[i].dueDate == r[j].dueDate ==> r[i].createdAt >= r[j].createdAt
  {
  }
}
