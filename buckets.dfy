/** The list page of the application (home in myapp/views.py): the owner's
    rows narrowed by a case-insensitive search, the five date and status
    buckets, the "current" list chosen by category and view, and the
    sidebar counts. All of it is a query over the rows, computed afresh for
    each request, so it is written as functions over a sequence. */
module Buckets {
  import opened Models

  // ---------------------------------------------------------------------
  // Filtering a sequence of rows, keeping their order.

  function Filter(s: seq<Todo>, p: Todo -> bool): (r: seq<Todo>)
    ensures |r| <= |s|
    ensures forall t :: t in r <==> t in s && p(t)
    ensures forall t :: multiset(r)[t] == if p(t) then multiset(s)[t] else 0
  {
    if s == [] then []
    else
      MultisetCons(s);
      if p(s[0]) then [s[0]] + Filter(s[1..], p)
      else Filter(s[1..], p)
  }

  /** Filtering keeps the listing order. */
  lemma {:induction false} FilterSorted(s: seq<Todo>, p: Todo -> bool, nullsLast: bool)
    requires Sorted(s, nullsLast)
    ensures Sorted(Filter(s, p), nullsLast)
  {
    if s != [] {
      SortedTail(s, nullsLast);
      FilterSorted(s[1..], p, nullsLast);
      var rest := Filter(s[1..], p);
      if p(s[0]) {
        forall k | 0 <= k < |rest| ensures InOrder(s[0], rest[k], nullsLast) {
          assert rest[k] in s[1..];
          var m :| 0 <= m < |s[1..]| && s[1..][m] == rest[k];
          assert s[m + 1] == rest[k];
        }
        SortedCons(s[0], rest, nullsLast);
      }
    }
  }

  /** A filter by a disjunction of two exclusive conditions counts the rows
      of each condition. */
  lemma {:induction false} FilterDisjointUnion(s: seq<Todo>, p: Todo -> bool, q: Todo -> bool, pq: Todo -> bool)
    requires forall t | t in s :: pq(t) == (p(t) || q(t)) && !(p(t) && q(t))
    ensures |Filter(s, pq)| == |Filter(s, p)| + |Filter(s, q)|
  {
    if s != [] {
      assert forall t | t in s[1..] :: t in s;
      FilterDisjointUnion(s[1..], p, q, pq);
    }
  }

  /** Filters by two conditions that agree on every row give the same rows. */
  lemma {:induction false} FilterSame(s: seq<Todo>, p: Todo -> bool, q: Todo -> bool)
    requires forall t | t in s :: p(t) == q(t)
    ensures Filter(s, p) == Filter(s, q)
  {
    if s != [] {
      assert forall t | t in s[1..] :: t in s;
      FilterSame(s[1..], p, q);
    }
  }

  // ---------------------------------------------------------------------
  // The search: text__icontains, with ASCII case folding.

  function LowerChar(c: char): char
  {
    if 'A' <= c <= 'Z' then (c as int + 32) as char else c
  }

  function Lower(s: string): (r: string)
    ensures |r| == |s|
    ensures forall i :: 0 <= i < |s| ==> r[i] == LowerChar(s[i])
  {
    seq(|s|, i requires 0 <= i < |s| => LowerChar(s[i]))
  }

  predicate OccursAt(s: string, q: string, i: int)
  {
    0 <= i && i + |q| <= |s| && s[i..i + |q|] == q
  }

  predicate ContainsSubstring(s: string, q: string)
  {
    exists i | 0 <= i <= |s| :: OccursAt(s, q, i)
  }

  /** text contains q, ignoring the case of ASCII letters. */
  predicate IContains(text: string, q: string)
  {
    ContainsSubstring(Lower(text), Lower(q))
  }

  lemma LowerIdempotent(s: string)
    ensures Lower(Lower(s)) == Lower(s)
  {
  }

  /** The empty query matches everything, a text matches itself, and the
      case of the query's letters does not matter. */
  lemma IContainsFacts(text: string, q: string)
    ensures IContains(text, "")
    ensures IContains(text, text)
    ensures IContains(text, q) <==> IContains(text, Lower(q))
  {
    assert OccursAt(Lower(text), Lower(""), 0);
    assert Lower(text)[0..|Lower(text)|] == Lower(text);
    assert OccursAt(Lower(text), Lower(text), 0);
    LowerIdempotent(q);
  }

  // ---------------------------------------------------------------------
  // The owner's rows, in listing order, narrowed by the search.

  /** Todo.objects.filter(user=owner), then .filter(text__icontains=search)
      when the search is not empty. */
  function UserTodos(table: seq<Todo>, owner: UserId, search: string, nullsLast: bool): (r: seq<Todo>)
    ensures Sorted(r, nullsLast)
    ensures forall t :: t in r <==> t in table && t.owner == owner && (search == "" || IContains(t.text, search))
    ensures forall t :: multiset(r)[t]
                        == (if t.owner == owner && (search == "" || IContains(t.text, search))
                            then multiset(table)[t] else 0)
  {
    OrderedSameRows(table, nullsLast);
    var owned := Filter(Ordered(table, nullsLast), (t: Todo) => t.owner == owner);
    FilterSorted(Ordered(table, nullsLast), (t: Todo) => t.owner == owner, nullsLast);
    if search != "" then
      FilterSorted(owned, (t: Todo) => IContains(t.text, search), nullsLast);
      Filter(owned, (t: Todo) => IContains(t.text, search))
    else
      owned
  }

  // ---------------------------------------------------------------------
  // The buckets. A row's bucket memberships, then the buckets themselves.

  /** due_date = today, or no due date and created today. */
  predicate InToday(t: Todo, today: Date)
  {
    t.dueDate == Some(today) || (t.dueDate.None? && DateOf(t.createdAt) == today)
  }

  predicate InTomorrow(t: Todo, today: Date)
  {
    t.dueDate == Some(today + 1)
  }

  /** due_date > tomorrow; a missing date compares as false in SQL. */
  predicate InUpcoming(t: Todo, today: Date)
  {
    t.dueDate.Some? && t.dueDate.value > today + 1
  }

  /** due_date < today and not completed. */
  predicate InOverdue(t: Todo, today: Date)
  {
    t.dueDate.Some? && t.dueDate.value < today && !t.completed
  }

  predicate InCompleted(t: Todo)
  {
    t.completed
  }

  function TodayBucket(s: seq<Todo>, today: Date): seq<Todo>
  {
    Filter(s, (t: Todo) => InToday(t, today))
  }

  function TomorrowBucket(s: seq<Todo>, today: Date): seq<Todo>
  {
    Filter(s, (t: Todo) => InTomorrow(t, today))
  }

  function UpcomingBucket(s: seq<Todo>, today: Date): seq<Todo>
  {
    Filter(s, (t: Todo) => InUpcoming(t, today))
  }

  function OverdueBucket(s: seq<Todo>, today: Date): seq<Todo>
  {
    Filter(s, (t: Todo) => InOverdue(t, today))
  }

  function CompletedBucket(s: seq<Todo>): seq<Todo>
  {
    Filter(s, InCompleted)
  }

  function CategoryBucket(s: seq<Todo>, category: string): seq<Todo>
  {
    Filter(s, (t: Todo) => t.category == category)
  }

  /** Bucket membership, stated against the record's own date predicates:
      the tomorrow and upcoming buckets are exactly is_tomorrow and
      is_upcoming, while the today bucket also takes undated rows created
      today, which is_today does not. */
  lemma BucketsAgainstDatePredicates(t: Todo, today: Date)
    ensures InTomorrow(t, today) <==> IsTomorrow(t, today)
    ensures InUpcoming(t, today) <==> IsUpcoming(t, today)
    ensures InToday(t, today) <==> IsToday(t, today) || (t.dueDate.None? && DateOf(t.createdAt) == today)
    ensures InOverdue(t, today) <==> t.dueDate.Some? && t.dueDate.value < today && !t.completed
  {
  }

  /** The today, tomorrow and upcoming buckets are pairwise disjoint, and a
      completed row is never overdue. */
  lemma BucketsDisjoint(s: seq<Todo>, today: Date)
    ensures forall t :: t in TodayBucket(s, today) ==> t !in TomorrowBucket(s, today) && t !in UpcomingBucket(s, today)
    ensures forall t :: t in TomorrowBucket(s, today) ==> t !in UpcomingBucket(s, today)
    ensures forall t :: t in OverdueBucket(s, today) ==> t !in CompletedBucket(s)
  {
  }

  /** The completed bucket overlaps the date buckets: a completed row due
      today is in both the today and the completed bucket, and a completed
      row due in the past is in the completed bucket and not overdue. */
  lemma CompletedOverlapsDateBuckets(s: seq<Todo>, today: Date, t: Todo)
    requires t in s && t.completed
    ensures t.dueDate == Some(today) ==> t in TodayBucket(s, today) && t in CompletedBucket(s)
    ensures t.dueDate.Some? && t.dueDate.value < today ==> t in CompletedBucket(s) && t !in OverdueBucket(s, today)
  {
  }

  /** Every bucket lists its rows in the listing order. */
  lemma BucketsSorted(s: seq<Todo>, today: Date, nullsLast: bool)
    requires Sorted(s, nullsLast)
    ensures Sorted(TodayBucket(s, today), nullsLast)
    ensures Sorted(TomorrowBucket(s, today), nullsLast)
    ensures Sorted(UpcomingBucket(s, today), nullsLast)
    ensures Sorted(OverdueBucket(s, today), nullsLast)
    ensures Sorted(CompletedBucket(s), nullsLast)
  {
    FilterSorted(s, (t: Todo) => InToday(t, today), nullsLast);
    FilterSorted(s, (t: Todo) => InTomorrow(t, today), nullsLast);
    FilterSorted(s, (t: Todo) => InUpcoming(t, today), nullsLast);
    FilterSorted(s, (t: Todo) => InOverdue(t, today), nullsLast);
    FilterSorted(s, InCompleted, nullsLast);
  }

  // ---------------------------------------------------------------------
  // The current list.

  /** The list shown: a non-empty category wins; otherwise the view names
      the bucket, "missed" meaning overdue, and anything else (the empty
      view included) means the today bucket. */
  function Current(s: seq<Todo>, today: Date, category: string, view: string): (r: seq<Todo>)
    ensures forall t :: t in r ==> t in s
    ensures category != "" ==> forall t :: t in r <==> t in s && t.category == category
    ensures category != "" ==> r == CategoryBucket(s, category)
    ensures category == "" && view == "upcoming" ==> r == UpcomingBucket(s, today)
    ensures category == "" && view == "completed" ==> r == CompletedBucket(s)
    ensures category == "" && view == "missed" ==> r == OverdueBucket(s, today)
    ensures category == "" && view !in {"upcoming", "completed", "missed"} ==> r == TodayBucket(s, today)
  {
    if category != "" then CategoryBucket(s, category)
    else if view == "upcoming" then UpcomingBucket(s, today)
    else if view == "today" then TodayBucket(s, today)
    else if view == "completed" then CompletedBucket(s)
    else if view == "missed" then OverdueBucket(s, today)
    else TodayBucket(s, today)
  }

  // ---------------------------------------------------------------------
  // The whole page.

  datatype HomePage = HomePage(
    today: seq<Todo>,
    tomorrow: seq<Todo>,
    upcoming: seq<Todo>,
    overdue: seq<Todo>,
    completed: seq<Todo>,
    current: seq<Todo>,
    personalCount: nat,
    workCount: nat,
    homeCount: nat,
    completedCount: nat,
    missedCount: nat)

  /** The page for owner on date today: buckets, current list and counts,
      all over the owner's rows after the search. The two status counts are
      separate queries in the source, with the same conditions as the
      completed and overdue buckets. */
  function Home(table: seq<Todo>, owner: UserId, today: Date, search: string,
                category: string, view: string, nullsLast: bool): (p: HomePage)
    ensures var user := UserTodos(table, owner, search, nullsLast);
      && p.today == TodayBucket(user, today)
      && p.tomorrow == TomorrowBucket(user, today)
      && p.upcoming == UpcomingBucket(user, today)
      && p.overdue == OverdueBucket(user, today)
      && p.completed == CompletedBucket(user)
      && p.current == Current(user, today, category, view)
    ensures var user := UserTodos(table, owner, search, nullsLast);
      && p.personalCount == |CategoryBucket(user, "personal")|
      && p.workCount == |CategoryBucket(user, "work")|
      && p.homeCount == |CategoryBucket(user, "home")|
    ensures p.missedCount == |p.overdue|
    ensures p.completedCount == |p.completed|
  {
    var user := UserTodos(table, owner, search, nullsLast);
    var completed := Filter(user, (t: Todo) => t.completed);
    var missed := Filter(user, (t: Todo) => t.dueDate.Some? && t.dueDate.value < today && !t.completed);
    FilterSame(user, (t: Todo) => t.completed, InCompleted);
    FilterSame(user, (t: Todo) => t.dueDate.Some? && t.dueDate.value < today && !t.completed,
      (t: Todo) => InOverdue(t, today));
    HomePage(
      TodayBucket(user, today),
      TomorrowBucket(user, today),
      UpcomingBucket(user, today),
      OverdueBucket(user, today),
      CompletedBucket(user),
      Current(user, today, category, view),
      |CategoryBucket(user, "personal")|,
      |CategoryBucket(user, "work")|,
      |CategoryBucket(user, "home")|,
      |completed|,
      |missed|)
  }

  /** Stored rows stay stored rows after the first one is taken off. */
  lemma WellFormedTail(s: seq<Todo>)
    requires s != [] && forall t | t in s :: WellFormed(t)
    ensures WellFormed(s[0]) && forall t | t in s[1..] :: WellFormed(t)
  {
    assert forall t | t in s[1..] :: t in s;
  }

  /** A category bucket counts its first row, then the rest. */
  lemma CategoryBucketStep(s: seq<Todo>, category: string)
    requires s != []
    ensures |CategoryBucket(s, category)|
      == |CategoryBucket(s[1..], category)| + (if s[0].category == category then 1 else 0)
  {
  }

  /** Given the closed category list, the three category buckets of a
      sequence of stored rows add up to the whole sequence. */
  lemma {:induction false} CategoryBucketsPartition(s: seq<Todo>)
    requires forall t | t in s :: WellFormed(t)
    ensures |CategoryBucket(s, "personal")| + |CategoryBucket(s, "work")| + |CategoryBucket(s, "home")| == |s|
  {
    if s != [] {
      WellFormedTail(s);
      CategoryBucketsPartition(s[1..]);
      CategoryBucketStep(s, "personal");
      CategoryBucketStep(s, "work");
      CategoryBucketStep(s, "home");
    }
  }

  /** Given the closed category list, the three sidebar category counts add
      up to the number of the owner's rows after the search. */
  lemma CategoryCountsCoverUserTodos(table: seq<Todo>, owner: UserId, today: Date,
      search: string, category: string, view: string, nullsLast: bool)
    requires forall t | t in table :: WellFormed(t)
    ensures var p := Home(table, owner, today, search, category, view, nullsLast);
      p.personalCount + p.workCount + p.homeCount == |UserTodos(table, owner, search, nullsLast)|
  {
    CategoryBucketsPartition(UserTodos(table, owner, search, nullsLast));
  }

  /** The owner's rows after the search are the owner's rows whose text
      contains the search, ignoring case; the empty search keeps them all. */
  lemma UserTodosScope(table: seq<Todo>, owner: UserId, search: string, nullsLast: bool, t: Todo)
    ensures t in UserTodos(table, owner, search, nullsLast) <==>
      t in table && t.owner == owner && IContains(t.text, search)
  {
    IContainsFacts(t.text, "");
  }
}
