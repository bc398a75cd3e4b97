/**
 * Filtering and sorting of task documents (utils/TaskFilter.java). Tasks
 * here are raw document maps. The comparator of each sort field compares a
 * key of the task, so the stable `List.sort` of the source is
 * `StableSort.Sort` by that key, negated for descending order.
 */
module TaskFilter {
  import opened Common
  import opened StableSort
  import Tasks

  /** `SortBy`, with the document field each option reads. */
  datatype SortBy = DateCreated | Priority | Status | DueDate

  function SortField(s: SortBy): string
  {
    match s
    case DateCreated => "createdAt"
    case Priority => "priority"
    case Status => "status"
    case DueDate => "dueDate"
  }

  datatype SortOrder = Ascending | Descending

  datatype FilterCriteria = FilterCriteria(
    searchQuery: Option<string>,
    statusFilter: Option<string>,
    priorityFilter: Option<string>,
    assignedToFilter: Option<string>,
    sortBy: SortBy,
    sortOrder: SortOrder)

  /** `new FilterCriteria()`: no filters, newest first by creation date. */
  function DefaultCriteria(): (c: FilterCriteria)
    ensures c.sortBy == DateCreated && c.sortOrder == Descending
    ensures c.searchQuery.None? && c.statusFilter.None? && c.priorityFilter.None? && c.assignedToFilter.None?
  {
    FilterCriteria(None, None, None, None, DateCreated, Descending)
  }

  /** The lower-cased `field` of the task contains the lower-cased query. */
  predicate FieldContains(task: Doc, field: string, query: string)
  {
    StrField(task, field).Some? && Contains(Lower(StrField(task, field).value), Lower(query))
  }

  /** `matchesFilter(task, criteria)`. */
  predicate Matches(task: Doc, c: FilterCriteria)
  {
    (IsEmpty(c.searchQuery)
      || FieldContains(task, "title", c.searchQuery.value)
      || FieldContains(task, "description", c.searchQuery.value)
      || FieldContains(task, "assignedTo", c.searchQuery.value))
    && (IsEmpty(c.statusFilter) || StrField(task, "status") == c.statusFilter)
    && (IsEmpty(c.priorityFilter) || StrField(task, "priority") == c.priorityFilter)
    && (IsEmpty(c.assignedToFilter) || StrField(task, "assignedTo") == c.assignedToFilter)
  }

  /** Empty criteria let every task through. */
  lemma NoFilterMatchesAll(task: Doc, sortBy: SortBy, order: SortOrder)
    ensures Matches(task, FilterCriteria(None, None, None, None, sortBy, order))
    ensures Matches(task, FilterCriteria(Some(""), Some(""), Some(""), Some(""), sortBy, order))
  {
  }

  /**
   * The assignee filter reads the key "assignedTo", which `Task.toMap`
   * never writes: a non-empty assignee filter rejects every task document
   * the app writes, whatever its assignee.
   */
  lemma AssigneeFilterRejectsTaskDocuments(t: Tasks.Task, c: FilterCriteria)
    requires !IsEmpty(c.assignedToFilter)
    ensures !Matches(Tasks.ToMap(t), c)
  {
  }

  /** The rows of the filter, one condition at a time. */
  lemma MatchesConditions(task: Doc, c: FilterCriteria)
    ensures !IsEmpty(c.statusFilter) && StrField(task, "status") != c.statusFilter ==> !Matches(task, c)
    ensures !IsEmpty(c.priorityFilter) && StrField(task, "priority") != c.priorityFilter ==> !Matches(task, c)
    ensures !IsEmpty(c.assignedToFilter) && "assignedTo" !in task ==> !Matches(task, c)
    ensures (!IsEmpty(c.searchQuery) && !FieldContains(task, "title", c.searchQuery.value)
             && !FieldContains(task, "description", c.searchQuery.value)
             && !FieldContains(task, "assignedTo", c.searchQuery.value)) ==> !Matches(task, c)
  {
  }

  /** The search ignores the case of ASCII letters in the query. */
  lemma SearchIgnoresQueryCase(task: Doc, field: string, q: string)
    ensures FieldContains(task, field, Lower(q)) == FieldContains(task, field, q)
  {
    LowerIdempotent(q);
  }

  /** The tasks that match, in their input order: the loop of `filterAndSortTasks`. */
  function Filter(tasks: seq<Doc>, c: FilterCriteria): (r: seq<Doc>)
    ensures |r| <= |tasks|
    ensures forall x :: multiset(r)[x] == if Matches(x, c) then multiset(tasks)[x] else 0
    decreases |tasks|
  {
    if tasks == [] then
      []
    else
      var init, last := tasks[..|tasks| - 1], tasks[|tasks| - 1];
      assert tasks == init + [last];
      Filter(init, c) + (if Matches(last, c) then [last] else [])
  }

  /** One more task: `Filter` of a one-longer prefix keeps or drops just that task. */
  lemma FilterStep(tasks: seq<Doc>, i: int, c: FilterCriteria)
    requires 0 <= i < |tasks|
    ensures Filter(tasks[..i + 1], c) == Filter(tasks[..i], c) + (if Matches(tasks[i], c) then [tasks[i]] else [])
  {
    assert tasks[..i + 1][..i] == tasks[..i];
  }

  /** Exactly the input tasks that match are kept. */
  lemma FilterIsExact(tasks: seq<Doc>, c: FilterCriteria, x: Doc)
    ensures x in Filter(tasks, c) <==> x in tasks && Matches(x, c)
  {
    assert x in Filter(tasks, c) <==> multiset(Filter(tasks, c))[x] > 0;
    assert x in tasks <==> multiset(tasks)[x] > 0;
  }

  /** `getPriorityValue`: high 3, medium 2, anything else (low, unknown, null) 1. */
  function PriorityValue(p: Option<string>): (v: int)
    ensures 1 <= v <= 3
    ensures v == 3 <==> p == Some(Tasks.High)
    ensures v == 2 <==> p == Some(Tasks.Medium)
  {
    if p == Some(Tasks.High) then 3 else if p == Some(Tasks.Medium) then 2 else 1
  }

  /** `getStatusValue`: completed 3, in_progress 2, anything else (pending, unknown, null) 1. */
  function StatusValue(s: Option<string>): (v: int)
    ensures 1 <= v <= 3
    ensures v == 3 <==> s == Some(Tasks.Completed)
    ensures v == 2 <==> s == Some(Tasks.InProgress)
  {
    if s == Some(Tasks.Completed) then 3 else if s == Some(Tasks.InProgress) then 2 else 1
  }

  lemma RankTables()
    ensures PriorityValue(Some(Tasks.Low)) == PriorityValue(None) == PriorityValue(Some("urgent")) == 1
    ensures StatusValue(Some(Tasks.Pending)) == StatusValue(None) == StatusValue(Some("archived")) == 1
  {
  }

  /** The order `compareObjects` gives a nullable date: null first, then by instant. */
  function DateKey(d: Option<int>): Key
  {
    match d
    case None => Key(0, 0)
    case Some(t) => Key(1, t)
  }

  /**
   * `compareObjects` on two nullable dates: two nulls are equal, null comes
   * before any date, and two dates compare by instant (`Date.compareTo`).
   */
  function CompareObjects(a: Option<int>, b: Option<int>): (r: int)
    ensures r < 0 <==> Less(DateKey(a), DateKey(b))
    ensures r == 0 <==> DateKey(a) == DateKey(b)
    ensures a.None? && b.Some? ==> r < 0
    ensures a.None? && b.None? ==> r == 0
  {
    if a.None? && b.None? then 0
    else if a.None? then -1
    else if b.None? then 1
    else if a.value < b.value then -1
    else if a.value == b.value then 0
    else 1
  }

  /** `compareTasks(task1, task2, sortBy)`. */
  function CompareTasks(t1: Doc, t2: Doc, s: SortBy): int
  {
    match s
    case DateCreated => CompareObjects(DateField(t1, "createdAt"), DateField(t2, "createdAt"))
    case DueDate => CompareObjects(DateField(t1, "dueDate"), DateField(t2, "dueDate"))
    case Priority => Compare(PriorityValue(StrField(t1, "priority")), PriorityValue(StrField(t2, "priority")))
    case Status => Compare(StatusValue(StrField(t1, "status")), StatusValue(StrField(t2, "status")))
  }

  /** The key `compareTasks` orders by. */
  function TaskKey(t: Doc, s: SortBy): Key
  {
    match s
    case DateCreated => DateKey(DateField(t, "createdAt"))
    case DueDate => DateKey(DateField(t, "dueDate"))
    case Priority => Key(PriorityValue(StrField(t, "priority")), 0)
    case Status => Key(StatusValue(StrField(t, "status")), 0)
  }

  /** `compareTasks` compares `TaskKey`, whatever the field. */
  lemma CompareTasksIsKeyOrder(t1: Doc, t2: Doc, s: SortBy)
    ensures CompareTasks(t1, t2, s) < 0 <==> Less(TaskKey(t1, s), TaskKey(t2, s))
    ensures CompareTasks(t1, t2, s) == 0 <==> TaskKey(t1, s) == TaskKey(t2, s)
  {
    match s
    case DateCreated =>
    case DueDate =>
    case Priority =>
    case Status =>
  }

  /** The comparator handed to `List.sort`: `compareTasks`, negated for DESCENDING. */
  function Comparator(t1: Doc, t2: Doc, c: FilterCriteria): int
  {
    var r := CompareTasks(t1, t2, c.sortBy);
    if c.sortOrder == Descending then -r else r
  }

  /** The key the comparator orders by: the task's key, negated for DESCENDING. */
  function OrderKey(c: FilterCriteria): Doc -> Key
  {
    t => if c.sortOrder == Descending then Neg(TaskKey(t, c.sortBy)) else TaskKey(t, c.sortBy)
  }

  /** The comparator compares `OrderKey`: negative exactly when the key is smaller, zero when equal. */
  lemma ComparatorIsKeyOrder(t1: Doc, t2: Doc, c: FilterCriteria)
    ensures Comparator(t1, t2, c) < 0 <==> Less(OrderKey(c)(t1), OrderKey(c)(t2))
    ensures Comparator(t1, t2, c) == 0 <==> OrderKey(c)(t1) == OrderKey(c)(t2)
  {
    var k1, k2 := TaskKey(t1, c.sortBy), TaskKey(t2, c.sortBy);
    CompareTasksIsKeyOrder(t1, t2, c.sortBy);
    NegReverses(k1, k2);
    assert OrderKey(c)(t1) == if c.sortOrder == Descending then Neg(k1) else k1;
    assert OrderKey(c)(t2) == if c.sortOrder == Descending then Neg(k2) else k2;
  }

  /** The loop of `filterAndSortTasks`: the tasks that match, in their order. */
  method KeepMatching(tasks: seq<Doc>, c: FilterCriteria) returns (filtered: seq<Doc>)
    ensures filtered == Filter(tasks, c)
  {
    filtered := [];
    var i := 0;
    while i < |tasks|
      invariant 0 <= i <= |tasks|
      invariant filtered == Filter(tasks[..i], c)
    {
      FilterStep(tasks, i, c);
      filtered := filtered + (if Matches(tasks[i], c) then [tasks[i]] else []);
      i := i + 1;
    }
    assert tasks[..|tasks|] == tasks;
  }

  /**
   * `filterAndSortTasks(tasks, criteria)`: the matching tasks in order, then
   * the list is sorted in place by the criteria's comparator.
   */
  method FilterAndSortTasks(tasks: seq<Doc>, c: FilterCriteria) returns (r: seq<Doc>)
    ensures r == Sort(Filter(tasks, c), OrderKey(c))
    ensures multiset(r) == multiset(Filter(tasks, c))
    ensures SortedBy(r, OrderKey(c))
    ensures forall k :: Tied(r, OrderKey(c), k) == Tied(Filter(tasks, c), OrderKey(c), k)
  {
    var filtered := KeepMatching(tasks, c);
    var key := OrderKey(c);
    r := SortSeq(filtered, key);
    SortIsSorted(filtered, key);
    forall k
      ensures Tied(r, key, k) == Tied(filtered, key, k)
    {
      SortIsStable(filtered, key, k);
    }
  }

  /** With the default criteria the result is newest first, undated tasks last. */
  lemma DefaultOrderIsNewestFirst(r: seq<Doc>, i: int, j: int)
    requires SortedBy(r, OrderKey(DefaultCriteria()))
    requires 0 <= i < j < |r|
    ensures DateField(r[i], "createdAt").None? ==> DateField(r[j], "createdAt").None?
    ensures DateField(r[i], "createdAt").Some? && DateField(r[j], "createdAt").Some? ==>
              DateField(r[i], "createdAt").value >= DateField(r[j], "createdAt").value
  {
    assert !Less(OrderKey(DefaultCriteria())(r[j]), OrderKey(DefaultCriteria())(r[i]));
  }
}
