/**
 * The `Task` record (models/Task.java): constructor defaults, the Firestore
 * conversions, the overdue test, the status and priority predicates, and
 * identity by document id.
 */
module Tasks {
  import opened Common

  const Pending := "pending"
  const InProgress := "in_progress"
  const Completed := "completed"
  const Low := "low"
  const Medium := "medium"
  const High := "high"

  /** A task. Dates are milliseconds since the epoch; every reference field may be null. */
  datatype Task = Task(
    id: Option<string>,
    title: Option<string>,
    description: Option<string>,
    assignedToUserId: Option<string>,
    assignedToName: Option<string>,
    assignerUserId: Option<string>,
    assignerName: Option<string>,
    status: Option<string>,
    priority: Option<string>,
    dueDate: Option<int>,
    createdAt: Option<int>,
    updatedAt: Option<int>,
    attachmentUrl: Option<string>,
    attachmentName: Option<string>)

  /** `new Task()` at instant `now`: pending, medium priority, created and updated now. */
  function NewTask(now: int): (t: Task)
    ensures t.status == Some(Pending) && t.priority == Some(Medium)
    ensures t.createdAt == Some(now) && t.updatedAt == Some(now)
    ensures t.id.None? && t.title.None? && t.dueDate.None? && t.assignedToUserId.None? && t.assignerUserId.None?
  {
    Task(None, None, None, None, None, None, None, Some(Pending), Some(Medium), None, Some(now), Some(now), None, None)
  }

  /**
   * The six-argument constructor: the defaults of `new Task()`, then the
   * given fields. The priority is stored as given, null included.
   */
  function BasicTask(title: Option<string>, description: Option<string>, assignedToUserId: Option<string>,
                     assignedToName: Option<string>, dueDate: Option<int>, priority: Option<string>, now: int): (t: Task)
    ensures t.title == title && t.description == description && t.dueDate == dueDate
    ensures t.assignedToUserId == assignedToUserId && t.assignedToName == assignedToName
    ensures t.priority == priority && t.status == Some(Pending)
    ensures t.createdAt == Some(now) && t.updatedAt == Some(now) && t.assignerUserId.None?
  {
    NewTask(now).(title := title, description := description, assignedToUserId := assignedToUserId,
                  assignedToName := assignedToName, dueDate := dueDate, priority := priority)
  }

  /**
   * The eleven-argument constructor: a null status becomes "pending", a null
   * priority "medium", and null creation or update dates become `now`.
   */
  function FullTask(title: Option<string>, description: Option<string>, assignedToUserId: Option<string>,
                    assignedToName: Option<string>, assignerUserId: Option<string>, assignerName: Option<string>,
                    status: Option<string>, priority: Option<string>, dueDate: Option<int>,
                    createdAt: Option<int>, updatedAt: Option<int>, now: int): (t: Task)
    ensures t.status.Some? && t.priority.Some? && t.createdAt.Some? && t.updatedAt.Some?
    ensures status.Some? ==> t.status == status
    ensures status.None? ==> t.status == Some(Pending)
    ensures priority.Some? ==> t.priority == priority
    ensures priority.None? ==> t.priority == Some(Medium)
    ensures t.createdAt == Some(createdAt.GetOr(now)) && t.updatedAt == Some(updatedAt.GetOr(now))
    ensures t.title == title && t.assignerUserId == assignerUserId && t.dueDate == dueDate && t.id.None?
  {
    Task(None, title, description, assignedToUserId, assignedToName, assignerUserId, assignerName,
         Some(status.GetOr(Pending)), Some(priority.GetOr(Medium)), dueDate,
         Some(createdAt.GetOr(now)), Some(updatedAt.GetOr(now)), None, None)
  }

  /** The thirteen keys `toMap` writes. */
  const DataKeys: set<string> := {
    "title", "description", "assignedToUserId", "assignedToName", "assignerUserId", "assignerName",
    "status", "priority", "dueDate", "createdAt", "updatedAt", "attachmentUrl", "attachmentName"}

  /** The value `toMap` writes under each of its keys (null under any other key). */
  function FieldValue(t: Task, key: string): Value
  {
    if key == "title" then StrValue(t.title)
    else if key == "description" then StrValue(t.description)
    else if key == "assignedToUserId" then StrValue(t.assignedToUserId)
    else if key == "assignedToName" then StrValue(t.assignedToName)
    else if key == "assignerUserId" then StrValue(t.assignerUserId)
    else if key == "assignerName" then StrValue(t.assignerName)
    else if key == "status" then StrValue(t.status)
    else if key == "priority" then StrValue(t.priority)
    else if key == "dueDate" then DateValue(t.dueDate)
    else if key == "createdAt" then DateValue(t.createdAt)
    else if key == "updatedAt" then DateValue(t.updatedAt)
    else if key == "attachmentUrl" then StrValue(t.attachmentUrl)
    else if key == "attachmentName" then StrValue(t.attachmentName)
    else VNull
  }

  /** `task.toMap()`: every data field; the id is the document's name and is not written. */
  function ToMap(t: Task): (m: Doc)
    ensures m.Keys == DataKeys
    ensures forall k :: k in m ==> m[k] == FieldValue(t, k)
  {
    map k | k in DataKeys :: FieldValue(t, k)
  }

  /** A string field present in the map overrides the default (with null when it holds null). */
  function StrOr(m: Doc, key: string, default: Option<string>): (r: Option<string>)
    ensures key !in m ==> r == default
    ensures key in m ==> r == StrField(m, key)
  {
    if key in m then StrField(m, key) else default
  }

  /** A date field overrides the default only when it holds a Date or a Timestamp. */
  function DateOr(m: Doc, key: string, default: Option<int>): (r: Option<int>)
    ensures DateField(m, key).Some? ==> r == DateField(m, key)
    ensures DateField(m, key).None? ==> r == default
  {
    if DateField(m, key).Some? then DateField(m, key) else default
  }

  /**
   * `Task.fromMap(map)` at instant `now`: starts from `new Task()` and sets a
   * string field for each key the map contains, a date field for each key
   * holding a Date or a Timestamp, and the id only when the key "id" is present.
   */
  function FromMap(m: Doc, now: int): (t: Task)
    ensures "id" !in m ==> t.id.None?
    ensures "status" !in m ==> t.status == Some(Pending)
    ensures "priority" !in m ==> t.priority == Some(Medium)
    ensures t.createdAt.Some? && t.updatedAt.Some?
  {
    var d := NewTask(now);
    Task(
      StrOr(m, "id", d.id),
      StrOr(m, "title", d.title),
      StrOr(m, "description", d.description),
      StrOr(m, "assignedToUserId", d.assignedToUserId),
      StrOr(m, "assignedToName", d.assignedToName),
      StrOr(m, "assignerUserId", d.assignerUserId),
      StrOr(m, "assignerName", d.assignerName),
      StrOr(m, "status", d.status),
      StrOr(m, "priority", d.priority),
      DateOr(m, "dueDate", d.dueDate),
      DateOr(m, "createdAt", d.createdAt),
      DateOr(m, "updatedAt", d.updatedAt),
      StrOr(m, "attachmentUrl", d.attachmentUrl),
      StrOr(m, "attachmentName", d.attachmentName))
  }

  /**
   * Reading back what `toMap` wrote restores every string field and every
   * non-null date; the id is lost (toMap does not write it) and a null
   * creation or update date comes back as the reading instant.
   */
  lemma {:induction false} FromMapToMap(t: Task, now: int)
    ensures FromMap(ToMap(t), now)
         == t.(id := None, createdAt := Some(t.createdAt.GetOr(now)), updatedAt := Some(t.updatedAt.GetOr(now)))
  {
    var m := ToMap(t);
    assert StrField(m, "title") == t.title;
    assert StrField(m, "description") == t.description;
    assert StrField(m, "assignedToUserId") == t.assignedToUserId;
    assert StrField(m, "assignedToName") == t.assignedToName;
    assert StrField(m, "assignerUserId") == t.assignerUserId;
    assert StrField(m, "assignerName") == t.assignerName;
    assert StrField(m, "status") == t.status;
    assert StrField(m, "priority") == t.priority;
    assert StrField(m, "attachmentUrl") == t.attachmentUrl;
    assert StrField(m, "attachmentName") == t.attachmentName;
    assert DateField(m, "dueDate") == t.dueDate;
    assert DateField(m, "createdAt") == t.createdAt;
    assert DateField(m, "updatedAt") == t.updatedAt;
  }

  /** A document read with its id added round-trips the id as well. */
  lemma FromMapWithId(t: Task, id: string, now: int)
    requires t.createdAt.Some? && t.updatedAt.Some?
    ensures FromMap(ToMap(t)["id" := VStr(id)], now) == t.(id := Some(id))
  {
    var m := ToMap(t);
    var m' := m["id" := VStr(id)];
    FromMapToMap(t, now);
    assert forall k :: k in DataKeys ==> StrField(m', k) == StrField(m, k) && DateField(m', k) == DateField(m, k);
  }

  /**
   * `isOverdue()` at instant `now`: a task with a due date that is not
   * completed is overdue once its due date is strictly before now.
   */
  predicate IsOverdue(t: Task, now: int)
  {
    t.dueDate.Some? && t.status != Some(Completed) && t.dueDate.value < now
  }

  lemma OverdueCases(t: Task, now: int)
    ensures t.dueDate.None? ==> !IsOverdue(t, now)
    ensures t.status == Some(Completed) ==> !IsOverdue(t, now)
    ensures t.dueDate.Some? && t.status != Some(Completed) ==> (IsOverdue(t, now) <==> t.dueDate.value < now)
    ensures IsOverdue(t, now) ==> forall later :: later >= now ==> IsOverdue(t, later)
  {
  }

  predicate IsCompleted(t: Task) { t.status == Some(Completed) }
  predicate IsPending(t: Task) { t.status == Some(Pending) }
  predicate IsInProgress(t: Task) { t.status == Some(InProgress) }
  predicate IsHighPriority(t: Task) { t.priority == Some(High) }
  predicate IsMediumPriority(t: Task) { t.priority == Some(Medium) }
  predicate IsLowPriority(t: Task) { t.priority == Some(Low) }

  /** At most one status predicate and at most one priority predicate holds; a null field satisfies none. */
  lemma PredicatesExclusive(t: Task)
    ensures !(IsCompleted(t) && IsPending(t)) && !(IsCompleted(t) && IsInProgress(t)) && !(IsPending(t) && IsInProgress(t))
    ensures !(IsHighPriority(t) && IsMediumPriority(t)) && !(IsHighPriority(t) && IsLowPriority(t))
    ensures !(IsMediumPriority(t) && IsLowPriority(t))
    ensures t.status.None? ==> !IsCompleted(t) && !IsPending(t) && !IsInProgress(t)
    ensures t.priority.None? ==> !IsHighPriority(t) && !IsMediumPriority(t) && !IsLowPriority(t)
  {
  }

  /**
   * `equals(o)`: `identical` says whether `o` is this very object. Otherwise
   * a non-null task is equal when this task's id is non-null and equal to its id.
   */
  predicate Equals(t: Task, o: Option<Task>, identical: bool)
  {
    identical || (o.Some? && t.id.Some? && t.id == o.value.id)
  }

  /** `hashCode()`: the id's hash, or 0 for a null id; modelled by the id itself. */
  function HashKey(t: Task): Option<string> { t.id }

  /**
   * Equality of distinct objects is by id: symmetric, never true for a null
   * id, and consistent with the hash.
   */
  lemma EqualsById(a: Task, b: Task)
    ensures Equals(a, Some(b), false) <==> Equals(b, Some(a), false)
    ensures a.id.None? ==> !Equals(a, Some(b), false)
    ensures Equals(a, Some(b), false) ==> HashKey(a) == HashKey(b)
    ensures !Equals(a, None, false)
    ensures Equals(a, Some(a), true)
  {
  }
}
