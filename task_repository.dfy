/**
 * The task repository (repositories/TaskRepository.java) over an abstract
 * "tasks" collection. A query's answer, or its failure, is a parameter; a
 * write's outcome is decided by the `Firestore.Collection` it goes to, with
 * a network failure as the parameter `failure`. The clock is `now`.
 */
module TaskRepository {
  import opened Common
  import opened StableSort
  import opened Firestore
  import Tasks

  function Min(a: int, b: int): int { if a <= b then a else b }

  /* ---------- the date comparators ---------- */

  /** `task.get(field)`, with null for an absent key or a stored null. */
  function RawDate(t: Doc, field: string): Option<Value>
  {
    if field in t && t[field] != VNull then Some(t[field]) else None
  }

  /**
   * The in-memory date comparator as written: two nulls are equal, a null
   * comes after anything, and two non-null values are cast to
   * `java.util.Date` and compared (newest first, or earliest first for due
   * dates); a failed cast is caught and the pair compares equal.
   */
  function CompareAsWritten(t1: Doc, t2: Doc, field: string, newestFirst: bool): int
  {
    var d1, d2 := RawDate(t1, field), RawDate(t2, field);
    if d1.None? && d2.None? then 0
    else if d1.None? then 1
    else if d2.None? then -1
    else if d1.value.VDate? && d2.value.VDate? then
      (if newestFirst then Compare(d2.value.millis, d1.value.millis) else Compare(d1.value.millis, d2.value.millis))
    else 0
  }

  /** On records read from the server the as-written comparator only separates null from non-null. */
  function AsWrittenKey(field: string): Doc -> Key
  {
    (t: Doc) => Key(if RawDate(t, field).None? then 1 else 0, 0)
  }

  /**
   * The server returns every date as a Timestamp, so the cast fails on
   * every pair of dated records: the as-written comparator is exactly the
   * order "dated before undated", and dated records all tie.
   */
  lemma AsWrittenOnServerRecords(t1: Doc, t2: Doc, field: string, newestFirst: bool)
    requires NoDates(t1) && NoDates(t2)
    ensures CompareAsWritten(t1, t2, field, newestFirst) < 0 <==> Less(AsWrittenKey(field)(t1), AsWrittenKey(field)(t2))
    ensures CompareAsWritten(t1, t2, field, newestFirst) == 0 <==> AsWrittenKey(field)(t1) == AsWrittenKey(field)(t2)
  {
  }

  /** The order the comparator is meant to give: dated records by instant, then the undated ones. */
  function DateOrderKey(field: string, newestFirst: bool): Doc -> Key
  {
    (t: Doc) =>
      match DateField(t, field)
      case None => Key(1, 0)
      case Some(ms) => Key(0, if newestFirst then -ms else ms)
  }

  /** The corrected comparator: reads the date whichever class holds it. */
  function CompareDates(t1: Doc, t2: Doc, field: string, newestFirst: bool): int
  {
    var d1, d2 := DateField(t1, field), DateField(t2, field);
    if d1.None? && d2.None? then 0
    else if d1.None? then 1
    else if d2.None? then -1
    else if newestFirst then Compare(d2.value, d1.value)
    else Compare(d1.value, d2.value)
  }

  /** The corrected comparator is exactly the order of `DateOrderKey`, for every pair of records. */
  lemma CompareDatesIsKeyOrder(t1: Doc, t2: Doc, field: string, newestFirst: bool)
    ensures CompareDates(t1, t2, field, newestFirst) < 0 <==> Less(DateOrderKey(field, newestFirst)(t1), DateOrderKey(field, newestFirst)(t2))
    ensures CompareDates(t1, t2, field, newestFirst) == 0 <==> DateOrderKey(field, newestFirst)(t1) == DateOrderKey(field, newestFirst)(t2)
  {
  }

  /** Sorted by the corrected key: dated records first, ordered by instant; undated ones last. */
  lemma DateOrderOfSorted(s: seq<Doc>, field: string, newestFirst: bool, i: int, j: int)
    requires SortedBy(s, DateOrderKey(field, newestFirst))
    requires 0 <= i < j < |s|
    ensures DateField(s[i], field).None? ==> DateField(s[j], field).None?
    ensures DateField(s[i], field).Some? && DateField(s[j], field).Some? && newestFirst ==>
              DateField(s[i], field).value >= DateField(s[j], field).value
    ensures DateField(s[i], field).Some? && DateField(s[j], field).Some? && !newestFirst ==>
              DateField(s[i], field).value <= DateField(s[j], field).value
  {
    assert !Less(DateOrderKey(field, newestFirst)(s[j]), DateOrderKey(field, newestFirst)(s[i]));
  }

  /**
   * Two records as the server returns them, the older one first (the
   * user-scoped query returns documents in id order): the as-written sort
   * leaves the older task in front, whereas "newest first" puts the newer
   * one in front.
   */
  lemma AsWrittenKeepsOlderFirst(older: Doc, newer: Doc, x: int, y: int)
    requires "createdAt" in older && older["createdAt"] == VTimestamp(x)
    requires "createdAt" in newer && newer["createdAt"] == VTimestamp(y)
    requires x < y
    ensures Sort([older, newer], AsWrittenKey("createdAt")) == [older, newer]
    ensures Sort([older, newer], DateOrderKey("createdAt", true)) == [newer, older]
  {
    var byRaw, byDate := AsWrittenKey("createdAt"), DateOrderKey("createdAt", true);
    assert byRaw(older) == byRaw(newer) == Key(0, 0);
    assert byDate(older) == Key(0, -x) && byDate(newer) == Key(0, -y);
    SortOfTwo(older, newer, byRaw);
    SortOfTwo(older, newer, byDate);
  }

  /** The records that have a value in `field`, in their order. */
  function Dated(records: seq<Doc>, field: string): seq<Doc>
  {
    Tied(records, AsWrittenKey(field), Key(0, 0))
  }

  /** The records whose `field` is absent or null, in their order. */
  function Undated(records: seq<Doc>, field: string): seq<Doc>
  {
    Tied(records, AsWrittenKey(field), Key(1, 0))
  }

  lemma {:induction false} NoneTied(s: seq<Doc>, field: string, k: Key)
    requires forall i :: 0 <= i < |s| ==> AsWrittenKey(field)(s[i]) != k
    ensures Tied(s, AsWrittenKey(field), k) == []
    decreases |s|
  {
    if s != [] {
      NoneTied(s[..|s| - 1], field, k);
    }
  }

  /** A list sorted by the as-written key is its dated records followed by its undated ones. */
  lemma {:induction false} SortedSplits(s: seq<Doc>, field: string)
    requires SortedBy(s, AsWrittenKey(field))
    ensures s == Dated(s, field) + Undated(s, field)
    decreases |s|
  {
    if s != [] {
      var key := AsWrittenKey(field);
      var init, last := s[..|s| - 1], s[|s| - 1];
      assert s == init + [last];
      SortedSplits(init, field);
      if key(last) == Key(0, 0) {
        forall i | 0 <= i < |init|
          ensures key(init[i]) != Key(1, 0)
        {
          assert !Less(key(s[|s| - 1]), key(s[i]));
        }
        NoneTied(init, field, Key(1, 0));
      }
    }
  }

  /**
   * What the as-written sort does to a listing from the server: the dated
   * records, in the order the server returned them, then the undated ones,
   * in theirs. No record is moved by its date.
   */
  lemma AsWrittenListing(records: seq<Doc>, field: string)
    ensures Sort(records, AsWrittenKey(field)) == Dated(records, field) + Undated(records, field)
  {
    var key := AsWrittenKey(field);
    SortIsSorted(records, key);
    SortIsStable(records, key, Key(0, 0));
    SortIsStable(records, key, Key(1, 0));
    SortedSplits(Sort(records, key), field);
  }

  /** The creation-date comparator of the listings, as written (see `AsWrittenOnServerRecords`). */
  function ByCreation(): Doc -> Key { AsWrittenKey("createdAt") }

  /* ---------- paged fetches ---------- */

  /**
   * `getTasksWithPagination(lastDocument, listener)`: the server's answer
   * for the page after the cursor, as records with ids, the "has more" flag
   * and the new cursor; a failed query reports its message.
   */
  method GetTasksWithPagination(fetched: Result<seq<Snapshot>>) returns (r: PageResult)
    ensures fetched.Err? ==> r == PageError(fetched.error)
    ensures fetched.Ok? ==> r == Page(WithIds(fetched.value), |fetched.value| == PageSize, LastOf(fetched.value))
  {
    if fetched.Err? {
      return PageError(fetched.error);
    }
    r := CollectPage(fetched.value);
  }

  /** The position of the first record whose "id" is `id`, or -1. */
  function FirstIdIndex(records: seq<Doc>, id: string): (i: int)
    ensures -1 <= i < |records|
    ensures i >= 0 ==> StrField(records[i], "id") == Some(id)
    ensures forall j :: 0 <= j < |records| && (i == -1 || j < i) ==> StrField(records[j], "id") != Some(id)
  {
    if records == [] then -1
    else if StrField(records[0], "id") == Some(id) then 0
    else
      var k := FirstIdIndex(records[1..], id);
      if k == -1 then -1 else k + 1
  }

  /** Where the in-memory page starts: one past the cursor's record, or 0 with no cursor or an unknown one. */
  function StartIndex(records: seq<Doc>, cursor: Option<Snapshot>): (s: int)
    ensures 0 <= s <= |records|
  {
    if cursor.None? then 0 else FirstIdIndex(records, cursor.value.id) + 1
  }

  /** The page cut from the sorted list in memory; the cursor it hands back is always null. */
  function InMemoryPage(records: seq<Doc>, cursor: Option<Snapshot>): PageResult
  {
    var s := StartIndex(records, cursor);
    var e := Min(s + PageSize, |records|);
    Page(records[s..e], e < |records|, None)
  }

  /**
   * The in-memory page holds at most ten records taken in order from the
   * start index; there is more exactly when records remain after it; the
   * cursor is null.
   */
  lemma InMemoryPageShape(records: seq<Doc>, cursor: Option<Snapshot>)
    ensures var r := InMemoryPage(records, cursor);
            var s := StartIndex(records, cursor);
            r.Page? && r.cursor.None? && |r.records| <= PageSize
            && r.records == records[s..s + |r.records|]
            && (r.hasMore <==> s + |r.records| < |records|)
            && (|r.records| < PageSize ==> s + |r.records| == |records|)
  {
  }

  /** Every record id differs from every other. */
  predicate UniqueIds(records: seq<Doc>)
  {
    forall i, j :: 0 <= i < j < |records| ==> StrField(records[i], "id") != StrField(records[j], "id")
  }

  /**
   * With a cursor naming the record at position k the page starts right
   * after it; a cursor naming no record starts over at the first page.
   */
  lemma PageAfterCursor(records: seq<Doc>, cursor: Snapshot, k: int)
    requires UniqueIds(records)
    requires 0 <= k < |records| && StrField(records[k], "id") == Some(cursor.id)
    ensures StartIndex(records, Some(cursor)) == k + 1
    ensures InMemoryPage(records, Some(cursor)).records == records[k + 1..Min(k + 1 + PageSize, |records|)]
  {
    var i := FirstIdIndex(records, cursor.id);
    assert i != -1;
  }

  lemma UnknownCursorRestarts(records: seq<Doc>, cursor: Snapshot)
    requires forall j :: 0 <= j < |records| ==> StrField(records[j], "id") != Some(cursor.id)
    ensures InMemoryPage(records, Some(cursor)) == InMemoryPage(records, None)
  {
  }

  /** The scan for the cursor's record: one past the first record with the cursor's id, 0 if none or no cursor. */
  method FindStartIndex(records: seq<Doc>, cursor: Option<Snapshot>) returns (startIndex: int)
    ensures startIndex == StartIndex(records, cursor)
  {
    startIndex := 0;
    if cursor.Some? {
      var lastDocId := cursor.value.id;
      var i := 0;
      while i < |records|
        invariant 0 <= i <= |records|
        invariant forall j :: 0 <= j < i ==> StrField(records[j], "id") != Some(lastDocId)
      {
        if StrField(records[i], "id") == Some(lastDocId) {
          startIndex := i + 1;
          return;
        }
        i := i + 1;
      }
    }
  }

  /**
   * `getTasksForUserWithPagination(userId, lastDocument, listener)`: the
   * user's tasks are collected with their ids, sorted in memory with the
   * as-written creation-date comparator (dated tasks in server order, then
   * undated ones), and the page after the cursor is cut out of that list.
   */
  method GetTasksForUserWithPagination(userId: Option<string>, lastDocument: Option<Snapshot>,
                                       fetched: Result<seq<Snapshot>>) returns (r: PageResult)
    ensures userId.None? ==> r == PageError("User ID is null")
    ensures userId.Some? && fetched.Err? ==> r == PageError(fetched.error)
    ensures userId.Some? && fetched.Ok? ==> r == InMemoryPage(Sort(WithIds(fetched.value), ByCreation()), lastDocument)
    ensures userId.Some? && fetched.Ok? ==>
              r == InMemoryPage(Dated(WithIds(fetched.value), "createdAt") + Undated(WithIds(fetched.value), "createdAt"), lastDocument)
  {
    if userId.None? {
      return PageError("User ID is null");
    }
    if fetched.Err? {
      return PageError(fetched.error);
    }
    r := UserTasksPage(fetched.value, lastDocument);
  }

  /** The success listener of `getTasksForUserWithPagination`. */
  method UserTasksPage(snaps: seq<Snapshot>, lastDocument: Option<Snapshot>) returns (r: PageResult)
    ensures r == InMemoryPage(Sort(WithIds(snaps), ByCreation()), lastDocument)
    ensures r == InMemoryPage(Dated(WithIds(snaps), "createdAt") + Undated(WithIds(snaps), "createdAt"), lastDocument)
  {
    AsWrittenListing(WithIds(snaps), "createdAt");
    var records := CollectRecords(snaps);
    var allTasks := SortSeq(records, ByCreation());
    r := CutPage(allTasks, lastDocument);
  }

  /** The paging of that listener: the records after the cursor's, at most ten, and whether any remain. */
  method CutPage(allTasks: seq<Doc>, lastDocument: Option<Snapshot>) returns (r: PageResult)
    ensures r == InMemoryPage(allTasks, lastDocument)
  {
    var startIndex := FindStartIndex(allTasks, lastDocument);
    var endIndex := Min(startIndex + PageSize, |allTasks|);
    r := Page(allTasks[startIndex..endIndex], endIndex < |allTasks|, None);
  }

  /**
   * The creation-date listings (`getTasksForUser`, `getTasksCreatedByUser`,
   * `getTasksByStatus`, `getTasksByPriority`, `getTasksByDateRange`): every
   * record with its id, sorted with the as-written creation-date comparator,
   * which leaves dated records in server order ahead of undated ones;
   * `userIdRequired` marks the two
   * that first reject a null user id.
   */
  method GetTasksSortedByCreation(userIdRequired: bool, userId: Option<string>, fetched: Result<seq<Snapshot>>)
    returns (r: Result<seq<Doc>>)
    ensures userIdRequired && userId.None? ==> r == Err("User ID is null")
    ensures !(userIdRequired && userId.None?) && fetched.Err? ==> r == Err(fetched.error)
    ensures !(userIdRequired && userId.None?) && fetched.Ok? ==> r == Ok(Sort(WithIds(fetched.value), ByCreation()))
    ensures !(userIdRequired && userId.None?) && fetched.Ok? ==>
              r == Ok(Dated(WithIds(fetched.value), "createdAt") + Undated(WithIds(fetched.value), "createdAt"))
  {
    if userIdRequired && userId.None? {
      return Err("User ID is null");
    }
    if fetched.Err? {
      return Err(fetched.error);
    }
    var tasks := CollectRecords(fetched.value);
    tasks := SortSeq(tasks, ByCreation());
    assert tasks == Sort(WithIds(fetched.value), ByCreation());
    AsWrittenListing(WithIds(fetched.value), "createdAt");
    r := Ok(tasks);
  }

  /** The snapshots whose status is not "completed", in order. */
  function OpenTasks(snaps: seq<Snapshot>): (r: seq<Snapshot>)
    ensures forall x :: multiset(r)[x] == if StrField(x.data, "status") != Some(Tasks.Completed) then multiset(snaps)[x] else 0
  {
    if snaps == [] then []
    else
      var init, last := snaps[..|snaps| - 1], snaps[|snaps| - 1];
      assert snaps == init + [last];
      OpenTasks(init) + (if StrField(last.data, "status") != Some(Tasks.Completed) then [last] else [])
  }

  lemma OpenTasksAppend(snaps: seq<Snapshot>, s: Snapshot)
    ensures OpenTasks(snaps + [s]) == OpenTasks(snaps) + (if StrField(s.data, "status") != Some(Tasks.Completed) then [s] else [])
  {
    assert (snaps + [s])[..|snaps|] == snaps;
  }

  /** One more snapshot: the open records of a one-longer prefix gain that record exactly when it is open. */
  lemma OpenTaskStep(snaps: seq<Snapshot>, i: int)
    requires 0 <= i < |snaps|
    ensures WithIds(OpenTasks(snaps[..i + 1]))
         == WithIds(OpenTasks(snaps[..i])) + (if StrField(snaps[i].data, "status") != Some(Tasks.Completed) then [WithId(snaps[i])] else [])
  {
    assert snaps[..i + 1] == snaps[..i] + [snaps[i]];
    OpenTasksAppend(snaps[..i], snaps[i]);
    WithIdsAppend(OpenTasks(snaps[..i]), snaps[i]);
  }

  /** The due-date comparator of `getTasksDueSoon`, as written: it only puts undated tasks last. */
  function ByDueDate(): Doc -> Key { AsWrittenKey("dueDate") }

  /**
   * `getTasksDueSoon(daysFromNow, listener)`: of the tasks the server finds
   * due within the window, the loop keeps those not completed, with their
   * ids, and sorts them with the as-written due-date comparator: the tasks
   * with a due date in server order, then those without one.
   */
  method GetTasksDueSoon(fetched: Result<seq<Snapshot>>) returns (r: Result<seq<Doc>>)
    ensures fetched.Err? ==> r == Err(fetched.error)
    ensures fetched.Ok? ==> r == Ok(Sort(WithIds(OpenTasks(fetched.value)), ByDueDate()))
    ensures fetched.Ok? ==> r == Ok(Dated(WithIds(OpenTasks(fetched.value)), "dueDate") + Undated(WithIds(OpenTasks(fetched.value)), "dueDate"))
  {
    if fetched.Err? {
      return Err(fetched.error);
    }
    var tasks := CollectOpenTasks(fetched.value);
    tasks := SortSeq(tasks, ByDueDate());
    assert tasks == Sort(WithIds(OpenTasks(fetched.value)), ByDueDate());
    AsWrittenListing(WithIds(OpenTasks(fetched.value)), "dueDate");
    r := Ok(tasks);
  }

  /** The loop of `getTasksDueSoon`: each task not completed, with its id, in order. */
  method CollectOpenTasks(snaps: seq<Snapshot>) returns (tasks: seq<Doc>)
    ensures tasks == WithIds(OpenTasks(snaps))
  {
    tasks := [];
    var i := 0;
    while i < |snaps|
      invariant 0 <= i <= |snaps|
      invariant tasks == WithIds(OpenTasks(snaps[..i]))
    {
      OpenTaskStep(snaps, i);
      tasks := tasks + (if StrField(snaps[i].data, "status") != Some(Tasks.Completed) then [WithId(snaps[i])] else []);
      i := i + 1;
    }
    assert snaps[..|snaps|] == snaps;
  }

  /** No task of the due-soon list is completed, and every open task the server found is in it. */
  lemma DueSoonKeepsExactlyOpenTasks(snaps: seq<Snapshot>, s: Snapshot)
    ensures s in OpenTasks(snaps) <==> s in snaps && StrField(s.data, "status") != Some(Tasks.Completed)
  {
    assert s in OpenTasks(snaps) <==> multiset(OpenTasks(snaps))[s] > 0;
    assert s in snaps <==> multiset(snaps)[s] > 0;
  }

  /* ---------- writes ---------- */

  /** The id guard of every write: a non-null, non-empty id. */
  predicate ValidId(id: Option<string>)
  {
    id.Some? && id.value != ""
  }

  const InvalidIdMessage := "Task ID is null or empty"

  /** The fields `updateTaskStatus` writes. */
  function StatusFields(status: Option<string>, now: int): Doc
  {
    map["status" := StrValue(status), "updatedAt" := VDate(now)]
  }

  /** The fields `reassignTask` writes: the new assignee, status back to "pending", and the update time. */
  function ReassignFields(assigneeId: Option<string>, assigneeName: Option<string>, now: int): Doc
  {
    AssigneeFields(assigneeId, assigneeName) + StatusFields(Some(Tasks.Pending), now)
  }

  function AssigneeFields(assigneeId: Option<string>, assigneeName: Option<string>): Doc
  {
    map["assignedToUserId" := StrValue(assigneeId), "assignedToName" := StrValue(assigneeName)]
  }

  /** The fields `updateTaskAttachment` writes. */
  function AttachmentFields(url: Option<string>, name: Option<string>, now: int): Doc
  {
    map["attachmentUrl" := StrValue(url), "attachmentName" := StrValue(name), "updatedAt" := VDate(now)]
  }

  /** The fields `updateTaskDueDate` writes. */
  function DueDateFields(dueDate: Option<int>, now: int): Doc
  {
    map["dueDate" := DateValue(dueDate), "updatedAt" := VDate(now)]
  }

  /** Reading a document back gives the same task whether its dates are Dates or Timestamps. */
  lemma FromMapStored(d: Doc, now: int)
    ensures Tasks.FromMap(Stored(d), now) == Tasks.FromMap(d, now)
  {
    forall k
      ensures StrField(Stored(d), k) == StrField(d, k) && DateField(Stored(d), k) == DateField(d, k)
    {
      StoredReadsTheSame(d, k);
    }
    FromMapReadsFields(Stored(d), d, now);
  }

  /** `Task.fromMap` depends only on which keys are present and on the strings and dates under them. */
  lemma FromMapReadsFields(m1: Doc, m2: Doc, now: int)
    requires m1.Keys == m2.Keys
    requires forall k :: StrField(m1, k) == StrField(m2, k) && DateField(m1, k) == DateField(m2, k)
    ensures Tasks.FromMap(m1, now) == Tasks.FromMap(m2, now)
  {
  }

  /**
   * Merging fields into the map of a task gives the map of another task
   * when every merged field is that task's field and every other field
   * agrees.
   */
  lemma MergedIsToMap(t: Tasks.Task, fields: Doc, t': Tasks.Task)
    requires fields.Keys <= Tasks.DataKeys
    requires forall k :: k in fields ==> fields[k] == Tasks.FieldValue(t', k)
    requires forall k :: k in Tasks.DataKeys && k !in fields ==> Tasks.FieldValue(t, k) == Tasks.FieldValue(t', k)
    ensures Tasks.ToMap(t) + fields == Tasks.ToMap(t')
  {
    var a, b := Tasks.ToMap(t) + fields, Tasks.ToMap(t');
    forall k | k in a
      ensures k in b && a[k] == b[k]
    {
    }
    assert forall k :: k in b ==> k in a;
  }

  /** The status fields over the map of a task are the map of the task with the new status. */
  lemma StatusFieldsAreToMap(t: Tasks.Task, status: Option<string>, now: int)
    ensures Tasks.ToMap(t) + StatusFields(status, now) == Tasks.ToMap(t.(status := status, updatedAt := Some(now)))
  {
    var t' := t.(status := status, updatedAt := Some(now));
    assert forall k :: k !in StatusFields(status, now) ==> Tasks.FieldValue(t, k) == Tasks.FieldValue(t', k);
    MergedIsToMap(t, StatusFields(status, now), t');
  }

  /** The assignee fields over the map of a task are the map of the task with the new assignee. */
  lemma AssigneeFieldsAreToMap(t: Tasks.Task, assigneeId: Option<string>, assigneeName: Option<string>)
    ensures Tasks.ToMap(t) + AssigneeFields(assigneeId, assigneeName)
         == Tasks.ToMap(t.(assignedToUserId := assigneeId, assignedToName := assigneeName))
  {
    var t' := t.(assignedToUserId := assigneeId, assignedToName := assigneeName);
    assert forall k :: k !in AssigneeFields(assigneeId, assigneeName) ==> Tasks.FieldValue(t, k) == Tasks.FieldValue(t', k);
    MergedIsToMap(t, AssigneeFields(assigneeId, assigneeName), t');
  }

  lemma ReassignFieldsAreToMap(t: Tasks.Task, assigneeId: Option<string>, assigneeName: Option<string>, now: int)
    ensures Tasks.ToMap(t) + ReassignFields(assigneeId, assigneeName, now)
         == Tasks.ToMap(t.(assignedToUserId := assigneeId, assignedToName := assigneeName,
                           status := Some(Tasks.Pending), updatedAt := Some(now)))
  {
    var t1 := t.(assignedToUserId := assigneeId, assignedToName := assigneeName);
    var a, s := AssigneeFields(assigneeId, assigneeName), StatusFields(Some(Tasks.Pending), now);
    assert Tasks.ToMap(t) + (a + s) == (Tasks.ToMap(t) + a) + s;
    AssigneeFieldsAreToMap(t, assigneeId, assigneeName);
    StatusFieldsAreToMap(t1, Some(Tasks.Pending), now);
  }

  /** A stored task map with fields merged in reads back as the task whose map it now is. */
  lemma {:induction false} MergedReadBack(t: Tasks.Task, fields: Doc, t': Tasks.Task, readAt: int)
    requires Tasks.ToMap(t) + fields == Tasks.ToMap(t')
    requires t'.createdAt.Some? && t'.updatedAt.Some?
    ensures Tasks.FromMap(Stored(Tasks.ToMap(t)) + Stored(fields), readAt) == t'.(id := None)
  {
    StoredMerge(Tasks.ToMap(t), fields);
    FromMapStored(Tasks.ToMap(t'), readAt);
    Tasks.FromMapToMap(t', readAt);
  }

  /**
   * A status update of a task the app wrote reads back as that task with
   * the new status and update time, and nothing else changed.
   */
  lemma {:induction false} StatusUpdateReadBack(t: Tasks.Task, status: Option<string>, now: int, readAt: int)
    requires t.createdAt.Some?
    ensures Tasks.FromMap(Stored(Tasks.ToMap(t)) + Stored(StatusFields(status, now)), readAt)
         == t.(id := None, status := status, updatedAt := Some(now))
  {
    StatusFieldsAreToMap(t, status, now);
    MergedReadBack(t, StatusFields(status, now), t.(status := status, updatedAt := Some(now)), readAt);
  }

  /**
   * A reassignment of a task the app wrote reads back as that task with the
   * new assignee, status "pending" and the new update time.
   */
  lemma {:induction false} ReassignReadBack(t: Tasks.Task, assigneeId: Option<string>, assigneeName: Option<string>,
                                            now: int, readAt: int)
    requires t.createdAt.Some?
    ensures Tasks.FromMap(Stored(Tasks.ToMap(t)) + Stored(ReassignFields(assigneeId, assigneeName, now)), readAt)
         == t.(id := None, assignedToUserId := assigneeId, assignedToName := assigneeName,
               status := Some(Tasks.Pending), updatedAt := Some(now))
  {
    ReassignFieldsAreToMap(t, assigneeId, assigneeName, now);
    MergedReadBack(t, ReassignFields(assigneeId, assigneeName, now),
                   t.(assignedToUserId := assigneeId, assignedToName := assigneeName,
                      status := Some(Tasks.Pending), updatedAt := Some(now)), readAt);
  }

  /** The task `addTask` writes: creation time kept or set to now, update time now. */
  function Stamped(t: Tasks.Task, now: int): (r: Tasks.Task)
    ensures r.createdAt == Some(t.createdAt.GetOr(now)) && r.updatedAt == Some(now)
    ensures r.(createdAt := t.createdAt, updatedAt := t.updatedAt) == t
  {
    t.(createdAt := Some(t.createdAt.GetOr(now)), updatedAt := Some(now))
  }

  /**
   * `addTask(task, listener)`: stamps the task (the caller's object is
   * updated too, hence the returned task) and adds its map as a new
   * document; success reports the new id.
   */
  method AddTask(db: Collection, t: Tasks.Task, now: int, newId: string, failure: Option<string>)
    returns (stamped: Tasks.Task, r: Result<string>)
    requires db.Valid() && newId !in db.docs
    modifies db
    ensures db.Valid()
    ensures stamped == Stamped(t, now)
    ensures failure.Some? ==> r == Err("Lỗi khi thêm task: " + failure.value) && db.docs == old(db.docs)
    ensures failure.None? ==> r == Ok(newId) && db.docs == old(db.docs)[newId := Stored(Tasks.ToMap(stamped))]
  {
    stamped := Stamped(t, now);
    var s := db.Add(newId, Tasks.ToMap(stamped), failure);
    if s.Failure? {
      return stamped, Err("Lỗi khi thêm task: " + s.message);
    }
    r := Ok(newId);
  }

  /** A task added by `addTask` reads back as the stamped task under its new id. */
  lemma AddedTaskReadsBack(t: Tasks.Task, now: int, newId: string, readAt: int)
    ensures Tasks.FromMap(Stored(Tasks.ToMap(Stamped(t, now)))["id" := VStr(newId)], readAt)
         == Stamped(t, now).(id := Some(newId))
  {
    var d := Tasks.ToMap(Stamped(t, now));
    var m1, m2 := Stored(d)["id" := VStr(newId)], d["id" := VStr(newId)];
    forall k
      ensures StrField(m1, k) == StrField(m2, k) && DateField(m1, k) == DateField(m2, k)
    {
      StoredReadsTheSame(d, k);
    }
    FromMapReadsFields(m1, m2, readAt);
    Tasks.FromMapWithId(Stamped(t, now), newId, readAt);
  }

  /** The shared shape of the field updates: the guard, then an update with the error prefix of the operation. */
  method UpdateFields(db: Collection, taskId: Option<string>, fields: Doc, prefix: string, failure: Option<string>)
    returns (r: Status)
    requires db.Valid()
    modifies db
    ensures db.Valid()
    ensures !ValidId(taskId) ==> r == Failure(InvalidIdMessage) && db.docs == old(db.docs)
    ensures ValidId(taskId) && r.Failure? ==> db.docs == old(db.docs)
    ensures ValidId(taskId) && failure.Some? ==> r == Failure(prefix + failure.value)
    ensures ValidId(taskId) && failure.None? && taskId.value !in old(db.docs) ==> r == Failure(prefix + NotFound)
    ensures ValidId(taskId) && failure.None? && taskId.value in old(db.docs) ==>
              r == Success && db.docs == old(db.docs)[taskId.value := old(db.docs)[taskId.value] + Stored(fields)]
  {
    if !ValidId(taskId) {
      return Failure(InvalidIdMessage);
    }
    var s := db.Update(taskId.value, fields, failure);
    if s.Failure? {
      return Failure(prefix + s.message);
    }
    r := Success;
  }

  /** `updateTaskStatus(taskId, status, listener)`. */
  method UpdateTaskStatus(db: Collection, taskId: Option<string>, status: Option<string>, now: int, failure: Option<string>)
    returns (r: Status)
    requires db.Valid()
    modifies db
    ensures db.Valid()
    ensures !ValidId(taskId) ==> r == Failure(InvalidIdMessage) && db.docs == old(db.docs)
    ensures r.Failure? ==> db.docs == old(db.docs)
    ensures r.Success? ==> (ValidId(taskId) && taskId.value in old(db.docs)
              && db.docs == old(db.docs)[taskId.value := old(db.docs)[taskId.value] + Stored(StatusFields(status, now))])
    ensures ValidId(taskId) && failure.None? && taskId.value in old(db.docs) ==> r.Success?
  {
    r := UpdateFields(db, taskId, StatusFields(status, now), "Lỗi khi cập nhật trạng thái: ", failure);
  }

  /** `reassignTask(taskId, newAssigneeId, newAssigneeName, listener)`: the new assignee, and the status back to "pending". */
  method ReassignTask(db: Collection, taskId: Option<string>, assigneeId: Option<string>, assigneeName: Option<string>,
                      now: int, failure: Option<string>) returns (r: Status)
    requires db.Valid()
    modifies db
    ensures db.Valid()
    ensures !ValidId(taskId) ==> r == Failure(InvalidIdMessage) && db.docs == old(db.docs)
    ensures r.Failure? ==> db.docs == old(db.docs)
    ensures r.Success? ==> (ValidId(taskId) && taskId.value in old(db.docs)
              && db.docs == old(db.docs)[taskId.value := old(db.docs)[taskId.value] + Stored(ReassignFields(assigneeId, assigneeName, now))])
    ensures ValidId(taskId) && failure.None? && taskId.value in old(db.docs) ==> r.Success?
  {
    r := UpdateFields(db, taskId, ReassignFields(assigneeId, assigneeName, now), "Lỗi khi phân việc lại: ", failure);
  }

  /** `updateTaskAttachment(taskId, attachmentUrl, attachmentName, listener)`. */
  method UpdateTaskAttachment(db: Collection, taskId: Option<string>, url: Option<string>, name: Option<string>,
                              now: int, failure: Option<string>) returns (r: Status)
    requires db.Valid()
    modifies db
    ensures db.Valid()
    ensures !ValidId(taskId) ==> r == Failure(InvalidIdMessage) && db.docs == old(db.docs)
    ensures r.Failure? ==> db.docs == old(db.docs)
    ensures r.Success? ==> (ValidId(taskId) && taskId.value in old(db.docs)
              && db.docs == old(db.docs)[taskId.value := old(db.docs)[taskId.value] + Stored(AttachmentFields(url, name, now))])
    ensures ValidId(taskId) && failure.None? && taskId.value in old(db.docs) ==> r.Success?
  {
    r := UpdateFields(db, taskId, AttachmentFields(url, name, now), "Lỗi khi cập nhật tệp đính kèm: ", failure);
  }

  /** `updateTaskDueDate(taskId, newDueDate, listener)`. */
  method UpdateTaskDueDate(db: Collection, taskId: Option<string>, dueDate: Option<int>, now: int, failure: Option<string>)
    returns (r: Status)
    requires db.Valid()
    modifies db
    ensures db.Valid()
    ensures !ValidId(taskId) ==> r == Failure(InvalidIdMessage) && db.docs == old(db.docs)
    ensures r.Failure? ==> db.docs == old(db.docs)
    ensures r.Success? ==> (ValidId(taskId) && taskId.value in old(db.docs)
              && db.docs == old(db.docs)[taskId.value := old(db.docs)[taskId.value] + Stored(DueDateFields(dueDate, now))])
    ensures ValidId(taskId) && failure.None? && taskId.value in old(db.docs) ==> r.Success?
  {
    r := UpdateFields(db, taskId, DueDateFields(dueDate, now), "Lỗi khi cập nhật hạn chót: ", failure);
  }

  /** `updateTask(task, listener)`: with a usable id, the task is stamped with the update time and its map replaces the document. */
  method UpdateTask(db: Collection, t: Tasks.Task, now: int, failure: Option<string>) returns (updated: Tasks.Task, r: Status)
    requires db.Valid()
    modifies db
    ensures db.Valid()
    ensures !ValidId(t.id) ==> updated == t && r == Failure(InvalidIdMessage) && db.docs == old(db.docs)
    ensures ValidId(t.id) ==> updated == t.(updatedAt := Some(now))
    ensures ValidId(t.id) && failure.Some? ==> r == Failure("Lỗi khi cập nhật task: " + failure.value) && db.docs == old(db.docs)
    ensures ValidId(t.id) && failure.None? ==> r == Success && db.docs == old(db.docs)[t.id.value := Stored(Tasks.ToMap(updated))]
  {
    if !ValidId(t.id) {
      return t, Failure(InvalidIdMessage);
    }
    updated := t.(updatedAt := Some(now));
    var s := db.Set(t.id.value, Tasks.ToMap(updated), failure);
    if s.Failure? {
      return updated, Failure("Lỗi khi cập nhật task: " + s.message);
    }
    r := Success;
  }

  /** `deleteTask(taskId, listener)`. */
  method DeleteTask(db: Collection, taskId: Option<string>, failure: Option<string>) returns (r: Status)
    requires db.Valid()
    modifies db
    ensures db.Valid()
    ensures !ValidId(taskId) ==> r == Failure(InvalidIdMessage) && db.docs == old(db.docs)
    ensures ValidId(taskId) && failure.Some? ==> r == Failure("Lỗi khi xóa task: " + failure.value) && db.docs == old(db.docs)
    ensures ValidId(taskId) && failure.None? ==> r == Success && db.docs == old(db.docs) - {taskId.value}
  {
    if !ValidId(taskId) {
      return Failure(InvalidIdMessage);
    }
    var s := db.Delete(taskId.value, failure);
    if s.Failure? {
      return Failure("Lỗi khi xóa task: " + s.message);
    }
    r := Success;
  }

  /** Whether the caller may delete a stored task: only its assigner may. */
  predicate MayDelete(doc: Doc, currentUserId: string)
  {
    StrField(doc, "assignerUserId") == Some(currentUserId)
  }

  /**
   * `deleteTaskWithPermission(taskId, currentUserId, listener)`: after both
   * id guards, reads the task (`readFailure` is a failed read) and deletes it
   * only when it exists and the caller is its assigner.
   */
  method DeleteTaskWithPermission(db: Collection, taskId: Option<string>, currentUserId: Option<string>,
                                  readFailure: Option<string>, failure: Option<string>) returns (r: Status)
    requires db.Valid()
    modifies db
    ensures db.Valid()
    ensures !ValidId(taskId) ==> r == Failure(InvalidIdMessage)
    ensures ValidId(taskId) && !ValidId(currentUserId) ==> r == Failure("Current user ID is required")
    ensures ValidId(taskId) && ValidId(currentUserId) && readFailure.Some? ==>
              r == Failure("Lỗi khi kiểm tra quyền: " + readFailure.value)
    ensures ValidId(taskId) && ValidId(currentUserId) && readFailure.None? && taskId.value !in old(db.docs) ==>
              r == Failure("Task không tồn tại")
    ensures ValidId(taskId) && ValidId(currentUserId) && readFailure.None? && taskId.value in old(db.docs)
            && !MayDelete(old(db.docs)[taskId.value], currentUserId.value) ==>
              r == Failure("Chỉ người tạo task mới có quyền xóa")
    ensures db.docs != old(db.docs) ==>
              r == Success && ValidId(taskId) && ValidId(currentUserId) && taskId.value in old(db.docs)
              && MayDelete(old(db.docs)[taskId.value], currentUserId.value) && db.docs == old(db.docs) - {taskId.value}
    ensures r.Failure? ==> db.docs == old(db.docs)
    // the assigner's call is handed to `deleteTask`
    ensures ValidId(taskId) && ValidId(currentUserId) && readFailure.None? && taskId.value in old(db.docs)
            && MayDelete(old(db.docs)[taskId.value], currentUserId.value) ==>
              (failure.None? ==> r == Success && db.docs == old(db.docs) - {taskId.value})
              && (failure.Some? ==> r == Failure("Lỗi khi xóa task: " + failure.value))
  {
    if !ValidId(taskId) {
      return Failure(InvalidIdMessage);
    }
    if !ValidId(currentUserId) {
      return Failure("Current user ID is required");
    }
    if readFailure.Some? {
      return Failure("Lỗi khi kiểm tra quyền: " + readFailure.value);
    }
    if taskId.value !in db.docs {
      return Failure("Task không tồn tại");
    }
    if !MayDelete(db.docs[taskId.value], currentUserId.value) {
      return Failure("Chỉ người tạo task mới có quyền xóa");
    }
    r := DeleteTask(db, taskId, failure);
  }

  /** `getTaskById(taskId, listener)`: the stored document with its id, read through `Task.fromMap`. */
  method GetTaskById(db: Collection, taskId: Option<string>, now: int, failure: Option<string>) returns (r: Result<Tasks.Task>)
    ensures !ValidId(taskId) ==> r == Err(InvalidIdMessage)
    ensures ValidId(taskId) && failure.Some? ==> r == Err("Lỗi khi tải task: " + failure.value)
    ensures ValidId(taskId) && failure.None? && taskId.value !in db.docs ==> r == Err("Task not found")
    ensures ValidId(taskId) && failure.None? && taskId.value in db.docs ==>
              r == Ok(Tasks.FromMap(db.docs[taskId.value]["id" := VStr(taskId.value)], now))
  {
    if !ValidId(taskId) {
      return Err(InvalidIdMessage);
    }
    if failure.Some? {
      return Err("Lỗi khi tải task: " + failure.value);
    }
    if taskId.value !in db.docs {
      return Err("Task not found");
    }
    r := Ok(Tasks.FromMap(db.docs[taskId.value]["id" := VStr(taskId.value)], now));
  }
}
