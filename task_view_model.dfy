/**
 * The task screen's view-model (viewmodels/TaskViewModel.java). The LiveData
 * values and the pagination state are fields; a LiveData value nobody has
 * set yet is `None`. A call to the repository is the `TaskQuery` or
 * `TaskWrite` the method returns, and its answer arrives later as a call of
 * one of the completion methods (`OnPageLoaded`, `OnTasksLoaded`,
 * `OnTaskAdded`, `OnWriteDone`, `OnError`), in whatever order the test of a
 * caller chooses. The signed-in account is a parameter.
 */
module TaskViewModel {
  import opened Common
  import opened Firestore
  import Tasks
  import UserManager
  import StableSort
  import TaskRepository

  /** The listing queries the view-model sends to the task repository. */
  datatype TaskQuery =
    | AllTasks
    | TasksPage(cursor: Option<Snapshot>)
    | UserTasksPage(uid: string, cursor: Option<Snapshot>)
    | TasksForUser(userId: Option<string>)
    | TasksCreatedByUser(userId: Option<string>)
    | TasksByStatus(status: Option<string>)
    | TasksByPriority(priority: Option<string>)
    | TasksDueSoon(daysFromNow: int)

  /** The writes the view-model sends to the task repository. */
  datatype TaskWrite =
    | AddTask(task: Tasks.Task)
    | UpdateTaskStatus(taskId: Option<string>, status: Option<string>)
    | UpdateTask(task: Tasks.Task)
    | ReassignTask(taskId: Option<string>, assigneeId: Option<string>, assigneeName: Option<string>)
    | DeleteTaskWithPermission(taskId: Option<string>, currentUserId: Option<string>)
    | AddTaskComment(taskId: Option<string>, comment: Option<string>, authorId: Option<string>, authorName: Option<string>)
    | UpdateTaskAttachment(taskId: Option<string>, url: Option<string>, name: Option<string>)
    | UpdateTaskDueDate(taskId: Option<string>, dueDate: Option<int>)

  /** `(String) task.get(key)` compared with the uid: false when the key holds no string. */
  predicate HoldsUser(task: Doc, key: string, uid: string)
  {
    StrField(task, key) == Some(uid)
  }

  /** `canEditTask(task)`: the signed-in user is the task's assignee or its assigner. */
  predicate CanEditTask(auth: Option<UserManager.AuthUser>, task: Doc)
  {
    auth.Some? && (HoldsUser(task, "assignedToUserId", auth.value.uid) || HoldsUser(task, "assignerUserId", auth.value.uid))
  }

  /** `canUpdateTaskStatus(task)`: the signed-in user is the task's assignee. */
  predicate CanUpdateTaskStatus(auth: Option<UserManager.AuthUser>, task: Doc)
  {
    auth.Some? && HoldsUser(task, "assignedToUserId", auth.value.uid)
  }

  /** `isTaskAssigner(task)`: the signed-in user is the task's assigner. */
  predicate IsTaskAssigner(auth: Option<UserManager.AuthUser>, task: Doc)
  {
    auth.Some? && HoldsUser(task, "assignerUserId", auth.value.uid)
  }

  /**
   * Nobody signed in may do anything; editing is exactly updating the
   * status or being the assigner; each of the narrower rights implies editing.
   */
  lemma TaskRights(auth: Option<UserManager.AuthUser>, task: Doc)
    ensures auth.None? ==> !CanEditTask(auth, task) && !CanUpdateTaskStatus(auth, task) && !IsTaskAssigner(auth, task)
    ensures CanEditTask(auth, task) <==> CanUpdateTaskStatus(auth, task) || IsTaskAssigner(auth, task)
    ensures CanUpdateTaskStatus(auth, task) ==> CanEditTask(auth, task)
    ensures IsTaskAssigner(auth, task) ==> CanEditTask(auth, task)
  {
  }

  /** The author name `addTaskComment` sends: the display name, else the e-mail; "Unknown" when signed out. */
  function CommentAuthorName(auth: Option<UserManager.AuthUser>): (r: Option<string>)
    ensures auth.None? ==> r == Some("Unknown")
    ensures auth.Some? && auth.value.displayName.Some? ==> r == auth.value.displayName
    ensures auth.Some? && auth.value.displayName.None? ==> r == auth.value.email
  {
    if auth.None? then Some("Unknown")
    else if auth.value.displayName.Some? then auth.value.displayName
    else auth.value.email
  }

  /** The uid of the signed-in account, null when signed out. */
  function Uid(auth: Option<UserManager.AuthUser>): (r: Option<string>)
    ensures r.Some? <==> auth.Some?
  {
    if auth.Some? then Some(auth.value.uid) else None
  }

  class TaskViewModel {
    /** The `tasks` LiveData. */
    var tasks: Option<seq<Doc>>
    var errorMessage: Option<string>
    var isLoading: Option<bool>
    var hasMoreTasks: Option<bool>
    /** `lastTaskDocument`: the cursor for the next page. */
    var lastTaskDocument: Option<Snapshot>
    var isPaginationMode: bool
    /** The "my tasks" filter: the user whose tasks are listed, or null for all. */
    var currentUserId: Option<string>

    /** `new TaskViewModel()`: nothing loaded, no pagination, no filter; the constructor starts a full load. */
    constructor()
      ensures tasks.None? && errorMessage.None? && hasMoreTasks.None? && isLoading == Some(true)
      ensures lastTaskDocument.None? && !isPaginationMode && currentUserId.None?
    {
      tasks, errorMessage, hasMoreTasks, isLoading := None, None, None, Some(true);
      lastTaskDocument, isPaginationMode, currentUserId := None, false, None;
    }

    /** The page query for the current filter and cursor. */
    function PageQuery(): (q: TaskQuery)
      reads this
      ensures currentUserId.None? ==> q == TasksPage(lastTaskDocument)
      ensures currentUserId.Some? ==> q == UserTasksPage(currentUserId.value, lastTaskDocument)
    {
      if currentUserId.Some? then UserTasksPage(currentUserId.value, lastTaskDocument) else TasksPage(lastTaskDocument)
    }

    /** `loadTasksWithPagination()`: loading, and the page after the cursor is requested. */
    method LoadTasksWithPagination() returns (q: TaskQuery)
      modifies this
      ensures q == old(PageQuery())
      ensures isLoading == Some(true)
      ensures tasks == old(tasks) && errorMessage == old(errorMessage) && hasMoreTasks == old(hasMoreTasks)
      ensures lastTaskDocument == old(lastTaskDocument) && isPaginationMode == old(isPaginationMode)
      ensures currentUserId == old(currentUserId)
    {
      isLoading := Some(true);
      q := PageQuery();
    }

    /** `enablePagination()`: pagination on, no more pages known, no cursor; then the first page is requested. */
    method EnablePagination() returns (q: TaskQuery)
      modifies this
      ensures isPaginationMode && hasMoreTasks == Some(false) && lastTaskDocument.None?
      ensures q == (if currentUserId.Some? then UserTasksPage(currentUserId.value, None) else TasksPage(None))
      ensures isLoading == Some(true)
      ensures tasks == old(tasks) && errorMessage == old(errorMessage) && currentUserId == old(currentUserId)
    {
      isPaginationMode := true;
      hasMoreTasks := Some(false);
      lastTaskDocument := None;
      q := LoadTasksWithPagination();
    }

    /** Whether `loadMoreTasks` goes ahead: pagination on, "has more" not false, and a cursor. */
    predicate CanLoadMore()
      reads this
    {
      isPaginationMode && hasMoreTasks != Some(false) && lastTaskDocument.Some?
    }

    /** `loadMoreTasks()`: nothing at all unless it can load more; otherwise the next page is requested. */
    method LoadMoreTasks() returns (q: Option<TaskQuery>)
      modifies this
      ensures !old(CanLoadMore()) ==> q.None? && isLoading == old(isLoading)
      ensures old(CanLoadMore()) ==> q == Some(old(PageQuery())) && isLoading == Some(true)
      ensures tasks == old(tasks) && errorMessage == old(errorMessage) && hasMoreTasks == old(hasMoreTasks)
      ensures lastTaskDocument == old(lastTaskDocument) && isPaginationMode == old(isPaginationMode)
      ensures currentUserId == old(currentUserId)
    {
      if !isPaginationMode || hasMoreTasks == Some(false) || lastTaskDocument.None? {
        return None;
      }
      var next := LoadTasksWithPagination();
      q := Some(next);
    }

    /**
     * `handlePaginatedTasksLoaded(newTasks, hasMore, lastDocument)`: not
     * loading; the list starts over when there was no cursor and the new
     * tasks are appended; "has more" and the cursor are the page's.
     */
    method OnPageLoaded(newTasks: seq<Doc>, hasMore: bool, lastDocument: Option<Snapshot>)
      modifies this
      ensures isLoading == Some(false)
      ensures tasks == Some(ListAfterPage(old(tasks), old(lastTaskDocument), newTasks))
      ensures hasMoreTasks == Some(hasMore) && lastTaskDocument == lastDocument
      ensures errorMessage == old(errorMessage) && isPaginationMode == old(isPaginationMode)
      ensures currentUserId == old(currentUserId)
    {
      isLoading := Some(false);
      var currentTasks := if tasks.None? then [] else tasks.value;
      if lastTaskDocument.None? {
        currentTasks := [];
      }
      currentTasks := currentTasks + newTasks;
      tasks := Some(currentTasks);
      hasMoreTasks := Some(hasMore);
      lastTaskDocument := lastDocument;
    }

    /** Every `onError`: not loading, and the error is shown; the list and the pagination state stay. */
    method OnError(error: string)
      modifies this
      ensures isLoading == Some(false) && errorMessage == Some(error)
      ensures tasks == old(tasks) && hasMoreTasks == old(hasMoreTasks) && lastTaskDocument == old(lastTaskDocument)
      ensures isPaginationMode == old(isPaginationMode) && currentUserId == old(currentUserId)
    {
      isLoading := Some(false);
      errorMessage := Some(error);
    }

    /** `loadTasks()`: loading, and the whole list is requested. */
    method LoadTasks() returns (q: TaskQuery)
      modifies this
      ensures q == AllTasks && isLoading == Some(true)
      ensures tasks == old(tasks) && errorMessage == old(errorMessage) && hasMoreTasks == old(hasMoreTasks)
      ensures lastTaskDocument == old(lastTaskDocument) && isPaginationMode == old(isPaginationMode)
      ensures currentUserId == old(currentUserId)
    {
      isLoading := Some(true);
      q := AllTasks;
    }

    /**
     * `loadTasksForUser`, `loadTasksCreatedByUser`, `getTasksByStatus`,
     * `getTasksByPriority` and `getTasksDueSoon`: loading, and the query is sent.
     */
    method LoadList(q: TaskQuery) returns (sent: TaskQuery)
      requires q.TasksForUser? || q.TasksCreatedByUser? || q.TasksByStatus? || q.TasksByPriority? || q.TasksDueSoon?
      modifies this
      ensures sent == q && isLoading == Some(true)
      ensures tasks == old(tasks) && errorMessage == old(errorMessage) && hasMoreTasks == old(hasMoreTasks)
      ensures lastTaskDocument == old(lastTaskDocument) && isPaginationMode == old(isPaginationMode)
      ensures currentUserId == old(currentUserId)
    {
      isLoading := Some(true);
      sent := q;
    }

    /** The `onTasksLoaded` of every unpaged listing: not loading, and the list is the one delivered. */
    method OnTasksLoaded(taskList: seq<Doc>)
      modifies this
      ensures isLoading == Some(false) && tasks == Some(taskList)
      ensures errorMessage == old(errorMessage) && hasMoreTasks == old(hasMoreTasks)
      ensures lastTaskDocument == old(lastTaskDocument) && isPaginationMode == old(isPaginationMode)
      ensures currentUserId == old(currentUserId)
    {
      isLoading := Some(false);
      tasks := Some(taskList);
    }

    /** `refreshTasks()`: in pagination mode the cursor is dropped and the first page requested; else a full load. */
    method RefreshTasks() returns (q: TaskQuery)
      modifies this
      ensures isPaginationMode ==> lastTaskDocument.None? && q == PageQuery()
      ensures !isPaginationMode ==> q == AllTasks && lastTaskDocument == old(lastTaskDocument)
      ensures isLoading == Some(true)
      ensures tasks == old(tasks) && errorMessage == old(errorMessage) && hasMoreTasks == old(hasMoreTasks)
      ensures isPaginationMode == old(isPaginationMode) && currentUserId == old(currentUserId)
    {
      if isPaginationMode {
        lastTaskDocument := None;
        q := LoadTasksWithPagination();
      } else {
        q := LoadTasks();
      }
    }

    /**
     * `setMyTasksFilter(showOnlyMyTasks)`: showing only one's own tasks
     * filters by the signed-in uid (and keeps the previous filter when
     * signed out); showing all clears the filter. Then the list is reloaded
     * as `refreshTasks` does.
     */
    method SetMyTasksFilter(showOnlyMyTasks: bool, auth: Option<UserManager.AuthUser>) returns (q: TaskQuery)
      modifies this
      ensures showOnlyMyTasks && auth.Some? ==> currentUserId == Some(auth.value.uid)
      ensures showOnlyMyTasks && auth.None? ==> currentUserId == old(currentUserId)
      ensures !showOnlyMyTasks ==> currentUserId.None?
      ensures isPaginationMode ==> lastTaskDocument.None? && q == PageQuery()
      ensures !isPaginationMode ==> q == AllTasks && lastTaskDocument == old(lastTaskDocument)
      ensures isLoading == Some(true)
      ensures tasks == old(tasks) && errorMessage == old(errorMessage) && hasMoreTasks == old(hasMoreTasks)
      ensures isPaginationMode == old(isPaginationMode)
    {
      if showOnlyMyTasks {
        if auth.Some? {
          currentUserId := Some(auth.value.uid);
        }
      } else {
        currentUserId := None;
      }
      q := RefreshTasks();
    }

    /**
     * `addTask`, `updateTaskStatus`, `updateTask`, `reassignTask`,
     * `deleteTask`, `addTaskComment`, `updateTaskAttachment` and
     * `updateTaskDueDate`: loading, and the write is sent. `deleteTask` and
     * `addTaskComment` fill in the signed-in user as `Write` shows.
     */
    method StartWrite(w: TaskWrite) returns (sent: TaskWrite)
      modifies this
      ensures sent == w && isLoading == Some(true)
      ensures tasks == old(tasks) && errorMessage == old(errorMessage) && hasMoreTasks == old(hasMoreTasks)
      ensures lastTaskDocument == old(lastTaskDocument) && isPaginationMode == old(isPaginationMode)
      ensures currentUserId == old(currentUserId)
    {
      isLoading := Some(true);
      sent := w;
    }

    /** `onTaskAdded`: not loading; in pagination mode the list is refreshed so the new task can show. */
    method OnTaskAdded() returns (q: Option<TaskQuery>)
      modifies this
      ensures !isPaginationMode ==> q.None? && isLoading == Some(false) && lastTaskDocument == old(lastTaskDocument)
      ensures isPaginationMode ==> q == Some(PageQuery()) && lastTaskDocument.None? && isLoading == Some(true)
      ensures tasks == old(tasks) && errorMessage == old(errorMessage) && hasMoreTasks == old(hasMoreTasks)
      ensures isPaginationMode == old(isPaginationMode) && currentUserId == old(currentUserId)
    {
      isLoading := Some(false);
      if isPaginationMode {
        var next := RefreshTasks();
        return Some(next);
      }
      q := None;
    }

    /** The success listener of every other write: not loading, nothing reloaded. */
    method OnWriteDone()
      modifies this
      ensures isLoading == Some(false)
      ensures tasks == old(tasks) && errorMessage == old(errorMessage) && hasMoreTasks == old(hasMoreTasks)
      ensures lastTaskDocument == old(lastTaskDocument) && isPaginationMode == old(isPaginationMode)
      ensures currentUserId == old(currentUserId)
    {
      isLoading := Some(false);
    }

    /** `clearErrorMessage()`. */
    method ClearErrorMessage()
      modifies this
      ensures errorMessage.None?
      ensures tasks == old(tasks) && isLoading == old(isLoading) && hasMoreTasks == old(hasMoreTasks)
      ensures lastTaskDocument == old(lastTaskDocument) && isPaginationMode == old(isPaginationMode)
      ensures currentUserId == old(currentUserId)
    {
      errorMessage := None;
    }
  }

  /** The write `deleteTask(taskId)` sends: the caller is the signed-in uid, null when signed out. */
  function DeleteWrite(taskId: Option<string>, auth: Option<UserManager.AuthUser>): (w: TaskWrite)
    ensures w.DeleteTaskWithPermission? && w.taskId == taskId
    ensures w.currentUserId.Some? <==> auth.Some?
    ensures auth.Some? ==> w.currentUserId == Some(auth.value.uid)
  {
    DeleteTaskWithPermission(taskId, Uid(auth))
  }

  /** The write `addTaskComment(taskId, comment)` sends. */
  function CommentWrite(taskId: Option<string>, comment: Option<string>, auth: Option<UserManager.AuthUser>): (w: TaskWrite)
    ensures w.AddTaskComment? && w.taskId == taskId && w.comment == comment
    ensures w.authorId.Some? <==> auth.Some?
    ensures auth.None? ==> w.authorName == Some("Unknown")
  {
    AddTaskComment(taskId, comment, Uid(auth), CommentAuthorName(auth))
  }

  /**
   * In "my tasks" mode the repository cuts the page in memory and hands
   * back no cursor, so once a page of the user's tasks has been shown
   * "load more" sends nothing, whatever the flag says.
   */
  method MyTasksCannotLoadMore(vm: TaskViewModel, snaps: seq<Snapshot>, cursor: Option<Snapshot>)
    returns (q: Option<TaskQuery>)
    modifies vm
    ensures q.None?
  {
    var page := TaskRepository.UserTasksPage(snaps, cursor);
    TaskRepository.InMemoryPageShape(StableSort.Sort(WithIds(snaps), TaskRepository.ByCreation()), cursor);
    vm.OnPageLoaded(page.records, page.hasMore, page.cursor);
    q := vm.LoadMoreTasks();
  }
}
