/**
 * The task screen (activities/TaskManagerActivity.java): the lists it shows,
 * its "my tasks" filter and counts, the form that creates a task with its
 * checks and its choice of assignee, and the routing of a tapped task. The
 * lists, the chosen user and the due date are the screen's fields; the
 * signed-in account and the clock are parameters; what a handler hands to
 * the view-model is returned as a `TaskWrite`.
 */
module TaskManager {
  import opened Common
  import Tasks
  import UserManager
  import TaskViewModel
  import TaskAdapter
  import UserSearch
  import UserSelection

  /** A day in milliseconds; the default due date is a week after now. */
  const DayMillis := 86_400_000
  const DefaultDueDays := 7

  /** `getNextStatus(status)`: pending → in_progress → completed → pending; any other text → pending; null throws. */
  function NextStatus(status: Option<string>): (r: Result<string>)
    ensures r.Err? <==> status.None?
    ensures r.Ok? ==> r.value in TaskAdapter.StatusValues
    ensures r.Ok? && !(status.value in TaskAdapter.StatusValues) ==> r.value == Tasks.Pending
  {
    if status.None? then Err("NullPointerException")
    else if status.value == Tasks.Pending then Ok(Tasks.InProgress)
    else if status.value == Tasks.InProgress then Ok(Tasks.Completed)
    else Ok(Tasks.Pending)
  }

  /** Three taps bring a known status back to itself, and no known status is its own successor. */
  lemma StatusCycle(s: string)
    requires s in TaskAdapter.StatusValues
    ensures NextStatus(Some(s)).value != s
    ensures NextStatus(Some(NextStatus(Some(NextStatus(Some(s)).value)).value)).value == s
  {
  }

  /** `getSelectedPriority()`: positions 0, 1, 2 are low, medium, high; any other position medium. */
  function SelectedPriority(position: int): (p: string)
    ensures 0 <= position < |TaskAdapter.PriorityValues| ==> p == TaskAdapter.PriorityValues[position]
    ensures !(0 <= position < |TaskAdapter.PriorityValues|) ==> p == Tasks.Medium
  {
    if position == 0 then Tasks.Low
    else if position == 1 then Tasks.Medium
    else if position == 2 then Tasks.High
    else Tasks.Medium
  }

  /** The creation form's spinner and the edit dialog's spinner save the same priority for every position. */
  lemma SpinnersAgree(position: int)
    ensures SelectedPriority(position) == TaskAdapter.PriorityAt(position)
  {
  }

  /** A task is the current user's when a user is signed in and is its assignee. */
  predicate IsMine(task: Doc, currentUserId: Option<string>)
  {
    currentUserId.Some? && StrField(task, "assignedToUserId") == currentUserId
  }

  /** The current user's tasks, in the list's order. */
  function Mine(tasks: seq<Doc>, currentUserId: Option<string>): (r: seq<Doc>)
    ensures |r| <= |tasks|
  {
    if tasks == [] then []
    else Mine(tasks[..|tasks| - 1], currentUserId)
         + (if IsMine(tasks[|tasks| - 1], currentUserId) then [tasks[|tasks| - 1]] else [])
  }

  /** A task is kept exactly when it is listed and the current user's; signed out, nothing is kept. */
  lemma {:induction false} MineMembers(tasks: seq<Doc>, currentUserId: Option<string>, t: Doc)
    ensures t in Mine(tasks, currentUserId) <==> t in tasks && IsMine(t, currentUserId)
    ensures currentUserId.None? ==> Mine(tasks, currentUserId) == []
  {
    if tasks != [] {
      var init := tasks[..|tasks| - 1];
      MineMembers(init, currentUserId, t);
      assert tasks == init + [tasks[|tasks| - 1]];
    }
  }

  /** The tasks of a list that are all the current user's are all kept. */
  lemma {:induction false} AllMineKept(tasks: seq<Doc>, currentUserId: Option<string>)
    requires forall i :: 0 <= i < |tasks| ==> IsMine(tasks[i], currentUserId)
    ensures Mine(tasks, currentUserId) == tasks
  {
    if tasks != [] {
      AllMineKept(tasks[..|tasks| - 1], currentUserId);
    }
  }

  /** `getMyTasksCountFromList(tasks)`: how many of the tasks are the current user's. */
  method CountMine(tasks: seq<Doc>, currentUserId: Option<string>) returns (count: nat)
    ensures count == |Mine(tasks, currentUserId)|
  {
    count := 0;
    for i := 0 to |tasks|
      invariant count == |Mine(tasks[..i], currentUserId)|
    {
      assert tasks[..i + 1][..i] == tasks[..i];
      if currentUserId.Some? && StrField(tasks[i], "assignedToUserId") == currentUserId {
        count := count + 1;
      }
    }
    assert tasks[..|tasks|] == tasks;
  }

  /**
   * The first suggestion whose shown text (the display name) is `text`; a
   * suggestion without a display name met first throws.
   */
  function FirstNamed(users: seq<UserSearch.UserInfo>, text: string): (r: Result<Option<UserSearch.UserInfo>>)
    ensures r.Ok? && r.value.Some? ==> r.value.value in users && r.value.value.displayName == Some(text)
  {
    if users == [] then Ok(None)
    else if users[0].displayName.None? then Err("NullPointerException")
    else if users[0].displayName.value == text then Ok(Some(users[0]))
    else FirstNamed(users[1..], text)
  }

  /**
   * `findAndAssignUser`'s scan: the first user whose display name or e-mail
   * is the typed text; a null display name, or a null e-mail reached
   * before a match, throws.
   */
  function FirstMatch(users: seq<UserSearch.UserInfo>, text: string): (r: Result<Option<UserSearch.UserInfo>>)
    ensures r.Ok? && r.value.Some? ==>
              r.value.value in users && (r.value.value.displayName == Some(text) || r.value.value.email == Some(text))
  {
    if users == [] then Ok(None)
    else if users[0].displayName.None? then Err("NullPointerException")
    else if users[0].displayName.value == text then Ok(Some(users[0]))
    else if users[0].email.None? then Err("NullPointerException")
    else if users[0].email.value == text then Ok(Some(users[0]))
    else FirstMatch(users[1..], text)
  }

  /**
   * When every user has a name and an e-mail the scan does not throw, and it
   * finds nobody only when no user has that name or e-mail.
   */
  lemma {:induction false} FirstMatchComplete(users: seq<UserSearch.UserInfo>, text: string)
    requires UserSelection.Searchable(users)
    ensures FirstMatch(users, text).Ok?
    ensures FirstMatch(users, text) == Ok(None) <==>
              forall i :: 0 <= i < |users| ==> users[i].displayName != Some(text) && users[i].email != Some(text)
  {
    if users != [] {
      assert UserSelection.Searchable(users[1..]) by {
        forall i | 0 <= i < |users[1..]|
          ensures users[1..][i].displayName.Some? && users[1..][i].email.Some?
        {
          assert users[1..][i] == users[i + 1];
        }
      }
      FirstMatchComplete(users[1..], text);
      forall i | 1 <= i < |users|
        ensures users[i] == users[1..][i - 1]
      {
      }
    }
  }

  /**
   * `createAndSaveTask`: a pending task for the chosen user, with the trimmed
   * title and description, the priority and the due date; the signed-in
   * user becomes its assigner under the display name or else the e-mail.
   */
  function CreatedTask(title: string, description: string, userId: string, userName: Option<string>, priority: string,
                       dueDate: Option<int>, auth: Option<UserManager.AuthUser>, now: int): (t: Tasks.Task)
    ensures t.assignedToUserId == Some(userId) && t.assignedToName == userName
    ensures t.title == Some(title) && t.description == Some(description) && t.priority == Some(priority) && t.dueDate == dueDate
    ensures t.status == Some(Tasks.Pending) && t.id.None?
    ensures t.assignerUserId == TaskViewModel.Uid(auth)
    ensures auth.Some? ==> t.assignerName == TaskViewModel.CommentAuthorName(auth)
    ensures auth.None? ==> t.assignerName.None?
  {
    var t := Tasks.BasicTask(Some(title), Some(description), Some(userId), userName, dueDate, Some(priority), now);
    if auth.Some? then
      t.(assignerUserId := Some(auth.value.uid),
         assignerName := if auth.value.displayName.Some? then auth.value.displayName else auth.value.email)
    else t
  }

  /**
   * Once stored, a created task can be moved along by its assignee, and
   * its creator, when signed in, holds the assigner's rights over it.
   */
  lemma CreatorAndAssigneeRights(title: string, description: string, assignee: UserManager.AuthUser, userName: Option<string>,
                                 priority: string, dueDate: Option<int>, auth: Option<UserManager.AuthUser>, now: int)
    ensures var m := Tasks.ToMap(CreatedTask(title, description, assignee.uid, userName, priority, dueDate, auth, now));
            TaskViewModel.CanUpdateTaskStatus(Some(assignee), m)
            && (auth.Some? ==> TaskViewModel.IsTaskAssigner(auth, m) && TaskViewModel.CanEditTask(auth, m))
  {
    var t := CreatedTask(title, description, assignee.uid, userName, priority, dueDate, auth, now);
    var m := Tasks.ToMap(t);
    assert m["assignedToUserId"] == Tasks.FieldValue(t, "assignedToUserId");
    assert m["assignerUserId"] == Tasks.FieldValue(t, "assignerUserId");
  }

  /** What tapping a task leads to: a write for the view-model, a refusal, or a caught exception. */
  datatype TaskClick = Send(write: TaskViewModel.TaskWrite) | Refuse(message: string) | Failed

  /**
   * `handleTaskClick(task)`: a DELETE_TASK request deletes the task it
   * names; otherwise only the assignee may move the task to its next
   * status, and a null status throws, which is caught.
   */
  function HandleTaskClick(task: Doc, auth: Option<UserManager.AuthUser>): (r: TaskClick)
    ensures StrField(task, "action") == Some("DELETE_TASK") ==>
              r == Send(TaskViewModel.DeleteWrite(StrField(task, "taskId"), auth))
    ensures StrField(task, "action") != Some("DELETE_TASK") ==>
              (r.Refuse? <==> !IsMine(task, TaskViewModel.Uid(auth)))
    ensures r.Send? && r.write.UpdateTaskStatus? ==>
              IsMine(task, TaskViewModel.Uid(auth)) && r.write.taskId == StrField(task, "id")
              && r.write.status.Some? && NextStatus(StrField(task, "status")) == Ok(r.write.status.value)
  {
    if StrField(task, "action") == Some("DELETE_TASK") then
      Send(TaskViewModel.DeleteWrite(StrField(task, "taskId"), auth))
    else if !IsMine(task, TaskViewModel.Uid(auth)) then
      Refuse(TaskAdapter.OnlyAssigneeMessage)
    else match NextStatus(StrField(task, "status"))
      case Err(_) => Failed
      case Ok(s) => Send(TaskViewModel.UpdateTaskStatus(StrField(task, "id"), Some(s)))
  }

  /**
   * The adapter's DELETE action reaches the screen as a request the screen
   * turns into the deletion of the same task by the signed-in user.
   */
  lemma DeleteRequestDeletes(task: Doc, auth: Option<UserManager.AuthUser>)
    ensures HandleTaskClick(TaskAdapter.DeleteRequest(task), auth)
            == Send(TaskViewModel.DeleteTaskWithPermission(StrField(task, "id"), TaskViewModel.Uid(auth)))
  {
    var r := TaskAdapter.DeleteRequest(task);
    assert StrField(r, "action") == Some("DELETE_TASK");
  }

  /**
   * A task row passes a tap on exactly when the row's own check lets the
   * user update the status; the screen then sends the next status of a
   * task with a status and refuses nobody the row let through.
   */
  lemma TapsAgreeWithRows(task: Doc, auth: Option<UserManager.AuthUser>)
    requires StrField(task, "action") != Some("DELETE_TASK")
    ensures var canUpdate := TaskAdapter.CheckCanUpdateStatus(TaskViewModel.Uid(auth), StrField(task, "assignedToUserId"));
            (canUpdate <==> !HandleTaskClick(task, auth).Refuse?)
            && (canUpdate && StrField(task, "status").Some? ==>
                  HandleTaskClick(task, auth)
                  == Send(TaskViewModel.UpdateTaskStatus(StrField(task, "id"), Some(NextStatus(StrField(task, "status")).value))))
  {
  }

  /** What pressing "add task" leads to. */
  datatype AddOutcome =
    | Invalid(message: string)
    | Save(write: TaskViewModel.TaskWrite)
    | Search(name: string)
    | Crashed

  const NoTitleMessage := "Vui lòng nhập tiêu đề nhiệm vụ"
  const NoAssigneeMessage := "Vui lòng chọn người được giao"

  class TaskManagerScreen {
    /** `taskList`: the tasks the list shows. */
    var taskList: seq<Doc>
    /** `allTaskList`: every task delivered outside pagination mode. */
    var allTaskList: seq<Doc>
    var allUsers: seq<UserSearch.UserInfo>
    var selectedUserId: Option<string>
    var selectedUserName: Option<string>
    var selectedDueDate: Option<int>
    var isPaginationEnabled: bool

    /** The screen as created: empty lists, nobody chosen, no due date, no pagination. */
    constructor()
      ensures taskList == [] && allTaskList == [] && allUsers == []
      ensures selectedUserId.None? && selectedUserName.None? && selectedDueDate.None? && !isPaginationEnabled
    {
      taskList, allTaskList, allUsers := [], [], [];
      selectedUserId, selectedUserName, selectedDueDate := None, None, None;
      isPaginationEnabled := false;
    }

    /**
     * `filterTasks(showOnlyMyTasks)`: nothing in pagination mode; otherwise
     * the shown list becomes every task, or the current user's tasks in order.
     */
    method FilterTasks(showOnlyMyTasks: bool, currentUserId: Option<string>)
      modifies this
      ensures isPaginationEnabled ==> taskList == old(taskList)
      ensures !isPaginationEnabled && showOnlyMyTasks ==> taskList == Mine(allTaskList, currentUserId)
      ensures !isPaginationEnabled && !showOnlyMyTasks ==> taskList == allTaskList
      ensures allTaskList == old(allTaskList) && allUsers == old(allUsers) && isPaginationEnabled == old(isPaginationEnabled)
      ensures selectedUserId == old(selectedUserId) && selectedUserName == old(selectedUserName)
      ensures selectedDueDate == old(selectedDueDate)
    {
      if isPaginationEnabled {
        return;
      }
      var shown: seq<Doc> := [];
      if showOnlyMyTasks {
        for i := 0 to |allTaskList|
          invariant shown == Mine(allTaskList[..i], currentUserId)
        {
          assert allTaskList[..i + 1][..i] == allTaskList[..i];
          if currentUserId.Some? && StrField(allTaskList[i], "assignedToUserId") == currentUserId {
            shown := shown + [allTaskList[i]];
          }
        }
        assert allTaskList[..|allTaskList|] == allTaskList;
      } else {
        shown := allTaskList;
      }
      taskList := shown;
    }

    /** `getMyTasksCount()`: how many of all the delivered tasks are the current user's. */
    method MyTasksCount(currentUserId: Option<string>) returns (count: nat)
      ensures count == |Mine(allTaskList, currentUserId)|
    {
      count := CountMine(allTaskList, currentUserId);
    }

    /** `enablePagination()`: pagination on for the screen and the view-model, which requests the first page. */
    method EnablePagination(vm: TaskViewModel.TaskViewModel) returns (q: TaskViewModel.TaskQuery)
      modifies this, vm
      ensures isPaginationEnabled && vm.isPaginationMode
      ensures q == vm.PageQuery() && vm.lastTaskDocument.None?
      ensures taskList == old(taskList) && allTaskList == old(allTaskList) && allUsers == old(allUsers)
      ensures selectedUserId == old(selectedUserId) && selectedUserName == old(selectedUserName)
      ensures selectedDueDate == old(selectedDueDate)
    {
      isPaginationEnabled := true;
      q := vm.EnablePagination();
    }

    /**
     * The observer of the view-model's task list: in pagination mode the
     * list is shown as delivered; otherwise it becomes the full list and
     * the filter is applied. The subtitle counts every delivered task and
     * the current user's among them.
     */
    method OnTasksChanged(tasks: seq<Doc>, myTasksOnly: bool, currentUserId: Option<string>) returns (total: nat, mine: nat)
      modifies this
      ensures old(isPaginationEnabled) ==> taskList == tasks && allTaskList == old(allTaskList)
      ensures !old(isPaginationEnabled) ==>
                allTaskList == tasks && taskList == (if myTasksOnly then Mine(tasks, currentUserId) else tasks)
      ensures total == |tasks| && mine == |Mine(tasks, currentUserId)|
      ensures isPaginationEnabled == old(isPaginationEnabled) && allUsers == old(allUsers)
      ensures selectedUserId == old(selectedUserId) && selectedUserName == old(selectedUserName)
      ensures selectedDueDate == old(selectedDueDate)
    {
      if isPaginationEnabled {
        taskList := tasks;
        total := |tasks|;
        mine := CountMine(tasks, currentUserId);
      } else {
        allTaskList := tasks;
        FilterTasks(myTasksOnly, currentUserId);
        total := |allTaskList|;
        mine := MyTasksCount(currentUserId);
      }
    }

    /** The success listener of `loadUsers`: the suggestions become the users delivered. */
    method OnUsersLoaded(users: seq<UserSearch.UserInfo>)
      modifies this
      ensures allUsers == users
      ensures taskList == old(taskList) && allTaskList == old(allTaskList) && isPaginationEnabled == old(isPaginationEnabled)
      ensures selectedUserId == old(selectedUserId) && selectedUserName == old(selectedUserName)
      ensures selectedDueDate == old(selectedDueDate)
    {
      allUsers := users;
    }

    /**
     * A suggestion is picked: the first user showing that text becomes the
     * chosen user; nothing changes when none does, and a user without a
     * display name met first throws.
     */
    method PickSuggestion(text: string) returns (r: Result<Option<UserSearch.UserInfo>>)
      modifies this
      ensures r == FirstNamed(old(allUsers), text)
      ensures r.Ok? && r.value.Some? ==>
                selectedUserId == Some(r.value.value.id) && selectedUserName == r.value.value.displayName
      ensures !(r.Ok? && r.value.Some?) ==> selectedUserId == old(selectedUserId) && selectedUserName == old(selectedUserName)
      ensures taskList == old(taskList) && allTaskList == old(allTaskList) && allUsers == old(allUsers)
      ensures selectedDueDate == old(selectedDueDate) && isPaginationEnabled == old(isPaginationEnabled)
    {
      var i := 0;
      while i < |allUsers|
        invariant 0 <= i <= |allUsers|
        invariant FirstNamed(allUsers[i..], text) == FirstNamed(allUsers, text)
      {
        var u := allUsers[i];
        assert allUsers[i..][0] == u && allUsers[i..][1..] == allUsers[i + 1..];
        if u.displayName.None? {
          return Err("NullPointerException");
        }
        if u.displayName.value == text {
          selectedUserId := Some(u.id);
          selectedUserName := u.displayName;
          return Ok(Some(u));
        }
        i := i + 1;
      }
      r := Ok(None);
    }

    /** `findAndAssignUser`'s scan over the suggestions. */
    method FindInSuggestions(text: string) returns (r: Result<Option<UserSearch.UserInfo>>)
      ensures r == FirstMatch(allUsers, text)
    {
      var i := 0;
      while i < |allUsers|
        invariant 0 <= i <= |allUsers|
        invariant FirstMatch(allUsers[i..], text) == FirstMatch(allUsers, text)
      {
        var u := allUsers[i];
        assert allUsers[i..][0] == u && allUsers[i..][1..] == allUsers[i + 1..];
        if u.displayName.None? {
          return Err("NullPointerException");
        }
        // `getDisplayText()` is the display name, so its test and the name's test are one
        if u.displayName.value == text {
          return Ok(Some(u));
        }
        if u.email.None? {
          return Err("NullPointerException");
        }
        if u.email.value == text {
          return Ok(Some(u));
        }
        i := i + 1;
      }
      r := Ok(None);
    }

    /**
     * `createAndSaveTask` followed by `clearForm`: the task for the chosen
     * user is handed to the view-model, and the form forgets the chosen
     * user and goes back to a due date a week from now.
     */
    method CreateAndSaveTask(title: string, description: string, userId: string, userName: Option<string>,
                             priority: string, auth: Option<UserManager.AuthUser>, now: int)
      returns (w: TaskViewModel.TaskWrite)
      modifies this
      ensures w == TaskViewModel.AddTask(CreatedTask(title, description, userId, userName, priority, old(selectedDueDate), auth, now))
      ensures selectedUserId.None? && selectedUserName.None? && selectedDueDate == Some(now + DefaultDueDays * DayMillis)
      ensures taskList == old(taskList) && allTaskList == old(allTaskList) && allUsers == old(allUsers)
      ensures isPaginationEnabled == old(isPaginationEnabled)
    {
      w := TaskViewModel.AddTask(CreatedTask(title, description, userId, userName, priority, selectedDueDate, auth, now));
      selectedUserId, selectedUserName := None, None;
      selectedDueDate := Some(now + DefaultDueDays * DayMillis);
    }

    /**
     * `addNewTask()`: an empty title is refused first, then an empty
     * assignee; a missing due date becomes a week from now. When the typed
     * text is the chosen user's name, the task is saved for that user;
     * otherwise the suggestions are searched for a user with that name or
     * e-mail, and failing that the name is looked up in the `users`
     * collection. An exception on the way is caught.
     */
    method AddNewTask(title: string, description: string, assignedToText: string, position: int,
                      auth: Option<UserManager.AuthUser>, now: int) returns (o: AddOutcome)
      modifies this
      ensures Trim(title) == "" ==> o == Invalid(NoTitleMessage) && selectedDueDate == old(selectedDueDate)
      ensures Trim(title) != "" && Trim(assignedToText) == "" ==> o == Invalid(NoAssigneeMessage) && selectedDueDate == old(selectedDueDate)
      ensures o.Save? ==> o.write.AddTask? && o.write.task.title == Some(Trim(title))
                          && o.write.task.priority == Some(SelectedPriority(position))
                          && o.write.task.dueDate.Some? && o.write.task.assignerUserId == TaskViewModel.Uid(auth)
                          && selectedUserId.None?
      ensures old(selectedUserId).Some? && old(selectedUserName) == Some(Trim(assignedToText))
              && Trim(title) != "" && Trim(assignedToText) != "" ==>
                o.Save? && o.write.task.assignedToUserId == old(selectedUserId)
      ensures o.Search? ==> o.name == Trim(assignedToText) && FirstMatch(allUsers, o.name) == Ok(None)
      // the full outcome once both fields are filled in: `due` is the due date the task is saved with
      ensures var a, d := Trim(assignedToText), Trim(description);
              var due := if old(selectedDueDate).Some? then old(selectedDueDate) else Some(now + DefaultDueDays * DayMillis);
              var nameMissing := old(selectedUserId).Some? && old(selectedUserName).None?;
              var chosen := old(selectedUserId).Some? && old(selectedUserName) == Some(a);
              Trim(title) != "" && a != "" ==>
                (o.Crashed? <==> nameMissing || (!chosen && FirstMatch(old(allUsers), a).Err?))
                && (chosen ==>
                      o == Save(TaskViewModel.AddTask(CreatedTask(Trim(title), d, old(selectedUserId).value, old(selectedUserName),
                                                                  SelectedPriority(position), due, auth, now))))
                && (!nameMissing && !chosen && FirstMatch(old(allUsers), a) == Ok(None) ==> o == Search(a))
                && (!nameMissing && !chosen && FirstMatch(old(allUsers), a).Ok? && FirstMatch(old(allUsers), a).value.Some? ==>
                      var u := FirstMatch(old(allUsers), a).value.value;
                      o == Save(TaskViewModel.AddTask(CreatedTask(Trim(title), d, u.id, u.displayName,
                                                                  SelectedPriority(position), due, auth, now)))
                      && o.write.task.assignedToUserId == Some(u.id) && o.write.task.assignedToName == u.displayName)
                && (o.Save? ==> o.write.task.description == Some(d) && o.write.task.dueDate == due)
                && (!o.Save? ==> selectedDueDate == due)
      ensures o.Save? ==> selectedUserName.None? && selectedDueDate == Some(now + DefaultDueDays * DayMillis)
      ensures !o.Save? ==> selectedUserId == old(selectedUserId) && selectedUserName == old(selectedUserName)
      ensures taskList == old(taskList) && allTaskList == old(allTaskList) && allUsers == old(allUsers)
      ensures isPaginationEnabled == old(isPaginationEnabled)
    {
      var t := Trim(title);
      var d := Trim(description);
      var a := Trim(assignedToText);
      var p := SelectedPriority(position);
      if t == "" {
        return Invalid(NoTitleMessage);
      }
      if a == "" {
        return Invalid(NoAssigneeMessage);
      }
      if selectedDueDate.None? {
        selectedDueDate := Some(now + DefaultDueDays * DayMillis);
      }
      if selectedUserId.Some? && selectedUserName.None? {
        return Crashed;
      }
      if selectedUserId.None? || selectedUserName.value != a {
        var found := FindInSuggestions(a);
        if found.Err? {
          return Crashed;
        }
        if found.value.None? {
          return Search(a);
        }
        var u := found.value.value;
        var w := CreateAndSaveTask(t, d, u.id, u.displayName, p, auth, now);
        return Save(w);
      }
      var w := CreateAndSaveTask(t, d, selectedUserId.value, selectedUserName, p, auth, now);
      o := Save(w);
    }

    /** `onUserFound` of the look-up: the task is saved for the user found. */
    method OnUserFound(title: string, description: string, userId: string, userName: Option<string>,
                       position: int, auth: Option<UserManager.AuthUser>, now: int) returns (w: TaskViewModel.TaskWrite)
      modifies this
      ensures w == TaskViewModel.AddTask(CreatedTask(Trim(title), Trim(description), userId, userName,
                                                     SelectedPriority(position), old(selectedDueDate), auth, now))
      ensures selectedUserId.None? && selectedUserName.None?
      ensures taskList == old(taskList) && allTaskList == old(allTaskList) && allUsers == old(allUsers)
      ensures isPaginationEnabled == old(isPaginationEnabled)
    {
      w := CreateAndSaveTask(Trim(title), Trim(description), userId, userName, SelectedPriority(position), auth, now);
    }
  }
}
