/**
 * The task list's adapter (adapters/TaskAdapter.java): the three permission
 * checks made for each row, what a click and a long click do, the options
 * menu and the action each entry selects, the texts shown for a priority and
 * a status, the spinner positions of the edit and report dialogs, and the
 * writes those dialogs send to the view-model. Views, toasts' timing and
 * date formatting are left out; a dialog's confirmation is a call of the
 * function that builds what it sends.
 */
module TaskAdapter {
  import opened Common
  import Tasks
  import UserManager
  import TaskViewModel

  /** `checkCanEdit(currentUserId, assignedToUserId, assignerUserId)`. */
  predicate CheckCanEdit(currentUserId: Option<string>, assignedToUserId: Option<string>, assignerUserId: Option<string>)
  {
    currentUserId.Some? && (assignedToUserId == currentUserId || assignerUserId == currentUserId)
  }

  /** `checkCanUpdateStatus(currentUserId, assignedToUserId)`. */
  predicate CheckCanUpdateStatus(currentUserId: Option<string>, assignedToUserId: Option<string>)
  {
    currentUserId.Some? && assignedToUserId == currentUserId
  }

  /** `checkIsAssigner(currentUserId, assignerUserId)`. */
  predicate CheckIsAssigner(currentUserId: Option<string>, assignerUserId: Option<string>)
  {
    currentUserId.Some? && assignerUserId == currentUserId
  }

  /**
   * Signed out, a row allows nothing; editing is exactly updating the status
   * or being the assigner, so each narrower right implies editing.
   */
  lemma AdapterRights(currentUserId: Option<string>, assignedToUserId: Option<string>, assignerUserId: Option<string>)
    ensures currentUserId.None? ==>
              !CheckCanEdit(currentUserId, assignedToUserId, assignerUserId)
              && !CheckCanUpdateStatus(currentUserId, assignedToUserId) && !CheckIsAssigner(currentUserId, assignerUserId)
    ensures CheckCanEdit(currentUserId, assignedToUserId, assignerUserId)
            <==> CheckCanUpdateStatus(currentUserId, assignedToUserId) || CheckIsAssigner(currentUserId, assignerUserId)
    ensures CheckCanUpdateStatus(currentUserId, assignedToUserId) ==> CheckCanEdit(currentUserId, assignedToUserId, assignerUserId)
    ensures CheckIsAssigner(currentUserId, assignerUserId) ==> CheckCanEdit(currentUserId, assignedToUserId, assignerUserId)
  {
  }

  /**
   * The rows and the view-model decide the same rights for the same task:
   * `onBindViewHolder` reads the two ids with `(String) task.get(key)` and
   * the signed-in uid, as `canEditTask`, `canUpdateTaskStatus` and
   * `isTaskAssigner` do.
   */
  lemma AdapterAgreesWithViewModel(auth: Option<UserManager.AuthUser>, task: Doc)
    ensures CheckCanEdit(TaskViewModel.Uid(auth), StrField(task, "assignedToUserId"), StrField(task, "assignerUserId"))
            == TaskViewModel.CanEditTask(auth, task)
    ensures CheckCanUpdateStatus(TaskViewModel.Uid(auth), StrField(task, "assignedToUserId"))
            == TaskViewModel.CanUpdateTaskStatus(auth, task)
    ensures CheckIsAssigner(TaskViewModel.Uid(auth), StrField(task, "assignerUserId"))
            == TaskViewModel.IsTaskAssigner(auth, task)
  {
  }

  /** The actions of the options menu. */
  datatype TaskAction = ViewDetail | Edit | Reassign | Delete | ReportProgress | RequestEdit

  /** The menu entry that names each action. */
  function Label(a: TaskAction): string
  {
    match a
    case ViewDetail => "Xem chi tiết"
    case Edit => "Chỉnh sửa"
    case Reassign => "Phân việc lại"
    case Delete => "Xóa nhiệm vụ"
    case ReportProgress => "Báo cáo tiến độ"
    case RequestEdit => "Yêu cầu chỉnh sửa"
  }

  /** The entries of `showTaskOptions`: four for the assigner, three for another editor, one otherwise. */
  function Options(isAssigner: bool, canEdit: bool): (r: seq<string>)
    ensures |r| == (if isAssigner then 4 else if canEdit then 3 else 1)
    ensures r[0] == Label(ViewDetail)
  {
    if isAssigner then [Label(ViewDetail), Label(Edit), Label(Reassign), Label(Delete)]
    else if canEdit then [Label(ViewDetail), Label(ReportProgress), Label(RequestEdit)]
    else [Label(ViewDetail)]
  }

  /**
   * The action the entry at `which` selects; an index outside the switch
   * leaves the action empty, which does nothing, except in the one-entry
   * menu, where every index views the details.
   */
  function ActionFor(isAssigner: bool, canEdit: bool, which: int): (a: Option<TaskAction>)
    ensures a.Some? && a.value in {Edit, Reassign, Delete} ==> isAssigner
    ensures a.Some? && a.value in {ReportProgress, RequestEdit} ==> canEdit && !isAssigner
    ensures !isAssigner && !canEdit ==> a == Some(ViewDetail)
  {
    if isAssigner then
      if which == 0 then Some(ViewDetail)
      else if which == 1 then Some(Edit)
      else if which == 2 then Some(Reassign)
      else if which == 3 then Some(Delete)
      else None
    else if canEdit then
      if which == 0 then Some(ViewDetail)
      else if which == 1 then Some(ReportProgress)
      else if which == 2 then Some(RequestEdit)
      else None
    else Some(ViewDetail)
  }

  /** Every entry of the menu selects the action it names, and only those entries select one. */
  lemma EntryNamesItsAction(isAssigner: bool, canEdit: bool, which: int)
    ensures 0 <= which < |Options(isAssigner, canEdit)| ==>
              ActionFor(isAssigner, canEdit, which).Some?
              && Label(ActionFor(isAssigner, canEdit, which).value) == Options(isAssigner, canEdit)[which]
    ensures (isAssigner || canEdit) && !(0 <= which < |Options(isAssigner, canEdit)|) ==>
              ActionFor(isAssigner, canEdit, which).None?
  {
  }

  /** Two actions with the same entry text are the same action, so an entry's text identifies what it does. */
  lemma LabelsDistinct(a: TaskAction, b: TaskAction)
    ensures Label(a) == Label(b) <==> a == b
  {
    if a != b {
      assert Label(a)[0] != Label(b)[0] || Label(a)[1] != Label(b)[1] || |Label(a)| != |Label(b)|;
    }
  }

  /** What tapping a row does: open the status update, or show one of two refusals. */
  datatype ClickOutcome = OpenStatusUpdate | Refuse(message: string)

  /** The refusal shown to a user without any right on the task. */
  const NoRightMessage := "Bạn không có quyền thao tác với task này"
  /** The refusal shown to an assigner who is not the assignee. */
  const OnlyAssigneeMessage := "Chỉ người được phân việc mới có thể cập nhật trạng thái"

  /** The click listener: the assignee opens the status update (when a listener is set); anybody else is refused. */
  function OnClick(canUpdateStatus: bool, canEdit: bool, hasListener: bool): (r: ClickOutcome)
    ensures r.OpenStatusUpdate? <==> canUpdateStatus && hasListener
    ensures r.Refuse? ==> (r.message == OnlyAssigneeMessage <==> canEdit)
  {
    if canUpdateStatus && hasListener then OpenStatusUpdate
    else Refuse(if canEdit then OnlyAssigneeMessage else NoRightMessage)
  }

  /** The long-click listener: the options menu for an editor or the assigner, else the refusal. */
  function OnLongClick(isAssigner: bool, canEdit: bool): (r: Result<seq<string>>)
    ensures r.Ok? <==> isAssigner || canEdit
    ensures r.Ok? ==> r.value == Options(isAssigner, canEdit)
    ensures r.Err? ==> r.error == NoRightMessage
  {
    if canEdit || isAssigner then Ok(Options(isAssigner, canEdit)) else Err(NoRightMessage)
  }

  /**
   * With the flags a row computes, a click opens the status update only for
   * the assignee and refuses the assigner with its own message, and the long
   * click never shows the one-entry menu: the assigner gets four entries,
   * the assignee three, anybody else the refusal.
   */
  lemma RowInteractions(currentUserId: Option<string>, assignedToUserId: Option<string>, assignerUserId: Option<string>)
    ensures var canEdit := CheckCanEdit(currentUserId, assignedToUserId, assignerUserId);
            var canUpdate := CheckCanUpdateStatus(currentUserId, assignedToUserId);
            var isAssigner := CheckIsAssigner(currentUserId, assignerUserId);
            (OnClick(canUpdate, canEdit, true).OpenStatusUpdate? <==> currentUserId.Some? && assignedToUserId == currentUserId)
            && (isAssigner && !canUpdate ==> OnClick(canUpdate, canEdit, true) == Refuse(OnlyAssigneeMessage))
            && (OnLongClick(isAssigner, canEdit).Ok? ==> |OnLongClick(isAssigner, canEdit).value| != 1)
            && (isAssigner ==> |OnLongClick(isAssigner, canEdit).value| == 4)
            && (canUpdate && !isAssigner ==> |OnLongClick(isAssigner, canEdit).value| == 3)
  {
    AdapterRights(currentUserId, assignedToUserId, assignerUserId);
  }

  /** `getPriorityText(priority)`: low, medium and high in Vietnamese; null and anything else read as medium. */
  function PriorityText(priority: Option<string>): (r: string)
    ensures priority != Some(Tasks.Low) && priority != Some(Tasks.High) ==> r == "Trung bình"
  {
    if priority == Some(Tasks.Low) then "Thấp"
    else if priority == Some(Tasks.High) then "Cao"
    else "Trung bình"
  }

  /** `getStatusText(status)`: the three statuses in Vietnamese; null and anything else read as pending. */
  function StatusText(status: Option<string>): (r: string)
    ensures status != Some(Tasks.InProgress) && status != Some(Tasks.Completed) ==> r == "Chờ xử lý"
  {
    if status == Some(Tasks.InProgress) then "Đang thực hiện"
    else if status == Some(Tasks.Completed) then "Hoàn thành"
    else "Chờ xử lý"
  }

  /** The edit dialog's priority spinner, and the value each position saves. */
  const PriorityLabels: seq<string> := ["Thấp", "Trung bình", "Cao"]
  const PriorityValues: seq<string> := [Tasks.Low, Tasks.Medium, Tasks.High]

  /** The report dialog's status spinner, and the value each position saves. */
  const StatusLabels: seq<string> := ["Chờ xử lý", "Đang thực hiện", "Hoàn thành"]
  const StatusValues: seq<string> := [Tasks.Pending, Tasks.InProgress, Tasks.Completed]

  /** The priority the edit dialog preselects: low 0, high 2, anything else (null included) 1. */
  function PriorityIndex(priority: Option<string>): (i: int)
    ensures 0 <= i < |PriorityValues|
  {
    if priority == Some(Tasks.Low) then 0 else if priority == Some(Tasks.High) then 2 else 1
  }

  /** The priority the edit dialog saves for a spinner position: 0 low, 2 high, any other medium. */
  function PriorityAt(which: int): (p: string)
    ensures 0 <= which < |PriorityValues| ==> p == PriorityValues[which]
    ensures p in PriorityValues
  {
    if which == 0 then Tasks.Low else if which == 2 then Tasks.High else Tasks.Medium
  }

  /**
   * Saving without touching the spinner keeps a known priority and turns
   * anything else into medium; choosing a position and reopening the dialog
   * preselects the same position; each position's label is the text the
   * list shows for the value it saves.
   */
  lemma PriorityRoundTrip(priority: Option<string>, which: int)
    ensures priority.Some? && priority.value in PriorityValues ==> PriorityAt(PriorityIndex(priority)) == priority.value
    ensures !(priority.Some? && priority.value in PriorityValues) ==> PriorityAt(PriorityIndex(priority)) == Tasks.Medium
    ensures 0 <= which < |PriorityValues| ==> PriorityIndex(Some(PriorityAt(which))) == which
    ensures 0 <= which < |PriorityValues| ==> PriorityText(Some(PriorityAt(which))) == PriorityLabels[which]
    ensures PriorityText(priority) == PriorityLabels[PriorityIndex(priority)]
  {
  }

  /** The status the report dialog preselects: in_progress 1, completed 2, anything else (null included) 0. */
  function StatusIndex(status: Option<string>): (i: int)
    ensures 0 <= i < |StatusValues|
  {
    if status == Some(Tasks.InProgress) then 1 else if status == Some(Tasks.Completed) then 2 else 0
  }

  /** The status the report dialog saves for a spinner position: 1 in_progress, 2 completed, any other pending. */
  function StatusAt(which: int): (s: string)
    ensures 0 <= which < |StatusValues| ==> s == StatusValues[which]
    ensures s in StatusValues
  {
    if which == 1 then Tasks.InProgress else if which == 2 then Tasks.Completed else Tasks.Pending
  }

  /** The report dialog's positions round-trip as the edit dialog's do. */
  lemma StatusRoundTrip(status: Option<string>, which: int)
    ensures status.Some? && status.value in StatusValues ==> StatusAt(StatusIndex(status)) == status.value
    ensures !(status.Some? && status.value in StatusValues) ==> StatusAt(StatusIndex(status)) == Tasks.Pending
    ensures 0 <= which < |StatusValues| ==> StatusIndex(Some(StatusAt(which))) == which
    ensures 0 <= which < |StatusValues| ==> StatusText(Some(StatusAt(which))) == StatusLabels[which]
    ensures StatusText(status) == StatusLabels[StatusIndex(status)]
  {
  }

  /** The "Phụ trách" line of a row: the assignee's name or "Chưa có", then the assigner's name when known. */
  function AssignText(assignedToName: Option<string>, assignerName: Option<string>): (r: string)
    ensures StartsWith(r, "Phụ trách: " + assignedToName.GetOr("Chưa có"))
    ensures assignerName.None? ==> r == "Phụ trách: " + assignedToName.GetOr("Chưa có")
  {
    var head := "Phụ trách: " + assignedToName.GetOr("Chưa có");
    assert (head + "")[..|head|] == head;
    if assignerName.Some? then
      var r := head + " (Phân bởi: " + assignerName.value + ")";
      assert r[..|head|] == head;
      r
    else head
  }

  /** The map the DELETE action hands to the screen's listener: the marker, the task's id, and the task. */
  function DeleteRequest(task: Doc): (r: Doc)
    ensures StrField(r, "action") == Some("DELETE_TASK")
    ensures StrField(r, "taskId") == StrField(task, "id")
    ensures "originalTask" in r
  {
    map["action" := VStr("DELETE_TASK"), "taskId" := (if "id" in task then task["id"] else VNull), "originalTask" := VOther]
  }

  /**
   * `reassignTask(task)` once a user is picked: nothing for a task without
   * an id or a pick without a uid; otherwise the task goes to the picked user.
   */
  function ReassignWrite(task: Doc, userId: Option<string>, userName: Option<string>): (w: Option<TaskViewModel.TaskWrite>)
    ensures w.Some? <==> StrField(task, "id").Some? && !IsEmpty(userId)
    ensures w.Some? ==> w.value == TaskViewModel.ReassignTask(StrField(task, "id"), userId, userName)
  {
    var taskId := StrField(task, "id");
    if taskId.None? || IsEmpty(userId) then None
    else Some(TaskViewModel.ReassignTask(taskId, userId, userName))
  }

  /**
   * The report dialog's confirmation: the status of the chosen position is
   * sent, then the trimmed comment when it is not empty; a task without an
   * id opens no dialog and sends nothing.
   */
  function ReportWrites(task: Doc, which: int, comment: string, auth: Option<UserManager.AuthUser>): (ws: seq<TaskViewModel.TaskWrite>)
    ensures StrField(task, "id").None? ==> ws == []
    ensures StrField(task, "id").Some? ==>
              1 <= |ws| <= 2
              && ws[0] == TaskViewModel.UpdateTaskStatus(StrField(task, "id"), Some(StatusAt(which)))
              && (|ws| == 2 <==> Trim(comment) != "")
    ensures |ws| == 2 ==> ws[1] == TaskViewModel.CommentWrite(StrField(task, "id"), Some(Trim(comment)), auth)
  {
    var taskId := StrField(task, "id");
    if taskId.None? then []
    else
      var status := [TaskViewModel.UpdateTaskStatus(taskId, Some(StatusAt(which)))];
      if Trim(comment) == "" then status
      else status + [TaskViewModel.CommentWrite(taskId, Some(Trim(comment)), auth)]
  }

  /** The marker put in front of an edit request so that it can be told from a comment. */
  const EditRequestPrefix := "[YÊU CẦU CHỈNH SỬA] "

  /**
   * `requestEditTask(task)`: nothing for a task without an id or without an
   * assigner; an empty request is refused; otherwise it is sent as a comment
   * made of the marker and the trimmed text.
   */
  function EditRequestWrite(task: Doc, text: string, auth: Option<UserManager.AuthUser>): (r: Option<Result<TaskViewModel.TaskWrite>>)
    ensures r.None? <==> StrField(task, "id").None? || StrField(task, "assignerUserId").None?
    ensures r.Some? ==> (r.value.Err? <==> Trim(text) == "")
    ensures r.Some? && r.value.Ok? ==>
              var w := r.value.value;
              w.AddTaskComment? && w.taskId == StrField(task, "id") && w.comment.Some?
              && StartsWith(w.comment.value, EditRequestPrefix)
              && w.comment.value[|EditRequestPrefix|..] == Trim(text)
  {
    var taskId := StrField(task, "id");
    if taskId.None? || StrField(task, "assignerUserId").None? then None
    else if Trim(text) == "" then Some(Err("Vui lòng nhập yêu cầu"))
    else
      var c := EditRequestPrefix + Trim(text);
      assert c[..|EditRequestPrefix|] == EditRequestPrefix;
      assert c[|EditRequestPrefix|..] == Trim(text);
      Some(Ok(TaskViewModel.CommentWrite(taskId, Some(c), auth)))
  }

  /**
   * The date the edit dialog starts from: the task's due date when it holds
   * a Date or a Timestamp, else today.
   */
  function InitialDueDate(task: Doc, now: int): (d: int)
    ensures DateField(task, "dueDate").Some? ==> d == DateField(task, "dueDate").value
    ensures DateField(task, "dueDate").None? ==> d == now
  {
    DateField(task, "dueDate").GetOr(now)
  }

  /**
   * The edit dialog's save button as written: a new `Task` with the task's
   * id, the trimmed title and description, the chosen priority and due date,
   * the task's assignee, assigner and status, its creation date (or now) and
   * the update time now. The attachment is not copied, so it is null.
   * `None` when the task has no id (no dialog opens) or the trimmed title is
   * empty (the dialog stays open).
   */
  function EditedTaskAsWritten(task: Doc, title: string, description: string, which: int,
                               pickedDate: Option<int>, now: int): (r: Option<Tasks.Task>)
    ensures r.Some? <==> StrField(task, "id").Some? && Trim(title) != ""
    ensures r.Some? ==> r.value.attachmentUrl.None? && r.value.attachmentName.None?
  {
    if StrField(task, "id").None? || Trim(title) == "" then None
    else Some(Tasks.NewTask(now).(
      id := StrField(task, "id"),
      title := Some(Trim(title)),
      description := Some(Trim(description)),
      priority := Some(PriorityAt(which)),
      dueDate := Some(pickedDate.GetOr(InitialDueDate(task, now))),
      assignedToUserId := StrField(task, "assignedToUserId"),
      assignedToName := StrField(task, "assignedToName"),
      assignerUserId := StrField(task, "assignerUserId"),
      assignerName := StrField(task, "assignerName"),
      status := StrField(task, "status"),
      createdAt := Some(DateField(task, "createdAt").GetOr(now)),
      updatedAt := Some(now)))
  }

  /**
   * The corrected save button of Finding 3: the edit with the attachment
   * kept, as its "keep the other fields" intent requires.
   */
  function EditedTask(task: Doc, title: string, description: string, which: int,
                      pickedDate: Option<int>, now: int): (r: Option<Tasks.Task>)
    ensures r.Some? <==> EditedTaskAsWritten(task, title, description, which, pickedDate, now).Some?
  {
    match EditedTaskAsWritten(task, title, description, which, pickedDate, now)
    case None => None
    case Some(t) => Some(t.(attachmentUrl := StrField(task, "attachmentUrl"), attachmentName := StrField(task, "attachmentName")))
  }

  /** The string fields an edit must leave as they were. */
  const KeptKeys: seq<string> := ["assignedToUserId", "assignedToName", "assignerUserId", "assignerName",
                                  "status", "attachmentUrl", "attachmentName"]

  /**
   * As written, editing a task that has an attachment writes a document
   * (the map of the edited task, which `updateTask` stores in place of the
   * old one) whose attachment fields are null: the edit deletes the
   * attachment.
   */
  lemma EditDropsAttachment(task: Doc, title: string, description: string, which: int, pickedDate: Option<int>, now: int)
    requires StrField(task, "id").Some? && Trim(title) != ""
    requires StrField(task, "attachmentUrl").Some?
    ensures var t := EditedTaskAsWritten(task, title, description, which, pickedDate, now);
            t.Some? && Tasks.ToMap(t.value)["attachmentUrl"] == VNull
            && StrField(Tasks.ToMap(t.value), "attachmentUrl") != StrField(task, "attachmentUrl")
  {
    var t := EditedTaskAsWritten(task, title, description, which, pickedDate, now).value;
    assert Tasks.ToMap(t)["attachmentUrl"] == Tasks.FieldValue(t, "attachmentUrl");
  }

  /** A kept field of an edited task is written as the task had it. */
  lemma KeptField(task: Doc, t: Tasks.Task, k: string)
    requires k in KeptKeys
    requires t.assignedToUserId == StrField(task, "assignedToUserId") && t.assignedToName == StrField(task, "assignedToName")
    requires t.assignerUserId == StrField(task, "assignerUserId") && t.assignerName == StrField(task, "assignerName")
    requires t.status == StrField(task, "status")
    requires t.attachmentUrl == StrField(task, "attachmentUrl") && t.attachmentName == StrField(task, "attachmentName")
    ensures StrField(Tasks.ToMap(t), k) == StrField(task, k)
  {
    var m := Tasks.ToMap(t);
    assert k in Tasks.DataKeys;
    if k == "assignedToUserId" {
      assert m[k] == StrValue(t.assignedToUserId);
    } else if k == "assignedToName" {
      assert m[k] == StrValue(t.assignedToName);
    } else if k == "assignerUserId" {
      assert m[k] == StrValue(t.assignerUserId);
    } else if k == "assignerName" {
      assert m[k] == StrValue(t.assignerName);
    } else if k == "status" {
      assert m[k] == StrValue(t.status);
    } else if k == "attachmentUrl" {
      assert m[k] == StrValue(t.attachmentUrl);
    } else {
      assert m[k] == StrValue(t.attachmentName);
    }
  }

  /**
   * With the attachment copied, the document an edit writes keeps every
   * string field the dialog does not offer (assignee, assigner, status,
   * attachment) exactly as the task had it, holds the trimmed non-empty
   * title and the chosen priority, keeps a creation date the task had, and
   * is stamped with the saving time.
   */
  lemma EditKeepsOtherFields(task: Doc, title: string, description: string, which: int, pickedDate: Option<int>, now: int)
    requires StrField(task, "id").Some? && Trim(title) != ""
    ensures var t := EditedTask(task, title, description, which, pickedDate, now);
            t.Some? && t.value.id == StrField(task, "id")
            && (forall k :: k in KeptKeys ==> StrField(Tasks.ToMap(t.value), k) == StrField(task, k))
            && StrField(Tasks.ToMap(t.value), "title") == Some(Trim(title))
            && StrField(Tasks.ToMap(t.value), "priority") == Some(PriorityAt(which))
            && (DateField(task, "createdAt").Some? ==> DateField(Tasks.ToMap(t.value), "createdAt") == DateField(task, "createdAt"))
            && DateField(Tasks.ToMap(t.value), "updatedAt") == Some(now)
  {
    var t := EditedTask(task, title, description, which, pickedDate, now).value;
    var m := Tasks.ToMap(t);
    forall k | k in KeptKeys
      ensures StrField(m, k) == StrField(task, k)
    {
      KeptField(task, t, k);
    }
    assert m["title"] == Tasks.FieldValue(t, "title");
    assert m["priority"] == Tasks.FieldValue(t, "priority");
    assert m["createdAt"] == Tasks.FieldValue(t, "createdAt");
    assert m["updatedAt"] == Tasks.FieldValue(t, "updatedAt");
  }

  /**
   * The write the save button sends: `updateTask` of the edited task as
   * written, which replaces the stored document and so clears the
   * attachment (Finding 3); the assignee, assigner and status are kept.
   */
  function EditWrite(task: Doc, title: string, description: string, which: int,
                     pickedDate: Option<int>, now: int): (r: Option<Result<TaskViewModel.TaskWrite>>)
    ensures r.None? <==> StrField(task, "id").None?
    ensures r.Some? ==> (r.value.Err? <==> Trim(title) == "")
    ensures r.Some? && r.value.Ok? ==>
              r.value.value.UpdateTask? && r.value.value.task.id == StrField(task, "id")
              && r.value.value.task.title == Some(Trim(title))
              && r.value.value.task.attachmentUrl.None? && r.value.value.task.attachmentName.None?
              && r.value.value.task.assignedToUserId == StrField(task, "assignedToUserId")
              && r.value.value.task.assignerUserId == StrField(task, "assignerUserId")
              && r.value.value.task.status == StrField(task, "status")
  {
    if StrField(task, "id").None? then None
    else match EditedTaskAsWritten(task, title, description, which, pickedDate, now)
      case None => Some(Err("Vui lòng nhập tiêu đề"))
      case Some(t) => Some(Ok(TaskViewModel.UpdateTask(t)))
  }
}
