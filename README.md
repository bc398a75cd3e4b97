# Project manager app — a Dafny model

This project models the logic of an Android project-management app written in Java on top of Firebase. Team members create and assign tasks, report progress and request edits. They also keep a list of budget items that a manager approves or revokes, search the user directory, and administer roles.

The model follows the app's own layers, one Dafny module per Java file, plus two shared modules:

- **Records and their Firestore form** (`Tasks`, `Budgets`, `Users`, `Messages`). Each record is a datatype. A Firestore document is a `map<string, Value>`, where `Value` tells a `java.util.Date` written by the app apart from the `Timestamp` Firestore gives back (`Firestore.Stored`). Each `toMap`/`fromMap` pair is proved to round-trip.
- **The store** (`Firestore.Collection`). This is a class holding the documents by id, with `add`, `set`, `update` and `delete` as methods. A query's answer is an input. The paging rules are proved about it: a full page of ten means "more", and the cursor is the last record.
- **The repositories** (`TaskRepository`, `BudgetRepository`). These cover the id guards, the fields each write sends, and the permission check before a delete. For the assignee's own tasks they also cover the sort, cursor search and slice done in memory, and the due-soon filter.
- **The view-models** (`TaskViewModel`, `BudgetViewModel`). These are classes with the list, the cursor, the "has more" flag, the loading flag and the pagination mode. The first page replaces the list and later pages append. "Load more" in the "my tasks" mode never loads anything.
- **The utilities** (`TaskFilter`, `BudgetSorter`, `DateUtils`, `PermissionManager` as `Permissions`, `UserManager`). These cover:
  - the filter and its comparators, proved to be key orders;
  - the five budget orders, applied by an in-place stable insertion sort on an array (`StableSort`), proved sorted, stable and a permutation;
  - day arithmetic with Java's truncating division and 32-bit cast;
  - the role tables, and the preferences-backed current user.
- **The user directory** (`UserSearch`, `UserSelection`, `UserManagement`). These cover how a user document becomes a `UserInfo`, the lookup order by name and e-mail, and the selection dialog's filtered and paged list. They also cover the user administration screen's guards.
- **The screens and adapters** (`TaskAdapter`, `TaskManager`, `BudgetAdapter`, `BudgetActivity`). These cover:
  - the rights and menus of a task row, and the writes its dialogs send;
  - the task screen's "my tasks" list and its task creation form;
  - the budget list's bounds-checked edits;
  - the budget screen's conversion, sorting and edit form.

The app has no clock, network or sign-in inside the model. The current time (`now`), the signed-in account (`auth`) and each server answer are parameters. Each asynchronous call is split in two: the method that issues it returns a request value, and a separate method takes its completion. Screens hand writes to their view-model as `TaskWrite` and `BudgetWrite` values. Nullable Java fields are `Option`s, and an exception the code can throw is an `Err` result or a `Failed` outcome. `BudgetActivity.getCategoryDisplayName` (activities/BudgetActivity.java:1166-1179) is the same function as the adapter's and is modelled once, as `BudgetAdapter.CategoryDisplayName`.

Where the code does something other than it evidently intends (see "## Findings"), the operations model the code as written. The intended behaviour is a separate, corrected member, and each finding names both.

## Model

| member | source | states |
|---|---|---|
| Firestore.ListAfterPage | app/src/main/java/com/example/projectmanager/viewmodels/TaskViewModel.java:148-167 | a page read with no cursor replaces whatever list was shown; a page read after a cursor keeps every record shown, in order, and adds the new records after them in arrival order |
| Firestore.PagesConcatenate | app/src/main/java/com/example/projectmanager/viewmodels/TaskViewModel.java:148-167 | a first page followed by a later one shows exactly their concatenation |
| Firestore.StoredValue | app/src/main/java/com/example/projectmanager/repositories/BudgetRepository.java:177-178 | the server keeps no Date: a Date becomes a Timestamp of the same instant and every other value is kept as it is |
| Firestore.Stored | app/src/main/java/com/example/projectmanager/repositories/BudgetRepository.java:177-178 | a stored document has the same keys, each value stored as the server keeps it |
| Firestore.StoredMerge | app/src/main/java/com/example/projectmanager/repositories/BudgetRepository.java:230-232 | merging stored fields into a stored document is storing the merged document |
| Firestore.StoredReadsTheSame | app/src/main/java/com/example/projectmanager/repositories/BudgetRepository.java:177-178 | storing a document leaves no Date and changes no string and no date as the app reads them, nor any non-date value |
| Firestore.StoredIsValid | app/src/main/java/com/example/projectmanager/repositories/BudgetRepository.java:177-178 | a stored document holds no Date |
| Firestore.WithId | app/src/main/java/com/example/projectmanager/repositories/BudgetRepository.java:63-64 | a record is its document's data plus the key "id" holding the document id, every other key unchanged |
| Firestore.WithIds | app/src/main/java/com/example/projectmanager/repositories/BudgetRepository.java:62-66 | the records of an answer are one per document, in the answer's order |
| Firestore.WithIdsAppend | app/src/main/java/com/example/projectmanager/repositories/BudgetRepository.java:62-66 | one more document adds its record at the end |
| Firestore.LastOf | app/src/main/java/com/example/projectmanager/repositories/BudgetRepository.java:102-109 | the cursor is absent exactly for an empty answer, else it is the answer's last document |
| Firestore.Collection.Add | app/src/main/java/com/example/projectmanager/repositories/BudgetRepository.java:177-186 | a failed add changes nothing; a successful one stores the data under the new id, keeping the collection free of Dates |
| Firestore.Collection.Set | app/src/main/java/com/example/projectmanager/repositories/BudgetRepository.java:202-212 | a failed set changes nothing; a successful one makes the document exactly the stored data, created if missing |
| Firestore.Collection.Update | app/src/main/java/com/example/projectmanager/repositories/BudgetRepository.java:230-240 | a failed update, and one on a missing document (NOT_FOUND), change nothing; a successful one merges the stored fields into the document |
| Firestore.Collection.Delete | app/src/main/java/com/example/projectmanager/repositories/BudgetRepository.java:282-292 | a failed delete changes nothing; a successful one removes the document, missing or not |
| Tasks.NewTask | app/src/main/java/com/example/projectmanager/models/Task.java:27-32 | a new task is pending with medium priority, created and updated at the current instant, every other field null |
| Tasks.BasicTask | app/src/main/java/com/example/projectmanager/models/Task.java:35-44 | the six-argument constructor keeps the defaults of the empty constructor and stores the given fields, a null priority included |
| Tasks.FullTask | app/src/main/java/com/example/projectmanager/models/Task.java:47-61 | the full constructor stores every given field, replacing a null status by "pending", a null priority by "medium" and null creation or update dates by the current instant |
| Tasks.ToMap | app/src/main/java/com/example/projectmanager/models/Task.java:64-80 | exactly the thirteen data keys are written, each with its field's value; the id is not written |
| Tasks.StrOr | app/src/main/java/com/example/projectmanager/models/Task.java:86-95 | a string key present in the map overrides the default, a present null included |
| Tasks.DateOr | app/src/main/java/com/example/projectmanager/models/Task.java:98-123 | a date key overrides the default only when it holds a Date or a Timestamp |
| Tasks.FromMap | app/src/main/java/com/example/projectmanager/models/Task.java:83-131 | a missing id stays null, a missing status or priority keeps its default, and creation and update dates are never null |
| Tasks.FromMapToMap | app/src/main/java/com/example/projectmanager/models/Task.java:64-131 | reading back what toMap wrote restores every field except the id, and a null creation or update date comes back as the reading instant |
| Tasks.FromMapWithId | app/src/main/java/com/example/projectmanager/models/Task.java:83-131 | a written task read back with its document id added is the same task with that id |
| Tasks.OverdueCases | app/src/main/java/com/example/projectmanager/models/Task.java:247-252 | a task without a due date or already completed is never overdue; otherwise it is overdue exactly when its due date is before now, and stays overdue later |
| Tasks.PredicatesExclusive | app/src/main/java/com/example/projectmanager/models/Task.java:254-276 | at most one status predicate and at most one priority predicate holds, and none for a null field |
| Tasks.EqualsById | app/src/main/java/com/example/projectmanager/models/Task.java:291-301 | equality of two distinct objects is symmetric, false for a null id, false against null, true for the same object, and equal tasks have equal hash keys |
| Budgets.NewBudget | app/src/main/java/com/example/projectmanager/models/Budget.java:21-26 | a new budget is unapproved with amount 0, created and updated at the current instant, every string field null |
| Budgets.MakeBudget | app/src/main/java/com/example/projectmanager/models/Budget.java:28-36 | the six-argument constructor stores the given fields over the defaults, with no id and both dates at the current instant |
| Budgets.ToMap | app/src/main/java/com/example/projectmanager/models/Budget.java:67-79 | exactly the nine keys, the id included, are written, each with its field's value |
| Budgets.FromMap | app/src/main/java/com/example/projectmanager/models/Budget.java:82-119 | the strings are read as stored; a non-number amount reads as 0, a non-boolean approval as false, and a missing or non-date creation or update date as the reading instant |
| Budgets.FromMapToMap | app/src/main/java/com/example/projectmanager/models/Budget.java:67-119 | reading back what toMap wrote restores every field, the id included; only a null date comes back as the reading instant |
| Budgets.ConstructedRoundTrip | app/src/main/java/com/example/projectmanager/models/Budget.java:21-119 | a budget built by a constructor has both dates and round-trips exactly |
| Users.RoleValuesDistinct | app/src/main/java/com/example/projectmanager/models/User.java:8-21 | two roles store the same string exactly when they are the same role |
| Users.RoleRoundTrip | app/src/main/java/com/example/projectmanager/models/User.java:19-30 | parsing the stored string of a role gives that role back |
| Users.RoleDefault | app/src/main/java/com/example/projectmanager/models/User.java:23-30 | null and any string that is no role's value parse as MEMBER |
| Users.FromString | app/src/main/java/com/example/projectmanager/models/User.java:23-30 | the scan over the roles returns the role the parsing function names, and whenever some role stores the given string the returned role stores it |
| Users.EmptyUser | app/src/main/java/com/example/projectmanager/models/User.java:42-44 | the no-argument constructor leaves every reference field null and the user inactive |
| Users.NewUser | app/src/main/java/com/example/projectmanager/models/User.java:46-53 | the three-argument constructor keeps id, e-mail and name, makes the user an active MEMBER created now, with no token and no last login |
| Users.UserPermissionTable | app/src/main/java/com/example/projectmanager/models/User.java:81-99 | managing users and deleting tasks belong to ADMIN alone; managing tasks, approving budgets and viewing reports to ADMIN and MANAGER; a MEMBER or a null role holds none |
| Users.ToMap | app/src/main/java/com/example/projectmanager/models/User.java:101-112 | exactly the eight keys are written; the role as its stored string and the active flag as a boolean |
| Users.FromMap | app/src/main/java/com/example/projectmanager/models/User.java:114-140 | reading succeeds exactly when the active flag is absent or a boolean; the role is always set from its string, MEMBER by default; an absent flag reads as active |
| Users.FromMapToMap | app/src/main/java/com/example/projectmanager/models/User.java:101-140 | a user with a role written and read back is the same user |
| Messages.TextMessage | app/src/main/java/com/example/projectmanager/models/Message.java:29-35 | a text message keeps its content and sender fields, is stamped now and carries no attachment, image or otherwise |
| Messages.AttachmentMessage | app/src/main/java/com/example/projectmanager/models/Message.java:38-49 | a message with an attachment keeps all given fields, is stamped now, and has an attachment exactly when the URL is non-null and non-empty |
| Messages.ToMap | app/src/main/java/com/example/projectmanager/models/Message.java:52-69 | the five base keys are always written; the four attachment keys are added exactly when the message has an attachment, with its URL and size |
| Messages.ImageTestIsIndependent | app/src/main/java/com/example/projectmanager/models/Message.java:144-152 | an image attachment type does not imply an attachment URL: the two tests are independent |
| Permissions.PermissionTable | app/src/main/java/com/example/projectmanager/utils/PermissionManager.java:33-64 | ADMIN holds every permission, MANAGER all but managing users and settings, MEMBER exactly creating and editing tasks, creating budgets and sending messages |
| Permissions.PermissionsMonotone | app/src/main/java/com/example/projectmanager/utils/PermissionManager.java:33-64 | every MEMBER permission is a MANAGER permission and every MANAGER permission an ADMIN one, and both inclusions are strict |
| Permissions.ConveniencePredicates | app/src/main/java/com/example/projectmanager/utils/PermissionManager.java:67-86 | every role may manage tasks, only ADMIN may manage users, and approving budgets, deleting tasks and viewing reports belong to ADMIN and MANAGER |
| Permissions.TablesDisagree | app/src/main/java/com/example/projectmanager/utils/PermissionManager.java:67-78 | the central table lets a MANAGER delete tasks and a MEMBER manage tasks, which the user record's own predicates refuse |
| Permissions.TablesAgree | app/src/main/java/com/example/projectmanager/utils/PermissionManager.java:72-86 | for a user with a role, the central table and the record agree on managing users, approving budgets and viewing reports |
| DateUtils.Format | app/src/main/java/com/example/projectmanager/utils/DateUtils.java:13-39 | a null date formats as the empty text; any other date is rendered with its method's pattern (dd/MM/yyyy, HH:mm or dd/MM/yyyy HH:mm) |
| DateUtils.DaysRemaining | app/src/main/java/com/example/projectmanager/utils/DateUtils.java:52-56 | a null due date gives 0, and the result always fits a 32-bit int |
| DateUtils.DaysRemainingCountsWholeDays | app/src/main/java/com/example/projectmanager/utils/DateUtils.java:52-56 | within the range where the cast does not wrap, the result is the number of whole days between now and the due date, rounded toward zero on either side of now |
| DateUtils.WithinOneDayIsZero | app/src/main/java/com/example/projectmanager/utils/DateUtils.java:52-56 | a due time less than one day away, before or after now, gives 0 days |
| DateUtils.DaysRemainingAgreesWithOverdue | app/src/main/java/com/example/projectmanager/utils/DateUtils.java:44-56 | an overdue date never has positive days remaining, a date that is not overdue never negative ones, and a positive count means at least one full day to go |
| TaskFilter.DefaultCriteria | app/src/main/java/com/example/projectmanager/utils/TaskFilter.java:38-41 | new criteria have no filters and sort by creation date, descending |
| TaskFilter.NoFilterMatchesAll | app/src/main/java/com/example/projectmanager/utils/TaskFilter.java:85-120 | criteria whose four filters are all null, or all empty, let every task through |
| TaskFilter.AssigneeFilterRejectsTaskDocuments | app/src/main/java/com/example/projectmanager/utils/TaskFilter.java:113-117 | the assignee filter reads the key "assignedTo", which task documents never carry, so any non-empty assignee filter rejects every task the app writes |
| TaskFilter.MatchesConditions | app/src/main/java/com/example/projectmanager/utils/TaskFilter.java:85-120 | a task fails the filter when a non-empty status or priority filter differs from its field, when a non-empty assignee filter finds no "assignedTo", or when a non-empty search text is in none of title, description and "assignedTo" |
| TaskFilter.SearchIgnoresQueryCase | app/src/main/java/com/example/projectmanager/utils/TaskFilter.java:87-96 | lower-casing the search text first changes nothing: the search ignores the case of the query |
| TaskFilter.Filter | app/src/main/java/com/example/projectmanager/utils/TaskFilter.java:67-74 | the kept tasks are no more than the input, and each matching task occurs as often as in the input, each other task not at all |
| TaskFilter.FilterIsExact | app/src/main/java/com/example/projectmanager/utils/TaskFilter.java:67-74 | a task is kept exactly when it is in the input and matches |
| TaskFilter.PriorityValue | app/src/main/java/com/example/projectmanager/utils/TaskFilter.java:156-164 | the priority rank is between 1 and 3; 3 exactly for "high", 2 exactly for "medium" |
| TaskFilter.StatusValue | app/src/main/java/com/example/projectmanager/utils/TaskFilter.java:172-180 | the status rank is between 1 and 3; 3 exactly for "completed", 2 exactly for "in_progress" |
| TaskFilter.RankTables | app/src/main/java/com/example/projectmanager/utils/TaskFilter.java:156-180 | low, null and unknown priorities share rank 1, as do pending, null and unknown statuses |
| TaskFilter.CompareObjects | app/src/main/java/com/example/projectmanager/utils/TaskFilter.java:138-148 | comparing two nullable dates is negative exactly when the first comes earlier in the order null first then by instant, and zero exactly when they are equal in it |
| TaskFilter.CompareTasksIsKeyOrder | app/src/main/java/com/example/projectmanager/utils/TaskFilter.java:122-135 | comparing two tasks on any sort field is negative exactly when the first task's key is smaller and zero exactly when the keys are equal |
| TaskFilter.ComparatorIsKeyOrder | app/src/main/java/com/example/projectmanager/utils/TaskFilter.java:77-80 | the sort comparator, negated for descending order, is a key order: negative exactly when the criteria's key is smaller, zero exactly when equal |
| TaskFilter.KeepMatching | app/src/main/java/com/example/projectmanager/utils/TaskFilter.java:67-74 | the filter loop keeps exactly the filtered list |
| TaskFilter.FilterAndSortTasks | app/src/main/java/com/example/projectmanager/utils/TaskFilter.java:63-83 | the result is the matching tasks stably sorted: a permutation of them, sorted by the criteria's key, with tasks of equal key in their input order |
| TaskFilter.DefaultOrderIsNewestFirst | app/src/main/java/com/example/projectmanager/utils/TaskFilter.java:38-41 | under default criteria a sorted list puts newer tasks first and undated tasks after every dated one |
| StableSort.NegReverses | app/src/main/java/com/example/projectmanager/utils/TaskFilter.java:77-80 | negating a comparator's result reverses the order of keys and keeps equal keys equal |
| StableSort.KeyOrderIsStrictTotal | app/src/main/java/com/example/projectmanager/utils/BudgetSorter.java:43-63 | the comparators' key order is irreflexive, asymmetric, transitive and total, as a sort's comparator must be |
| StableSort.InsertLast | app/src/main/java/com/example/projectmanager/utils/BudgetSorter.java:43-63 | inserting an element lengthens the list by one and adds exactly that element |
| StableSort.Sort | app/src/main/java/com/example/projectmanager/utils/BudgetSorter.java:43-63 | the sorted list has the same length and the same elements as the input |
| StableSort.SortOfTwo | app/src/main/java/com/example/projectmanager/repositories/TaskRepository.java:158-176 | two elements are swapped exactly when the second has the strictly smaller key |
| StableSort.InsertLastSorted | app/src/main/java/com/example/projectmanager/utils/BudgetSorter.java:43-63 | inserting into a sorted list keeps it sorted |
| StableSort.SortIsSorted | app/src/main/java/com/example/projectmanager/utils/BudgetSorter.java:43-63 | the sorted list's keys never decrease |
| StableSort.Tied | app/src/main/java/com/example/projectmanager/utils/BudgetSorter.java:43-63 | the elements sharing a key are a sub-list of the input, each with that key |
| StableSort.TiedAppend | app/src/main/java/com/example/projectmanager/utils/BudgetSorter.java:43-63 | the elements sharing a key in a concatenation are those of the first part followed by those of the second |
| StableSort.SortIsStable | app/src/main/java/com/example/projectmanager/utils/BudgetSorter.java:43-63 | elements that compare equal keep their input order after sorting, as the stable merge sort behind List.sort guarantees |
| StableSort.SortOfEqualKeys | app/src/main/java/com/example/projectmanager/utils/BudgetSorter.java:43-63 | a list whose elements all compare equal is left exactly as it was |
| StableSort.InsertLastPastGreater | app/src/main/java/com/example/projectmanager/utils/BudgetSorter.java:43-63 | elements all strictly greater than the inserted one stay to its right |
| StableSort.InsertLastAtEnd | app/src/main/java/com/example/projectmanager/utils/BudgetSorter.java:43-63 | an element not smaller than the last one is appended |
| StableSort.InsertLastAt | app/src/main/java/com/example/projectmanager/utils/BudgetSorter.java:43-63 | the inserted element lands just after the last element that is not greater than it |
| StableSort.InsertStep | app/src/main/java/com/example/projectmanager/utils/BudgetSorter.java:43-63 | one step of the in-place insertion sort inserts the next element into the sorted prefix and leaves the rest of the array alone |
| StableSort.SortPrefix | app/src/main/java/com/example/projectmanager/utils/BudgetSorter.java:43-63 | sorting a one-longer prefix inserts its last element into the sorted shorter prefix |
| StableSort.SortInPlace | app/src/main/java/com/example/projectmanager/utils/BudgetSorter.java:43-63 | sorting an array in place leaves in it exactly the stable sort of its old contents |
| StableSort.SortSeq | app/src/main/java/com/example/projectmanager/utils/TaskFilter.java:77-80 | sorting a list through an array gives the stable sort of the list |
| BudgetSorter.SortOptionFromString | app/src/main/java/com/example/projectmanager/utils/BudgetSorter.java:25-38 | each of the four labels, and only it, selects its option; any other text selects DEFAULT |
| BudgetSorter.LabelsSelectTheirOptions | app/src/main/java/com/example/projectmanager/utils/BudgetSorter.java:25-38 | every entry of the drop-down selects its own option, the first one DEFAULT |
| Common.Compare | app/src/main/java/com/example/projectmanager/utils/BudgetSorter.java:70-72 | comparing two amounts is negative exactly when the first is smaller and zero exactly when they are equal |
| BudgetSorter.ComparatorIsKeyOrder | app/src/main/java/com/example/projectmanager/utils/BudgetSorter.java:68-124 | on budgets with creation dates each of the five comparators is exactly the order of its key |
| BudgetSorter.NullDateBreaksTransitivity | app/src/main/java/com/example/projectmanager/utils/BudgetSorter.java:118-123 | a budget without a creation date ties with every budget, so two budgets with different dates both tie with it: the comparator's equality is not transitive |
| BudgetSorter.SortBudgets | app/src/main/java/com/example/projectmanager/utils/BudgetSorter.java:43-63 | the array's contents become the stable sort of its old contents by the option's key; an empty list stays as it is |
| BudgetSorter.AmountOrder | app/src/main/java/com/example/projectmanager/utils/BudgetSorter.java:68-83 | after the ascending sort the amounts never decrease, after the descending sort they never increase |
| BudgetSorter.PendingFirstOrder | app/src/main/java/com/example/projectmanager/utils/BudgetSorter.java:88-97 | after PENDING_FIRST no approved budget comes before a pending one, and in the same approval state newer comes first |
| BudgetSorter.ApprovedFirstOrder | app/src/main/java/com/example/projectmanager/utils/BudgetSorter.java:103-112 | after APPROVED_FIRST no pending budget comes before an approved one, and in the same approval state newer comes first |
| BudgetSorter.DefaultOrder | app/src/main/java/com/example/projectmanager/utils/BudgetSorter.java:118-123 | after the default sort the budgets are newest first |
| BudgetSorter.SortBudgetsContract | app/src/main/java/com/example/projectmanager/utils/BudgetSorter.java:43-63 | the sorted list holds the same budgets, in key order, with budgets of equal key in their earlier order |
| Firestore.CollectRecords | app/src/main/java/com/example/projectmanager/repositories/TaskRepository.java:73-79 | the records are the answer's documents, each with "id" set to its document id, in the answer's order |
| Firestore.CollectPage | app/src/main/java/com/example/projectmanager/repositories/TaskRepository.java:110-124 | the page holds every document with its id in order; "has more" exactly when a full page of ten came back; the cursor is the last document, none for an empty answer |
| TaskRepository.AsWrittenOnServerRecords | app/src/main/java/com/example/projectmanager/repositories/TaskRepository.java:160-175 | on records read back from the server, where every date is a Timestamp, the comparator as written only puts dated records before undated ones; all dated records tie (Finding 1, as written) |
| TaskRepository.AsWrittenKeepsOlderFirst | app/src/main/java/com/example/projectmanager/repositories/TaskRepository.java:158-176 | two server records, the older first: the as-written sort leaves them older-first, while the intended newest-first order swaps them (Finding 1, as written) |
| TaskRepository.AsWrittenListing | app/src/main/java/com/example/projectmanager/repositories/TaskRepository.java:158-176 | sorting with the as-written comparator gives the dated records in their original order followed by the undated ones in theirs: no record is moved by its date |
| TaskRepository.CompareDatesIsKeyOrder | app/src/main/java/com/example/projectmanager/repositories/TaskRepository.java:160-175 | the corrected comparator is negative exactly when the date key is smaller and zero exactly when the keys are equal, for every pair of records (Finding 1, corrected) |
| TaskRepository.DateOrderOfSorted | app/src/main/java/com/example/projectmanager/repositories/TaskRepository.java:158-176 | in a list sorted by the corrected key, undated records come after all dated ones, and dated records are ordered by instant in the requested direction (Finding 1, corrected) |
| TaskRepository.GetTasksWithPagination | app/src/main/java/com/example/projectmanager/repositories/TaskRepository.java:96-130 | a failed query reports its message; otherwise the page is the documents with their ids, "has more" when the page is full, and the last document as cursor |
| TaskRepository.FirstIdIndex | app/src/main/java/com/example/projectmanager/repositories/TaskRepository.java:183-188 | the index of the first record whose id is the cursor's, and no earlier record has that id; -1 when none has it |
| TaskRepository.StartIndex | app/src/main/java/com/example/projectmanager/repositories/TaskRepository.java:179-189 | the page start always lies within the list |
| TaskRepository.InMemoryPageShape | app/src/main/java/com/example/projectmanager/repositories/TaskRepository.java:191-198 | the in-memory page is at most ten consecutive records from the start index; "has more" exactly when records remain after it; the cursor handed back is null; a short page reaches the end |
| TaskRepository.PageAfterCursor | app/src/main/java/com/example/projectmanager/repositories/TaskRepository.java:179-192 | with distinct ids, a cursor naming the record at position k starts the page at k + 1 |
| TaskRepository.UnknownCursorRestarts | app/src/main/java/com/example/projectmanager/repositories/TaskRepository.java:179-192 | a cursor naming no record gives the same page as no cursor |
| TaskRepository.FindStartIndex | app/src/main/java/com/example/projectmanager/repositories/TaskRepository.java:179-189 | the scan's result is one past the cursor's record, or 0 |
| TaskRepository.GetTasksForUserWithPagination | app/src/main/java/com/example/projectmanager/repositories/TaskRepository.java:135-204 | a null user id is refused with "User ID is null"; a failed query reports its message; otherwise the page is the in-memory page of the user's records sorted with the as-written comparator: the dated records in server order, then the undated ones |
| TaskRepository.UserTasksPage | app/src/main/java/com/example/projectmanager/repositories/TaskRepository.java:149-198 | the success listener's page is the in-memory page of all records, with ids, sorted with the as-written comparator, that is dated records in server order followed by undated ones |
| TaskRepository.CutPage | app/src/main/java/com/example/projectmanager/repositories/TaskRepository.java:178-198 | the page cut from the sorted list is the in-memory page for the cursor |
| TaskRepository.GetTasksSortedByCreation | app/src/main/java/com/example/projectmanager/repositories/TaskRepository.java:209-257 | a null user id is refused where the listing requires one; a failed query reports its message; otherwise all records with ids, the dated ones in server order and then the undated ones, which is what the cast comparator does to server records (also getTasksCreatedByUser, getTasksByStatus, getTasksByPriority and getTasksByDateRange) |
| TaskRepository.OpenTasks | app/src/main/java/com/example/projectmanager/repositories/TaskRepository.java:769-777 | each snapshot occurs as often as in the answer when its status is not "completed", and not at all otherwise |
| TaskRepository.GetTasksDueSoon | app/src/main/java/com/example/projectmanager/repositories/TaskRepository.java:749-803 | a failed query reports its message; otherwise the open tasks with their ids, those with a due date in server order and then those without, which is what the cast comparator does to server records |
| TaskRepository.CollectOpenTasks | app/src/main/java/com/example/projectmanager/repositories/TaskRepository.java:767-777 | the loop's list is exactly the open records with their ids, in order |
| TaskRepository.DueSoonKeepsExactlyOpenTasks | app/src/main/java/com/example/projectmanager/repositories/TaskRepository.java:771-776 | a snapshot is kept exactly when it was in the answer and its status is not "completed" |
| TaskRepository.FromMapStored | app/src/main/java/com/example/projectmanager/repositories/TaskRepository.java:490-513 | a task read back through Task.fromMap is the same whether the server keeps its dates as Dates or as Timestamps |
| TaskRepository.MergedIsToMap | app/src/main/java/com/example/projectmanager/repositories/TaskRepository.java:346-354 | merging update fields into a task's map gives the map of the updated task when the fields are that task's values and all others agree |
| TaskRepository.StatusFieldsAreToMap | app/src/main/java/com/example/projectmanager/repositories/TaskRepository.java:346-348 | the status update over a task's map is the map of that task with the new status and update time |
| TaskRepository.AssigneeFieldsAreToMap | app/src/main/java/com/example/projectmanager/repositories/TaskRepository.java:402-404 | the assignee fields over a task's map are the map of that task with the new assignee |
| TaskRepository.ReassignFieldsAreToMap | app/src/main/java/com/example/projectmanager/repositories/TaskRepository.java:402-406 | the reassignment over a task's map is the map of that task with the new assignee, status "pending" and the new update time |
| TaskRepository.StatusUpdateReadBack | app/src/main/java/com/example/projectmanager/repositories/TaskRepository.java:340-363 | after a status update, the stored task reads back as the task with the new status and update time, nothing else changed |
| TaskRepository.ReassignReadBack | app/src/main/java/com/example/projectmanager/repositories/TaskRepository.java:395-421 | after a reassignment, the stored task reads back with the new assignee, status "pending" and the new update time, nothing else changed |
| TaskRepository.Stamped | app/src/main/java/com/example/projectmanager/repositories/TaskRepository.java:315-319 | the creation time is kept when set and is now otherwise; the update time is now; no other field changes |
| TaskRepository.AddTask | app/src/main/java/com/example/projectmanager/repositories/TaskRepository.java:314-335 | the task is stamped; on success its map is stored under the new id, which is reported; a failure reports "Lỗi khi thêm task: " and its message and stores nothing |
| TaskRepository.AddedTaskReadsBack | app/src/main/java/com/example/projectmanager/repositories/TaskRepository.java:314-335 | a task added by addTask reads back as the stamped task under its new id |
| TaskRepository.UpdateTaskStatus | app/src/main/java/com/example/projectmanager/repositories/TaskRepository.java:340-363 | an empty or null id is refused and nothing changes; success exactly when the document exists and the network did not fail, and then the status and update time are merged into it |
| TaskRepository.ReassignTask | app/src/main/java/com/example/projectmanager/repositories/TaskRepository.java:395-421 | an empty or null id is refused; on success the assignee, status "pending" and update time are merged into the existing document; a failure changes nothing |
| TaskRepository.UpdateTaskAttachment | app/src/main/java/com/example/projectmanager/repositories/TaskRepository.java:643-668 | an empty or null id is refused; the update succeeds exactly when the write does not fail and the document exists, and then the attachment URL, name and update time are merged into it; a failure changes nothing |
| TaskRepository.UpdateTaskDueDate | app/src/main/java/com/example/projectmanager/repositories/TaskRepository.java:721-744 | an empty or null id is refused; the update succeeds exactly when the write does not fail and the document exists, and then the due date and update time are merged into it; a failure changes nothing |
| TaskRepository.UpdateTask | app/src/main/java/com/example/projectmanager/repositories/TaskRepository.java:368-390 | an empty or null id is refused with nothing changed; otherwise the task gets the update time and on success its map replaces the document |
| TaskRepository.DeleteTask | app/src/main/java/com/example/projectmanager/repositories/TaskRepository.java:426-445 | an empty or null id is refused; on success exactly that document is removed; a failure reports "Lỗi khi xóa task: " and its message and removes nothing |
| TaskRepository.DeleteTaskWithPermission | app/src/main/java/com/example/projectmanager/repositories/TaskRepository.java:450-485 | the two id guards, a failed read, a missing task and a caller who is not the assigner each give their own message and change nothing; the assigner's call deletes the task and succeeds, or reports the delete's failure with nothing changed; the store changes only by deleting a task the caller assigned |
| TaskRepository.GetTaskById | app/src/main/java/com/example/projectmanager/repositories/TaskRepository.java:490-513 | an empty or null id is refused; a failed read and a missing document give their messages; otherwise the stored document with its id, read through Task.fromMap |
| BudgetRepository.GetBudgets | app/src/main/java/com/example/projectmanager/repositories/BudgetRepository.java:53-75 | a successful listing is every returned document with its id, in order; a failure reports the server's message behind the listing's own prefix (all budgets, or one user's) |
| BudgetRepository.GetBudgetsWithPagination | app/src/main/java/com/example/projectmanager/repositories/BudgetRepository.java:87-121 | a page is the returned documents with ids, "has more" exactly when ten came back, the last document as the next cursor; a failure reports the message behind the listing's prefix |
| BudgetRepository.ShortPageIsLast | app/src/main/java/com/example/projectmanager/repositories/BudgetRepository.java:111-112 | a page of fewer than ten documents says there is no more to load, and its cursor is its last document, none when empty |
| BudgetRepository.Stamped | app/src/main/java/com/example/projectmanager/repositories/BudgetRepository.java:166-175 | the written budget belongs to the signed-in user when there is one, keeps an existing creation date or is created now, is updated now, and is otherwise the caller's budget |
| BudgetRepository.AddBudget | app/src/main/java/com/example/projectmanager/repositories/BudgetRepository.java:163-187 | the stamped budget is returned; a failed add reports the message and changes nothing; a successful one stores the stamped budget's map under the new id |
| BudgetRepository.AddedBudgetReadsBack | app/src/main/java/com/example/projectmanager/repositories/BudgetRepository.java:163-187 | an added budget, listed again with its document id, reads back as the stamped budget with that id |
| BudgetRepository.UpdateBudget | app/src/main/java/com/example/projectmanager/repositories/BudgetRepository.java:192-213 | a null or empty id is refused and nothing changes; otherwise the budget is stamped with the update time and, unless the write fails, its map replaces the document |
| BudgetRepository.ApprovalFields | app/src/main/java/com/example/projectmanager/repositories/BudgetRepository.java:226-228 | approving and revoking write exactly the approval flag and the update time |
| BudgetRepository.SetApproval | app/src/main/java/com/example/projectmanager/repositories/BudgetRepository.java:218-269 | a null or empty id is refused; a failed write or a missing document (NOT_FOUND) changes nothing; otherwise the flag and the update time are merged into the document |
| BudgetRepository.ApprovalReadsBack | app/src/main/java/com/example/projectmanager/repositories/BudgetRepository.java:218-269 | approving or revoking a budget the app wrote changes, as the app reads it back, exactly its approval flag and update time |
| BudgetRepository.ApprovalFieldsAreToMap | app/src/main/java/com/example/projectmanager/repositories/BudgetRepository.java:226-232 | the approval fields merged over a budget's map give the map of the budget with the new flag and update time |
| BudgetRepository.FromMapStored | app/src/main/java/com/example/projectmanager/models/Budget.java:82-119 | a budget document reads the same whether its dates are Dates or Timestamps |
| BudgetRepository.LastApprovalWins | app/src/main/java/com/example/projectmanager/repositories/BudgetRepository.java:218-269 | approving then revoking, or the reverse, leaves the document as the last call alone would |
| BudgetRepository.DeleteBudget | app/src/main/java/com/example/projectmanager/repositories/BudgetRepository.java:274-293 | a null or empty id is refused and nothing changes; a failed delete reports the message and changes nothing; a successful one removes the document |
| UserManager.EmailPrefix | app/src/main/java/com/example/projectmanager/utils/UserManager.java:79-80 | a prefix exists exactly when the address holds an @; it is the part before the first @ and holds none |
| UserManager.UserManager.Pref | app/src/main/java/com/example/projectmanager/utils/UserManager.java:86 | a saved value is found exactly when its key is in the preferences |
| UserManager.UserManager.CurrentUserDisplayName | app/src/main/java/com/example/projectmanager/utils/UserManager.java:68-93 | the account's non-empty display name wins; then the part of its e-mail before @, which throws exactly when that e-mail has no @; without an account or both fields, the saved non-empty name, else "Tôi" |
| UserManager.UserManager.CurrentUserEmail | app/src/main/java/com/example/projectmanager/utils/UserManager.java:105-111 | the account's non-null e-mail, else the saved one, else "" |
| UserManager.UserManager.CurrentUserId | app/src/main/java/com/example/projectmanager/utils/UserManager.java:116-122 | the account's uid when signed in, else the saved id, else "" |
| UserManager.UserManager.IsCurrentUser | app/src/main/java/com/example/projectmanager/utils/UserManager.java:127-146 | fails exactly when the display name throws; otherwise true exactly when the sender name equals the current name or the sender e-mail the current e-mail |
| UserManager.UserManager.CurrentUserRole | app/src/main/java/com/example/projectmanager/utils/UserManager.java:151-154 | MEMBER when no role is cached, else the role the cached string parses to |
| UserManager.UserManager.RolePredicates | app/src/main/java/com/example/projectmanager/utils/UserManager.java:167-202 | managing users and being admin agree and mean ADMIN; managing budgets, assigning tasks and being manager or admin agree and mean any role but MEMBER; an admin is a manager or admin |
| UserManager.UserManager.SaveUserRole | app/src/main/java/com/example/projectmanager/utils/UserManager.java:159-161 | the role's string is cached and the current role reads back as that role, the other preferences unchanged |
| UserManager.UserManager.SaveUserDisplayName | app/src/main/java/com/example/projectmanager/utils/UserManager.java:98-100 | a name is saved under its key; a null name removes the key, the other preferences unchanged |
| UserManager.UserManager.ClearUserData | app/src/main/java/com/example/projectmanager/utils/UserManager.java:259-261 | every preference is gone: the role reads as MEMBER and, signed out, the id and e-mail as "" |
| UserManager.UserManager.LoadUserRoleTarget | app/src/main/java/com/example/projectmanager/utils/UserManager.java:207-217 | with an empty current user id the listener gets an error; otherwise the document read is the current user's |
| UserManager.UserManager.OnUserDocumentLoaded | app/src/main/java/com/example/projectmanager/utils/UserManager.java:218-239 | an existing document gives the role its field parses to, a missing one MEMBER; that role is cached and reads back as current |
| UserSearch.NewUserInfo | app/src/main/java/com/example/projectmanager/services/UserSearchService.java:34-38 | the id and e-mail are kept; a null or empty display name is replaced by the e-mail |
| UserSearch.GetString | app/src/main/java/com/example/projectmanager/services/UserSearchService.java:66-68 | reading a field succeeds exactly when it is missing, null or a string, and then gives its text or null |
| UserSearch.PreferredName | app/src/main/java/com/example/projectmanager/services/UserSearchService.java:79-85 | the display name when non-empty, else the name when non-empty, else the e-mail |
| UserSearch.UserFromDoc | app/src/main/java/com/example/projectmanager/services/UserSearchService.java:64-95 | a document yields a user exactly when its e-mail and display name can be read and the e-mail is non-empty; the user has the document id, that e-mail and the preferred name |
| UserSearch.UsersFrom | app/src/main/java/com/example/projectmanager/services/UserSearchService.java:64-96 | no more users than documents, each with a non-empty e-mail |
| UserSearch.AddCurrentUserIfMissing | app/src/main/java/com/example/projectmanager/services/UserSearchService.java:116-138 | the scan and insert give exactly the list with the signed-in user in front when missing |
| UserSearch.WithCurrentUserFacts | app/src/main/java/com/example/projectmanager/services/UserSearchService.java:116-138 | signed out, the list is unchanged; otherwise it is unchanged or gains one entry in front under the account's uid, the account is then listed, and a second call changes nothing |
| UserSearch.WithCurrentUserSafe | app/src/main/java/com/example/projectmanager/services/UserSearchService.java:126-131 | a list whose scan cannot throw stays that way once the signed-in user is added |
| UserSearch.GetAllUsers | app/src/main/java/com/example/projectmanager/services/UserSearchService.java:53-111 | on success the users read from the documents, in order, with the signed-in user added when missing; on failure only the signed-in user, if any |
| UserSearch.AllUsersHaveEmails | app/src/main/java/com/example/projectmanager/services/UserSearchService.java:53-111 | every delivered user has an e-mail, except possibly the signed-in account added in front with the account's own e-mail |
| UserSearch.FirstFound | app/src/main/java/com/example/projectmanager/services/UserSearchService.java:189-194 | a non-empty answer reports its first document's id |
| UserSearch.SearchUserByField | app/src/main/java/com/example/projectmanager/services/UserSearchService.java:206-233 | a non-empty answer reports its first document; an empty or failed e-mail query reports not found; a failed name query reports an error |
| UserSearch.FindUserByName | app/src/main/java/com/example/projectmanager/services/UserSearchService.java:174-204 | a null or blank name is not found, without any query |
| UserSearch.LookupOrder | app/src/main/java/com/example/projectmanager/services/UserSearchService.java:174-233 | a user found by display name wins, then one found by name, then one found by e-mail; once the first two come back empty the answer is never an error; a blank name gives the same answer whatever the server holds |
| UserSearch.SavedUserData | app/src/main/java/com/example/projectmanager/services/UserSearchService.java:143-157 | the saved document holds exactly six keys and no "id"; its display name is the account's, else its e-mail; it is active |
| UserSelection.Matching | app/src/main/java/com/example/projectmanager/dialogs/UserSelectionDialog.java:138-144 | no more users than loaded, and every kept user can still be searched |
| UserSelection.Filtered | app/src/main/java/com/example/projectmanager/dialogs/UserSelectionDialog.java:131-145 | the kept users can still be searched |
| UserSelection.MatchingMembers | app/src/main/java/com/example/projectmanager/dialogs/UserSelectionDialog.java:138-144 | a user is kept exactly when loaded and matching the search text |
| UserSelection.EmptyQueryMatchesAll | app/src/main/java/com/example/projectmanager/dialogs/UserSelectionDialog.java:135-141 | every user matches the empty text, so the shortcut for an empty query agrees with the search |
| UserSelection.ShownCount | app/src/main/java/com/example/projectmanager/dialogs/UserSelectionDialog.java:156 | the shown count never exceeds the filtered users and is either all of them or exactly the pages so far |
| UserSelection.PagingFacts | app/src/main/java/com/example/projectmanager/dialogs/UserSelectionDialog.java:156-164 | "load more" is set exactly when some filtered user is not shown; the next page shows between none and ten more users, at least one when the flag is set and all of them when it is not |
| UserSelection.KeepFiltered | app/src/main/java/com/example/projectmanager/dialogs/UserSelectionDialog.java:131-145 | the search loop keeps exactly the filtered users |
| UserSelection.UserSelectionDialog.constructor | app/src/main/java/com/example/projectmanager/dialogs/UserSelectionDialog.java:49-55 | a new dialog shows nothing, is on the first page, not loading, with "load more" set |
| UserSelection.UserSelectionDialog.UpdateDisplayedUsers | app/src/main/java/com/example/projectmanager/dialogs/UserSelectionDialog.java:153-175 | the shown users become the first pages of the filtered ones and "load more" says whether any filtered user is left out; nothing else changes |
| UserSelection.UserSelectionDialog.FilterUsers | app/src/main/java/com/example/projectmanager/dialogs/UserSelectionDialog.java:131-148 | the filtered list becomes what the query keeps, the dialog is back on the first page and shows it, and "load more" says whether more than ten users are kept |
| UserSelection.UserSelectionDialog.LoadNextPage | app/src/main/java/com/example/projectmanager/dialogs/UserSelectionDialog.java:180-183 | one more page is shown, the lists unchanged |
| UserSelection.UserSelectionDialog.OnLoadMoreClicked | app/src/main/java/com/example/projectmanager/dialogs/UserSelectionDialog.java:94-98 | with more to show and nothing loading, one more page is shown; otherwise nothing changes |
| UserSelection.UserSelectionDialog.LoadUsers | app/src/main/java/com/example/projectmanager/dialogs/UserSelectionDialog.java:188-189 | the dialog is loading and its lists are unchanged |
| UserSelection.UserSelectionDialog.OnUsersLoaded | app/src/main/java/com/example/projectmanager/dialogs/UserSelectionDialog.java:194-209 | every loaded user is kept and filtered, the first page is shown, loading is over, and "load more" says whether there are more than ten users |
| UserSelection.UserSelectionDialog.OnError | app/src/main/java/com/example/projectmanager/dialogs/UserSelectionDialog.java:212-218 | the error is shown behind its prefix and loading is over; the lists and the page stay |
| UserSelection.LoadMoreRevealsPrefix | app/src/main/java/com/example/projectmanager/dialogs/UserSelectionDialog.java:94-98 | pressing "load more" only ever extends the shown users, and once the flag is down every filtered user is shown |
| UserManagement.MayOpen | app/src/main/java/com/example/projectmanager/activities/UserManagementActivity.java:62-67 | the screen stays open exactly for a cached ADMIN role, and never when no role is cached |
| UserManagement.RoleIndex | app/src/main/java/com/example/projectmanager/activities/UserManagementActivity.java:118-123 | the preselected entry is a valid entry and selects the user's own role |
| UserManagement.RoleIndexRoundTrip | app/src/main/java/com/example/projectmanager/activities/UserManagementActivity.java:115-129 | choosing an entry and preselecting its role lead back to the same entry |
| UserManagement.RoleChoice | app/src/main/java/com/example/projectmanager/activities/UserManagementActivity.java:128-136 | the choice throws exactly for a user without id; it is refused exactly when the user is oneself and the role is not ADMIN; otherwise the chosen entry's role goes to the confirmation |
| UserManagement.ActiveToggle | app/src/main/java/com/example/projectmanager/activities/UserManagementActivity.java:173-180 | the toggle throws exactly for a user without id; it is refused exactly for one's own account; otherwise the new flag is the negation of the old |
| UserManagement.ReadUserAsWritten | app/src/main/java/com/example/projectmanager/activities/UserManagementActivity.java:98-100 | a user read from the document's data alone has as its id only an "id" field of that data |
| UserManagement.ReadUser | app/src/main/java/com/example/projectmanager/activities/UserManagementActivity.java:98-100 | the corrected reading of Finding 2: a user read with its document id has that id and is readable exactly when the data alone is |
| UserManagement.ReadUsers | app/src/main/java/com/example/projectmanager/activities/UserManagementActivity.java:96-101 | never more users than documents, and each user is the as-written reading of the document at its position |
| UserManagement.ReadUsersLength | app/src/main/java/com/example/projectmanager/activities/UserManagementActivity.java:96-101 | all documents are read exactly when none of them throws |
| UserManagement.ReadUsersStep | app/src/main/java/com/example/projectmanager/activities/UserManagementActivity.java:98-100 | a document that throws ends the list; a readable one adds its user in front of the users read after it |
| UserManagement.UserManagementScreen.constructor | app/src/main/java/com/example/projectmanager/activities/UserManagementActivity.java:76 | the list starts empty |
| UserManagement.UserManagementScreen.OnUsersLoaded | app/src/main/java/com/example/projectmanager/activities/UserManagementActivity.java:96-107 | the list becomes the users read from the documents' data up to the first document that throws, each with only the id its data holds; the load completes exactly when none throws, and then holds one user per document |
| UserManagement.UserManagementScreen.UpdateUserRole | app/src/main/java/com/example/projectmanager/activities/UserManagementActivity.java:159-171 | the update succeeds exactly when the write does not fail and the document exists; then the role is merged into the document and the listed user takes it; otherwise nothing changes |
| UserManagement.UserManagementScreen.SetUserActive | app/src/main/java/com/example/projectmanager/activities/UserManagementActivity.java:188-200 | the update succeeds exactly when the write does not fail and the document exists; then the flag is merged into the document and the listed user takes it; otherwise nothing changes |
| UserManagement.RegisteredUsersBreakGuards | app/src/main/java/com/example/projectmanager/activities/UserManagementActivity.java:99-175 | a user saved on sign-in reads back with a null id, so both the role dialog and the active toggle throw for them |
| UserManagement.RegisteredUsersKeepGuards | app/src/main/java/com/example/projectmanager/activities/UserManagementActivity.java:128-180 | read with its document id, the same user has that id and is active; only the administrator's own account is refused a demotion or a deactivation |
| TaskViewModel.TaskRights | app/src/main/java/com/example/projectmanager/viewmodels/TaskViewModel.java:536-564 | nobody signed in has any right; editing is exactly being the assignee or the assigner, so each narrower right implies editing |
| TaskViewModel.CommentAuthorName | app/src/main/java/com/example/projectmanager/viewmodels/TaskViewModel.java:433-436 | the comment's author is the display name, else the e-mail, and "Unknown" when signed out |
| TaskViewModel.Uid | app/src/main/java/com/example/projectmanager/viewmodels/TaskViewModel.java:361-362 | a uid is sent exactly when someone is signed in |
| TaskViewModel.TaskViewModel.constructor | app/src/main/java/com/example/projectmanager/viewmodels/TaskViewModel.java:35-39 | a new view-model has nothing loaded, no cursor, no pagination and no filter, and is loading the full list |
| TaskViewModel.TaskViewModel.PageQuery | app/src/main/java/com/example/projectmanager/viewmodels/TaskViewModel.java:71-103 | with a "my tasks" filter the user's page after the cursor is asked for, otherwise the page of all tasks after the cursor |
| TaskViewModel.TaskViewModel.LoadTasksWithPagination | app/src/main/java/com/example/projectmanager/viewmodels/TaskViewModel.java:67-104 | the view-model is loading and asks for the page the filter and cursor call for; nothing else changes |
| TaskViewModel.TaskViewModel.EnablePagination | app/src/main/java/com/example/projectmanager/viewmodels/TaskViewModel.java:59-64 | pagination is on, "has more" false and the cursor dropped; the first page for the filter is asked for |
| TaskViewModel.TaskViewModel.LoadMoreTasks | app/src/main/java/com/example/projectmanager/viewmodels/TaskViewModel.java:107-146 | nothing happens unless pagination is on, "has more" is not false and there is a cursor; then the next page is asked for |
| TaskViewModel.TaskViewModel.OnPageLoaded | app/src/main/java/com/example/projectmanager/viewmodels/TaskViewModel.java:148-167 | loading is over; a page read without a cursor replaces the list and any other is appended; "has more" and the cursor become the page's |
| TaskViewModel.TaskViewModel.OnError | app/src/main/java/com/example/projectmanager/viewmodels/TaskViewModel.java:80-85 | loading is over and the error is shown; the list and the paging state stay |
| TaskViewModel.TaskViewModel.LoadTasks | app/src/main/java/com/example/projectmanager/viewmodels/TaskViewModel.java:189-208 | the view-model is loading and asks for every task |
| TaskViewModel.TaskViewModel.LoadList | app/src/main/java/com/example/projectmanager/viewmodels/TaskViewModel.java:221-262 | the view-model is loading and sends the given unpaged listing, nothing else changing |
| TaskViewModel.TaskViewModel.OnTasksLoaded | app/src/main/java/com/example/projectmanager/viewmodels/TaskViewModel.java:195-199 | loading is over and the list is exactly the delivered one |
| TaskViewModel.TaskViewModel.RefreshTasks | app/src/main/java/com/example/projectmanager/viewmodels/TaskViewModel.java:211-218 | in pagination mode the cursor is dropped and the first page asked for; otherwise the full list is reloaded |
| TaskViewModel.TaskViewModel.SetMyTasksFilter | app/src/main/java/com/example/projectmanager/viewmodels/TaskViewModel.java:170-186 | "my tasks" filters by the signed-in uid, keeping the old filter when signed out; "all" clears it; then the list is reloaded from the start |
| TaskViewModel.TaskViewModel.StartWrite | app/src/main/java/com/example/projectmanager/viewmodels/TaskViewModel.java:265-528 | every write puts the view-model in loading and sends the write unchanged |
| TaskViewModel.TaskViewModel.OnTaskAdded | app/src/main/java/com/example/projectmanager/viewmodels/TaskViewModel.java:271-278 | loading is over; in pagination mode the list is refreshed from the first page |
| TaskViewModel.TaskViewModel.OnWriteDone | app/src/main/java/com/example/projectmanager/viewmodels/TaskViewModel.java:296-300 | loading is over and nothing is reloaded |
| TaskViewModel.TaskViewModel.ClearErrorMessage | app/src/main/java/com/example/projectmanager/viewmodels/TaskViewModel.java:531-533 | the error is cleared and nothing else changes |
| TaskViewModel.DeleteWrite | app/src/main/java/com/example/projectmanager/viewmodels/TaskViewModel.java:357-364 | the delete names the task and carries the caller's uid exactly when someone is signed in |
| TaskViewModel.CommentWrite | app/src/main/java/com/example/projectmanager/viewmodels/TaskViewModel.java:427-438 | the comment write names the task and the text, carries an author id exactly when someone is signed in, and "Unknown" as author otherwise |
| TaskViewModel.MyTasksCannotLoadMore | app/src/main/java/com/example/projectmanager/viewmodels/TaskViewModel.java:107-167 | in "my tasks" mode a page comes back without a cursor, so "load more" then asks for nothing |
| BudgetViewModel.BudgetViewModel.constructor | app/src/main/java/com/example/projectmanager/viewmodels/BudgetViewModel.java:31-37 | a new view-model has no list, is not loading, has no more pages and no cursor, with pagination off |
| BudgetViewModel.BudgetViewModel.LoadBudgetsWithPagination | app/src/main/java/com/example/projectmanager/viewmodels/BudgetViewModel.java:69-84 | the view-model is loading and asks for the page after the cursor; nothing else changes |
| BudgetViewModel.BudgetViewModel.EnablePagination | app/src/main/java/com/example/projectmanager/viewmodels/BudgetViewModel.java:59-64 | pagination is on, "has more" false and the cursor dropped; the first page is asked for |
| BudgetViewModel.BudgetViewModel.LoadMoreBudgets | app/src/main/java/com/example/projectmanager/viewmodels/BudgetViewModel.java:89-108 | nothing happens unless pagination is on, "has more" is not false and there is a cursor; then the page after the cursor is asked for |
| BudgetViewModel.BudgetViewModel.OnPageLoaded | app/src/main/java/com/example/projectmanager/viewmodels/BudgetViewModel.java:110-127 | loading is over; a page read without a cursor replaces the list and any other is appended; "has more" and the cursor become the page's |
| BudgetViewModel.BudgetViewModel.OnError | app/src/main/java/com/example/projectmanager/viewmodels/BudgetViewModel.java:78-82 | the error is shown and loading is over; the list and the paging state stay |
| BudgetViewModel.BudgetViewModel.LoadBudgets | app/src/main/java/com/example/projectmanager/viewmodels/BudgetViewModel.java:132-147 | the view-model is loading and asks for every budget |
| BudgetViewModel.BudgetViewModel.OnBudgetsLoaded | app/src/main/java/com/example/projectmanager/viewmodels/BudgetViewModel.java:136-139 | the list is exactly the delivered one and loading is over |
| BudgetViewModel.BudgetViewModel.RefreshQuery | app/src/main/java/com/example/projectmanager/viewmodels/BudgetViewModel.java:152-159 | a refresh asks for a page exactly in pagination mode, and then for the first page |
| BudgetViewModel.BudgetViewModel.RefreshBudgets | app/src/main/java/com/example/projectmanager/viewmodels/BudgetViewModel.java:152-159 | in pagination mode the cursor is dropped and the first page asked for; otherwise every budget is reloaded |
| BudgetViewModel.BudgetViewModel.StartWrite | app/src/main/java/com/example/projectmanager/viewmodels/BudgetViewModel.java:164-285 | every write puts the view-model in loading; an update is first stamped with the current time, every other write is sent unchanged |
| BudgetViewModel.BudgetViewModel.OnWriteSucceeded | app/src/main/java/com/example/projectmanager/viewmodels/BudgetViewModel.java:168-176 | after a successful write the list is reloaded: the first page, cursor dropped, in pagination mode, every budget otherwise |
| BudgetViewModel.WriteThenFirstPage | app/src/main/java/com/example/projectmanager/viewmodels/BudgetViewModel.java:168-176 | after a successful write in pagination mode the reloaded first page is exactly what the screen shows |
| TaskAdapter.AdapterRights | app/src/main/java/com/example/projectmanager/adapters/TaskAdapter.java:561-574 | a signed-out user has no right on a row; editing holds exactly when the user is the assignee or the assigner, so updating the status and being the assigner each imply editing |
| TaskAdapter.AdapterAgreesWithViewModel | app/src/main/java/com/example/projectmanager/adapters/TaskAdapter.java:68-81 | the rights a row computes from its task's ids and the signed-in uid are the view-model's canEditTask, canUpdateTaskStatus and isTaskAssigner for the same task |
| TaskAdapter.Options | app/src/main/java/com/example/projectmanager/adapters/TaskAdapter.java:206-213 | the options menu has four entries for the assigner, three for another editor and one otherwise, and always starts with "view details" |
| TaskAdapter.ActionFor | app/src/main/java/com/example/projectmanager/adapters/TaskAdapter.java:215-232 | edit, reassign and delete are reachable only by the assigner, the progress report and the edit request only by a non-assigner editor, and a user with neither right can only view the details |
| TaskAdapter.EntryNamesItsAction | app/src/main/java/com/example/projectmanager/adapters/TaskAdapter.java:206-232 | each menu entry selects the action its text names, and for the assigner or an editor an index outside the menu selects nothing |
| TaskAdapter.LabelsDistinct | app/src/main/java/com/example/projectmanager/adapters/TaskAdapter.java:206-213 | two actions share an entry text only when they are the same action |
| TaskAdapter.OnClick | app/src/main/java/com/example/projectmanager/adapters/TaskAdapter.java:179-188 | a tap opens the status update exactly when the user may update the status and a listener is set; a refusal names the assignee rule exactly when the user may edit |
| TaskAdapter.OnLongClick | app/src/main/java/com/example/projectmanager/adapters/TaskAdapter.java:191-199 | a long press shows the options menu exactly when the user is the assigner or may edit, and otherwise shows the no-right refusal |
| TaskAdapter.RowInteractions | app/src/main/java/com/example/projectmanager/adapters/TaskAdapter.java:176-213 | with the flags a row computes, a tap opens the status update only for the signed-in assignee, an assigner who is not the assignee gets the assignee-only refusal, and a long press never shows the one-entry menu: four entries for the assigner, three for the assignee |
| TaskAdapter.PriorityText | app/src/main/java/com/example/projectmanager/adapters/TaskAdapter.java:577-585 | null and every value other than low and high are shown as medium |
| TaskAdapter.StatusText | app/src/main/java/com/example/projectmanager/adapters/TaskAdapter.java:604-612 | null and every value other than in_progress and completed are shown as pending |
| TaskAdapter.PriorityIndex | app/src/main/java/com/example/projectmanager/adapters/TaskAdapter.java:303-307 | the edit dialog preselects a valid position of the three-entry priority spinner |
| TaskAdapter.PriorityAt | app/src/main/java/com/example/projectmanager/adapters/TaskAdapter.java:360-365 | each spinner position saves the priority listed at that position, and every position saves a known priority |
| TaskAdapter.PriorityRoundTrip | app/src/main/java/com/example/projectmanager/adapters/TaskAdapter.java:296-365 | saving the preselected position keeps a known priority and turns anything else into medium; choosing a position and reopening preselects it; each position's label is the text the list shows for the priority it saves |
| TaskAdapter.StatusIndex | app/src/main/java/com/example/projectmanager/adapters/TaskAdapter.java:454-458 | the report dialog preselects a valid position of the three-entry status spinner |
| TaskAdapter.StatusAt | app/src/main/java/com/example/projectmanager/adapters/TaskAdapter.java:462-467 | each spinner position saves the status listed at that position, and every position saves a known status |
| TaskAdapter.StatusRoundTrip | app/src/main/java/com/example/projectmanager/adapters/TaskAdapter.java:448-467 | saving the preselected position keeps a known status and turns anything else into pending; choosing a position and reopening preselects it; each position's label is the text the list shows for the status it saves |
| TaskAdapter.AssignText | app/src/main/java/com/example/projectmanager/adapters/TaskAdapter.java:88-91 | the assignment line starts with the assignee's name, or "Chưa có" when there is none, and is only that when the assigner's name is unknown |
| TaskAdapter.DeleteRequest | app/src/main/java/com/example/projectmanager/adapters/TaskAdapter.java:256-260 | the delete request handed to the screen carries the DELETE_TASK marker, the task's own id and the original task |
| TaskAdapter.ReassignWrite | app/src/main/java/com/example/projectmanager/adapters/TaskAdapter.java:407-428 | a reassignment is sent exactly when the task has an id and the picked user has a non-empty uid, and it moves that task to the picked user |
| TaskAdapter.ReportWrites | app/src/main/java/com/example/projectmanager/adapters/TaskAdapter.java:430-483 | a task without an id sends nothing; otherwise the status of the chosen position is sent first, followed by the trimmed comment exactly when it is not empty |
| TaskAdapter.EditRequestWrite | app/src/main/java/com/example/projectmanager/adapters/TaskAdapter.java:485-526 | nothing happens without a task id or an assigner; an empty request is refused; otherwise a comment on that task is sent whose text is the edit-request marker followed by the trimmed request |
| TaskAdapter.InitialDueDate | app/src/main/java/com/example/projectmanager/adapters/TaskAdapter.java:310-318 | the dialog starts from the task's due date when it holds a date, and from today otherwise |
| TaskAdapter.EditedTaskAsWritten | app/src/main/java/com/example/projectmanager/adapters/TaskAdapter.java:350-396 | as written, the save button builds a task exactly when the task has an id and the trimmed title is not empty, and that task never carries an attachment |
| TaskAdapter.EditedTask | app/src/main/java/com/example/projectmanager/adapters/TaskAdapter.java:350-396 | the corrected save button builds a task in exactly the same cases as the code as written |
| TaskAdapter.EditDropsAttachment | app/src/main/java/com/example/projectmanager/adapters/TaskAdapter.java:367-396 | as written, editing a task that has an attachment writes a document whose attachment field is null, so the attachment is lost |
| TaskAdapter.KeptField | app/src/main/java/com/example/projectmanager/adapters/TaskAdapter.java:375-380 | a field copied from the task into the edited task is written back exactly as the task had it |
| TaskAdapter.EditKeepsOtherFields | app/src/main/java/com/example/projectmanager/adapters/TaskAdapter.java:367-396 | the corrected edit keeps the id, the assignee, the assigner, the status and the attachment as the task had them, writes the trimmed title and the chosen priority, keeps an existing creation date and stamps the saving time |
| TaskAdapter.EditWrite | app/src/main/java/com/example/projectmanager/adapters/TaskAdapter.java:350-396 | the save button sends nothing for a task without an id, refuses an empty title, and otherwise updates the same task with the trimmed title, its assignee, assigner and status kept, and a null attachment |
| TaskManager.NextStatus | app/src/main/java/com/example/projectmanager/activities/TaskManagerActivity.java:591-598 | a null status throws; any other status moves to a known status, and an unknown one to pending |
| TaskManager.StatusCycle | app/src/main/java/com/example/projectmanager/activities/TaskManagerActivity.java:591-598 | no known status is its own successor, and three taps bring a known status back to itself |
| TaskManager.SelectedPriority | app/src/main/java/com/example/projectmanager/activities/TaskManagerActivity.java:527-535 | positions 0, 1 and 2 select low, medium and high, and any other position selects medium |
| TaskManager.SpinnersAgree | app/src/main/java/com/example/projectmanager/activities/TaskManagerActivity.java:527-535 | the creation form and the row's edit dialog save the same priority for every spinner position |
| TaskManager.Mine | app/src/main/java/com/example/projectmanager/activities/TaskManagerActivity.java:480-489 | the "my tasks" list is never longer than the full list |
| TaskManager.MineMembers | app/src/main/java/com/example/projectmanager/activities/TaskManagerActivity.java:482-489 | a task is kept exactly when it is listed and assigned to the signed-in user; a signed-out user keeps nothing |
| TaskManager.AllMineKept | app/src/main/java/com/example/projectmanager/activities/TaskManagerActivity.java:482-489 | a list whose tasks all belong to the user is kept whole, in order |
| TaskManager.CountMine | app/src/main/java/com/example/projectmanager/activities/TaskManagerActivity.java:510-520 | the count is the length of the user's own task list |
| TaskManager.FirstNamed | app/src/main/java/com/example/projectmanager/activities/TaskManagerActivity.java:175-185 | a suggestion that is found is one of the loaded users and shows exactly the picked text |
| TaskManager.FirstMatch | app/src/main/java/com/example/projectmanager/activities/TaskManagerActivity.java:400-408 | a user the scan finds is one of the loaded users, and its display name or its e-mail is the typed text |
| TaskManager.FirstMatchComplete | app/src/main/java/com/example/projectmanager/activities/TaskManagerActivity.java:400-408 | when every user has a name and an e-mail the scan does not throw, and it finds nobody exactly when no user has that name or e-mail |
| TaskManager.CreatedTask | app/src/main/java/com/example/projectmanager/activities/TaskManagerActivity.java:433-443 | the new task is pending, has no id, belongs to the chosen user with the given title, priority and due date, and names the signed-in user as its assigner under the display name or else the e-mail |
| TaskManager.CreatorAndAssigneeRights | app/src/main/java/com/example/projectmanager/activities/TaskManagerActivity.java:433-448 | once stored, a created task may have its status updated by its assignee, and a signed-in creator is its assigner and may edit it |
| TaskManager.HandleTaskClick | app/src/main/java/com/example/projectmanager/activities/TaskManagerActivity.java:555-589 | a delete request deletes the task it names; any other tap is refused exactly when the user is not the assignee, and a status update sent is the next status of that task |
| TaskManager.DeleteRequestDeletes | app/src/main/java/com/example/projectmanager/activities/TaskManagerActivity.java:555-566 | the delete request a row sends reaches the screen as the deletion of the same task by the signed-in user |
| TaskManager.TapsAgreeWithRows | app/src/main/java/com/example/projectmanager/activities/TaskManagerActivity.java:568-583 | the screen refuses a tap exactly when the row's own check refuses the status update, and for a task with a status it sends the next status |
| TaskManager.TaskManagerScreen.constructor | app/src/main/java/com/example/projectmanager/activities/TaskManagerActivity.java:57-72 | a new screen has empty lists, nobody chosen, no due date and pagination off |
| TaskManager.TaskManagerScreen.FilterTasks | app/src/main/java/com/example/projectmanager/activities/TaskManagerActivity.java:474-496 | nothing changes in pagination mode; otherwise the list shows every task, or exactly the user's own tasks in order |
| TaskManager.TaskManagerScreen.MyTasksCount | app/src/main/java/com/example/projectmanager/activities/TaskManagerActivity.java:498-508 | the count is the number of the user's own tasks among all delivered tasks |
| TaskManager.TaskManagerScreen.EnablePagination | app/src/main/java/com/example/projectmanager/activities/TaskManagerActivity.java:221-225 | pagination is on for the screen and the view-model, which asks for the first page; the lists are left as they were |
| TaskManager.TaskManagerScreen.OnTasksChanged | app/src/main/java/com/example/projectmanager/activities/TaskManagerActivity.java:280-300 | in pagination mode the list is shown as delivered; otherwise it replaces the full list and the filter is applied; the subtitle counts all delivered tasks and the user's own |
| TaskManager.TaskManagerScreen.OnUsersLoaded | app/src/main/java/com/example/projectmanager/activities/TaskManagerActivity.java:336-341 | the suggestions become the users delivered, and nothing else changes |
| TaskManager.TaskManagerScreen.PickSuggestion | app/src/main/java/com/example/projectmanager/activities/TaskManagerActivity.java:175-185 | picking a suggestion chooses the first user showing that text; nothing changes when nobody does |
| TaskManager.TaskManagerScreen.FindInSuggestions | app/src/main/java/com/example/projectmanager/activities/TaskManagerActivity.java:400-408 | the loop's result is the scan's result, including the throw on a missing name or e-mail |
| TaskManager.TaskManagerScreen.CreateAndSaveTask | app/src/main/java/com/example/projectmanager/activities/TaskManagerActivity.java:433-450 | the created task is handed to the view-model, and the form forgets the chosen user and sets the due date a week ahead |
| TaskManager.TaskManagerScreen.AddNewTask | app/src/main/java/com/example/projectmanager/activities/TaskManagerActivity.java:363-431 | an empty title, then an empty assignee, is refused; typing the chosen user's name saves for that user; otherwise the task is saved for the first suggestion whose name or e-mail is the typed text, and a search starts only when there is none; a chosen user without a name, or a null name or e-mail met in the scan, ends in the caught exception; a saved task has the trimmed title and description, the chosen priority, the signed-in assigner and the chosen due date or one a week from now |
| TaskManager.TaskManagerScreen.OnUserFound | app/src/main/java/com/example/projectmanager/activities/TaskManagerActivity.java:410-414 | a user found by the name lookup gets the task, and the form forgets the chosen user |
| BudgetAdapter.Inserted | app/src/main/java/com/example/projectmanager/adapters/BudgetAdapter.java:113-118 | the list grows by one, holds the budget at the position, and keeps every other budget in order around it |
| BudgetAdapter.Removed | app/src/main/java/com/example/projectmanager/adapters/BudgetAdapter.java:123-128 | the list shrinks by one and keeps every other budget in order, closing the gap |
| BudgetAdapter.InsertRemoveInverse | app/src/main/java/com/example/projectmanager/adapters/BudgetAdapter.java:113-128 | removing what was just inserted gives the list back, and so does re-inserting what was just removed |
| BudgetAdapter.BudgetListAdapter.constructor | app/src/main/java/com/example/projectmanager/adapters/BudgetAdapter.java:38-43 | the adapter shows the list it is given, which may be null |
| BudgetAdapter.BudgetListAdapter.ItemCount | app/src/main/java/com/example/projectmanager/adapters/BudgetAdapter.java:97-100 | the count is the list's length, or 0 for a null list |
| BudgetAdapter.BudgetListAdapter.UpdateData | app/src/main/java/com/example/projectmanager/adapters/BudgetAdapter.java:105-108 | the adapter shows the new list and counts its budgets |
| BudgetAdapter.BudgetListAdapter.AddBudget | app/src/main/java/com/example/projectmanager/adapters/BudgetAdapter.java:113-118 | with a list, the budget is inserted at the position and the count grows by one; with none, nothing happens |
| BudgetAdapter.BudgetListAdapter.RemoveBudget | app/src/main/java/com/example/projectmanager/adapters/BudgetAdapter.java:123-128 | the budget at a valid position is removed and the count drops by one; any other call changes nothing |
| BudgetAdapter.BudgetListAdapter.UpdateBudget | app/src/main/java/com/example/projectmanager/adapters/BudgetAdapter.java:133-138 | the budget at a valid position is replaced and the count stays; any other call changes nothing |
| BudgetAdapter.CategoryDisplayName | app/src/main/java/com/example/projectmanager/adapters/BudgetAdapter.java:202-215 | each known category key is shown under its own name, and null or any other key is shown as "Khác" |
| BudgetAdapter.Tier | app/src/main/java/com/example/projectmanager/adapters/BudgetAdapter.java:189-197 | the badge is high exactly above 1,000,000 and low exactly at 500,000 or below |
| BudgetAdapter.TierMonotone | app/src/main/java/com/example/projectmanager/adapters/BudgetAdapter.java:189-197 | a larger amount never gets a lower badge |
| BudgetActivity.SelectedCategory | app/src/main/java/com/example/projectmanager/activities/BudgetActivity.java:919-936 | each of the three category names selects its key, and any other text selects "other"; the result is always a known key |
| BudgetActivity.CategoryRoundTrip | app/src/main/java/com/example/projectmanager/activities/BudgetActivity.java:919-936 | a key shown by its name and chosen back gives the same key, and a name chosen and shown gives the same name |
| BudgetActivity.ChartIndex | app/src/main/java/com/example/projectmanager/activities/BudgetActivity.java:351-358 | a null category throws; any other category lands in one of the chart's four columns |
| BudgetActivity.ChartColumnMatchesRow | app/src/main/java/com/example/projectmanager/activities/BudgetActivity.java:351-358 | a budget is counted under the column whose label is the name its row shows |
| BudgetActivity.ConvertAsWritten | app/src/main/java/com/example/projectmanager/activities/BudgetActivity.java:743-774 | as written, the id, title and category are read from the map, the creation date is kept only when it is a Date, and otherwise it and the update date are the instant of conversion |
| BudgetActivity.Convert | app/src/main/java/com/example/projectmanager/activities/BudgetActivity.java:743-774 | the corrected conversion reads the creation date from a Date or a Timestamp alike and differs from the code as written in nothing else |
| BudgetActivity.ConvertAsWrittenLosesCreation | app/src/main/java/com/example/projectmanager/activities/BudgetActivity.java:766-769 | as written, a budget read back from Firestore, where dates are Timestamps, gets the conversion instant as its creation date |
| BudgetActivity.ConvertKeepsStoredBudget | app/src/main/java/com/example/projectmanager/activities/BudgetActivity.java:743-774 | the corrected conversion of a stored budget gives back the same budget except for the update date |
| BudgetActivity.ConvertMapListToBudgetList | app/src/main/java/com/example/projectmanager/activities/BudgetActivity.java:743-774 | one budget per map, converted as written, in the same order; every one carries a creation date, and for maps read from the server it is the conversion instant |
| BudgetActivity.DefaultSortKeepsServerOrder | app/src/main/java/com/example/projectmanager/activities/BudgetActivity.java:766-769 | budgets converted as written from server maps all tie under the default newest-first sort, which leaves them in server order |
| BudgetActivity.CheckForm | app/src/main/java/com/example/projectmanager/activities/BudgetActivity.java:788-808 | an empty title is refused first, then an empty amount; an accepted form has a title, an amount text and a parsed amount above 0, and every such form is accepted |
| BudgetActivity.AddNewBudget | app/src/main/java/com/example/projectmanager/activities/BudgetActivity.java:779-821 | exactly the forms the checks refuse are refused; otherwise a new unapproved budget with no owner and no id is added, with the trimmed title, the amount and the chosen category |
| BudgetActivity.FindEdited | app/src/main/java/com/example/projectmanager/activities/BudgetActivity.java:858-865 | a budget found is the first one with the edited id; a budget without an id met first throws; nothing found means no budget has that id |
| BudgetActivity.BudgetScreen.constructor | app/src/main/java/com/example/projectmanager/activities/BudgetActivity.java:85-88 | a new screen shows no budgets, edits nothing and has pagination off |
| BudgetActivity.BudgetScreen.OnBudgetsChanged | app/src/main/java/com/example/projectmanager/activities/BudgetActivity.java:674-691 | the shown list becomes the delivered documents, converted as written and sorted by the option chosen in the sort menu |
| BudgetActivity.BudgetScreen.EditBudget | app/src/main/java/com/example/projectmanager/activities/BudgetActivity.java:1120-1122 | the form now edits the given budget; the list is unchanged |
| BudgetActivity.BudgetScreen.UpdateBudget | app/src/main/java/com/example/projectmanager/activities/BudgetActivity.java:826-887 | nothing happens while adding; a refused form leaves everything as it was; the caught exception comes exactly when a budget without an id precedes the edited one, and nothing happens when no budget has the id; otherwise that budget takes the form's title, amount, description and category in the list, the update is sent and the form goes back to adding |
| BudgetActivity.BudgetScreen.OnSaveClicked | app/src/main/java/com/example/projectmanager/activities/BudgetActivity.java:620-630 | while adding, the button adds a new budget or shows the check's refusal, and the list is unchanged; while editing, it has exactly the outcome, list and form state of saving the edited budget |
| BudgetActivity.FindEditedIndex | app/src/main/java/com/example/projectmanager/activities/BudgetActivity.java:858-865 | the search loop returns the search's result, including the throw on a budget without an id |
| BudgetActivity.FindEditedStep | app/src/main/java/com/example/projectmanager/activities/BudgetActivity.java:860-864 | one step of the search either stops on the current budget or continues with the next position |

## Left out

- Firestore, Firebase Auth, Storage, FCM and LiveData are not modelled. A query's answer, the signed-in account and each completion are inputs. The server's own query semantics are outside the model: `where` filters, `orderBy` and the `startAfter` cursor. The model only checks what the app does with a page it receives.
- Asynchrony is not modelled. Each completion is a separate method call, and no single-flight guard is added, since the view-models have none.
- The clock is a parameter. `Calendar.add(DAY_OF_MONTH, 7)` is taken as 7 × 86,400,000 ms, so daylight-saving shifts are ignored. `convertMapListToBudgetList` uses one conversion instant for the whole list.
- The server's `dueDate` window of `getTasksDueSoon` is part of the query and is not modelled. `TaskRepository.GetTasksDueSoon` takes the answer as input and models the client-side filter and sort.
- Comments added with `FieldValue.arrayUnion` are modelled as the write request only. The array on the server is not modelled.
- A missing document is one abstract failure ("not found") instead of Firestore's `NOT_FOUND` exception text. Exception messages in general are abstracted to a fixed string.
- `Firestore.Collection.constructor`: the initial documents must hold no `Date` values, as on a real server, which only stores Timestamps.
- `(String)` casts and `getString` on a field that holds another type throw `ClassCastException` or `RuntimeException` in Java. The model reads such a field as null: `StrField`, `UserSearch.FirstFound`, `UserSearch.FindUserByName`, `UserManager.UserManager.OnUserDocumentLoaded`, and the permission checks.
- `TaskFilter.CompareObjects`: compares two nullable dates by instant. In Java, `compareObjects` calls `Comparable.compareTo` on any two non-null values, or compares their `toString` when they are not `Comparable`. A `Date` against a `Timestamp` would throw `ClassCastException` there, and the model compares them by instant. A date field holding a value that is not a date would be compared in Java, but the model reads it as null, so it sorts first. No list the app sorts holds either case: nothing else in the app calls `TaskFilter`, a list read from the server holds only Timestamps, and `Task.toMap` writes only Dates.
- `TaskFilter.CompareTasks`: the same two cases as `TaskFilter.CompareObjects`, through its date orders.
- `toLowerCase` is modelled on ASCII letters only. There is no Unicode case folding.
- Amounts are Java `double`s and are modelled as `int`. The code only compares, stores and validates them. `Double.parseDouble` is a parameter: the parsed `Option<int>` (`None` for a `NumberFormatException`).
- Budget totals, chart sums and the chart itself are not modelled (floating point). Only the choice of chart column for each category is (`BudgetActivity.ChartIndex`).
- Date and amount formatting (`SimpleDateFormat`, `DecimalFormat`) is not modelled. `DateUtils.Format` takes the rendering as a parameter and models only its null case.
- Views, colours, toasts, dialogs and logging are not modelled. `setPriorityColor` and `setStatusColor` switch on a possibly null string and would throw for it; they are UI only.
- `BudgetSorter.SortBudgets`: requires every budget to carry a creation date. The comparators return 0 when either date is null, which is not transitive, so no order can be proved for such a list. `Budget()` always sets the date, and the conversion keeps one (`BudgetActivity.ConvertMapListToBudgetList`).
- `UserSelection.UserSelectionDialog.FilterUsers`: requires every loaded user to have a display name and an e-mail (`Searchable`), because `toLowerCase` on a null throws. `getAllUsers` only delivers users with an e-mail, and their display name falls back to it.
- `UserSearch.AddCurrentUserIfMissing`: requires that no listed user reached before a match has a null e-mail, because `email.equals` would throw.
- `TaskRepository.GetTasksForUserWithPagination`: sorts by the as-written comparator's order on records from the server, where every date is a Timestamp (`TaskRepository.AsWrittenOnServerRecords`). A record holding a `java.util.Date`, which the server never returns, is not compared by its instant.
- `TaskRepository.UserTasksPage`: the same as-written order, for the same reason.
- `TaskRepository.GetTasksSortedByCreation`: the same as-written order, for the same reason.
- `TaskRepository.GetTasksDueSoon`: the same as-written order on `dueDate`, for the same reason.
- `UserSearch.GetAllUsers` never reports an error (`onError` is not called by the code), so none is modelled.
- `UserSearchService.checkUserExists` is not part of this model. It is a query with a boolean answer and no logic of its own.
- `saveCurrentUserToFirestore` is modelled by the document it writes (`UserSearch.SavedUserData`). The write itself is plain I/O.
- `TaskViewModel.getTaskById` only forwards to the repository (`TaskRepository.GetTaskById`) and has no member of its own.
- The budget screen and its adapter share one `ArrayList` in Java, and `updateBudget` edits a `Budget` object in that list in place. In the model each class has its own sequence, so aliasing between them is not captured.
- The avatar colour of the user selection dialog is not modelled (UI only).
- `DateUtils.DaysRemainingCountsWholeDays`: stated for differences below 2^31 days. Beyond that the 32-bit cast wraps, and `DaysRemaining` models the wrap.

## Findings

| source | as written | input that shows it | evidently intended | confidence | as-written member | corrected member |
|---|---|---|---|---|---|---|
| app/src/main/java/com/example/projectmanager/repositories/TaskRepository.java:160-175 | The in-memory comparator casts `createdAt` to `Date` inside a `try` whose `catch` returns 0. Firestore returns dates as `Timestamp`, so the cast fails on every pair of dated records, they all compare equal, and the stable sort keeps the server's order. The same comparator is repeated at lines 236-251, 288-303, 539-554, 586-601, 695-710 and 782-797. | Two stored tasks created at 1000 and 2000, listed older first: the sort leaves the older task first. | Newest first, with undated records last, reading `Date` and `Timestamp` alike. | not executed | TaskRepository.AsWrittenKeepsOlderFirst | TaskRepository.DateOrderOfSorted |
| app/src/main/java/com/example/projectmanager/activities/UserManagementActivity.java:99 | Users are read with `User.fromMap(document.getData())`, which sets the id only from an `id` field. The documents written at sign-in by `saveCurrentUserToFirestore` (services/UserSearchService.java:143-157) have no `id` field, so `user.getId()` is null. `getId().equals(...)` at lines 132 and 175 then throws. | A user document saved at sign-in, opened in the role dialog or toggled active. | The user carries its document id, so that only the administrator's own account is refused. | not executed | UserManagement.RegisteredUsersBreakGuards | UserManagement.RegisteredUsersKeepGuards |
| app/src/main/java/com/example/projectmanager/adapters/TaskAdapter.java:367-396 | The edit dialog builds a new `Task` and copies the "other fields", but not `attachmentUrl` and `attachmentName`. `updateTask` then writes the whole map with `set` (repositories/TaskRepository.java:374-381). | Editing the title of a task that has an attachment: the stored attachment becomes null. | Every field the dialog does not offer is kept, the attachment included. | not executed | TaskAdapter.EditDropsAttachment | TaskAdapter.EditKeepsOtherFields |
| app/src/main/java/com/example/projectmanager/activities/BudgetActivity.java:766-769 | The conversion keeps `createdAt` only when it is a `java.util.Date`. Budgets read from Firestore carry a `Timestamp`, so each gets the conversion instant, and the date order shows and sorts by load time. | Any stored budget with a creation date, converted at `now`: its creation date becomes `now`. | The stored creation date is kept, from a `Date` or a `Timestamp`. | not executed | BudgetActivity.ConvertAsWrittenLosesCreation | BudgetActivity.ConvertKeepsStoredBudget |
