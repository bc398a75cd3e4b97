/**
 * The budget repository (repositories/BudgetRepository.java) over an
 * abstract "budgets" collection. A query's answer, or its failure, is a
 * parameter, and so is the signed-in user's uid; a write's outcome is decided
 * by the `Firestore.Collection` it goes to, with a network failure as the
 * parameter `failure`. The clock is `now`. Every operation reports a message
 * to its listener: `Ok` carries the success message, `Err` the error.
 */
module BudgetRepository {
  import opened Common
  import opened Firestore
  import Budgets

  const InvalidIdMessage := "ID ngân sách không hợp lệ"
  const LoadAllError := "Lỗi khi tải danh sách ngân sách: "
  const LoadUserError := "Lỗi khi tải ngân sách của người dùng: "

  /* ---------- reads ---------- */

  /**
   * `getAllBudgets` and `getBudgetsForUser`: every record the server returns
   * (newest first, for the user's only with `forUser`), with its id; a failed
   * query reports its message behind the operation's prefix.
   */
  method GetBudgets(forUser: bool, fetched: Result<seq<Snapshot>>) returns (r: Result<seq<Doc>>)
    ensures fetched.Ok? ==> r == Ok(WithIds(fetched.value))
    ensures fetched.Err? && !forUser ==> r == Err(LoadAllError + fetched.error)
    ensures fetched.Err? && forUser ==> r == Err(LoadUserError + fetched.error)
  {
    if fetched.Err? {
      return Err((if forUser then LoadUserError else LoadAllError) + fetched.error);
    }
    var records := CollectRecords(fetched.value);
    r := Ok(records);
  }

  /**
   * `getBudgetsWithPagination` and `getBudgetsForUserWithPagination`: the
   * server's page after the cursor, as records with ids, with "has more"
   * exactly when the page is full and the last record as the next cursor.
   */
  method GetBudgetsWithPagination(forUser: bool, fetched: Result<seq<Snapshot>>) returns (r: PageResult)
    ensures fetched.Ok? ==> r == Page(WithIds(fetched.value), |fetched.value| == PageSize, LastOf(fetched.value))
    ensures fetched.Err? && !forUser ==> r == PageError(LoadAllError + fetched.error)
    ensures fetched.Err? && forUser ==> r == PageError(LoadUserError + fetched.error)
  {
    if fetched.Err? {
      return PageError((if forUser then LoadUserError else LoadAllError) + fetched.error);
    }
    r := CollectPage(fetched.value);
  }

  /** A short page is the last one: no more to load, and the cursor is its last record (none for an empty page). */
  lemma ShortPageIsLast(snaps: seq<Snapshot>)
    requires |snaps| < PageSize
    ensures var r := Page(WithIds(snaps), |snaps| == PageSize, LastOf(snaps));
            !r.hasMore && |r.records| == |snaps| && (r.cursor.None? <==> snaps == [])
  {
  }

  /* ---------- writes ---------- */

  /** The id guard of every write by id: a non-null, non-empty id. */
  predicate ValidId(id: Option<string>)
  {
    id.Some? && id.value != ""
  }

  /**
   * The budget `addBudget` writes: owned by the signed-in user when there is
   * one, created now unless it already has a creation date, updated now.
   */
  function Stamped(b: Budgets.Budget, currentUid: Option<string>, now: int): (r: Budgets.Budget)
    ensures currentUid.Some? ==> r.userId == currentUid
    ensures currentUid.None? ==> r.userId == b.userId
    ensures r.createdAt == Some(b.createdAt.GetOr(now)) && r.updatedAt == Some(now)
    ensures r.(userId := b.userId, createdAt := b.createdAt, updatedAt := b.updatedAt) == b
  {
    b.(userId := if currentUid.Some? then currentUid else b.userId,
       createdAt := Some(b.createdAt.GetOr(now)), updatedAt := Some(now))
  }

  /**
   * `addBudget(budget, listener)`: stamps the budget (the caller's object is
   * updated too, hence the returned budget) and adds its map as a new
   * document under the id the server picks.
   */
  method AddBudget(db: Collection, b: Budgets.Budget, currentUid: Option<string>, now: int, newId: string,
                   failure: Option<string>) returns (stamped: Budgets.Budget, r: Result<string>)
    requires db.Valid() && newId !in db.docs
    modifies db
    ensures db.Valid()
    ensures stamped == Stamped(b, currentUid, now)
    ensures failure.Some? ==> r == Err("Lỗi khi thêm ngân sách: " + failure.value) && db.docs == old(db.docs)
    ensures failure.None? ==> (r == Ok("Thêm ngân sách thành công")
                               && db.docs == old(db.docs)[newId := Stored(Budgets.ToMap(stamped))])
  {
    stamped := Stamped(b, currentUid, now);
    var s := db.Add(newId, Budgets.ToMap(stamped), failure);
    if s.Failure? {
      return stamped, Err("Lỗi khi thêm ngân sách: " + s.message);
    }
    r := Ok("Thêm ngân sách thành công");
  }

  /**
   * A budget added by `addBudget` and listed again (the listing puts the
   * document id under "id") reads back as the stamped budget with the new id.
   */
  lemma {:induction false} AddedBudgetReadsBack(b: Budgets.Budget, currentUid: Option<string>, now: int,
                                                newId: string, readAt: int)
    ensures Budgets.FromMap(Stored(Budgets.ToMap(Stamped(b, currentUid, now)))["id" := VStr(newId)], readAt)
         == Stamped(b, currentUid, now).(id := Some(newId))
  {
    var s := Stamped(b, currentUid, now);
    var d := Budgets.ToMap(s);
    var m := Stored(d)["id" := VStr(newId)];
    StoredReadsTheSame(d, "title");
    StoredReadsTheSame(d, "description");
    StoredReadsTheSame(d, "amount");
    StoredReadsTheSame(d, "category");
    StoredReadsTheSame(d, "userId");
    StoredReadsTheSame(d, "approved");
    StoredReadsTheSame(d, "createdAt");
    StoredReadsTheSame(d, "updatedAt");
    Budgets.FromMapToMap(s, readAt);
    assert StrField(m, "id") == Some(newId);
  }

  /**
   * `updateBudget(budget, listener)`: with a usable id, the budget is
   * stamped with the update time and its map replaces the document.
   */
  method UpdateBudget(db: Collection, b: Budgets.Budget, now: int, failure: Option<string>)
    returns (updated: Budgets.Budget, r: Result<string>)
    requires db.Valid()
    modifies db
    ensures db.Valid()
    ensures !ValidId(b.id) ==> updated == b && r == Err(InvalidIdMessage) && db.docs == old(db.docs)
    ensures ValidId(b.id) ==> updated == b.(updatedAt := Some(now))
    ensures ValidId(b.id) && failure.Some? ==> r == Err("Lỗi khi cập nhật ngân sách: " + failure.value) && db.docs == old(db.docs)
    ensures ValidId(b.id) && failure.None? ==> (r == Ok("Cập nhật ngân sách thành công")
                                              && db.docs == old(db.docs)[b.id.value := Stored(Budgets.ToMap(updated))])
  {
    if !ValidId(b.id) {
      return b, Err(InvalidIdMessage);
    }
    updated := b.(updatedAt := Some(now));
    var s := db.Set(b.id.value, Budgets.ToMap(updated), failure);
    if s.Failure? {
      return updated, Err("Lỗi khi cập nhật ngân sách: " + s.message);
    }
    r := Ok("Cập nhật ngân sách thành công");
  }

  /** The fields `approveBudget` (true) and `revokeBudget` (false) write. */
  function ApprovalFields(approved: bool, now: int): (d: Doc)
    ensures d.Keys == {"approved", "updatedAt"}
  {
    map["approved" := VBool(approved), "updatedAt" := VDate(now)]
  }

  /**
   * `approveBudget(budgetId, listener)` (`approved`) and
   * `revokeBudget(budgetId, listener)` (`!approved`): after the id guard,
   * the approval flag and the update time are merged into the document; a
   * missing document is reported as the server's NOT_FOUND.
   */
  method SetApproval(db: Collection, budgetId: Option<string>, approved: bool, now: int, failure: Option<string>)
    returns (r: Result<string>)
    requires db.Valid()
    modifies db
    ensures db.Valid()
    ensures !ValidId(budgetId) ==> r == Err(InvalidIdMessage) && db.docs == old(db.docs)
    ensures r.Err? ==> db.docs == old(db.docs)
    ensures ValidId(budgetId) && failure.Some? ==> r == Err(ApprovalError(approved) + failure.value)
    ensures ValidId(budgetId) && failure.None? && budgetId.value !in old(db.docs) ==>
              r == Err(ApprovalError(approved) + NotFound)
    ensures ValidId(budgetId) && failure.None? && budgetId.value in old(db.docs) ==>
              (r == Ok(ApprovalSuccess(approved))
              && db.docs == old(db.docs)[budgetId.value := old(db.docs)[budgetId.value] + Stored(ApprovalFields(approved, now))])
  {
    if !ValidId(budgetId) {
      return Err(InvalidIdMessage);
    }
    var s := db.Update(budgetId.value, ApprovalFields(approved, now), failure);
    if s.Failure? {
      return Err(ApprovalError(approved) + s.message);
    }
    r := Ok(ApprovalSuccess(approved));
  }

  function ApprovalSuccess(approved: bool): string
  {
    if approved then "Duyệt ngân sách thành công" else "Hủy duyệt ngân sách thành công"
  }

  function ApprovalError(approved: bool): string
  {
    if approved then "Lỗi khi duyệt ngân sách: " else "Lỗi khi hủy duyệt ngân sách: "
  }

  /**
   * Approving or revoking a budget the app wrote changes, as the app reads
   * it back, exactly the approval flag and the update time.
   */
  lemma {:induction false} ApprovalReadsBack(b: Budgets.Budget, approved: bool, now: int, readAt: int)
    requires b.createdAt.Some?
    ensures Budgets.FromMap(Stored(Budgets.ToMap(b)) + Stored(ApprovalFields(approved, now)), readAt)
         == b.(approved := approved, updatedAt := Some(now))
  {
    var b' := b.(approved := approved, updatedAt := Some(now));
    ApprovalFieldsAreToMap(b, approved, now);
    StoredMerge(Budgets.ToMap(b), ApprovalFields(approved, now));
    FromMapStored(Budgets.ToMap(b'), readAt);
    Budgets.FromMapToMap(b', readAt);
  }

  /** The approval fields over the map of a budget are the map of the budget with the new flag and update time. */
  lemma ApprovalFieldsAreToMap(b: Budgets.Budget, approved: bool, now: int)
    ensures Budgets.ToMap(b) + ApprovalFields(approved, now) == Budgets.ToMap(b.(approved := approved, updatedAt := Some(now)))
  {
    var f, b' := ApprovalFields(approved, now), b.(approved := approved, updatedAt := Some(now));
    assert forall k :: k !in f ==> Budgets.FieldValue(b, k) == Budgets.FieldValue(b', k);
    var merged, written := Budgets.ToMap(b) + f, Budgets.ToMap(b');
    forall k | k in merged
      ensures k in written && merged[k] == written[k]
    {
    }
    assert forall k :: k in written ==> k in merged;
  }

  /** Reading a budget document back gives the same budget whether its dates are Dates or Timestamps. */
  lemma FromMapStored(d: Doc, now: int)
    ensures Budgets.FromMap(Stored(d), now) == Budgets.FromMap(d, now)
  {
    forall k
      ensures StrField(Stored(d), k) == StrField(d, k) && DateField(Stored(d), k) == DateField(d, k)
      ensures k in d && !d[k].VDate? ==> Stored(d)[k] == d[k]
    {
      StoredReadsTheSame(d, k);
    }
  }

  /** Approving and then revoking (or the reverse) leaves the flag as the last call set it. */
  lemma LastApprovalWins(doc: Doc, first: bool, second: bool, t1: int, t2: int)
    ensures doc + Stored(ApprovalFields(first, t1)) + Stored(ApprovalFields(second, t2))
         == doc + Stored(ApprovalFields(second, t2))
  {
    var a, b := Stored(ApprovalFields(first, t1)), Stored(ApprovalFields(second, t2));
    assert a.Keys == b.Keys;
  }

  /** `deleteBudget(budgetId, listener)`. */
  method DeleteBudget(db: Collection, budgetId: Option<string>, failure: Option<string>) returns (r: Result<string>)
    requires db.Valid()
    modifies db
    ensures db.Valid()
    ensures !ValidId(budgetId) ==> r == Err(InvalidIdMessage) && db.docs == old(db.docs)
    ensures ValidId(budgetId) && failure.Some? ==> r == Err("Lỗi khi xóa ngân sách: " + failure.value) && db.docs == old(db.docs)
    ensures ValidId(budgetId) && failure.None? ==> r == Ok("Xóa ngân sách thành công") && db.docs == old(db.docs) - {budgetId.value}
  {
    if !ValidId(budgetId) {
      return Err(InvalidIdMessage);
    }
    var s := db.Delete(budgetId.value, failure);
    if s.Failure? {
      return Err("Lỗi khi xóa ngân sách: " + s.message);
    }
    r := Ok("Xóa ngân sách thành công");
  }
}
