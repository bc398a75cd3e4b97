/**
 * The budget screen's view-model (viewmodels/BudgetViewModel.java), built
 * like the task view-model: LiveData values and the pagination state are
 * fields, a repository call is the `BudgetQuery` or `BudgetWrite` a method
 * returns, and its answer arrives later as a call of a completion method.
 * The clock is a parameter.
 */
module BudgetViewModel {
  import opened Common
  import opened Firestore
  import Budgets

  /** The listing queries sent to the budget repository. */
  datatype BudgetQuery = AllBudgets | BudgetsPage(cursor: Option<Snapshot>)

  /** The writes sent to the budget repository. */
  datatype BudgetWrite =
    | AddBudget(budget: Budgets.Budget)
    | UpdateBudget(budget: Budgets.Budget)
    | ApproveBudget(budgetId: Option<string>)
    | RevokeBudget(budgetId: Option<string>)
    | DeleteBudget(budgetId: Option<string>)

  class BudgetViewModel {
    var budgets: Option<seq<Doc>>
    var errorMessage: Option<string>
    var isLoading: Option<bool>
    var hasMoreBudgets: Option<bool>
    /** `lastBudgetDocument`: the cursor for the next page. */
    var lastBudgetDocument: Option<Snapshot>
    var isPaginationMode: bool

    /** `new BudgetViewModel()`: no list yet, not loading, no more pages, no cursor, no pagination. */
    constructor()
      ensures budgets.None? && errorMessage.None? && isLoading == Some(false) && hasMoreBudgets == Some(false)
      ensures lastBudgetDocument.None? && !isPaginationMode
    {
      budgets, errorMessage, isLoading, hasMoreBudgets := None, None, Some(false), Some(false);
      lastBudgetDocument, isPaginationMode := None, false;
    }

    /** `loadBudgetsWithPagination()`: loading, and the page after the cursor is requested. */
    method LoadBudgetsWithPagination() returns (q: BudgetQuery)
      modifies this
      ensures q == BudgetsPage(old(lastBudgetDocument)) && isLoading == Some(true)
      ensures budgets == old(budgets) && errorMessage == old(errorMessage) && hasMoreBudgets == old(hasMoreBudgets)
      ensures lastBudgetDocument == old(lastBudgetDocument) && isPaginationMode == old(isPaginationMode)
    {
      isLoading := Some(true);
      q := BudgetsPage(lastBudgetDocument);
    }

    /** `enablePagination()`: pagination on, no more pages known, no cursor; the first page is requested. */
    method EnablePagination() returns (q: BudgetQuery)
      modifies this
      ensures isPaginationMode && hasMoreBudgets == Some(false) && lastBudgetDocument.None?
      ensures q == BudgetsPage(None) && isLoading == Some(true)
      ensures budgets == old(budgets) && errorMessage == old(errorMessage)
    {
      isPaginationMode := true;
      hasMoreBudgets := Some(false);
      lastBudgetDocument := None;
      q := LoadBudgetsWithPagination();
    }

    /** Whether `loadMoreBudgets` goes ahead: pagination on, "has more" not false, and a cursor. */
    predicate CanLoadMore()
      reads this
    {
      isPaginationMode && hasMoreBudgets != Some(false) && lastBudgetDocument.Some?
    }

    /** `loadMoreBudgets()`: nothing at all unless it can load more; otherwise the page after the cursor. */
    method LoadMoreBudgets() returns (q: Option<BudgetQuery>)
      modifies this
      ensures !old(CanLoadMore()) ==> q.None? && isLoading == old(isLoading)
      ensures old(CanLoadMore()) ==> q == Some(BudgetsPage(old(lastBudgetDocument))) && isLoading == Some(true)
      ensures budgets == old(budgets) && errorMessage == old(errorMessage) && hasMoreBudgets == old(hasMoreBudgets)
      ensures lastBudgetDocument == old(lastBudgetDocument) && isPaginationMode == old(isPaginationMode)
    {
      if !isPaginationMode || hasMoreBudgets == Some(false) || lastBudgetDocument.None? {
        return None;
      }
      isLoading := Some(true);
      q := Some(BudgetsPage(lastBudgetDocument));
    }

    /**
     * `handlePaginatedBudgetsLoaded(newBudgets, hasMore, lastDocument)`:
     * not loading; the list starts over when there was no cursor and the
     * new budgets are appended; "has more" and the cursor are the page's.
     */
    method OnPageLoaded(newBudgets: seq<Doc>, hasMore: bool, lastDocument: Option<Snapshot>)
      modifies this
      ensures isLoading == Some(false)
      ensures budgets == Some(ListAfterPage(old(budgets), old(lastBudgetDocument), newBudgets))
      ensures hasMoreBudgets == Some(hasMore) && lastBudgetDocument == lastDocument
      ensures errorMessage == old(errorMessage) && isPaginationMode == old(isPaginationMode)
    {
      isLoading := Some(false);
      var currentBudgets := if budgets.None? then [] else budgets.value;
      if lastBudgetDocument.None? {
        currentBudgets := [];
      }
      currentBudgets := currentBudgets + newBudgets;
      budgets := Some(currentBudgets);
      hasMoreBudgets := Some(hasMore);
      lastBudgetDocument := lastDocument;
    }

    /** Every `onError`: the error is shown and loading stops; the list and the pagination state stay. */
    method OnError(error: string)
      modifies this
      ensures isLoading == Some(false) && errorMessage == Some(error)
      ensures budgets == old(budgets) && hasMoreBudgets == old(hasMoreBudgets)
      ensures lastBudgetDocument == old(lastBudgetDocument) && isPaginationMode == old(isPaginationMode)
    {
      errorMessage := Some(error);
      isLoading := Some(false);
    }

    /** `loadBudgets()`: loading, and every budget is requested. */
    method LoadBudgets() returns (q: BudgetQuery)
      modifies this
      ensures q == AllBudgets && isLoading == Some(true)
      ensures budgets == old(budgets) && errorMessage == old(errorMessage) && hasMoreBudgets == old(hasMoreBudgets)
      ensures lastBudgetDocument == old(lastBudgetDocument) && isPaginationMode == old(isPaginationMode)
    {
      isLoading := Some(true);
      q := AllBudgets;
    }

    /** The `onBudgetsLoaded` of `loadBudgets`: the list is the one delivered, and loading stops. */
    method OnBudgetsLoaded(budgetList: seq<Doc>)
      modifies this
      ensures budgets == Some(budgetList) && isLoading == Some(false)
      ensures errorMessage == old(errorMessage) && hasMoreBudgets == old(hasMoreBudgets)
      ensures lastBudgetDocument == old(lastBudgetDocument) && isPaginationMode == old(isPaginationMode)
    {
      budgets := Some(budgetList);
      isLoading := Some(false);
    }

    /** The query a refresh sends: the first page in pagination mode, else every budget. */
    function RefreshQuery(): (q: BudgetQuery)
      reads this
      ensures q.BudgetsPage? <==> isPaginationMode
      ensures q.BudgetsPage? ==> q.cursor.None?
    {
      if isPaginationMode then BudgetsPage(None) else AllBudgets
    }

    /** `refreshBudgets()`: in pagination mode the cursor is dropped and the first page requested; else a full load. */
    method RefreshBudgets() returns (q: BudgetQuery)
      modifies this
      ensures q == RefreshQuery() && isLoading == Some(true)
      ensures isPaginationMode ==> lastBudgetDocument.None?
      ensures !isPaginationMode ==> lastBudgetDocument == old(lastBudgetDocument)
      ensures budgets == old(budgets) && errorMessage == old(errorMessage) && hasMoreBudgets == old(hasMoreBudgets)
      ensures isPaginationMode == old(isPaginationMode)
    {
      if isPaginationMode {
        lastBudgetDocument := None;
        q := LoadBudgetsWithPagination();
      } else {
        q := LoadBudgets();
      }
    }

    /**
     * `addBudget`, `updateBudget`, `approveBudget`, `revokeBudget` and
     * `deleteBudget`: loading, and the write is sent; `updateBudget` first
     * stamps the budget's update time with the clock.
     */
    method StartWrite(w: BudgetWrite, now: int) returns (sent: BudgetWrite)
      modifies this
      ensures !w.UpdateBudget? ==> sent == w
      ensures w.UpdateBudget? ==> sent == UpdateBudget(w.budget.(updatedAt := Some(now)))
      ensures isLoading == Some(true)
      ensures budgets == old(budgets) && errorMessage == old(errorMessage) && hasMoreBudgets == old(hasMoreBudgets)
      ensures lastBudgetDocument == old(lastBudgetDocument) && isPaginationMode == old(isPaginationMode)
    {
      isLoading := Some(true);
      if w.UpdateBudget? {
        sent := UpdateBudget(w.budget.(updatedAt := Some(now)));
      } else {
        sent := w;
      }
    }

    /**
     * The success listener of every write: loading stops and the list is
     * reloaded, the first page in pagination mode, everything otherwise
     * (both branches of the source end up as a refresh).
     */
    method OnWriteSucceeded() returns (q: BudgetQuery)
      modifies this
      ensures q == RefreshQuery() && isLoading == Some(true)
      ensures isPaginationMode ==> lastBudgetDocument.None?
      ensures !isPaginationMode ==> lastBudgetDocument == old(lastBudgetDocument)
      ensures budgets == old(budgets) && errorMessage == old(errorMessage) && hasMoreBudgets == old(hasMoreBudgets)
      ensures isPaginationMode == old(isPaginationMode)
    {
      isLoading := Some(false);
      if isPaginationMode {
        q := RefreshBudgets();
      } else {
        q := LoadBudgets();
      }
    }
  }

  /**
   * After a successful write in pagination mode the reloaded first page
   * replaces the list, so the screen shows exactly that page.
   */
  method WriteThenFirstPage(vm: BudgetViewModel, page: seq<Doc>, hasMore: bool, cursor: Option<Snapshot>)
    returns (q: BudgetQuery)
    requires vm.isPaginationMode
    modifies vm
    ensures q == BudgetsPage(None)
    ensures vm.budgets == Some(page) && vm.hasMoreBudgets == Some(hasMore) && vm.lastBudgetDocument == cursor
  {
    q := vm.OnWriteSucceeded();
    vm.OnPageLoaded(page, hasMore, cursor);
  }
}
