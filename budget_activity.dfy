/**
 * The budget screen (activities/BudgetActivity.java): the conversion of the
 * view-model's documents into budgets, the sorted list it shows, the form
 * that adds a budget or edits the one being edited, the category choices
 * and the chart's category columns. The list and the id of the budget
 * being edited are the screen's fields; the clock is a parameter; the
 * amount typed is given already parsed (`None` when it is not a number);
 * what the screen hands to the view-model is returned as a `BudgetWrite`.
 */
module BudgetActivity {
  import opened Common
  import opened Firestore
  import Budgets
  import BudgetAdapter
  import BudgetSorter
  import StableSort
  import BudgetViewModel

  /** `getSelectedCategory()`: the three category names to their keys, any other text to "other". */
  function SelectedCategory(categoryText: string): (k: string)
    ensures k in BudgetAdapter.CategoryKeys
    ensures forall i :: 0 <= i < 3 && categoryText == BudgetAdapter.CategoryNames[i] ==> k == BudgetAdapter.CategoryKeys[i]
    ensures categoryText != "Nhân sự" && categoryText != "Thiết bị" && categoryText != "Vật liệu" ==> k == BudgetAdapter.Other
  {
    if categoryText == "Nhân sự" then BudgetAdapter.HumanResource
    else if categoryText == "Thiết bị" then BudgetAdapter.Equipment
    else if categoryText == "Vật liệu" then BudgetAdapter.Material
    else BudgetAdapter.Other
  }

  /**
   * The category a budget is saved with and the name it is shown under
   * lead back to each other, for each of the four keys and each of the
   * four names.
   */
  lemma CategoryRoundTrip(i: int)
    requires 0 <= i < |BudgetAdapter.CategoryKeys|
    ensures SelectedCategory(BudgetAdapter.CategoryDisplayName(Some(BudgetAdapter.CategoryKeys[i]))) == BudgetAdapter.CategoryKeys[i]
    ensures BudgetAdapter.CategoryDisplayName(Some(SelectedCategory(BudgetAdapter.CategoryNames[i]))) == BudgetAdapter.CategoryNames[i]
  {
  }

  /** The labels under the status chart's four columns. */
  const ChartLabels: seq<string> := ["Nhân sự", "Thiết bị", "Vật liệu", "Khác"]

  /** The column of the status chart a budget adds to; a null category throws (the chart is then not drawn). */
  function ChartIndex(category: Option<string>): (r: Result<int>)
    ensures r.Err? <==> category.None?
    ensures r.Ok? ==> 0 <= r.value < |ChartLabels|
  {
    if category.None? then Err("NullPointerException")
    else if category.value == BudgetAdapter.HumanResource then Ok(0)
    else if category.value == BudgetAdapter.Equipment then Ok(1)
    else if category.value == BudgetAdapter.Material then Ok(2)
    else Ok(3)
  }

  /** A budget is counted under the column labelled with the name its row shows. */
  lemma ChartColumnMatchesRow(category: string)
    ensures ChartLabels[ChartIndex(Some(category)).value] == BudgetAdapter.CategoryDisplayName(Some(category))
  {
  }

  /**
   * One map of `convertMapListToBudgetList` as written: `new Budget()` at
   * `now`, the strings read as they are, the amount only from a number, the
   * approval only from a Boolean, and the creation date only from a
   * `java.util.Date`; a Timestamp is ignored and the update date never read.
   */
  function ConvertAsWritten(m: Doc, now: int): (b: Budgets.Budget)
    ensures b.id == StrField(m, "id") && b.title == StrField(m, "title") && b.category == StrField(m, "category")
    ensures b.updatedAt == Some(now)
    ensures "createdAt" in m && m["createdAt"].VDate? ==> b.createdAt == Some(m["createdAt"].millis)
    ensures !("createdAt" in m && m["createdAt"].VDate?) ==> b.createdAt == Some(now)
  {
    Budgets.FromMap(m, now).(
      createdAt := if "createdAt" in m && m["createdAt"].VDate? then Some(m["createdAt"].millis) else Some(now),
      updatedAt := Some(now))
  }

  /**
   * The corrected conversion of Finding 4: one map converted with its
   * creation date read from a Date or a Timestamp alike.
   */
  function Convert(m: Doc, now: int): (b: Budgets.Budget)
    ensures b.createdAt == Some(DateField(m, "createdAt").GetOr(now))
    ensures b == ConvertAsWritten(m, now).(createdAt := b.createdAt)
  {
    ConvertAsWritten(m, now).(createdAt := Some(DateField(m, "createdAt").GetOr(now)))
  }

  /**
   * As written, a budget read back from Firestore (whose dates come back as
   * Timestamps) loses its creation date: the screen shows and sorts it by
   * the instant of conversion.
   */
  lemma ConvertAsWrittenLosesCreation(b: Budgets.Budget, now: int)
    requires b.createdAt.Some?
    ensures ConvertAsWritten(Stored(Budgets.ToMap(b)), now).createdAt == Some(now)
  {
    StoredReadsTheSame(Budgets.ToMap(b), "createdAt");
  }

  /**
   * The corrected conversion of a stored budget keeps the creation date and
   * every field the screen shows: title, amount, description, category,
   * approval and id.
   */
  lemma ConvertKeepsStoredBudget(b: Budgets.Budget, now: int)
    requires b.createdAt.Some?
    ensures var c := Convert(Stored(Budgets.ToMap(b)), now);
            c == b.(updatedAt := Some(now))
  {
    var d := Budgets.ToMap(b);
    StoredReadsTheSame(d, "createdAt");
    StoredReadsTheSame(d, "id");
    StoredReadsTheSame(d, "title");
    StoredReadsTheSame(d, "description");
    StoredReadsTheSame(d, "category");
    StoredReadsTheSame(d, "userId");
    StoredReadsTheSame(d, "amount");
    StoredReadsTheSame(d, "approved");
    assert d["amount"] == VNum(b.amount);
    assert d["approved"] == VBool(b.approved);
    assert d["createdAt"] == DateValue(b.createdAt);
  }

  /**
   * `convertMapListToBudgetList(mapList)`: one budget per map, in the same
   * order, each converted as written; maps read from the server, which hold
   * no `Date`, all get the conversion time as their creation date.
   */
  method ConvertMapListToBudgetList(maps: seq<Doc>, now: int) returns (budgets: seq<Budgets.Budget>)
    ensures |budgets| == |maps|
    ensures forall i :: 0 <= i < |maps| ==> budgets[i] == ConvertAsWritten(maps[i], now)
    ensures BudgetSorter.AllDated(budgets)
    ensures (forall i :: 0 <= i < |maps| ==> NoDates(maps[i])) ==> forall i :: 0 <= i < |budgets| ==> budgets[i].createdAt == Some(now)
  {
    budgets := [];
    for i := 0 to |maps|
      invariant |budgets| == i
      invariant forall j :: 0 <= j < i ==> budgets[j] == ConvertAsWritten(maps[j], now)
    {
      budgets := budgets + [ConvertAsWritten(maps[i], now)];
    }
  }

  /**
   * Consequence of Finding 4: budgets read from the server all carry the
   * same creation date, so the default "newest first" sort leaves them in
   * the order the server sent them.
   */
  lemma DefaultSortKeepsServerOrder(maps: seq<Doc>, now: int)
    requires forall i :: 0 <= i < |maps| ==> NoDates(maps[i])
    ensures var converted := seq(|maps|, i requires 0 <= i < |maps| => ConvertAsWritten(maps[i], now));
            StableSort.Sort(converted, BudgetSorter.SortKey(BudgetSorter.Default)) == converted
  {
    var converted := seq(|maps|, i requires 0 <= i < |maps| => ConvertAsWritten(maps[i], now));
    StableSort.SortOfEqualKeys(converted, BudgetSorter.SortKey(BudgetSorter.Default), StableSort.Key(-now, 0));
  }

  /** The form's checks, shared by adding and editing: the trimmed title, then the amount text, then its value. */
  function CheckForm(title: string, amountText: string, parsedAmount: Option<int>): (r: Result<int>)
    ensures Trim(title) == "" ==> r == Err("Vui lòng nhập tên chi phí")
    ensures Trim(title) != "" && Trim(amountText) == "" ==> r == Err("Vui lòng nhập số tiền")
    ensures r.Ok? ==> Trim(title) != "" && Trim(amountText) != "" && parsedAmount == Some(r.value) && r.value > 0
    ensures Trim(title) != "" && Trim(amountText) != "" && parsedAmount.Some? && parsedAmount.value > 0 ==>
              r == Ok(parsedAmount.value)
  {
    if Trim(title) == "" then Err("Vui lòng nhập tên chi phí")
    else if Trim(amountText) == "" then Err("Vui lòng nhập số tiền")
    else if parsedAmount.None? then Err("Số tiền không hợp lệ")
    else if parsedAmount.value <= 0 then Err("Số tiền phải lớn hơn 0")
    else Ok(parsedAmount.value)
  }

  /**
   * `addNewBudget()`: a form that passes the checks becomes an unapproved
   * budget with no owner yet, in the chosen category, sent to be added.
   */
  function AddNewBudget(title: string, amountText: string, parsedAmount: Option<int>, description: string,
                        categoryText: string, now: int): (r: Result<BudgetViewModel.BudgetWrite>)
    ensures r.Err? <==> CheckForm(title, amountText, parsedAmount).Err?
    ensures r.Ok? ==> r.value.AddBudget?
                      && r.value.budget.title == Some(Trim(title))
                      && r.value.budget.amount == CheckForm(title, amountText, parsedAmount).value
                      && r.value.budget.category == Some(SelectedCategory(categoryText))
                      && !r.value.budget.approved && r.value.budget.userId.None? && r.value.budget.id.None?
  {
    match CheckForm(title, amountText, parsedAmount)
    case Err(e) => Err(e)
    case Ok(amount) =>
      Ok(BudgetViewModel.AddBudget(Budgets.MakeBudget(Some(Trim(title)), amount, Some(Trim(description)),
                                                      Some(SelectedCategory(categoryText)), None, false, now)))
  }

  /**
   * The first budget of the list whose id is the one edited; a budget
   * without an id met first throws.
   */
  function FindEdited(list: seq<Budgets.Budget>, id: string): (r: Result<Option<nat>>)
    ensures r.Ok? && r.value.Some? ==> r.value.value < |list| && list[r.value.value].id == Some(id)
    ensures r.Ok? && r.value.Some? ==> forall j :: 0 <= j < r.value.value ==> list[j].id.Some? && list[j].id != Some(id)
    ensures r == Ok(None) ==> forall j :: 0 <= j < |list| ==> list[j].id != Some(id)
  {
    if list == [] then Ok(None)
    else if list[0].id.None? then Err("NullPointerException")
    else if list[0].id.value == id then Ok(Some(0))
    else match FindEdited(list[1..], id)
      case Err(e) => Err(e)
      case Ok(None) => Ok(None)
      case Ok(Some(k)) => Ok(Some(k + 1))
  }

  /**
   * The outcome of saving the form while the budget `id` is edited, from
   * the shown `list` to `list'` and `id'`: the form's checks first; then the
   * caught exception when a budget without an id comes before the edited
   * one; nothing when no budget has the id; otherwise the found budget takes
   * the form's fields, is sent to be updated, and the form goes back to
   * adding. Only a sent update changes the list or the form.
   */
  predicate EditSaved(list: seq<Budgets.Budget>, id: string, title: string, amountText: string, parsedAmount: Option<int>,
                      description: string, categoryText: string, o: FormOutcome,
                      list': seq<Budgets.Budget>, id': Option<string>)
  {
    && (CheckForm(title, amountText, parsedAmount).Err? ==> o == Rejected(CheckForm(title, amountText, parsedAmount).error))
    && (CheckForm(title, amountText, parsedAmount).Ok? ==>
          && (FindEdited(list, id).Err? <==> o == Failed)
          && (FindEdited(list, id) == Ok(None) ==> o == Unchanged)
          && (FindEdited(list, id).Ok? && FindEdited(list, id).value.Some? ==>
                var k := FindEdited(list, id).value.value;
                var edited := list[k].(title := Some(Trim(title)), amount := CheckForm(title, amountText, parsedAmount).value,
                                       description := Some(Trim(description)), category := Some(SelectedCategory(categoryText)));
                o == Sent(BudgetViewModel.UpdateBudget(edited)) && list' == list[k := edited] && id'.None?))
    && (!o.Sent? ==> list' == list && id' == Some(id))
  }

  /** What pressing the add/update button leads to. */
  datatype FormOutcome =
    | Rejected(message: string)
    | Sent(write: BudgetViewModel.BudgetWrite)
    | Unchanged
    | Failed

  class BudgetScreen {
    /** `budgetList`: the budgets shown, sorted. */
    var budgetList: seq<Budgets.Budget>
    /** `editingBudgetId`: the budget the form edits, null while adding. */
    var editingBudgetId: Option<string>
    var isPaginationEnabled: bool

    constructor()
      ensures budgetList == [] && editingBudgetId.None? && !isPaginationEnabled
    {
      budgetList, editingBudgetId, isPaginationEnabled := [], None, false;
    }

    /**
     * The observer of the view-model's list: the documents are converted
     * as written, replace the shown budgets, and are sorted by the option
     * chosen in the sort menu.
     */
    method OnBudgetsChanged(docs: seq<Doc>, sortText: string, now: int)
      modifies this
      ensures var option := BudgetSorter.SortOptionFromString(sortText);
              var converted := seq(|docs|, i requires 0 <= i < |docs| => ConvertAsWritten(docs[i], now));
              budgetList == StableSort.Sort(converted, BudgetSorter.SortKey(option))
      ensures |budgetList| == |docs|
      ensures editingBudgetId == old(editingBudgetId) && isPaginationEnabled == old(isPaginationEnabled)
    {
      var converted := ConvertMapListToBudgetList(docs, now);
      assert converted == seq(|docs|, i requires 0 <= i < |docs| => ConvertAsWritten(docs[i], now));
      var a := new Budgets.Budget[|converted|](i requires 0 <= i < |converted| => converted[i]);
      assert a[..] == converted;
      BudgetSorter.SortBudgets(a, BudgetSorter.SortOptionFromString(sortText));
      budgetList := a[..];
    }

    /** `editBudget(budget)`: the form now edits that budget. */
    method EditBudget(b: Budgets.Budget)
      modifies this
      ensures editingBudgetId == b.id && budgetList == old(budgetList) && isPaginationEnabled == old(isPaginationEnabled)
    {
      editingBudgetId := b.id;
    }

    /**
     * `updateBudget()`: nothing while adding; the form's checks as for a
     * new budget; then the budget being edited takes the form's title,
     * amount, description and category, is sent to be updated, and the form
     * goes back to adding. With no budget of that id, nothing changes and
     * the form keeps editing; a budget without an id met first throws, and
     * the exception is caught (`Failed`).
     */
    method UpdateBudget(title: string, amountText: string, parsedAmount: Option<int>, description: string,
                        categoryText: string) returns (o: FormOutcome)
      modifies this
      ensures old(editingBudgetId).None? ==> o == Unchanged && budgetList == old(budgetList) && editingBudgetId.None?
      ensures old(editingBudgetId).Some? && CheckForm(title, amountText, parsedAmount).Err? ==>
                o == Rejected(CheckForm(title, amountText, parsedAmount).error)
      ensures o.Sent? ==>
                old(editingBudgetId).Some? && FindEdited(old(budgetList), old(editingBudgetId).value).Ok?
                && FindEdited(old(budgetList), old(editingBudgetId).value).value.Some? &&
                var k := FindEdited(old(budgetList), old(editingBudgetId).value).value.value;
                var edited := old(budgetList)[k].(title := Some(Trim(title)), amount := CheckForm(title, amountText, parsedAmount).value,
                                                 description := Some(Trim(description)), category := Some(SelectedCategory(categoryText)));
                o.write == BudgetViewModel.UpdateBudget(edited)
                && budgetList == old(budgetList)[k := edited] && editingBudgetId.None?
      ensures !o.Sent? ==> budgetList == old(budgetList) && editingBudgetId == old(editingBudgetId)
      ensures old(editingBudgetId).Some? && CheckForm(title, amountText, parsedAmount).Ok? ==>
                (o.Sent? <==> FindEdited(old(budgetList), old(editingBudgetId).value).Ok?
                              && FindEdited(old(budgetList), old(editingBudgetId).value).value.Some?)
      ensures old(editingBudgetId).Some? ==>
                EditSaved(old(budgetList), old(editingBudgetId).value, title, amountText, parsedAmount, description, categoryText,
                          o, budgetList, editingBudgetId)
      ensures isPaginationEnabled == old(isPaginationEnabled)
    {
      if editingBudgetId.None? {
        return Unchanged;
      }
      var checked := CheckForm(title, amountText, parsedAmount);
      if checked.Err? {
        return Rejected(checked.error);
      }
      var found := FindEditedIndex(budgetList, editingBudgetId.value);
      if found.Err? {
        return Failed;
      }
      if found.value.None? {
        return Unchanged;
      }
      var k := found.value.value;
      var edited := budgetList[k].(title := Some(Trim(title)), amount := checked.value,
                                   description := Some(Trim(description)), category := Some(SelectedCategory(categoryText)));
      budgetList := budgetList[k := edited];
      editingBudgetId := None;
      o := Sent(BudgetViewModel.UpdateBudget(edited));
    }

    /** The add/update button: an update while a budget is being edited, else a new budget. */
    method OnSaveClicked(title: string, amountText: string, parsedAmount: Option<int>, description: string,
                         categoryText: string, now: int) returns (o: FormOutcome)
      modifies this
      ensures old(editingBudgetId).None? ==>
                var r := AddNewBudget(title, amountText, parsedAmount, description, categoryText, now);
                (r.Err? ==> o == Rejected(r.error)) && (r.Ok? ==> o == Sent(r.value))
                && budgetList == old(budgetList) && editingBudgetId.None?
      ensures old(editingBudgetId).Some? ==>
                EditSaved(old(budgetList), old(editingBudgetId).value, title, amountText, parsedAmount, description, categoryText,
                          o, budgetList, editingBudgetId)
      ensures old(editingBudgetId).Some? ==> (o.Sent? ==> o.write.UpdateBudget?)
      ensures isPaginationEnabled == old(isPaginationEnabled)
    {
      if editingBudgetId.Some? {
        o := UpdateBudget(title, amountText, parsedAmount, description, categoryText);
      } else {
        var r := AddNewBudget(title, amountText, parsedAmount, description, categoryText, now);
        o := if r.Err? then Rejected(r.error) else Sent(r.value);
      }
    }
  }

  /** The search loop of `updateBudget`: the first budget with the edited id; a budget without an id throws. */
  method FindEditedIndex(list: seq<Budgets.Budget>, id: string) returns (r: Result<Option<nat>>)
    ensures r == FindEdited(list, id)
  {
    var i := 0;
    while i < |list|
      invariant 0 <= i <= |list|
      invariant FindEdited(list, id) == Shift(FindEdited(list[i..], id), i)
    {
      FindEditedStep(list, id, i);
      if list[i].id.None? {
        return Err("NullPointerException");
      }
      if list[i].id.value == id {
        return Ok(Some(i));
      }
      i := i + 1;
    }
    assert list[i..] == [];
    r := Ok(None);
  }

  /** A search result found in a suffix starting at `i`, as a position in the whole list. */
  function Shift(r: Result<Option<nat>>, i: nat): Result<Option<nat>>
  {
    match r
    case Err(e) => Err(e)
    case Ok(None) => Ok(None)
    case Ok(Some(k)) => Ok(Some(k + i))
  }

  /** One step of the search from position `i`. */
  lemma FindEditedStep(list: seq<Budgets.Budget>, id: string, i: nat)
    requires i < |list|
    ensures list[i].id.None? ==> FindEdited(list[i..], id).Err?
    ensures list[i].id == Some(id) ==> FindEdited(list[i..], id) == Ok(Some(0))
    ensures list[i].id.Some? && list[i].id != Some(id) ==>
              Shift(FindEdited(list[i..], id), i) == Shift(FindEdited(list[i + 1..], id), i + 1)
  {
    assert list[i..][0] == list[i];
    assert list[i..][1..] == list[i + 1..];
  }
}
