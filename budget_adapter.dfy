/**
 * The budget list's adapter (adapters/BudgetAdapter.java): the list it
 * shows, which may be null, its bounds-checked edits, and the category name
 * and amount badge of a row. The list is a field; the list object the
 * adapter shares with its screen is not modelled as shared.
 */
module BudgetAdapter {
  import opened Common
  import Budgets

  /** The list after inserting `b` at `pos`. */
  function Inserted(s: seq<Budgets.Budget>, pos: int, b: Budgets.Budget): (r: seq<Budgets.Budget>)
    requires 0 <= pos <= |s|
    ensures |r| == |s| + 1 && r[pos] == b
    ensures forall i :: 0 <= i < pos ==> r[i] == s[i]
    ensures forall i :: pos < i < |r| ==> r[i] == s[i - 1]
  {
    s[..pos] + [b] + s[pos..]
  }

  /** The list after removing the element at `pos`. */
  function Removed(s: seq<Budgets.Budget>, pos: int): (r: seq<Budgets.Budget>)
    requires 0 <= pos < |s|
    ensures |r| == |s| - 1
    ensures forall i :: 0 <= i < pos ==> r[i] == s[i]
    ensures forall i :: pos <= i < |r| ==> r[i] == s[i + 1]
  {
    s[..pos] + s[pos + 1..]
  }

  /** Removing what was just inserted gives the list back, and so does re-inserting what was just removed. */
  lemma InsertRemoveInverse(s: seq<Budgets.Budget>, pos: int, b: Budgets.Budget)
    requires 0 <= pos <= |s|
    ensures Removed(Inserted(s, pos, b), pos) == s
    ensures pos < |s| ==> Inserted(Removed(s, pos), pos, s[pos]) == s
  {
    assert Removed(Inserted(s, pos, b), pos) == s[..pos] + s[pos..];
    assert s[..pos] + s[pos..] == s;
    if pos < |s| {
      assert Inserted(Removed(s, pos), pos, s[pos]) == s[..pos] + [s[pos]] + s[pos + 1..];
      assert s[pos..] == [s[pos]] + s[pos + 1..];
    }
  }

  class BudgetListAdapter {
    /** `budgetList`, null when the screen handed none. */
    var budgetList: Option<seq<Budgets.Budget>>

    /** `new BudgetAdapter(list, listener)`. */
    constructor(list: Option<seq<Budgets.Budget>>)
      ensures budgetList == list
    {
      budgetList := list;
    }

    /** `getItemCount()`: the number of budgets, 0 for a null list. */
    function ItemCount(): (n: nat)
      reads this
      ensures budgetList.None? ==> n == 0
      ensures budgetList.Some? ==> n == |budgetList.value|
    {
      if budgetList.None? then 0 else |budgetList.value|
    }

    /** `updateData(list)`: the adapter shows the new list. */
    method UpdateData(list: seq<Budgets.Budget>)
      modifies this
      ensures budgetList == Some(list) && ItemCount() == |list|
    {
      budgetList := Some(list);
    }

    /**
     * `addBudget(budget, position)`: with a list, the budget is inserted at
     * the position, which the caller must keep within `0..size` since the
     * method does not check it; with none, nothing happens.
     */
    method AddBudget(b: Budgets.Budget, pos: int)
      requires budgetList.Some? ==> 0 <= pos <= |budgetList.value|
      modifies this
      ensures old(budgetList).None? ==> budgetList.None?
      ensures old(budgetList).Some? ==> budgetList == Some(Inserted(old(budgetList).value, pos, b))
      ensures old(budgetList).Some? ==> ItemCount() == old(ItemCount()) + 1
    {
      if budgetList.Some? {
        budgetList := Some(Inserted(budgetList.value, pos, b));
      }
    }

    /** `removeBudget(position)`: the budget at a valid position is removed; any other call changes nothing. */
    method RemoveBudget(pos: int)
      modifies this
      ensures old(budgetList).Some? && 0 <= pos < |old(budgetList).value| ==>
                budgetList == Some(Removed(old(budgetList).value, pos)) && ItemCount() == old(ItemCount()) - 1
      ensures !(old(budgetList).Some? && 0 <= pos < |old(budgetList).value|) ==> budgetList == old(budgetList)
    {
      if budgetList.Some? && 0 <= pos < |budgetList.value| {
        budgetList := Some(Removed(budgetList.value, pos));
      }
    }

    /** `updateBudget(budget, position)`: the budget at a valid position is replaced; any other call changes nothing. */
    method UpdateBudget(b: Budgets.Budget, pos: int)
      modifies this
      ensures old(budgetList).Some? && 0 <= pos < |old(budgetList).value| ==>
                budgetList == Some(old(budgetList).value[pos := b]) && ItemCount() == old(ItemCount())
      ensures !(old(budgetList).Some? && 0 <= pos < |old(budgetList).value|) ==> budgetList == old(budgetList)
    {
      if budgetList.Some? && 0 <= pos < |budgetList.value| {
        budgetList := Some(budgetList.value[pos := b]);
      }
    }
  }

  /** The category keys a budget may carry. */
  const HumanResource := "human_resource"
  const Equipment := "equipment"
  const Material := "material"
  const Other := "other"
  const CategoryKeys: seq<string> := [HumanResource, Equipment, Material, Other]
  /** The names shown for them, in the same order. */
  const CategoryNames: seq<string> := ["Nhân sự", "Thiết bị", "Vật liệu", "Khác"]

  /** `getCategoryDisplayName(category)`: the three named keys, and "Khác" for null and anything else. */
  function CategoryDisplayName(category: Option<string>): (r: string)
    ensures r in CategoryNames
    ensures forall i :: 0 <= i < |CategoryKeys| && category == Some(CategoryKeys[i]) ==> r == CategoryNames[i]
    ensures category != Some(HumanResource) && category != Some(Equipment) && category != Some(Material) ==> r == "Khác"
  {
    if category == Some(HumanResource) then "Nhân sự"
    else if category == Some(Equipment) then "Thiết bị"
    else if category == Some(Material) then "Vật liệu"
    else "Khác"
  }

  /** The badge behind an amount. */
  datatype AmountTier = LowAmount | MediumAmount | HighAmount

  /** Tiers in increasing order. */
  function TierRank(t: AmountTier): int
  {
    match t
    case LowAmount => 0
    case MediumAmount => 1
    case HighAmount => 2
  }

  /** `setAmountBackground(amount)`: above 1,000,000 high, above 500,000 medium, otherwise low. */
  function Tier(amount: int): (t: AmountTier)
    ensures t == HighAmount <==> amount > 1_000_000
    ensures t == LowAmount <==> amount <= 500_000
  {
    if amount > 1_000_000 then HighAmount
    else if amount > 500_000 then MediumAmount
    else LowAmount
  }

  /** A larger amount never gets a lower badge. */
  lemma TierMonotone(a: int, b: int)
    requires a <= b
    ensures TierRank(Tier(a)) <= TierRank(Tier(b))
  {
  }
}
