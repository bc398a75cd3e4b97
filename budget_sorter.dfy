/**
 * Sorting of the budget list (utils/BudgetSorter.java). Each comparator
 * compares a key of the budget, so `Collections.sort` (stable) is
 * `StableSort.Sort` by that key. The comparators treat a missing creation
 * date as equal to anything, which is an order only when every budget has
 * a creation date; every budget the app builds has one.
 */
module BudgetSorter {
  import opened Common
  import opened StableSort
  import opened Budgets

  datatype SortOption = Default | AmountAscending | AmountDescending | PendingFirst | ApprovedFirst

  /** The labels of the sort drop-down of the budget screen, in menu order, with the option each selects. */
  const Labels: seq<string> := ["Mặc định", "Số tiền tăng dần", "Số tiền giảm dần", "Chưa duyệt trước", "Đã duyệt trước"]
  const Options: seq<SortOption> := [Default, AmountAscending, AmountDescending, PendingFirst, ApprovedFirst]

  /** `getSortOptionFromString(option)`: the four labelled options, and DEFAULT for any other text. */
  function SortOptionFromString(option: string): (o: SortOption)
    ensures o == AmountAscending <==> option == Labels[1]
    ensures o == AmountDescending <==> option == Labels[2]
    ensures o == PendingFirst <==> option == Labels[3]
    ensures o == ApprovedFirst <==> option == Labels[4]
  {
    if option == "Số tiền tăng dần" then AmountAscending
    else if option == "Số tiền giảm dần" then AmountDescending
    else if option == "Chưa duyệt trước" then PendingFirst
    else if option == "Đã duyệt trước" then ApprovedFirst
    else Default
  }

  /** Every entry of the drop-down selects its own option, the first one included. */
  lemma LabelsSelectTheirOptions(i: int)
    requires 0 <= i < |Labels|
    ensures SortOptionFromString(Labels[i]) == Options[i]
  {
  }

  /** `Boolean.compare(x, y)`: false before true. */
  function BoolRank(x: bool): int { if x then 1 else 0 }

  /** `b.getCreatedAt().compareTo(a.getCreatedAt())` behind the null test: newest first, null ties with anything. */
  function NewestFirst(a: Budget, b: Budget): int
  {
    if a.createdAt.None? || b.createdAt.None? then 0 else Compare(b.createdAt.value, a.createdAt.value)
  }

  /** The five comparators, as written. */
  function Comparator(option: SortOption, a: Budget, b: Budget): int
  {
    match option
    case AmountAscending => Compare(a.amount, b.amount)
    case AmountDescending => Compare(b.amount, a.amount)
    case PendingFirst =>
      if a.approved == b.approved then NewestFirst(a, b) else Compare(BoolRank(a.approved), BoolRank(b.approved))
    case ApprovedFirst =>
      if a.approved == b.approved then NewestFirst(a, b) else Compare(BoolRank(b.approved), BoolRank(a.approved))
    case Default => NewestFirst(a, b)
  }

  /** The key each comparator orders by. */
  function SortKey(option: SortOption): Budget -> Key
  {
    (b: Budget) =>
      match option
      case AmountAscending => Key(b.amount, 0)
      case AmountDescending => Key(-b.amount, 0)
      case PendingFirst => Key(BoolRank(b.approved), -b.createdAt.GetOr(0))
      case ApprovedFirst => Key(1 - BoolRank(b.approved), -b.createdAt.GetOr(0))
      case Default => Key(-b.createdAt.GetOr(0), 0)
  }

  /** On budgets with creation dates each comparator is exactly the order of its key. */
  lemma ComparatorIsKeyOrder(option: SortOption, a: Budget, b: Budget)
    requires a.createdAt.Some? && b.createdAt.Some?
    ensures Comparator(option, a, b) < 0 <==> Less(SortKey(option)(a), SortKey(option)(b))
    ensures Comparator(option, a, b) == 0 <==> SortKey(option)(a) == SortKey(option)(b)
  {
  }

  /**
   * A budget without a creation date ties with every budget under the
   * date comparators, so "equal" is not transitive there: two budgets with
   * different dates both tie with a third one that has none.
   */
  lemma NullDateBreaksTransitivity(a: Budget, b: Budget, n: Budget)
    requires a.createdAt.Some? && b.createdAt.Some? && a.createdAt != b.createdAt && n.createdAt.None?
    ensures Comparator(Default, a, n) == 0 && Comparator(Default, n, b) == 0
    ensures Comparator(Default, a, b) != 0
  {
  }

  /** Every budget in the list has a creation date. */
  predicate AllDated(s: seq<Budget>)
  {
    forall i :: 0 <= i < |s| ==> s[i].createdAt.Some?
  }

  /** `sortBudgets(budgetList, option)`: nothing for a null or empty list, else a stable sort by the option's comparator. */
  method SortBudgets(a: array?<Budget>, option: SortOption)
    requires a != null ==> AllDated(a[..])
    modifies a
    ensures a != null ==> a[..] == Sort(old(a[..]), SortKey(option))
  {
    if a == null || a.Length == 0 {
      assert a != null ==> a[..] == [];
      return;
    }
    SortInPlace(a, SortKey(option));
  }

  /** After the ascending sort the amounts never decrease; after the descending one they never increase. */
  lemma AmountOrder(s: seq<Budget>, i: int, j: int)
    requires 0 <= i < j < |s|
    ensures SortedBy(s, SortKey(AmountAscending)) ==> s[i].amount <= s[j].amount
    ensures SortedBy(s, SortKey(AmountDescending)) ==> s[i].amount >= s[j].amount
  {
    if SortedBy(s, SortKey(AmountAscending)) {
      assert !Less(SortKey(AmountAscending)(s[j]), SortKey(AmountAscending)(s[i]));
    }
    if SortedBy(s, SortKey(AmountDescending)) {
      assert !Less(SortKey(AmountDescending)(s[j]), SortKey(AmountDescending)(s[i]));
    }
  }

  /**
   * After PENDING_FIRST no approved budget precedes a pending one, and
   * within the same approval state the newer budget comes first.
   */
  lemma PendingFirstOrder(s: seq<Budget>, i: int, j: int)
    requires SortedBy(s, SortKey(PendingFirst)) && AllDated(s)
    requires 0 <= i < j < |s|
    ensures s[i].approved ==> s[j].approved
    ensures s[i].approved == s[j].approved ==> s[i].createdAt.value >= s[j].createdAt.value
  {
    assert !Less(SortKey(PendingFirst)(s[j]), SortKey(PendingFirst)(s[i]));
  }

  /**
   * After APPROVED_FIRST no pending budget precedes an approved one, and
   * within the same approval state the newer budget comes first.
   */
  lemma ApprovedFirstOrder(s: seq<Budget>, i: int, j: int)
    requires SortedBy(s, SortKey(ApprovedFirst)) && AllDated(s)
    requires 0 <= i < j < |s|
    ensures s[j].approved ==> s[i].approved
    ensures s[i].approved == s[j].approved ==> s[i].createdAt.value >= s[j].createdAt.value
  {
    assert !Less(SortKey(ApprovedFirst)(s[j]), SortKey(ApprovedFirst)(s[i]));
  }

  /** After the default sort the budgets are newest first. */
  lemma DefaultOrder(s: seq<Budget>, i: int, j: int)
    requires SortedBy(s, SortKey(Default)) && AllDated(s)
    requires 0 <= i < j < |s|
    ensures s[i].createdAt.value >= s[j].createdAt.value
  {
    assert !Less(SortKey(Default)(s[j]), SortKey(Default)(s[i]));
  }

  /** The sorted list is the same budgets, in key order, with ties kept in their earlier order. */
  lemma SortBudgetsContract(s: seq<Budget>, option: SortOption, k: Key)
    ensures multiset(Sort(s, SortKey(option))) == multiset(s)
    ensures SortedBy(Sort(s, SortKey(option)), SortKey(option))
    ensures Tied(Sort(s, SortKey(option)), SortKey(option), k) == Tied(s, SortKey(option), k)
  {
    SortIsSorted(s, SortKey(option));
    SortIsStable(s, SortKey(option), k);
  }
}
