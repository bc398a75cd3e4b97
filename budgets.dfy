/**
 * The `Budget` record (models/Budget.java): constructor defaults and the
 * Firestore conversions. The amount is a `double` in the app; the model uses
 * an integer, since the app only stores, compares and sums it.
 */
module Budgets {
  import opened Common

  /** A budget line. Dates are milliseconds since the epoch. */
  datatype Budget = Budget(
    id: Option<string>,
    title: Option<string>,
    description: Option<string>,
    amount: int,
    category: Option<string>,
    userId: Option<string>,
    approved: bool,
    createdAt: Option<int>,
    updatedAt: Option<int>)

  /** `new Budget()` at instant `now`: unapproved, amount 0, created and updated now. */
  function NewBudget(now: int): (b: Budget)
    ensures !b.approved && b.amount == 0
    ensures b.createdAt == Some(now) && b.updatedAt == Some(now)
    ensures b.id.None? && b.title.None? && b.category.None? && b.userId.None?
  {
    Budget(None, None, None, 0, None, None, false, Some(now), Some(now))
  }

  /** The six-argument constructor: the given fields over the defaults of `new Budget()`. */
  function MakeBudget(title: Option<string>, amount: int, description: Option<string>, category: Option<string>,
                      userId: Option<string>, approved: bool, now: int): (b: Budget)
    ensures b.title == title && b.amount == amount && b.description == description
    ensures b.category == category && b.userId == userId && b.approved == approved
    ensures b.id.None? && b.createdAt == Some(now) && b.updatedAt == Some(now)
  {
    NewBudget(now).(title := title, amount := amount, description := description,
                    category := category, userId := userId, approved := approved)
  }

  /** The nine keys `toMap` writes. */
  const DataKeys: set<string> := {"id", "title", "description", "amount", "category", "userId", "approved", "createdAt", "updatedAt"}

  /** The value `toMap` writes under each of its keys (null under any other key). */
  function FieldValue(b: Budget, key: string): Value
  {
    if key == "id" then StrValue(b.id)
    else if key == "title" then StrValue(b.title)
    else if key == "description" then StrValue(b.description)
    else if key == "amount" then VNum(b.amount)
    else if key == "category" then StrValue(b.category)
    else if key == "userId" then StrValue(b.userId)
    else if key == "approved" then VBool(b.approved)
    else if key == "createdAt" then DateValue(b.createdAt)
    else if key == "updatedAt" then DateValue(b.updatedAt)
    else VNull
  }

  /** `budget.toMap()`: all nine fields, the id included. */
  function ToMap(b: Budget): (m: Doc)
    ensures m.Keys == DataKeys
    ensures forall k :: k in m ==> m[k] == FieldValue(b, k)
  {
    map k | k in DataKeys :: FieldValue(b, k)
  }

  /**
   * `Budget.fromMap(map)` at instant `now`: the strings are read as they are
   * (null when absent); the amount only from a number, the approval only from
   * a boolean, the dates only from a Timestamp or a Date; anything else keeps
   * the default of `new Budget()`.
   */
  function FromMap(m: Doc, now: int): (b: Budget)
    ensures b.id == StrField(m, "id") && b.title == StrField(m, "title") && b.category == StrField(m, "category")
    ensures !("amount" in m && m["amount"].VNum?) ==> b.amount == 0
    ensures "amount" in m && m["amount"].VNum? ==> b.amount == m["amount"].n
    ensures !("approved" in m && m["approved"].VBool?) ==> !b.approved
    ensures DateField(m, "createdAt").None? ==> b.createdAt == Some(now)
    ensures DateField(m, "updatedAt").None? ==> b.updatedAt == Some(now)
    ensures b.createdAt.Some? && b.updatedAt.Some?
  {
    var d := NewBudget(now);
    Budget(
      StrField(m, "id"),
      StrField(m, "title"),
      StrField(m, "description"),
      if "amount" in m && m["amount"].VNum? then m["amount"].n else d.amount,
      StrField(m, "category"),
      StrField(m, "userId"),
      if "approved" in m && m["approved"].VBool? then m["approved"].b else d.approved,
      Some(DateField(m, "createdAt").GetOr(now)),
      Some(DateField(m, "updatedAt").GetOr(now)))
  }

  /**
   * Reading back what `toMap` wrote restores every field, the id included;
   * only a null date comes back as the reading instant.
   */
  lemma {:induction false} FromMapToMap(b: Budget, now: int)
    ensures FromMap(ToMap(b), now)
         == b.(createdAt := Some(b.createdAt.GetOr(now)), updatedAt := Some(b.updatedAt.GetOr(now)))
  {
    var m := ToMap(b);
    assert StrField(m, "id") == b.id;
    assert StrField(m, "title") == b.title;
    assert StrField(m, "description") == b.description;
    assert StrField(m, "category") == b.category;
    assert StrField(m, "userId") == b.userId;
    assert DateField(m, "createdAt") == b.createdAt;
    assert DateField(m, "updatedAt") == b.updatedAt;
  }

  /** A budget built by a constructor has both dates, so it round-trips exactly. */
  lemma ConstructedRoundTrip(b: Budget, now: int)
    requires b.createdAt.Some? && b.updatedAt.Some?
    ensures FromMap(ToMap(b), now) == b
  {
    FromMapToMap(b, now);
  }
}
