/**
 * Date helpers (utils/DateUtils.java). The clock is the parameter `now`
 * (milliseconds since the epoch); the text layout of a formatted date is
 * the parameter `render`, since only the treatment of null is the app's own.
 */
module DateUtils {
  import opened Common

  /** `24 * 60 * 60 * 1000`: milliseconds in a day. */
  const DayMillis := 86_400_000

  /** The three `SimpleDateFormat` patterns. */
  datatype Pattern = DatePattern | TimePattern | DateTimePattern

  function PatternText(p: Pattern): string
  {
    match p
    case DatePattern => "dd/MM/yyyy"
    case TimePattern => "HH:mm"
    case DateTimePattern => "dd/MM/yyyy HH:mm"
  }

  /** `formatDate`, `formatTime` and `formatDateTime`: "" for a null date, else the formatted text. */
  function Format(date: Option<int>, p: Pattern, render: (string, int) -> string): (r: string)
    ensures date.None? ==> r == ""
    ensures date.Some? ==> r == render(PatternText(p), date.value)
  {
    if date.None? then "" else render(PatternText(p), date.value)
  }

  /** `isOverdue(date)`: false for null, else whether the date is strictly before now. */
  predicate IsOverdue(date: Option<int>, now: int)
  {
    date.Some? && date.value < now
  }

  /**
   * `getDaysRemaining(dueDate)`: 0 for null; otherwise the difference in
   * milliseconds divided by a day with Java's truncation toward zero, then
   * narrowed to a 32-bit `int`.
   */
  function DaysRemaining(due: Option<int>, now: int): (r: int)
    ensures due.None? ==> r == 0
    ensures -0x8000_0000 <= r < 0x8000_0000
  {
    if due.None? then 0 else ToInt32(DivTrunc(due.value - now, DayMillis))
  }

  /** Differences this small (about 5.8 million years) survive the narrowing cast unchanged. */
  const CastSafe := 0x8000_0000 * DayMillis

  /**
   * Days remaining count whole days toward the due date: `r` full days fit
   * into the difference and the rest is less than one day, on either side of now.
   */
  lemma {:induction false} DaysRemainingCountsWholeDays(due: int, now: int)
    requires -CastSafe < due - now < CastSafe
    ensures var r := DaysRemaining(Some(due), now);
            (due >= now ==> r >= 0 && r * DayMillis <= due - now < (r + 1) * DayMillis)
            && (due < now ==> r <= 0 && (r - 1) * DayMillis < due - now <= r * DayMillis)
  {
    var d := due - now;
    var q := DivTrunc(d, DayMillis);
    if d >= 0 {
      assert q == d / DayMillis;
      assert q < 0x8000_0000;
    } else {
      assert q == -((-d) / DayMillis);
      assert -q < 0x8000_0000;
    }
  }

  /** Any due time strictly within one day of now, before or after, gives 0 days. */
  lemma {:induction false} WithinOneDayIsZero(due: int, now: int)
    requires -DayMillis < due - now < DayMillis
    ensures DaysRemaining(Some(due), now) == 0
  {
    DaysRemainingCountsWholeDays(due, now);
  }

  /** The day count agrees in sign with the overdue test. */
  lemma {:induction false} DaysRemainingAgreesWithOverdue(due: int, now: int)
    requires -CastSafe < due - now < CastSafe
    ensures IsOverdue(Some(due), now) ==> DaysRemaining(Some(due), now) <= 0
    ensures !IsOverdue(Some(due), now) ==> DaysRemaining(Some(due), now) >= 0
    ensures DaysRemaining(Some(due), now) > 0 ==> due - now >= DayMillis
  {
    DaysRemainingCountsWholeDays(due, now);
  }
}
