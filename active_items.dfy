/**
 * The `/get_items` route: the items due today.
 *
 * An unpurchased item is due when it has no schedule, when today's weekday
 * name is among its regular days, or when its specific date lies in today's
 * inclusive window from 00:00:00.000 to 23:59:59.999. "Today" is a parameter.
 */
module ActiveItems {
  import opened Outcomes
  import opened Calendar
  import opened Sequences
  import opened ItemModel

  /** The query's `is_purchased: false` and `$or` of the three schedule cases.
      Matching a string against the `regular_days` array is array membership. */
  predicate DueToday(it: Item, today: Instant)
  {
    && !it.isPurchased
    && match it.scheduleType
       case Unscheduled => true
       case Regular => WeekdayName(today) in it.regularDays
       case Specific => it.specificDate.Some? && WithinDayOf(it.specificDate.value, today)
  }

  /** The route's result: the due items in store order, unsorted. */
  function GetItems(items: seq<Item>, today: Instant): (r: seq<Item>)
    ensures IsSubsequence(r, items)
    ensures forall x :: x in r <==> x in items && DueToday(x, today)
    ensures forall x :: x in r ==> !x.isPurchased
  {
    FilterIsSubsequence(items, (x: Item) => DueToday(x, today));
    Filter(items, (x: Item) => DueToday(x, today))
  }

  lemma UnscheduledAlwaysDue(items: seq<Item>, it: Item, today: Instant)
    requires it in items && !it.isPurchased && it.scheduleType == Unscheduled
    ensures it in GetItems(items, today)
  {
  }

  lemma RegularDueIffWeekday(it: Item, today: Instant)
    requires !it.isPurchased && it.scheduleType == Regular
    ensures DueToday(it, today) <==> WEEKDAY_NAMES[WeekdayIndex(today.day)] in it.regularDays
  {
  }

  /** Only the calendar day of a specific date matters, not its time of day. */
  lemma SpecificDueIffSameDay(it: Item, today: Instant)
    requires !it.isPurchased && it.scheduleType == Specific
    ensures DueToday(it, today) <==> it.specificDate.Some? && it.specificDate.value.day == today.day
  {
    if it.specificDate.Some? {
      WithinDayOfIffSameDay(it.specificDate.value, today);
    }
  }

  /** A regular schedule without days, or a specific one without a date, never matches. */
  lemma EmptySchedulesNeverDue(it: Item, today: Instant)
    requires (it.scheduleType == Regular && it.regularDays == [])
          || (it.scheduleType == Specific && it.specificDate == None)
    ensures !DueToday(it, today)
  {
  }

  /** A regular item is due on the same weekday of every week. */
  lemma {:induction false} RegularRecursWeekly(it: Item, today: Instant, weeks: nat)
    requires it.scheduleType == Regular
    ensures DueToday(it, AddDays(today, 7 * weeks)) == DueToday(it, today)
  {
    if weeks > 0 {
      RegularRecursWeekly(it, today, weeks - 1);
      var t := AddDays(today, 7 * (weeks - 1));
      assert AddDays(today, 7 * weeks) == AddDays(t, 7);
      assert (t.day + 7 + 4) % 7 == (t.day + 4) % 7;
    }
  }

  /** A Monday-and-Thursday item is on Monday's list and not on Tuesday's.
      Day 4 (5 January 1970) was a Monday. */
  lemma MondayThursdayScenario(it: Item, ms: MsOfDay)
    requires !it.isPurchased && it.scheduleType == Regular
    requires it.regularDays == ["Monday", "Thursday"]
    ensures WeekdayName(Instant(4, ms)) == "Monday" && DueToday(it, Instant(4, ms))
    ensures WeekdayName(Instant(5, ms)) == "Tuesday" && !DueToday(it, Instant(5, ms))
  {
    assert WeekdayName(Instant(5, ms)) == "Tuesday";
    assert "Tuesday" != "Monday" && "Tuesday" != "Thursday";
  }

  /** An item planned five days ahead is off the list for the next four days,
      at any time of day, and on it throughout the fifth. */
  lemma FiveDaysAheadScenario(it: Item, now: Instant, later: Instant)
    requires !it.isPurchased && it.scheduleType == Specific
    requires it.specificDate == Some(AddDays(now, 5))
    requires now.day <= later.day <= now.day + 5
    ensures DueToday(it, later) <==> later.day == now.day + 5
  {
    SpecificDueIffSameDay(it, later);
  }
}
