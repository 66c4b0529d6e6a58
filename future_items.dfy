/**
 * The `/get_future_items` route: every unpurchased item of one schedule type,
 * newest-created first, whatever today's date and the days it repeats on.
 */
module FutureItems {
  import opened Outcomes
  import opened Calendar
  import opened Sequences
  import opened ItemModel
  import ActiveItems

  const TYPE_ERROR: string := "Type must be \"regular\" or \"specific\"."

  /** The sort key of `sort({ createdAt: -1 })`. */
  function CreatedKey(it: Item): int
  {
    Millis(it.createdAt)
  }

  /** The `type` query parameter: only "regular" and "specific" are accepted. */
  function ParseFutureType(t: string): (r: Option<ScheduleType>)
    ensures r.Some? <==> t == "regular" || t == "specific"
    ensures r.Some? ==> ScheduleName(r.value) == t && r.value != Unscheduled
  {
    if t == "regular" then Some(Regular)
    else if t == "specific" then Some(Specific)
    else None
  }

  predicate OnFutureList(it: Item, t: ScheduleType)
  {
    !it.isPurchased && it.scheduleType == t
  }

  function GetFutureItems(items: seq<Item>, t: string): (r: Response<seq<Item>>)
    ensures r.BadRequest? <==> ParseFutureType(t).None?
    ensures r.BadRequest? ==> r.error == TYPE_ERROR
    ensures !r.NotFound? && !r.ServerError?
    ensures r.Ok? ==> SortedDesc(r.value, CreatedKey)
    ensures r.Ok? ==> multiset(r.value) == multiset(Filter(items, (x: Item) => OnFutureList(x, ParseFutureType(t).value)))
    ensures r.Ok? ==> forall x :: x in r.value <==> x in items && !x.isPurchased && ScheduleName(x.scheduleType) == t
  {
    match ParseFutureType(t)
    case None => BadRequest(TYPE_ERROR)
    case Some(st) =>
      var matching := Filter(items, (x: Item) => OnFutureList(x, st));
      var sorted := SortDesc(matching, CreatedKey);
      assert forall x :: x in sorted <==> x in multiset(matching);
      assert forall s: ScheduleType :: ScheduleName(s) == t <==> s == st;
      Ok(sorted, "")
  }

  /** The two views overlap: a regular item due today is still on the regular list. */
  lemma {:induction false} DueTodayAlsoFuture(items: seq<Item>, it: Item, today: Instant)
    requires it in items && ActiveItems.DueToday(it, today)
    requires it.scheduleType != Unscheduled
    ensures var r := GetFutureItems(items, ScheduleName(it.scheduleType));
      r.Ok? && it in r.value
  {
  }
}
