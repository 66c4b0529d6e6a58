/**
 * A clock-free model of the JavaScript `Date` values the system compares.
 *
 * An instant is a local-time day number, counted from 1 January 1970, and
 * the milliseconds elapsed since that day's midnight. Days before 1970 have
 * negative numbers. Daylight-saving shifts are not modelled: every day has
 * exactly 86 400 000 milliseconds.
 */
module Calendar {

  const MS_PER_DAY: int := 86_400_000

  /** The last millisecond of a day, 23:59:59.999. */
  const LAST_MS_OF_DAY: int := 86_399_999

  type MsOfDay = ms: int | 0 <= ms < 86_400_000

  datatype Instant = Instant(day: int, ms: MsOfDay)

  /** Milliseconds since the epoch: the value `Date.prototype.getTime` compares. */
  function Millis(t: Instant): int
  {
    t.day * MS_PER_DAY + t.ms
  }

  predicate AtOrBefore(a: Instant, b: Instant)
  {
    Millis(a) <= Millis(b)
  }

  /** Comparing milliseconds is comparing (day, time of day) lexicographically. */
  lemma AtOrBeforeIsLexicographic(a: Instant, b: Instant)
    ensures AtOrBefore(a, b) <==> a.day < b.day || (a.day == b.day && a.ms <= b.ms)
  {
    if a.day < b.day {
      assert (b.day - a.day) * MS_PER_DAY >= MS_PER_DAY;
    } else if a.day > b.day {
      assert (a.day - b.day) * MS_PER_DAY >= MS_PER_DAY;
    }
  }

  /** The weekday table of `Date.prototype.getDay`, Sunday first. */
  const WEEKDAY_NAMES: seq<string> :=
    ["Sunday", "Monday", "Tuesday", "Wednesday", "Thursday", "Friday", "Saturday"]

  /** `getDay()`: 0 for Sunday. Day 0 (1 January 1970) was a Thursday. */
  function WeekdayIndex(day: int): (w: nat)
    ensures w < 7
    ensures (day - w) % 7 == 3
  {
    (day + 4) % 7
  }

  /** The English name of the weekday an instant falls on. */
  function WeekdayName(t: Instant): string
  {
    WEEKDAY_NAMES[WeekdayIndex(t.day)]
  }

  /** `setHours(0, 0, 0, 0)`: midnight at the start of the same day. */
  function StartOfDay(t: Instant): Instant
  {
    Instant(t.day, 0)
  }

  /** `setHours(23, 59, 59, 999)`: the last millisecond of the same day. */
  function EndOfDay(t: Instant): Instant
  {
    Instant(t.day, LAST_MS_OF_DAY)
  }

  /** The inclusive window `[start of today, end of today]`. */
  predicate WithinDayOf(d: Instant, today: Instant)
  {
    AtOrBefore(StartOfDay(today), d) && AtOrBefore(d, EndOfDay(today))
  }

  /** Being inside today's window is being on the same calendar day,
      whatever the time of day of either instant. */
  lemma WithinDayOfIffSameDay(d: Instant, today: Instant)
    ensures WithinDayOf(d, today) <==> d.day == today.day
  {
    AtOrBeforeIsLexicographic(StartOfDay(today), d);
    AtOrBeforeIsLexicographic(d, EndOfDay(today));
  }

  /** `setDate(getDate() + n)`: the same time of day, n days later. */
  function AddDays(t: Instant, n: int): (r: Instant)
    ensures Millis(r) == Millis(t) + n * MS_PER_DAY
  {
    Instant(t.day + n, t.ms)
  }
}
