/** The daily window of app/clock.py: yesterday's calendar day in Korea Standard Time. */
module KstDays {
  import T = Timestamps

  const KST_OFFSET := 9 * 3600

  /** A half-open interval of UTC seconds and the KST day, counted in days, it stands for. */
  datatype Window = Window(since: int, until: int, day: int)

  /** yesterday_kst_window: back to today's midnight in KST, and one day before it. */
  function YesterdayWindow(now: int): Window {
    var local := now + KST_OFFSET;
    var todayStart := local - local % T.DAY;
    var since := todayStart - T.DAY;
    Window(since - KST_OFFSET, todayStart - KST_OFFSET, since / T.DAY)
  }

  /** Setting hour, minute and second of a datetime to zero goes back to the start of its day. */
  lemma MidnightIsStartOfDay(t: T.Stamp)
    requires T.Valid(t)
    ensures var midnight := t.(hour := 0, minute := 0, second := 0);
            T.Valid(midnight) && T.Seconds(midnight) == T.Seconds(t) - T.Seconds(t) % T.DAY
  {
  }

  /** The KST day an instant falls on. */
  function DayOf(instant: int): int {
    (instant + KST_OFFSET) / T.DAY
  }

  /** The window of a KST day. */
  function DayWindow(day: int): Window {
    Window(T.DAY * day - KST_OFFSET, T.DAY * (day + 1) - KST_OFFSET, day)
  }

  /** The window computed at any instant is that of the KST day before the one the instant falls on. */
  lemma WindowIsTheDayBefore(now: int)
    ensures YesterdayWindow(now) == DayWindow(DayOf(now) - 1)
    ensures YesterdayWindow(now).until <= now < YesterdayWindow(now).until + T.DAY
  {
  }

  /** A KST day starts at 15:00:00 UTC, and at no other time. */
  lemma DaysStartAtThreeUtc(t: T.Stamp)
    requires T.Valid(t)
    ensures t.hour == 15 && t.minute == 0 && t.second == 0 <==> exists day :: DayWindow(day).since == T.Seconds(t)
  {
    if t.hour == 15 && t.minute == 0 && t.second == 0 {
      assert DayWindow(T.Ordinal(t) + 1).since == T.Seconds(t);
    }
  }

  /** The windows of consecutive days tile the timeline: they meet, and each instant is in exactly one. */
  lemma WindowsTile(day: int, instant: int)
    ensures DayWindow(day).until == DayWindow(day + 1).since
    ensures DayWindow(day).since <= instant < DayWindow(day).until <==> day == DayOf(instant)
  {
  }
}
