/** The time-window policy: when the daily and weekly digests are due.
    Instants are microseconds since a Monday midnight (see Common.Time), so
    the calendar fields Python reads off a datetime are plain divisions. */
module Schedule {
  import opened Common

  const SECOND: int := 1_000_000
  const MINUTE: int := 60 * SECOND
  const HOUR: int := 60 * MINUTE
  const DAY: int := 24 * HOUR
  const WEEK: int := 7 * DAY

  /** Monday is 0, as `datetime.weekday()` numbers days. */
  type DayOfWeek = d: int | 0 <= d < 7
  type HourOfDay = h: int | 0 <= h < 24
  type MinuteOfHour = m: int | 0 <= m < 60

  /** The engine's settings, read once: the catch-up duration
      (`ckan.email_notifications_since`), the weekly day
      (`ckanext.subscribe.weekly_notification_day`) and the time of day of the
      daily and weekly sends (`daily_and_weekly_notification_time`). */
  datatype Config = Config(catchUp: int, weeklyDay: DayOfWeek, hour: HourOfDay, minute: MinuteOfHour)

  /** `datetime.weekday()`. */
  function WeekdayOf(t: Time): DayOfWeek { (t / DAY) % 7 }

  /** `datetime.hour`. */
  function HourOf(t: Time): HourOfDay { (t / HOUR) % 24 }

  /** `datetime.minute`. */
  function MinuteOf(t: Time): MinuteOfHour { (t / MINUTE) % 60 }

  /** The instant in week `w` at day `d`, `h`:`mi`, plus `s` microseconds. */
  function Compose(w: int, d: int, h: int, mi: int, s: int): Time
  {
    w * WEEK + d * DAY + h * HOUR + mi * MINUTE + s
  }

  lemma MulAtLeast(k: int, n: int)
    requires n > 0 && k >= 1
    ensures k * n >= n
  {
  }

  /** Quotient and remainder are determined by the division equation. */
  lemma DivModUnique(x: int, n: int, q: int, r: int)
    requires n > 0 && 0 <= r < n && x == q * n + r
    ensures x / n == q && x % n == r
  {
    var q', r' := x / n, x % n;
    assert q' * n + r' == x;
    if q > q' {
      assert (q - q') * n == q * n - q' * n;
      MulAtLeast(q - q', n);
    } else if q < q' {
      assert (q' - q) * n == q' * n - q * n;
      MulAtLeast(q' - q, n);
    }
  }

  /** The calendar fields of a composed instant are the ones it was composed from. */
  lemma ComposeFields(w: int, d: int, h: int, mi: int, s: int)
    requires 0 <= d < 7 && 0 <= h < 24 && 0 <= mi < 60 && 0 <= s < MINUTE
    ensures var c := Compose(w, d, h, mi, s);
      && c % MINUTE == s && MinuteOf(c) == mi && HourOf(c) == h && WeekdayOf(c) == d
      && c % DAY == h * HOUR + mi * MINUTE + s
      && c % WEEK == d * DAY + h * HOUR + mi * MINUTE + s
  {
    var c := Compose(w, d, h, mi, s);
    DivModUnique(c, MINUTE, w * 10080 + d * 1440 + h * 60 + mi, s);
    DivModUnique(w * 10080 + d * 1440 + h * 60 + mi, 60, w * 168 + d * 24 + h, mi);
    DivModUnique(c, HOUR, w * 168 + d * 24 + h, mi * MINUTE + s);
    DivModUnique(w * 168 + d * 24 + h, 24, w * 7 + d, h);
    DivModUnique(c, DAY, w * 7 + d, h * HOUR + mi * MINUTE + s);
    DivModUnique(w * 7 + d, 7, w, d);
    DivModUnique(c, WEEK, w, d * DAY + h * HOUR + mi * MINUTE + s);
  }

  /** Every instant is composed from its own calendar fields. */
  lemma Decompose(t: Time)
    ensures t == Compose(t / WEEK, WeekdayOf(t), HourOf(t), MinuteOf(t), t % MINUTE)
  {
    var w, r0 := t / WEEK, t % WEEK;
    var d, r1 := r0 / DAY, r0 % DAY;
    var h, r2 := r1 / HOUR, r1 % HOUR;
    var mi, s := r2 / MINUTE, r2 % MINUTE;
    assert t == Compose(w, d, h, mi, s);
    ComposeFields(w, d, h, mi, s);
  }

  /** Replacing the weekday, hour and minute of `t` by `d`, `h`, `mi` (the
      source's `timedelta` arithmetic) yields a time in the same week with
      those fields and the same seconds; one week earlier has the same fields. */
  lemma ReplaceFields(t: Time, d: DayOfWeek, h: HourOfDay, mi: MinuteOfHour)
    ensures var c := t + (d - WeekdayOf(t)) * DAY + (h - HourOf(t)) * HOUR + (mi - MinuteOf(t)) * MINUTE;
      && c == Compose(t / WEEK, d, h, mi, t % MINUTE)
      && WeekdayOf(c) == d && HourOf(c) == h && MinuteOf(c) == mi && c % MINUTE == t % MINUTE
      && WeekdayOf(c - WEEK) == d && HourOf(c - WEEK) == h && MinuteOf(c - WEEK) == mi
      && (c - WEEK) % MINUTE == t % MINUTE
  {
    Decompose(t);
    ComposeFields(t / WEEK, d, h, mi, t % MINUTE);
    ComposeFields(t / WEEK - 1, d, h, mi, t % MINUTE);
  }

  /** A shift by fewer than 7 days, 24 hours and 60 minutes either way is
      shorter than a week. */
  lemma OffsetWithinWeek(d: int, h: int, mi: int)
    requires -7 < d < 7 && -24 < h < 24 && -60 < mi < 60
    ensures -WEEK < d * DAY + h * HOUR + mi * MINUTE < WEEK
  {
  }

  /** One day earlier the clock shows the same hour, minute and seconds. */
  lemma DayEarlierSameClock(t: Time)
    ensures HourOf(t - DAY) == HourOf(t) && MinuteOf(t - DAY) == MinuteOf(t)
    ensures (t - DAY) % MINUTE == t % MINUTE
  {
    Decompose(t);
    var w, d, h, mi, s := t / WEEK, WeekdayOf(t), HourOf(t), MinuteOf(t), t % MINUTE;
    if d == 0 {
      assert t - DAY == Compose(w - 1, 6, h, mi, s);
      ComposeFields(w - 1, 6, h, mi, s);
    } else {
      assert t - DAY == Compose(w, d - 1, h, mi, s);
      ComposeFields(w, d - 1, h, mi, s);
    }
  }

  // ---------------------------------------------------------------------
  // The two functions as the source writes them: the configured day and
  // time replace now's day, hour and minute, and now's seconds and
  // microseconds are carried over unchanged.
  // ---------------------------------------------------------------------

  /** `most_recent_weekly_notification_datetime(now)` as written. */
  function MostRecentWeeklyAsWritten(cfg: Config, now: Time): (r: Time)
    ensures now - WEEK < r <= now
    ensures WeekdayOf(r) == cfg.weeklyDay && HourOf(r) == cfg.hour && MinuteOf(r) == cfg.minute
    ensures r % MINUTE == now % MINUTE
  {
    var thisWeeks := now + (cfg.weeklyDay - WeekdayOf(now)) * DAY
                         + (cfg.hour - HourOf(now)) * HOUR
                         + (cfg.minute - MinuteOf(now)) * MINUTE;
    ReplaceFields(now, cfg.weeklyDay, cfg.hour, cfg.minute);
    OffsetWithinWeek(cfg.weeklyDay - WeekdayOf(now), cfg.hour - HourOf(now), cfg.minute - MinuteOf(now));
    if thisWeeks > now then thisWeeks - WEEK else thisWeeks
  }

  /** Replacing the hour and minute of `t` by `h` and `mi` yields a time
      less than a day away with those fields and the same seconds; so does
      one day earlier. */
  lemma ReplaceClock(t: Time, h: HourOfDay, mi: MinuteOfHour)
    ensures var c := t + (h - HourOf(t)) * HOUR + (mi - MinuteOf(t)) * MINUTE;
      && t - DAY < c < t + DAY
      && HourOf(c) == h && MinuteOf(c) == mi && c % MINUTE == t % MINUTE
      && HourOf(c - DAY) == h && MinuteOf(c - DAY) == mi && (c - DAY) % MINUTE == t % MINUTE
  {
    Decompose(t);
    var c := t + (h - HourOf(t)) * HOUR + (mi - MinuteOf(t)) * MINUTE;
    assert c == Compose(t / WEEK, WeekdayOf(t), h, mi, t % MINUTE);
    ComposeFields(t / WEEK, WeekdayOf(t), h, mi, t % MINUTE);
    DayEarlierSameClock(c);
  }

  /** `most_recent_daily_notification_datetime(now)` as written. */
  function MostRecentDailyAsWritten(cfg: Config, now: Time): (r: Time)
    ensures now - DAY < r <= now
    ensures HourOf(r) == cfg.hour && MinuteOf(r) == cfg.minute
    ensures r % MINUTE == now % MINUTE
  {
    var today := now + (cfg.hour - HourOf(now)) * HOUR + (cfg.minute - MinuteOf(now)) * MINUTE;
    ReplaceClock(now, cfg.hour, cfg.minute);
    if today > now then today - DAY else today
  }

  // ---------------------------------------------------------------------
  // The scheduled send instants, and the corrected functions that return
  // the latest of them.
  // ---------------------------------------------------------------------

  /** `x` is a weekly send instant: the configured weekday at hh:mm:00.000000. */
  ghost predicate IsWeeklySendInstant(cfg: Config, x: Time)
  {
    x % WEEK == cfg.weeklyDay * DAY + cfg.hour * HOUR + cfg.minute * MINUTE
  }

  /** `x` is a daily send instant: any day at hh:mm:00.000000. */
  ghost predicate IsDailySendInstant(cfg: Config, x: Time)
  {
    x % DAY == cfg.hour * HOUR + cfg.minute * MINUTE
  }

  /** The most recent weekly send instant at or before `now`: the source's
      computation with now's sub-minute part dropped. */
  function MostRecentWeekly(cfg: Config, now: Time): (r: Time)
    ensures now - WEEK < r <= now
    ensures IsWeeklySendInstant(cfg, r)
    ensures forall x :: IsWeeklySendInstant(cfg, x) && x <= now ==> x <= r
    ensures WeekdayOf(r) == cfg.weeklyDay && HourOf(r) == cfg.hour && MinuteOf(r) == cfg.minute
    ensures r % MINUTE == 0
    ensures r + now % MINUTE == MostRecentWeeklyAsWritten(cfg, now)
  {
    var a := MostRecentWeeklyAsWritten(cfg, now);
    var r := a - now % MINUTE;
    Decompose(a);
    assert r == Compose(a / WEEK, cfg.weeklyDay, cfg.hour, cfg.minute, 0);
    ComposeFields(a / WEEK, cfg.weeklyDay, cfg.hour, cfg.minute, 0);
    TruncateStaysInWindow(a, now, WEEK);
    LatestInstant(WEEK, cfg.weeklyDay * DAY + cfg.hour * HOUR + cfg.minute * MINUTE, r, now);
    r
  }

  /** The most recent daily send instant at or before `now`. */
  function MostRecentDaily(cfg: Config, now: Time): (r: Time)
    ensures now - DAY < r <= now
    ensures IsDailySendInstant(cfg, r)
    ensures forall x :: IsDailySendInstant(cfg, x) && x <= now ==> x <= r
    ensures HourOf(r) == cfg.hour && MinuteOf(r) == cfg.minute
    ensures r % MINUTE == 0
    ensures r + now % MINUTE == MostRecentDailyAsWritten(cfg, now)
  {
    var a := MostRecentDailyAsWritten(cfg, now);
    var r := a - now % MINUTE;
    Decompose(a);
    assert r == Compose(a / WEEK, WeekdayOf(a), cfg.hour, cfg.minute, 0);
    ComposeFields(a / WEEK, WeekdayOf(a), cfg.hour, cfg.minute, 0);
    TruncateStaysInWindow(a, now, DAY);
    LatestInstant(DAY, cfg.hour * HOUR + cfg.minute * MINUTE, r, now);
    r
  }

  /** Dropping the sub-minute part shared with `now` keeps an instant inside
      the window `(now - period, now]`. */
  lemma TruncateStaysInWindow(a: Time, now: Time, period: int)
    requires period == WEEK || period == DAY
    requires a % MINUTE == now % MINUTE && now - period < a <= now
    ensures now - period < a - now % MINUTE <= now
  {
    var s := now % MINUTE;
    var p, q := a / MINUTE, now / MINUTE;
    var k := period / MINUTE;
    assert a == p * MINUTE + s && now == q * MINUTE + s && period == k * MINUTE;
    assert (p - q + k) * MINUTE == a - now + period;
    assert p - q + k >= 1;
    MulAtLeast(p - q + k, MINUTE);
  }

  /** Among instants with remainder `k` modulo `period`, one that lies in
      `(now - period, now]` is the latest that is at most `now`. */
  lemma LatestInstant(period: int, k: int, r: Time, now: Time)
    requires period == WEEK || period == DAY
    requires r % period == k && now - period < r <= now
    ensures forall x :: x % period == k && x <= now ==> x <= r
  {
    forall x | x % period == k && x <= now
      ensures x <= r
    {
      assert x == (x / period) * period + k;
      assert r == (r / period) * period + k;
      if x / period > r / period {
        assert (x / period - r / period) * period == x - r;
        MulAtLeast(x / period - r / period, period);
      }
    }
  }

  /** A daily or weekly tier is due when it has never sent, or when the
      latest send instant is strictly after the last send
      (`is_it_time_to_send_daily_notifications`). */
  function IsDailyDue(cfg: Config, now: Time, lastSent: Option<Time>): (due: bool)
    ensures due <==> lastSent.None? || exists x :: IsDailySendInstant(cfg, x) && lastSent.value < x <= now
  {
    lastSent.None? || MostRecentDaily(cfg, now) > lastSent.value
  }

  /** `is_it_time_to_send_weekly_notifications`. */
  function IsWeeklyDue(cfg: Config, now: Time, lastSent: Option<Time>): (due: bool)
    ensures due <==> lastSent.None? || exists x :: IsWeeklySendInstant(cfg, x) && lastSent.value < x <= now
  {
    lastSent.None? || MostRecentWeekly(cfg, now) > lastSent.value
  }

  /** Worked examples with Friday 09:00 configured, in any week `w`
      (2020-01-20 is a Monday): Saturday and Friday 10:00 give that
      week's Friday 09:00; Thursday and Friday 08:00 give the previous one. */
  lemma WeeklyExamples(w: int)
    ensures var cfg := Config(2 * DAY, 4, 9, 0);
      && MostRecentWeeklyAsWritten(cfg, Compose(w, 5, 0, 0, 0)) == Compose(w, 4, 9, 0, 0)
      && MostRecentWeeklyAsWritten(cfg, Compose(w, 3, 0, 0, 0)) == Compose(w - 1, 4, 9, 0, 0)
      && MostRecentWeeklyAsWritten(cfg, Compose(w, 4, 8, 0, 0)) == Compose(w - 1, 4, 9, 0, 0)
      && MostRecentWeeklyAsWritten(cfg, Compose(w, 4, 10, 0, 0)) == Compose(w, 4, 9, 0, 0)
  {
    ComposeFields(w, 5, 0, 0, 0);
    ComposeFields(w, 3, 0, 0, 0);
    ComposeFields(w, 4, 8, 0, 0);
    ComposeFields(w, 4, 10, 0, 0);
  }

  // ---------------------------------------------------------------------
  // What carrying the seconds over does to the due check.
  // ---------------------------------------------------------------------

  /** The as-written daily instant is after `w` exactly when some daily send
      instant, moved on by now's seconds and microseconds, lies in
      `(w, now]`. */
  lemma AsWrittenDailyAfter(cfg: Config, now: Time, w: Time)
    ensures MostRecentDailyAsWritten(cfg, now) > w <==>
              exists x :: IsDailySendInstant(cfg, x) && w < x + now % MINUTE <= now
  {
    var r := MostRecentDaily(cfg, now);
    if MostRecentDailyAsWritten(cfg, now) > w {
      assert IsDailySendInstant(cfg, r) && w < r + now % MINUTE <= now;
    }
    forall x | IsDailySendInstant(cfg, x) && w < x + now % MINUTE <= now
      ensures MostRecentDailyAsWritten(cfg, now) > w
    {
      assert x <= r;
    }
  }

  /** The weekly counterpart of `AsWrittenDailyAfter`. */
  lemma AsWrittenWeeklyAfter(cfg: Config, now: Time, w: Time)
    ensures MostRecentWeeklyAsWritten(cfg, now) > w <==>
              exists x :: IsWeeklySendInstant(cfg, x) && w < x + now % MINUTE <= now
  {
    var r := MostRecentWeekly(cfg, now);
    if MostRecentWeeklyAsWritten(cfg, now) > w {
      assert IsWeeklySendInstant(cfg, r) && w < r + now % MINUTE <= now;
    }
    forall x | IsWeeklySendInstant(cfg, x) && w < x + now % MINUTE <= now
      ensures MostRecentWeeklyAsWritten(cfg, now) > w
    {
      assert x <= r;
    }
  }

  /** The due check as the source writes it, on the as-written daily
      instant: due when never sent, or when a send instant shifted by now's
      seconds and microseconds has passed since the last send. */
  function IsDailyDueAsWritten(cfg: Config, now: Time, lastSent: Option<Time>): (due: bool)
    ensures due <==>
              (lastSent.None? || exists x :: IsDailySendInstant(cfg, x) && lastSent.value < x + now % MINUTE <= now)
    ensures lastSent.Some? && lastSent.value >= now ==> !due
  {
    match lastSent
    case None => true
    case Some(w) =>
      AsWrittenDailyAfter(cfg, now, w);
      MostRecentDailyAsWritten(cfg, now) > w
  }

  /** The due check as the source writes it, on the as-written weekly
      instant. */
  function IsWeeklyDueAsWritten(cfg: Config, now: Time, lastSent: Option<Time>): (due: bool)
    ensures due <==>
              (lastSent.None? || exists x :: IsWeeklySendInstant(cfg, x) && lastSent.value < x + now % MINUTE <= now)
    ensures lastSent.Some? && lastSent.value >= now ==> !due
  {
    match lastSent
    case None => true
    case Some(w) =>
      AsWrittenWeeklyAfter(cfg, now, w);
      MostRecentWeeklyAsWritten(cfg, now) > w
  }

  /** With the daily send at 09:00 and the last run at 09:00:30 on day 0, a
      run at 08:59:45 on day 1 finds the tier due although no 09:00 has passed
      since the last send; a run 25 seconds later, at 09:00:10, finds it due
      again. */
  lemma DailyDueBeforeSendTime()
    ensures var cfg := Config(2 * DAY, 4, 9, 0);
      var lastRun := 9 * HOUR + 30 * SECOND;
      var early := DAY + 8 * HOUR + 59 * MINUTE + 45 * SECOND;
      var again := DAY + 9 * HOUR + 10 * SECOND;
      && IsDailyDueAsWritten(cfg, early, Some(lastRun))
      && !IsDailyDue(cfg, early, Some(lastRun))
      && !(exists x :: IsDailySendInstant(cfg, x) && lastRun < x <= early)
      && IsDailyDueAsWritten(cfg, again, Some(early))
  {
    var cfg := Config(2 * DAY, 4, 9, 0);
    var lastRun := 9 * HOUR + 30 * SECOND;
    var early := DAY + 8 * HOUR + 59 * MINUTE + 45 * SECOND;
    var again := DAY + 9 * HOUR + 10 * SECOND;
    assert early == Compose(0, 1, 8, 59, 45 * SECOND);
    ComposeFields(0, 1, 8, 59, 45 * SECOND);
    assert again == Compose(0, 1, 9, 0, 10 * SECOND);
    ComposeFields(0, 1, 9, 0, 10 * SECOND);
    assert MostRecentDailyAsWritten(cfg, early) == 9 * HOUR + 45 * SECOND;
    assert MostRecentDailyAsWritten(cfg, again) == again;
    assert MostRecentDaily(cfg, early) == 9 * HOUR;
  }

  /** The weekly counterpart: Friday 09:00 configured, last run Friday
      09:00:30, and a run the next Friday at 08:59:45 finds the tier due. */
  lemma WeeklyDueBeforeSendTime()
    ensures var cfg := Config(2 * DAY, 4, 9, 0);
      var lastRun := 4 * DAY + 9 * HOUR + 30 * SECOND;
      var early := WEEK + 4 * DAY + 8 * HOUR + 59 * MINUTE + 45 * SECOND;
      && IsWeeklyDueAsWritten(cfg, early, Some(lastRun))
      && !IsWeeklyDue(cfg, early, Some(lastRun))
      && !(exists x :: IsWeeklySendInstant(cfg, x) && lastRun < x <= early)
  {
    var cfg := Config(2 * DAY, 4, 9, 0);
    var lastRun := 4 * DAY + 9 * HOUR + 30 * SECOND;
    var early := WEEK + 4 * DAY + 8 * HOUR + 59 * MINUTE + 45 * SECOND;
    assert early == Compose(1, 4, 8, 59, 45 * SECOND);
    ComposeFields(1, 4, 8, 59, 45 * SECOND);
    assert MostRecentWeeklyAsWritten(cfg, early) == 4 * DAY + 9 * HOUR + 45 * SECOND;
    assert MostRecentWeekly(cfg, early) == 4 * DAY + 9 * HOUR;
  }
}
