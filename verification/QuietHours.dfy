/** Daily quiet hours in UTC: the planner's day loop (internal/agency/tau.go) and the adapter's
    hour test and deferral (plugin/src/agency.ts).

    Instants are integers counting nanoseconds from midnight UTC, 1 January of year 1, the zero time. */
module QuietHours {
  import opened Prelude

  const HOUR: int := 3_600_000_000_000
  const DAY: int := 86_400_000_000_000

  datatype Hours = Hours(start: int, end: int)

  ghost predicate ValidHour(h: int) { 0 <= h < 24 }

  ghost predicate HoursInRange(q: Hours) { ValidHour(q.start) && ValidHour(q.end) }

  /** The quiet window that opens on day number `day`; it runs past midnight when it does not end later the same day. */
  ghost predicate InWindowOf(t: int, day: int, q: Hours)
  {
    var lo := day * DAY + q.start * HOUR;
    var hi := day * DAY + q.end * HOUR;
    lo <= t < (if hi <= lo then hi + DAY else hi)
  }

  /** `t` lies in the quiet window of some day. */
  ghost predicate Quiet(t: int, q: Hours) { exists day: int :: InWindowOf(t, day, q) }

  ghost predicate SomeInstantQuiet(start: int, end: int, q: Hours)
  {
    exists t: int :: start <= t <= end && Quiet(t, q)
  }

  function DayOf(t: int): int { t / DAY }

  lemma DayOfBounds(t: int)
    ensures DayOf(t) * DAY <= t < (DayOf(t) + 1) * DAY
  {
  }

  /** Only the window of the same day or of the day before can contain an instant. */
  lemma WindowDays(t: int, day: int, q: Hours)
    requires HoursInRange(q) && InWindowOf(t, day, q)
    ensures DayOf(t) - 1 <= day <= DayOf(t)
  {
    DayOfBounds(t);
  }

  /** The planner's test. It starts one day early, because yesterday's window may reach into today. */
  method TauQuietBlocked(start: int, end: int, quiet: Option<Hours>) returns (blocked: bool)
    requires start <= end && (quiet.Some? ==> HoursInRange(quiet.value))
    ensures blocked <==> quiet.Some? && SomeInstantQuiet(start, end, quiet.value)
  {
    if quiet.None? { return false; }
    var q := quiet.value;
    ghost var n := DayOf(start) - 1;
    DayOfBounds(start);
    var day := start - start % DAY - DAY;
    while day <= end
      invariant day == n * DAY && n >= DayOf(start) - 1
      invariant forall t: int, k: int :: start <= t <= end && k < n ==> !InWindowOf(t, k, q)
      decreases end - day
    {
      var lo := day + q.start * HOUR;
      var hi := day + q.end * HOUR;
      if hi <= lo { hi := hi + DAY; }
      if start < hi && end >= lo {
        ghost var t := if start < lo then lo else start;
        assert InWindowOf(t, n, q) && Quiet(t, q);
        return true;
      }
      n := n + 1;
      day := day + DAY;
    }
    forall t: int | start <= t <= end ensures !Quiet(t, q) {
      forall k: int ensures !InWindowOf(t, k, q) {
        if InWindowOf(t, k, q) { WindowDays(t, k, q); DayOfBounds(t); }
      }
    }
    blocked := false;
  }

  // ---- the adapter ----

  function UtcHour(t: int): int { t % DAY / HOUR }

  function InQuietHours(t: int, q: Option<Hours>): bool
  {
    if q.None? || q.value.start == q.value.end then false
    else
      var hour := UtcHour(t);
      if q.value.start < q.value.end then q.value.start <= hour < q.value.end
      else hour >= q.value.start || hour < q.value.end
  }

  method NextQuietEnd(t: int, end: int) returns (result: int)
    ensures result == QuietEndAfter(t, end)
  {
    result := t - t % DAY + end * HOUR;
    if result <= t { result := result + DAY; }
  }

  function QuietEndAfter(t: int, end: int): int
  {
    var sameDay := t - t % DAY + end * HOUR;
    if sameDay <= t then sameDay + DAY else sameDay
  }

  lemma UtcHourBounds(t: int)
    ensures 0 <= UtcHour(t) < 24
    ensures DayOf(t) * DAY + UtcHour(t) * HOUR <= t < DayOf(t) * DAY + (UtcHour(t) + 1) * HOUR
  {
    assert t == DayOf(t) * DAY + t % DAY;
  }

  /** The two programs read the same hours the same way exactly when the endpoints differ: with equal endpoints
      the planner would find every instant quiet and the adapter none, so validation must reject them. */
  lemma PlannerAndAdapterAgree(q: Hours)
    requires HoursInRange(q)
    ensures (forall t: int :: InQuietHours(t, Some(q)) <==> Quiet(t, q)) <==> q.start != q.end
  {
    if q.start == q.end {
      assert InWindowOf(q.start * HOUR, 0, q);
      assert Quiet(q.start * HOUR, q) && !InQuietHours(q.start * HOUR, Some(q));
    } else {
      forall t: int ensures InQuietHours(t, Some(q)) <==> Quiet(t, q) { AgreeAt(t, q); }
    }
  }

  lemma AgreeAt(t: int, q: Hours)
    requires HoursInRange(q) && q.start != q.end
    ensures InQuietHours(t, Some(q)) <==> Quiet(t, q)
  {
    UtcHourBounds(t);
    if InQuietHours(t, Some(q)) {
      var hour := UtcHour(t);
      assert InWindowOf(t, if q.start < q.end || hour >= q.start then DayOf(t) else DayOf(t) - 1, q);
    }
    if Quiet(t, q) {
      var day: int :| InWindowOf(t, day, q);
      WindowDays(t, day, q);
    }
  }

  /** Deferring out of quiet hours picks the first later instant that is not quiet. */
  lemma QuietEndIsFirst(t: int, q: Hours)
    requires HoursInRange(q) && InQuietHours(t, Some(q))
    ensures var d := QuietEndAfter(t, q.end);
      t < d && !InQuietHours(d, Some(q)) && forall u: int :: t <= u < d ==> InQuietHours(u, Some(q))
  {
    QuietEndIsNotQuiet(t, q);
    forall u: int | t <= u < QuietEndAfter(t, q.end) ensures InQuietHours(u, Some(q)) {
      QuietUntilEnd(t, u, q);
    }
  }

  lemma QuietEndIsNotQuiet(t: int, q: Hours)
    requires HoursInRange(q) && InQuietHours(t, Some(q))
    ensures t < QuietEndAfter(t, q.end) && !InQuietHours(QuietEndAfter(t, q.end), Some(q))
  {
    UtcHourBounds(t);
    assert t - t % DAY == DayOf(t) * DAY;
    UtcHourAt(DayOf(t), q.end);
    UtcHourAt(DayOf(t) + 1, q.end);
    hide UtcHour, DayOf;
  }

  lemma UtcHourAt(day: int, h: int)
    requires ValidHour(h)
    ensures UtcHour(day * DAY + h * HOUR) == h
  {
    hide UtcHour, DayOf;
    UtcHourBounds(day * DAY + h * HOUR);
  }

  lemma QuietUntilEnd(t: int, u: int, q: Hours)
    requires HoursInRange(q) && InQuietHours(t, Some(q)) && t <= u < QuietEndAfter(t, q.end)
    ensures InQuietHours(u, Some(q))
  {
    UtcHourBounds(t);
    UtcHourBounds(u);
    assert t - t % DAY == DayOf(t) * DAY;
    assert DayOf(u) == DayOf(t) || DayOf(u) == DayOf(t) + 1;
  }
}
