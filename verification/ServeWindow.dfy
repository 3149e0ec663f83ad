/** The daily serve window: whole hours of local time, possibly running past midnight. */
module ServeWindows {
  const HOUR: nat := 3600
  const DAY: nat := 86400

  datatype ServeWindow = ServeWindow(start: nat, end: nat)

  predicate Valid(w: ServeWindow) {
    w.start <= 23 && w.end <= 23 && w.start != w.end
  }

  predicate Contains(w: ServeWindow, hour: nat) {
    if w.start < w.end then w.start <= hour < w.end else w.start <= hour || hour < w.end
  }

  /** The seconds from a second of the day to the next full `hour`, never zero. */
  function SecondsUntilHour(hour: nat, now: nat): int {
    var delta := hour * HOUR - now;
    if delta <= 0 then delta + DAY else delta
  }

  function SecondsUntilClose(w: ServeWindow, now: nat): int {
    SecondsUntilHour(w.end, now)
  }

  function SecondsUntilOpen(w: ServeWindow, now: nat): int {
    SecondsUntilHour(w.start, now)
  }

  /** Whether the window is open at a second counted from the beginning of some day. */
  predicate OpenAt(w: ServeWindow, t: nat) {
    Contains(w, t / HOUR % 24)
  }

  // ---------------------------------------------------------------- delays

  /** A delay is between a second and a day, and leads to the full hour. */
  lemma DelayLeadsToTheHour(hour: nat, now: nat)
    requires hour <= 23 && now < 86400
    ensures 1 <= SecondsUntilHour(hour, now) <= 86400
    ensures (now + SecondsUntilHour(hour, now)) % 86400 == hour * 3600
  {}

  /** The hour of a second less than two days on. */
  lemma HourOf(t: nat)
    requires t < 2 * DAY
    ensures t < DAY ==> t / HOUR % 24 == t / HOUR
    ensures t >= DAY ==> t / HOUR % 24 == (t - DAY) / HOUR
  {
    if t >= DAY {
      assert t == (t - DAY) + 24 * HOUR;
      assert t / HOUR == (t - DAY) / HOUR + 24;
    }
  }

  /** An open window stays open for exactly the announced time: at every second before, and at the
      announced second it is closed. */
  lemma StaysOpenUntilClose(w: ServeWindow, now: nat, d: nat)
    requires Valid(w) && now < DAY && OpenAt(w, now)
    ensures d < SecondsUntilClose(w, now) ==> OpenAt(w, now + d)
    ensures d == SecondsUntilClose(w, now) ==> !OpenAt(w, now + d)
  {
    HourOf(now);
    if d <= SecondsUntilClose(w, now) { HourOf(now + d); }
  }

  /** A closed window stays closed for exactly the announced time. */
  lemma StaysClosedUntilOpen(w: ServeWindow, now: nat, d: nat)
    requires Valid(w) && now < DAY && !OpenAt(w, now)
    ensures d < SecondsUntilOpen(w, now) ==> !OpenAt(w, now + d)
    ensures d == SecondsUntilOpen(w, now) ==> OpenAt(w, now + d)
  {
    HourOf(now);
    if d <= SecondsUntilOpen(w, now) { HourOf(now + d); }
  }

  /** From opening to closing and back to opening is one day. */
  lemma OneCycleIsADay(w: ServeWindow)
    requires Valid(w)
    ensures OpenAt(w, w.start * 3600) && !OpenAt(w, w.end * 3600)
    ensures SecondsUntilClose(w, w.start * 3600) + SecondsUntilOpen(w, w.end * 3600) == 86400
  {}
}
