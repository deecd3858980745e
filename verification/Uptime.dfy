/** What the readers of `status.py` answer, as functions of the tables.
    Uptimes count hundredths of a percent. */
module Uptime {
  import opened Common
  import opened MaintenanceWindows
  import opened Heartbeats

  /** Today is judged by its recorded beats, every other day by the checks it should have had. */
  function ScoreDay(today: bool, ok: int, observed: int, expected: int): Option<nat> {
    var denominator := if today then observed else Max(observed, expected);
    if ok >= 0 && denominator > 0 then Some(Percent(ok, denominator, 100)) else None
  }

  /** A summary row or a raw beat, excluded or not, exists for the day. */
  ghost predicate HasData(st: Store, key: Key, day: int) {
    DayKey(key, day) in st.daily || BeatsIn(st.beats, key, DayStart(day), DayEnd(day)) != {}
  }

  /** Passing checks of the day: the summary half plus the raw half. */
  ghost function DayOk(st: Store, key: Key, day: int): int {
    PriorRow(st.daily, DayKey(key, day)).ok + |ScoredOk(st.beats, st.windows, key, DayStart(day), DayEnd(day))|
  }

  ghost function DayObserved(st: Store, key: Key, day: int): int {
    var row := PriorRow(st.daily, DayKey(key, day));
    row.ok + row.fail + |Scored(st.beats, st.windows, key, DayStart(day), DayEnd(day))|
  }

  /** One entry of `_daily_uptime_map`. */
  ghost function DayUptime(st: Store, cfg: Settings, key: Key, day: int): Option<nat> {
    if HasData(st, key, day)
    then ScoreDay(day == DayOf(st.now), DayOk(st, key, day), DayObserved(st, key, day),
                  ExpectedForDay(st.windows, EpochOf(st.epochs, key), st.now, cfg.interval, key, day))
    else None
  }

  datatype UptimeResult = UptimeResult(uptime: Option<nat>, covered: int, window: int) {
    /** Fraction of the window with data. */
    function Coverage(): Option<real> {
      if window <= 0 then None
      else Some(if covered as real / window as real <= 1.0 then covered as real / window as real else 1.0)
    }
  }

  ghost function OldestRaw(beats: map<Slot, Beat>, key: Key): (r: Option<Instant>)
    ensures r.Some? ==> IsOldest(beats, key, r.value)
    ensures r.None? ==> BeatsOf(beats, key) == {}
  {
    if BeatsOf(beats, key) == {} then None
    else
      var o := OldestSlot(beats, key);
      Some(o.at)
  }

  ghost function OldestSlot(beats: map<Slot, Beat>, key: Key): (o: Slot)
    requires BeatsOf(beats, key) != {}
    ensures o.key == key && IsOldest(beats, key, o.at)
  {
    assert exists o :: o in BeatsOf(beats, key) && forall s :: s in BeatsOf(beats, key) ==> o.at <= s.at by {
      var w := Oldest(BeatsOf(beats, key));
    }
    var o :| o in BeatsOf(beats, key) && forall s :: s in BeatsOf(beats, key) ==> o.at <= s.at;
    assert forall s :: s in beats && s.key == key ==> s in BeatsOf(beats, key);
    assert o == Slot(key, o.at);
    o
  }

  /** Where the raw span starts, and the first date not taken from the summaries. */
  function SplitPoint(oldest: Option<Instant>, windowStart: Instant, now: Instant): (Instant, Option<int>) {
    match oldest
    case None => (now, Some(DayOf(now) + 1))
    case Some(o) => if o > windowStart then (o, Some(DayOf(o))) else (windowStart, None)
  }

  datatype Totals = Totals(ok: int, expected: int, days: nat)

  /** The daily rows of the monitor dated in [from, to). */
  function SummaryTotals(daily: map<DayKey, Daily>, key: Key, from: int, until: int): Totals
    decreases until - from
  {
    if until <= from then Totals(0, 0, 0)
    else
      var t, d := SummaryTotals(daily, key, from, until - 1), DayKey(key, until - 1);
      if d in daily then Totals(t.ok + daily[d].ok, t.expected + daily[d].expected, t.days + 1) else t
  }

  function SummaryPart(st: Store, key: Key, windowStart: Instant, stop: Option<int>): Totals {
    match stop
    case None => Totals(0, 0, 0)
    case Some(until) => SummaryTotals(st.daily, key, DayOf(windowStart), until)
  }

  ghost function RawPart(st: Store, cfg: Settings, key: Key, rawStart: Instant): Totals {
    if rawStart >= st.now then Totals(0, 0, 0)
    else
      var effective := st.now - rawStart - ExcludedTime(st.windows, key, rawStart, st.now);
      if effective <= 0 then Totals(0, 0, 0)
      else Totals(|ScoredOk(st.beats, st.windows, key, rawStart, st.now)|, effective / cfg.interval, 0)
  }

  /** `_uptime_over_window`. */
  ghost function WindowUptime(st: Store, cfg: Settings, windowStart: Instant, key: Key): UptimeResult {
    var window := st.now - windowStart;
    if window <= 0 then UptimeResult(None, 0, Max(window, 0))
    else
      var (rawStart, stop) := SplitPoint(OldestRaw(st.beats, key), windowStart, st.now);
      var summary, raw := SummaryPart(st, key, windowStart, stop), RawPart(st, cfg, key, rawStart);
      var recent := if rawStart < st.now then st.now - rawStart else 0;
      var ok, expected := raw.ok + summary.ok, raw.expected + summary.expected;
      UptimeResult(if ok >= 0 && expected >= 1 then Some(Percent(ok, expected, 100)) else None,
                   Min(recent + summary.days * 86_400_000_000, window), window)
  }

  /** `HeartbeatEpoch.get_epoch`: without an epoch row, the oldest surviving beat. */
  ghost function EpochStart(st: Store, key: Key): Option<Instant> {
    if key in st.epochs then Some(st.epochs[key]) else OldestRaw(st.beats, key)
  }

  /** Where the last `hours` start, no earlier than the epoch. */
  ghost function RollingStart(st: Store, key: Key, hours: int): Instant {
    var start := st.now - hours * 3_600_000_000;
    match EpochStart(st, key)
    case Some(e) => Max(start, e)
    case None => start
  }
}
