/** The heartbeat tables as an object that the operations update in place. */
module HeartbeatStore {
  import opened Common
  import opened MaintenanceWindows
  import opened Heartbeats
  import opened Uptime

  class Tables {
    const cfg: Settings
    var now: Instant
    var beats: map<Slot, Beat>
    var daily: map<DayKey, Daily>
    /** The rows' `avg_response_ms` column; no score reads it. */
    var averages: map<DayKey, nat>
    var windows: seq<Window>
    var epochs: map<Key, Instant>

    ghost predicate Valid()
      reads this
    {
      Sane(windows) && NonNegative(daily)
    }

    ghost function View(): Store
      reads this
    {
      Store(now, beats, daily, windows, epochs)
    }

    constructor (cfg: Settings, now: Instant)
      ensures Valid() && this.cfg == cfg && View() == Store(now, map[], map[], [], map[]) && averages == map[]
    {
      this.cfg, this.now := cfg, now;
      beats, daily, averages, windows, epochs := map[], map[], map[], [], map[];
    }

    method Tick(elapsed: nat)
      requires Valid()
      modifies this`now
      ensures Valid() && View() == old(View()).(now := old(now) + elapsed)
    {
      now := now + elapsed;
    }

    // ---- recording ----

    method EnsureEpochRow(key: Key)
      modifies this`epochs
      ensures EnsuredEpochs(old(epochs), beats, key, epochs)
    {
      if key in epochs { return; }
      var todo := BeatsOf(beats, key);
      if todo == {} { return; }
      var first :| first in todo;
      todo := todo - {first};
      while todo != {}
        invariant todo <= BeatsOf(beats, key) && first in BeatsOf(beats, key)
        invariant forall s :: s in BeatsOf(beats, key) ==> s in todo || first.at <= s.at
        decreases todo
      {
        var s :| s in todo;
        if s.at < first.at { first := s; }
        todo := todo - {s};
      }
      assert first == Slot(key, first.at);
      assert forall s :: s in beats && s.key == key ==> s in BeatsOf(beats, key);
      epochs := epochs[key := first.at];
    }

    /** `run_monitor_check`, given what the probe did. */
    method RunMonitorCheck(key: Key, outcome: Outcome) returns (beat: Beat, created: bool)
      requires Valid()
      modifies this`beats, this`epochs
      ensures Valid() && View() == Record(old(View()), key, outcome)
      ensures created == (Slot(key, MinuteOf(now)) !in old(beats)) && beats[Slot(key, MinuteOf(now))] == beat
      ensures MinuteOf(now) % 60_000_000 == 0 && 0 <= now - MinuteOf(now) < 60_000_000
      ensures IsBeatOf(outcome, beat)
      ensures beat.maintenance <==> exists w :: w in windows && w.key == key && w.start <= MinuteOf(now) < w.end
    {
      var minute := MinuteOf(now);
      beat := BeatFor(outcome, InMaintenance(windows, key, minute));
      created := Slot(key, minute) !in beats;
      beats := beats[Slot(key, minute) := beat];
      EnsureEpochRow(key);
      EnsuredEpochsUnique(old(epochs), beats, key, epochs, EnsureEpoch(old(epochs), beats, key));
    }

    // ---- pruning ----

    /** `expected_intervals_for_day`. */
    method ExpectedIntervalsForDay(key: Key, day: int) returns (n: nat)
      requires Valid()
      ensures n == ExpectedForDay(windows, EpochOf(epochs, key), now, cfg.interval, key, day)
    {
      var start, end := SpanStart(EpochOf(epochs, key), day), Min(DayEnd(day), now);
      if end <= start { return 0; }
      var excluded := GetExcludedTime(windows, key, start, end);
      ExcludedTimeBounded(windows, key, start, end);
      n := (end - start - excluded) / cfg.interval;
    }

    /** The excluded share of one day's batch, counted range by range. */
    method CountMasked(batch: map<Slot, Beat>, key: Key, day: int) returns (maskedOk: int, masked: int)
      requires Valid()
      ensures masked == |Masked(batch, windows, key, DayStart(day), DayEnd(day))|
      ensures maskedOk == |OkAmong(batch, Masked(batch, windows, key, DayStart(day), DayEnd(day)))|
    {
      var lo, hi := DayStart(day), DayEnd(day);
      var ranges := GetExcludedRanges(windows, key, lo, hi);
      var mine := set s | s in batch && s.key == key && lo <= s.at < hi;
      maskedOk, masked := 0, 0;
      for i := 0 to |ranges|
        invariant masked == |InFirst(mine, ranges, i)|
        invariant maskedOk == |OkAmong(batch, InFirst(mine, ranges, i))|
      {
        var span := set s | s in mine && ranges[i].start <= s.at < ranges[i].end;
        NextRange(batch, mine, ranges, i, span, lo, hi);
        masked := masked + |span|;
        maskedOk := maskedOk + |set s | s in span && batch[s].ok|;
      }
      forall t { MergeMembership(ranges, windows, key, lo, hi, t); }
      assert InFirst(mine, ranges, |ranges|) == Masked(batch, windows, key, lo, hi) by {
        assert ranges[..|ranges|] == ranges;
      }
    }

    method AddMs(batch: map<Slot, Beat>, slots: set<Slot>) returns (sum: nat)
      requires slots <= batch.Keys
      ensures sum == SumMs(batch, slots)
    {
      sum := 0;
      var todo := slots;
      while todo != {}
        invariant todo <= slots && sum + SumMs(batch, todo) == SumMs(batch, slots)
        decreases todo
      {
        var s :| s in todo;
        SumMsTakesOut(batch, todo, s);
        sum := sum + batch[s].ms;
        todo := todo - {s};
      }
    }

    /** The mean of one touched day after taking in its share of the batch. */
    method MergeAverage(batch: map<Slot, Beat>, d: DayKey, scored: nat, ghost base: map<DayKey, Daily>)
      returns (average: nat)
      requires PriorRow(daily, d) == PriorRow(base, d)
      requires scored == |Scored(batch, windows, d.key, DayStart(d.day), DayEnd(d.day))|
      ensures average == MergedAverage(AverageOf(averages, d), base, batch, windows, d)
    {
      var lo, hi := DayStart(d.day), DayEnd(d.day);
      var mine := set s | s in batch && s.key == d.key && lo <= s.at < hi;
      assert mine == BeatsIn(batch, d.key, lo, hi);
      var sum := AddMs(batch, mine);
      var row := PriorRow(daily, d);
      average := FoldAverage(AverageOf(averages, d), row.ok + row.fail, sum, |mine|, scored);
    }

    /** The row of one touched day after taking in its share of the batch. */
    method FoldDay(batch: map<Slot, Beat>, d: DayKey, ghost base: map<DayKey, Daily>, ghost rows: DayKey -> Daily)
      returns (row: Daily, average: nat)
      requires Valid() && PriorRow(daily, d) == PriorRow(base, d)
      requires rows == Folder(base, batch, windows, epochs, now, cfg.interval)
      ensures row == rows(d) && average == MergedAverage(AverageOf(averages, d), base, batch, windows, d)
    {
      var lo, hi := DayStart(d.day), DayEnd(d.day);
      var ok := |set s | s in batch && s.key == d.key && lo <= s.at < hi && batch[s].ok|;
      var fail := |set s | s in batch && s.key == d.key && lo <= s.at < hi && !batch[s].ok|;
      var expected := ExpectedIntervalsForDay(d.key, d.day);
      var maskedOk, masked := CountMasked(batch, d.key, d.day);
      SplitAtWindows(batch, windows, d.key, lo, hi);
      var slaOk, slaFail := ok - maskedOk, fail - (masked - maskedOk);
      row := FoldRow(PriorRow(daily, d), slaOk, slaFail, masked, expected);
      ScoredSplits(batch, windows, d.key, lo, hi);
      average := MergeAverage(batch, d, slaOk + slaFail, base);
    }

    method SaveDay(batch: map<Slot, Beat>, d: DayKey, ghost base: map<DayKey, Daily>, ghost rows: DayKey -> Daily)
      requires Valid() && PriorRow(daily, d) == PriorRow(base, d) && NonNegative(base)
      requires rows == Folder(base, batch, windows, epochs, now, cfg.interval)
      modifies this`daily, this`averages
      ensures Valid() && daily == old(daily)[d := rows(d)]
      ensures averages == old(averages)[d := MergedAverage(AverageOf(old(averages), d), base, batch, windows, d)]
    {
      RowStaysNonNegative(base, d, batch, windows, epochs, now, cfg.interval);
      var row, average := FoldDay(batch, d, base, rows);
      daily := daily[d := row];
      averages := averages[d := average];
    }

    /** The days outside `todo` are done. */
    ghost predicate Folded(batch: map<Slot, Beat>, days: set<DayKey>, todo: set<DayKey>,
                           base: map<DayKey, Daily>, means: map<DayKey, nat>, rows: DayKey -> Daily)
      reads this
    {
      && daily == Patched(base, days - todo, rows)
      && averages == Averaged(means, days - todo, base, batch, windows)
    }

    /** One turn of the loop over the touched days. */
    method FoldOneMore(batch: map<Slot, Beat>, d: DayKey, ghost days: set<DayKey>, ghost todo: set<DayKey>,
                       ghost base: map<DayKey, Daily>, ghost means: map<DayKey, nat>, ghost rows: DayKey -> Daily)
      requires Valid() && NonNegative(base) && d in todo && todo <= days && Folded(batch, days, todo, base, means, rows)
      requires rows == Folder(base, batch, windows, epochs, now, cfg.interval)
      modifies this`daily, this`averages
      ensures Valid() && Folded(batch, days, todo - {d}, base, means, rows)
    {
      PatchOneMore(base, days, todo, rows, d);
      AverageOneMore(means, days, todo, base, batch, windows, d);
      SaveDay(batch, d, base, rows);
    }

    method FoldDays(batch: map<Slot, Beat>, days: set<DayKey>, ghost rows: DayKey -> Daily)
      requires Valid() && rows == Folder(daily, batch, windows, epochs, now, cfg.interval)
      modifies this`daily, this`averages
      ensures Valid() && Folded(batch, days, {}, old(daily), old(averages), rows)
    {
      PatchEnds(daily, days, rows);
      AverageEnds(averages, days, daily, batch, windows);
      var todo := days;
      while todo != {}
        invariant todo <= days && Valid() && Folded(batch, days, todo, old(daily), old(averages), rows)
        decreases todo
      {
        var d :| d in todo;
        FoldOneMore(batch, d, days, todo, old(daily), old(averages), rows);
        todo := todo - {d};
      }
    }

    /** `_write_daily_summaries`. */
    method WriteDailySummaries(batch: map<Slot, Beat>)
      requires Valid()
      modifies this`daily, this`averages
      ensures Valid()
      ensures daily == Summarized(old(daily), batch, windows, epochs, now, cfg.interval)
      ensures averages == Averaged(old(averages), DaysTouched(batch), old(daily), batch, windows)
    {
      ghost var days := DaysTouched(batch);
      FoldDays(batch, DaysTouched(batch), Folder(daily, batch, windows, epochs, now, cfg.interval));
      assert days - {} == days;
    }

    /** `prune_old_heartbeats`: fold, then delete. */
    method PruneOldHeartbeats() returns (deleted: nat)
      requires Valid()
      modifies this`beats, this`daily, this`averages
      ensures Valid() && View() == Prune(old(View()), cfg)
      ensures averages == Averaged(old(averages), DaysTouched(OldBeats(old(View()), cfg)), old(daily),
                                   OldBeats(old(View()), cfg), windows)
      ensures deleted == |OldBeats(old(View()), cfg)|
    {
      var cutoff := now - cfg.retentionDays * 86_400_000_000;
      var batch := map s | s in beats && s.at < cutoff :: beats[s];
      assert batch == OldBeats(View(), cfg);
      if batch == map[] {
        PruneNothing(View(), cfg);
        NothingAveraged(averages, daily, batch, windows);
        return 0;
      }
      WriteDailySummaries(batch);
      beats := map s | s in beats && s.at >= cutoff :: beats[s];
      assert beats == FreshBeats(old(View()), cfg);
      deleted := |batch|;
    }

    // ---- maintenance commands ----

    method OpenWindow(key: Key, start: Instant, end: Instant, exclude: bool) returns (accepted: bool)
      requires Valid()
      modifies this`windows
      ensures Valid() && View() == Heartbeats.OpenWindow(old(View()), key, start, end, exclude)
      ensures accepted <==> start < end
      ensures accepted ==> windows == old(windows) + [Window(key, start, end, exclude)]
    {
      if end <= start { return false; }
      windows := windows + [Window(key, start, end, exclude)];
      accepted := true;
    }

    method OpenWindowFor(key: Key, minutes: int, exclude: bool) returns (accepted: bool)
      requires Valid()
      modifies this`windows
      ensures Valid() && View() == Heartbeats.OpenWindowFor(old(View()), key, minutes, exclude)
      ensures accepted <==> minutes > 0
      ensures accepted ==> windows == old(windows) + [Window(key, now, now + 60 * minutes * 1_000_000, exclude)]
    {
      if minutes <= 0 { return false; }
      accepted := OpenWindow(key, now, now + minutes * 60_000_000, exclude);
    }

    method CloseWindows(key: Key, deleteFuture: bool) returns (ended: nat, deleted: nat)
      requires Valid()
      modifies this`windows
      ensures Valid() && View() == Heartbeats.CloseWindows(old(View()), key, deleteFuture)
      ensures |windows| + deleted == |old(windows)|
      ensures ended == ActiveCount(old(windows), key, now)
    {
      var kept: seq<Window> := [];
      ended, deleted := 0, 0;
      for n := 0 to |windows|
        invariant windows == old(windows)
        invariant kept == Closed(windows[..n], key, now, deleteFuture)
        invariant |kept| + deleted == n
        invariant ended == ActiveCount(windows[..n], key, now)
      {
        assert windows[..n + 1][..n] == windows[..n];
        var w := windows[n];
        if ActiveAt(w, key, now) {
          ended := ended + 1;
        }
        if Dropped(w, key, now, deleteFuture) {
          deleted := deleted + 1;
        } else {
          kept := kept + [Ended(w, key, now)];
        }
      }
      assert windows[..|windows|] == windows;
      CloseEndsEverythingActive(windows, key, now, deleteFuture);
      windows := kept;
    }

    // ---- readers ----

    /** `_get_non_maintenance_counts`: exclude the merged ranges one by one. */
    method NonMaintenanceCounts(lo: Instant, hi: Instant, key: Key) returns (ok: nat, observed: nat)
      requires Valid() && lo <= hi
      ensures ok == |ScoredOk(beats, windows, key, lo, hi)|
      ensures observed == |Scored(beats, windows, key, lo, hi)|
    {
      var ranges := GetExcludedRanges(windows, key, lo, hi);
      var mine := set s | s in beats && s.key == key && lo <= s.at < hi;
      var left := mine;
      for i := 0 to |ranges|
        invariant left == set s | s in mine && !InRanges(ranges[..i], s.at)
      {
        assert ranges[..i + 1] == ranges[..i] + [ranges[i]];
        left := set s | s in left && !(ranges[i].start <= s.at < ranges[i].end);
      }
      assert ranges[..|ranges|] == ranges;
      forall t { MergeMembership(ranges, windows, key, lo, hi, t); }
      assert left == Scored(beats, windows, key, lo, hi);
      assert (set s | s in left && beats[s].ok) == ScoredOk(beats, windows, key, lo, hi);
      ok, observed := |set s | s in left && beats[s].ok|, |left|;
    }

    /** The two halves of a day summed: `(has data, ok, observed)`. */
    method DayTotals(key: Key, day: int) returns (any: bool, ok: int, observed: int)
      requires Valid()
      ensures any == HasData(View(), key, day)
      ensures ok == DayOk(View(), key, day) && observed == DayObserved(View(), key, day)
    {
      var lo, hi := DayStart(day), DayEnd(day);
      var raw := set s | s in beats && s.key == key && lo <= s.at < hi;
      assert raw == BeatsIn(beats, key, lo, hi);
      var row := PriorRow(daily, DayKey(key, day));
      any := DayKey(key, day) in daily || raw != {};
      ok, observed := row.ok, row.ok + row.fail;
      if raw != {} {
        var rawOk, rawObserved := NonMaintenanceCounts(lo, hi, key);
        ok, observed := ok + rawOk, observed + rawObserved;
      } else {
        assert Scored(beats, windows, key, lo, hi) <= raw;
        assert ScoredOk(beats, windows, key, lo, hi) <= raw;
      }
    }

    method UptimeOfDay(key: Key, day: int) returns (uptime: Option<nat>)
      requires Valid()
      ensures uptime == DayUptime(View(), cfg, key, day) && IsDayEntry(View(), cfg, key, day, uptime)
    {
      var any, ok, observed := DayTotals(key, day);
      if !any { return None; }
      var expected := ExpectedIntervalsForDay(key, day);
      uptime := ScoreDay(day == DayOf(now), ok, observed, expected);
      var divisor := if day == DayOf(now) then observed else Max(observed, expected);
      OkAmongObserved(View(), key, day);
      if divisor > 0 { PercentIsNearest(ok, divisor, 100); }
    }

    /** `_daily_uptime_map` over the dates [start, end], both included. */
    method DailyUptimeMap(key: Key, start: int, end: int) returns (result: map<int, Option<nat>>)
      requires Valid()
      ensures forall day :: day in result <==> start <= day <= end
      ensures forall day :: day in result ==>
              result[day] == DayUptime(View(), cfg, key, day) && IsDayEntry(View(), cfg, key, day, result[day])
    {
      result := map[];
      var day := start;
      while day <= end
        invariant start <= day && (day == start || day <= end + 1)
        invariant forall x :: x in result <==> start <= x < day
        invariant forall x :: x in result ==>
                    result[x] == DayUptime(View(), cfg, key, x) && IsDayEntry(View(), cfg, key, x, result[x])
      {
        var uptime := UptimeOfDay(key, day);
        result := result[day := uptime];
        day := day + 1;
      }
    }

    method OldestRawBeat(key: Key) returns (oldest: Option<Instant>)
      ensures oldest == OldestRaw(beats, key)
    {
      var todo := BeatsOf(beats, key);
      oldest := None;
      while todo != {}
        invariant todo <= BeatsOf(beats, key)
        invariant oldest.None? ==> todo == BeatsOf(beats, key)
        invariant oldest.Some? ==> Slot(key, oldest.value) in beats
        invariant oldest.Some? ==> forall s :: s in BeatsOf(beats, key) ==> s in todo || oldest.value <= s.at
        decreases todo
      {
        var s :| s in todo;
        assert s == Slot(key, s.at);
        if oldest.None? || s.at < oldest.value { oldest := Some(s.at); }
        todo := todo - {s};
      }
      if oldest.Some? {
        assert Slot(key, oldest.value) in BeatsOf(beats, key);
        assert forall s :: s in beats && s.key == key ==> s in BeatsOf(beats, key);
      }
    }

    method SumSummaries(key: Key, windowStart: Instant, stop: Option<int>) returns (t: Totals)
      requires Valid()
      ensures t == SummaryPart(View(), key, windowStart, stop) && t.ok >= 0 && t.expected >= 0
    {
      t := Totals(0, 0, 0);
      if stop.None? { return; }
      var day := DayOf(windowStart);
      while day < stop.value
        invariant day == DayOf(windowStart) || day <= stop.value
        invariant day >= DayOf(windowStart)
        invariant t == SummaryTotals(daily, key, DayOf(windowStart), day) && t.ok >= 0 && t.expected >= 0
      {
        var d := DayKey(key, day);
        if d in daily {
          t := Totals(t.ok + daily[d].ok, t.expected + daily[d].expected, t.days + 1);
        }
        day := day + 1;
      }
    }

    method SumRaw(key: Key, rawStart: Instant) returns (t: Totals)
      requires Valid()
      ensures t == RawPart(View(), cfg, key, rawStart) && t.ok >= 0 && t.expected >= 0
    {
      t := Totals(0, 0, 0);
      if rawStart < now {
        var excluded := GetExcludedTime(windows, key, rawStart, now);
        var effective := now - rawStart - excluded;
        if effective > 0 {
          var ok, _ := NonMaintenanceCounts(rawStart, now, key);
          t := Totals(ok, effective / cfg.interval, 0);
        }
      }
    }

    /** `_uptime_over_window`. */
    method UptimeOverWindow(windowStart: Instant, key: Key) returns (r: UptimeResult)
      requires Valid()
      ensures r == WindowUptime(View(), cfg, windowStart, key)
    {
      var window := now - windowStart;
      if window <= 0 { return UptimeResult(None, 0, Max(window, 0)); }
      var oldest := OldestRawBeat(key);
      var (rawStart, stop) := SplitPoint(oldest, windowStart, now);
      var summary := SumSummaries(key, windowStart, stop);
      var raw := SumRaw(key, rawStart);
      var recent := if rawStart < now then now - rawStart else 0;
      var expected := raw.expected + summary.expected;
      r := UptimeResult(if expected >= 1 then Some(Percent(raw.ok + summary.ok, expected, 100)) else None,
                        Min(recent + summary.days * 86_400_000_000, window), window);
    }

    method GetEpoch(key: Key) returns (epoch: Option<Instant>)
      ensures epoch == EpochStart(View(), key)
    {
      if key in epochs { return Some(epochs[key]); }
      epoch := OldestRawBeat(key);
    }

    /** `_calc_uptime`. */
    method CalcUptime(hours: int, key: Key) returns (uptime: Option<nat>)
      requires Valid()
      ensures uptime == WindowUptime(View(), cfg, RollingStart(View(), key, hours), key).uptime
    {
      var epoch := GetEpoch(key);
      var windowStart := now - hours * 3_600_000_000;
      if epoch.Some? && windowStart < epoch.value { windowStart := epoch.value; }
      var r := UptimeOverWindow(windowStart, key);
      uptime := r.uptime;
    }

    /** `_calc_overall_uptime` and `_coverage_since_epoch`. */
    method SinceEpoch(key: Key) returns (r: Option<UptimeResult>)
      requires Valid()
      ensures r == match EpochStart(View(), key)
                   case Some(e) => Some(WindowUptime(View(), cfg, e, key))
                   case None => None
    {
      var epoch := GetEpoch(key);
      if epoch.None? { return None; }
      var since := UptimeOverWindow(epoch.value, key);
      r := Some(since);
    }
  }

  /** What a probe leaves behind: a raised exception is a failure that took no time, a note explains a failure in at
      most 255 characters, and a success needs none. */
  predicate IsBeatOf(outcome: Outcome, beat: Beat) {
    var said := if outcome.Raised? then outcome.message else outcome.note;
    && (beat.ok <==> outcome.Checked? && outcome.ok)
    && beat.ms == (if outcome.Checked? then outcome.ms else 0)
    && (beat.ok ==> beat.note == "")
    && (!beat.ok ==> beat.note <= said && |beat.note| <= 255 && (|said| <= 255 ==> beat.note == said)
                     && (|said| > 255 ==> |beat.note| == 255))
  }

  /** The columns are positive integers. */
  ghost predicate NonNegative(daily: map<DayKey, Daily>) {
    forall d :: d in daily ==>
      daily[d].ok >= 0 && daily[d].fail >= 0 && daily[d].maintenance >= 0 && daily[d].expected >= 0
  }

  /** An entry exists iff the day has data and something to be divided by: today the checks seen, any other day those
      seen or expected, whichever are more; and then it is the share that passed. */
  ghost predicate IsDayEntry(st: Store, cfg: Settings, key: Key, day: int, entry: Option<nat>) {
    var ok, observed := DayOk(st, key, day), DayObserved(st, key, day);
    var expected := ExpectedForDay(st.windows, EpochOf(st.epochs, key), st.now, cfg.interval, key, day);
    var divisor := if DayStart(day) <= st.now < DayEnd(day) || observed >= expected then observed else expected;
    if HasData(st, key, day) && divisor > 0 then entry.Some? && Nearest(entry.value, 10000 * ok, divisor)
    else entry.None?
  }

  lemma OkAmongObserved(st: Store, key: Key, day: int)
    requires NonNegative(st.daily)
    ensures 0 <= DayOk(st, key, day) <= DayObserved(st, key, day)
    ensures DayStart(day) <= st.now < DayEnd(day) <==> day == DayOf(st.now)
  {
    ScoredSplits(st.beats, st.windows, key, DayStart(day), DayEnd(day));
    DayOfBounds(st.now, day);
  }

  lemma RowStaysNonNegative(daily: map<DayKey, Daily>, d: DayKey, batch: map<Slot, Beat>,
                            windows: seq<Window>, epochs: map<Key, Instant>, now: Instant, interval: int)
    requires NonNegative(daily) && interval > 0
    ensures var row := Folder(daily, batch, windows, epochs, now, interval)(d);
            row.ok >= 0 && row.fail >= 0 && row.maintenance >= 0 && row.expected >= 0
  {
  }

  // ---- the running means ----

  function AverageOf(averages: map<DayKey, nat>, d: DayKey): nat { if d in averages then averages[d] else 0 }

  ghost function MergedAverage(average: nat, daily: map<DayKey, Daily>,
                               batch: map<Slot, Beat>, windows: seq<Window>, d: DayKey): nat {
    var lo, hi, row := DayStart(d.day), DayEnd(d.day), PriorRow(daily, d);
    FoldAverage(average, row.ok + row.fail, SumMs(batch, BeatsIn(batch, d.key, lo, hi)),
                |BeatsIn(batch, d.key, lo, hi)|, |Scored(batch, windows, d.key, lo, hi)|)
  }

  ghost function Averaged(averages: map<DayKey, nat>, days: set<DayKey>, daily: map<DayKey, Daily>,
                          batch: map<Slot, Beat>, windows: seq<Window>): map<DayKey, nat> {
    map d | d in averages.Keys + days ::
      if d in days then MergedAverage(AverageOf(averages, d), daily, batch, windows, d) else averages[d]
  }

  lemma NothingAveraged(averages: map<DayKey, nat>, daily: map<DayKey, Daily>,
                        batch: map<Slot, Beat>, windows: seq<Window>)
    requires batch == map[]
    ensures Averaged(averages, DaysTouched(batch), daily, batch, windows) == averages
  {
    assert DaysTouched(batch) == {};
  }

  lemma AverageEnds(averages: map<DayKey, nat>, days: set<DayKey>,
                    daily: map<DayKey, Daily>, batch: map<Slot, Beat>, windows: seq<Window>)
    ensures Averaged(averages, days - days, daily, batch, windows) == averages
  {
  }

  lemma AverageOneMore(averages: map<DayKey, nat>, days: set<DayKey>, todo: set<DayKey>,
                       daily: map<DayKey, Daily>, batch: map<Slot, Beat>, windows: seq<Window>, d: DayKey)
    requires d in todo && todo <= days
    ensures var before := Averaged(averages, days - todo, daily, batch, windows);
            && AverageOf(before, d) == AverageOf(averages, d)
            && Averaged(averages, days - (todo - {d}), daily, batch, windows)
               == before[d := MergedAverage(AverageOf(averages, d), daily, batch, windows, d)]
  {
    assert days - (todo - {d}) == (days - todo) + {d};
  }

  /** A row's mean that stands for some scored check lies within the bounds, any other is 0. */
  predicate MeanBetween(averages: map<DayKey, nat>, daily: map<DayKey, Daily>, d: DayKey, lo: nat, hi: nat) {
    if PriorRow(daily, d).ok + PriorRow(daily, d).fail > 0 then lo <= AverageOf(averages, d) <= hi
    else AverageOf(averages, d) == 0
  }

  /** The response times of a date's beats. */
  ghost predicate DayMsBetween(beats: map<Slot, Beat>, d: DayKey, lo: nat, hi: nat) {
    MsBetween(beats, BeatsIn(beats, d.key, DayStart(d.day), DayEnd(d.day)), lo, hi)
  }

  /** Folding a batch whose response times of a date lie within bounds keeps the date's mean within them, however
      it is rounded and however much of the batch is excluded from the SLA. */
  lemma MeanStaysBetween(averages: map<DayKey, nat>, daily: map<DayKey, Daily>,
                         batch: map<Slot, Beat>, windows: seq<Window>, epochs: map<Key, Instant>,
                         now: Instant, interval: int, d: DayKey, lo: nat, hi: nat)
    requires interval > 0 && NonNegative(daily)
    requires DayMsBetween(batch, d, lo, hi) && MeanBetween(averages, daily, d, lo, hi)
    ensures MeanBetween(Averaged(averages, DaysTouched(batch), daily, batch, windows),
                        Summarized(daily, batch, windows, epochs, now, interval), d, lo, hi)
  {
    if d in DaysTouched(batch) {
      var from, until, prior := DayStart(d.day), DayEnd(d.day), PriorRow(daily, d);
      var scored := |Scored(batch, windows, d.key, from, until)|;
      ScoredSplits(batch, windows, d.key, from, until);
      if prior.ok + prior.fail + scored > 0 {
        MergedBetween(AverageOf(averages, d), daily, batch, windows, d, lo, hi);
      }
    }
  }

  lemma MergedBetween(average: nat, daily: map<DayKey, Daily>, batch: map<Slot, Beat>,
                      windows: seq<Window>, d: DayKey, lo: nat, hi: nat)
    requires NonNegative(daily) && d in DaysTouched(batch) && DayMsBetween(batch, d, lo, hi)
    requires var prior := PriorRow(daily, d).ok + PriorRow(daily, d).fail;
             && (prior > 0 ==> lo <= average <= hi)
             && prior + |Scored(batch, windows, d.key, DayStart(d.day), DayEnd(d.day))| > 0
    ensures lo <= MergedAverage(average, daily, batch, windows, d) <= hi
  {
    var from, until, prior := DayStart(d.day), DayEnd(d.day), PriorRow(daily, d);
    var mine := BeatsIn(batch, d.key, from, until);
    var s :| s in batch && d == DayKey(s.key, DayOf(s.at));
    DayOfBounds(s.at, d.day);
    assert s in mine;
    SumMsBetween(batch, mine, lo, hi);
    AverageStaysBetween(average, prior.ok + prior.fail, SumMs(batch, mine), |mine|,
                        |Scored(batch, windows, d.key, from, until)|, lo, hi);
  }

  // ---- counting a batch range by range ----

  ghost function OkAmong(batch: map<Slot, Beat>, slots: set<Slot>): set<Slot> {
    set s | s in slots && s in batch && batch[s].ok
  }

  ghost function InFirst(slots: set<Slot>, ranges: seq<Range>, n: nat): set<Slot>
    requires n <= |ranges|
  {
    set s | s in slots && InRanges(ranges[..n], s.at)
  }

  /** Separated ranges hold different beats, so per-range counts add up without counting one twice. */
  lemma NextRange(batch: map<Slot, Beat>, slots: set<Slot>, ranges: seq<Range>,
                  n: nat, span: set<Slot>, lo: Instant, hi: Instant)
    requires n < |ranges| && Canonical(ranges, lo, hi) && slots <= batch.Keys
    requires span == set s | s in slots && ranges[n].start <= s.at < ranges[n].end
    ensures |InFirst(slots, ranges, n + 1)| == |InFirst(slots, ranges, n)| + |span|
    ensures |OkAmong(batch, InFirst(slots, ranges, n + 1))|
         == |OkAmong(batch, InFirst(slots, ranges, n))| + |set s | s in span && batch[s].ok|
  {
    var before, after := InFirst(slots, ranges, n), InFirst(slots, ranges, n + 1);
    assert ranges[..n + 1] == ranges[..n] + [ranges[n]];
    forall s | s in before ensures s !in span {
      var r :| r in ranges[..n] && r.start <= s.at < r.end;
      var i :| 0 <= i < n && ranges[i] == r;
    }
    assert after == before + span && before !! span;
    OkAmongAdds(batch, before, span, after);
  }

  lemma OkAmongAdds(batch: map<Slot, Beat>, a: set<Slot>, b: set<Slot>, union: set<Slot>)
    requires a !! b && union == a + b && union <= batch.Keys
    ensures |OkAmong(batch, union)| == |OkAmong(batch, a)| + |set s | s in b && batch[s].ok|
  {
    var okB := set s | s in b && batch[s].ok;
    assert OkAmong(batch, union) == OkAmong(batch, a) + okB;
    assert OkAmong(batch, a) !! okB;
  }

  /** Taking the masked beats out of the plain ok and fail counts leaves the scored ones. */
  lemma SplitAtWindows(batch: map<Slot, Beat>, windows: seq<Window>, key: Key, lo: Instant, hi: Instant)
    ensures var masked := Masked(batch, windows, key, lo, hi);
            var ok := set s | s in batch && s.key == key && lo <= s.at < hi && batch[s].ok;
            var fail := set s | s in batch && s.key == key && lo <= s.at < hi && !batch[s].ok;
            && |ok| == |ScoredOk(batch, windows, key, lo, hi)| + |OkAmong(batch, masked)|
            && |fail| == |ScoredFail(batch, windows, key, lo, hi)| + (|masked| - |OkAmong(batch, masked)|)
  {
    var masked := Masked(batch, windows, key, lo, hi);
    var ok := set s | s in batch && s.key == key && lo <= s.at < hi && batch[s].ok;
    var fail := set s | s in batch && s.key == key && lo <= s.at < hi && !batch[s].ok;
    var maskedOk := OkAmong(batch, masked);
    assert ok == ScoredOk(batch, windows, key, lo, hi) + maskedOk;
    assert ScoredOk(batch, windows, key, lo, hi) !! maskedOk;
    assert fail == ScoredFail(batch, windows, key, lo, hi) + (masked - maskedOk);
    assert ScoredFail(batch, windows, key, lo, hi) !! (masked - maskedOk);
    assert maskedOk <= masked;
    assert masked == maskedOk + (masked - maskedOk);
  }
}
