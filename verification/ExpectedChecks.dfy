/** Expected checks against the minutes in which a check could have been recorded. */
module ExpectedChecks {
  import opened Common
  import opened MaintenanceWindows
  import opened Heartbeats
  import opened Uptime
  import opened HeartbeatRuns
  import opened HeartbeatTheorems

  // ---- bounds and monotonicity ----

  lemma TimesAtLeast(r: int, s: int, d: int)
    requires r >= s && d > 0
    ensures r * d >= s * d
  {
  }

  lemma DivideMonotone(a: int, b: int, d: int)
    requires 0 <= a <= b && d > 0
    ensures a / d <= b / d
  {
    Quotient(a, d);
    Quotient(b, d);
    if a / d > b / d {
      NextMultiple(b / d, d);
      TimesAtLeast(a / d, b / d + 1, d);
    }
  }

  /** Never more than the full day's worth of checks. */
  lemma ExpectedAtMostFullDay(windows: seq<Window>, epoch: Option<Instant>,
                              now: Instant, interval: int, key: Key, day: int)
    requires interval > 0
    ensures ExpectedForDay(windows, epoch, now, interval, key, day) <= 86_400_000_000 / interval
  {
    var start, end := SpanStart(epoch, day), Min(DayEnd(day), now);
    if end > start {
      ExcludedTimeBounded(windows, key, start, end);
      DivideMonotone(end - start - ExcludedTime(windows, key, start, end), 86_400_000_000, interval);
    } else {
      DivideMonotone(0, 86_400_000_000, interval);
    }
  }

  /** The expectation never falls while the clock advances. */
  lemma ExpectedNeverFalls(windows: seq<Window>, epoch: Option<Instant>, now: Instant,
                           now': Instant, interval: int, key: Key, day: int)
    requires interval > 0 && now <= now'
    ensures ExpectedForDay(windows, epoch, now, interval, key, day)
         <= ExpectedForDay(windows, epoch, now', interval, key, day)
  {
    var start, end, end' := SpanStart(epoch, day), Min(DayEnd(day), now), Min(DayEnd(day), now');
    if start < end {
      ExcludedTimeSplits(windows, key, start, end, end');
      ExcludedTimeBounded(windows, key, start, end);
      ExcludedTimeBounded(windows, key, end, end');
      DivideMonotone(end - start - ExcludedTime(windows, key, start, end),
                     end' - start - ExcludedTime(windows, key, start, end'), interval);
    } else if start < end' {
      ExcludedTimeBounded(windows, key, start, end');
      DivideMonotone(0, end' - start - ExcludedTime(windows, key, start, end'), interval);
    }
  }

  // ---- counting minute marks ----

  ghost function Marks(lo: Instant, hi: Instant): set<Instant> {
    set m | m in Instants(lo, hi) && m % 60_000_000 == 0
  }

  /** Minute marks strictly below t, counted from the origin. */
  function MarksBelow(t: Instant): int { (t + 59_999_999) / 60_000_000 }

  lemma NextMark(t: Instant)
    ensures MarksBelow(t + 1) == MarksBelow(t) + if t % 60_000_000 == 0 then 1 else 0
  {
  }

  lemma {:induction false} CountMarks(lo: Instant, hi: Instant)
    requires lo <= hi
    ensures |Marks(lo, hi)| == MarksBelow(hi) - MarksBelow(lo)
    decreases hi - lo
  {
    if lo == hi {
      assert Marks(lo, hi) == {};
    } else {
      CountMarks(lo, hi - 1);
      NextMark(hi - 1);
      if (hi - 1) % 60_000_000 == 0 {
        assert Marks(lo, hi) == Marks(lo, hi - 1) + {hi - 1};
      } else {
        assert Marks(lo, hi) == Marks(lo, hi - 1);
      }
    }
  }

  ghost function MarksInRanges(ranges: seq<Range>, lo: Instant, hi: Instant): set<Instant> {
    set m | m in Marks(lo, hi) && InRanges(ranges, m)
  }

  /** k separated ranges hold as many marks as their length in minutes, give or take under one each. */
  lemma {:induction false} MarksNearLength(ranges: seq<Range>, lo: Instant, hi: Instant)
    requires Canonical(ranges, lo, hi)
    ensures var error := 60_000_000 * |MarksInRanges(ranges, lo, hi)| - TotalLength(ranges);
            -59_999_999 * |ranges| <= error <= 59_999_999 * |ranges|
  {
    if ranges == [] {
      assert MarksInRanges(ranges, lo, hi) == {};
    } else {
      var init, last := ranges[..|ranges| - 1], ranges[|ranges| - 1];
      assert ranges == init + [last];
      MarksNearLength(init, lo, hi);
      OneMoreRange(init, last, lo, hi);
      CountMarks(last.start, last.end);
    }
  }

  lemma OneMoreRange(init: seq<Range>, last: Range, lo: Instant, hi: Instant)
    requires Canonical(init + [last], lo, hi)
    ensures |MarksInRanges(init + [last], lo, hi)| == |MarksInRanges(init, lo, hi)| + |Marks(last.start, last.end)|
  {
    var all := init + [last];
    assert all[|init|] == last;
    forall t | t in MarksInRanges(init, lo, hi) ensures t !in Marks(last.start, last.end) {
      var r :| r in init && r.start <= t < r.end;
      var i :| 0 <= i < |init| && init[i] == r;
      assert all[i] == r;
    }
    forall t
      ensures t in MarksInRanges(all, lo, hi) <==> t in MarksInRanges(init, lo, hi) || t in Marks(last.start, last.end)
    {
      if t in Marks(last.start, last.end) { assert last in all; }
    }
    assert MarksInRanges(all, lo, hi) == MarksInRanges(init, lo, hi) + Marks(last.start, last.end);
  }

  /** The minutes of a completed day in which an SLA-relevant beat could be recorded. */
  ghost function RecordableMinutes(windows: seq<Window>, epoch: Option<Instant>, key: Key, day: int): set<Instant> {
    set m | m in Marks(SpanStart(epoch, day), DayEnd(day)) && !Excluded(windows, key, m)
  }

  lemma RecordableCount(windows: seq<Window>, epoch: Option<Instant>, key: Key, day: int, ranges: seq<Range>)
    requires SpanStart(epoch, day) <= DayEnd(day)
    requires IsMergeOf(ranges, windows, key, SpanStart(epoch, day), DayEnd(day))
    ensures |RecordableMinutes(windows, epoch, key, day)|
         == |Marks(SpanStart(epoch, day), DayEnd(day))| - |MarksInRanges(ranges, SpanStart(epoch, day), DayEnd(day))|
  {
    var lo, hi := SpanStart(epoch, day), DayEnd(day);
    forall t { MergeMembership(ranges, windows, key, lo, hi, t); }
    var free, taken := RecordableMinutes(windows, epoch, key, day), MarksInRanges(ranges, lo, hi);
    assert Marks(lo, hi) == free + taken && free !! taken;
  }

  /** MAIN: at a one-minute interval the expected checks of a completed day differ from its recordable
      minutes by at most the number of merged excluded ranges. */
  lemma ExpectedNearRecordable(windows: seq<Window>, epoch: Option<Instant>,
                               now: Instant, key: Key, day: int, ranges: seq<Range>)
    requires DayEnd(day) <= now && SpanStart(epoch, day) <= DayEnd(day)
    requires IsMergeOf(ranges, windows, key, SpanStart(epoch, day), DayEnd(day))
    ensures var n, expected := |RecordableMinutes(windows, epoch, key, day)|,
            ExpectedForDay(windows, epoch, now, 60_000_000, key, day);
            n - |ranges| <= expected <= n + |ranges|
  {
    var lo, hi := SpanStart(epoch, day), DayEnd(day);
    RecordableCount(windows, epoch, key, day, ranges);
    CountMarks(lo, hi);
    MarksNearLength(ranges, lo, hi);
    SumIsExcludedTime(ranges, windows, key, lo, hi);
    ExcludedTimeBounded(windows, key, lo, hi);
    DayEndOnGrid(day);
  }

  lemma WholeNumber(n: int)
    ensures (60_000_000 * n) % 60_000_000 == 0
    ensures MarksBelow(60_000_000 * n) == n
  {
  }

  lemma DayEndOnGrid(day: int)
    ensures DayStart(day) % 60_000_000 == 0 && DayEnd(day) % 60_000_000 == 0
    ensures 60_000_000 * MarksBelow(DayEnd(day)) == DayEnd(day)
  {
    WholeNumber(1440 * day);
    WholeNumber(1440 * day + 1440);
  }

  // ---- windows on minute marks ----

  predicate OnMinuteMarks(windows: seq<Window>, key: Key) {
    forall w <- windows :: w.key == key && w.exclude ==> w.start % 60_000_000 == 0 && w.end % 60_000_000 == 0
  }

  lemma WholeMinutes(windows: seq<Window>, key: Key, t: Instant)
    requires OnMinuteMarks(windows, key)
    ensures Excluded(windows, key, t) <==> Excluded(windows, key, MinuteOf(t))
  {
    if Excluded(windows, key, t) {
      var w :| w in windows && w.key == key && w.exclude && w.start <= t < w.end;
      SameMinute(w.start, t);
    }
    if Excluded(windows, key, MinuteOf(t)) {
      var w :| w in windows && w.key == key && w.exclude && w.start <= MinuteOf(t) < w.end;
      SameMinute(w.end, t);
    }
  }

  lemma SameMinute(edge: Instant, t: Instant)
    requires edge % 60_000_000 == 0
    ensures edge <= t <==> edge <= MinuteOf(t)
  {
  }

  ghost function FreeMarks(windows: seq<Window>, key: Key, lo: Instant, hi: Instant): set<Instant> {
    set m | m in Marks(lo, hi) && !Excluded(windows, key, m)
  }

  /** With windows on minute marks, the non-excluded time is one minute per non-excluded mark. */
  lemma {:induction false} FreeTimeInMinutes(windows: seq<Window>, key: Key, lo: Instant, hi: Instant)
    requires OnMinuteMarks(windows, key) && lo <= hi && lo % 60_000_000 == 0 && hi % 60_000_000 == 0
    ensures hi - lo - ExcludedTime(windows, key, lo, hi) == 60_000_000 * |FreeMarks(windows, key, lo, hi)|
    decreases hi - lo
  {
    if lo == hi {
      ExcludedTimeBounded(windows, key, lo, hi);
      assert FreeMarks(windows, key, lo, hi) == {};
    } else {
      PrecedingMark(lo, hi);
      FreeTimeInMinutes(windows, key, lo, hi - 60_000_000);
      MinuteMore(windows, key, lo, hi - 60_000_000, hi);
    }
  }

  lemma PrecedingMark(lo: Instant, hi: Instant)
    requires lo < hi && lo % 60_000_000 == 0 && hi % 60_000_000 == 0
    ensures lo <= hi - 60_000_000 && (hi - 60_000_000) % 60_000_000 == 0
  {
  }

  lemma MinuteMore(windows: seq<Window>, key: Key, lo: Instant, last: Instant, hi: Instant)
    requires OnMinuteMarks(windows, key) && lo <= last && lo % 60_000_000 == 0 && last % 60_000_000 == 0
    requires hi == last + 60_000_000
    ensures hi - lo - ExcludedTime(windows, key, lo, hi)
         == last - lo - ExcludedTime(windows, key, lo, last)
            + 60_000_000 * (|FreeMarks(windows, key, lo, hi)| - |FreeMarks(windows, key, lo, last)|)
  {
    ExcludedTimeSplits(windows, key, lo, last, hi);
    LastMinute(windows, key, last);
    LastMark(windows, key, lo, last);
  }

  lemma LastMinute(windows: seq<Window>, key: Key, m: Instant)
    requires OnMinuteMarks(windows, key) && m % 60_000_000 == 0
    ensures ExcludedTime(windows, key, m, m + 60_000_000) == if Excluded(windows, key, m) then 60_000_000 else 0
  {
    forall t | t in Instants(m, m + 60_000_000) ensures Excluded(windows, key, t) <==> Excluded(windows, key, m) {
      WholeMinutes(windows, key, t);
      assert MinuteOf(t) == m;
    }
    var taken := set t: Instant | m <= t < m + 60_000_000 && Excluded(windows, key, t);
    assert taken == if Excluded(windows, key, m) then Instants(m, m + 60_000_000) else {};
  }

  lemma LastMark(windows: seq<Window>, key: Key, lo: Instant, m: Instant)
    requires lo <= m && lo % 60_000_000 == 0 && m % 60_000_000 == 0
    ensures |FreeMarks(windows, key, lo, m + 60_000_000)| ==
            |FreeMarks(windows, key, lo, m)| + if Excluded(windows, key, m) then 0 else 1
  {
    forall t ensures t in Marks(lo, m + 60_000_000) <==> t in Marks(lo, m) || t == m { OneMarkPerMinute(m, t); }
    if Excluded(windows, key, m) {
      assert FreeMarks(windows, key, lo, m + 60_000_000) == FreeMarks(windows, key, lo, m);
    } else {
      assert FreeMarks(windows, key, lo, m + 60_000_000) == FreeMarks(windows, key, lo, m) + {m};
      assert m !in FreeMarks(windows, key, lo, m);
    }
  }

  lemma OneMarkPerMinute(m: Instant, t: Instant)
    requires m % 60_000_000 == 0
    ensures m <= t < m + 60_000_000 && t % 60_000_000 == 0 <==> t == m
  {
  }

  /** MAIN: windows and epoch on minute marks make the expectation exact. */
  lemma ExpectedIsRecordable(windows: seq<Window>, epoch: Option<Instant>, now: Instant, key: Key, day: int)
    requires DayEnd(day) <= now && OnMinuteMarks(windows, key) && (epoch.Some? ==> epoch.value % 60_000_000 == 0)
    ensures ExpectedForDay(windows, epoch, now, 60_000_000, key, day) == |RecordableMinutes(windows, epoch, key, day)|
  {
    var lo, hi := SpanStart(epoch, day), DayEnd(day);
    DayEndOnGrid(day);
    assert RecordableMinutes(windows, epoch, key, day) == FreeMarks(windows, key, lo, hi);
    if lo < hi {
      FreeTimeInMinutes(windows, key, lo, hi);
      ExcludedTimeBounded(windows, key, lo, hi);
    } else {
      assert FreeMarks(windows, key, lo, hi) == {};
    }
  }

  // ---- when a completed day reads 100 ----

  /** Below 20000 checks a day, rounding never lifts a score to 100.00. */
  lemma PerfectScore(ok: nat, denominator: nat)
    requires 0 < denominator < 20000
    ensures Percent(ok, denominator, 100) == 10000 <==> ok >= denominator
  {
    var r := RoundHalfEven(ok * 10000, denominator);
    RoundingError(ok * 10000, denominator);
    if r >= 10000 && ok < denominator {
      TimesAtLeast(r, 10000, denominator);
    }
    if r < 10000 && ok >= denominator {
      TimesAtLeast(9999, r, denominator);
    }
  }

  ghost function TimesOf(slots: set<Slot>): set<Instant> {
    set s | s in slots :: s.at
  }

  lemma {:induction false} TimesOfSize(slots: set<Slot>, key: Key)
    requires forall s :: s in slots ==> s.key == key
    ensures |TimesOf(slots)| == |slots|
  {
    if slots == {} {
      assert TimesOf(slots) == {};
    } else {
      var s :| s in slots;
      var rest := slots - {s};
      TimesOfSize(rest, key);
      assert TimesOf(slots) == TimesOf(rest) + {s.at};
      forall r | r in rest ensures r.at != s.at { assert r == Slot(key, r.at) && s == Slot(key, s.at); }
    }
  }

  /** On the minute grid, a day's scored beats sit in distinct recordable minutes. */
  lemma ScoredInRecordable(full: Store, key: Key, day: int, slots: set<Slot>)
    requires BeatsOnGrid(full) && slots <= Scored(full.beats, full.windows, key, DayStart(day), DayEnd(day))
    ensures var minutes := RecordableMinutes(full.windows, EpochOf(full.epochs, key), key, day);
            TimesOf(slots) <= minutes && |slots| <= |minutes| && (|slots| == |minutes| ==> TimesOf(slots) == minutes)
  {
    var minutes := RecordableMinutes(full.windows, EpochOf(full.epochs, key), key, day);
    forall s | s in slots ensures s.at in minutes { }
    TimesOfSize(slots, key);
    SubsetSize(TimesOf(slots), minutes);
  }

  /** Every recordable minute of the day has a passing beat. */
  ghost predicate Flawless(full: Store, key: Key, day: int) {
    forall m :: m in RecordableMinutes(full.windows, EpochOf(full.epochs, key), key, day) ==>
      Slot(key, m) in full.beats && full.beats[Slot(key, m)].ok
  }

  lemma FlawlessCount(full: Store, key: Key, day: int)
    requires BeatsOnGrid(full)
    ensures var minutes := RecordableMinutes(full.windows, EpochOf(full.epochs, key), key, day);
            var lo, hi := DayStart(day), DayEnd(day);
            var ok := |ScoredOk(full.beats, full.windows, key, lo, hi)|;
            && ok <= |Scored(full.beats, full.windows, key, lo, hi)| <= |minutes|
            && (Flawless(full, key, day) <==> ok == |minutes|)
  {
    var minutes := RecordableMinutes(full.windows, EpochOf(full.epochs, key), key, day);
    var lo, hi := DayStart(day), DayEnd(day);
    var ok := ScoredOk(full.beats, full.windows, key, lo, hi);
    ScoredInRecordable(full, key, day, Scored(full.beats, full.windows, key, lo, hi));
    ScoredInRecordable(full, key, day, ok);
    SubsetSize(ok, Scored(full.beats, full.windows, key, lo, hi));
    if Flawless(full, key, day) {
      forall m | m in minutes ensures m in TimesOf(ok) { assert Slot(key, m) in ok; }
      TimesOfSize(ok, key);
      assert TimesOf(ok) == minutes;
    }
    if |ok| == |minutes| {
      forall m | m in minutes ensures Slot(key, m) in ok {
        var s :| s in ok && s.at == m;
      }
    }
  }

  lemma RecordableAtMost1440(windows: seq<Window>, epoch: Option<Instant>, key: Key, day: int)
    ensures |RecordableMinutes(windows, epoch, key, day)| <= 1440
  {
    var lo, hi := SpanStart(epoch, day), DayEnd(day);
    if lo < hi {
      CountMarks(DayStart(day), hi);
      DayEndOnGrid(day);
      assert RecordableMinutes(windows, epoch, key, day) <= Marks(DayStart(day), hi);
      SubsetSize(RecordableMinutes(windows, epoch, key, day), Marks(DayStart(day), hi));
    } else {
      assert RecordableMinutes(windows, epoch, key, day) == {};
    }
  }

  lemma TableFullMarks(cfg: Settings, full: Store, key: Key, day: int)
    requires BeatsOnGrid(full) && full.daily == map[] && day < DayOf(full.now) && cfg.interval == 60_000_000
    ensures DayUptime(full, cfg, key, day) == Some(10000) <==>
            var ok := |ScoredOk(full.beats, full.windows, key, DayStart(day), DayEnd(day))|;
            && ok > 0
            && ok == |Scored(full.beats, full.windows, key, DayStart(day), DayEnd(day))|
            && ok >= ExpectedForDay(full.windows, EpochOf(full.epochs, key), full.now, cfg.interval, key, day)
  {
    var lo, hi := DayStart(day), DayEnd(day);
    var ok, observed := |ScoredOk(full.beats, full.windows, key, lo, hi)|,
      |Scored(full.beats, full.windows, key, lo, hi)|;
    var expected := ExpectedForDay(full.windows, EpochOf(full.epochs, key), full.now, cfg.interval, key, day);
    FlawlessCount(full, key, day);
    RecordableAtMost1440(full.windows, EpochOf(full.epochs, key), key, day);
    ExpectedAtMostFullDay(full.windows, EpochOf(full.epochs, key), full.now, cfg.interval, key, day);
    if Max(observed, expected) > 0 { PerfectScore(ok, Max(observed, expected)); }
    if ok > 0 {
      var s :| s in ScoredOk(full.beats, full.windows, key, lo, hi);
      assert s in BeatsIn(full.beats, key, lo, hi);
    }
    assert HasData(full, key, day) <==> BeatsIn(full.beats, key, lo, hi) != {};
    assert DayOk(full, key, day) == ok && DayObserved(full, key, day) == observed;
  }

  /** For any windows at all, in every run: a completed day, folded or not, reads 100 iff none of its scored
      checks ever failed and at least the expected number passed. */
  lemma FullMarksIff(cfg: Settings, start: Instant, steps: seq<Step>, key: Key, day: int)
    requires ForwardRun(cfg, Fresh(start), steps) && cfg.interval == 60_000_000
    requires day < DayOf(Run(cfg, Fresh(start), steps).now)
    ensures var st, full := Run(cfg, Fresh(start), steps), Run(cfg, Fresh(start), WithoutPruning(steps));
            var ok := |ScoredOk(full.beats, full.windows, key, DayStart(day), DayEnd(day))|;
            DayUptime(st, cfg, key, day) == Some(10000) <==>
              && ok > 0
              && ok == |Scored(full.beats, full.windows, key, DayStart(day), DayEnd(day))|
              && ok >= ExpectedForDay(full.windows, EpochOf(full.epochs, key), full.now, cfg.interval, key, day)
  {
    var st, full := Run(cfg, Fresh(start), steps), Run(cfg, Fresh(start), WithoutPruning(steps));
    FreshAgrees(cfg, start);
    RunKeeps(cfg, Fresh(start), Fresh(start), steps);
    DayUptimeAgrees(cfg, st, full, key, day);
    TableFullMarks(cfg, full, key, day);
  }

  /** MAIN: with the monitor's excluded windows on minute marks, in every run a completed day reads
      100 iff it has a recordable minute and every recordable minute has a passing beat. */
  lemma ReadsHundredIffFlawless(cfg: Settings, start: Instant, steps: seq<Step>, key: Key, day: int)
    requires ForwardRun(cfg, Fresh(start), steps) && cfg.interval == 60_000_000
    requires var st := Run(cfg, Fresh(start), steps); day < DayOf(st.now) && OnMinuteMarks(st.windows, key)
    ensures var st, full := Run(cfg, Fresh(start), steps), Run(cfg, Fresh(start), WithoutPruning(steps));
            DayUptime(st, cfg, key, day) == Some(10000) <==>
            Flawless(full, key, day) && RecordableMinutes(full.windows, EpochOf(full.epochs, key), key, day) != {}
  {
    var st, full := Run(cfg, Fresh(start), steps), Run(cfg, Fresh(start), WithoutPruning(steps));
    FreshAgrees(cfg, start);
    RunKeeps(cfg, Fresh(start), Fresh(start), steps);
    DayUptimeAgrees(cfg, st, full, key, day);
    AlignedFlawless(cfg, full, key, day);
  }

  lemma AlignedFlawless(cfg: Settings, full: Store, key: Key, day: int)
    requires BeatsOnGrid(full) && full.daily == map[] && day < DayOf(full.now) && cfg.interval == 60_000_000
    requires OnMinuteMarks(full.windows, key)
    ensures DayUptime(full, cfg, key, day) == Some(10000) <==>
            Flawless(full, key, day) && RecordableMinutes(full.windows, EpochOf(full.epochs, key), key, day) != {}
  {
    var epoch := EpochOf(full.epochs, key);
    DayEndsBefore(full.now, day);
    if epoch.Some? { assert Slot(key, epoch.value) in full.beats; }
    TableFullMarks(cfg, full, key, day);
    FlawlessCount(full, key, day);
    ExpectedIsRecordable(full.windows, epoch, full.now, key, day);
  }

  /** Off the marks a flawless day, folded or not, reads 100 exactly when the expectation does not exceed the
      recordable minutes; `FlawlessDayBelowHundred` is a run in which it does. */
  lemma FlawlessReadsHundredIff(cfg: Settings, start: Instant, steps: seq<Step>, key: Key, day: int)
    requires ForwardRun(cfg, Fresh(start), steps) && cfg.interval == 60_000_000
    requires var full := Run(cfg, Fresh(start), WithoutPruning(steps));
             && day < DayOf(Run(cfg, Fresh(start), steps).now) && Flawless(full, key, day)
             && RecordableMinutes(full.windows, EpochOf(full.epochs, key), key, day) != {}
    ensures var st, full := Run(cfg, Fresh(start), steps), Run(cfg, Fresh(start), WithoutPruning(steps));
            DayUptime(st, cfg, key, day) == Some(10000) <==>
            ExpectedForDay(full.windows, EpochOf(full.epochs, key), full.now, cfg.interval, key, day)
            <= |RecordableMinutes(full.windows, EpochOf(full.epochs, key), key, day)|
  {
    FullMarksIff(cfg, start, steps, key, day);
    FreshAgrees(cfg, start);
    RunKeeps(cfg, Fresh(start), Fresh(start), steps);
    FlawlessCount(Run(cfg, Fresh(start), WithoutPruning(steps)), key, day);
  }

  const HALF_MINUTES := [Window("site", 0, 30_000_000, true), Window("site", 60_000_000, 90_000_000, true)]
  const HALF_RANGES := [Range(0, 30_000_000), Range(60_000_000, 90_000_000)]

  lemma HalfMinutesMerge()
    ensures IsMergeOf(HALF_RANGES, HALF_MINUTES, "site", 0, 86_400_000_000)
    ensures TotalLength(HALF_RANGES) == 60_000_000
  {
    forall h ensures Covers(HALF_RANGES, h) <==> Wanted(HALF_MINUTES, "site", 0, 86_400_000_000, h) {
      assert HALF_MINUTES[0] in HALF_MINUTES && HALF_MINUTES[1] in HALF_MINUTES;
      if Spans(HALF_RANGES[0], h) { assert Spans(Clip(HALF_MINUTES[0], 0, 86_400_000_000), h); }
      if Spans(HALF_RANGES[1], h) { assert Spans(Clip(HALF_MINUTES[1], 0, 86_400_000_000), h); }
    }
    assert HALF_RANGES[..1] == [HALF_RANGES[0]] && HALF_RANGES[..1][..0] == [];
  }

  lemma HalfMinuteMarks()
    ensures MarksInRanges(HALF_RANGES, 0, 86_400_000_000) == {0, 60_000_000}
  {
    forall m ensures m in MarksInRanges(HALF_RANGES, 0, 86_400_000_000) <==> m == 0 || m == 60_000_000 {
      InHalfRanges(m);
      OnlyTwoMarks(m);
    }
  }

  lemma InHalfRanges(m: Instant)
    ensures InRanges(HALF_RANGES, m) <==> 0 <= m < 30_000_000 || 60_000_000 <= m < 90_000_000
  {
    assert HALF_RANGES[0] in HALF_RANGES && HALF_RANGES[1] in HALF_RANGES;
  }

  lemma OnlyTwoMarks(m: Instant)
    ensures (0 <= m < 30_000_000 || 60_000_000 <= m < 90_000_000) && m % 60_000_000 == 0 <==> m == 0 || m == 60_000_000
  {
  }

  /** Two half-minute windows hide two minute marks but only one minute of expected time. */
  lemma ShortWindowsOverexpect(epoch: Option<Instant>, now: Instant)
    requires now >= DayEnd(0) && (epoch.Some? ==> epoch.value <= 0)
    ensures ExpectedForDay(HALF_MINUTES, epoch, now, 60_000_000, "site", 0) == 1439
    ensures |RecordableMinutes(HALF_MINUTES, epoch, "site", 0)| == 1438
  {
    assert SpanStart(epoch, 0) == 0;
    HalfMinutesMerge();
    HalfMinuteMarks();
    SumIsExcludedTime(HALF_RANGES, HALF_MINUTES, "site", 0, 86_400_000_000);
    RecordableCount(HALF_MINUTES, epoch, "site", 0, HALF_RANGES);
    CountMarks(0, 86_400_000_000);
  }

  // ---- a run with a passing check in every minute ----

  const PASS := Checked(true, 0, "")

  function Minute(k: nat): Slot { Slot("site", 60_000_000 * k) }

  function MinuteBeats(n: nat): (beats: map<Slot, Beat>)
    ensures forall k: nat :: k < n ==> Minute(k) in beats
    ensures forall s :: s in beats ==>
            s.key == "site" && 0 <= s.at < 60_000_000 * n && s.at % 60_000_000 == 0 && beats[s].ok
  {
    if n == 0 then map[]
    else MinuteBeats(n - 1)[Minute(n - 1) := BeatFor(PASS, InMaintenance(HALF_MINUTES, "site", 60_000_000 * (n - 1)))]
  }

  /** The tables after a passing check in each of the first n minutes. */
  function AfterMinutes(n: nat): Store {
    Store(60_000_000 * n, MinuteBeats(n), map[], HALF_MINUTES, if n == 0 then map[] else map["site" := 0])
  }

  lemma OneMinute(n: nat)
    ensures Advance(Record(AfterMinutes(n), "site", PASS), 60_000_000) == AfterMinutes(n + 1)
  {
    var st := AfterMinutes(n);
    assert MinuteOf(st.now) == st.now by { WholeNumber(n); }
    var beats := st.beats[Minute(n) := BeatFor(PASS, InMaintenance(st.windows, "site", st.now))];
    assert beats == MinuteBeats(n + 1);
    assert Minute(0) in beats;
    assert EnsuredEpochs(st.epochs, beats, "site", map["site" := 0]) by {
      assert Minute(0) == Slot("site", 0);
      assert Minute(0) in BeatsOf(beats, "site");
    }
    EnsuredEpochsUnique(st.epochs, beats, "site", EnsureEpoch(st.epochs, beats, "site"), map["site" := 0]);
  }

  lemma RunStep(cfg: Settings, st: Store, step: Step, next: Store, rest: seq<Step>)
    requires Apply(cfg, st, step) == next && !step.PruneOld? && Forward(st, step)
    ensures Run(cfg, st, [step] + rest) == Run(cfg, next, rest)
    ensures ForwardRun(cfg, st, [step] + rest) == ForwardRun(cfg, next, rest)
    ensures WithoutPruning([step] + rest) == [step] + WithoutPruning(rest)
  {
    assert ([step] + rest)[1..] == rest;
  }

  lemma TwoSteps(cfg: Settings, st: Store, a: Step, mid: Store, b: Step, end: Store, rest: seq<Step>)
    requires Apply(cfg, st, a) == mid && !a.PruneOld? && Forward(st, a)
    requires Apply(cfg, mid, b) == end && !b.PruneOld? && Forward(mid, b)
    ensures Run(cfg, st, [a] + ([b] + rest)) == Run(cfg, end, rest)
    ensures ForwardRun(cfg, st, [a] + ([b] + rest)) == ForwardRun(cfg, end, rest)
    ensures WithoutPruning([a] + ([b] + rest)) == [a] + ([b] + WithoutPruning(rest))
  {
    RunStep(cfg, st, a, mid, [b] + rest);
    RunStep(cfg, mid, b, end, rest);
  }

  lemma ApplyCheck(cfg: Settings, st: Store)
    ensures Apply(cfg, st, Check("site", PASS)) == Record(st, "site", PASS)
    ensures Apply(cfg, st, Tick(60_000_000)) == Advance(st, 60_000_000)
  {
  }

  lemma MinuteStep(cfg: Settings, st: Store, next: Store, n: nat, rest: seq<Step>)
    requires st == AfterMinutes(n) && next == AfterMinutes(n + 1)
    ensures var steps := [Check("site", PASS)] + ([Tick(60_000_000)] + rest);
            && Run(cfg, st, steps) == Run(cfg, next, rest)
            && ForwardRun(cfg, st, steps) == ForwardRun(cfg, next, rest)
            && WithoutPruning(steps) == [Check("site", PASS)] + ([Tick(60_000_000)] + WithoutPruning(rest))
  {
    var checked := Record(st, "site", PASS);
    OneMinute(n);
    ApplyCheck(cfg, st);
    ApplyCheck(cfg, checked);
    RunStep(cfg, st, Check("site", PASS), checked, [Tick(60_000_000)] + rest);
    RunStep(cfg, checked, Tick(60_000_000), next, rest);
  }

  /** The steps lead from one state to the other, schedule nothing in the past and never prune. */
  ghost predicate Leads(cfg: Settings, st: Store, steps: seq<Step>, end: Store) {
    Run(cfg, st, steps) == end && ForwardRun(cfg, st, steps) && WithoutPruning(steps) == steps
  }

  lemma LeadsOn(cfg: Settings, st: Store, next: Store, n: nat, rest: seq<Step>, end: Store)
    requires st == AfterMinutes(n) && next == AfterMinutes(n + 1) && Leads(cfg, next, rest, end)
    ensures Leads(cfg, st, [Check("site", PASS)] + ([Tick(60_000_000)] + rest), end)
  {
    MinuteStep(cfg, st, next, n, rest);
  }

  lemma Stays(cfg: Settings, st: Store)
    ensures Leads(cfg, st, [], st)
  {
  }

  lemma {:induction false} MinutesRun(cfg: Settings, n: nat, k: nat, st: Store, end: Store) returns (steps: seq<Step>)
    requires n <= k && st == AfterMinutes(n) && end == AfterMinutes(k)
    ensures Leads(cfg, st, steps, end)
    decreases k - n
  {
    if n == k {
      steps := [];
      Stays(cfg, st);
    } else {
      var next := AfterMinutes(n + 1);
      var rest := MinutesRun(cfg, n + 1, k, next, end);
      steps := [Check("site", PASS)] + ([Tick(60_000_000)] + rest);
      LeadsOn(cfg, st, next, n, rest, end);
    }
  }

  lemma MinutesOnGrid(n: nat)
    requires n > 0
    ensures BeatsOnGrid(AfterMinutes(n))
  {
    assert Minute(0) == Slot("site", 0);
  }

  lemma MinutesFlawless()
    ensures Flawless(AfterMinutes(1440), "site", 0)
  {
    var full := AfterMinutes(1440);
    forall m | m in RecordableMinutes(full.windows, EpochOf(full.epochs, "site"), "site", 0)
      ensures Slot("site", m) in full.beats && full.beats[Slot("site", m)].ok
    {
      var k := m / 60_000_000;
      assert Slot("site", m) == Minute(k);
    }
  }

  /** MAIN: a run with a passing check in every minute of a day whose two half-minute windows make it read 99.93. */
  lemma FlawlessDayBelowHundred(cfg: Settings) returns (steps: seq<Step>)
    requires cfg.interval == 60_000_000
    ensures ForwardRun(cfg, Fresh(0), steps) && WithoutPruning(steps) == steps
    ensures var st := Run(cfg, Fresh(0), steps);
            && DayOf(st.now) == 1 && Flawless(st, "site", 0)
            && RecordableMinutes(st.windows, EpochOf(st.epochs, "site"), "site", 0) != {}
            && DayUptime(st, cfg, "site", 0) == Some(9993)
  {
    steps := OpenAndCheck(cfg, 1440);
    var st := AfterMinutes(1440);
    MinutesFlawless();
    MinutesOnGrid(1440);
    ShortWindowsOverexpect(EpochOf(st.epochs, "site"), st.now);
    FlawlessCount(st, "site", 0);
    Reads9993(cfg, st);
  }

  lemma OpenAndCheck(cfg: Settings, n: nat) returns (steps: seq<Step>)
    ensures Run(cfg, Fresh(0), steps) == AfterMinutes(n)
    ensures ForwardRun(cfg, Fresh(0), steps) && WithoutPruning(steps) == steps
  {
    var rest := MinutesRun(cfg, 0, n, AfterMinutes(0), AfterMinutes(n));
    var a, b := Open("site", 0, 30_000_000, true), Open("site", 60_000_000, 90_000_000, true);
    var st := OpenWindow(Fresh(0), "site", 0, 30_000_000, true);
    steps := [a] + ([b] + rest);
    assert OpenWindow(st, "site", 60_000_000, 90_000_000, true) == AfterMinutes(0);
    RunStep(cfg, Fresh(0), a, st, [b] + rest);
    RunStep(cfg, st, b, AfterMinutes(0), rest);
  }

  lemma Reads9993(cfg: Settings, st: Store)
    requires st.daily == map[] && DayOf(st.now) == 1
    requires |ScoredOk(st.beats, st.windows, "site", DayStart(0), DayEnd(0))| == 1438
    requires |Scored(st.beats, st.windows, "site", DayStart(0), DayEnd(0))| == 1438
    requires ExpectedForDay(st.windows, EpochOf(st.epochs, "site"), st.now, cfg.interval, "site", 0) == 1439
    ensures DayUptime(st, cfg, "site", 0) == Some(9993)
  {
    assert HasData(st, "site", 0) by {
      var s :| s in Scored(st.beats, st.windows, "site", DayStart(0), DayEnd(0));
      assert s in BeatsIn(st.beats, "site", DayStart(0), DayEnd(0));
    }
    assert RoundHalfEven(1438 * 10000, 1439) == 9993;
  }
}
