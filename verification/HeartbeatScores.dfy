/** What the numbers shown mean: every score is the nearest one to the quotient of two counts of the
    never-pruned run. */
module HeartbeatScores {
  import opened Common
  import opened MaintenanceWindows
  import opened Heartbeats
  import opened Uptime
  import opened HeartbeatRuns
  import opened HeartbeatTheorems
  import opened HeartbeatWindows
  import opened CrossingWindows

  // ---- a day ----

  ghost predicate IsDayScore(full: Store, cfg: Settings, key: Key, day: int, score: Option<nat>) {
    var lo, hi := DayStart(day), DayEnd(day);
    var ok := |ScoredOk(full.beats, full.windows, key, lo, hi)|;
    var observed := |Scored(full.beats, full.windows, key, lo, hi)|;
    var expected := ExpectedForDay(full.windows, EpochOf(full.epochs, key), full.now, cfg.interval, key, day);
    if lo <= full.now < hi then
      match score
      case None => observed == 0
      case Some(v) => observed > 0 && Nearest(v, 10000 * ok, observed)
    else
      match score
      case None => BeatsIn(full.beats, key, lo, hi) == {} || (observed == 0 && expected == 0)
      case Some(v) =>
        && BeatsIn(full.beats, key, lo, hi) != {}
        && (if observed >= expected then observed > 0 && Nearest(v, 10000 * ok, observed)
            else Nearest(v, 10000 * ok, expected))
  }

  /** MAIN: in every run, today's entry is the share of the checks seen today that passed, and absent iff none was;
      any other day's is their share of the checks seen or expected, whichever are more, and absent iff the day has
      no beat at all or nothing to be divided by. */
  lemma DayScore(cfg: Settings, start: Instant, steps: seq<Step>, key: Key, day: int)
    requires ForwardRun(cfg, Fresh(start), steps)
    ensures var st, full := Run(cfg, Fresh(start), steps), Run(cfg, Fresh(start), WithoutPruning(steps));
            IsDayScore(full, cfg, key, day, DayUptime(st, cfg, key, day))
  {
    var st, full := Run(cfg, Fresh(start), steps), Run(cfg, Fresh(start), WithoutPruning(steps));
    FreshAgrees(cfg, start);
    RunKeeps(cfg, Fresh(start), Fresh(start), steps);
    DayUptimeAgrees(cfg, st, full, key, day);
    FullDayScore(cfg, full, key, day);
  }

  lemma FullDayScore(cfg: Settings, full: Store, key: Key, day: int)
    requires full.daily == map[]
    ensures IsDayScore(full, cfg, key, day, DayUptime(full, cfg, key, day))
  {
    var lo, hi := DayStart(day), DayEnd(day);
    var scored := Scored(full.beats, full.windows, key, lo, hi);
    var passed := ScoredOk(full.beats, full.windows, key, lo, hi);
    var expected := ExpectedForDay(full.windows, EpochOf(full.epochs, key), full.now, cfg.interval, key, day);
    DayOfBounds(full.now, day);
    SubsetSize(passed, scored);
    SubsetSize(scored, BeatsIn(full.beats, key, lo, hi));
    var denominator := if day == DayOf(full.now) then |scored| else Max(|scored|, expected);
    if denominator > 0 { PercentIsNearest(|passed|, denominator, 100); }
  }

  // ---- a daily row ----

  predicate IsRowScore(row: Daily) {
    if row.ok + row.fail <= 0 && row.expected <= 0 then row.uptime == 0
    else if row.ok + row.fail >= row.expected then Nearest(row.uptime, 100_000 * row.ok, row.ok + row.fail)
    else Nearest(row.uptime, 100_000 * row.ok, row.expected)
  }

  lemma ColumnIsScore(row: Daily, divisor: nat)
    requires row.ok >= 0 && row.ok <= divisor && divisor > 0
    requires divisor == if row.ok + row.fail >= row.expected then row.ok + row.fail else row.expected
    requires row.uptime == Percent(row.ok, divisor, 1000)
    ensures IsRowScore(row)
  {
    PercentIsNearest(row.ok, divisor, 1000);
    assert row.ok * (100 * 1000) == 100_000 * row.ok;
  }

  lemma FoldedRowScore(prior: Daily, ok: nat, fail: nat, masked: nat, expected: nat)
    requires prior.ok >= 0 && prior.fail >= 0
    ensures IsRowScore(FoldRow(prior, ok, fail, masked, expected))
  {
    var row := FoldRow(prior, ok, fail, masked, expected);
    var divisor := if row.ok + row.fail >= row.expected then row.ok + row.fail else row.expected;
    if divisor > 0 { ColumnIsScore(row, divisor); }
  }

  lemma RowIsScored(cfg: Settings, st: Store, full: Store, d: DayKey)
    requires FoldedAtOnce(cfg, st, full) && d in st.daily
    ensures IsRowScore(st.daily[d])
  {
    var gone := Gone(st, full);
    assert st.daily[d] == FoldedRow(EMPTY_ROW, gone, st.windows, st.epochs, st.now, cfg.interval, d);
    FoldedRowScore(EMPTY_ROW,
                   |ScoredOk(gone, st.windows, d.key, DayStart(d.day), DayEnd(d.day))|,
                   |ScoredFail(gone, st.windows, d.key, DayStart(d.day), DayEnd(d.day))|,
                   |Masked(gone, st.windows, d.key, DayStart(d.day), DayEnd(d.day))|,
                   ExpectedForDay(st.windows, EpochOf(st.epochs, d.key), st.now, cfg.interval, d.key, d.day));
  }

  /** MAIN: in every run, the uptime column of every row is the share of its own passing checks in those it scored or
      expected, whichever are more, in thousandths of a percent, and 0 if there are none. */
  lemma RowScore(cfg: Settings, start: Instant, steps: seq<Step>, d: DayKey)
    requires ForwardRun(cfg, Fresh(start), steps) && d in Run(cfg, Fresh(start), steps).daily
    ensures IsRowScore(Run(cfg, Fresh(start), steps).daily[d])
  {
    FreshAgrees(cfg, start);
    RunKeeps(cfg, Fresh(start), Fresh(start), steps);
    RowIsScored(cfg, Run(cfg, Fresh(start), steps), Run(cfg, Fresh(start), WithoutPruning(steps)), d);
  }

  // ---- a window ----

  /** MAIN: in every run, a window that starts before now is scored by the share of the checks it counts in those it
      expects, 100 if there are more, and not at all iff it expects none. */
  lemma WindowScore(cfg: Settings, start: Instant, steps: seq<Step>, windowStart: Instant, key: Key)
    requires ForwardRun(cfg, Fresh(start), steps) && windowStart < Run(cfg, Fresh(start), steps).now
    ensures var st := Run(cfg, Fresh(start), steps);
            var (ok, expected) := WindowTotals(st, cfg, windowStart, key);
            IsScore(ok, expected, WindowUptime(st, cfg, windowStart, key).uptime)
  {
    var st, full := Run(cfg, Fresh(start), steps), Run(cfg, Fresh(start), WithoutPruning(steps));
    FreshAgrees(cfg, start);
    RunKeeps(cfg, Fresh(start), Fresh(start), steps);
    TotalsAreCounts(cfg, st, full, windowStart, key);
    ScoreOfTotals(st, cfg, windowStart, key);
  }

  lemma TotalsAreCounts(cfg: Settings, st: Store, full: Store, windowStart: Instant, key: Key)
    requires Agree(cfg, st, full) && windowStart < st.now
    ensures WindowTotals(st, cfg, windowStart, key).0 >= 0
  {
    WindowCounts(cfg, st, full, windowStart, key);
  }

  lemma ScoreOfTotals(st: Store, cfg: Settings, windowStart: Instant, key: Key)
    requires windowStart < st.now && WindowTotals(st, cfg, windowStart, key).0 >= 0
    ensures var (ok, expected) := WindowTotals(st, cfg, windowStart, key);
            IsScore(ok, expected, WindowUptime(st, cfg, windowStart, key).uptime)
  {
    UptimeOfTotals(st, cfg, windowStart, key);
    var (ok, expected) := WindowTotals(st, cfg, windowStart, key);
    if expected >= 1 { PercentIsNearest(ok, expected, 100); }
  }

  predicate IsScore(ok: int, expected: int, score: Option<nat>) {
    match score
    case None => expected < 1
    case Some(v) => expected >= 1 && if ok <= expected then Nearest(v, 10000 * ok, expected) else v == 10000
  }

  /** MAIN: in every run, a window that starts no earlier than the oldest raw beat counts the passing checks outside
      every excluded window and expects one for each whole interval of its non-excluded time; it is covered. */
  lemma RecentWindowScore(cfg: Settings, start: Instant, steps: seq<Step>, windowStart: Instant, key: Key, o: Instant)
    requires ForwardRun(cfg, Fresh(start), steps)
    requires var st := Run(cfg, Fresh(start), steps);
             OldestRaw(st.beats, key) == Some(o) && o <= windowStart < st.now
    ensures var st, full := Run(cfg, Fresh(start), steps), Run(cfg, Fresh(start), WithoutPruning(steps));
            IsRecentScore(cfg, st, full, windowStart, key, WindowUptime(st, cfg, windowStart, key))
  {
    var st, full := Run(cfg, Fresh(start), steps), Run(cfg, Fresh(start), WithoutPruning(steps));
    FreshAgrees(cfg, start);
    RunKeeps(cfg, Fresh(start), Fresh(start), steps);
    RecentScore(cfg, st, full, windowStart, key, o);
  }

  ghost predicate IsRecentScore(cfg: Settings, st: Store, full: Store,
                                windowStart: Instant, key: Key, r: UptimeResult) {
    var free := st.now - windowStart - ExcludedTime(st.windows, key, windowStart, st.now);
    && free >= 0
    && IsScore(|ScoredOk(full.beats, full.windows, key, windowStart, full.now)|, free / cfg.interval, r.uptime)
    && r.covered == r.window == st.now - windowStart
  }

  lemma RecentScore(cfg: Settings, st: Store, full: Store, windowStart: Instant, key: Key, o: Instant)
    requires Agree(cfg, st, full) && OldestRaw(st.beats, key) == Some(o) && o <= windowStart < st.now
    ensures IsRecentScore(cfg, st, full, windowStart, key, WindowUptime(st, cfg, windowStart, key))
  {
    NothingOlderRemoved(cfg, st, full, windowStart, key);
    RecentTotals(cfg, st, windowStart, key, o);
    ScoreOfTotals(st, cfg, windowStart, key);
    RecentCovered(cfg, st, windowStart, key, o);
  }

  lemma RecentCovered(cfg: Settings, st: Store, windowStart: Instant, key: Key, o: Instant)
    requires OldestRaw(st.beats, key) == Some(o) && o <= windowStart < st.now
    ensures var r := WindowUptime(st, cfg, windowStart, key); r.covered == r.window == st.now - windowStart
  {
  }

  lemma RecentTotals(cfg: Settings, st: Store, windowStart: Instant, key: Key, o: Instant)
    requires OldestRaw(st.beats, key) == Some(o) && o <= windowStart < st.now
    ensures WindowTotals(st, cfg, windowStart, key)
         == (|ScoredOk(st.beats, st.windows, key, windowStart, st.now)|,
             FreeTime(st.windows, key, windowStart, st.now) / cfg.interval)
    ensures FreeTime(st.windows, key, windowStart, st.now) >= 0
  {
    RawCounts(cfg, st, key, windowStart);
    RawExpected(cfg, st, key, windowStart);
  }

  // ---- the window of the last hours ----

  /** It starts that long ago, so many times 24 hours that many calendar days at the same time of day, unless the
      monitor's history starts later: then there. */
  lemma RollingWindow(st: Store, key: Key, days: int)
    ensures var begin := RollingStart(st, key, 24 * days);
            match EpochStart(st, key)
            case Some(e) => begin == e || (begin > e && IsDaysAgo(st.now, begin, days))
            case None => IsDaysAgo(st.now, begin, days)
    ensures EpochStart(st, key).Some? && RollingStart(st, key, 24 * days) == EpochStart(st, key).value ==>
              exists t :: t <= EpochStart(st, key).value && IsDaysAgo(st.now, t, days)
  {
    var t := st.now - 24 * days * 3_600_000_000;
    DaysAgo(st.now, days);
    assert IsDaysAgo(st.now, t, days);
  }

  predicate IsDaysAgo(now: Instant, t: Instant, days: int) {
    DayOf(t) == DayOf(now) - days && t - DayStart(DayOf(t)) == now - DayStart(DayOf(now))
  }

  lemma DaysAgo(now: Instant, days: int)
    ensures IsDaysAgo(now, now - 24 * days * 3_600_000_000, days)
  {
    var t := now - 24 * days * 3_600_000_000;
    assert t == now - days * 86_400_000_000;
    StartOfDay(now);
    DayOfBounds(t, DayOf(now) - days);
  }
}
