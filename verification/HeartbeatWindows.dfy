/** The blended uptime over a window that may reach past the retention boundary. */
module HeartbeatWindows {
  import opened Common
  import opened MaintenanceWindows
  import opened Heartbeats
  import opened Uptime
  import opened HeartbeatRuns
  import opened HeartbeatTheorems

  /** The deleted passing beats that the summary part of a window counts. */
  ghost function FromRows(st: Store, full: Store, key: Key, windowStart: Instant, stop: Option<int>): set<Slot> {
    if stop.None? then {}
    else ScoredOk(Gone(st, full), st.windows, key, DayStart(DayOf(windowStart)), DayStart(stop.value))
  }

  /** The raw passing beats that the recent part counts. */
  ghost function FromRaw(st: Store, key: Key, rawStart: Instant): set<Slot> {
    ScoredOk(st.beats, st.windows, key, rawStart, st.now)
  }

  lemma ScoredOkSplits(beats: map<Slot, Beat>, windows: seq<Window>, key: Key, lo: Instant, mid: Instant, hi: Instant)
    requires lo <= mid <= hi
    ensures |ScoredOk(beats, windows, key, lo, hi)| ==
            |ScoredOk(beats, windows, key, lo, mid)| + |ScoredOk(beats, windows, key, mid, hi)|
  {
    var a, b := ScoredOk(beats, windows, key, lo, mid), ScoredOk(beats, windows, key, mid, hi);
    assert ScoredOk(beats, windows, key, lo, hi) == a + b;
    assert a !! b;
  }

  /** Adding up rows counts each deleted passing beat of those days once. */
  lemma {:induction false} RowsAddUp(cfg: Settings, st: Store, full: Store, key: Key, from: int, until: int)
    requires FoldedAtOnce(cfg, st, full) && from <= until
    ensures SummaryTotals(st.daily, key, from, until).ok ==
            |ScoredOk(Gone(st, full), st.windows, key, DayStart(from), DayStart(until))|
    ensures 0 <= SummaryTotals(st.daily, key, from, until).expected
    decreases until - from
  {
    var gone := Gone(st, full);
    if from == until {
      assert ScoredOk(gone, st.windows, key, DayStart(from), DayStart(until)) == {};
    } else {
      RowsAddUp(cfg, st, full, key, from, until - 1);
      RowHoldsGone(cfg, st, full, DayKey(key, until - 1));
      ScoredOkSplits(gone, st.windows, key, DayStart(from), DayStart(until - 1), DayStart(until));
    }
  }

  lemma SummaryCounts(cfg: Settings, st: Store, full: Store, key: Key, windowStart: Instant, stop: Option<int>)
    requires FoldedAtOnce(cfg, st, full) && (stop.Some? ==> DayOf(windowStart) <= stop.value)
    ensures SummaryPart(st, key, windowStart, stop).ok == |FromRows(st, full, key, windowStart, stop)|
    ensures 0 <= SummaryPart(st, key, windowStart, stop).expected
  {
    if stop.Some? { RowsAddUp(cfg, st, full, key, DayOf(windowStart), stop.value); }
  }

  lemma WhollyExcluded(windows: seq<Window>, key: Key, lo: Instant, hi: Instant, t: Instant)
    requires lo <= t < hi && ExcludedTime(windows, key, lo, hi) >= hi - lo
    ensures Excluded(windows, key, t)
  {
    var taken := set u: Instant | lo <= u < hi && Excluded(windows, key, u);
    SubsetSize(taken, Instants(lo, hi));
    assert t in Instants(lo, hi);
  }

  /** The raw part counts every passing beat of its span, also when the span is empty or wholly excluded. */
  lemma RawCounts(cfg: Settings, st: Store, key: Key, rawStart: Instant)
    ensures RawPart(st, cfg, key, rawStart).ok == |FromRaw(st, key, rawStart)|
    ensures 0 <= RawPart(st, cfg, key, rawStart).expected
  {
    if rawStart >= st.now {
      assert FromRaw(st, key, rawStart) == {};
    } else if st.now - rawStart - ExcludedTime(st.windows, key, rawStart, st.now) <= 0 {
      forall t | rawStart <= t < st.now { WhollyExcluded(st.windows, key, rawStart, st.now, t); }
      assert FromRaw(st, key, rawStart) == {};
    }
  }

  lemma DaysOrdered(a: Instant, b: Instant)
    requires a <= b
    ensures DayOf(a) <= DayOf(b)
  {
  }

  /** MAIN: the numerator of a window's uptime is the size of a set of distinct recorded beats: no beat
      counts both through its daily row and raw.  The uptime is absent or within 0..100, the coverage
      within 0..1. */
  lemma WindowIsWellFormed(cfg: Settings, start: Instant, steps: seq<Step>, windowStart: Instant, key: Key)
    requires ForwardRun(cfg, Fresh(start), steps)
    ensures var st, full := Run(cfg, Fresh(start), steps), Run(cfg, Fresh(start), WithoutPruning(steps));
            var r := WindowUptime(st, cfg, windowStart, key);
            var (rawStart, stop) := SplitPoint(OldestRaw(st.beats, key), windowStart, st.now);
            && FromRows(st, full, key, windowStart, stop) !! FromRaw(st, key, rawStart)
            && FromRows(st, full, key, windowStart, stop) + FromRaw(st, key, rawStart) <= full.beats.Keys
            && (windowStart < st.now ==>
                  SummaryPart(st, key, windowStart, stop).ok + RawPart(st, cfg, key, rawStart).ok
                  == |FromRows(st, full, key, windowStart, stop) + FromRaw(st, key, rawStart)|)
            && (r.uptime.Some? ==> 0 <= r.uptime.value <= 10000)
            && 0 <= r.covered <= r.window
            && IsCoverage(r.covered, r.window, r.Coverage())
  {
    var st, full := Run(cfg, Fresh(start), steps), Run(cfg, Fresh(start), WithoutPruning(steps));
    FreshAgrees(cfg, start);
    RunKeeps(cfg, Fresh(start), Fresh(start), steps);
    WindowShape(cfg, st, windowStart, key);
    WindowCounts(cfg, st, full, windowStart, key);
  }

  /** The covered share of a window that is not empty. */
  predicate IsCoverage(covered: int, window: int, coverage: Option<real>) {
    match coverage
    case None => window == 0
    case Some(c) => window > 0 && c * window as real == covered as real && 0.0 <= c <= 1.0
  }

  lemma WindowShape(cfg: Settings, st: Store, windowStart: Instant, key: Key)
    ensures var r := WindowUptime(st, cfg, windowStart, key);
            && (r.uptime.Some? ==> 0 <= r.uptime.value <= 10000)
            && 0 <= r.covered <= r.window
            && IsCoverage(r.covered, r.window, r.Coverage())
  {
    CoveredWithin(cfg, st, windowStart, key);
    CoverageIsShare(WindowUptime(st, cfg, windowStart, key));
  }

  lemma CoveredWithin(cfg: Settings, st: Store, windowStart: Instant, key: Key)
    ensures var r := WindowUptime(st, cfg, windowStart, key);
            && (r.uptime.Some? ==> 0 <= r.uptime.value <= 10000)
            && 0 <= r.covered <= r.window
  {
  }

  lemma CoverageIsShare(r: UptimeResult)
    requires 0 <= r.covered <= r.window
    ensures IsCoverage(r.covered, r.window, r.Coverage())
  {
    if r.window > 0 { Share(r.covered as real, r.window as real); }
  }

  lemma Share(covered: real, window: real)
    requires 0.0 <= covered <= window && window > 0.0
    ensures 0.0 <= covered / window <= 1.0 && covered / window * window == covered
  {
  }

  lemma WindowCounts(cfg: Settings, st: Store, full: Store, windowStart: Instant, key: Key)
    requires Agree(cfg, st, full)
    ensures var (rawStart, stop) := SplitPoint(OldestRaw(st.beats, key), windowStart, st.now);
            var rows, raw := FromRows(st, full, key, windowStart, stop), FromRaw(st, key, rawStart);
            && rows !! raw && rows + raw <= full.beats.Keys
            && (windowStart < st.now ==>
                  SummaryPart(st, key, windowStart, stop).ok + RawPart(st, cfg, key, rawStart).ok == |rows + raw|)
  {
    var (rawStart, stop) := SplitPoint(OldestRaw(st.beats, key), windowStart, st.now);
    var rows, raw := FromRows(st, full, key, windowStart, stop), FromRaw(st, key, rawStart);
    assert rows <= Gone(st, full).Keys && raw <= st.beats.Keys;
    if windowStart < st.now {
      if stop.Some? { DaysOrdered(windowStart, if rawStart == st.now then st.now else rawStart); }
      SummaryCounts(cfg, st, full, key, windowStart, stop);
      RawCounts(cfg, st, key, rawStart);
    }
  }

  /** A window that starts at or after the oldest raw beat reads no summary row and is scored as if nothing had
      ever been pruned; `CrossingWindows` has the others. */
  lemma RecentWindowIgnoresPruning(cfg: Settings, start: Instant, steps: seq<Step>, windowStart: Instant, key: Key)
    requires ForwardRun(cfg, Fresh(start), steps)
    requires var oldest := OldestRaw(Run(cfg, Fresh(start), steps).beats, key);
             oldest.Some? && oldest.value <= windowStart
    ensures WindowUptime(Run(cfg, Fresh(start), steps), cfg, windowStart, key)
         == WindowUptime(Run(cfg, Fresh(start), WithoutPruning(steps)), cfg, windowStart, key)
  {
    var st, full := Run(cfg, Fresh(start), steps), Run(cfg, Fresh(start), WithoutPruning(steps));
    FreshAgrees(cfg, start);
    RunKeeps(cfg, Fresh(start), Fresh(start), steps);
    NothingOlderRemoved(cfg, st, full, windowStart, key);
    RecentWindowAgrees(cfg, st, full, windowStart, key);
  }

  lemma RecentWindowAgrees(cfg: Settings, st: Store, full: Store, windowStart: Instant, key: Key)
    requires SameExceptBeats(st, full)
    requires OldestRaw(st.beats, key).Some? && OldestRaw(st.beats, key).value <= windowStart
    requires ScoredOk(st.beats, st.windows, key, windowStart, st.now) ==
             ScoredOk(full.beats, st.windows, key, windowStart, st.now)
    ensures WindowUptime(st, cfg, windowStart, key) == WindowUptime(full, cfg, windowStart, key)
  {
    var oldest := Slot(key, OldestRaw(st.beats, key).value);
    assert oldest in BeatsOf(full.beats, key);
    assert OldestRaw(full.beats, key).Some? && OldestRaw(full.beats, key).value <= windowStart;
  }

  lemma NothingOlderRemoved(cfg: Settings, st: Store, full: Store, windowStart: Instant, key: Key)
    requires Agree(cfg, st, full)
    requires OldestRaw(st.beats, key).Some? && OldestRaw(st.beats, key).value <= windowStart
    ensures ScoredOk(st.beats, st.windows, key, windowStart, st.now) ==
            ScoredOk(full.beats, st.windows, key, windowStart, st.now)
  {
    assert Slot(key, OldestRaw(st.beats, key).value) in st.beats;
    forall s | s in full.beats && s.at >= windowStart ensures s in st.beats {
      assert s in Gone(st, full) || s in st.beats;
    }
  }
}
