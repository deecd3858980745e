/** What holds of every heartbeat run: conservation, invisible folding, settled days, honest windows. */
module HeartbeatTheorems {
  import opened Common
  import opened MaintenanceWindows
  import opened Heartbeats
  import opened Uptime
  import opened HeartbeatRuns

  lemma FullIsGonePlusRaw(st: Store, full: Store)
    requires SameExceptBeats(st, full)
    ensures full.beats == Gone(st, full) + st.beats
    ensures Gone(st, full).Keys !! st.beats.Keys
  {
  }

  /** The row of a day holds the deleted beats of that day, and exists only if there are any. */
  lemma RowHoldsGone(cfg: Settings, st: Store, full: Store, d: DayKey)
    requires FoldedAtOnce(cfg, st, full)
    ensures d in st.daily <==> d in DaysTouched(Gone(st, full))
    ensures Holds(PriorRow(st.daily, d), Gone(st, full), st.windows, d)
    ensures d in st.daily ==>
            st.daily[d].expected
            == ExpectedForDay(st.windows, EpochOf(st.epochs, d.key), st.now, cfg.interval, d.key, d.day)
  {
    if d !in DaysTouched(Gone(st, full)) {
      UntouchedHoldsNothing(Gone(st, full), st.windows, d);
    }
  }

  lemma RowExists(cfg: Settings, st: Store, full: Store, d: DayKey)
    requires FoldedAtOnce(cfg, st, full)
    ensures d in st.daily <==> d in DaysTouched(Gone(st, full))
  {
  }

  /** Folded plus raw is everything ever recorded, class by class. */
  lemma CountsConserved(cfg: Settings, st: Store, full: Store, d: DayKey)
    requires SameExceptBeats(st, full) && FoldedAtOnce(cfg, st, full)
    ensures var row, lo, hi := PriorRow(st.daily, d), DayStart(d.day), DayEnd(d.day);
            && row.ok >= 0 && row.fail >= 0 && row.maintenance >= 0
            && row.ok + |ScoredOk(st.beats, st.windows, d.key, lo, hi)| ==
              |ScoredOk(full.beats, st.windows, d.key, lo, hi)|
            && row.fail + |ScoredFail(st.beats, st.windows, d.key, lo, hi)| ==
              |ScoredFail(full.beats, st.windows, d.key, lo, hi)|
            && row.maintenance + |Masked(st.beats, st.windows, d.key, lo, hi)| ==
              |Masked(full.beats, st.windows, d.key, lo, hi)|
  {
    FullIsGonePlusRaw(st, full);
    RowHoldsGone(cfg, st, full, d);
    CountsAdd(Gone(st, full), st.beats, st.windows, d.key, DayStart(d.day), DayEnd(d.day));
  }

  /** MAIN: in every run, for every monitor and day, the summary row plus the raw beats account for
      each passing, failing and excluded beat of the never-pruned run exactly once. */
  lemma Conservation(cfg: Settings, start: Instant, steps: seq<Step>, d: DayKey)
    requires ForwardRun(cfg, Fresh(start), steps)
    ensures var st, full := Run(cfg, Fresh(start), steps), Run(cfg, Fresh(start), WithoutPruning(steps));
            var row, lo, hi := PriorRow(st.daily, d), DayStart(d.day), DayEnd(d.day);
            && full.daily == map[]
            && row.ok >= 0 && row.fail >= 0 && row.maintenance >= 0
            && row.ok + |ScoredOk(st.beats, st.windows, d.key, lo, hi)| ==
              |ScoredOk(full.beats, full.windows, d.key, lo, hi)|
            && row.fail + |ScoredFail(st.beats, st.windows, d.key, lo, hi)| ==
              |ScoredFail(full.beats, full.windows, d.key, lo, hi)|
            && row.maintenance + |Masked(st.beats, st.windows, d.key, lo, hi)| ==
              |Masked(full.beats, full.windows, d.key, lo, hi)|
  {
    FreshAgrees(cfg, start);
    RunKeeps(cfg, Fresh(start), Fresh(start), steps);
    CountsConserved(cfg, Run(cfg, Fresh(start), steps), Run(cfg, Fresh(start), WithoutPruning(steps)), d);
  }

  lemma HasDataAgrees(cfg: Settings, st: Store, full: Store, key: Key, day: int)
    requires SameExceptBeats(st, full) && FoldedAtOnce(cfg, st, full)
    ensures HasData(st, key, day) <==> HasData(full, key, day)
  {
    var d, lo, hi := DayKey(key, day), DayStart(day), DayEnd(day);
    FullIsGonePlusRaw(st, full);
    RowExists(cfg, st, full, d);
    assert BeatsIn(st.beats, key, lo, hi) <= BeatsIn(full.beats, key, lo, hi);
    if d in DaysTouched(Gone(st, full)) {
      var s :| s in Gone(st, full) && d == DayKey(s.key, DayOf(s.at));
      DayOfBounds(s.at, day);
      assert s in BeatsIn(full.beats, key, lo, hi);
    } else {
      UntouchedHoldsNothing(Gone(st, full), st.windows, d);
      assert BeatsIn(full.beats, key, lo, hi) == BeatsIn(Gone(st, full), key, lo, hi) + BeatsIn(st.beats, key, lo, hi);
    }
  }

  lemma TotalsAgree(cfg: Settings, st: Store, full: Store, key: Key, day: int)
    requires SameExceptBeats(st, full) && FoldedAtOnce(cfg, st, full)
    ensures DayOk(st, key, day) == DayOk(full, key, day)
    ensures DayObserved(st, key, day) == DayObserved(full, key, day)
  {
    CountsConserved(cfg, st, full, DayKey(key, day));
    ScoredSplits(st.beats, st.windows, key, DayStart(day), DayEnd(day));
    ScoredSplits(full.beats, st.windows, key, DayStart(day), DayEnd(day));
  }

  lemma DayUptimeAgrees(cfg: Settings, st: Store, full: Store, key: Key, day: int)
    requires SameExceptBeats(st, full) && FoldedAtOnce(cfg, st, full)
    ensures DayUptime(st, cfg, key, day) == DayUptime(full, cfg, key, day)
  {
    HasDataAgrees(cfg, st, full, key, day);
    TotalsAgree(cfg, st, full, key, day);
  }

  /** MAIN: folding is invisible.  Before, while and after a day crosses the retention boundary,
      its uptime is the one it would have had if nothing had ever been pruned. */
  lemma FoldingIsInvisible(cfg: Settings, start: Instant, steps: seq<Step>, key: Key, day: int)
    requires ForwardRun(cfg, Fresh(start), steps)
    ensures DayUptime(Run(cfg, Fresh(start), steps), cfg, key, day)
         == DayUptime(Run(cfg, Fresh(start), WithoutPruning(steps)), cfg, key, day)
  {
    FreshAgrees(cfg, start);
    RunKeeps(cfg, Fresh(start), Fresh(start), steps);
    DayUptimeAgrees(cfg, Run(cfg, Fresh(start), steps), Run(cfg, Fresh(start), WithoutPruning(steps)), key, day);
  }

  // ---- a completed day keeps its score ----

  lemma SettledUnderQuiet(cfg: Settings, full: Store, now': Instant, windows': seq<Window>, key: Key, day: int)
    requires day < DayOf(full.now) && full.now <= now' && SameBefore(full.windows, windows', full.now)
    ensures DayUptime(full, cfg, key, day)
         == DayUptime(Store(now', full.beats, full.daily, windows', full.epochs), cfg, key, day)
  {
    DayEndsBefore(full.now, day);
    ScoredFrame(full.beats, full.windows, windows', key, DayStart(day), DayEnd(day));
    ExpectedFrame(full.windows, windows', EpochOf(full.epochs, key), full.now, now', cfg.interval, key, day);
  }

  lemma DayEndsBefore(now: Instant, day: int)
    requires day < DayOf(now)
    ensures DayEnd(day) <= now
  {
  }

  lemma BeatOffSpan(beats: map<Slot, Beat>, slot: Slot, beat: Beat,
                    windows: seq<Window>, key: Key, lo: Instant, hi: Instant)
    requires hi <= slot.at
    ensures BeatsIn(beats[slot := beat], key, lo, hi) == BeatsIn(beats, key, lo, hi)
    ensures Scored(beats[slot := beat], windows, key, lo, hi) == Scored(beats, windows, key, lo, hi)
    ensures ScoredOk(beats[slot := beat], windows, key, lo, hi) == ScoredOk(beats, windows, key, lo, hi)
  {
    assert Scored(beats[slot := beat], windows, key, lo, hi) == Scored(beats, windows, key, lo, hi);
  }

  lemma UnrecordedMonitorHasNoScore(cfg: Settings, full: Store, key: Key, day: int)
    requires BeatsOnGrid(full) && full.daily == map[] && key !in full.epochs
    ensures DayUptime(full, cfg, key, day) == None
  {
    assert BeatsIn(full.beats, key, DayStart(day), DayEnd(day)) == {};
  }

  /** The score of a day reads nothing but the day's beats, its expectation and which day is today. */
  lemma SameScore(cfg: Settings, a: Store, b: Store, key: Key, day: int)
    requires a.daily == b.daily && a.now == b.now && a.windows == b.windows &&
             EpochOf(a.epochs, key) == EpochOf(b.epochs, key)
    requires BeatsIn(a.beats, key, DayStart(day), DayEnd(day)) == BeatsIn(b.beats, key, DayStart(day), DayEnd(day))
    requires Scored(a.beats, a.windows, key, DayStart(day), DayEnd(day)) ==
             Scored(b.beats, a.windows, key, DayStart(day), DayEnd(day))
    requires ScoredOk(a.beats, a.windows, key, DayStart(day), DayEnd(day)) ==
             ScoredOk(b.beats, a.windows, key, DayStart(day), DayEnd(day))
    ensures DayUptime(a, cfg, key, day) == DayUptime(b, cfg, key, day)
  {
  }

  lemma SettledUnderRecord(cfg: Settings, full: Store, recorded: Key, outcome: Outcome, key: Key, day: int)
    requires BeatsOnGrid(full) && full.daily == map[] && day < DayOf(full.now)
    ensures DayUptime(full, cfg, key, day) == DayUptime(Record(full, recorded, outcome), cfg, key, day)
  {
    var full' := Record(full, recorded, outcome);
    var slot := Slot(recorded, MinuteOf(full.now));
    NowIsPastDay(full.now, day);
    BeatOffSpan(full.beats, slot, BeatFor(outcome, InMaintenance(full.windows, recorded, slot.at)),
                full.windows, key, DayStart(day), DayEnd(day));
    EpochAfterRecord(full, recorded, outcome);
    if key !in full.epochs {
      UnrecordedMonitorHasNoScore(cfg, full, key, day);
      assert BeatsIn(full'.beats, key, DayStart(day), DayEnd(day)) == {};
    } else {
      SameScore(cfg, full, full', key, day);
    }
  }

  lemma NowIsPastDay(now: Instant, day: int)
    requires day < DayOf(now)
    ensures DayEnd(day) <= MinuteOf(now)
  {
  }

  lemma SettledUnderClose(cfg: Settings, full: Store, k: Key, deleteFuture: bool, key: Key, day: int)
    requires BeatsOnGrid(full) && day < DayOf(full.now)
    ensures DayUptime(CloseWindows(full, k, deleteFuture), cfg, key, day) == DayUptime(full, cfg, key, day)
  {
    CloseEndsEverythingActive(full.windows, k, full.now, deleteFuture);
    SettledUnderQuiet(cfg, full, full.now, Closed(full.windows, k, full.now, deleteFuture), key, day);
  }

  lemma SettledUnderTick(cfg: Settings, full: Store, elapsed: nat, key: Key, day: int)
    requires day < DayOf(full.now)
    ensures DayUptime(Advance(full, elapsed), cfg, key, day) == DayUptime(full, cfg, key, day)
  {
    SettledUnderQuiet(cfg, full, full.now + elapsed, full.windows, key, day);
  }

  lemma SettledUnderOpenFor(cfg: Settings, full: Store, k: Key, minutes: int, exclude: bool, key: Key, day: int)
    requires BeatsOnGrid(full) && day < DayOf(full.now)
    ensures DayUptime(OpenWindowFor(full, k, minutes, exclude), cfg, key, day) == DayUptime(full, cfg, key, day)
  {
    if minutes > 0 {
      SettledUnderOpen(cfg, full, k, full.now, full.now + minutes * 60_000_000, exclude, key, day);
    }
  }

  lemma SettledStep(cfg: Settings, full: Store, step: Step, key: Key, day: int)
    requires BeatsOnGrid(full) && full.daily == map[] && day < DayOf(full.now)
    requires Forward(full, step) && !step.PruneOld?
    ensures DayUptime(Apply(cfg, full, step), cfg, key, day) == DayUptime(full, cfg, key, day)
  {
    match step
    case Tick(elapsed) => SettledUnderTick(cfg, full, elapsed, key, day);
    case Check(k, outcome) => SettledUnderRecord(cfg, full, k, outcome, key, day);
    case Open(k, start, end, exclude) => SettledUnderOpen(cfg, full, k, start, end, exclude, key, day);
    case OpenFor(k, minutes, exclude) => SettledUnderOpenFor(cfg, full, k, minutes, exclude, key, day);
    case Close(k, deleteFuture) => SettledUnderClose(cfg, full, k, deleteFuture, key, day);
  }

  lemma SettledUnderOpen(cfg: Settings, full: Store, k: Key, start: Instant,
                         end: Instant, exclude: bool, key: Key, day: int)
    requires BeatsOnGrid(full) && day < DayOf(full.now) && full.now <= start
    ensures DayUptime(OpenWindow(full, k, start, end, exclude), cfg, key, day) == DayUptime(full, cfg, key, day)
  {
    if start < end {
      OpeningIsQuiet(full.windows, Window(k, start, end, exclude), full.now);
      SettledUnderQuiet(cfg, full, full.now, full.windows + [Window(k, start, end, exclude)], key, day);
    }
  }

  lemma {:induction false} SettledRun(cfg: Settings, st: Store, full: Store, steps: seq<Step>, key: Key, day: int)
    requires Agree(cfg, st, full) && ForwardRun(cfg, st, steps) && day < DayOf(st.now)
    ensures DayUptime(Run(cfg, st, steps), cfg, key, day) == DayUptime(st, cfg, key, day)
    decreases |steps|
  {
    if steps != [] {
      var st', full' := Apply(cfg, st, steps[0]), Mirror(cfg, full, steps[0]);
      StepKeeps(cfg, st, full, steps[0]);
      DayUptimeAgrees(cfg, st, full, key, day);
      DayUptimeAgrees(cfg, st', full', key, day);
      if !steps[0].PruneOld? { SettledStep(cfg, full, steps[0], key, day); }
      DaysPass(cfg, st, steps[0], day);
      SettledRun(cfg, st', full', steps[1..], key, day);
    }
  }

  lemma DaysPass(cfg: Settings, st: Store, step: Step, day: int)
    requires day < DayOf(st.now)
    ensures day < DayOf(Apply(cfg, st, step).now)
  {
  }

  lemma {:induction false} RunSplits(cfg: Settings, st: Store, a: seq<Step>, b: seq<Step>)
    requires ForwardRun(cfg, st, a + b)
    ensures ForwardRun(cfg, st, a) && ForwardRun(cfg, Run(cfg, st, a), b)
    ensures Run(cfg, st, a + b) == Run(cfg, Run(cfg, st, a), b)
    decreases |a|
  {
    if a == [] {
      assert a + b == b;
    } else {
      assert (a + b)[1..] == a[1..] + b;
      RunSplits(cfg, Apply(cfg, st, a[0]), a[1..], b);
    }
  }

  /** MAIN: once a day is over, no later check, prune, window or tick changes its uptime. */
  lemma CompletedDayIsSettled(cfg: Settings, start: Instant, before: seq<Step>, after: seq<Step>, key: Key, day: int)
    requires ForwardRun(cfg, Fresh(start), before + after)
    requires day < DayOf(Run(cfg, Fresh(start), before).now)
    ensures DayUptime(Run(cfg, Fresh(start), before + after), cfg, key, day)
         == DayUptime(Run(cfg, Fresh(start), before), cfg, key, day)
  {
    FreshAgrees(cfg, start);
    RunSplits(cfg, Fresh(start), before, after);
    RunKeeps(cfg, Fresh(start), Fresh(start), before);
    SettledRun(cfg, Run(cfg, Fresh(start), before), Run(cfg, Fresh(start), WithoutPruning(before)), after, key, day);
  }
}
