/** Whole runs of the heartbeat tables: pruning is invisible to the readers.
    A run is compared, step by step, with the run that never prunes. */
module HeartbeatRuns {
  import opened Common
  import opened MaintenanceWindows
  import opened Heartbeats

  datatype Step =
    | Tick(elapsed: nat)
    | Check(key: Key, outcome: Outcome)
    | PruneOld
    | Open(key: Key, start: Instant, end: Instant, exclude: bool)
    | OpenFor(key: Key, minutes: int, exclude: bool)
    | Close(key: Key, deleteFuture: bool)

  function Advance(st: Store, elapsed: nat): Store {
    st.(now := st.now + elapsed)
  }

  ghost function Apply(cfg: Settings, st: Store, step: Step): Store {
    match step
    case Tick(elapsed) => Advance(st, elapsed)
    case Check(key, outcome) => Record(st, key, outcome)
    case PruneOld => Prune(st, cfg)
    case Open(key, start, end, exclude) => OpenWindow(st, key, start, end, exclude)
    case OpenFor(key, minutes, exclude) => OpenWindowFor(st, key, minutes, exclude)
    case Close(key, deleteFuture) => CloseWindows(st, key, deleteFuture)
  }

  /** A window may be scheduled, not back-dated. */
  predicate Forward(st: Store, step: Step) {
    step.Open? ==> step.start >= st.now
  }

  ghost function Run(cfg: Settings, st: Store, steps: seq<Step>): Store
    decreases |steps|
  {
    if steps == [] then st else Run(cfg, Apply(cfg, st, steps[0]), steps[1..])
  }

  ghost predicate ForwardRun(cfg: Settings, st: Store, steps: seq<Step>)
    decreases |steps|
  {
    steps != [] ==> Forward(st, steps[0]) && ForwardRun(cfg, Apply(cfg, st, steps[0]), steps[1..])
  }

  function WithoutPruning(steps: seq<Step>): seq<Step> {
    if steps == [] then []
    else if steps[0].PruneOld? then WithoutPruning(steps[1..])
    else [steps[0]] + WithoutPruning(steps[1..])
  }

  function Fresh(now: Instant): Store {
    Store(now, map[], map[], [], map[])
  }

  // ---- the relation between a run and its never-pruned twin ----

  /** The beats the pruner deleted. */
  function Gone(st: Store, full: Store): map<Slot, Beat> {
    full.beats - st.beats.Keys
  }

  ghost predicate SameExceptBeats(st: Store, full: Store) {
    && full.now == st.now && full.windows == st.windows && full.epochs == st.epochs
    && full.daily == map[]
    && st.beats.Keys <= full.beats.Keys
    && (forall s :: s in st.beats ==> st.beats[s] == full.beats[s])
  }

  ghost predicate BeatsOnGrid(full: Store) {
    && Sane(full.windows)
    && (forall s :: s in full.beats ==> s.at % 60_000_000 == 0 && s.at <= full.now)
    && (forall s :: s in full.beats ==> s.key in full.epochs && full.epochs[s.key] <= s.at)
    && (forall k :: k in full.epochs ==> Slot(k, full.epochs[k]) in full.beats)
  }

  ghost predicate GoneIsOld(st: Store, full: Store) {
    && (forall g :: g in Gone(st, full) ==> g.at + 86_400_000_000 < full.now)
    && (forall g, r :: g in Gone(st, full) && r in st.beats ==> g.at < r.at)
  }

  /** The summary table is what folding everything deleted in one single batch would give. */
  ghost predicate FoldedAtOnce(cfg: Settings, st: Store, full: Store) {
    st.daily == Summarized(map[], Gone(st, full), st.windows, st.epochs, st.now, cfg.interval)
  }

  ghost predicate Agree(cfg: Settings, st: Store, full: Store) {
    && SameExceptBeats(st, full)
    && BeatsOnGrid(full)
    && GoneIsOld(st, full)
    && FoldedAtOnce(cfg, st, full)
  }

  // ---- frames ----

  lemma ScoredFrame(beats: map<Slot, Beat>, a: seq<Window>, b: seq<Window>, key: Key, lo: Instant, hi: Instant)
    requires SameBefore(a, b, hi)
    ensures Scored(beats, a, key, lo, hi) == Scored(beats, b, key, lo, hi)
    ensures ScoredOk(beats, a, key, lo, hi) == ScoredOk(beats, b, key, lo, hi)
    ensures ScoredFail(beats, a, key, lo, hi) == ScoredFail(beats, b, key, lo, hi)
    ensures Masked(beats, a, key, lo, hi) == Masked(beats, b, key, lo, hi)
  {
    assert Scored(beats, a, key, lo, hi) == Scored(beats, b, key, lo, hi);
  }

  /** The expectation of a day that has ended no longer moves. */
  lemma ExpectedFrame(a: seq<Window>, b: seq<Window>, epoch: Option<Instant>,
                      now: Instant, now': Instant, interval: int, key: Key, day: int)
    requires interval > 0 && DayEnd(day) <= now && DayEnd(day) <= now' && SameBefore(a, b, DayEnd(day))
    ensures ExpectedForDay(a, epoch, now, interval, key, day) == ExpectedForDay(b, epoch, now', interval, key, day)
  {
    SameBeforeMeasure(a, b, key, SpanStart(epoch, day), DayEnd(day));
  }

  lemma RowFrame(prior: Daily, batch: map<Slot, Beat>, a: seq<Window>, b: seq<Window>, epochs: map<Key, Instant>,
                 epochs': map<Key, Instant>, now: Instant, now': Instant, interval: int, d: DayKey)
    requires interval > 0 && DayEnd(d.day) <= now <= now' && SameBefore(a, b, DayEnd(d.day))
    requires EpochOf(epochs, d.key) == EpochOf(epochs', d.key)
    ensures FoldedRow(prior, batch, a, epochs, now, interval, d) ==
            FoldedRow(prior, batch, b, epochs', now', interval, d)
  {
    ScoredFrame(batch, a, b, d.key, DayStart(d.day), DayEnd(d.day));
    ExpectedFrame(a, b, EpochOf(epochs, d.key), now, now', interval, d.key, d.day);
  }

  lemma TouchedDayEnded(gone: map<Slot, Beat>, now: Instant, d: DayKey)
    requires forall g :: g in gone ==> g.at + 86_400_000_000 < now
    requires d in DaysTouched(gone)
    ensures DayEnd(d.day) < now
  {
    var s :| s in gone && d == DayKey(s.key, DayOf(s.at));
    DayOfBounds(s.at, d.day);
  }

  /** Folding beats more than a day old does not depend on when it happens, on windows that
      changed since, or on epochs that appeared since. */
  lemma SummaryFrame(gone: map<Slot, Beat>, a: seq<Window>, b: seq<Window>, epochs: map<Key, Instant>,
                     epochs': map<Key, Instant>, now: Instant, now': Instant, interval: int)
    requires interval > 0 && now <= now' && SameBefore(a, b, now)
    requires forall g :: g in gone ==> g.at + 86_400_000_000 < now
    requires forall g :: g in gone ==> EpochOf(epochs, g.key) == EpochOf(epochs', g.key)
    ensures Summarized(map[], gone, a, epochs, now, interval) == Summarized(map[], gone, b, epochs', now', interval)
  {
    forall d | d in DaysTouched(gone)
      ensures FoldedRow(EMPTY_ROW, gone, a, epochs, now, interval, d) ==
              FoldedRow(EMPTY_ROW, gone, b, epochs', now', interval, d)
    {
      TouchedDayEnded(gone, now, d);
      var s :| s in gone && d == DayKey(s.key, DayOf(s.at));
      RowFrame(EMPTY_ROW, gone, a, b, epochs, epochs', now, now', interval, d);
    }
    SummarizedEqual(map[], map[], DaysTouched(gone), Folder(map[], gone, a, epochs, now, interval),
                    Folder(map[], gone, b, epochs', now', interval));
  }

  lemma SummarizedEqual(m: map<DayKey, Daily>, n: map<DayKey, Daily>,
                        days: set<DayKey>, f: DayKey -> Daily, g: DayKey -> Daily)
    requires m == n && forall d :: d in days ==> f(d) == g(d)
    ensures Patched(m, days, f) == Patched(n, days, g)
  {
  }

  /** Steps that keep the raw beats and classify no past instant anew keep the relation. */
  lemma QuietStep(cfg: Settings, st: Store, full: Store, now': Instant, windows': seq<Window>)
    requires Agree(cfg, st, full) && st.now <= now' && Sane(windows') && SameBefore(st.windows, windows', st.now)
    ensures Agree(cfg, Store(now', st.beats, st.daily, windows', st.epochs),
            Store(now', full.beats, full.daily, windows', full.epochs))
  {
    SummaryFrame(Gone(st, full), st.windows, windows', st.epochs, st.epochs, st.now, now', cfg.interval);
  }

  lemma OpeningIsQuiet(windows: seq<Window>, w: Window, now: Instant)
    requires Sane(windows) && now <= w.start <= w.end
    ensures Sane(windows + [w]) && SameBefore(windows, windows + [w], now)
  {
    var after := windows + [w];
    forall v | v in after ensures v.start <= v.end { }
    forall key, u | u < now ensures Excluded(windows, key, u) <==> Excluded(after, key, u) {
      if Excluded(windows, key, u) {
        var v :| v in windows && v.key == key && v.exclude && v.start <= u < v.end;
        assert v in after;
      }
    }
  }

  // ---- recording ----

  lemma EpochAfterRecord(full: Store, key: Key, outcome: Outcome)
    requires BeatsOnGrid(full)
    ensures Record(full, key, outcome).epochs
         == if key in full.epochs then full.epochs else full.epochs[key := MinuteOf(full.now)]
    ensures BeatsOnGrid(Record(full, key, outcome))
  {
    var minute := MinuteOf(full.now);
    var after := Record(full, key, outcome);
    assert Slot(key, minute) in BeatsOf(after.beats, key);
    if key !in full.epochs {
      assert forall s :: s in after.beats && s.key == key ==> s == Slot(key, minute);
      assert IsOldest(after.beats, key, after.epochs[key]);
    }
    forall s | s in after.beats
      ensures s.at % 60_000_000 == 0 && s.at <= after.now && s.key in after.epochs && after.epochs[s.key] <= s.at
    {
      if s == Slot(key, minute) && key in full.epochs {
        var e := full.epochs[key];
        assert Slot(key, e) in full.beats;
        GridBelow(e, full.now);
      }
    }
    forall k | k in after.epochs ensures Slot(k, after.epochs[k]) in after.beats { }
  }

  lemma GridBelow(e: Instant, now: Instant)
    requires e % 60_000_000 == 0 && e <= now
    ensures e <= MinuteOf(now)
  {
  }

  lemma SharedUpdate(kept: map<Slot, Beat>, all: map<Slot, Beat>, s: Slot, beat: Beat)
    requires s !in all - kept.Keys
    ensures all[s := beat] - kept[s := beat].Keys == all - kept.Keys
  {
  }

  lemma GoneAfterRecord(cfg: Settings, st: Store, full: Store, key: Key, outcome: Outcome)
    requires Agree(cfg, st, full)
    ensures Gone(Record(st, key, outcome), Record(full, key, outcome)) == Gone(st, full)
  {
    var slot := Slot(key, MinuteOf(st.now));
    assert slot !in Gone(st, full);
    SharedUpdate(st.beats, full.beats, slot, BeatFor(outcome, InMaintenance(st.windows, key, slot.at)));
  }

  lemma RecordKeepsGone(cfg: Settings, st: Store, full: Store, key: Key, outcome: Outcome)
    requires Agree(cfg, st, full)
    ensures GoneIsOld(Record(st, key, outcome), Record(full, key, outcome))
  {
    var st', full' := Record(st, key, outcome), Record(full, key, outcome);
    GoneAfterRecord(cfg, st, full, key, outcome);
    forall g, r | g in Gone(st', full') && r in st'.beats ensures g.at < r.at {
      assert r == Slot(key, MinuteOf(st.now)) || r in st.beats;
    }
  }

  lemma RecordKeepsTables(cfg: Settings, st: Store, full: Store, key: Key, outcome: Outcome)
    requires Agree(cfg, st, full)
    ensures SameExceptBeats(Record(st, key, outcome), Record(full, key, outcome))
  {
    RecordedEpochsMatch(cfg, st, full, key, outcome);
  }

  lemma RecordKeepsRows(cfg: Settings, st: Store, full: Store, key: Key, outcome: Outcome)
    requires Agree(cfg, st, full)
    ensures FoldedAtOnce(cfg, Record(st, key, outcome), Record(full, key, outcome))
  {
    GoneAfterRecord(cfg, st, full, key, outcome);
    EpochsOnlyGrow(cfg, st, full, key, outcome);
    SummaryFrame(Gone(st, full), st.windows, st.windows, st.epochs,
                 Record(st, key, outcome).epochs, st.now, st.now, cfg.interval);
  }

  lemma EpochsOnlyGrow(cfg: Settings, st: Store, full: Store, key: Key, outcome: Outcome)
    requires Agree(cfg, st, full)
    ensures forall g :: g in Gone(st, full) ==>
            EpochOf(st.epochs, g.key) == EpochOf(Record(st, key, outcome).epochs, g.key)
  {
    RecordedEpochsMatch(cfg, st, full, key, outcome);
    EpochAfterRecord(full, key, outcome);
  }

  lemma RecordKeeps(cfg: Settings, st: Store, full: Store, key: Key, outcome: Outcome)
    requires Agree(cfg, st, full)
    ensures Agree(cfg, Record(st, key, outcome), Record(full, key, outcome))
  {
    RecordKeepsTables(cfg, st, full, key, outcome);
    EpochAfterRecord(full, key, outcome);
    RecordKeepsGone(cfg, st, full, key, outcome);
    RecordKeepsRows(cfg, st, full, key, outcome);
  }

  /** The epoch row is created from the very first beat, so pruning cannot move it. */
  lemma RecordedEpochsMatch(cfg: Settings, st: Store, full: Store, key: Key, outcome: Outcome)
    requires Agree(cfg, st, full)
    ensures Record(st, key, outcome).epochs == Record(full, key, outcome).epochs
  {
    EpochAfterRecord(full, key, outcome);
    var after := Record(st, key, outcome);
    var slot := Slot(key, MinuteOf(st.now));
    assert slot in BeatsOf(after.beats, key);
    if key !in st.epochs {
      assert forall s :: s in after.beats && s.key == key ==> s == slot;
      assert IsOldest(after.beats, key, after.epochs[key]);
    }
  }

  // ---- folding in batches ----

  /** A row holds exactly the counts of these beats. */
  ghost predicate Holds(row: Daily, beats: map<Slot, Beat>, windows: seq<Window>, d: DayKey) {
    var lo, hi := DayStart(d.day), DayEnd(d.day);
    && row.ok == |ScoredOk(beats, windows, d.key, lo, hi)|
    && row.fail == |ScoredFail(beats, windows, d.key, lo, hi)|
    && row.maintenance == |Masked(beats, windows, d.key, lo, hi)|
  }

  lemma OkAdds(a: map<Slot, Beat>, b: map<Slot, Beat>, windows: seq<Window>, key: Key, lo: Instant, hi: Instant)
    requires a.Keys !! b.Keys
    ensures |ScoredOk(a + b, windows, key, lo, hi)| ==
            |ScoredOk(a, windows, key, lo, hi)| + |ScoredOk(b, windows, key, lo, hi)|
  {
    assert ScoredOk(a + b, windows, key, lo, hi) ==
      ScoredOk(a, windows, key, lo, hi) + ScoredOk(b, windows, key, lo, hi);
    assert ScoredOk(a, windows, key, lo, hi) !! ScoredOk(b, windows, key, lo, hi);
  }

  lemma FailAdds(a: map<Slot, Beat>, b: map<Slot, Beat>, windows: seq<Window>, key: Key, lo: Instant, hi: Instant)
    requires a.Keys !! b.Keys
    ensures |ScoredFail(a + b, windows, key, lo, hi)| ==
            |ScoredFail(a, windows, key, lo, hi)| + |ScoredFail(b, windows, key, lo, hi)|
  {
    assert ScoredFail(a + b, windows, key, lo, hi) ==
      ScoredFail(a, windows, key, lo, hi) + ScoredFail(b, windows, key, lo, hi);
    assert ScoredFail(a, windows, key, lo, hi) !! ScoredFail(b, windows, key, lo, hi);
  }

  lemma MaskedAdds(a: map<Slot, Beat>, b: map<Slot, Beat>, windows: seq<Window>, key: Key, lo: Instant, hi: Instant)
    requires a.Keys !! b.Keys
    ensures |Masked(a + b, windows, key, lo, hi)| ==
            |Masked(a, windows, key, lo, hi)| + |Masked(b, windows, key, lo, hi)|
  {
    assert Masked(a + b, windows, key, lo, hi) == Masked(a, windows, key, lo, hi) + Masked(b, windows, key, lo, hi);
    assert Masked(a, windows, key, lo, hi) !! Masked(b, windows, key, lo, hi);
  }

  lemma CountsAdd(a: map<Slot, Beat>, b: map<Slot, Beat>, windows: seq<Window>, key: Key, lo: Instant, hi: Instant)
    requires a.Keys !! b.Keys
    ensures |ScoredOk(a + b, windows, key, lo, hi)| ==
            |ScoredOk(a, windows, key, lo, hi)| + |ScoredOk(b, windows, key, lo, hi)|
    ensures |ScoredFail(a + b, windows, key, lo, hi)| ==
            |ScoredFail(a, windows, key, lo, hi)| + |ScoredFail(b, windows, key, lo, hi)|
    ensures |Masked(a + b, windows, key, lo, hi)| ==
            |Masked(a, windows, key, lo, hi)| + |Masked(b, windows, key, lo, hi)|
    ensures |Scored(a + b, windows, key, lo, hi)| ==
            |Scored(a, windows, key, lo, hi)| + |Scored(b, windows, key, lo, hi)|
  {
    OkAdds(a, b, windows, key, lo, hi);
    FailAdds(a, b, windows, key, lo, hi);
    MaskedAdds(a, b, windows, key, lo, hi);
    ScoredSplits(a + b, windows, key, lo, hi);
    ScoredSplits(a, windows, key, lo, hi);
    ScoredSplits(b, windows, key, lo, hi);
  }

  /** Folding a second batch into a row equals folding both batches at once. */
  lemma FoldTwice(prior: Daily, a: map<Slot, Beat>, b: map<Slot, Beat>, windows: seq<Window>,
                  epochs: map<Key, Instant>, now: Instant, interval: int, d: DayKey)
    requires interval > 0 && a.Keys !! b.Keys && Holds(prior, a, windows, d)
    ensures FoldedRow(prior, b, windows, epochs, now, interval, d)
         == FoldedRow(EMPTY_ROW, a + b, windows, epochs, now, interval, d)
  {
    CountsAdd(a, b, windows, d.key, DayStart(d.day), DayEnd(d.day));
  }

  lemma UntouchedHoldsNothing(beats: map<Slot, Beat>, windows: seq<Window>, d: DayKey)
    requires d !in DaysTouched(beats)
    ensures Holds(EMPTY_ROW, beats, windows, d)
    ensures BeatsIn(beats, d.key, DayStart(d.day), DayEnd(d.day)) == {}
  {
    var lo, hi := DayStart(d.day), DayEnd(d.day);
    forall s | s in beats ensures !(s.key == d.key && lo <= s.at < hi) {
      DayOfBounds(s.at, d.day);
      assert DayKey(s.key, DayOf(s.at)) in DaysTouched(beats);
    }
    assert ScoredOk(beats, windows, d.key, lo, hi) == {};
    assert ScoredFail(beats, windows, d.key, lo, hi) == {};
    assert Masked(beats, windows, d.key, lo, hi) == {};
  }

  lemma GoneAfterPrune(cfg: Settings, st: Store, full: Store)
    requires SameExceptBeats(st, full)
    ensures Gone(st, full).Keys !! OldBeats(st, cfg).Keys
    ensures Gone(Prune(st, cfg), full) == Gone(st, full) + OldBeats(st, cfg)
  {
    assert Gone(Prune(st, cfg), full).Keys == (Gone(st, full) + OldBeats(st, cfg)).Keys;
  }

  /** A row that the batch does not touch already is the fold of everything deleted. */
  lemma UntouchedRow(gone: map<Slot, Beat>, batch: map<Slot, Beat>, windows: seq<Window>,
                     epochs: map<Key, Instant>, now: Instant, interval: int, d: DayKey)
    requires interval > 0 && gone.Keys !! batch.Keys && d !in DaysTouched(batch)
    ensures FoldedRow(EMPTY_ROW, gone, windows, epochs, now, interval, d)
         == FoldedRow(EMPTY_ROW, gone + batch, windows, epochs, now, interval, d)
  {
    UntouchedHoldsNothing(batch, windows, d);
    CountsAdd(gone, batch, windows, d.key, DayStart(d.day), DayEnd(d.day));
  }

  lemma PatchedTwice(first: map<DayKey, Daily>, a: set<DayKey>, b: set<DayKey>, f: DayKey -> Daily, g: DayKey -> Daily)
    requires first.Keys == a
    requires forall d :: d in b ==> f(d) == g(d)
    requires forall d :: d in a && d !in b ==> first[d] == g(d)
    ensures Patched(first, b, f) == Patched(map[], a + b, g)
  {
    assert Patched(first, b, f).Keys == Patched(map[], a + b, g).Keys;
  }

  /** Folding in two batches gives the table that folding once gives. */
  lemma FoldInBatches(a: map<Slot, Beat>, b: map<Slot, Beat>, windows: seq<Window>,
                      epochs: map<Key, Instant>, now: Instant, interval: int)
    requires interval > 0 && a.Keys !! b.Keys
    ensures Summarized(Summarized(map[], a, windows, epochs, now, interval), b, windows, epochs, now, interval)
         == Summarized(map[], a + b, windows, epochs, now, interval)
  {
    var first := Summarized(map[], a, windows, epochs, now, interval);
    DaysTouchedAdd(a, b);
    var f, g := Folder(first, b, windows, epochs, now, interval), Folder(map[], a + b, windows, epochs, now, interval);
    forall d | d in DaysTouched(b) ensures f(d) == g(d) {
      BatchedRow(first, a, b, windows, epochs, now, interval, d);
    }
    forall d | d in DaysTouched(a) && d !in DaysTouched(b) ensures first[d] == g(d) {
      BatchedRow(first, a, b, windows, epochs, now, interval, d);
    }
    PatchedTwice(first, DaysTouched(a), DaysTouched(b), f, g);
  }

  lemma BatchedRow(first: map<DayKey, Daily>, a: map<Slot, Beat>, b: map<Slot, Beat>, windows: seq<Window>,
                   epochs: map<Key, Instant>, now: Instant, interval: int, d: DayKey)
    requires interval > 0 && a.Keys !! b.Keys
    requires first == Summarized(map[], a, windows, epochs, now, interval)
    requires d in DaysTouched(a) || d in DaysTouched(b)
    ensures d !in DaysTouched(b) ==>
            d in first && first[d] == FoldedRow(EMPTY_ROW, a + b, windows, epochs, now, interval, d)
    ensures FoldedRow(PriorRow(first, d), b, windows, epochs, now, interval, d)
         == FoldedRow(EMPTY_ROW, a + b, windows, epochs, now, interval, d)
  {
    if d !in DaysTouched(a) {
      UntouchedHoldsNothing(a, windows, d);
    }
    if d !in DaysTouched(b) {
      UntouchedRow(a, b, windows, epochs, now, interval, d);
    }
    FoldTwice(PriorRow(first, d), a, b, windows, epochs, now, interval, d);
  }

  lemma DaysTouchedAdd(a: map<Slot, Beat>, b: map<Slot, Beat>)
    ensures DaysTouched(a + b) == DaysTouched(a) + DaysTouched(b)
  {
    forall d ensures d in DaysTouched(a + b) <==> d in DaysTouched(a) + DaysTouched(b) {
      if d in DaysTouched(a) {
        var s :| s in a && d == DayKey(s.key, DayOf(s.at));
        assert s in a + b;
      }
      if d in DaysTouched(b) {
        var s :| s in b && d == DayKey(s.key, DayOf(s.at));
        assert s in a + b;
      }
    }
  }

  lemma PruneKeeps(cfg: Settings, st: Store, full: Store)
    requires Agree(cfg, st, full)
    ensures Agree(cfg, Prune(st, cfg), full)
  {
    GoneAfterPrune(cfg, st, full);
    FoldInBatches(Gone(st, full), OldBeats(st, cfg), st.windows, st.epochs, st.now, cfg.interval);
  }

  // ---- every step, every run ----

  lemma OpenKeeps(cfg: Settings, st: Store, full: Store, key: Key, start: Instant, end: Instant, exclude: bool)
    requires Agree(cfg, st, full) && st.now <= start
    ensures Agree(cfg, OpenWindow(st, key, start, end, exclude), OpenWindow(full, key, start, end, exclude))
  {
    if start < end {
      OpeningIsQuiet(st.windows, Window(key, start, end, exclude), st.now);
      QuietStep(cfg, st, full, st.now, st.windows + [Window(key, start, end, exclude)]);
    }
  }

  lemma CloseKeeps(cfg: Settings, st: Store, full: Store, key: Key, deleteFuture: bool)
    requires Agree(cfg, st, full)
    ensures Agree(cfg, CloseWindows(st, key, deleteFuture), CloseWindows(full, key, deleteFuture))
  {
    CloseEndsEverythingActive(st.windows, key, st.now, deleteFuture);
    QuietStep(cfg, st, full, st.now, Closed(st.windows, key, st.now, deleteFuture));
  }

  lemma TickKeeps(cfg: Settings, st: Store, full: Store, elapsed: nat)
    requires Agree(cfg, st, full)
    ensures Agree(cfg, Advance(st, elapsed), Advance(full, elapsed))
  {
    var now' := st.now + elapsed;
    QuietStep(cfg, st, full, now', st.windows);
    assert Advance(full, elapsed) == Store(now', full.beats, full.daily, st.windows, full.epochs);
  }

  lemma OpenForKeeps(cfg: Settings, st: Store, full: Store, key: Key, minutes: int, exclude: bool)
    requires Agree(cfg, st, full)
    ensures Agree(cfg, OpenWindowFor(st, key, minutes, exclude), OpenWindowFor(full, key, minutes, exclude))
  {
    if minutes > 0 {
      var end := st.now + minutes * 60_000_000;
      OpenKeeps(cfg, st, full, key, st.now, end, exclude);
      assert OpenWindowFor(st, key, minutes, exclude) == OpenWindow(st, key, st.now, end, exclude);
      assert OpenWindowFor(full, key, minutes, exclude) == OpenWindow(full, key, st.now, end, exclude);
    }
  }

  /** Where the never-pruning twin goes on the same step. */
  ghost function Mirror(cfg: Settings, full: Store, step: Step): Store {
    if step.PruneOld? then full else Apply(cfg, full, step)
  }

  lemma TickStep(cfg: Settings, st: Store, full: Store, step: Step)
    requires Agree(cfg, st, full) && step.Tick?
    ensures Agree(cfg, Apply(cfg, st, step), Mirror(cfg, full, step))
  {
    TickKeeps(cfg, st, full, step.elapsed);
    assert Apply(cfg, st, step) == Advance(st, step.elapsed);
    assert Mirror(cfg, full, step) == Advance(full, step.elapsed);
  }

  lemma CheckStep(cfg: Settings, st: Store, full: Store, step: Step)
    requires Agree(cfg, st, full) && step.Check?
    ensures Agree(cfg, Apply(cfg, st, step), Mirror(cfg, full, step))
  {
    RecordKeeps(cfg, st, full, step.key, step.outcome);
    assert Apply(cfg, st, step) == Record(st, step.key, step.outcome);
    assert Mirror(cfg, full, step) == Record(full, step.key, step.outcome);
  }

  lemma PruneStep(cfg: Settings, st: Store, full: Store, step: Step)
    requires Agree(cfg, st, full) && step.PruneOld?
    ensures Agree(cfg, Apply(cfg, st, step), Mirror(cfg, full, step))
  {
    PruneKeeps(cfg, st, full);
    assert Apply(cfg, st, step) == Prune(st, cfg);
    assert Mirror(cfg, full, step) == full;
  }

  lemma OpenStep(cfg: Settings, st: Store, full: Store, step: Step)
    requires Agree(cfg, st, full) && step.Open? && Forward(st, step)
    ensures Agree(cfg, Apply(cfg, st, step), Mirror(cfg, full, step))
  {
    OpenKeeps(cfg, st, full, step.key, step.start, step.end, step.exclude);
    assert Apply(cfg, st, step) == OpenWindow(st, step.key, step.start, step.end, step.exclude);
    assert Mirror(cfg, full, step) == OpenWindow(full, step.key, step.start, step.end, step.exclude);
  }

  lemma OpenForStep(cfg: Settings, st: Store, full: Store, step: Step)
    requires Agree(cfg, st, full) && step.OpenFor?
    ensures Agree(cfg, Apply(cfg, st, step), Mirror(cfg, full, step))
  {
    OpenForKeeps(cfg, st, full, step.key, step.minutes, step.exclude);
    assert Apply(cfg, st, step) == OpenWindowFor(st, step.key, step.minutes, step.exclude);
    assert Mirror(cfg, full, step) == OpenWindowFor(full, step.key, step.minutes, step.exclude);
  }

  lemma CloseStep(cfg: Settings, st: Store, full: Store, step: Step)
    requires Agree(cfg, st, full) && step.Close?
    ensures Agree(cfg, Apply(cfg, st, step), Mirror(cfg, full, step))
  {
    CloseKeeps(cfg, st, full, step.key, step.deleteFuture);
    assert Apply(cfg, st, step) == CloseWindows(st, step.key, step.deleteFuture);
    assert Mirror(cfg, full, step) == CloseWindows(full, step.key, step.deleteFuture);
  }

  lemma StepKeeps(cfg: Settings, st: Store, full: Store, step: Step)
    requires Agree(cfg, st, full) && Forward(st, step)
    ensures Agree(cfg, Apply(cfg, st, step), Mirror(cfg, full, step))
  {
    match step
    case Tick(_) => TickStep(cfg, st, full, step);
    case Check(_, _) => CheckStep(cfg, st, full, step);
    case PruneOld => PruneStep(cfg, st, full, step);
    case Open(_, _, _, _) => OpenStep(cfg, st, full, step);
    case OpenFor(_, _, _) => OpenForStep(cfg, st, full, step);
    case Close(_, _) => CloseStep(cfg, st, full, step);
  }

  lemma FreshAgrees(cfg: Settings, start: Instant)
    ensures Agree(cfg, Fresh(start), Fresh(start))
  {
    assert Gone(Fresh(start), Fresh(start)) == map[];
  }

  lemma {:induction false} RunKeeps(cfg: Settings, st: Store, full: Store, steps: seq<Step>)
    requires Agree(cfg, st, full) && ForwardRun(cfg, st, steps)
    ensures Agree(cfg, Run(cfg, st, steps), Run(cfg, full, WithoutPruning(steps)))
    decreases |steps|
  {
    if steps != [] {
      var step := steps[0];
      StepKeeps(cfg, st, full, step);
      var full' := Mirror(cfg, full, step);
      RunKeeps(cfg, Apply(cfg, st, step), full', steps[1..]);
      if !step.PruneOld? {
        assert WithoutPruning(steps)[1..] == WithoutPruning(steps[1..]);
      }
    }
  }
}
