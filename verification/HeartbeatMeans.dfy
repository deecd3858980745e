/** The mean response times of the daily rows, over whole runs. */
module HeartbeatMeans {
  import opened Common
  import opened MaintenanceWindows
  import opened Heartbeats
  import opened HeartbeatStore
  import opened HeartbeatRuns
  import opened HeartbeatTheorems

  /** The pruner alone writes means. */
  ghost function MeansAfter(cfg: Settings, st: Store, means: map<DayKey, nat>, step: Step): map<DayKey, nat> {
    if step.PruneOld? then Averaged(means, DaysTouched(OldBeats(st, cfg)), st.daily, OldBeats(st, cfg), st.windows)
    else means
  }

  /** The column as a run leaves it, next to the tables of `Run`. */
  ghost function MeansOf(cfg: Settings, st: Store, means: map<DayKey, nat>, steps: seq<Step>): map<DayKey, nat>
    decreases |steps|
  {
    if steps == [] then means
    else MeansOf(cfg, Apply(cfg, st, steps[0]), MeansAfter(cfg, st, means, steps[0]), steps[1..])
  }

  /** Bounds of the date's deleted beats bound its mean. */
  ghost predicate MeanWithin(st: Store, full: Store, means: map<DayKey, nat>, d: DayKey, lo: nat, hi: nat) {
    DayMsBetween(Gone(st, full), d, lo, hi) ==> MeanBetween(means, st.daily, d, lo, hi)
  }

  lemma FewerBeats(part: map<Slot, Beat>, all: map<Slot, Beat>, d: DayKey, lo: nat, hi: nat)
    requires DayMsBetween(all, d, lo, hi) && forall s :: s in part ==> s in all && all[s] == part[s]
    ensures DayMsBetween(part, d, lo, hi)
  {
    var from, until := DayStart(d.day), DayEnd(d.day);
    forall s | s in BeatsIn(part, d.key, from, until) ensures lo <= part[s].ms <= hi {
      assert s in BeatsIn(all, d.key, from, until);
    }
  }

  lemma RowsAreNonNegative(cfg: Settings, st: Store, full: Store)
    requires Agree(cfg, st, full)
    ensures NonNegative(st.daily)
  {
    forall d | d in st.daily
      ensures st.daily[d].ok >= 0 && st.daily[d].fail >= 0 && st.daily[d].maintenance >= 0 && st.daily[d].expected >= 0
    {
      RowHoldsGone(cfg, st, full, d);
    }
  }

  lemma PruneKeepsMeans(cfg: Settings, st: Store, full: Store, means: map<DayKey, nat>, d: DayKey, lo: nat, hi: nat)
    requires Agree(cfg, st, full) && MeanWithin(st, full, means, d, lo, hi)
    ensures MeanWithin(Prune(st, cfg), full, MeansAfter(cfg, st, means, PruneOld), d, lo, hi)
  {
    var batch, after := OldBeats(st, cfg), Gone(Prune(st, cfg), full);
    GoneAfterPrune(cfg, st, full);
    RowsAreNonNegative(cfg, st, full);
    if DayMsBetween(after, d, lo, hi) {
      FewerBeats(Gone(st, full), after, d, lo, hi);
      FewerBeats(batch, after, d, lo, hi);
      MeanStaysBetween(means, st.daily, batch, st.windows, st.epochs, st.now, cfg.interval, d, lo, hi);
    }
  }

  /** Only the pruner writes rows and deletes beats. */
  lemma OtherSteps(cfg: Settings, st: Store, step: Step)
    requires !step.PruneOld?
    ensures Apply(cfg, st, step).daily == st.daily
    ensures !step.Check? ==> Apply(cfg, st, step).beats == st.beats
  {
  }

  lemma OtherStepsKeepGone(cfg: Settings, st: Store, full: Store, step: Step)
    requires Agree(cfg, st, full) && !step.PruneOld?
    ensures Gone(Apply(cfg, st, step), Apply(cfg, full, step)) == Gone(st, full)
  {
    if step.Check? {
      GoneAfterRecord(cfg, st, full, step.key, step.outcome);
    } else {
      OtherSteps(cfg, st, step);
      OtherSteps(cfg, full, step);
    }
  }

  lemma StepKeepsMeans(cfg: Settings, st: Store, full: Store, means: map<DayKey, nat>,
                       step: Step, d: DayKey, lo: nat, hi: nat)
    requires Agree(cfg, st, full) && MeanWithin(st, full, means, d, lo, hi)
    ensures MeanWithin(Apply(cfg, st, step), Mirror(cfg, full, step), MeansAfter(cfg, st, means, step), d, lo, hi)
  {
    if step.PruneOld? {
      PruneKeepsMeans(cfg, st, full, means, d, lo, hi);
      assert Apply(cfg, st, step) == Prune(st, cfg);
    } else {
      OtherSteps(cfg, st, step);
      OtherStepsKeepGone(cfg, st, full, step);
    }
  }

  lemma {:induction false} RunKeepsMeans(cfg: Settings, st: Store, full: Store, means: map<DayKey, nat>,
                                         steps: seq<Step>, d: DayKey, lo: nat, hi: nat)
    requires Agree(cfg, st, full) && ForwardRun(cfg, st, steps) && MeanWithin(st, full, means, d, lo, hi)
    ensures MeanWithin(Run(cfg, st, steps), Run(cfg, full, WithoutPruning(steps)),
                       MeansOf(cfg, st, means, steps), d, lo, hi)
    decreases |steps|
  {
    if steps != [] {
      var step := steps[0];
      StepKeeps(cfg, st, full, step);
      StepKeepsMeans(cfg, st, full, means, step, d, lo, hi);
      RunKeepsMeans(cfg, Apply(cfg, st, step), Mirror(cfg, full, step),
                    MeansAfter(cfg, st, means, step), steps[1..], d, lo, hi);
      if !step.PruneOld? {
        assert WithoutPruning(steps)[1..] == WithoutPruning(steps[1..]);
      }
    }
  }

  /** MAIN: in every run, in however many batches a date was folded, the mean of a row that holds a scored check lies
      between any bounds of the response times of the date's deleted beats, and any other mean is 0. */
  lemma MeansInEveryRun(cfg: Settings, start: Instant, steps: seq<Step>, d: DayKey, lo: nat, hi: nat)
    requires ForwardRun(cfg, Fresh(start), steps)
    requires DayMsBetween(Gone(Run(cfg, Fresh(start), steps), Run(cfg, Fresh(start), WithoutPruning(steps))), d, lo, hi)
    ensures var row := PriorRow(Run(cfg, Fresh(start), steps).daily, d);
            var mean := AverageOf(MeansOf(cfg, Fresh(start), map[], steps), d);
            if row.ok + row.fail > 0 then lo <= mean <= hi else mean == 0
  {
    FreshAgrees(cfg, start);
    RunKeepsMeans(cfg, Fresh(start), Fresh(start), map[], steps, d, lo, hi);
  }

  // ---- how far rounding carries a mean ----

  ghost function StepFolds(cfg: Settings, st: Store, step: Step, d: DayKey): nat {
    if step.PruneOld? && d in DaysTouched(OldBeats(st, cfg)) then 1 else 0
  }

  /** How many folds a run made for a date. */
  ghost function Folds(cfg: Settings, st: Store, steps: seq<Step>, d: DayKey): nat
    decreases |steps|
  {
    if steps == [] then 0
    else StepFolds(cfg, st, steps[0], d) + Folds(cfg, Apply(cfg, st, steps[0]), steps[1..], d)
  }

  /** A mean, so many times. */
  function Share(sum: nat, total: nat, times: nat): real
    requires total > 0
  {
    sum as real / total as real * times as real
  }

  /** The mean of one batch's response times, excluded beats included, once for each of its scored checks. */
  ghost function ShareMs(batch: map<Slot, Beat>, windows: seq<Window>, d: DayKey): real {
    var mine := BeatsIn(batch, d.key, DayStart(d.day), DayEnd(d.day));
    if mine == {} then 0.0
    else Share(SumMs(batch, mine), |mine|, |Scored(batch, windows, d.key, DayStart(d.day), DayEnd(d.day))|)
  }

  ghost function StepMs(cfg: Settings, st: Store, step: Step, d: DayKey): real {
    if step.PruneOld? then ShareMs(OldBeats(st, cfg), st.windows, d) else 0.0
  }

  /** The sum of those of all the batches a run folded. */
  ghost function WeighedMs(cfg: Settings, st: Store, steps: seq<Step>, d: DayKey): real
    decreases |steps|
  {
    if steps == [] then 0.0
    else StepMs(cfg, st, steps[0], d) + WeighedMs(cfg, Apply(cfg, st, steps[0]), steps[1..], d)
  }

  /** A mean that stands for `n` checks is at most half a unit per fold off the exact one. */
  predicate Drifts(mean: nat, n: int, exact: real, folds: nat) {
    n >= 0 && -((folds * n) as real) <= 2.0 * ((mean * n) as real - exact) <= (folds * n) as real
  }

  /** The same with the products as repeated sums, for the induction over runs. */
  predicate Tracks(mean: nat, n: int, exact: real, folds: nat) {
    && n >= 0
    && -(Repeated(folds, n) as real) <= 2.0 * (Repeated(mean, n) as real - exact) <= Repeated(folds, n) as real
  }

  ghost predicate TracksAt(st: Store, means: map<DayKey, nat>, d: DayKey, exact: real, folds: nat) {
    Tracks(AverageOf(means, d), RowChecks(st.daily, d), exact, folds)
  }

  function Repeated(times: nat, n: int): int { if times == 0 then 0 else n + Repeated(times - 1, n) }

  lemma {:induction false} RepeatedIsProduct(times: nat, n: int)
    ensures Repeated(times, n) == times * n
  {
    if times > 0 {
      RepeatedIsProduct(times - 1, n);
      NextMultiple(times - 1, n);
    }
  }

  lemma TracksIsDrifts(mean: nat, n: int, exact: real, folds: nat)
    ensures Tracks(mean, n, exact, folds) <==> Drifts(mean, n, exact, folds)
  {
    RepeatedIsProduct(folds, n);
    RepeatedIsProduct(mean, n);
  }

  function RowChecks(daily: map<DayKey, Daily>, d: DayKey): int { PriorRow(daily, d).ok + PriorRow(daily, d).fail }

  /** One fold, in whole numbers. */
  lemma FoldIsNearest(average: nat, prior: nat, sum: nat, total: nat, scored: nat)
    requires total > 0 && prior + scored > 0
    ensures (prior + scored) * total > 0
    ensures Nearest(FoldAverage(average, prior, sum, total, scored), average * prior * total + sum * scored,
                    (prior + scored) * total)
  {
    Positive(prior + scored, total);
    RoundingIsNearest(average * prior * total + sum * scored, (prior + scored) * total);
  }

  /** Divided by the batch's size. */
  lemma NearestInBatch(mean: nat, average: nat, prior: nat, sum: nat, total: nat, scored: nat)
    requires total > 0 && Nearest(mean, average * prior * total + sum * scored, (prior + scored) * total)
    ensures var share := sum as real / total as real * scored as real;
            -((prior + scored) as real)
            <= 2.0 * ((mean * (prior + scored)) as real - (average * prior) as real - share)
            <= (prior + scored) as real
  {
    var n, share := prior + scored, sum as real / total as real * scored as real;
    ShareTimes(sum, total, scored);
    NearestGap(mean, n, total, average * prior * total + sum * scored);
    GapDivided(mean * n, average * prior, sum * scored, n, total, share);
  }

  lemma NearestGap(mean: nat, n: nat, total: nat, exact: int)
    requires Nearest(mean, exact, n * total)
    ensures -(n * total) <= 2 * ((mean * n) * total) - 2 * exact <= n * total
  {
    TimesTimes(mean, n, total);
  }

  lemma GapDivided(a: int, b: int, c: int, n: nat, total: nat, share: real)
    requires total > 0 && share * total as real == c as real
    requires -(n * total) <= 2 * (a * total) - 2 * (b * total + c) <= n * total
    ensures -(n as real) <= 2.0 * (a as real - b as real - share) <= n as real
  {
    OffTimes(a, b, c, total, share);
    DivideOut(2.0 * (a as real - b as real - share), n, total, 2 * (a * total) - 2 * (b * total + c));
  }

  lemma ShareTimes(sum: nat, total: nat, scored: nat)
    requires total > 0
    ensures sum as real / total as real * scored as real * total as real == (sum * scored) as real
  {
  }

  lemma OffTimes(a: int, b: int, c: int, total: nat, share: real)
    requires share * total as real == c as real
    ensures 2.0 * (a as real - b as real - share) * total as real == (2 * (a * total) - 2 * (b * total + c)) as real
  {
    assert a as real * total as real == (a * total) as real;
    assert b as real * total as real == (b * total) as real;
  }

  lemma DivideOut(off: real, n: nat, total: nat, whole: int)
    requires total > 0 && off * total as real == whole as real && -(n * total) <= whole <= n * total
    ensures -(n as real) <= off <= n as real
  {
    assert (n * total) as real == n as real * total as real;
  }

  lemma DriftsOn(mean: nat, average: nat, prior: nat, scored: nat, exact: real, share: real, folds: nat)
    requires Drifts(average, prior, exact, folds)
    requires -((prior + scored) as real)
             <= 2.0 * ((mean * (prior + scored)) as real - (average * prior) as real - share)
             <= (prior + scored) as real
    ensures Drifts(mean, prior + scored, exact + share, folds + 1)
  {
    MoreMultiples(prior, prior + scored, folds);
    SumTimes(folds, 1, prior + scored);
    assert prior * folds == folds * prior && (prior + scored) * folds == folds * (prior + scored);
  }

  /** One more batch of a date. */
  lemma FoldTracks(means: map<DayKey, nat>, daily: map<DayKey, Daily>, batch: map<Slot, Beat>, windows: seq<Window>,
                   d: DayKey, exact: real, folds: nat, mean: nat, checks: int, share: real)
    requires NonNegative(daily) && d in DaysTouched(batch)
    requires Tracks(AverageOf(means, d), RowChecks(daily, d), exact, folds)
    requires mean == MergedAverage(AverageOf(means, d), daily, batch, windows, d)
    requires checks == RowChecks(daily, d) + |Scored(batch, windows, d.key, DayStart(d.day), DayEnd(d.day))|
    requires share == ShareMs(batch, windows, d)
    ensures Tracks(mean, checks, exact + share, folds + 1)
  {
    var mine := BeatsIn(batch, d.key, DayStart(d.day), DayEnd(d.day));
    var scored := |Scored(batch, windows, d.key, DayStart(d.day), DayEnd(d.day))|;
    TouchedHasBeats(batch, d);
    ShareOf(batch, windows, d, mine, scored);
    MergeOf(AverageOf(means, d), daily, batch, windows, d, mine, scored);
    ValueTracks(AverageOf(means, d), RowChecks(daily, d), SumMs(batch, mine), |mine|, scored, exact, share, folds);
  }

  lemma TouchedHasBeats(batch: map<Slot, Beat>, d: DayKey)
    requires d in DaysTouched(batch)
    ensures BeatsIn(batch, d.key, DayStart(d.day), DayEnd(d.day)) != {}
  {
    var s :| s in batch && d == DayKey(s.key, DayOf(s.at));
    DayOfBounds(s.at, d.day);
    assert s in BeatsIn(batch, d.key, DayStart(d.day), DayEnd(d.day));
  }

  lemma ShareOf(batch: map<Slot, Beat>, windows: seq<Window>, d: DayKey, mine: set<Slot>, scored: nat)
    requires mine == BeatsIn(batch, d.key, DayStart(d.day), DayEnd(d.day)) && mine != {}
    requires scored == |Scored(batch, windows, d.key, DayStart(d.day), DayEnd(d.day))|
    ensures ShareMs(batch, windows, d) == Share(SumMs(batch, mine), |mine|, scored)
  {
  }

  lemma MergeOf(average: nat, daily: map<DayKey, Daily>, batch: map<Slot, Beat>, windows: seq<Window>, d: DayKey,
                mine: set<Slot>, scored: nat)
    requires mine == BeatsIn(batch, d.key, DayStart(d.day), DayEnd(d.day)) && RowChecks(daily, d) >= 0
    requires scored == |Scored(batch, windows, d.key, DayStart(d.day), DayEnd(d.day))|
    ensures MergedAverage(average, daily, batch, windows, d)
         == FoldAverage(average, RowChecks(daily, d), SumMs(batch, mine), |mine|, scored)
  {
  }

  lemma ValueTracks(average: nat, prior: nat, sum: nat, total: nat, scored: nat, exact: real, share: real, folds: nat)
    requires total > 0 && Tracks(average, prior, exact, folds)
    requires share == Share(sum, total, scored)
    ensures Tracks(FoldAverage(average, prior, sum, total, scored), prior + scored, exact + share, folds + 1)
  {
    var mean := FoldAverage(average, prior, sum, total, scored);
    TracksIsDrifts(average, prior, exact, folds);
    TracksIsDrifts(mean, prior + scored, exact + share, folds + 1);
    if prior + scored > 0 {
      FoldIsNearest(average, prior, sum, total, scored);
      NearestInBatch(mean, average, prior, sum, total, scored);
      DriftsOn(mean, average, prior, scored, exact, share, folds);
    }
  }

  lemma FoldedChecks(st: Store, cfg: Settings, d: DayKey)
    requires NonNegative(st.daily) && d in DaysTouched(OldBeats(st, cfg))
    ensures RowChecks(Prune(st, cfg).daily, d)
         == RowChecks(st.daily, d)
            + |Scored(OldBeats(st, cfg), st.windows, d.key, DayStart(d.day), DayEnd(d.day))|
  {
    ScoredSplits(OldBeats(st, cfg), st.windows, d.key, DayStart(d.day), DayEnd(d.day));
  }

  lemma SameTrack(mean: nat, n: int, exact: real, folds: nat, mean': nat, n': int, exact': real, folds': nat)
    requires Tracks(mean, n, exact, folds) && mean' == mean && n' == n && exact' == exact && folds' == folds
    ensures Tracks(mean', n', exact', folds')
  {
  }

  lemma ApplyPrune(cfg: Settings, st: Store, step: Step)
    requires step.PruneOld?
    ensures Apply(cfg, st, step) == Prune(st, cfg) && step == PruneOld
  {
  }

  lemma PruneTracks(cfg: Settings, st: Store, means: map<DayKey, nat>, step: Step, d: DayKey,
                    exact: real, folds: nat)
    requires step.PruneOld? && NonNegative(st.daily)
    requires Tracks(AverageOf(means, d), RowChecks(st.daily, d), exact, folds)
    ensures Tracks(AverageOf(MeansAfter(cfg, st, means, step), d), RowChecks(Apply(cfg, st, step).daily, d),
                   exact + StepMs(cfg, st, step, d), folds + StepFolds(cfg, st, step, d))
  {
    ApplyPrune(cfg, st, step);
    if d in DaysTouched(OldBeats(st, cfg)) {
      PruneTouches(cfg, st, means, step, d, exact, folds);
    } else {
      UntouchedHoldsNothing(OldBeats(st, cfg), st.windows, d);
      PruneLeaves(cfg, st, means, d);
      NoShare(OldBeats(st, cfg), st.windows, d);
      SameTrack(AverageOf(means, d), RowChecks(st.daily, d), exact, folds,
                AverageOf(MeansAfter(cfg, st, means, step), d), RowChecks(Apply(cfg, st, step).daily, d),
                exact + StepMs(cfg, st, step, d), folds + StepFolds(cfg, st, step, d));
    }
  }

  lemma PruneTouches(cfg: Settings, st: Store, means: map<DayKey, nat>, step: Step, d: DayKey,
                    exact: real, folds: nat)
    requires step.PruneOld? && NonNegative(st.daily)
    requires Tracks(AverageOf(means, d), RowChecks(st.daily, d), exact, folds)
    requires d in DaysTouched(OldBeats(st, cfg))
    ensures Tracks(AverageOf(MeansAfter(cfg, st, means, step), d), RowChecks(Apply(cfg, st, step).daily, d),
                   exact + StepMs(cfg, st, step, d), folds + StepFolds(cfg, st, step, d))
  {
    ApplyPrune(cfg, st, step);
    FoldedChecks(st, cfg, d);
    PruneWrites(cfg, st, means, d);
    FoldTracks(means, st.daily, OldBeats(st, cfg), st.windows, d, exact, folds,
               AverageOf(MeansAfter(cfg, st, means, step), d), RowChecks(Apply(cfg, st, step).daily, d),
               StepMs(cfg, st, step, d));
  }

  lemma NoShare(batch: map<Slot, Beat>, windows: seq<Window>, d: DayKey)
    requires BeatsIn(batch, d.key, DayStart(d.day), DayEnd(d.day)) == {}
    ensures ShareMs(batch, windows, d) == 0.0
  {
  }

  lemma PruneWrites(cfg: Settings, st: Store, means: map<DayKey, nat>, d: DayKey)
    requires d in DaysTouched(OldBeats(st, cfg))
    ensures AverageOf(MeansAfter(cfg, st, means, PruneOld), d)
         == MergedAverage(AverageOf(means, d), st.daily, OldBeats(st, cfg), st.windows, d)
  {
  }

  lemma PruneLeaves(cfg: Settings, st: Store, means: map<DayKey, nat>, d: DayKey)
    requires d !in DaysTouched(OldBeats(st, cfg))
    ensures AverageOf(MeansAfter(cfg, st, means, PruneOld), d) == AverageOf(means, d)
    ensures PriorRow(Prune(st, cfg).daily, d) == PriorRow(st.daily, d)
  {
  }

  lemma OtherStepTracks(cfg: Settings, st: Store, means: map<DayKey, nat>, step: Step, d: DayKey,
                        exact: real, folds: nat)
    requires !step.PruneOld? && Tracks(AverageOf(means, d), RowChecks(st.daily, d), exact, folds)
    ensures Tracks(AverageOf(MeansAfter(cfg, st, means, step), d), RowChecks(Apply(cfg, st, step).daily, d),
                   exact + StepMs(cfg, st, step, d), folds + StepFolds(cfg, st, step, d))
  {
    OtherSteps(cfg, st, step);
    SameTrack(AverageOf(means, d), RowChecks(st.daily, d), exact, folds,
              AverageOf(MeansAfter(cfg, st, means, step), d), RowChecks(Apply(cfg, st, step).daily, d),
              exact + StepMs(cfg, st, step, d), folds + StepFolds(cfg, st, step, d));
  }

  lemma StepTracks(cfg: Settings, st: Store, full: Store, means: map<DayKey, nat>, step: Step, d: DayKey,
                   exact: real, folds: nat)
    requires Agree(cfg, st, full) && TracksAt(st, means, d, exact, folds)
    ensures TracksAt(Apply(cfg, st, step), MeansAfter(cfg, st, means, step), d,
                     exact + StepMs(cfg, st, step, d), folds + StepFolds(cfg, st, step, d))
  {
    if step.PruneOld? {
      RowsAreNonNegative(cfg, st, full);
      PruneTracks(cfg, st, means, step, d, exact, folds);
    } else {
      OtherStepTracks(cfg, st, means, step, d, exact, folds);
    }
  }

  lemma FirstStep(cfg: Settings, st: Store, means: map<DayKey, nat>, steps: seq<Step>, d: DayKey, st': Store,
                  means': map<DayKey, nat>, rest: seq<Step>)
    requires steps != [] && st' == Apply(cfg, st, steps[0]) && rest == steps[1..]
    requires means' == MeansAfter(cfg, st, means, steps[0])
    ensures MeansOf(cfg, st, means, steps) == MeansOf(cfg, st', means', rest)
    ensures Run(cfg, st, steps) == Run(cfg, st', rest)
    ensures WeighedMs(cfg, st, steps, d) == StepMs(cfg, st, steps[0], d) + WeighedMs(cfg, st', rest, d)
    ensures Folds(cfg, st, steps, d) == StepFolds(cfg, st, steps[0], d) + Folds(cfg, st', rest, d)
  {
  }

  lemma NoStep(cfg: Settings, st: Store, means: map<DayKey, nat>, d: DayKey)
    ensures MeansOf(cfg, st, means, []) == means && Run(cfg, st, []) == st
    ensures WeighedMs(cfg, st, [], d) == 0.0 && Folds(cfg, st, [], d) == 0
  {
  }

  /** What is left of the run adds up to this much. */
  ghost predicate Adds(cfg: Settings, st: Store, steps: seq<Step>, d: DayKey, exact: real, folds: nat, exact': real,
                       folds': nat) {
    exact' == exact + WeighedMs(cfg, st, steps, d) && folds' == folds + Folds(cfg, st, steps, d)
  }

  lemma AddsOn(cfg: Settings, st: Store, steps: seq<Step>, d: DayKey, st': Store, rest: seq<Step>, exact: real,
               folds: nat, exact': real, folds': nat)
    requires steps != [] && st' == Apply(cfg, st, steps[0]) && rest == steps[1..]
    requires Adds(cfg, st, steps, d, exact, folds, exact', folds')
    ensures Adds(cfg, st', rest, d, exact + StepMs(cfg, st, steps[0], d), folds + StepFolds(cfg, st, steps[0], d),
                 exact', folds')
  {
    FirstStep(cfg, st, map[], steps, d, st', MeansAfter(cfg, st, map[], steps[0]), rest);
  }

  lemma {:induction false} RunTracks(cfg: Settings, st: Store, full: Store, means: map<DayKey, nat>, steps: seq<Step>,
                                     d: DayKey, exact: real, folds: nat, exact': real, folds': nat)
    requires Agree(cfg, st, full) && ForwardRun(cfg, st, steps) && TracksAt(st, means, d, exact, folds)
    requires Adds(cfg, st, steps, d, exact, folds, exact', folds')
    ensures TracksAt(Run(cfg, st, steps), MeansOf(cfg, st, means, steps), d, exact', folds')
    decreases |steps|
  {
    if steps == [] {
      NoStep(cfg, st, means, d);
      SameTrack(AverageOf(means, d), RowChecks(st.daily, d), exact, folds,
                AverageOf(means, d), RowChecks(st.daily, d), exact', folds');
    } else {
      var step, rest := steps[0], steps[1..];
      var st', means' := Apply(cfg, st, step), MeansAfter(cfg, st, means, step);
      StepKeeps(cfg, st, full, step);
      var soFar, times := NextTracks(cfg, st, full, means, step, d, exact, folds, st', means');
      AddsOn(cfg, st, steps, d, st', rest, exact, folds, exact', folds');
      RunTracks(cfg, st', Mirror(cfg, full, step), means', rest, d, soFar, times, exact', folds');
      FirstStep(cfg, st, means, steps, d, st', means', rest);
    }
  }

  lemma NextTracks(cfg: Settings, st: Store, full: Store, means: map<DayKey, nat>, step: Step, d: DayKey, exact: real,
                   folds: nat, st': Store, means': map<DayKey, nat>) returns (soFar: real, times: nat)
    requires Agree(cfg, st, full) && TracksAt(st, means, d, exact, folds)
    requires st' == Apply(cfg, st, step) && means' == MeansAfter(cfg, st, means, step)
    ensures soFar == exact + StepMs(cfg, st, step, d) && times == folds + StepFolds(cfg, st, step, d)
    ensures TracksAt(st', means', d, soFar, times)
  {
    StepTracks(cfg, st, full, means, step, d, exact, folds);
    soFar, times := exact + StepMs(cfg, st, step, d), folds + StepFolds(cfg, st, step, d);
  }

  lemma FromNothing(cfg: Settings, st: Store, steps: seq<Step>, d: DayKey, exact: real, folds: nat)
    requires exact == WeighedMs(cfg, st, steps, d) && folds == Folds(cfg, st, steps, d)
    ensures Adds(cfg, st, steps, d, 0.0, 0, exact, folds)
  {
  }

  lemma FreshTracks(start: Instant, d: DayKey)
    ensures TracksAt(Fresh(start), map[], d, 0.0, 0)
  {
  }

  /** MAIN: in every run, the mean of a row times the checks it stands for is the batches' mean response times weighed
      by their scored checks, up to half a millisecond a check for each fold of the date. */
  lemma MeansDrift(cfg: Settings, start: Instant, steps: seq<Step>, d: DayKey)
    requires ForwardRun(cfg, Fresh(start), steps)
    ensures Drifts(AverageOf(MeansOf(cfg, Fresh(start), map[], steps), d),
                   RowChecks(Run(cfg, Fresh(start), steps).daily, d),
                   WeighedMs(cfg, Fresh(start), steps, d), Folds(cfg, Fresh(start), steps, d))
  {
    FreshAgrees(cfg, start);
    FreshTracks(start, d);
    FromNothing(cfg, Fresh(start), steps, d, WeighedMs(cfg, Fresh(start), steps, d),
                Folds(cfg, Fresh(start), steps, d));
    RunTracks(cfg, Fresh(start), Fresh(start), map[], steps, d, 0.0, 0, WeighedMs(cfg, Fresh(start), steps, d),
              Folds(cfg, Fresh(start), steps, d));
    TracksIsDrifts(AverageOf(MeansOf(cfg, Fresh(start), map[], steps), d),
                   RowChecks(Run(cfg, Fresh(start), steps).daily, d),
                   WeighedMs(cfg, Fresh(start), steps, d), Folds(cfg, Fresh(start), steps, d));
  }

  // ---- dates without excluded beats ----

  lemma {:induction false} SumMsSame(a: map<Slot, Beat>, b: map<Slot, Beat>, slots: set<Slot>)
    requires slots <= a.Keys && slots <= b.Keys && forall s :: s in slots ==> a[s] == b[s]
    ensures SumMs(a, slots) == SumMs(b, slots)
  {
    if slots != {} {
      var s :| s in slots;
      SumMsTakesOut(a, slots, s);
      SumMsTakesOut(b, slots, s);
      SumMsSame(a, b, slots - {s});
    }
  }

  lemma {:induction false} SumMsUnion(beats: map<Slot, Beat>, a: set<Slot>, b: set<Slot>)
    requires a <= beats.Keys && b <= beats.Keys && a !! b
    ensures SumMs(beats, a + b) == SumMs(beats, a) + SumMs(beats, b)
  {
    if a == {} {
      assert a + b == b;
    } else {
      var s :| s in a;
      SumMsTakesOut(beats, a, s);
      SumMsTakesOut(beats, a + b, s);
      SumMsUnion(beats, a - {s}, b);
      assert a + b - {s} == (a - {s}) + b;
    }
  }

  ghost function DayMs(beats: map<Slot, Beat>, d: DayKey): nat {
    SumMs(beats, BeatsIn(beats, d.key, DayStart(d.day), DayEnd(d.day)))
  }

  lemma DayMsAdds(a: map<Slot, Beat>, b: map<Slot, Beat>, d: DayKey)
    requires a.Keys !! b.Keys
    ensures DayMs(a + b, d) == DayMs(a, d) + DayMs(b, d)
  {
    var lo, hi := DayStart(d.day), DayEnd(d.day);
    var x, y := BeatsIn(a, d.key, lo, hi), BeatsIn(b, d.key, lo, hi);
    assert BeatsIn(a + b, d.key, lo, hi) == x + y && x !! y;
    SumMsUnion(a + b, x, y);
    SumMsSame(a, a + b, x);
    SumMsSame(b, a + b, y);
  }

  /** Without excluded beats a batch's share is the sum of its response times. */
  lemma WholeShare(batch: map<Slot, Beat>, windows: seq<Window>, d: DayKey)
    requires Masked(batch, windows, d.key, DayStart(d.day), DayEnd(d.day)) == {}
    ensures ShareMs(batch, windows, d) == DayMs(batch, d) as real
  {
    var lo, hi := DayStart(d.day), DayEnd(d.day);
    forall s | s in BeatsIn(batch, d.key, lo, hi) ensures s in Scored(batch, windows, d.key, lo, hi) {
      assert s !in Masked(batch, windows, d.key, lo, hi);
    }
    assert Scored(batch, windows, d.key, lo, hi) == BeatsIn(batch, d.key, lo, hi);
  }

  ghost predicate ExactIfUnmasked(st: Store, full: Store, d: DayKey, exact: real) {
    PriorRow(st.daily, d).maintenance == 0 ==> exact == DayMs(Gone(st, full), d) as real
  }

  lemma PruneStaysExact(cfg: Settings, st: Store, full: Store, d: DayKey, exact: real)
    requires SameExceptBeats(st, full) && NonNegative(st.daily) && ExactIfUnmasked(st, full, d, exact)
    ensures ExactIfUnmasked(Prune(st, cfg), full, d, exact + ShareMs(OldBeats(st, cfg), st.windows, d))
  {
    GoneAfterPrune(cfg, st, full);
    DayMsAdds(Gone(st, full), OldBeats(st, cfg), d);
    if PriorRow(Prune(st, cfg).daily, d).maintenance == 0 {
      NothingMasked(cfg, st, d);
      WholeShare(OldBeats(st, cfg), st.windows, d);
    }
  }

  lemma NothingMasked(cfg: Settings, st: Store, d: DayKey)
    requires NonNegative(st.daily) && PriorRow(Prune(st, cfg).daily, d).maintenance == 0
    ensures PriorRow(st.daily, d).maintenance == 0
    ensures Masked(OldBeats(st, cfg), st.windows, d.key, DayStart(d.day), DayEnd(d.day)) == {}
  {
    if d !in DaysTouched(OldBeats(st, cfg)) {
      UntouchedHoldsNothing(OldBeats(st, cfg), st.windows, d);
      PruneLeaves(cfg, st, map[], d);
    }
  }

  lemma StepStaysExact(cfg: Settings, st: Store, full: Store, step: Step, d: DayKey, exact: real)
    requires Agree(cfg, st, full) && ExactIfUnmasked(st, full, d, exact)
    ensures ExactIfUnmasked(Apply(cfg, st, step), Mirror(cfg, full, step), d, exact + StepMs(cfg, st, step, d))
  {
    if step.PruneOld? {
      RowsAreNonNegative(cfg, st, full);
      PruneStaysExact(cfg, st, full, d, exact);
      assert Apply(cfg, st, step) == Prune(st, cfg);
    } else {
      OtherSteps(cfg, st, step);
      OtherStepsKeepGone(cfg, st, full, step);
    }
  }

  lemma {:induction false} RunStaysExact(cfg: Settings, st: Store, full: Store, steps: seq<Step>, d: DayKey,
                                         exact: real)
    requires Agree(cfg, st, full) && ForwardRun(cfg, st, steps) && ExactIfUnmasked(st, full, d, exact)
    ensures ExactIfUnmasked(Run(cfg, st, steps), Run(cfg, full, WithoutPruning(steps)), d,
                            exact + WeighedMs(cfg, st, steps, d))
    decreases |steps|
  {
    if steps != [] {
      var step := steps[0];
      StepKeeps(cfg, st, full, step);
      StepStaysExact(cfg, st, full, step, d, exact);
      RunStaysExact(cfg, Apply(cfg, st, step), Mirror(cfg, full, step), steps[1..], d,
                    exact + StepMs(cfg, st, step, d));
      if !step.PruneOld? {
        assert WithoutPruning(steps)[1..] == WithoutPruning(steps[1..]);
      }
    }
  }

  lemma FreshIsExact(start: Instant, d: DayKey)
    ensures ExactIfUnmasked(Fresh(start), Fresh(start), d, 0.0)
  {
    assert BeatsIn(map[], d.key, DayStart(d.day), DayEnd(d.day)) == {};
    assert Gone(Fresh(start), Fresh(start)) == map[];
  }

  /** MAIN: in every run, for a date none of whose deleted beats was excluded, the mean is that of their response times,
      up to half a millisecond for each fold of the date. */
  lemma MeansOfUnexcludedDates(cfg: Settings, start: Instant, steps: seq<Step>, d: DayKey)
    requires ForwardRun(cfg, Fresh(start), steps)
    requires PriorRow(Run(cfg, Fresh(start), steps).daily, d).maintenance == 0
    ensures var st, full := Run(cfg, Fresh(start), steps), Run(cfg, Fresh(start), WithoutPruning(steps));
            Drifts(AverageOf(MeansOf(cfg, Fresh(start), map[], steps), d), RowChecks(st.daily, d),
                   DayMs(Gone(st, full), d) as real, Folds(cfg, Fresh(start), steps, d))
  {
    FreshAgrees(cfg, start);
    MeansDrift(cfg, start, steps, d);
    FreshIsExact(start, d);
    RunStaysExact(cfg, Fresh(start), Fresh(start), steps, d, 0.0);
  }
}
