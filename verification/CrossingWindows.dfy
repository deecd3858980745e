/** Windows that reach past the oldest raw beat: what blending in whole daily rows adds to the never-pruned
    score and what it leaves out. */
module CrossingWindows {
  import opened Common
  import opened MaintenanceWindows
  import opened Heartbeats
  import opened Uptime
  import opened HeartbeatRuns
  import opened HeartbeatTheorems
  import opened HeartbeatWindows
  import opened ExpectedChecks

  // ---- the numerator ----

  /** The passing beats that count for the window when nothing is ever pruned. */
  ghost function NeverPruned(full: Store, key: Key, windowStart: Instant): set<Slot> {
    ScoredOk(full.beats, full.windows, key, windowStart, full.now)
  }

  /** Deleted passing beats of the first daily row that lie before the window. */
  ghost function Extra(st: Store, full: Store, key: Key, windowStart: Instant, stop: Option<int>): set<Slot> {
    if stop.None? then {}
    else ScoredOk(Gone(st, full), st.windows, key, DayStart(DayOf(windowStart)), Min(windowStart, DayStart(stop.value)))
  }

  /** Deleted passing beats of the window on the date whose row is not read. */
  ghost function Missing(st: Store, full: Store, key: Key, windowStart: Instant,
                         rawStart: Instant, stop: Option<int>): set<Slot> {
    if stop.None? then {}
    else ScoredOk(Gone(st, full), st.windows, key, Max(windowStart, DayStart(stop.value)), rawStart)
  }

  ghost function Counted(st: Store, full: Store, key: Key, windowStart: Instant,
                         rawStart: Instant, stop: Option<int>): set<Slot> {
    FromRows(st, full, key, windowStart, stop) + FromRaw(st, key, rawStart)
  }

  /** A deleted beat of the monitor is older than its oldest raw beat. */
  lemma GoneBeforeRaw(cfg: Settings, st: Store, full: Store, key: Key, g: Slot)
    requires Agree(cfg, st, full) && g in Gone(st, full) && g.key == key
    ensures g.at < full.now
    ensures OldestRaw(st.beats, key).Some? ==> g.at < OldestRaw(st.beats, key).value
  {
    if OldestRaw(st.beats, key).Some? {
      var r := Slot(key, OldestRaw(st.beats, key).value);
      assert r in st.beats;
    }
  }

  lemma RawFromOldest(st: Store, key: Key, s: Slot)
    requires s in st.beats && s.key == key
    ensures OldestRaw(st.beats, key).Some? && OldestRaw(st.beats, key).value <= s.at
  {
    assert s in BeatsOf(st.beats, key);
  }

  /** A recorded passing beat outside every excluded window. */
  ghost predicate Passing(full: Store, key: Key, s: Slot) {
    s in full.beats && s.key == key && !Excluded(full.windows, key, s.at) && full.beats[s].ok
  }

  lemma Memberships(st: Store, full: Store, key: Key, windowStart: Instant,
                    rawStart: Instant, stop: Option<int>, s: Slot)
    requires SameExceptBeats(st, full)
    ensures s in NeverPruned(full, key, windowStart) <==> Passing(full, key, s) && windowStart <= s.at < full.now
    ensures s in FromRaw(st, key, rawStart) <==> Passing(full, key, s) && s in st.beats && rawStart <= s.at < st.now
    ensures s in FromRows(st, full, key, windowStart, stop) <==>
              Passing(full, key, s) && s !in st.beats && stop.Some? &&
                DayStart(DayOf(windowStart)) <= s.at < DayStart(stop.value)
    ensures s in Extra(st, full, key, windowStart, stop) <==>
              Passing(full, key, s) && s !in st.beats && stop.Some?
              && DayStart(DayOf(windowStart)) <= s.at < Min(windowStart, DayStart(stop.value))
    ensures s in Missing(st, full, key, windowStart, rawStart, stop) <==>
              Passing(full, key, s) && s !in st.beats && stop.Some? &&
                Max(windowStart, DayStart(stop.value)) <= s.at < rawStart
  {
  }

  /** Raw beats start at the split point, deleted ones before it. */
  lemma SplitInTime(cfg: Settings, st: Store, full: Store, key: Key, windowStart: Instant, s: Slot)
    requires Agree(cfg, st, full) && windowStart < st.now && s in full.beats && s.key == key
    ensures var (rawStart, stop) := SplitPoint(OldestRaw(st.beats, key), windowStart, st.now);
            && windowStart <= rawStart
            && (stop.Some? && s in st.beats ==> rawStart <= s.at)
            && (s !in st.beats ==>
              s.at < st.now && (stop.Some? ==> s.at < rawStart) && (stop.None? ==> s.at < windowStart))
            && (stop.None? ==> rawStart == windowStart)
  {
    if s in st.beats { RawFromOldest(st, key, s); } else { GoneBeforeRaw(cfg, st, full, key, s); }
  }

  /** Beat by beat: the window counts its never-pruned beats, less the missing, plus the extra. */
  lemma CountedBeat(cfg: Settings, st: Store, full: Store, key: Key,
                    windowStart: Instant, rawStart: Instant, stop: Option<int>, s: Slot)
    requires Agree(cfg, st, full) && windowStart < st.now
    requires (rawStart, stop) == SplitPoint(OldestRaw(st.beats, key), windowStart, st.now)
    ensures s in Counted(st, full, key, windowStart, rawStart, stop) <==>
              || (s in NeverPruned(full, key, windowStart) && s !in Missing(st, full, key, windowStart, rawStart, stop))
              || s in Extra(st, full, key, windowStart, stop)
    ensures s in Missing(st, full, key, windowStart, rawStart, stop) ==> s in NeverPruned(full, key, windowStart)
    ensures s in Extra(st, full, key, windowStart, stop) ==> s !in NeverPruned(full, key, windowStart)
  {
    Memberships(st, full, key, windowStart, rawStart, stop, s);
    if Passing(full, key, s) {
      SplitInTime(cfg, st, full, key, windowStart, s);
      StartOfDay(windowStart);
    }
  }

  lemma StartOfDay(t: Instant)
    ensures DayStart(DayOf(t)) <= t < DayEnd(DayOf(t))
  {
  }

  /** The numerator of a window against the never-pruned one. */
  lemma NumeratorBalance(cfg: Settings, st: Store, full: Store, key: Key, windowStart: Instant)
    requires Agree(cfg, st, full) && windowStart < st.now
    ensures var (rawStart, stop) := SplitPoint(OldestRaw(st.beats, key), windowStart, st.now);
            var counted, extra, missing := Counted(st, full, key, windowStart, rawStart, stop),
                  Extra(st, full, key, windowStart, stop), Missing(st, full, key, windowStart, rawStart, stop);
            && |counted| + |missing| == |NeverPruned(full, key, windowStart)| + |extra|
            && (counted == NeverPruned(full, key, windowStart) <==> extra == {} && missing == {})
  {
    var (rawStart, stop) := SplitPoint(OldestRaw(st.beats, key), windowStart, st.now);
    var all := NeverPruned(full, key, windowStart);
    var counted, extra, missing := Counted(st, full, key, windowStart, rawStart, stop),
      Extra(st, full, key, windowStart, stop), Missing(st, full, key, windowStart, rawStart, stop);
    forall s { CountedBeat(cfg, st, full, key, windowStart, rawStart, stop, s); }
    Exchange(counted, all, extra, missing);
  }

  lemma Exchange(counted: set<Slot>, all: set<Slot>, extra: set<Slot>, missing: set<Slot>)
    requires forall s :: s in counted <==> (s in all && s !in missing) || s in extra
    requires missing <= all && extra !! all
    ensures |counted| + |missing| == |all| + |extra|
    ensures counted == all <==> extra == {} && missing == {}
  {
    assert counted == (all - missing) + extra;
    assert all == (all - missing) + missing;
    if counted == all {
      assert extra == {} && missing == {};
    }
  }

  // ---- the two sides of the score ----

  /** The passing and expected checks that `_uptime_over_window` divides. */
  ghost function WindowTotals(st: Store, cfg: Settings, windowStart: Instant, key: Key): (t: (int, int)) {
    var (rawStart, stop) := SplitPoint(OldestRaw(st.beats, key), windowStart, st.now);
    var summary, raw := SummaryPart(st, key, windowStart, stop), RawPart(st, cfg, key, rawStart);
    (raw.ok + summary.ok, raw.expected + summary.expected)
  }

  /** The uptime is a function of the two. */
  lemma UptimeOfTotals(st: Store, cfg: Settings, windowStart: Instant, key: Key)
    requires windowStart < st.now
    ensures var (ok, expected) := WindowTotals(st, cfg, windowStart, key);
            WindowUptime(st, cfg, windowStart, key).uptime ==
              if ok >= 0 && expected >= 1 then Some(Percent(ok, expected, 100)) else None
  {
  }

  lemma {:induction false} NoRows(key: Key, from: int, until: int)
    ensures SummaryTotals(map[], key, from, until) == Totals(0, 0, 0)
    decreases until - from
  {
    if from < until { NoRows(key, from, until - 1); }
  }

  lemma NoSummary(full: Store, key: Key, windowStart: Instant, stop: Option<int>)
    requires full.daily == map[]
    ensures SummaryPart(full, key, windowStart, stop) == Totals(0, 0, 0)
  {
    if stop.Some? { NoRows(key, DayOf(windowStart), stop.value); }
  }

  lemma FullNumerator(cfg: Settings, full: Store, key: Key, windowStart: Instant)
    requires full.daily == map[] && windowStart < full.now
    ensures WindowTotals(full, cfg, windowStart, key).0 == |NeverPruned(full, key, windowStart)|
  {
    var (rawStart, stop) := SplitPoint(OldestRaw(full.beats, key), windowStart, full.now);
    NoSummary(full, key, windowStart, stop);
    RawCounts(cfg, full, key, rawStart);
    forall s ensures s in FromRaw(full, key, rawStart) <==> s in NeverPruned(full, key, windowStart) {
      if s in full.beats && s.key == key { RawFromOldest(full, key, s); }
    }
    assert FromRaw(full, key, rawStart) == NeverPruned(full, key, windowStart);
  }

  lemma TotalsBalance(cfg: Settings, st: Store, full: Store, key: Key, windowStart: Instant)
    requires Agree(cfg, st, full) && windowStart < st.now
    ensures var (rawStart, stop) := SplitPoint(OldestRaw(st.beats, key), windowStart, st.now);
            WindowTotals(st, cfg, windowStart, key).0 + |Missing(st, full, key, windowStart, rawStart, stop)|
            == WindowTotals(full, cfg, windowStart, key).0 + |Extra(st, full, key, windowStart, stop)|
  {
    WindowCounts(cfg, st, full, windowStart, key);
    NumeratorBalance(cfg, st, full, key, windowStart);
    FullNumerator(cfg, full, key, windowStart);
  }

  /** MAIN: in every run, for every window: its numerator is the never-pruned one, less the deleted passing
      beats of the window on the date of the oldest raw beat, plus those of its first date before it starts; and
      the beats it counts are the never-pruned ones iff there are neither. */
  lemma WindowNumeratorIff(cfg: Settings, start: Instant, steps: seq<Step>, windowStart: Instant, key: Key)
    requires ForwardRun(cfg, Fresh(start), steps) && windowStart < Run(cfg, Fresh(start), steps).now
    ensures var st, full := Run(cfg, Fresh(start), steps), Run(cfg, Fresh(start), WithoutPruning(steps));
            var (rawStart, stop) := SplitPoint(OldestRaw(st.beats, key), windowStart, st.now);
            var extra, missing := Extra(st, full, key, windowStart, stop),
              Missing(st, full, key, windowStart, rawStart, stop);
            && WindowTotals(st, cfg, windowStart, key).0 + |missing| ==
              WindowTotals(full, cfg, windowStart, key).0 + |extra|
            && (Counted(st, full, key, windowStart, rawStart, stop) == NeverPruned(full, key, windowStart) <==>
                  extra == {} && missing == {})
  {
    var st, full := Run(cfg, Fresh(start), steps), Run(cfg, Fresh(start), WithoutPruning(steps));
    FreshAgrees(cfg, start);
    RunKeeps(cfg, Fresh(start), Fresh(start), steps);
    TotalsBalance(cfg, st, full, key, windowStart);
    NumeratorBalance(cfg, st, full, key, windowStart);
  }

  // ---- windows that start before the oldest raw beat ----

  ghost predicate Crosses(st: Store, key: Key, windowStart: Instant, o: Instant) {
    windowStart < st.now && OldestRaw(st.beats, key) == Some(o) && windowStart < o
  }

  /** Where the monitored part of a date starts. */
  function From(st: Store, key: Key, day: int): Instant { SpanStart(EpochOf(st.epochs, key), day) }

  /** Where the monitored part of the window starts. */
  function Begin(st: Store, key: Key, windowStart: Instant): Instant {
    if key in st.epochs then Max(windowStart, st.epochs[key]) else windowStart
  }

  /** The window leaves out no monitored part of its first date: it starts at a midnight, at the epoch or before it. */
  predicate Dated(st: Store, key: Key, windowStart: Instant) { windowStart <= From(st, key, DayOf(windowStart)) }

  /** The deleted passing beats of the date of `o`: what the row being folded holds. */
  ghost function Folding(st: Store, full: Store, key: Key, o: Instant): set<Slot> {
    ScoredOk(Gone(st, full), st.windows, key, DayStart(DayOf(o)), DayEnd(DayOf(o)))
  }

  /** The beat is recorded, so no earlier than the epoch. */
  lemma NoEarlierThanEpoch(cfg: Settings, st: Store, full: Store, key: Key, s: Slot)
    requires Agree(cfg, st, full) && s in full.beats && s.key == key
    ensures key in st.epochs && st.epochs[key] <= s.at && s.at % 60_000_000 == 0
  {
  }

  lemma SameSpan(beats: map<Slot, Beat>, windows: seq<Window>, key: Key,
                 lo: Instant, hi: Instant, lo': Instant, hi': Instant)
    requires forall s :: s in beats && s.key == key ==> (lo <= s.at < hi <==> lo' <= s.at < hi')
    ensures ScoredOk(beats, windows, key, lo, hi) == ScoredOk(beats, windows, key, lo', hi')
  {
    assert Scored(beats, windows, key, lo, hi) == Scored(beats, windows, key, lo', hi');
  }

  /** Deleted beats of the monitor lie between its epoch and its oldest raw beat. */
  lemma GoneInTime(cfg: Settings, st: Store, full: Store, key: Key, o: Instant, s: Slot)
    requires Agree(cfg, st, full) && OldestRaw(st.beats, key) == Some(o) && s in Gone(st, full) && s.key == key
    ensures key in st.epochs && st.epochs[key] <= s.at < o && s.at % 60_000_000 == 0
  {
    GoneBeforeRaw(cfg, st, full, key, s);
    NoEarlierThanEpoch(cfg, st, full, key, s);
  }

  lemma MissingInTime(st: Store, key: Key, windowStart: Instant, o: Instant, at: Instant)
    requires key in st.epochs && st.epochs[key] <= at < o && windowStart < o
    requires Dated(st, key, windowStart) || DayOf(windowStart) < DayOf(o)
    ensures Max(windowStart, DayStart(DayOf(o))) <= at < o <==> DayStart(DayOf(o)) <= at < DayEnd(DayOf(o))
  {
    DaysOrdered(windowStart, o);
    StartOfDay(o);
    StartOfDay(windowStart);
  }

  /** When the first date is over before that of `o`, what is missing is what its row holds. */
  lemma MissingIsFolding(cfg: Settings, st: Store, full: Store, key: Key, windowStart: Instant, o: Instant)
    requires Agree(cfg, st, full) && Crosses(st, key, windowStart, o)
    requires Dated(st, key, windowStart) || DayOf(windowStart) < DayOf(o)
    ensures Missing(st, full, key, windowStart, o, Some(DayOf(o))) == Folding(st, full, key, o)
  {
    var lo, hi := Max(windowStart, DayStart(DayOf(o))), o;
    forall s | s in Gone(st, full) && s.key == key
      ensures lo <= s.at < hi <==> DayStart(DayOf(o)) <= s.at < DayEnd(DayOf(o))
    {
      GoneInTime(cfg, st, full, key, o, s);
      MissingInTime(st, key, windowStart, o, s.at);
    }
    SameSpan(Gone(st, full), st.windows, key, lo, hi, DayStart(DayOf(o)), DayEnd(DayOf(o)));
  }

  lemma DatedHasNoExtra(cfg: Settings, st: Store, full: Store, key: Key, windowStart: Instant, o: Instant)
    requires Agree(cfg, st, full) && Crosses(st, key, windowStart, o) && Dated(st, key, windowStart)
    ensures Extra(st, full, key, windowStart, Some(DayOf(o))) == {}
  {
    var lo, hi := DayStart(DayOf(windowStart)), Min(windowStart, DayStart(DayOf(o)));
    forall s | s in Gone(st, full) && s.key == key ensures !(lo <= s.at < hi) { GoneInTime(cfg, st, full, key, o, s); }
    SameSpan(Gone(st, full), st.windows, key, lo, hi, 0, 0);
  }

  lemma FoldingInRow(cfg: Settings, st: Store, full: Store, key: Key, o: Instant)
    requires Agree(cfg, st, full)
    ensures PriorRow(st.daily, DayKey(key, DayOf(o))).ok == |Folding(st, full, key, o)|
  {
    RowHoldsGone(cfg, st, full, DayKey(key, DayOf(o)));
  }

  // ---- the denominator ----

  /** Non-excluded time, in microseconds. */
  ghost function FreeTime(windows: seq<Window>, key: Key, lo: Instant, hi: Instant): int {
    hi - lo - ExcludedTime(windows, key, lo, hi)
  }

  lemma RawExpected(cfg: Settings, st: Store, key: Key, rawStart: Instant)
    requires rawStart <= st.now
    ensures RawPart(st, cfg, key, rawStart).expected == FreeTime(st.windows, key, rawStart, st.now) / cfg.interval
    ensures FreeTime(st.windows, key, rawStart, st.now) >= 0
  {
    ExcludedTimeBounded(st.windows, key, rawStart, st.now);
  }

  lemma FreeMarksSplit(windows: seq<Window>, key: Key, lo: Instant, mid: Instant, hi: Instant)
    requires lo <= mid <= hi
    ensures |FreeMarks(windows, key, lo, hi)| == |FreeMarks(windows, key, lo, mid)| + |FreeMarks(windows, key, mid, hi)|
  {
    var a, b := FreeMarks(windows, key, lo, mid), FreeMarks(windows, key, mid, hi);
    assert FreeMarks(windows, key, lo, hi) == a + b && a !! b;
  }

  lemma NoFreeMarks(windows: seq<Window>, key: Key, lo: Instant, hi: Instant)
    requires hi <= lo
    ensures FreeMarks(windows, key, lo, hi) == {}
  {
  }

  /** Recordable minutes of the dates in [from, until) that have no daily row. */
  ghost function Unrowed(st: Store, key: Key, from: int, until: int): nat
    decreases until - from
  {
    if until <= from then 0
    else Unrowed(st, key, from, until - 1)
         + if DayKey(key, until - 1) in st.daily then 0
           else |RecordableMinutes(st.windows, EpochOf(st.epochs, key), key, until - 1)|
  }

  /** Every row of a finished date expects its recordable minutes. */
  ghost predicate RowsExact(st: Store, key: Key) {
    forall d :: DayKey(key, d) in st.daily && DayEnd(d) <= st.now ==>
      st.daily[DayKey(key, d)].expected == |RecordableMinutes(st.windows, EpochOf(st.epochs, key), key, d)|
  }

  lemma RowsAreExact(cfg: Settings, st: Store, full: Store, key: Key)
    requires Agree(cfg, st, full) && cfg.interval == 60_000_000 && OnMinuteMarks(st.windows, key)
    ensures RowsExact(st, key)
  {
    var epoch := EpochOf(st.epochs, key);
    if epoch.Some? { assert Slot(key, epoch.value) in full.beats; }
    forall d | DayKey(key, d) in st.daily && DayEnd(d) <= st.now
      ensures st.daily[DayKey(key, d)].expected == |RecordableMinutes(st.windows, epoch, key, d)|
    {
      RowHoldsGone(cfg, st, full, DayKey(key, d));
      ExpectedIsRecordable(st.windows, epoch, st.now, key, d);
    }
  }

  /** A date's recordable minutes are the free marks up to where the next date's monitored part starts. */
  lemma RecordableIsFree(windows: seq<Window>, epoch: Option<Instant>, key: Key, day: int)
    ensures RecordableMinutes(windows, epoch, key, day) ==
            FreeMarks(windows, key, SpanStart(epoch, day), SpanStart(epoch, day + 1))
  {
    assert DayEnd(day) == DayStart(day + 1);
    if epoch.Some? && epoch.value > DayEnd(day) {
      NoFreeMarks(windows, key, SpanStart(epoch, day), DayEnd(day));
      NoFreeMarks(windows, key, SpanStart(epoch, day), SpanStart(epoch, day + 1));
    }
    assert RecordableMinutes(windows, epoch, key, day) == FreeMarks(windows, key, SpanStart(epoch, day), DayEnd(day));
  }

  /** On minute marks the rows of consecutive dates expect their recordable minutes, bar the dates without one. */
  lemma {:induction false} RowsExpect(st: Store, key: Key, from: int, until: int)
    requires RowsExact(st, key) && from <= until && DayStart(until) <= st.now
    ensures SummaryTotals(st.daily, key, from, until).expected + Unrowed(st, key, from, until)
         == |FreeMarks(st.windows, key, From(st, key, from), From(st, key, until))|
    decreases until - from
  {
    if from == until {
      NoFreeMarks(st.windows, key, From(st, key, from), From(st, key, until));
    } else {
      RowsExpect(st, key, from, until - 1);
      OneMoreRow(st, key, until - 1);
      FreeMarksSplit(st.windows, key, From(st, key, from), From(st, key, until - 1), From(st, key, until));
    }
  }

  lemma OneMoreRow(st: Store, key: Key, day: int)
    requires RowsExact(st, key) && DayEnd(day) <= st.now
    ensures var n := |FreeMarks(st.windows, key, From(st, key, day), From(st, key, day + 1))|;
            && n == |RecordableMinutes(st.windows, EpochOf(st.epochs, key), key, day)|
            && (DayKey(key, day) in st.daily ==> st.daily[DayKey(key, day)].expected == n)
  {
    RecordableIsFree(st.windows, EpochOf(st.epochs, key), key, day);
  }

  /** Recordable minutes of the first date that lie before the window. */
  ghost function Early(st: Store, key: Key, windowStart: Instant, o: Instant): set<Instant> {
    FreeMarks(st.windows, key, From(st, key, DayOf(windowStart)),
              Min(Begin(st, key, windowStart), From(st, key, DayOf(o))))
  }

  /** Recordable minutes of the window before the oldest raw beat on its own date. */
  ghost function Lost(st: Store, key: Key, windowStart: Instant, o: Instant): set<Instant> {
    FreeMarks(st.windows, key, Max(Begin(st, key, windowStart), From(st, key, DayOf(o))), o)
  }

  /** The first minute mark at or after an instant. */
  function MarkFrom(t: Instant): Instant { 60_000_000 * MarksBelow(t) }

  /** The parts of a minute at both ends of the window may make up one more check. */
  ghost function Carry(st: Store, key: Key, windowStart: Instant, o: Instant): int {
    var b := Begin(st, key, windowStart);
    (FreeTime(st.windows, key, b, MarkFrom(b)) + FreeTime(st.windows, key, o, st.now) % 60_000_000) / 60_000_000
  }

  lemma MarkFromBounds(t: Instant)
    ensures t <= MarkFrom(t) < t + 60_000_000 && MarkFrom(t) % 60_000_000 == 0
    ensures forall m: int :: m % 60_000_000 == 0 && t <= m ==> MarkFrom(t) <= m
  {
    WholeNumber(MarksBelow(t));
    forall m: int | m % 60_000_000 == 0 && t <= m ensures MarkFrom(t) <= m {
      assert m == 60_000_000 * (m / 60_000_000);
    }
  }

  lemma DivideInThree(x: int, k: int, y: int)
    requires 0 <= x < 60_000_000 && 0 <= y
    ensures (x + 60_000_000 * k + y) / 60_000_000 == k + y / 60_000_000 + (x + y % 60_000_000) / 60_000_000
    ensures 0 <= (x + y % 60_000_000) / 60_000_000 <= 1 && (x == 0 ==> (x + y % 60_000_000) / 60_000_000 == 0)
  {
  }

  /** The expected checks of a span up to and after a minute mark `o`, whole minutes and carry. */
  lemma ExpectedFrom(windows: seq<Window>, key: Key, lo: Instant, o: Instant, now: Instant)
    requires OnMinuteMarks(windows, key) && lo <= o <= now && o % 60_000_000 == 0
    ensures var x := FreeTime(windows, key, lo, MarkFrom(lo));
            var carry := (x + FreeTime(windows, key, o, now) % 60_000_000) / 60_000_000;
            && FreeTime(windows, key, lo, now) / 60_000_000 ==
               |FreeMarks(windows, key, lo, o)| + FreeTime(windows, key, o, now) / 60_000_000 + carry
            && 0 <= carry <= 1 && (lo % 60_000_000 == 0 ==> carry == 0)
  {
    var m := MarkFrom(lo);
    MarkFromBounds(lo);
    ExcludedTimeSplits(windows, key, lo, m, now);
    ExcludedTimeSplits(windows, key, m, o, now);
    FreeTimeInMinutes(windows, key, m, o);
    ExcludedTimeBounded(windows, key, lo, m);
    ExcludedTimeBounded(windows, key, o, now);
    assert FreeMarks(windows, key, m, o) == FreeMarks(windows, key, lo, o);
    DivideInThree(FreeTime(windows, key, lo, m), |FreeMarks(windows, key, m, o)|, FreeTime(windows, key, o, now));
    if lo % 60_000_000 == 0 { assert m == lo; }
  }

  /** The never-pruned history of the monitor starts at its epoch. */
  lemma FullStartsAtEpoch(cfg: Settings, st: Store, full: Store, key: Key, o: Instant)
    requires Agree(cfg, st, full) && OldestRaw(st.beats, key) == Some(o)
    ensures key in st.epochs && st.epochs[key] <= o <= st.now && o % 60_000_000 == 0 && st.epochs[key] % 60_000_000 == 0
    ensures OldestRaw(full.beats, key) == Some(st.epochs[key])
  {
    assert Slot(key, o) in full.beats;
    EpochIsOldest(full, key);
  }

  lemma EpochIsOldest(full: Store, key: Key)
    requires BeatsOnGrid(full) && key in full.epochs
    ensures OldestRaw(full.beats, key) == Some(full.epochs[key]) && full.epochs[key] % 60_000_000 == 0
  {
    var e := full.epochs[key];
    assert Slot(key, e) in full.beats;
    RawFromOldest(full, key, Slot(key, e));
    assert Slot(key, OldestRaw(full.beats, key).value) in full.beats;
  }

  /** In time: the first date starts before the window, the date of `o` before `o`, and unless both are the same
      date the window starts before the latter. */
  lemma InOrderOfTime(st: Store, key: Key, windowStart: Instant, o: Instant)
    requires key in st.epochs && st.epochs[key] <= o && windowStart < o
    ensures var first, begin := From(st, key, DayOf(windowStart)), Begin(st, key, windowStart);
            var last := From(st, key, DayOf(o));
            && DayOf(windowStart) <= DayOf(o) && first <= begin <= o && first <= last <= o
            && (begin <= last || DayOf(windowStart) == DayOf(o))
            && (Dated(st, key, windowStart) ==> begin == first)
  {
    DaysOrdered(windowStart, o);
    StartOfDay(o);
    StartOfDay(windowStart);
  }

  /** The minutes of the first dates and the lost ones are the early ones and those of the window up to `o`. */
  lemma MinutesBalance(st: Store, key: Key, windowStart: Instant, o: Instant)
    requires key in st.epochs && st.epochs[key] <= o && windowStart < o
    ensures |FreeMarks(st.windows, key, From(st, key, DayOf(windowStart)), From(st, key, DayOf(o)))|
            + |Lost(st, key, windowStart, o)|
         == |Early(st, key, windowStart, o)| + |FreeMarks(st.windows, key, Begin(st, key, windowStart), o)|
  {
    var first, begin := From(st, key, DayOf(windowStart)), Begin(st, key, windowStart);
    var last := From(st, key, DayOf(o));
    InOrderOfTime(st, key, windowStart, o);
    if begin <= last {
      FreeMarksSplit(st.windows, key, first, begin, last);
      FreeMarksSplit(st.windows, key, begin, last, o);
    } else {
      NoFreeMarks(st.windows, key, first, last);
    }
  }

  lemma FullRawStart(cfg: Settings, st: Store, full: Store, key: Key, windowStart: Instant, o: Instant)
    requires Agree(cfg, st, full) && Crosses(st, key, windowStart, o)
    ensures key in st.epochs
    ensures SplitPoint(OldestRaw(full.beats, key), windowStart, full.now).0 == Begin(st, key, windowStart)
    ensures WindowTotals(full, cfg, windowStart, key).1
         == FreeTime(st.windows, key, Begin(st, key, windowStart), st.now) / cfg.interval
  {
    FullStartsAtEpoch(cfg, st, full, key, o);
    NoSummary(full, key, windowStart, SplitPoint(OldestRaw(full.beats, key), windowStart, full.now).1);
    RawExpected(cfg, full, key, Begin(st, key, windowStart));
  }

  lemma PartExpected(cfg: Settings, st: Store, key: Key, windowStart: Instant, o: Instant)
    requires Crosses(st, key, windowStart, o) && o <= st.now
    ensures WindowTotals(st, cfg, windowStart, key).1
         == SummaryTotals(st.daily, key, DayOf(windowStart), DayOf(o)).expected
            + FreeTime(st.windows, key, o, st.now) / cfg.interval
  {
    RawExpected(cfg, st, key, o);
  }

  /** The expected checks of a window against the never-pruned ones, minute by minute. */
  lemma DenominatorBalance(cfg: Settings, st: Store, full: Store, key: Key, windowStart: Instant, o: Instant)
    requires Agree(cfg, st, full) && Crosses(st, key, windowStart, o)
    requires cfg.interval == 60_000_000 && OnMinuteMarks(st.windows, key)
    ensures WindowTotals(full, cfg, windowStart, key).1 + |Early(st, key, windowStart, o)|
         == WindowTotals(st, cfg, windowStart, key).1 + Unrowed(st, key, DayOf(windowStart), DayOf(o))
            + |Lost(st, key, windowStart, o)| + Carry(st, key, windowStart, o)
    ensures 0 <= Carry(st, key, windowStart, o) <= 1
    ensures Begin(st, key, windowStart) % 60_000_000 == 0 ==> Carry(st, key, windowStart, o) == 0
  {
    FullStartsAtEpoch(cfg, st, full, key, o);
    FullRawStart(cfg, st, full, key, windowStart, o);
    InOrderOfTime(st, key, windowStart, o);
    StartOfDay(o);
    PartExpected(cfg, st, key, windowStart, o);
    RowsAreExact(cfg, st, full, key);
    RowsExpect(st, key, DayOf(windowStart), DayOf(o));
    MinutesBalance(st, key, windowStart, o);
    ExpectedFrom(st.windows, key, Begin(st, key, windowStart), o, st.now);
  }

  lemma ExtraMinute(cfg: Settings, st: Store, full: Store, key: Key, windowStart: Instant, o: Instant, s: Slot)
    requires Agree(cfg, st, full) && Crosses(st, key, windowStart, o)
    requires s in Extra(st, full, key, windowStart, Some(DayOf(o)))
    ensures s.key == key && s.at in Early(st, key, windowStart, o)
  {
    GoneInTime(cfg, st, full, key, o, s);
  }

  lemma MissingMinute(cfg: Settings, st: Store, full: Store, key: Key, windowStart: Instant, o: Instant, s: Slot)
    requires Agree(cfg, st, full) && Crosses(st, key, windowStart, o)
    requires s in Missing(st, full, key, windowStart, o, Some(DayOf(o)))
    ensures s.key == key && s.at in Lost(st, key, windowStart, o)
  {
    GoneInTime(cfg, st, full, key, o, s);
  }

  /** Deleted beats that a window adds or leaves out sat in its early or lost minutes. */
  lemma BeatsInMinutes(cfg: Settings, st: Store, full: Store, key: Key, windowStart: Instant, o: Instant)
    requires Agree(cfg, st, full) && Crosses(st, key, windowStart, o)
    ensures |Extra(st, full, key, windowStart, Some(DayOf(o)))| <= |Early(st, key, windowStart, o)|
    ensures |Missing(st, full, key, windowStart, o, Some(DayOf(o)))| <= |Lost(st, key, windowStart, o)|
  {
    var extra := Extra(st, full, key, windowStart, Some(DayOf(o)));
    var missing := Missing(st, full, key, windowStart, o, Some(DayOf(o)));
    var early, lost := Early(st, key, windowStart, o), Lost(st, key, windowStart, o);
    forall s | s in extra ensures s.key == key && s.at in early { ExtraMinute(cfg, st, full, key, windowStart, o, s); }
    forall s | s in missing ensures s.key == key && s.at in lost {
      MissingMinute(cfg, st, full, key, windowStart, o, s);
    }
    BeatsAtMost(extra, key, early);
    BeatsAtMost(missing, key, lost);
  }

  lemma BeatsAtMost(slots: set<Slot>, key: Key, minutes: set<Instant>)
    requires forall s :: s in slots ==> s.key == key && s.at in minutes
    ensures |slots| <= |minutes|
  {
    TimesOfSize(slots, key);
    SubsetSize(TimesOf(slots), minutes);
  }

  // ---- the two scores ----

  /** A crossing window against the never-pruned one: what it leaves out and what it adds, on both sides of the
      score. */
  ghost predicate IsBalanced(cfg: Settings, st: Store, full: Store, windowStart: Instant, key: Key, o: Instant) {
    var part, whole := WindowTotals(st, cfg, windowStart, key), WindowTotals(full, cfg, windowStart, key);
    var extra := Extra(st, full, key, windowStart, Some(DayOf(o)));
    var missing := Missing(st, full, key, windowStart, o, Some(DayOf(o)));
    var early, lost := Early(st, key, windowStart, o), Lost(st, key, windowStart, o);
    var unrowed, carry := Unrowed(st, key, DayOf(windowStart), DayOf(o)), Carry(st, key, windowStart, o);
    && whole.0 + |extra| == part.0 + |missing|
    && whole.1 + |early| == part.1 + unrowed + |lost| + carry
    && |extra| <= |early| && |missing| <= |lost|
    && (DayOf(windowStart) < DayOf(o) ==> |missing| == PriorRow(st.daily, DayKey(key, DayOf(o))).ok)
    && 0 <= carry <= 1 && (Begin(st, key, windowStart) % 60_000_000 == 0 ==> carry == 0)
    && (part == whole <==> |extra| == |missing| && |early| == unrowed + |lost| + carry)
    && (part == whole ==>
          WindowUptime(st, cfg, windowStart, key).uptime == WindowUptime(full, cfg, windowStart, key).uptime)
  }

  /** MAIN: over runs, for every start before the oldest raw beat, on a minute mark or not: the passing checks of
      the window differ from the never-pruned ones by the deleted beats of at most the lost and the early minutes,
      and the expected checks by those minutes themselves, the dates without a row, and at most one check where
      the window's ends cut a minute; both agree iff those make up for one another. */
  lemma CrossingWindowBalance(cfg: Settings, start: Instant, steps: seq<Step>,
                              windowStart: Instant, key: Key, o: Instant)
    requires ForwardRun(cfg, Fresh(start), steps) && cfg.interval == 60_000_000
    requires var st := Run(cfg, Fresh(start), steps); Crosses(st, key, windowStart, o) && OnMinuteMarks(st.windows, key)
    ensures IsBalanced(cfg, Run(cfg, Fresh(start), steps), Run(cfg, Fresh(start), WithoutPruning(steps)),
                       windowStart, key, o)
  {
    var st, full := Run(cfg, Fresh(start), steps), Run(cfg, Fresh(start), WithoutPruning(steps));
    FreshAgrees(cfg, start);
    RunKeeps(cfg, Fresh(start), Fresh(start), steps);
    Balance(cfg, st, full, windowStart, key, o);
  }

  lemma Balance(cfg: Settings, st: Store, full: Store, windowStart: Instant, key: Key, o: Instant)
    requires Agree(cfg, st, full) && Crosses(st, key, windowStart, o)
    requires cfg.interval == 60_000_000 && OnMinuteMarks(st.windows, key)
    ensures IsBalanced(cfg, st, full, windowStart, key, o)
  {
    TotalsBalance(cfg, st, full, key, windowStart);
    DenominatorBalance(cfg, st, full, key, windowStart, o);
    BeatsInMinutes(cfg, st, full, key, windowStart, o);
    if DayOf(windowStart) < DayOf(o) { MissingIsFolding(cfg, st, full, key, windowStart, o); }
    FoldingInRow(cfg, st, full, key, o);
    SameTotals(st, full, cfg, windowStart, key);
  }

  lemma SameTotals(st: Store, full: Store, cfg: Settings, windowStart: Instant, key: Key)
    requires windowStart < st.now && full.now == st.now
    ensures WindowTotals(st, cfg, windowStart, key) == WindowTotals(full, cfg, windowStart, key) ==>
              WindowUptime(st, cfg, windowStart, key).uptime == WindowUptime(full, cfg, windowStart, key).uptime
  {
    UptimeOfTotals(st, cfg, windowStart, key);
    UptimeOfTotals(full, cfg, windowStart, key);
  }

  // ---- windows that start with their first date ----

  /** Only minutes are cut out: those of the window before `o` on its date, and the dates without a row. */
  ghost predicate IsCutOut(cfg: Settings, st: Store, full: Store, windowStart: Instant, key: Key, o: Instant) {
    var part, whole := WindowTotals(st, cfg, windowStart, key), WindowTotals(full, cfg, windowStart, key);
    var unrowed, lost := Unrowed(st, key, DayOf(windowStart), DayOf(o)), Lost(st, key, windowStart, o);
    && whole.0 == part.0 + PriorRow(st.daily, DayKey(key, DayOf(o))).ok
    && whole.1 == part.1 + unrowed + |lost|
    && (part == whole <==> unrowed == 0 && lost == {})
    && (part == whole ==>
          WindowUptime(st, cfg, windowStart, key).uptime == WindowUptime(full, cfg, windowStart, key).uptime)
  }

  /** MAIN: over runs, a window that starts at a midnight, at the monitor's epoch or before it is the never-pruned
      window with the recordable minutes cut out that lie before the oldest raw beat on its date, or on a date
      without any row: its passing and expected checks are the never-pruned ones iff there are no such minutes. */
  lemma DatedWindowIff(cfg: Settings, start: Instant, steps: seq<Step>, windowStart: Instant, key: Key, o: Instant)
    requires ForwardRun(cfg, Fresh(start), steps) && cfg.interval == 60_000_000
    requires var st := Run(cfg, Fresh(start), steps);
             Crosses(st, key, windowStart, o) && Dated(st, key, windowStart) && OnMinuteMarks(st.windows, key)
    ensures IsCutOut(cfg, Run(cfg, Fresh(start), steps), Run(cfg, Fresh(start), WithoutPruning(steps)),
                     windowStart, key, o)
  {
    var st, full := Run(cfg, Fresh(start), steps), Run(cfg, Fresh(start), WithoutPruning(steps));
    FreshAgrees(cfg, start);
    RunKeeps(cfg, Fresh(start), Fresh(start), steps);
    CutOut(cfg, st, full, windowStart, key, o);
  }

  lemma DatedStart(cfg: Settings, st: Store, full: Store, windowStart: Instant, key: Key, o: Instant)
    requires Agree(cfg, st, full) && Crosses(st, key, windowStart, o) && Dated(st, key, windowStart)
    ensures Begin(st, key, windowStart) % 60_000_000 == 0 && Early(st, key, windowStart, o) == {}
    ensures Extra(st, full, key, windowStart, Some(DayOf(o))) == {}
    ensures |Missing(st, full, key, windowStart, o, Some(DayOf(o)))| == PriorRow(st.daily, DayKey(key, DayOf(o))).ok
  {
    FullStartsAtEpoch(cfg, st, full, key, o);
    InOrderOfTime(st, key, windowStart, o);
    DayEndOnGrid(DayOf(windowStart));
    NoFreeMarks(st.windows, key, From(st, key, DayOf(windowStart)),
                Min(Begin(st, key, windowStart), From(st, key, DayOf(o))));
    DatedHasNoExtra(cfg, st, full, key, windowStart, o);
    MissingIsFolding(cfg, st, full, key, windowStart, o);
    FoldingInRow(cfg, st, full, key, o);
  }

  lemma CutOut(cfg: Settings, st: Store, full: Store, windowStart: Instant, key: Key, o: Instant)
    requires Agree(cfg, st, full) && Crosses(st, key, windowStart, o) && Dated(st, key, windowStart)
    requires cfg.interval == 60_000_000 && OnMinuteMarks(st.windows, key)
    ensures IsCutOut(cfg, st, full, windowStart, key, o)
  {
    Balance(cfg, st, full, windowStart, key, o);
    DatedStart(cfg, st, full, windowStart, key, o);
    BeatsInMinutes(cfg, st, full, key, windowStart, o);
  }

  /** MAIN: the overall uptime, over runs: the window from the epoch is the never-pruned one with those minutes cut
      out once the first beat is deleted, and the never-pruned one itself until then. */
  lemma OverallUptimeIff(cfg: Settings, start: Instant, steps: seq<Step>, key: Key, o: Instant)
    requires ForwardRun(cfg, Fresh(start), steps) && cfg.interval == 60_000_000
    requires var st := Run(cfg, Fresh(start), steps);
             key in st.epochs && OldestRaw(st.beats, key) == Some(o) && OnMinuteMarks(st.windows, key)
    ensures var st, full := Run(cfg, Fresh(start), steps), Run(cfg, Fresh(start), WithoutPruning(steps));
            if o == st.epochs[key] then WindowUptime(st, cfg, o, key) == WindowUptime(full, cfg, o, key)
            else IsCutOut(cfg, st, full, st.epochs[key], key, o)
  {
    FreshAgrees(cfg, start);
    RunKeeps(cfg, Fresh(start), Fresh(start), steps);
    OverallFrom(cfg, Run(cfg, Fresh(start), steps), Run(cfg, Fresh(start), WithoutPruning(steps)), key, o);
  }

  lemma OverallFrom(cfg: Settings, st: Store, full: Store, key: Key, o: Instant)
    requires Agree(cfg, st, full) && cfg.interval == 60_000_000
    requires key in st.epochs && OldestRaw(st.beats, key) == Some(o) && OnMinuteMarks(st.windows, key)
    ensures if o == st.epochs[key] then WindowUptime(st, cfg, o, key) == WindowUptime(full, cfg, o, key)
            else IsCutOut(cfg, st, full, st.epochs[key], key, o)
  {
    FullStartsAtEpoch(cfg, st, full, key, o);
    if o == st.epochs[key] {
      RecentFrom(cfg, st, full, o, key);
    } else {
      CutOut(cfg, st, full, st.epochs[key], key, o);
    }
  }

  lemma RecentFrom(cfg: Settings, st: Store, full: Store, windowStart: Instant, key: Key)
    requires Agree(cfg, st, full)
    requires OldestRaw(st.beats, key).Some? && OldestRaw(st.beats, key).value <= windowStart
    ensures WindowUptime(st, cfg, windowStart, key) == WindowUptime(full, cfg, windowStart, key)
  {
    NothingOlderRemoved(cfg, st, full, windowStart, key);
    RecentWindowAgrees(cfg, st, full, windowStart, key);
  }

  /** MAIN: the uptime of the last `hours`, over runs: the never-pruned one while the window starts no earlier than
      the oldest raw beat, and in balance with it otherwise. */
  lemma RollingUptimeBalance(cfg: Settings, start: Instant, steps: seq<Step>, key: Key, hours: int, o: Instant)
    requires ForwardRun(cfg, Fresh(start), steps) && cfg.interval == 60_000_000
    requires var st := Run(cfg, Fresh(start), steps);
             OldestRaw(st.beats, key) == Some(o) && OnMinuteMarks(st.windows, key)
    ensures var st, full := Run(cfg, Fresh(start), steps), Run(cfg, Fresh(start), WithoutPruning(steps));
            var windowStart := RollingStart(st, key, hours);
            && RollingStart(full, key, hours) == windowStart
            && Begin(st, key, windowStart) == windowStart
            && if o <= windowStart
               then WindowUptime(st, cfg, windowStart, key) == WindowUptime(full, cfg, windowStart, key)
               else IsBalanced(cfg, st, full, windowStart, key, o)
  {
    FreshAgrees(cfg, start);
    RunKeeps(cfg, Fresh(start), Fresh(start), steps);
    RollingFrom(cfg, Run(cfg, Fresh(start), steps), Run(cfg, Fresh(start), WithoutPruning(steps)), key, hours, o);
  }

  lemma RollingFrom(cfg: Settings, st: Store, full: Store, key: Key, hours: int, o: Instant)
    requires Agree(cfg, st, full) && cfg.interval == 60_000_000
    requires OldestRaw(st.beats, key) == Some(o) && OnMinuteMarks(st.windows, key)
    ensures var windowStart := RollingStart(st, key, hours);
            && RollingStart(full, key, hours) == windowStart
            && Begin(st, key, windowStart) == windowStart
            && if o <= windowStart
               then WindowUptime(st, cfg, windowStart, key) == WindowUptime(full, cfg, windowStart, key)
               else IsBalanced(cfg, st, full, windowStart, key, o)
  {
    FullStartsAtEpoch(cfg, st, full, key, o);
    var windowStart := RollingStart(st, key, hours);
    if o <= windowStart {
      RecentFrom(cfg, st, full, windowStart, key);
    } else {
      Balance(cfg, st, full, windowStart, key, o);
    }
  }

  // ---- any windows, any interval ----

  /** Non-excluded time of the dates in [from, until) that have no daily row. */
  ghost function TimeUnrowed(st: Store, key: Key, from: int, until: int): int
    decreases until - from
  {
    if until <= from then 0
    else TimeUnrowed(st, key, from, until - 1)
         + if DayKey(key, until - 1) in st.daily then 0
           else FreeTime(st.windows, key, From(st, key, until - 1), From(st, key, until))
  }

  lemma FreeTimeSplits(windows: seq<Window>, key: Key, lo: Instant, mid: Instant, hi: Instant)
    requires lo <= mid <= hi
    ensures FreeTime(windows, key, lo, hi) == FreeTime(windows, key, lo, mid) + FreeTime(windows, key, mid, hi)
  {
    ExcludedTimeSplits(windows, key, lo, mid, hi);
  }

  /** So many whole intervals, and less than one more. */
  predicate Measures(n: int, time: int, interval: int) { interval * n <= time <= interval * n + (interval - 1) }

  /** The same for the sum of several measures. */
  predicate MeasuresAll(n: int, count: int, time: int, interval: int) {
    interval * n <= time <= interval * n + count * (interval - 1)
  }

  lemma WholeIntervals(time: int, interval: int)
    requires time >= 0 && interval > 0
    ensures Measures(time / interval, time, interval)
  {
  }

  lemma OneMoreMeasure(n: int, count: int, time: int, m: int, more: int, interval: int)
    requires MeasuresAll(n, count, time, interval) && Measures(m, more, interval)
    ensures MeasuresAll(n + m, count + 1, time + more, interval)
  {
    TimesSum(interval, n, m);
    SumTimes(count, 1, interval - 1);
  }

  /** Every row of a finished date expects the whole intervals of the date's non-excluded time. */
  ghost predicate RowsMeasure(st: Store, key: Key, interval: int) {
    forall d :: DayKey(key, d) in st.daily && DayEnd(d) <= st.now ==>
      Measures(st.daily[DayKey(key, d)].expected, DateTime(st, key, d), interval)
  }

  ghost function DateTime(st: Store, key: Key, day: int): int {
    FreeTime(st.windows, key, From(st, key, day), From(st, key, day + 1))
  }

  lemma DateMeasured(st: Store, key: Key, day: int, interval: int)
    requires DayEnd(day) <= st.now && interval > 0
    ensures Measures(ExpectedForDay(st.windows, EpochOf(st.epochs, key), st.now, interval, key, day),
                     DateTime(st, key, day), interval)
  {
    var from := From(st, key, day);
    assert DayEnd(day) == DayStart(day + 1);
    ExcludedTimeBounded(st.windows, key, from, From(st, key, day + 1));
    if from < DayEnd(day) {
      assert From(st, key, day + 1) == DayEnd(day);
      WholeIntervals(FreeTime(st.windows, key, from, DayEnd(day)), interval);
    } else {
      assert From(st, key, day + 1) == from;
    }
  }

  lemma RowsAreMeasured(cfg: Settings, st: Store, full: Store, key: Key)
    requires Agree(cfg, st, full)
    ensures RowsMeasure(st, key, cfg.interval)
  {
    forall d | DayKey(key, d) in st.daily && DayEnd(d) <= st.now
      ensures Measures(st.daily[DayKey(key, d)].expected, DateTime(st, key, d), cfg.interval)
    {
      RowHoldsGone(cfg, st, full, DayKey(key, d));
      DateMeasured(st, key, d, cfg.interval);
    }
  }

  /** Non-excluded time of the dates in [from, until) that have a daily row. */
  ghost function TimeRowed(st: Store, key: Key, from: int, until: int): int {
    FreeTime(st.windows, key, From(st, key, from), From(st, key, until)) - TimeUnrowed(st, key, from, until)
  }

  lemma OneMoreDate(st: Store, key: Key, from: int, day: int)
    requires from <= day
    ensures TimeRowed(st, key, from, day + 1)
         == TimeRowed(st, key, from, day) + if DayKey(key, day) in st.daily then DateTime(st, key, day) else 0
  {
    FreeTimeSplits(st.windows, key, From(st, key, from), From(st, key, day), From(st, key, day + 1));
  }

  /** The rows of consecutive dates fall short of their time by less than one interval each. */
  lemma {:induction false} RowsMeasureAll(st: Store, key: Key, from: int, until: int, interval: int)
    requires RowsMeasure(st, key, interval) && from <= until && DayStart(until) <= st.now
    ensures var sum := SummaryTotals(st.daily, key, from, until);
            MeasuresAll(sum.expected, sum.days, TimeRowed(st, key, from, until), interval)
    decreases until - from
  {
    if from == until {
      ExcludedTimeBounded(st.windows, key, From(st, key, from), From(st, key, until));
    } else {
      var day := until - 1;
      RowsMeasureAll(st, key, from, day, interval);
      OneMoreDate(st, key, from, day);
      if DayKey(key, day) in st.daily {
        var sum := SummaryTotals(st.daily, key, from, day);
        OneMoreMeasure(sum.expected, sum.days, TimeRowed(st, key, from, day),
                       st.daily[DayKey(key, day)].expected, DateTime(st, key, day), interval);
      }
    }
  }

  /** MAIN: over runs, with windows and interval of any kind: the never-pruned window expects the checks of the lost
      and unrowed time more than this one, less those of the early time, up to one interval for each row read and
      one for either end of the window. */
  lemma ExpectedWithinRounding(cfg: Settings, start: Instant, steps: seq<Step>,
                               windowStart: Instant, key: Key, o: Instant)
    requires ForwardRun(cfg, Fresh(start), steps) && Crosses(Run(cfg, Fresh(start), steps), key, windowStart, o)
    ensures var st, full := Run(cfg, Fresh(start), steps), Run(cfg, Fresh(start), WithoutPruning(steps));
            IsWithinRounding(cfg, st, full, windowStart, key, o)
  {
    var st, full := Run(cfg, Fresh(start), steps), Run(cfg, Fresh(start), WithoutPruning(steps));
    FreshAgrees(cfg, start);
    RunKeeps(cfg, Fresh(start), Fresh(start), steps);
    WithinRounding(cfg, st, full, windowStart, key, o);
  }

  ghost predicate IsWithinRounding(cfg: Settings, st: Store, full: Store, windowStart: Instant, key: Key, o: Instant) {
    var part, whole := WindowTotals(st, cfg, windowStart, key).1, WindowTotals(full, cfg, windowStart, key).1;
    var first, begin := From(st, key, DayOf(windowStart)), Begin(st, key, windowStart);
    var last := From(st, key, DayOf(o));
    var early := FreeTime(st.windows, key, first, Min(begin, last));
    var lost := FreeTime(st.windows, key, Max(begin, last), o);
    var rows := SummaryTotals(st.daily, key, DayOf(windowStart), DayOf(o)).days;
    var gap := cfg.interval * whole - cfg.interval * part
               - (lost + TimeUnrowed(st, key, DayOf(windowStart), DayOf(o)) - early);
    -(cfg.interval - 1) <= gap <= (rows + 1) * (cfg.interval - 1)
  }

  /** In time, as in minutes: the dates up to `o` and the lost part are the early part and the window up to `o`. */
  lemma TimeBalance(st: Store, key: Key, windowStart: Instant, o: Instant)
    requires key in st.epochs && st.epochs[key] <= o && windowStart < o
    ensures var first, begin := From(st, key, DayOf(windowStart)), Begin(st, key, windowStart);
            var last := From(st, key, DayOf(o));
            FreeTime(st.windows, key, first, last) + FreeTime(st.windows, key, Max(begin, last), o)
            == FreeTime(st.windows, key, first, Min(begin, last)) + FreeTime(st.windows, key, begin, o)
  {
    var first, begin := From(st, key, DayOf(windowStart)), Begin(st, key, windowStart);
    var last := From(st, key, DayOf(o));
    InOrderOfTime(st, key, windowStart, o);
    if begin <= last {
      FreeTimeSplits(st.windows, key, first, begin, last);
      FreeTimeSplits(st.windows, key, begin, last, o);
    }
  }

  lemma WithinRounding(cfg: Settings, st: Store, full: Store, windowStart: Instant, key: Key, o: Instant)
    requires Agree(cfg, st, full) && Crosses(st, key, windowStart, o)
    ensures IsWithinRounding(cfg, st, full, windowStart, key, o)
  {
    FullStartsAtEpoch(cfg, st, full, key, o);
    FullRawStart(cfg, st, full, key, windowStart, o);
    PartExpected(cfg, st, key, windowStart, o);
    RowsAreMeasured(cfg, st, full, key);
    var part, whole := WindowTotals(st, cfg, windowStart, key).1, WindowTotals(full, cfg, windowStart, key).1;
    Gap(st, key, windowStart, o, cfg.interval, part, whole);
  }

  lemma Gap(st: Store, key: Key, windowStart: Instant, o: Instant, interval: int, part: int, whole: int)
    requires key in st.epochs && st.epochs[key] <= o <= st.now && windowStart < o && interval > 0
    requires RowsMeasure(st, key, interval)
    requires whole == FreeTime(st.windows, key, Begin(st, key, windowStart), st.now) / interval
    requires part == SummaryTotals(st.daily, key, DayOf(windowStart), DayOf(o)).expected
                     + FreeTime(st.windows, key, o, st.now) / interval
    ensures var first, begin := From(st, key, DayOf(windowStart)), Begin(st, key, windowStart);
            var last := From(st, key, DayOf(o));
            var early := FreeTime(st.windows, key, first, Min(begin, last));
            var lost := FreeTime(st.windows, key, Max(begin, last), o);
            var rows := SummaryTotals(st.daily, key, DayOf(windowStart), DayOf(o)).days;
            -(interval - 1)
            <= interval * whole - interval * part - (lost + TimeUnrowed(st, key, DayOf(windowStart), DayOf(o)) - early)
            <= (rows + 1) * (interval - 1)
  {
    InOrderOfTime(st, key, windowStart, o);
    StartOfDay(o);
    RowsMeasureAll(st, key, DayOf(windowStart), DayOf(o), interval);
    TimeBalance(st, key, windowStart, o);
    Ends(st, Begin(st, key, windowStart), o, key, interval);
    var rows := SummaryTotals(st.daily, key, DayOf(windowStart), DayOf(o));
    OneMoreMeasure(rows.expected, rows.days, TimeRowed(st, key, DayOf(windowStart), DayOf(o)),
                   FreeTime(st.windows, key, o, st.now) / interval, FreeTime(st.windows, key, o, st.now), interval);
  }

  lemma Ends(st: Store, begin: Instant, o: Instant, key: Key, interval: int)
    requires begin <= o <= st.now && interval > 0
    ensures FreeTime(st.windows, key, begin, st.now)
         == FreeTime(st.windows, key, begin, o) + FreeTime(st.windows, key, o, st.now)
    ensures Measures(FreeTime(st.windows, key, begin, st.now) / interval,
                     FreeTime(st.windows, key, begin, st.now), interval)
    ensures Measures(FreeTime(st.windows, key, o, st.now) / interval, FreeTime(st.windows, key, o, st.now), interval)
  {
    FreeTimeSplits(st.windows, key, begin, o, st.now);
    ExcludedTimeBounded(st.windows, key, begin, st.now);
    ExcludedTimeBounded(st.windows, key, o, st.now);
    WholeIntervals(FreeTime(st.windows, key, begin, st.now), interval);
    WholeIntervals(FreeTime(st.windows, key, o, st.now), interval);
  }

  // ---- a flawless monitor ----

  /** A passing beat in every recordable minute from `since` to the last full one. */
  ghost predicate FlawlessSince(full: Store, key: Key, since: Instant) {
    forall m :: m in FreeMarks(full.windows, key, since, MinuteOf(full.now)) ==>
      Slot(key, m) in full.beats && full.beats[Slot(key, m)].ok
  }

  /** The rows read and the raw beats depend on the start's date alone. */
  lemma OnlyTheDate(cfg: Settings, st: Store, key: Key, a: Instant, b: Instant, o: Instant)
    requires Crosses(st, key, a, o) && Crosses(st, key, b, o) && DayOf(a) == DayOf(b)
    ensures WindowTotals(st, cfg, a, key) == WindowTotals(st, cfg, b, key)
  {
  }

  lemma FlawlessNumerator(full: Store, key: Key, windowStart: Instant, since: Instant)
    requires FlawlessSince(full, key, since) && windowStart <= since
    ensures |FreeMarks(full.windows, key, since, MinuteOf(full.now))| <= |NeverPruned(full, key, windowStart)|
  {
    var minutes, beats := FreeMarks(full.windows, key, since, MinuteOf(full.now)), NeverPruned(full, key, windowStart);
    forall m | m in minutes ensures m in TimesOf(beats) { assert Slot(key, m) in beats; }
    TimesOfSize(beats, key);
    SubsetSize(minutes, TimesOf(beats));
  }

  /** The current minute adds less than one check. */
  lemma FullMinutes(windows: seq<Window>, key: Key, lo: Instant, now: Instant)
    requires OnMinuteMarks(windows, key) && lo % 60_000_000 == 0 && lo <= now
    ensures FreeTime(windows, key, lo, now) / 60_000_000 == |FreeMarks(windows, key, lo, MinuteOf(now))|
  {
    var m := MinuteOf(now);
    SameMinute(lo, now);
    FreeTimeSplits(windows, key, lo, m, now);
    FreeTimeInMinutes(windows, key, lo, m);
    ExcludedTimeBounded(windows, key, m, now);
    WholeMinutesOut(|FreeMarks(windows, key, lo, m)|, FreeTime(windows, key, m, now));
  }

  lemma WholeMinutesOut(k: int, x: int)
    ensures (60_000_000 * k + x) / 60_000_000 == k + x / 60_000_000
  {
  }

  lemma FlawlessTotals(cfg: Settings, st: Store, full: Store, windowStart: Instant, key: Key, o: Instant)
    requires Agree(cfg, st, full) && Crosses(st, key, windowStart, o) && Dated(st, key, windowStart)
    requires cfg.interval == 60_000_000 && OnMinuteMarks(st.windows, key)
    requires FlawlessSince(full, key, From(st, key, DayOf(windowStart)))
    ensures WindowTotals(st, cfg, windowStart, key).0 >= WindowTotals(st, cfg, windowStart, key).1
  {
    Balance(cfg, st, full, windowStart, key, o);
    DatedStart(cfg, st, full, windowStart, key, o);
    FullStartsAtEpoch(cfg, st, full, key, o);
    InOrderOfTime(st, key, windowStart, o);
    FullRawStart(cfg, st, full, key, windowStart, o);
    FullNumerator(cfg, full, key, windowStart);
    FullMinutes(st.windows, key, Begin(st, key, windowStart), st.now);
    FlawlessNumerator(full, key, windowStart, Begin(st, key, windowStart));
  }

  /** MAIN: over runs, a monitor that passed in every recordable minute since the first date of a window reads 100,
      whatever was pruned, as soon as one check is expected of it. */
  lemma FlawlessWindowReadsHundred(cfg: Settings, start: Instant, steps: seq<Step>,
                                   windowStart: Instant, key: Key, o: Instant)
    requires ForwardRun(cfg, Fresh(start), steps) && cfg.interval == 60_000_000
    requires var st := Run(cfg, Fresh(start), steps); Crosses(st, key, windowStart, o) && OnMinuteMarks(st.windows, key)
    requires var st := Run(cfg, Fresh(start), steps);
             FlawlessSince(Run(cfg, Fresh(start), WithoutPruning(steps)), key, From(st, key, DayOf(windowStart)))
    ensures var st := Run(cfg, Fresh(start), steps);
            WindowTotals(st, cfg, windowStart, key).1 >= 1 ==>
              WindowUptime(st, cfg, windowStart, key).uptime == Some(10000)
  {
    var st, full := Run(cfg, Fresh(start), steps), Run(cfg, Fresh(start), WithoutPruning(steps));
    FreshAgrees(cfg, start);
    RunKeeps(cfg, Fresh(start), Fresh(start), steps);
    var midnight := DayStart(DayOf(windowStart));
    StartOfDay(windowStart);
    DayOfBounds(midnight, DayOf(windowStart));
    OnlyTheDate(cfg, st, key, windowStart, midnight, o);
    FlawlessTotals(cfg, st, full, midnight, key, o);
    UptimeOfTotals(st, cfg, windowStart, key);
    if WindowTotals(st, cfg, windowStart, key).1 >= 1 {
      AllPassed(WindowTotals(st, cfg, windowStart, key).0, WindowTotals(st, cfg, windowStart, key).1);
    }
  }

  lemma AllPassed(ok: nat, expected: nat)
    requires ok >= expected >= 1
    ensures Percent(ok, expected, 100) == 10000
  {
    RoundingError(ok * 10000, expected);
    var r := RoundHalfEven(ok * 10000, expected);
    if r < 10000 { MoreMultiples(r, 9999, expected); }
  }

  // ---- coverage ----

  /** The whole days that the rows read stand for. */
  function RowTime(st: Store, key: Key, windowStart: Instant, o: Instant): int {
    86_400_000_000 * SummaryTotals(st.daily, key, DayOf(windowStart), DayOf(o)).days
  }

  lemma PartCovered(cfg: Settings, st: Store, key: Key, windowStart: Instant, o: Instant)
    requires Crosses(st, key, windowStart, o) && o <= st.now
    ensures WindowUptime(st, cfg, windowStart, key).covered
         == Min(st.now - o + RowTime(st, key, windowStart, o), st.now - windowStart)
  {
  }

  lemma FullCovered(cfg: Settings, full: Store, key: Key, windowStart: Instant, epoch: Instant)
    requires full.daily == map[] && OldestRaw(full.beats, key) == Some(epoch)
    requires windowStart < full.now && epoch <= full.now
    ensures WindowUptime(full, cfg, windowStart, key).covered == full.now - Max(windowStart, epoch)
  {
    NoSummary(full, key, windowStart, SplitPoint(Some(epoch), windowStart, full.now).1);
  }

  /** MAIN: over runs, a crossing window is covered like the never-pruned one iff the whole days of its rows reach
      from its start to the oldest raw beat; a start before the epoch, which no caller passes, must be met exactly. */
  lemma CoverageIff(cfg: Settings, start: Instant, steps: seq<Step>, windowStart: Instant, key: Key, o: Instant)
    requires ForwardRun(cfg, Fresh(start), steps) && Crosses(Run(cfg, Fresh(start), steps), key, windowStart, o)
    ensures var st, full := Run(cfg, Fresh(start), steps), Run(cfg, Fresh(start), WithoutPruning(steps));
            && key in st.epochs
            && (WindowUptime(st, cfg, windowStart, key).covered == WindowUptime(full, cfg, windowStart, key).covered
                <==> if st.epochs[key] <= windowStart then RowTime(st, key, windowStart, o) >= o - windowStart
                     else RowTime(st, key, windowStart, o) == o - st.epochs[key])
  {
    var st, full := Run(cfg, Fresh(start), steps), Run(cfg, Fresh(start), WithoutPruning(steps));
    FreshAgrees(cfg, start);
    RunKeeps(cfg, Fresh(start), Fresh(start), steps);
    FullStartsAtEpoch(cfg, st, full, key, o);
    PartCovered(cfg, st, key, windowStart, o);
    FullCovered(cfg, full, key, windowStart, st.epochs[key]);
  }

  // ---- a run in which the two scores differ ----

  const HIT := Beat(true, 0, "", false)
  const WEEK: Instant := 7 * 86_400_000_000

  /** Two passing checks a minute apart, a week on. */
  function TwoHits(now: Instant): Store {
    Store(now, map[Slot("site", 0) := HIT, Slot("site", 60_000_000) := HIT], map[], [], map["site" := 0])
  }

  lemma FirstHit()
    ensures Record(Fresh(0), "site", PASS) == Store(0, map[Slot("site", 0) := HIT], map[], [], map["site" := 0])
  {
    var beats := map[Slot("site", 0) := HIT];
    assert Slot("site", 0) in BeatsOf(beats, "site");
    assert EnsuredEpochs(map[], beats, "site", map["site" := 0]);
    EnsuredEpochsUnique(map[], beats, "site", EnsureEpoch(map[], beats, "site"), map["site" := 0]);
  }

  lemma SecondHit()
    ensures Record(Store(60_000_000, map[Slot("site", 0) := HIT], map[], [], map["site" := 0]), "site", PASS) ==
            TwoHits(60_000_000)
  {
    EnsuredEpochsUnique(map["site" := 0], TwoHits(0).beats, "site",
                        EnsureEpoch(map["site" := 0], TwoHits(0).beats, "site"), map["site" := 0]);
  }

  const S1 := Store(0, map[Slot("site", 0) := HIT], map[], [], map["site" := 0])
  const S2 := Store(60_000_000, S1.beats, map[], [], S1.epochs)

  lemma FirstHitApplies(cfg: Settings, s0: Store, s1: Store, s2: Store)
    requires s0 == Fresh(0) && s1 == S1 && s2 == S2
    ensures Apply(cfg, s0, Check("site", PASS)) == s1 && Apply(cfg, s1, Tick(60_000_000)) == s2
  {
    FirstHit();
    ApplyCheck(cfg, s0);
    ApplyTick(cfg, s1, 60_000_000);
  }

  lemma SecondHitApplies(cfg: Settings, s2: Store, s3: Store, s4: Store)
    requires s2 == S2 && s3 == TwoHits(60_000_000) && s4 == TwoHits(WEEK + 60_000_000)
    ensures Apply(cfg, s2, Check("site", PASS)) == s3 && Apply(cfg, s3, Tick(WEEK)) == s4
  {
    SecondHit();
    ApplyCheck(cfg, s2);
    ApplyTick(cfg, s3, WEEK);
  }

  lemma ApplyTick(cfg: Settings, st: Store, elapsed: nat)
    ensures Apply(cfg, st, Tick(elapsed)) == Advance(st, elapsed)
  {
  }

  lemma HitSteps(cfg: Settings, s0: Store, s2: Store, s4: Store, rest: seq<Step>)
    requires s0 == Fresh(0) && s2 == S2 && s4 == TwoHits(WEEK + 60_000_000)
    ensures var later := [Check("site", PASS)] + ([Tick(WEEK)] + rest);
            var steps := [Check("site", PASS)] + ([Tick(60_000_000)] + later);
            Run(cfg, s0, steps) == Run(cfg, s4, rest) && ForwardRun(cfg, s0, steps) == ForwardRun(cfg, s4, rest)
  {
    var s1, s3 := S1, TwoHits(60_000_000);
    FirstHitApplies(cfg, s0, s1, s2);
    SecondHitApplies(cfg, s2, s3, s4);
    TwoSteps(cfg, s2, Check("site", PASS), s3, Tick(WEEK), s4, rest);
    TwoSteps(cfg, s0, Check("site", PASS), s1, Tick(60_000_000), s2, [Check("site", PASS)] + ([Tick(WEEK)] + rest));
  }

  /** The tables of `TwoHits` after the pruner has deleted the first beat. */
  ghost function OneHit(cfg: Settings): Store { Prune(TwoHits(WEEK + 60_000_000), cfg) }

  lemma TwoHitsPruned(cfg: Settings) returns (steps: seq<Step>)
    ensures ForwardRun(cfg, Fresh(0), steps) && Run(cfg, Fresh(0), steps) == OneHit(cfg)
    ensures Run(cfg, Fresh(0), WithoutPruning(steps)) == TwoHits(WEEK + 60_000_000)
  {
    var before := [Check("site", PASS)] + ([Tick(60_000_000)] + ([Check("site", PASS)] + ([Tick(WEEK)] + [])));
    steps := [Check("site", PASS)] + ([Tick(60_000_000)] +
      ([Check("site", PASS)] + ([Tick(WEEK)] + ([PruneOld] + []))));
    HitSteps(cfg, Fresh(0), S2, TwoHits(WEEK + 60_000_000), []);
    HitSteps(cfg, Fresh(0), S2, TwoHits(WEEK + 60_000_000), [PruneOld] + []);
    LastStep(cfg, TwoHits(WEEK + 60_000_000));
    Stays(cfg, TwoHits(WEEK + 60_000_000));
    Unpruned(Check("site", PASS), Tick(60_000_000), [Check("site", PASS)] + ([Tick(WEEK)] + ([PruneOld] + [])));
    Unpruned(Check("site", PASS), Tick(WEEK), [PruneOld] + []);
    assert WithoutPruning([PruneOld] + []) == [];
  }

  lemma LastStep(cfg: Settings, st: Store)
    ensures Run(cfg, st, [PruneOld] + []) == Prune(st, cfg) && ForwardRun(cfg, st, [PruneOld] + [])
  {
    Stays(cfg, Prune(st, cfg));
    assert ([PruneOld] + [])[1..] == [];
    assert Apply(cfg, st, PruneOld) == Prune(st, cfg);
  }

  lemma Unpruned(a: Step, b: Step, rest: seq<Step>)
    requires !a.PruneOld? && !b.PruneOld?
    ensures WithoutPruning([a] + ([b] + rest)) == [a] + ([b] + WithoutPruning(rest))
  {
    assert ([a] + ([b] + rest))[1..] == [b] + rest && ([b] + rest)[1..] == rest;
  }

  lemma OneHitTables(cfg: Settings)
    requires cfg.retentionDays == 7
    ensures OneHit(cfg).beats == map[Slot("site", 60_000_000) := HIT]
    ensures OldestRaw(OneHit(cfg).beats, "site") == Some(60_000_000)
  {
    var beats := OneHit(cfg).beats;
    assert beats == FreshBeats(TwoHits(WEEK + 60_000_000), cfg);
    assert Slot("site", 60_000_000) in BeatsOf(beats, "site");
  }

  lemma NoWindows(lo: Instant, hi: Instant)
    ensures ExcludedTime([], "site", lo, hi) == 0
  {
    assert (set t: Instant | lo <= t < hi && Excluded([], "site", t)) == {};
  }

  lemma OneHitScore(cfg: Settings)
    requires cfg == Settings(60_000_000, 7)
    ensures WindowUptime(OneHit(cfg), cfg, 0, "site") == UptimeResult(Some(1), WEEK, WEEK + 60_000_000)
  {
    var st := OneHit(cfg);
    OneHitTables(cfg);
    NoWindows(60_000_000, st.now);
    assert ScoredOk(st.beats, [], "site", 60_000_000, st.now) == {Slot("site", 60_000_000)};
    assert RawPart(st, cfg, "site", 60_000_000) == Totals(1, 10080, 0);
    assert RoundHalfEven(1 * 10000, 10080) == 1;
  }

  lemma TwoHitsScore(cfg: Settings)
    requires cfg == Settings(60_000_000, 7)
    ensures WindowUptime(TwoHits(WEEK + 60_000_000), cfg, 0, "site")
         == UptimeResult(Some(2), WEEK + 60_000_000, WEEK + 60_000_000)
  {
    var st := TwoHits(WEEK + 60_000_000);
    assert Slot("site", 0) in BeatsOf(st.beats, "site");
    assert OldestRaw(st.beats, "site") == Some(0);
    NoWindows(0, st.now);
    assert ScoredOk(st.beats, [], "site", 0, st.now) == {Slot("site", 0), Slot("site", 60_000_000)};
    assert RawPart(st, cfg, "site", 0) == Totals(2, 10081, 0);
    assert RoundHalfEven(2 * 10000, 10081) == 2;
  }

  /** MAIN: with the default settings, a run whose window since midnight reads 0.01 and lacks a minute of coverage
      where the never-pruned one reads 0.02 and is covered: the deleted beat's row bears the date of the oldest raw
      beat and is not read. */
  lemma FoldingDateIsNotRead(cfg: Settings) returns (steps: seq<Step>)
    requires cfg == Settings(60_000_000, 7)
    ensures ForwardRun(cfg, Fresh(0), steps)
    ensures WindowUptime(Run(cfg, Fresh(0), steps), cfg, 0, "site") == UptimeResult(Some(1), WEEK, WEEK + 60_000_000)
    ensures WindowUptime(Run(cfg, Fresh(0), WithoutPruning(steps)), cfg, 0, "site")
         == UptimeResult(Some(2), WEEK + 60_000_000, WEEK + 60_000_000)
  {
    steps := TwoHitsPruned(cfg);
    OneHitScore(cfg);
    TwoHitsScore(cfg);
  }
}
