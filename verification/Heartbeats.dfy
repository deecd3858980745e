/** The heartbeat tables and, as a value, what each operation of `services.py` and `maintenance.py`
    does to them.  `HeartbeatStore` holds the same tables in an object and updates them in place. */
module Heartbeats {
  import opened Common
  import opened MaintenanceWindows

  /** One raw beat is keyed by monitor and minute: the table's uniqueness constraint. */
  datatype Slot = Slot(key: Key, at: Instant)

  datatype Beat = Beat(ok: bool, ms: nat, note: string, maintenance: bool)

  datatype DayKey = DayKey(key: Key, day: int)

  /** A daily summary row; `uptime` counts thousandths of a percent. */
  datatype Daily = Daily(ok: int, fail: int, maintenance: int, expected: int, uptime: int)

  datatype Store = Store(now: Instant,
                         beats: map<Slot, Beat>,
                         daily: map<DayKey, Daily>,
                         windows: seq<Window>,
                         epochs: map<Key, Instant>)

  /** `interval` is HEARTBEAT_EXPECTED_INTERVAL in microseconds. */
  datatype SettingsRaw = Settings(interval: int, retentionDays: int)
  type Settings = s: SettingsRaw | s.interval > 0 && s.retentionDays >= 1 witness Settings(60_000_000, 7)

  // ---- calendar arithmetic ----

  function DayStart(day: int): Instant { day * 86_400_000_000 }

  function DayEnd(day: int): Instant { day * 86_400_000_000 + 86_400_000_000 }

  function DayOf(t: Instant): int { t / 86_400_000_000 }

  function MinuteOf(t: Instant): Instant { t - t % 60_000_000 }

  lemma DayOfBounds(t: Instant, day: int)
    ensures DayOf(t) == day <==> DayStart(day) <= t < DayEnd(day)
  {
  }

  // ---- percentages: round half to even, as Python's round ----

  function RoundHalfEven(n: nat, d: nat): nat
    requires d > 0
  {
    var q, m := n / d, n % d;
    if 2 * m < d || (2 * m == d && q % 2 == 0) then q else q + 1
  }

  /** The rounded quotient is within half a unit of the exact one. */
  lemma RoundingError(n: nat, d: nat)
    requires d > 0
    ensures 2 * (RoundHalfEven(n, d) * d) <= 2 * n + d
    ensures 2 * n <= 2 * (RoundHalfEven(n, d) * d) + d
  {
    var q, m := n / d, n % d;
    Quotient(n, d);
    NextMultiple(q, d);
  }

  lemma Quotient(n: nat, d: nat)
    requires d > 0
    ensures n == (n / d) * d + n % d
  {
  }

  lemma NextMultiple(q: int, d: int)
    ensures (q + 1) * d == q * d + d
  {
  }

  /** The whole number nearest to n / d, of two the even one. */
  predicate Nearest(v: int, n: int, d: int) {
    && 2 * n - d <= 2 * (v * d) <= 2 * n + d
    && (2 * (v * d) == 2 * n - d || 2 * (v * d) == 2 * n + d ==> v % 2 == 0)
  }

  lemma RoundingIsNearest(n: nat, d: nat)
    requires d > 0
    ensures Nearest(RoundHalfEven(n, d), n, d)
  {
    RoundingError(n, d);
    Quotient(n, d);
    NextMultiple(n / d, d);
  }

  /** There is only one. */
  lemma NearestIsUnique(v: int, w: int, n: int, d: int)
    requires d > 0 && Nearest(v, n, d) && Nearest(w, n, d)
    ensures v == w
  {
    Apart(v, w, d);
    Apart(w, v, d);
  }

  lemma Apart(v: int, w: int, d: int)
    requires d > 0
    ensures v < w ==> v * d + d <= w * d
    ensures v < w && v % 2 == w % 2 ==> v * d + 2 * d <= w * d
  {
    NextMultiple(v, d);
    NextMultiple(v + 1, d);
    if v < w { MoreMultiples(v + 1, w, d); }
    if v < w && v % 2 == w % 2 { MoreMultiples(v + 2, w, d); }
  }


  /** `min(round(ok / denominator * 100, digits), 100)` counted in units of 1/scale percent. */
  function Percent(ok: nat, denominator: nat, scale: nat): (p: nat)
    requires denominator > 0
    ensures p <= 100 * scale
  {
    Min(RoundHalfEven(ok * (100 * scale), denominator), 100 * scale)
  }

  /** A share of the denominator is shown as the nearest of `100 * scale` units; more than all of it as all of it. */
  lemma PercentIsNearest(ok: nat, denominator: nat, scale: nat)
    requires denominator > 0
    ensures ok <= denominator ==> Nearest(Percent(ok, denominator, scale), ok * (100 * scale), denominator)
    ensures ok >= denominator ==> Percent(ok, denominator, scale) == 100 * scale
  {
    var n := ok * (100 * scale);
    RoundingIsNearest(n, denominator);
    if ok <= denominator {
      MoreMultiples(ok, denominator, 100 * scale);
      RoundedBetween(n, denominator, 0, 100 * scale);
    }
    if ok >= denominator {
      MoreMultiples(denominator, ok, 100 * scale);
      RoundedAtLeast(n, denominator, 100 * scale);
    }
  }

  lemma RoundedAtLeast(n: nat, d: nat, lo: nat)
    requires d > 0 && lo * d <= n
    ensures lo <= RoundHalfEven(n, d)
  {
    RoundingError(n, d);
    var r := RoundHalfEven(n, d);
    if r < lo { MoreMultiples(r + 1, lo, d); NextMultiple(r, d); }
  }

  // ---- beats by monitor and span ----

  ghost function BeatsIn(beats: map<Slot, Beat>, key: Key, lo: Instant, hi: Instant): set<Slot> {
    set s | s in beats && s.key == key && lo <= s.at < hi
  }

  /** The beats the SLA counts: those outside every excluded window. */
  ghost function Scored(beats: map<Slot, Beat>, windows: seq<Window>, key: Key, lo: Instant, hi: Instant): set<Slot> {
    set s | s in beats && s.key == key && lo <= s.at < hi && !Excluded(windows, key, s.at)
  }

  ghost function ScoredOk(beats: map<Slot, Beat>, windows: seq<Window>, key: Key, lo: Instant, hi: Instant): set<Slot> {
    set s | s in Scored(beats, windows, key, lo, hi) && beats[s].ok
  }

  ghost function ScoredFail(beats: map<Slot, Beat>, windows: seq<Window>,
                            key: Key, lo: Instant, hi: Instant): set<Slot> {
    set s | s in Scored(beats, windows, key, lo, hi) && !beats[s].ok
  }

  ghost function Masked(beats: map<Slot, Beat>, windows: seq<Window>, key: Key, lo: Instant, hi: Instant): set<Slot> {
    set s | s in beats && s.key == key && lo <= s.at < hi && Excluded(windows, key, s.at)
  }

  lemma ScoredSplits(beats: map<Slot, Beat>, windows: seq<Window>, key: Key, lo: Instant, hi: Instant)
    ensures |Scored(beats, windows, key, lo, hi)|
         == |ScoredOk(beats, windows, key, lo, hi)| + |ScoredFail(beats, windows, key, lo, hi)|
  {
    var ok, fail := ScoredOk(beats, windows, key, lo, hi), ScoredFail(beats, windows, key, lo, hi);
    assert Scored(beats, windows, key, lo, hi) == ok + fail;
    assert ok !! fail;
  }

  // ---- expected checks ----

  function SpanStart(epoch: Option<Instant>, day: int): Instant {
    match epoch
    case Some(e) => Max(DayStart(day), e)
    case None => DayStart(day)
  }

  function EpochOf(epochs: map<Key, Instant>, key: Key): Option<Instant> {
    if key in epochs then Some(epochs[key]) else None
  }

  /** `expected_intervals_for_day`: whole intervals in the monitored, non-excluded part of the day. */
  ghost function ExpectedForDay(windows: seq<Window>, epoch: Option<Instant>,
                                now: Instant, interval: int, key: Key, day: int): (n: nat)
    requires interval > 0
  {
    var start, end := SpanStart(epoch, day), Min(DayEnd(day), now);
    if end <= start then 0
    else
      ExcludedTimeBounded(windows, key, start, end);
      (end - start - ExcludedTime(windows, key, start, end)) / interval
  }

  // ---- folding ----

  /** A row that takes in one more batch of beats. */
  function FoldRow(prior: Daily, ok: nat, fail: nat, masked: nat, expected: nat): Daily {
    var ok', fail' := prior.ok + ok, prior.fail + fail;
    var denominator := Max(ok' + fail', expected);
    Daily(ok', fail', prior.maintenance + masked, expected,
          if ok' >= 0 && denominator > 0 then Percent(ok', denominator, 1000) else 0)
  }

  // ---- the running mean of response times ----

  ghost function SumMs(batch: map<Slot, Beat>, slots: set<Slot>): nat
    requires slots <= batch.Keys
  {
    if slots == {} then 0
    else
      var s :| s in slots;
      batch[s].ms + SumMs(batch, slots - {s})
  }

  lemma {:induction false} SumMsTakesOut(batch: map<Slot, Beat>, slots: set<Slot>, s: Slot)
    requires s in slots && slots <= batch.Keys
    ensures SumMs(batch, slots) == batch[s].ms + SumMs(batch, slots - {s})
  {
    var first :| first in slots && SumMs(batch, slots) == batch[first].ms + SumMs(batch, slots - {first});
    if first != s {
      SumMsTakesOut(batch, slots - {first}, s);
      SumMsTakesOut(batch, slots - {s}, first);
      assert slots - {first} - {s} == slots - {s} - {first};
    }
  }

  ghost predicate MsBetween(batch: map<Slot, Beat>, slots: set<Slot>, lo: nat, hi: nat)
    requires slots <= batch.Keys
  {
    forall s :: s in slots ==> lo <= batch[s].ms <= hi
  }

  lemma {:induction false} SumMsBetween(batch: map<Slot, Beat>, slots: set<Slot>, lo: nat, hi: nat)
    requires slots <= batch.Keys && MsBetween(batch, slots, lo, hi)
    ensures |slots| * lo <= SumMs(batch, slots) <= |slots| * hi
  {
    if slots != {} {
      var s :| s in slots;
      var rest := slots - {s};
      SumMsTakesOut(batch, slots, s);
      SumMsBetween(batch, rest, lo, hi);
      NextMultiple(|rest|, lo);
      NextMultiple(|rest|, hi);
      assert |slots| == |rest| + 1;
    }
  }

  /** A row's mean after a batch: the old mean weighs the checks it stands for, the mean of the whole batch,
      excluded beats included, weighs the batch's scored checks. */
  function FoldAverage(average: nat, prior: int, sum: nat, total: nat, scored: nat): nat {
    if prior < 0 || total == 0 || prior + scored == 0 then average
    else RoundHalfEven(average * prior * total + sum * scored, (prior + scored) * total)
  }

  lemma RoundedBetween(n: nat, d: nat, lo: nat, hi: nat)
    requires d > 0 && lo * d <= n <= hi * d
    ensures lo <= RoundHalfEven(n, d) <= hi
  {
    var r := RoundHalfEven(n, d);
    RoundingError(n, d);
    if r > hi { MoreMultiples(hi + 1, r, d); NextMultiple(hi, d); }
    if r < lo { MoreMultiples(r + 1, lo, d); NextMultiple(r, d); }
  }

  lemma MoreMultiples(x: int, y: int, d: nat)
    requires x <= y
    ensures x * d <= y * d
  {
  }

  lemma TimesTimes(a: int, b: int, c: int)
    ensures a * b * c == a * (b * c)
  {
  }

  lemma TimesSum(c: int, x: int, y: int)
    ensures c * (x + y) == c * x + c * y
  {
  }

  lemma TimesSwap(c: int, scored: int, total: int)
    ensures c * (scored * total) == (total * c) * scored
  {
  }

  lemma SumTimes(x: int, y: int, c: int)
    ensures (x + y) * c == x * c + y * c
  {
  }

  /** `c` times the whole weight, split between the old checks and the new. */
  lemma Spread(c: int, prior: int, scored: int, total: int)
    ensures c * ((prior + scored) * total) == c * (prior * total) + (total * c) * scored
  {
    SumTimes(prior, scored, total);
    TimesSum(c, prior * total, scored * total);
    TimesSwap(c, scored, total);
  }

  lemma WeightedBetween(average: nat, prior: nat, sum: nat, total: nat, scored: nat, lo: nat, hi: nat)
    requires lo <= average <= hi && total * lo <= sum <= total * hi
    ensures lo * ((prior + scored) * total) <= average * prior * total + sum * scored <= hi * ((prior + scored) * total)
  {
    TimesTimes(average, prior, total);
    MoreMultiples(0, prior, total);
    MoreMultiples(lo, average, prior * total);
    MoreMultiples(average, hi, prior * total);
    MoreMultiples(total * lo, sum, scored);
    MoreMultiples(sum, total * hi, scored);
    Spread(lo, prior, scored, total);
    Spread(hi, prior, scored, total);
  }

  lemma NothingWeighs(average: nat, sum: nat, total: nat, scored: nat, lo: nat, hi: nat)
    requires total * lo <= sum <= total * hi
    ensures lo * ((0 + scored) * total) <= average * 0 * total + sum * scored <= hi * ((0 + scored) * total)
  {
    MoreMultiples(total * lo, sum, scored);
    MoreMultiples(sum, total * hi, scored);
    Spread(lo, 0, scored, total);
    Spread(hi, 0, scored, total);
  }

  lemma Positive(x: nat, y: nat)
    requires x > 0 && y > 0
    ensures x * y > 0
  {
  }

  /** A mean that stands for any checks stays within the bounds of the response times it was made from. */
  lemma AverageStaysBetween(average: nat, prior: nat, sum: nat, total: nat, scored: nat, lo: nat, hi: nat)
    requires prior > 0 ==> lo <= average <= hi
    requires total * lo <= sum <= total * hi && total > 0 && prior + scored > 0
    ensures lo <= FoldAverage(average, prior, sum, total, scored) <= hi
  {
    Positive(prior + scored, total);
    if prior > 0 {
      WeightedBetween(average, prior, sum, total, scored, lo, hi);
    } else {
      NothingWeighs(average, sum, total, scored, lo, hi);
    }
    RoundedBetween(average * prior * total + sum * scored, (prior + scored) * total, lo, hi);
  }

  const EMPTY_ROW := Daily(0, 0, 0, 0, 0)

  function PriorRow(daily: map<DayKey, Daily>, d: DayKey): Daily {
    if d in daily then daily[d] else EMPTY_ROW
  }

  function DaysTouched(beats: map<Slot, Beat>): set<DayKey> {
    set s | s in beats :: DayKey(s.key, DayOf(s.at))
  }

  ghost function FoldedRow(prior: Daily, batch: map<Slot, Beat>, windows: seq<Window>,
                           epochs: map<Key, Instant>, now: Instant, interval: int, d: DayKey): Daily
    requires interval > 0
  {
    FoldRow(prior,
            |ScoredOk(batch, windows, d.key, DayStart(d.day), DayEnd(d.day))|,
            |ScoredFail(batch, windows, d.key, DayStart(d.day), DayEnd(d.day))|,
            |Masked(batch, windows, d.key, DayStart(d.day), DayEnd(d.day))|,
            ExpectedForDay(windows, EpochOf(epochs, d.key), now, interval, d.key, d.day))
  }

  /** What each touched day's row becomes. */
  ghost function Folder(daily: map<DayKey, Daily>, batch: map<Slot, Beat>, windows: seq<Window>,
                        epochs: map<Key, Instant>, now: Instant, interval: int): DayKey -> Daily
    requires interval > 0
  {
    (d: DayKey) => FoldedRow(PriorRow(daily, d), batch, windows, epochs, now, interval, d)
  }

  ghost function Patched(daily: map<DayKey, Daily>, days: set<DayKey>, rows: DayKey -> Daily): map<DayKey, Daily> {
    map d | d in daily.Keys + days :: if d in days then rows(d) else daily[d]
  }

  lemma PatchOneMore(daily: map<DayKey, Daily>, days: set<DayKey>, todo: set<DayKey>, rows: DayKey -> Daily, d: DayKey)
    requires d in todo && todo <= days
    ensures Patched(daily, days - (todo - {d}), rows) == Patched(daily, days - todo, rows)[d := rows(d)]
    ensures PriorRow(Patched(daily, days - todo, rows), d) == PriorRow(daily, d)
  {
    assert days - (todo - {d}) == (days - todo) + {d};
    assert Patched(daily, days - (todo - {d}), rows).Keys == Patched(daily, days - todo, rows)[d := rows(d)].Keys;
  }

  lemma PatchEnds(daily: map<DayKey, Daily>, days: set<DayKey>, rows: DayKey -> Daily)
    ensures Patched(daily, days - days, rows) == daily
    ensures Patched(daily, days - {}, rows) == Patched(daily, days, rows)
  {
    assert days - {} == days;
  }

  /** `_write_daily_summaries`: each touched row accumulates the batch; the others stay. */
  ghost function Summarized(daily: map<DayKey, Daily>, batch: map<Slot, Beat>, windows: seq<Window>,
                            epochs: map<Key, Instant>, now: Instant, interval: int): map<DayKey, Daily>
    requires interval > 0
  {
    Patched(daily, DaysTouched(batch), Folder(daily, batch, windows, epochs, now, interval))
  }

  function Cutoff(st: Store, cfg: Settings): Instant { st.now - cfg.retentionDays * 86_400_000_000 }

  function OldBeats(st: Store, cfg: Settings): map<Slot, Beat> {
    map s | s in st.beats && s.at < Cutoff(st, cfg) :: st.beats[s]
  }

  function FreshBeats(st: Store, cfg: Settings): map<Slot, Beat> {
    map s | s in st.beats && s.at >= Cutoff(st, cfg) :: st.beats[s]
  }

  /** `prune_old_heartbeats`. */
  ghost function Prune(st: Store, cfg: Settings): Store {
    st.(beats := FreshBeats(st, cfg),
        daily := Summarized(st.daily, OldBeats(st, cfg), st.windows, st.epochs, st.now, cfg.interval))
  }

  lemma PruneNothing(st: Store, cfg: Settings)
    requires OldBeats(st, cfg) == map[]
    ensures Prune(st, cfg) == st
  {
    forall s | s in st.beats ensures s.at >= Cutoff(st, cfg) {
      assert s !in OldBeats(st, cfg);
    }
    assert FreshBeats(st, cfg) == st.beats;
    assert DaysTouched(OldBeats(st, cfg)) == {};
    assert Summarized(st.daily, map[], st.windows, st.epochs, st.now, cfg.interval) == st.daily;
  }

  // ---- recording ----

  datatype Outcome = Checked(ok: bool, ms: nat, note: string) | Raised(message: string)

  function Clipped(s: string): string { if |s| <= 255 then s else s[..255] }

  predicate InMaintenance(windows: seq<Window>, key: Key, t: Instant) {
    exists w <- windows :: w.key == key && w.start <= t < w.end
  }

  function BeatFor(outcome: Outcome, maintenance: bool): Beat {
    match outcome
    case Checked(ok, ms, note) => Beat(ok, ms, if ok then "" else Clipped(note), maintenance)
    case Raised(message) => Beat(false, 0, Clipped(message), maintenance)
  }

  ghost predicate IsOldest(beats: map<Slot, Beat>, key: Key, t: Instant) {
    Slot(key, t) in beats && forall s :: s in beats && s.key == key ==> t <= s.at
  }

  /** `HeartbeatEpoch.ensure_epoch`: a missing epoch row starts at the oldest surviving beat. */
  ghost predicate EnsuredEpochs(epochs: map<Key, Instant>, beats: map<Slot, Beat>,
                                key: Key, epochs': map<Key, Instant>) {
    if key in epochs || BeatsOf(beats, key) == {} then epochs' == epochs
    else key in epochs' && IsOldest(beats, key, epochs'[key]) && epochs' == epochs[key := epochs'[key]]
  }

  function BeatsOf(beats: map<Slot, Beat>, key: Key): set<Slot> {
    set s | s in beats && s.key == key
  }

  lemma {:induction false} Oldest(slots: set<Slot>) returns (o: Slot)
    requires slots != {}
    ensures o in slots && forall s :: s in slots ==> o.at <= s.at
  {
    o :| o in slots;
    var rest := slots - {o};
    if rest == {} {
      assert slots == {o};
    } else {
      var r := Oldest(rest);
      assert forall s :: s in slots ==> s == o || s in rest;
      if r.at < o.at { o := r; }
    }
  }

  lemma EpochsExist(epochs: map<Key, Instant>, beats: map<Slot, Beat>, key: Key)
    ensures exists epochs' :: EnsuredEpochs(epochs, beats, key, epochs')
  {
    if key in epochs || BeatsOf(beats, key) == {} {
      assert EnsuredEpochs(epochs, beats, key, epochs);
    } else {
      var o := Oldest(BeatsOf(beats, key));
      assert o == Slot(key, o.at);
      assert forall s :: s in beats && s.key == key ==> s in BeatsOf(beats, key);
      assert EnsuredEpochs(epochs, beats, key, epochs[key := o.at]);
    }
  }

  ghost function EnsureEpoch(epochs: map<Key, Instant>, beats: map<Slot, Beat>, key: Key): (r: map<Key, Instant>)
    ensures EnsuredEpochs(epochs, beats, key, r)
  {
    EpochsExist(epochs, beats, key);
    var epochs' :| EnsuredEpochs(epochs, beats, key, epochs');
    epochs'
  }

  lemma EnsuredEpochsUnique(epochs: map<Key, Instant>, beats: map<Slot, Beat>,
                            key: Key, a: map<Key, Instant>, b: map<Key, Instant>)
    requires EnsuredEpochs(epochs, beats, key, a) && EnsuredEpochs(epochs, beats, key, b)
    ensures a == b
  {
  }

  /** The recording half of `run_monitor_check`. */
  ghost function Record(st: Store, key: Key, outcome: Outcome): Store {
    var minute := MinuteOf(st.now);
    var beats := st.beats[Slot(key, minute) := BeatFor(outcome, InMaintenance(st.windows, key, minute))];
    st.(beats := beats, epochs := EnsureEpoch(st.epochs, beats, key))
  }

  // ---- maintenance commands ----

  /** `open_window`; a window that does not end after it starts is refused. */
  function OpenWindow(st: Store, key: Key, start: Instant, end: Instant, exclude: bool): Store {
    if end <= start then st else st.(windows := st.windows + [Window(key, start, end, exclude)])
  }

  /** `open_window_for`; a non-positive length is refused. */
  function OpenWindowFor(st: Store, key: Key, minutes: int, exclude: bool): Store {
    if minutes <= 0 then st else OpenWindow(st, key, st.now, st.now + minutes * 60_000_000, exclude)
  }

  predicate ActiveAt(w: Window, key: Key, moment: Instant) {
    w.key == key && w.start <= moment < w.end
  }

  function Ended(w: Window, key: Key, moment: Instant): Window {
    if ActiveAt(w, key, moment) then w.(end := moment) else w
  }

  predicate Dropped(w: Window, key: Key, moment: Instant, deleteFuture: bool) {
    deleteFuture && w.key == key && w.start > moment
  }

  function Closed(windows: seq<Window>, key: Key, moment: Instant, deleteFuture: bool): seq<Window> {
    if windows == [] then []
    else
      var init, last := windows[..|windows| - 1], windows[|windows| - 1];
      var rest := Closed(init, key, moment, deleteFuture);
      if Dropped(last, key, moment, deleteFuture) then rest else rest + [Ended(last, key, moment)]
  }

  function ActiveCount(windows: seq<Window>, key: Key, moment: Instant): nat {
    if windows == [] then 0
    else ActiveCount(windows[..|windows| - 1], key, moment) + if ActiveAt(windows[|windows| - 1], key, moment) then 1
      else 0
  }

  /** `close_windows`. */
  function CloseWindows(st: Store, key: Key, deleteFuture: bool): Store {
    st.(windows := Closed(st.windows, key, st.now, deleteFuture))
  }

  lemma {:induction false} ClosedMembers(windows: seq<Window>, key: Key, moment: Instant, deleteFuture: bool, v: Window)
    ensures v in Closed(windows, key, moment, deleteFuture) <==>
            exists w :: w in windows && !Dropped(w, key, moment, deleteFuture) && v == Ended(w, key, moment)
  {
    if windows != [] {
      var init, last := windows[..|windows| - 1], windows[|windows| - 1];
      assert windows == init + [last];
      ClosedMembers(init, key, moment, deleteFuture, v);
    }
  }

  /** After closing, the monitor has no active window, nothing before the moment changed its
      classification, other monitors kept theirs and this one its past ones; with `deleteFuture` nothing is
      scheduled, without it everything that was still is. */
  lemma CloseEndsEverythingActive(windows: seq<Window>, key: Key, moment: Instant, deleteFuture: bool)
    requires Sane(windows)
    ensures var after := Closed(windows, key, moment, deleteFuture);
            && Sane(after)
            && SameBefore(windows, after, moment)
            && (forall w :: w in after ==> !ActiveAt(w, key, moment))
            && (deleteFuture ==> forall w :: w in after && w.key == key ==> w.start <= moment)
            && (forall w: Window :: w.key != key ==> (w in after <==> w in windows))
            && (forall w :: w in windows && w.end <= moment ==> w in after)
            && (forall w :: w in windows && w.key == key && w.start <= moment < w.end ==>
                  Window(key, w.start, moment, w.exclude) in after)
            && (!deleteFuture ==> forall w :: w in windows && w.key == key && moment < w.start ==> w in after)
            && (forall v :: v in after && v.key == key ==>
                  exists w :: w in windows && w.key == key && w.start == v.start && w.exclude == v.exclude
                              && v.end == if w.start <= moment < w.end then moment else w.end)
  {
    var after := Closed(windows, key, moment, deleteFuture);
    forall v { ClosedMembers(windows, key, moment, deleteFuture, v); }
    forall w | w in windows && !Dropped(w, key, moment, deleteFuture) ensures Ended(w, key, moment) in after { }
    forall k, u | u < moment ensures Excluded(windows, k, u) <==> Excluded(after, k, u) {
      if Excluded(windows, k, u) {
        var w :| w in windows && w.key == k && w.exclude && w.start <= u < w.end;
        assert Ended(w, key, moment) in after;
      }
      if Excluded(after, k, u) {
        var v :| v in after && v.key == k && v.exclude && v.start <= u < v.end;
        var w :| w in windows && !Dropped(w, key, moment, deleteFuture) && v == Ended(w, key, moment);
      }
    }
  }

  /** A window opened for some minutes puts the monitor in maintenance from now until exactly then. */
  lemma OpenedFor(st: Store, key: Key, minutes: int, exclude: bool, k: Key, t: Instant)
    ensures var after := OpenWindowFor(st, key, minutes, exclude).windows;
            && (InMaintenance(after, k, t) <==>
                  InMaintenance(st.windows, k, t) || (k == key && 0 <= t - st.now < minutes * 60_000_000))
            && (Excluded(after, k, t) <==>
                  Excluded(st.windows, k, t) || (exclude && k == key && 0 <= t - st.now < minutes * 60_000_000))
  {
    if minutes > 0 {
      OpenedFromTo(st, key, st.now, st.now + minutes * 60_000_000, exclude, k, t);
    }
  }

  lemma OpenedFromTo(st: Store, key: Key, start: Instant, end: Instant, exclude: bool, k: Key, t: Instant)
    ensures var after := OpenWindow(st, key, start, end, exclude).windows;
            && (InMaintenance(after, k, t) <==> InMaintenance(st.windows, k, t) || (k == key && start <= t < end))
            && (Excluded(after, k, t) <==> Excluded(st.windows, k, t) || (exclude && k == key && start <= t < end))
  {
    if start < end {
      var w := Window(key, start, end, exclude);
      var after := st.windows + [w];
      assert w in after;
      forall v ensures v in after <==> v in st.windows || v == w { }
    }
  }
}
