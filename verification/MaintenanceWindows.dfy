/** Maintenance windows and the interval merge of `MaintenanceWindow.get_excluded_ranges`.

    Instants are whole microseconds (the resolution of the source's datetimes) in one
    fixed time zone.  A window is the half-open span [start, end). */
module MaintenanceWindows {
  import opened Common

  datatype Window = Window(key: Key, start: Instant, end: Instant, exclude: bool)

  datatype Range = Range(start: Instant, end: Instant)

  predicate Sane(windows: seq<Window>) {
    forall w <- windows :: w.start <= w.end
  }

  /** The instant lies inside an SLA-excluded window of the monitor. */
  predicate Excluded(windows: seq<Window>, key: Key, t: Instant) {
    exists w <- windows :: w.key == key && w.exclude && w.start <= t < w.end
  }

  /** How much of [lo, hi) is SLA-excluded: the exact size of the union of the windows. */
  ghost function ExcludedTime(windows: seq<Window>, key: Key, lo: Instant, hi: Instant): nat {
    |set t: Instant | lo <= t < hi && Excluded(windows, key, t)|
  }

  // ---- the query: filter, then order by start ----

  predicate Relevant(w: Window, key: Key, lo: Instant, hi: Instant) {
    w.key == key && w.exclude && w.start < hi && w.end > lo
  }

  function Matching(windows: seq<Window>, key: Key, lo: Instant, hi: Instant): (r: seq<Window>)
    ensures forall w :: w in r <==> w in windows && Relevant(w, key, lo, hi)
  {
    if windows == [] then []
    else
      var rest := Matching(windows[1..], key, lo, hi);
      if Relevant(windows[0], key, lo, hi) then [windows[0]] + rest else rest
  }

  predicate ByStart(windows: seq<Window>) {
    forall i, j :: 0 <= i < j < |windows| ==> windows[i].start <= windows[j].start
  }

  function InsertByStart(w: Window, sorted: seq<Window>): (r: seq<Window>)
    requires ByStart(sorted)
    ensures ByStart(r)
    ensures forall v :: v in r <==> v == w || v in sorted
  {
    if sorted == [] || w.start <= sorted[0].start then
      [w] + sorted
    else
      var rest := InsertByStart(w, sorted[1..]);
      assert forall v :: v in sorted ==> sorted[0].start <= v.start;
      assert forall v :: v in rest ==> v == w || v in sorted[1..];
      assert forall v :: v in rest ==> sorted[0].start <= v.start;
      assert forall i :: 0 <= i < |rest| ==> rest[i] in rest;
      [sorted[0]] + rest
  }

  function OrderByStart(windows: seq<Window>): (r: seq<Window>)
    ensures ByStart(r)
    ensures forall v :: v in r <==> v in windows
  {
    if windows == [] then [] else InsertByStart(windows[0], OrderByStart(windows[1..]))
  }

  // ---- canonical range lists ----

  predicate InRanges(ranges: seq<Range>, t: Instant) {
    exists r <- ranges :: r.start <= t < r.end
  }

  /** Sorted, strictly separated, inside [lo, hi]. */
  ghost predicate Canonical(ranges: seq<Range>, lo: Instant, hi: Instant) {
    && (forall i :: 0 <= i < |ranges| ==> lo <= ranges[i].start <= ranges[i].end <= hi)
    && (forall i, j :: 0 <= i < j < |ranges| ==> ranges[i].end < ranges[j].start)
  }

  /** Closed cover on a grid of half-instants: even points are instants, odd points lie strictly
      between two of them.  Touching ranges share a point; ranges one tick apart do not. */
  predicate Spans(r: Range, h: int) {
    2 * r.start <= h <= 2 * r.end
  }

  ghost predicate Covers(ranges: seq<Range>, h: int) {
    exists i :: 0 <= i < |ranges| && Spans(ranges[i], h)
  }

  function Clip(w: Window, lo: Instant, hi: Instant): Range {
    Range(if w.start < lo then lo else w.start, if w.end > hi then hi else w.end)
  }

  /** The half-grid points that some relevant window, clipped to the query range, covers. */
  ghost predicate Wanted(windows: seq<Window>, key: Key, lo: Instant, hi: Instant, h: int) {
    exists w :: w in windows && Relevant(w, key, lo, hi) && Spans(Clip(w, lo, hi), h)
  }

  ghost predicate IsMergeOf(ranges: seq<Range>, windows: seq<Window>, key: Key, lo: Instant, hi: Instant) {
    && Canonical(ranges, lo, hi)
    && (forall h :: Covers(ranges, h) <==> Wanted(windows, key, lo, hi, h))
  }

  /** `MaintenanceWindow.get_excluded_ranges`. */
  method GetExcludedRanges(windows: seq<Window>, key: Key, lo: Instant, hi: Instant) returns (merged: seq<Range>)
    requires Sane(windows) && lo <= hi
    ensures IsMergeOf(merged, windows, key, lo, hi)
  {
    var rows := OrderByStart(Matching(windows, key, lo, hi));
    merged := [];
    for n := 0 to |rows|
      invariant Canonical(merged, lo, hi)
      invariant forall h :: Covers(merged, h) <==> CoveredByFirst(rows, n, lo, hi, h)
      invariant merged != [] ==> forall i :: n <= i < |rows| ==>
          merged[|merged| - 1].start <= Clip(rows[i], lo, hi).start
    {
      assert rows[n] in rows && Relevant(rows[n], key, lo, hi);
      var c := Clip(rows[n], lo, hi);
      ghost var before := merged;
      if merged != [] && c.start <= merged[|merged| - 1].end {
        var last := merged[|merged| - 1];
        merged := merged[|merged| - 1 := Range(last.start, if c.end > last.end then c.end else last.end)];
        WidenLast(before, merged, c, lo, hi);
      } else {
        merged := merged + [c];
        AppendRange(before, c, lo, hi);
      }
      forall h ensures Covers(merged, h) <==> CoveredByFirst(rows, n + 1, lo, hi, h) {
        OneMoreRow(rows, n, lo, hi, h);
      }
    }
    forall h ensures Covers(merged, h) <==> Wanted(windows, key, lo, hi, h) {
      AllRowsWanted(rows, windows, key, lo, hi, h);
    }
  }

  ghost predicate CoveredByFirst(rows: seq<Window>, n: nat, lo: Instant, hi: Instant, h: int)
    requires n <= |rows|
  {
    exists i :: 0 <= i < n && Spans(Clip(rows[i], lo, hi), h)
  }

  lemma OneMoreRow(rows: seq<Window>, n: nat, lo: Instant, hi: Instant, h: int)
    requires n < |rows|
    ensures CoveredByFirst(rows, n + 1, lo, hi, h) <==>
            CoveredByFirst(rows, n, lo, hi, h) || Spans(Clip(rows[n], lo, hi), h)
  {
  }

  lemma AllRowsWanted(rows: seq<Window>, windows: seq<Window>, key: Key, lo: Instant, hi: Instant, h: int)
    requires forall v :: v in rows <==> v in Matching(windows, key, lo, hi)
    ensures CoveredByFirst(rows, |rows|, lo, hi, h) <==> Wanted(windows, key, lo, hi, h)
  {
    if i :| 0 <= i < |rows| && Spans(Clip(rows[i], lo, hi), h) {
      assert rows[i] in rows;
    }
    if w :| w in windows && Relevant(w, key, lo, hi) && Spans(Clip(w, lo, hi), h) {
      assert w in rows;
      var i :| 0 <= i < |rows| && rows[i] == w;
    }
  }

  /** A range that starts inside the last one widens it, covering exactly what both cover. */
  lemma WidenLast(before: seq<Range>, after: seq<Range>, c: Range, lo: Instant, hi: Instant)
    requires Canonical(before, lo, hi) && before != [] && lo <= c.start <= c.end <= hi
    requires before[|before| - 1].start <= c.start <= before[|before| - 1].end
    requires var last := before[|before| - 1];
             after == before[|before| - 1 := Range(last.start, if c.end > last.end then c.end else last.end)]
    ensures Canonical(after, lo, hi)
    ensures forall h :: Covers(after, h) <==> Covers(before, h) || Spans(c, h)
  {
    forall h ensures Covers(after, h) <==> Covers(before, h) || Spans(c, h) {
      if Spans(c, h) {
        assert Spans(after[|after| - 1], h);
      }
      if i :| 0 <= i < |before| && Spans(before[i], h) {
        assert Spans(after[i], h);
      }
      if i :| 0 <= i < |after| && Spans(after[i], h) {
        assert Spans(before[i], h) || Spans(c, h);
      }
    }
  }

  lemma AppendRange(before: seq<Range>, c: Range, lo: Instant, hi: Instant)
    requires Canonical(before, lo, hi) && lo <= c.start <= c.end <= hi
    requires before == [] || before[|before| - 1].end < c.start
    ensures Canonical(before + [c], lo, hi)
    ensures forall h :: Covers(before + [c], h) <==> Covers(before, h) || Spans(c, h)
  {
    var after := before + [c];
    forall h ensures Covers(after, h) <==> Covers(before, h) || Spans(c, h) {
      if Spans(c, h) {
        assert Spans(after[|before|], h);
      }
      if i :| 0 <= i < |before| && Spans(before[i], h) {
        assert Spans(after[i], h);
      }
    }
  }

  /** Canonical lists are determined by what they cover, so the merge does not depend on the order
      of the rows, on how ties on start are broken, or on how the windows overlap. */
  lemma {:induction false} MergeIsUnique(a: seq<Range>, b: seq<Range>, lo: Instant, hi: Instant)
    requires Canonical(a, lo, hi) && Canonical(b, lo, hi)
    requires forall h :: Covers(a, h) <==> Covers(b, h)
    ensures a == b
    decreases |a| + |b|
  {
    if a == [] {
      if b != [] {
        HeadCovered(b, lo, hi);
      }
    } else {
      HeadCovered(a, lo, hi);
      HeadsEqual(a, b, lo, hi);
      TailsCoverAlike(a, b, lo, hi);
      var x, y := a[1..], b[1..];
      MergeIsUnique(x, y, lo, hi);
      assert a == [a[0]] + x && b == [b[0]] + y;
    }
  }

  lemma HeadsEqual(a: seq<Range>, b: seq<Range>, lo: Instant, hi: Instant)
    requires Canonical(a, lo, hi) && Canonical(b, lo, hi) && a != [] && b != []
    requires forall h :: Covers(a, h) <==> Covers(b, h)
    ensures a[0] == b[0]
  {
    HeadCovered(a, lo, hi);
    HeadCovered(b, lo, hi);
    if a[0].end < b[0].end {
      FirstGap(a, b, lo, hi);
    } else if b[0].end < a[0].end {
      FirstGap(b, a, lo, hi);
    }
  }

  lemma TailsCoverAlike(a: seq<Range>, b: seq<Range>, lo: Instant, hi: Instant)
    requires Canonical(a, lo, hi) && Canonical(b, lo, hi) && a != [] && b != [] && a[0] == b[0]
    requires forall h :: Covers(a, h) <==> Covers(b, h)
    ensures Canonical(a[1..], lo, hi) && Canonical(b[1..], lo, hi)
    ensures forall h :: Covers(a[1..], h) <==> Covers(b[1..], h)
  {
    forall h ensures Covers(a[1..], h) <==> Covers(b[1..], h) {
      TailCovers(a, lo, hi, h);
      TailCovers(b, lo, hi, h);
    }
  }

  lemma HeadCovered(a: seq<Range>, lo: Instant, hi: Instant)
    requires Canonical(a, lo, hi) && a != []
    ensures Covers(a, 2 * a[0].start)
    ensures forall h :: Covers(a, h) ==> 2 * a[0].start <= h
  {
    assert Spans(a[0], 2 * a[0].start);
  }

  lemma FirstGap(a: seq<Range>, b: seq<Range>, lo: Instant, hi: Instant)
    requires Canonical(a, lo, hi) && a != [] && b != [] && a[0].start == b[0].start && a[0].end < b[0].end
    ensures exists h :: Covers(b, h) && !Covers(a, h)
  {
    var h := 2 * a[0].end + 1;
    assert Spans(b[0], h);
    assert !Covers(a, h);
  }

  lemma TailCovers(a: seq<Range>, lo: Instant, hi: Instant, h: int)
    requires Canonical(a, lo, hi) && a != []
    ensures Covers(a[1..], h) <==> Covers(a, h) && h > 2 * a[0].end
  {
    if i :| 0 <= i < |a[1..]| && Spans(a[1..][i], h) {
      assert Spans(a[i + 1], h);
    }
    if i :| 0 <= i < |a| && Spans(a[i], h) && h > 2 * a[0].end {
      assert Spans(a[1..][i - 1], h);
    }
  }

  /** An instant of the query range is in a merged range iff it is in some excluded window. */
  lemma MergeMembership(ranges: seq<Range>, windows: seq<Window>, key: Key, lo: Instant, hi: Instant, t: Instant)
    requires IsMergeOf(ranges, windows, key, lo, hi)
    ensures InRanges(ranges, t) <==> lo <= t < hi && Excluded(windows, key, t)
  {
    var h := 2 * t + 1;
    if InRanges(ranges, t) {
      var r :| r in ranges && r.start <= t < r.end;
      var i :| 0 <= i < |ranges| && ranges[i] == r;
      assert Spans(ranges[i], h);
      assert Wanted(windows, key, lo, hi, h);
    }
    if lo <= t < hi && Excluded(windows, key, t) {
      var w :| w in windows && w.key == key && w.exclude && w.start <= t < w.end;
      assert Spans(Clip(w, lo, hi), h);
      assert Covers(ranges, h);
      var i :| 0 <= i < |ranges| && Spans(ranges[i], h);
      assert ranges[i] in ranges;
    }
  }

  // ---- the sum of the merged lengths is the exact size of the union ----

  function TotalLength(ranges: seq<Range>): int {
    if ranges == [] then 0
    else TotalLength(ranges[..|ranges| - 1]) + (ranges[|ranges| - 1].end - ranges[|ranges| - 1].start)
  }

  ghost function Instants(lo: Instant, hi: Instant): (s: set<Instant>)
    ensures forall t :: t in s <==> lo <= t < hi
    ensures lo <= hi ==> |s| == hi - lo
    decreases hi - lo
  {
    if hi <= lo then {} else Instants(lo, hi - 1) + {hi - 1}
  }

  ghost function Enclosed(ranges: seq<Range>, lo: Instant, hi: Instant): set<Instant> {
    set t: Instant | lo <= t < hi && InRanges(ranges, t)
  }

  lemma {:induction false} TotalLengthIsMeasure(ranges: seq<Range>, lo: Instant, hi: Instant)
    requires Canonical(ranges, lo, hi)
    ensures TotalLength(ranges) == |Enclosed(ranges, lo, hi)|
  {
    if ranges == [] {
      assert Enclosed(ranges, lo, hi) == {};
    } else {
      var init, last := ranges[..|ranges| - 1], ranges[|ranges| - 1];
      TotalLengthIsMeasure(init, lo, hi);
      EnclosedPlusLast(init, last, lo, hi);
      assert ranges == init + [last];
    }
  }

  lemma EnclosedPlusLast(init: seq<Range>, last: Range, lo: Instant, hi: Instant)
    requires Canonical(init + [last], lo, hi)
    ensures |Enclosed(init + [last], lo, hi)| == |Enclosed(init, lo, hi)| + (last.end - last.start)
  {
    var all := init + [last];
    assert all[|init|] == last;
    var added := Instants(last.start, last.end);
    forall t ensures t in Enclosed(all, lo, hi) <==> t in Enclosed(init, lo, hi) || t in added {
      if t in added { assert last in all; }
    }
    forall t | t in Enclosed(init, lo, hi) ensures t !in added {
      var r :| r in init && r.start <= t < r.end;
      var i :| 0 <= i < |init| && init[i] == r;
      assert all[i] == r;
    }
    assert Enclosed(all, lo, hi) == Enclosed(init, lo, hi) + added;
    assert Enclosed(init, lo, hi) !! added;
  }

  lemma SumIsExcludedTime(ranges: seq<Range>, windows: seq<Window>, key: Key, lo: Instant, hi: Instant)
    requires IsMergeOf(ranges, windows, key, lo, hi)
    ensures TotalLength(ranges) == ExcludedTime(windows, key, lo, hi)
  {
    TotalLengthIsMeasure(ranges, lo, hi);
    forall t { MergeMembership(ranges, windows, key, lo, hi, t); }
    assert Enclosed(ranges, lo, hi) == (set t: Instant | lo <= t < hi && Excluded(windows, key, t));
  }

  /** `MaintenanceWindow.get_excluded_seconds`, in microseconds. */
  method GetExcludedTime(windows: seq<Window>, key: Key, lo: Instant, hi: Instant) returns (total: nat)
    requires Sane(windows) && lo <= hi
    ensures total == ExcludedTime(windows, key, lo, hi)
  {
    var ranges := GetExcludedRanges(windows, key, lo, hi);
    var sum := 0;
    for i := 0 to |ranges|
      invariant sum == TotalLength(ranges[..i])
    {
      assert ranges[..i + 1][..i] == ranges[..i];
      sum := sum + (ranges[i].end - ranges[i].start);
    }
    assert ranges[..|ranges|] == ranges;
    SumIsExcludedTime(ranges, windows, key, lo, hi);
    total := sum;
  }

  /** Splitting the query range anywhere loses and double-counts nothing. */
  lemma ExcludedTimeSplits(windows: seq<Window>, key: Key, lo: Instant, mid: Instant, hi: Instant)
    requires lo <= mid <= hi
    ensures ExcludedTime(windows, key, lo, hi) ==
            ExcludedTime(windows, key, lo, mid) + ExcludedTime(windows, key, mid, hi)
  {
    var left := set t: Instant | lo <= t < mid && Excluded(windows, key, t);
    var right := set t: Instant | mid <= t < hi && Excluded(windows, key, t);
    assert (set t: Instant | lo <= t < hi && Excluded(windows, key, t)) == left + right;
    assert left !! right;
  }

  lemma ExcludedTimeBounded(windows: seq<Window>, key: Key, lo: Instant, hi: Instant)
    requires lo <= hi
    ensures ExcludedTime(windows, key, lo, hi) <= hi - lo
  {
    SubsetSize((set t: Instant | lo <= t < hi && Excluded(windows, key, t)), Instants(lo, hi));
  }

  /** Two window tables that classify every instant before `t` alike measure every range
      that ends by `t` alike. */
  ghost predicate SameBefore(a: seq<Window>, b: seq<Window>, t: Instant) {
    forall key, u :: u < t ==> (Excluded(a, key, u) <==> Excluded(b, key, u))
  }

  lemma SameBeforeMeasure(a: seq<Window>, b: seq<Window>, key: Key, lo: Instant, hi: Instant)
    requires SameBefore(a, b, hi)
    ensures ExcludedTime(a, key, lo, hi) == ExcludedTime(b, key, lo, hi)
  {
    assert (set t: Instant | lo <= t < hi && Excluded(a, key, t))
        == (set t: Instant | lo <= t < hi && Excluded(b, key, t));
  }
}
