/** Collapsing failed beats into incidents, one per maximal run. */
module Incidents {
  import opened Common

  /** A failed beat. */
  datatype Fail = Fail(key: Key, at: Instant, note: string)

  datatype Incident = Incident(key: Key, started: Instant, ended: Instant, note: string, beats: nat)

  const GAP := 300_000_000  // five minutes, in microseconds

  // ---- the query's order ----

  /** `ORDER BY monitor_key, timestamp` over a table with one beat per monitor and minute: each monitor's
      beats are contiguous and strictly increasing. */
  predicate Ordered(fails: seq<Fail>) {
    && (forall i, j :: 0 <= i < j < |fails| && fails[i].key == fails[j].key ==> fails[i].at < fails[j].at)
    && (forall i, j, k :: 0 <= i < j < k < |fails| && fails[i].key == fails[k].key ==> fails[j].key == fails[i].key)
  }

  /** Beat `i` continues the incident of the beat before it. */
  predicate Linked(fails: seq<Fail>, i: nat)
    requires 0 < i < |fails|
  {
    fails[i].key == fails[i - 1].key && fails[i].at - fails[i - 1].at <= GAP
  }

  // ---- runs ----

  /** A maximal stretch of linked beats among the first `n`. */
  ghost predicate IsRun(fails: seq<Fail>, from: nat, until: nat, n: nat)
    requires n <= |fails|
  {
    && from < until <= n
    && (forall i :: from < i < until ==> Linked(fails, i))
    && (from > 0 ==> !Linked(fails, from))
    && (until < n ==> !Linked(fails, until))
  }

  /** The last non-empty note of a run, or the stock text when the run opened without one. */
  function RunNote(fails: seq<Fail>, from: nat, until: nat): string
    requires from < until <= |fails|
  {
    var last := fails[until - 1].note;
    if last != "" then last
    else if from + 1 == until then "Check failed"
    else RunNote(fails, from, until - 1)
  }

  ghost predicate Summarizes(inc: Incident, fails: seq<Fail>, from: nat, until: nat)
    requires from < until <= |fails|
  {
    && inc.key == fails[from].key && inc.started == fails[from].at
    && inc.ended == fails[until - 1].at && inc.beats == until - from
    && inc.note == RunNote(fails, from, until)
  }

  ghost predicate IsIncident(inc: Incident, fails: seq<Fail>, from: nat, until: nat, n: nat)
    requires n <= |fails|
  {
    IsRun(fails, from, until, n) && Summarizes(inc, fails, from, until)
  }

  /** The first `n` beats, cut into maximal runs at 0 = cuts[0] < ... < cuts[k] = n, one incident a run. */
  ghost predicate IsCollapse(fails: seq<Fail>, incidents: seq<Incident>, cuts: seq<nat>, n: nat)
    requires n <= |fails|
  {
    && |cuts| == |incidents| + 1 && cuts[0] == 0 && cuts[|incidents|] == n
    && (forall i, j :: 0 <= i < j < |cuts| ==> cuts[i] < cuts[j])
    && (forall k :: 0 <= k < |incidents| ==> IsIncident(incidents[k], fails, cuts[k], cuts[k + 1], n))
  }

  ghost predicate Collapsed(fails: seq<Fail>, incidents: seq<Incident>) {
    exists cuts :: IsCollapse(fails, incidents, cuts, |fails|)
  }

  /** The grouping loop of `recent_incidents`. */
  method Collapse(fails: seq<Fail>) returns (incidents: seq<Incident>)
    ensures Collapsed(fails, incidents)
  {
    incidents := [];
    ghost var cuts: seq<nat> := [0];
    for n := 0 to |fails|
      invariant IsCollapse(fails, incidents, cuts, n)
    {
      var beat := fails[n];
      if |incidents| > 0 { LastRun(fails, incidents, cuts, n); }
      if |incidents| > 0 && beat.key == incidents[|incidents| - 1].key &&
        beat.at - incidents[|incidents| - 1].ended <= GAP {
        var current := incidents[|incidents| - 1];
        var note := if beat.note != "" then beat.note else current.note;
        current := current.(ended := beat.at, beats := current.beats + 1, note := note);
        RunGrows(fails, incidents, cuts, n, current);
        incidents := incidents[|incidents| - 1 := current];
        cuts := cuts[|cuts| - 1 := n + 1];
      } else {
        var current := Incident(beat.key, beat.at, beat.at, if beat.note != "" then beat.note else "Check failed", 1);
        RunOpens(fails, incidents, cuts, n, current);
        incidents := incidents + [current];
        cuts := cuts + [n + 1];
      }
    }
  }

  lemma {:induction false} SameKeyInRun(fails: seq<Fail>, from: nat, until: nat, i: nat)
    requires until <= |fails| && from <= i < until
    requires forall j :: from < j < until ==> Linked(fails, j)
    ensures fails[i].key == fails[from].key
    decreases i
  {
    if i > from {
      assert Linked(fails, i);
      SameKeyInRun(fails, from, until, i - 1);
    }
  }

  /** The last incident ends with the beat just before `n` and is of its monitor. */
  lemma LastRun(fails: seq<Fail>, incidents: seq<Incident>, cuts: seq<nat>, n: nat)
    requires n <= |fails| && IsCollapse(fails, incidents, cuts, n) && |incidents| > 0
    ensures n > 0 && incidents[|incidents| - 1].ended == fails[n - 1].at
    ensures incidents[|incidents| - 1].key == fails[n - 1].key
  {
    var k := |incidents| - 1;
    assert IsIncident(incidents[k], fails, cuts[k], cuts[k + 1], n);
    SameKeyInRun(fails, cuts[k], n, n - 1);
  }

  lemma RunGrows(fails: seq<Fail>, incidents: seq<Incident>, cuts: seq<nat>, n: nat, inc: Incident)
    requires n < |fails| && IsCollapse(fails, incidents, cuts, n) && |incidents| > 0
    requires n > 0 && Linked(fails, n)
    requires Summarizes(inc, fails, cuts[|incidents| - 1], n + 1)
    ensures IsCollapse(fails, incidents[|incidents| - 1 := inc], cuts[|incidents| := n + 1], n + 1)
  {
    var k := |incidents| - 1;
    var after, grown := cuts[k + 1 := n + 1], incidents[k := inc];
    assert IsIncident(incidents[k], fails, cuts[k], cuts[k + 1], n);
    forall j | 0 <= j < |grown| ensures IsIncident(grown[j], fails, after[j], after[j + 1], n + 1) {
      assert IsIncident(incidents[j], fails, cuts[j], cuts[j + 1], n);
      if j < k { assert cuts[j + 1] < cuts[k + 1]; }
    }
  }

  lemma RunOpens(fails: seq<Fail>, incidents: seq<Incident>, cuts: seq<nat>, n: nat, inc: Incident)
    requires n < |fails| && IsCollapse(fails, incidents, cuts, n) && (n > 0 ==> !Linked(fails, n))
    requires Summarizes(inc, fails, n, n + 1)
    ensures IsCollapse(fails, incidents + [inc], cuts + [n + 1], n + 1)
  {
    var after, grown := cuts + [n + 1], incidents + [inc];
    forall j | 0 <= j < |grown| ensures IsIncident(grown[j], fails, after[j], after[j + 1], n + 1) {
      if j < |incidents| {
        assert IsIncident(incidents[j], fails, cuts[j], cuts[j + 1], n);
        assert j + 1 < |incidents| ==> cuts[j + 1] < cuts[|incidents|];
      }
    }
  }

  // ---- newest first ----

  predicate NewestFirst(s: seq<Incident>) {
    forall i, j :: 0 <= i < j < |s| ==> s[i].started >= s[j].started
  }

  /** The incidents that started at t, in order. */
  function StartedAt(s: seq<Incident>, t: Instant): seq<Incident> {
    if s == [] then [] else (if s[0].started == t then [s[0]] else []) + StartedAt(s[1..], t)
  }

  /** A stable sort keeps the order of incidents that started together. */
  ghost predicate SameTies(a: seq<Incident>, b: seq<Incident>) {
    forall t :: StartedAt(a, t) == StartedAt(b, t)
  }

  lemma {:induction false} StartedInBoth(a: seq<Incident>, b: seq<Incident>, t: Instant)
    ensures StartedAt(a + b, t) == StartedAt(a, t) + StartedAt(b, t)
  {
    if a == [] {
      assert a + b == b;
    } else {
      assert (a + b)[1..] == a[1..] + b;
      StartedInBoth(a[1..], b, t);
      var head := if a[0].started == t then [a[0]] else [];
      assert head + (StartedAt(a[1..], t) + StartedAt(b, t)) == (head + StartedAt(a[1..], t)) + StartedAt(b, t);
    }
  }

  lemma StartedInOne(inc: Incident, t: Instant)
    ensures StartedAt([inc], t) == if inc.started == t then [inc] else []
  {
    assert [inc][1..] == [];
  }

  /** Stable insertion: behind everything that started no earlier. */
  function InsertNewest(inc: Incident, s: seq<Incident>): (r: seq<Incident>)
    ensures multiset(r) == multiset(s) + multiset{inc}
  {
    if s == [] then [inc]
    else if s[|s| - 1].started >= inc.started then s + [inc]
    else
      assert s == s[..|s| - 1] + [s[|s| - 1]];
      InsertNewest(inc, s[..|s| - 1]) + [s[|s| - 1]]
  }

  lemma {:induction false} InsertKeepsOrder(inc: Incident, s: seq<Incident>)
    requires NewestFirst(s)
    ensures NewestFirst(InsertNewest(inc, s))
  {
    if s != [] && s[|s| - 1].started < inc.started {
      var last, front := s[|s| - 1], s[..|s| - 1];
      var rest := InsertNewest(inc, front);
      InsertKeepsOrder(inc, front);
      forall i | 0 <= i < |rest| ensures rest[i].started >= last.started {
        assert rest[i] in multiset(rest);
        if rest[i] != inc { assert rest[i] in front; }
      }
    }
  }

  lemma {:induction false} InsertIsStable(inc: Incident, s: seq<Incident>, t: Instant)
    requires NewestFirst(s)
    ensures StartedAt(InsertNewest(inc, s), t) == StartedAt(s + [inc], t)
  {
    if s != [] && s[|s| - 1].started < inc.started {
      var front, last := s[..|s| - 1], s[|s| - 1];
      assert s == front + [last];
      InsertIsStable(inc, front, t);
      StartedInBoth(InsertNewest(inc, front), [last], t);
      TiesSwap(front, last, inc, t);
    } else if s == [] {
      assert s + [inc] == [inc];
    }
  }

  /** Two incidents that started apart can change places. */
  lemma TiesSwap(front: seq<Incident>, x: Incident, y: Incident, t: Instant)
    requires x.started != y.started
    ensures StartedAt(front + [x] + [y], t) == StartedAt(front + [y], t) + StartedAt([x], t)
  {
    StartedInBoth(front + [x], [y], t);
    StartedInBoth(front, [x], t);
    StartedInBoth(front, [y], t);
    StartedInOne(x, t);
    StartedInOne(y, t);
  }

  /** The incidents in feed order; the sort is stable, as the source's is. */
  function SortNewest(s: seq<Incident>): (r: seq<Incident>)
    ensures multiset(r) == multiset(s)
  {
    if s == [] then []
    else
      assert s == s[..|s| - 1] + [s[|s| - 1]];
      InsertNewest(s[|s| - 1], SortNewest(s[..|s| - 1]))
  }

  lemma {:induction false} SortOrders(s: seq<Incident>)
    ensures NewestFirst(SortNewest(s))
  {
    if s != [] {
      SortOrders(s[..|s| - 1]);
      InsertKeepsOrder(s[|s| - 1], SortNewest(s[..|s| - 1]));
    }
  }

  lemma {:induction false} SortIsStable(s: seq<Incident>)
    ensures SameTies(SortNewest(s), s)
  {
    if s != [] {
      var front, last := s[..|s| - 1], s[|s| - 1];
      assert s == front + [last];
      SortIsStable(front);
      SortOrders(front);
      forall t ensures StartedAt(SortNewest(s), t) == StartedAt(s, t) {
        InsertIsStable(last, SortNewest(front), t);
        StartedInBoth(SortNewest(front), [last], t);
        StartedInBoth(front, [last], t);
      }
    }
  }

  /** The incidents rearranged newest first, those that started together in their own order. */
  ghost predicate IsSorted(sorted: seq<Incident>, all: seq<Incident>) {
    NewestFirst(sorted) && multiset(sorted) == multiset(all) && SameTies(sorted, all)
  }

  /** MAIN: order and ties leave one rearrangement, so the feed is a function of the incidents. */
  lemma {:induction false} SortedIsUnique(a: seq<Incident>, b: seq<Incident>)
    requires NewestFirst(a) && NewestFirst(b) && SameTies(a, b)
    ensures a == b
    decreases |a|
  {
    FirstStart(a, b);
    FirstStart(b, a);
    if a != [] {
      var t := a[0].started;
      assert StartedAt(a, t) == StartedAt(b, t) && StartedAt(a, t)[0] == a[0] && StartedAt(b, t)[0] == b[0];
      forall t ensures StartedAt(a[1..], t) == StartedAt(b[1..], t) {
        assert StartedAt(a, t) == StartedAt(b, t);
        TailStarts(a, t);
        TailStarts(b, t);
      }
      SortedIsUnique(a[1..], b[1..]);
      assert a == [a[0]] + a[1..] && b == [b[0]] + b[1..];
    }
  }

  lemma TailStarts(s: seq<Incident>, t: Instant)
    requires s != []
    ensures s[0].started == t ==> StartedAt(s, t) != []
    ensures StartedAt(s[1..], t) == if s[0].started == t then StartedAt(s, t)[1..] else StartedAt(s, t)
  {
  }

  /** What starts a is somewhere in b, so b starts no earlier. */
  lemma FirstStart(a: seq<Incident>, b: seq<Incident>)
    requires NewestFirst(b) && SameTies(a, b)
    ensures a != [] ==> b != [] && b[0].started >= a[0].started
  {
    if a != [] {
      var t := a[0].started;
      assert StartedAt(a, t) == StartedAt(b, t) && StartedAt(a, t) != [];
      StartedSomewhere(b, t);
    }
  }

  lemma {:induction false} StartedSomewhere(s: seq<Incident>, t: Instant)
    requires StartedAt(s, t) != []
    ensures exists i :: 0 <= i < |s| && s[i].started == t
  {
    if s[0].started != t {
      StartedSomewhere(s[1..], t);
      var i :| 0 <= i < |s[1..]| && s[1..][i].started == t;
      assert s[i + 1].started == t;
    }
  }

  /** What the feed shows: the `limit` newest, newest first. */
  ghost predicate IsFeed(recent: seq<Incident>, all: seq<Incident>, limit: nat) {
    && |recent| == (if |all| < limit then |all| else limit)
    && exists dropped :: IsSorted(recent + dropped, all)
  }

  /** `recent_incidents` over the ordered failed beats of the lookback: the `limit` newest of the maximal
      runs.  `CollapseIsUnique` shows that there is only one `all`. */
  method RecentIncidents(fails: seq<Fail>, limit: nat) returns (recent: seq<Incident>)
    ensures exists all :: Collapsed(fails, all) && IsFeed(recent, all, limit)
  {
    var incidents := Collapse(fails);
    var sorted := SortNewest(incidents);
    SortOrders(incidents);
    SortIsStable(incidents);
    SameSize(sorted, incidents);
    var n := if |sorted| < limit then |sorted| else limit;
    recent := sorted[..n];
    assert sorted == recent + sorted[n..];
    assert IsSorted(recent + sorted[n..], incidents);
  }

  lemma SameSize(a: seq<Incident>, b: seq<Incident>)
    requires multiset(a) == multiset(b)
    ensures |a| == |b|
  {
    assert |multiset(a)| == |a| && |multiset(b)| == |b|;
  }

  // ---- theorems ----

  lemma RunEndsOnce(fails: seq<Fail>, from: nat, a: nat, b: nat)
    requires IsRun(fails, from, a, |fails|) && IsRun(fails, from, b, |fails|)
    ensures a == b
  {
  }

  /** Maximality leaves no choice of where to cut ... */
  lemma {:induction false} SameCuts(fails: seq<Fail>, a: seq<Incident>, b: seq<Incident>,
                                    ca: seq<nat>, cb: seq<nat>, k: nat)
    requires IsCollapse(fails, a, ca, |fails|) && IsCollapse(fails, b, cb, |fails|) && k <= |a|
    ensures k <= |b| && ca[k] == cb[k]
  {
    if k > 0 {
      SameCuts(fails, a, b, ca, cb, k - 1);
      assert IsIncident(a[k - 1], fails, ca[k - 1], ca[k], |fails|);
      assert k - 1 < |b|;
      assert IsIncident(b[k - 1], fails, cb[k - 1], cb[k], |fails|);
      RunEndsOnce(fails, ca[k - 1], ca[k], cb[k]);
    }
  }

  /** MAIN: ... so the incidents are a function of the failed beats. */
  lemma CollapseIsUnique(fails: seq<Fail>, a: seq<Incident>, b: seq<Incident>)
    requires Collapsed(fails, a) && Collapsed(fails, b)
    ensures a == b
  {
    var ca :| IsCollapse(fails, a, ca, |fails|);
    var cb :| IsCollapse(fails, b, cb, |fails|);
    SameCuts(fails, a, b, ca, cb, |a|);
    SameCuts(fails, b, a, cb, ca, |b|);
    forall k | 0 <= k < |a| ensures a[k] == b[k] {
      SameCuts(fails, a, b, ca, cb, k);
      SameCuts(fails, a, b, ca, cb, k + 1);
      assert IsIncident(a[k], fails, ca[k], ca[k + 1], |fails|);
      assert IsIncident(b[k], fails, cb[k], cb[k + 1], |fails|);
    }
  }

  function TotalBeats(incidents: seq<Incident>): nat {
    if incidents == [] then 0 else TotalBeats(incidents[..|incidents| - 1]) + incidents[|incidents| - 1].beats
  }

  lemma {:induction false} BeatsUpTo(fails: seq<Fail>, incidents: seq<Incident>, cuts: seq<nat>, k: nat)
    requires IsCollapse(fails, incidents, cuts, |fails|) && k <= |incidents|
    ensures TotalBeats(incidents[..k]) == cuts[k]
  {
    if k > 0 {
      BeatsUpTo(fails, incidents, cuts, k - 1);
      assert IsIncident(incidents[k - 1], fails, cuts[k - 1], cuts[k], |fails|);
      assert incidents[..k][..k - 1] == incidents[..k - 1];
    }
  }

  /** MAIN: every failed beat is counted in exactly one incident. */
  lemma BeatsConserved(fails: seq<Fail>, incidents: seq<Incident>, cuts: seq<nat>)
    requires IsCollapse(fails, incidents, cuts, |fails|)
    ensures TotalBeats(incidents) == |fails|
  {
    BeatsUpTo(fails, incidents, cuts, |incidents|);
    assert incidents[..|incidents|] == incidents;
  }

  /** Inside an incident neighbours are at most five minutes apart and of one monitor. */
  lemma NeighboursInside(fails: seq<Fail>, incidents: seq<Incident>, cuts: seq<nat>, k: nat, i: nat)
    requires IsCollapse(fails, incidents, cuts, |fails|) && k < |incidents| && cuts[k] < i < cuts[k + 1]
    ensures fails[i].key == fails[i - 1].key == incidents[k].key
    ensures fails[i].at - fails[i - 1].at <= 5 * 60 * 1_000_000
  {
    assert IsIncident(incidents[k], fails, cuts[k], cuts[k + 1], |fails|);
    assert Linked(fails, i);
    SameKeyInRun(fails, cuts[k], cuts[k + 1], i);
  }

  /** MAIN: two incidents of one monitor are more than five minutes apart, so (monitor, start) is unique
      and the runs are maximal. */
  lemma IncidentsApart(fails: seq<Fail>, incidents: seq<Incident>, cuts: seq<nat>, j: nat, k: nat)
    requires Ordered(fails) && IsCollapse(fails, incidents, cuts, |fails|) && j < k < |incidents|
    requires incidents[j].key == incidents[k].key
    ensures incidents[k].started - incidents[j].ended > 5 * 60 * 1_000_000
    ensures incidents[j].started < incidents[k].started
  {
    var a, b, c := cuts[j], cuts[j + 1], cuts[k];
    assert IsIncident(incidents[j], fails, a, b, |fails|);
    assert IsIncident(incidents[k], fails, c, cuts[k + 1], |fails|);
    assert b <= c by { if j + 1 < k { assert cuts[j + 1] < cuts[k]; } }
    SameKeyInRun(fails, a, b, b - 1);
    Between(fails, a, b, c);
    assert !Linked(fails, b);
    Between(fails, a, b - 1, c);
  }

  /** Beats of one monitor are contiguous and in time order. */
  lemma Between(fails: seq<Fail>, i: nat, j: nat, k: nat)
    requires Ordered(fails) && i <= j <= k < |fails| && fails[i].key == fails[k].key
    ensures fails[j].key == fails[i].key && fails[i].at <= fails[j].at <= fails[k].at
  {
  }

  /** No failed beat of the same monitor lies in the five minutes before. */
  ghost predicate OpensIncident(beats: set<Fail>, b: Fail) {
    forall a :: a in beats && a.key == b.key && a.at < b.at ==> b.at - a.at > 5 * 60 * 1_000_000
  }

  lemma {:induction false} RunOf(fails: seq<Fail>, incidents: seq<Incident>, cuts: seq<nat>, i: nat, k: nat)
    returns (r: nat)
    requires IsCollapse(fails, incidents, cuts, |fails|) && k <= |incidents| && i < cuts[k]
    ensures r < |incidents| && cuts[r] <= i < cuts[r + 1]
    decreases k
  {
    if cuts[k - 1] <= i { r := k - 1; } else { r := RunOf(fails, incidents, cuts, i, k - 1); }
  }

  ghost predicate StartsAn(incidents: seq<Incident>, b: Fail) {
    exists k :: 0 <= k < |incidents| && incidents[k].key == b.key && incidents[k].started == b.at
  }

  /** MAIN: the incidents start exactly at the beats with no predecessor within the gap: a property of the
      set of failed beats alone. */
  lemma StartsExactly(fails: seq<Fail>, incidents: seq<Incident>, cuts: seq<nat>, i: nat)
    requires Ordered(fails) && IsCollapse(fails, incidents, cuts, |fails|) && i < |fails|
    ensures OpensIncident(ToSet(fails), fails[i]) <==> StartsAn(incidents, fails[i])
  {
    var k := RunOf(fails, incidents, cuts, i, |incidents|);
    assert IsIncident(incidents[k], fails, cuts[k], cuts[k + 1], |fails|);
    if cuts[k] == i {
      FirstOpens(fails, i);
    } else {
      assert Linked(fails, i);
      assert fails[i - 1] in ToSet(fails) && fails[i - 1].at < fails[i].at;
      if StartsAn(incidents, fails[i]) {
        var m :| 0 <= m < |incidents| && incidents[m].key == fails[i].key && incidents[m].started == fails[i].at;
        OnlyStart(fails, incidents, cuts, i, k, m);
      }
    }
  }

  /** An incident that starts at beat `i` is the one whose run `i` opens. */
  lemma OnlyStart(fails: seq<Fail>, incidents: seq<Incident>, cuts: seq<nat>, i: nat, k: nat, m: nat)
    requires Ordered(fails) && IsCollapse(fails, incidents, cuts, |fails|)
    requires k < |incidents| && m < |incidents| && cuts[k] <= i < cuts[k + 1]
    requires incidents[m].key == fails[i].key && incidents[m].started == fails[i].at
    ensures cuts[k] == i
  {
    var c := cuts[m];
    assert IsIncident(incidents[m], fails, c, cuts[m + 1], |fails|);
    assert IsIncident(incidents[k], fails, cuts[k], cuts[k + 1], |fails|);
    assert c == i;
  }

  lemma FirstOpens(fails: seq<Fail>, i: nat)
    requires Ordered(fails) && i < |fails| && (i > 0 ==> !Linked(fails, i))
    ensures OpensIncident(ToSet(fails), fails[i])
  {
    forall a | a in ToSet(fails) && a.key == fails[i].key && a.at < fails[i].at ensures fails[i].at - a.at > GAP {
      var j :| 0 <= j < |fails| && fails[j] == a;
      if j < i { Between(fails, j, i - 1, i); }
    }
  }

  /** MAIN: failures recorded later never move the start of an incident already published. */
  lemma LaterFailuresKeepStarts(before: seq<Fail>, earlier: seq<Incident>, cuts: seq<nat>,
                                after: seq<Fail>, later: seq<Incident>, newCuts: seq<nat>, b: Fail)
    requires Ordered(before) && IsCollapse(before, earlier, cuts, |before|)
    requires Ordered(after) && IsCollapse(after, later, newCuts, |after|)
    requires ToSet(before) <= ToSet(after) && b in before
    requires forall e, l :: e in before && l in after && l !in before && e.key == l.key ==> e.at < l.at
    ensures StartsAn(later, b) <==> StartsAn(earlier, b)
  {
    var i :| 0 <= i < |before| && before[i] == b;
    assert b in ToSet(after);
    var j :| 0 <= j < |after| && after[j] == b;
    StartsExactly(before, earlier, cuts, i);
    StartsExactly(after, later, newCuts, j);
    assert OpensIncident(ToSet(before), b) ==> OpensIncident(ToSet(after), b) by {
      forall a | a in ToSet(after) && a.key == b.key && a.at < b.at ensures a in ToSet(before) { }
    }
    assert OpensIncident(ToSet(after), b) ==> OpensIncident(ToSet(before), b);
  }
}
