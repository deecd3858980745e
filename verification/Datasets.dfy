/** Bucketed series, their drilldown and paging, over rows already in the source's query order. */
module Datasets {
  import opened Common

  datatype Result<+T> = Ok(value: T) | UnknownField | UnknownBucket

  /** The four bucket shapes.  Bounds of a band are values of the column. */
  datatype Bucket<V> =
    | Single(key: string, value: V)
    | Group(key: string, values: seq<V>)
    | Band(key: string, lo: V, hi: Option<V>)
    | Other(key: string)

  /** What the database knows about a column's values. */
  datatype Column<!V> = Column(str: V -> string, less: (V, V) -> bool)

  ghost predicate StrictTotal<V(!new)>(less: (V, V) -> bool) {
    && (forall a :: !less(a, a))
    && (forall a, b :: a != b ==> less(a, b) || less(b, a))
    && (forall a, b, c :: less(a, b) && less(b, c) ==> less(a, c))
  }

  ghost predicate DistinctForms<V(!new)>(str: V -> string) {
    forall a, b :: str(a) == str(b) ==> a == b
  }

  // ---- buckets.py ----

  function ClaimedBy<V>(b: Bucket<V>): seq<V> {
    match b
    case Single(_, v) => [v]
    case Group(_, vs) => vs
    case _ => []
  }

  function DimensionValues<V>(buckets: seq<Bucket<V>>): seq<V> {
    if buckets == [] then []
    else DimensionValues(buckets[..|buckets| - 1]) + ClaimedBy(buckets[|buckets| - 1])
  }

  /** `_dimension_values`. */
  method CollectDimensionValues<V>(buckets: seq<Bucket<V>>) returns (values: seq<V>)
    ensures values == DimensionValues(buckets)
  {
    values := [];
    for i := 0 to |buckets|
      invariant values == DimensionValues(buckets[..i])
    {
      assert buckets[..i + 1][..i] == buckets[..i];
      if buckets[i].Single? {
        values := values + [buckets[i].value];
      } else if buckets[i].Group? {
        values := values + buckets[i].values;
      }
    }
    assert buckets[..|buckets|] == buckets;
  }

  /** A value is taken from the catch-all iff some sibling claims it. */
  lemma {:induction false} ClaimedIff<V>(buckets: seq<Bucket<V>>, v: V)
    ensures v in DimensionValues(buckets) <==> exists b :: b in buckets && v in ClaimedBy(b)
  {
    if buckets != [] {
      var init, last := buckets[..|buckets| - 1], buckets[|buckets| - 1];
      assert buckets == init + [last];
      ClaimedIff(init, v);
    }
  }

  /** `_bucket_cond` on one value. */
  predicate InBucket<V(==)>(col: Column<V>, b: Bucket<V>, dimensionValues: seq<V>, v: V) {
    match b
    case Other(_) => v !in dimensionValues
    case Single(_, value) => v == value
    case Group(_, values) => v in values
    case Band(_, lo, hi) => !col.less(v, lo) && (hi.Some? ==> col.less(v, hi.value))
  }

  /** What each bucket shape stands for: its value, one of its values, from its lower bound up to but not including its
      upper one, or whatever no sibling names. */
  ghost predicate Belongs<V(!new)>(col: Column<V>, buckets: seq<Bucket<V>>, b: Bucket<V>, v: V) {
    && (b.Single? ==> v == b.value)
    && (b.Group? ==> exists i :: 0 <= i < |b.values| && b.values[i] == v)
    && (b.Band? ==> !col.less(v, b.lo))
    && (b.Band? && b.hi.Some? ==> col.less(v, b.hi.value))
    && (b.Other? ==> forall c :: c in buckets ==> (c.Single? ==> c.value != v) && (c.Group? ==> v !in c.values))
  }

  lemma BelongsIff<V(!new)>(col: Column<V>, buckets: seq<Bucket<V>>, b: Bucket<V>, v: V)
    ensures InBucket(col, b, DimensionValues(buckets), v) <==> Belongs(col, buckets, b, v)
  {
    ClaimedIff(buckets, v);
    if b.Other? && v !in DimensionValues(buckets) {
      forall c | c in buckets ensures (c.Single? ==> c.value != v) && (c.Group? ==> v !in c.values) {
        assert v !in ClaimedBy(c);
      }
    }
  }

  function BucketByKey<V>(buckets: seq<Bucket<V>>, key: string): Option<Bucket<V>> {
    if buckets == [] then None
    else if buckets[0].key == key then Some(buckets[0])
    else BucketByKey(buckets[1..], key)
  }

  // ---- deriving top-N buckets ----

  /** `ORDER BY -count, field`. */
  predicate Before<V>(ms: multiset<V>, less: (V, V) -> bool, u: V, v: V) {
    ms[u] > ms[v] || (ms[u] == ms[v] && less(u, v))
  }

  ghost function Support<V>(ms: multiset<V>): set<V> { set v | v in ms }

  function Least(a: nat, b: nat): nat { if a <= b then a else b }

  /** The first `limit` distinct values in query order: none kept comes after one dropped. */
  ghost predicate IsTop<V(!new)>(ms: multiset<V>, less: (V, V) -> bool, limit: nat, kept: seq<V>) {
    && Distinct(kept)
    && (forall v :: v in kept ==> v in ms)
    && |kept| == Least(limit, |Support(ms)|)
    && (forall i, j :: 0 <= i < j < |kept| ==> Before(ms, less, kept[i], kept[j]))
    && (forall k, d :: k in kept && d in ms && d !in kept ==> Before(ms, less, k, d))
  }

  function ValueBucket<V>(col: Column<V>, v: V): Bucket<V> { Single("v:" + col.str(v), v) }

  function BucketsFor<V>(col: Column<V>, kept: seq<V>, overflow: bool): seq<Bucket<V>> {
    seq(|kept|, i requires 0 <= i < |kept| => ValueBucket(col, kept[i])) + if overflow then [Other("other")] else []
  }

  const AUTO_BUCKET_LIMIT: nat := 12

  /** `int(opts.get("limit") or AUTO_BUCKET_LIMIT)`. */
  function EffectiveLimit(limit: Option<nat>): nat {
    if limit.Some? && limit.value > 0 then limit.value else AUTO_BUCKET_LIMIT
  }

  /** The buckets an automatic dimension gets from the unnarrowed base values. */
  ghost predicate IsDerived<V(!new)>(col: Column<V>, base: multiset<V>, limit: Option<nat>, buckets: seq<Bucket<V>>) {
    exists kept :: IsTop(base, col.less, EffectiveLimit(limit), kept)
                && buckets == BucketsFor(col, kept, |Support(base)| > EffectiveLimit(limit))
  }

  method FirstInOrder<V(==, !new)>(base: multiset<V>, less: (V, V) -> bool, pool: set<V>) returns (first: V)
    requires pool != {} && StrictTotal(less)
    ensures first in pool && forall v :: v in pool && v != first ==> Before(base, less, first, v)
  {
    first :| first in pool;
    var todo := pool - {first};
    while todo != {}
      invariant first in pool && todo <= pool && first !in todo
      invariant forall v :: v in pool && v != first && v !in todo ==> Before(base, less, first, v)
      decreases todo
    {
      var v :| v in todo;
      if Before(base, less, v, first) { first := v; }
      todo := todo - {v};
    }
  }

  /** The query of `_derive_buckets`: distinct values in order, the first `count` of them. */
  method FirstValues<V(==, !new)>(base: multiset<V>, less: (V, V) -> bool, count: nat)
    returns (rows: seq<V>, ghost pool: set<V>)
    requires StrictTotal(less)
    ensures Distinct(rows) && |rows| + |pool| == |Support(base)| && |rows| <= count && (pool != {} ==> |rows| == count)
    ensures forall v :: v in base <==> v in rows || v in pool
    ensures forall i, j :: 0 <= i < j < |rows| ==> Before(base, less, rows[i], rows[j])
    ensures forall u, v :: u in rows && v in pool ==> Before(base, less, u, v)
  {
    var left := set v | v in base;
    rows := [];
    while left != {} && |rows| < count
      invariant |rows| <= count && Distinct(rows) && |rows| + |left| == |Support(base)|
      invariant forall v :: v in base <==> v in rows || v in left
      invariant forall v :: v in rows ==> v !in left
      invariant forall i, j :: 0 <= i < j < |rows| ==> Before(base, less, rows[i], rows[j])
      invariant forall u, v :: u in rows && v in left ==> Before(base, less, u, v)
      decreases left
    {
      var v := FirstInOrder(base, less, left);
      rows, left := rows + [v], left - {v};
    }
    pool := left;
  }

  /** `_derive_buckets`: group, order, take limit + 1, keep limit. */
  method DeriveBuckets<V(==, !new)>(col: Column<V>, base: multiset<V>, limit: Option<nat>)
    returns (buckets: seq<Bucket<V>>)
    requires StrictTotal(col.less)
    ensures IsDerived(col, base, limit, buckets)
  {
    var n := EffectiveLimit(limit);
    var all, pool := FirstValues(base, col.less, n + 1);
    var overflow := |all| > n;
    var rows := if overflow then all[..n] else all;
    TopOfRows(base, col.less, n, all, rows, pool);
    buckets := [];
    for i := 0 to |rows|
      invariant |buckets| == i
      invariant forall k :: 0 <= k < i ==> buckets[k] == ValueBucket(col, rows[k])
    {
      buckets := buckets + [ValueBucket(col, rows[i])];
    }
    if overflow { buckets := buckets + [Other("other")]; }
    assert buckets == BucketsFor(col, rows, overflow);
  }

  lemma TopOfRows<V(!new)>(base: multiset<V>, less: (V, V) -> bool, n: nat, all: seq<V>, kept: seq<V>, pool: set<V>)
    requires Distinct(all) && |all| + |pool| == |Support(base)| && |all| <= n + 1 && (pool != {} ==> |all| == n + 1)
    requires forall v :: v in base <==> v in all || v in pool
    requires forall i, j :: 0 <= i < j < |all| ==> Before(base, less, all[i], all[j])
    requires forall u, v :: u in all && v in pool ==> Before(base, less, u, v)
    requires kept == if |all| > n then all[..n] else all
    ensures IsTop(base, less, n, kept)
    ensures |all| > n <==> |Support(base)| > n
  {
    forall k, d | k in kept && d in base && d !in kept ensures Before(base, less, k, d) {
      var i :| 0 <= i < |kept| && kept[i] == k;
      assert all[i] == k && k in all;
      if d in all {
        assert forall t :: 0 <= t < |kept| ==> all[t] == kept[t] && kept[t] in kept;
        var j :| 0 <= j < |all| && all[j] == d;
      }
    }
  }

  /** Two lists that answer the same query on the same counts are equal: the buckets depend on nothing
      but how often each value occurs in the unnarrowed base. */
  lemma {:induction false} TopIsUnique<V(!new)>(ms: multiset<V>, less: (V, V) -> bool, limit: nat, a: seq<V>, b: seq<V>)
    requires StrictTotal(less) && IsTop(ms, less, limit, a) && IsTop(ms, less, limit, b)
    ensures a == b
  {
    var i := 0;
    while i < |a|
      invariant 0 <= i <= |a| && a[..i] == b[..i]
    {
      if a[i] != b[i] {
        if Before(ms, less, a[i], b[i]) {
          SkippedFirst(ms, less, limit, a, b, i);
        } else {
          SkippedFirst(ms, less, limit, b, a, i);
        }
      }
      assert a[..i + 1] == a[..i] + [a[i]] && b[..i + 1] == b[..i] + [b[i]];
      i := i + 1;
    }
    assert a[..|a|] == a && b[..|b|] == b;
  }

  lemma SkippedFirst<V(!new)>(ms: multiset<V>, less: (V, V) -> bool, limit: nat, a: seq<V>, b: seq<V>, i: nat)
    requires StrictTotal(less) && IsTop(ms, less, limit, a) && IsTop(ms, less, limit, b)
    requires i < |a| && |a| == |b| && a[..i] == b[..i]
    ensures !Before(ms, less, a[i], b[i])
  {
    forall j | 0 <= j < i ensures a[j] == b[j] {
      assert a[..i][j] == b[..i][j];
    }
    assert a[i] in a && b[i] in b;
    if a[i] in b {
      var j :| 0 <= j < |b| && b[j] == a[i];
      assert i <= j;
    }
    assert a[i] == b[i] || Before(ms, less, b[i], a[i]);
  }

  /** MAIN: an automatic dimension has one bucket per distinct value up to its limit, or up to 12 if it has none, and
      one more for the rest iff there are more values. */
  lemma HowManyBuckets<V(!new)>(col: Column<V>, base: multiset<V>, limit: Option<nat>, buckets: seq<Bucket<V>>)
    requires IsDerived(col, base, limit, buckets)
    ensures var values := |Support(base)|;
            var most := match limit case Some(n) => (if n == 0 then 12 else n) case None => 12;
            && |buckets| == (if values <= most then values else most + 1)
            && (forall i :: 0 <= i < |buckets| && i < most ==> buckets[i].Single? && buckets[i].value in base)
            && (values > most ==> buckets[most].Other?)
  {
    var n := EffectiveLimit(limit);
    var kept :| IsTop(base, col.less, n, kept) && buckets == BucketsFor(col, kept, |Support(base)| > n);
    forall i | 0 <= i < |kept| ensures kept[i] in base { assert kept[i] in kept; }
  }

  // ---- counting rows ----

  function Where<R>(rows: seq<R>, p: R -> bool): (kept: seq<R>)
    ensures forall r :: r in kept ==> r in rows && p(r)
  {
    if rows == [] then []
    else Where(rows[..|rows| - 1], p) + if p(rows[|rows| - 1]) then [rows[|rows| - 1]] else []
  }

  /** Every row that satisfies the condition is kept, as often as it occurs. */
  lemma {:induction false} WhereKeeps<R>(rows: seq<R>, p: R -> bool, r: R)
    ensures r in Where(rows, p) <==> r in rows && p(r)
    ensures multiset(Where(rows, p))[r] == if p(r) then multiset(rows)[r] else 0
  {
    if rows != [] {
      var init, last := rows[..|rows| - 1], rows[|rows| - 1];
      assert rows == init + [last];
      WhereKeeps(init, p, r);
    }
  }

  /** Rows are kept in their order. */
  lemma {:induction false} WhereSplits<R>(a: seq<R>, b: seq<R>, p: R -> bool)
    ensures Where(a + b, p) == Where(a, p) + Where(b, p)
    decreases |b|
  {
    if b == [] {
      assert a + b == a;
    } else {
      assert (a + b)[..|a + b| - 1] == a + b[..|b| - 1];
      WhereSplits(a, b[..|b| - 1], p);
    }
  }

  /** The positions of the rows that satisfy the condition. */
  ghost function Positions<R>(rows: seq<R>, p: R -> bool): set<nat> { set j: nat | j < |rows| && p(rows[j]) }

  lemma {:induction false} WhereCounts<R>(rows: seq<R>, p: R -> bool)
    ensures |Where(rows, p)| == |Positions(rows, p)|
  {
    if rows == [] {
      assert Positions(rows, p) == {};
    } else {
      var init, last := rows[..|rows| - 1], rows[|rows| - 1];
      WhereCounts(init, p);
      assert Positions(rows, p) == Positions(init, p) + if p(last) then {|init|} else {};
      assert |init| !in Positions(init, p);
    }
  }

  function Cond<R, V(==)>(col: Column<V>, get: R -> V, b: Bucket<V>, dimensionValues: seq<V>): R -> bool {
    (r: R) => InBucket(col, b, dimensionValues, get(r))
  }

  /** The buckets that take a value in. */
  function Hits<V(==)>(col: Column<V>, buckets: seq<Bucket<V>>, dimensionValues: seq<V>, v: V): nat {
    if buckets == [] then 0
    else Hits(col, buckets[..|buckets| - 1], dimensionValues, v)
         + if InBucket(col, buckets[|buckets| - 1], dimensionValues, v) then 1 else 0
  }

  /** The sum of the per-bucket counts. */
  function SumOfCounts<R, V(==)>(col: Column<V>, get: R -> V, buckets: seq<Bucket<V>>, dimensionValues: seq<V>,
                            rows: seq<R>): nat {
    if buckets == [] then 0
    else SumOfCounts(col, get, buckets[..|buckets| - 1], dimensionValues, rows)
         + |Where(rows, Cond(col, get, buckets[|buckets| - 1], dimensionValues))|
  }

  lemma {:induction false} OneMoreRow<R, V>(col: Column<V>, get: R -> V, buckets: seq<Bucket<V>>,
                                            dv: seq<V>, rows: seq<R>, r: R)
    ensures SumOfCounts(col, get, buckets, dv, rows + [r]) ==
            SumOfCounts(col, get, buckets, dv, rows) + Hits(col, buckets, dv, get(r))
  {
    if buckets != [] {
      OneMoreRow(col, get, buckets[..|buckets| - 1], dv, rows, r);
      assert (rows + [r])[..|rows|] == rows;
    }
  }

  /** If every row falls in exactly one bucket, the counts sum to the rows. */
  lemma {:induction false} ExactlyOneSums<R, V>(col: Column<V>, get: R -> V,
                                                buckets: seq<Bucket<V>>, dv: seq<V>, rows: seq<R>)
    requires forall r :: r in rows ==> Hits(col, buckets, dv, get(r)) == 1
    ensures SumOfCounts(col, get, buckets, dv, rows) == |rows|
  {
    if rows == [] {
      NoRows(col, get, buckets, dv);
    } else {
      var init, last := rows[..|rows| - 1], rows[|rows| - 1];
      assert rows == init + [last];
      ExactlyOneSums(col, get, buckets, dv, init);
      OneMoreRow(col, get, buckets, dv, init, last);
    }
  }

  lemma {:induction false} NoRows<R, V>(col: Column<V>, get: R -> V, buckets: seq<Bucket<V>>, dv: seq<V>)
    ensures SumOfCounts(col, get, buckets, dv, []) == 0
  {
    if buckets != [] { NoRows(col, get, buckets[..|buckets| - 1], dv); }
  }

  // ---- each row in exactly one bucket ----

  /** Categorical buckets whose claims do not overlap. */
  ghost predicate DisjointClaims<V(!new)>(buckets: seq<Bucket<V>>) {
    && (forall i :: 0 <= i < |buckets| ==> !buckets[i].Band?)
    && (forall i, j, v :: 0 <= i < j < |buckets| && v in ClaimedBy(buckets[i]) ==> v !in ClaimedBy(buckets[j]))
    && (forall i, j :: 0 <= i < j < |buckets| && buckets[i].Other? ==> !buckets[j].Other?)
  }

  ghost predicate HasOther<V>(buckets: seq<Bucket<V>>) { exists b :: b in buckets && b.Other? }

  /** How many of the buckets claim the value outright. */
  function Claims<V(==)>(buckets: seq<Bucket<V>>, v: V): nat {
    if buckets == [] then 0
    else Claims(buckets[..|buckets| - 1], v) + if v in ClaimedBy(buckets[|buckets| - 1]) then 1 else 0
  }

  function Others<V>(buckets: seq<Bucket<V>>): nat {
    if buckets == [] then 0
    else Others(buckets[..|buckets| - 1]) + if buckets[|buckets| - 1].Other? then 1 else 0
  }

  lemma {:induction false} HitsAreClaimsOrRest<V>(col: Column<V>, buckets: seq<Bucket<V>>, dv: seq<V>, v: V)
    requires forall i :: 0 <= i < |buckets| ==> !buckets[i].Band?
    ensures Hits(col, buckets, dv, v) == Claims(buckets, v) + if v in dv then 0 else Others(buckets)
  {
    if buckets != [] { HitsAreClaimsOrRest(col, buckets[..|buckets| - 1], dv, v); }
  }

  lemma {:induction false} ClaimsAtMostOne<V(!new)>(buckets: seq<Bucket<V>>, v: V)
    requires DisjointClaims(buckets)
    ensures Claims(buckets, v) == if v in DimensionValues(buckets) then 1 else 0
  {
    if buckets != [] {
      var init, last := buckets[..|buckets| - 1], buckets[|buckets| - 1];
      ClaimsAtMostOne(init, v);
      ClaimedIff(init, v);
      if v in DimensionValues(init) {
        var b :| b in init && v in ClaimedBy(b);
        var i :| 0 <= i < |init| && init[i] == b;
        assert buckets[i] == b;
      }
    }
  }

  lemma {:induction false} OthersAtMostOne<V(!new)>(buckets: seq<Bucket<V>>)
    requires DisjointClaims(buckets)
    ensures Others(buckets) == if HasOther(buckets) then 1 else 0
  {
    if buckets != [] {
      var init, last := buckets[..|buckets| - 1], buckets[|buckets| - 1];
      assert buckets == init + [last];
      OthersAtMostOne(init);
      if HasOther(init) {
        var b :| b in init && b.Other?;
        var i :| 0 <= i < |init| && init[i] == b;
        assert buckets[i] == b && b in buckets;
      }
      if last.Other? { assert last in buckets; }
    }
  }

  /** MAIN: with disjoint categorical claims and an `other` bucket, or with every value claimed, each
      value lands in exactly one bucket. */
  lemma ExactlyOneBucket<V(!new)>(col: Column<V>, buckets: seq<Bucket<V>>, v: V)
    requires DisjointClaims(buckets) && (HasOther(buckets) || v in DimensionValues(buckets))
    ensures Hits(col, buckets, DimensionValues(buckets), v) == 1
  {
    HitsAreClaimsOrRest(col, buckets, DimensionValues(buckets), v);
    ClaimsAtMostOne(buckets, v);
    OthersAtMostOne(buckets);
  }

  // ---- derived buckets ----

  lemma DerivedShape<V(!new)>(col: Column<V>, kept: seq<V>, overflow: bool)
    requires Distinct(kept)
    ensures var buckets := BucketsFor(col, kept, overflow);
            DisjointClaims(buckets) && (overflow ==> HasOther(buckets))
            && forall v :: v in kept ==> v in DimensionValues(buckets)
  {
    var buckets := BucketsFor(col, kept, overflow);
    if overflow { assert buckets[|kept|] in buckets; }
    forall v | v in kept ensures v in DimensionValues(buckets) {
      var i :| 0 <= i < |kept| && kept[i] == v;
      assert buckets[i] in buckets && v in ClaimedBy(buckets[i]);
      ClaimedIff(buckets, v);
    }
  }

  lemma {:induction false} AllKept<V(!new)>(ms: multiset<V>, less: (V, V) -> bool, limit: nat, kept: seq<V>)
    requires IsTop(ms, less, limit, kept) && |Support(ms)| <= limit
    ensures forall v :: v in ms ==> v in kept
  {
    DistinctSize(kept);
    forall v | v in ToSet(kept) ensures v in Support(ms) { }
    SubsetSize(ToSet(kept), Support(ms));
    forall v | v in ms ensures v in kept { assert v in Support(ms); }
  }

  /** MAIN: whatever filter is applied afterwards, the automatic series sums to the filtered rows. */
  lemma AutoSeriesConserves<R, V(!new)>(col: Column<V>, get: R -> V, base: seq<R>, limit: Option<nat>,
                                        buckets: seq<Bucket<V>>, keep: R -> bool)
    requires IsDerived(col, ValuesOf(base, get), limit, buckets)
    ensures forall r :: r in base ==> Hits(col, buckets, DimensionValues(buckets), get(r)) == 1
    ensures SumOfCounts(col, get, buckets, DimensionValues(buckets), Where(base, keep)) == |Where(base, keep)|
  {
    var ms := ValuesOf(base, get);
    var kept :| IsTop(ms, col.less, EffectiveLimit(limit), kept)
             && buckets == BucketsFor(col, kept, |Support(ms)| > EffectiveLimit(limit));
    DerivedShape(col, kept, |Support(ms)| > EffectiveLimit(limit));
    forall r | r in base ensures Hits(col, buckets, DimensionValues(buckets), get(r)) == 1 {
      ValuesOfMembers(base, get, r);
      if |Support(ms)| <= EffectiveLimit(limit) { AllKept(ms, col.less, EffectiveLimit(limit), kept); }
      ExactlyOneBucket(col, buckets, get(r));
    }
    ExactlyOneSums(col, get, buckets, DimensionValues(buckets), Where(base, keep));
  }

  function ValuesOf<R, V>(rows: seq<R>, get: R -> V): multiset<V> {
    if rows == [] then multiset{}
    else ValuesOf(rows[..|rows| - 1], get) + multiset{get(rows[|rows| - 1])}
  }

  lemma {:induction false} ValuesOfMembers<R, V>(rows: seq<R>, get: R -> V, r: R)
    requires r in rows
    ensures get(r) in ValuesOf(rows, get)
  {
    var init, last := rows[..|rows| - 1], rows[|rows| - 1];
    assert rows == init + [last];
    if r in init { ValuesOfMembers(init, get, r); }
  }

  lemma {:induction false} ValuesOfSplits<R, V>(a: seq<R>, b: seq<R>, get: R -> V)
    ensures ValuesOf(a + b, get) == ValuesOf(a, get) + ValuesOf(b, get)
  {
    if b == [] {
      assert a + b == a;
    } else {
      assert (a + b)[..|a + b| - 1] == a + b[..|b| - 1];
      ValuesOfSplits(a, b[..|b| - 1], get);
    }
  }

  lemma ValueOfOne<R, V>(r: R, get: R -> V)
    ensures ValuesOf([r], get) == multiset{get(r)}
  {
    assert [r][..0] == [];
  }

  lemma ValuesAround<R, V>(left: seq<R>, right: seq<R>, r: R, get: R -> V)
    ensures ValuesOf(left + ([r] + right), get) == ValuesOf(left + right, get) + multiset{get(r)}
  {
    ValuesOfSplits(left, right, get);
    ValuesOfSplits(left, [r] + right, get);
    ValuesOfSplits([r], right, get);
    ValueOfOne(r, get);
  }

  lemma TakeOneOut<R>(init: seq<R>, left: seq<R>, right: seq<R>, r: R)
    requires multiset(init + [r]) == multiset(left + ([r] + right))
    ensures multiset(init) == multiset(left + right)
  {
    assert multiset(init + [r]) == multiset(init) + multiset{r};
    assert multiset(left + ([r] + right)) == multiset(left) + multiset{r} + multiset(right);
    assert multiset(init) == multiset(init) + multiset{r} - multiset{r};
  }

  /** The base values do not depend on the order of the rows. */
  lemma {:induction false} ValuesOfIsOrderFree<R, V>(a: seq<R>, b: seq<R>, get: R -> V)
    requires multiset(a) == multiset(b)
    ensures ValuesOf(a, get) == ValuesOf(b, get)
    decreases |a|
  {
    if a == [] {
      assert |multiset(b)| == |b|;
    } else {
      var init, r := a[..|a| - 1], a[|a| - 1];
      assert a == init + [r] && r in multiset(b);
      var j :| 0 <= j < |b| && b[j] == r;
      var left, right := b[..j], b[j + 1..];
      assert b == left + ([r] + right);
      TakeOneOut(init, left, right, r);
      ValuesOfIsOrderFree(init, left + right, get);
      ValuesAround(left, right, r, get);
    }
  }

  /** MAIN: rearranging the base rows changes neither the derived buckets nor their keys. */
  lemma DerivedFromAnyOrder<R, V(!new)>(col: Column<V>, get: R -> V, a: seq<R>, b: seq<R>, limit: Option<nat>,
                                        x: seq<Bucket<V>>, y: seq<Bucket<V>>)
    requires StrictTotal(col.less) && multiset(a) == multiset(b)
    requires IsDerived(col, ValuesOf(a, get), limit, x) && IsDerived(col, ValuesOf(b, get), limit, y)
    ensures x == y
  {
    ValuesOfIsOrderFree(a, b, get);
    DerivedIsUnique(col, ValuesOf(a, get), limit, x, y);
  }

  lemma DerivedIsUnique<V(!new)>(col: Column<V>, base: multiset<V>, limit: Option<nat>, a: seq<Bucket<V>>,
                          b: seq<Bucket<V>>)
    requires StrictTotal(col.less) && IsDerived(col, base, limit, a) && IsDerived(col, base, limit, b)
    ensures a == b
  {
    var n := EffectiveLimit(limit);
    var ka :| IsTop(base, col.less, n, ka) && a == BucketsFor(col, ka, |Support(base)| > n);
    var kb :| IsTop(base, col.less, n, kb) && b == BucketsFor(col, kb, |Support(base)| > n);
    TopIsUnique(base, col.less, n, ka, kb);
  }

  /** MAIN: derived keys are a function of the base counts alone, and no two buckets share one. */
  lemma DerivedKeysStable<V(!new)>(col: Column<V>, base: multiset<V>, limit: Option<nat>, a: seq<Bucket<V>>,
                            b: seq<Bucket<V>>)
    requires StrictTotal(col.less) && DistinctForms(col.str)
    requires IsDerived(col, base, limit, a) && IsDerived(col, base, limit, b)
    ensures a == b && UniqueKeys(a)
  {
    var n := EffectiveLimit(limit);
    DerivedIsUnique(col, base, limit, a, b);
    var ka :| IsTop(base, col.less, n, ka) && a == BucketsFor(col, ka, |Support(base)| > n);
    forall i, j | 0 <= i < j < |a| ensures a[i].key != a[j].key {
      if j < |ka| {
        SameTail("v:", col.str(ka[i]), col.str(ka[j]));
      } else {
        assert a[j].key == "other" && ("v:" + col.str(ka[i]))[0] == 'v';
      }
    }
  }

  lemma SameTail(head: string, a: string, b: string)
    ensures head + a == head + b ==> a == b
  {
    assert (head + a)[|head|..] == a && (head + b)[|head|..] == b;
  }

  predicate UniqueKeys<V>(buckets: seq<Bucket<V>>) {
    forall i, j :: 0 <= i < j < |buckets| ==> buckets[i].key != buckets[j].key
  }

  // ---- the series and its drilldown ----

  datatype Point = Point(key: string, value: nat)

  /** The last bucket with a key: a dictionary of aggregates keeps the last of equal keys. */
  function LastByKey<V>(buckets: seq<Bucket<V>>, key: string): Option<Bucket<V>> {
    if buckets == [] then None
    else if buckets[|buckets| - 1].key == key then Some(buckets[|buckets| - 1])
    else LastByKey(buckets[..|buckets| - 1], key)
  }

  /** What `_bucketed_series` answers once the buckets are resolved. */
  ghost predicate IsSeries<R, V>(col: Column<V>, get: R -> V, buckets: seq<Bucket<V>>,
                                 rows: seq<R>, points: seq<Point>) {
    && |points| == |buckets|
    && forall i :: 0 <= i < |buckets| ==>
         && points[i].key == buckets[i].key
         && LastByKey(buckets, buckets[i].key).Some?
         && points[i].value ==
              |Where(rows, Cond(col, get, LastByKey(buckets, buckets[i].key).value, DimensionValues(buckets)))|
  }

  /** The rows that belong to a bucket, by position. */
  ghost function RowsOf<R, V(!new)>(col: Column<V>, get: R -> V, buckets: seq<Bucket<V>>, b: Bucket<V>,
                                    rows: seq<R>): set<nat> {
    set j: nat | j < |rows| && Belongs(col, buckets, b, get(rows[j]))
  }

  /** Each point draws the rows that belong to the last bucket of its key. */
  ghost predicate DrawsRows<R, V(!new)>(col: Column<V>, get: R -> V, buckets: seq<Bucket<V>>, rows: seq<R>,
                                        points: seq<Point>) {
    && |points| == |buckets|
    && forall i :: 0 <= i < |buckets| ==>
         && points[i].key == buckets[i].key
         && DrawsLastOf(col, get, buckets, rows, points[i])
  }

  ghost predicate DrawsLastOf<R, V(!new)>(col: Column<V>, get: R -> V, buckets: seq<Bucket<V>>, rows: seq<R>,
                                          point: Point) {
    exists b :: IsLastOf(buckets, point.key, b) && point.value == |RowsOf(col, get, buckets, b, rows)|
  }

  ghost predicate IsLastOf<V>(buckets: seq<Bucket<V>>, key: string, b: Bucket<V>) {
    exists k :: IsLastAt(buckets, key, b, k)
  }

  ghost predicate IsLastAt<V>(buckets: seq<Bucket<V>>, key: string, b: Bucket<V>, k: int) {
    0 <= k < |buckets| && buckets[k] == b && b.key == key && forall m :: k < m < |buckets| ==> buckets[m].key != key
  }

  lemma {:induction false} LastIsLast<V>(buckets: seq<Bucket<V>>, key: string)
    requires LastByKey(buckets, key).Some?
    ensures IsLastOf(buckets, key, LastByKey(buckets, key).value)
  {
    var n := |buckets| - 1;
    if buckets[n].key == key {
      assert IsLastAt(buckets, key, buckets[n], n);
    } else {
      LastIsLast(buckets[..n], key);
      var b := LastByKey(buckets, key).value;
      var k :| IsLastAt(buckets[..n], key, b, k);
      assert IsLastAt(buckets, key, b, k);
    }
    assert IsLastOf(buckets, key, LastByKey(buckets, key).value);
  }

  lemma CondCounts<R, V(!new)>(col: Column<V>, get: R -> V, buckets: seq<Bucket<V>>, b: Bucket<V>, rows: seq<R>)
    ensures |Where(rows, Cond(col, get, b, DimensionValues(buckets)))| == |RowsOf(col, get, buckets, b, rows)|
  {
    var p := Cond(col, get, b, DimensionValues(buckets));
    WhereCounts(rows, p);
    forall j: nat ensures j in Positions(rows, p) <==> j in RowsOf(col, get, buckets, b, rows) {
      if j < |rows| { BelongsIff(col, buckets, b, get(rows[j])); }
    }
    assert Positions(rows, p) == RowsOf(col, get, buckets, b, rows);
  }

  /** MAIN: the chart draws, for every bucket shape, exactly the rows that the shape stands for. */
  lemma SeriesDrawsRows<R, V(!new)>(col: Column<V>, get: R -> V, buckets: seq<Bucket<V>>, rows: seq<R>,
                                    points: seq<Point>)
    requires IsSeries(col, get, buckets, rows, points)
    ensures DrawsRows(col, get, buckets, rows, points)
  {
    forall i | 0 <= i < |buckets| ensures DrawsLastOf(col, get, buckets, rows, points[i]) {
      var b := LastByKey(buckets, buckets[i].key).value;
      LastIsLast(buckets, buckets[i].key);
      CondCounts(col, get, buckets, b, rows);
    }
  }

  /** The aggregates of `_bucketed_series`, in a dictionary by key. */
  method CountByKey<R, V(==)>(col: Column<V>, get: R -> V, buckets: seq<Bucket<V>>, rows: seq<R>)
    returns (anns: map<string, nat>)
    ensures forall k :: k in anns <==> LastByKey(buckets, k).Some?
    ensures forall k :: k in anns ==> anns[k] == |Where(rows,
            Cond(col, get, LastByKey(buckets, k).value, DimensionValues(buckets)))|
  {
    var dv := CollectDimensionValues(buckets);
    anns := map[];
    for i := 0 to |buckets|
      invariant forall k :: k in anns <==> LastByKey(buckets[..i], k).Some?
      invariant forall k :: k in anns ==> anns[k] == |Where(rows, Cond(col, get, LastByKey(buckets[..i], k).value, dv))|
    {
      assert buckets[..i + 1][..i] == buckets[..i];
      anns := anns[buckets[i].key := |Where(rows, Cond(col, get, buckets[i], dv))|];
    }
    assert buckets[..|buckets|] == buckets;
  }

  /** `_bucketed_series`. */
  method BucketedSeries<R, V(==, !new)>(col: Column<V>, columns: map<string, R -> V>, field: string,
                                        buckets: seq<Bucket<V>>, rows: seq<R>)
    returns (series: Result<seq<Point>>)
    ensures series == UnknownField <==> field !in columns
    ensures series != UnknownBucket
    ensures field in columns ==> series.Ok? && IsSeries(col, columns[field], buckets, rows, series.value)
    ensures field in columns ==> DrawsRows(col, columns[field], buckets, rows, series.value)
  {
    if field !in columns { return UnknownField; }
    var anns := CountByKey(col, columns[field], buckets, rows);
    var points: seq<Point> := [];
    for i := 0 to |buckets|
      invariant |points| == i
      invariant forall k :: 0 <= k < i ==>
          buckets[k].key in anns && points[k] == Point(buckets[k].key, anns[buckets[k].key])
    {
      LastExists(buckets, i);
      points := points + [Point(buckets[i].key, anns[buckets[i].key])];
    }
    series := Ok(points);
    SeriesDrawsRows(col, columns[field], buckets, rows, points);
  }

  lemma {:induction false} LastExists<V>(buckets: seq<Bucket<V>>, i: nat)
    requires i < |buckets|
    ensures LastByKey(buckets, buckets[i].key).Some?
  {
    if i < |buckets| - 1 {
      LastExists(buckets[..|buckets| - 1], i);
    }
  }

  /** `_scoped_qs`, given the filtered rows. */
  function Scoped<R, V(==)>(col: Column<V>, columns: map<string, R -> V>, field: string, buckets: seq<Bucket<V>>,
                       key: string, rows: seq<R>): Result<seq<R>> {
    if field !in columns then UnknownField
    else
      match BucketByKey(buckets, key)
      case None => UnknownBucket
      case Some(b) => Ok(Where(rows, Cond(col, columns[field], b, DimensionValues(buckets))))
  }

  /** The first bucket with the key. */
  ghost predicate IsFirstOf<V>(buckets: seq<Bucket<V>>, key: string, b: Bucket<V>) {
    exists k :: 0 <= k < |buckets| && buckets[k] == b && b.key == key &&
                forall m :: 0 <= m < k ==> buckets[m].key != key
  }

  lemma {:induction false} FirstIsFirst<V>(buckets: seq<Bucket<V>>, key: string)
    ensures BucketByKey(buckets, key).Some? ==> IsFirstOf(buckets, key, BucketByKey(buckets, key).value)
    ensures BucketByKey(buckets, key).None? ==> forall b :: b in buckets ==> b.key != key
  {
    if buckets != [] && buckets[0].key != key {
      FirstIsFirst(buckets[1..], key);
      if BucketByKey(buckets, key).Some? {
        var b := BucketByKey(buckets, key).value;
        var k :| 0 <= k < |buckets| - 1 && buckets[1..][k] == b && b.key == key &&
                 forall m :: 0 <= m < k ==> buckets[1..][m].key != key;
        assert buckets[k + 1] == b;
        forall m | 0 <= m < k + 1 ensures buckets[m].key != key {
          if m > 0 { assert buckets[1..][m - 1] == buckets[m]; }
        }
      }
    }
  }

  /** MAIN: opening a key returns exactly the rows that belong to its first bucket, each as often as it occurs, and is
      refused iff the field or the key is unknown. */
  lemma ScopedRows<R, V(!new)>(col: Column<V>, columns: map<string, R -> V>, field: string, buckets: seq<Bucket<V>>,
                               key: string, rows: seq<R>, r: R)
    ensures var drill := Scoped(col, columns, field, buckets, key, rows);
            && (drill == UnknownField <==> field !in columns)
            && (drill == UnknownBucket <==> field in columns && forall b :: b in buckets ==> b.key != key)
            && (drill.Ok? ==>
                  exists b :: IsFirstOf(buckets, key, b) &&
                    multiset(drill.value)[r] ==
                      if Belongs(col, buckets, b, columns[field](r)) then multiset(rows)[r] else 0)
  {
    FirstIsFirst(buckets, key);
    if field in columns && BucketByKey(buckets, key).Some? {
      var b := BucketByKey(buckets, key).value;
      BelongsIff(col, buckets, b, columns[field](r));
      WhereKeeps(rows, Cond(col, columns[field], b, DimensionValues(buckets)), r);
    }
  }

  lemma {:induction false} FirstIsAt<V>(buckets: seq<Bucket<V>>, i: nat)
    requires i < |buckets| && UniqueKeys(buckets)
    ensures BucketByKey(buckets, buckets[i].key) == Some(buckets[i])
  {
    if i > 0 { FirstIsAt(buckets[1..], i - 1); }
  }

  lemma {:induction false} LastIsAt<V>(buckets: seq<Bucket<V>>, i: nat)
    requires i < |buckets| && UniqueKeys(buckets)
    ensures LastByKey(buckets, buckets[i].key) == Some(buckets[i])
  {
    if i < |buckets| - 1 { LastIsAt(buckets[..|buckets| - 1], i); }
  }

  /** MAIN: with unique keys the drilldown of every bucket, whatever its shape, holds as many rows as
      the chart shows for it, under every filter. */
  lemma {:induction false} DrilldownReconciles<R, V>(col: Column<V>, columns: map<string, R -> V>, field: string,
                                                     buckets: seq<Bucket<V>>, rows: seq<R>, points: seq<Point>, i: nat)
    requires field in columns && UniqueKeys(buckets) && i < |buckets|
    requires IsSeries(col, columns[field], buckets, rows, points)
    ensures var drill := Scoped(col, columns, field, buckets, points[i].key, rows);
            drill.Ok? && |drill.value| == points[i].value
            && forall r :: r in drill.value ==>
              r in rows && InBucket(col, buckets[i], DimensionValues(buckets), columns[field](r))
  {
    FirstIsAt(buckets, i);
    LastIsAt(buckets, i);
  }

  function TotalOf(points: seq<Point>): nat {
    if points == [] then 0 else TotalOf(points[..|points| - 1]) + points[|points| - 1].value
  }

  lemma {:induction false} TotalIsSum<R, V>(col: Column<V>, get: R -> V, buckets: seq<Bucket<V>>,
                                            dv: seq<V>, rows: seq<R>, points: seq<Point>)
    requires |points| == |buckets|
    requires forall i :: 0 <= i < |buckets| ==> points[i].value == |Where(rows, Cond(col, get, buckets[i], dv))|
    ensures TotalOf(points) == SumOfCounts(col, get, buckets, dv, rows)
  {
    if buckets != [] {
      TotalIsSum(col, get, buckets[..|buckets| - 1], dv, rows, points[..|points| - 1]);
    }
  }

  /** MAIN: an automatic chart over any filter: its values add up to the filtered rows, and every segment
      opens exactly as many rows as it shows. */
  lemma AutoChartReconciles<R, V(!new)>(col: Column<V>, columns: map<string, R -> V>, field: string, base: seq<R>,
                                 limit: Option<nat>,
                                        buckets: seq<Bucket<V>>, keep: R -> bool, points: seq<Point>)
    requires field in columns && StrictTotal(col.less) && DistinctForms(col.str)
    requires IsDerived(col, ValuesOf(base, columns[field]), limit, buckets)
    requires IsSeries(col, columns[field], buckets, Where(base, keep), points)
    ensures TotalOf(points) == |Where(base, keep)|
    ensures forall i :: 0 <= i < |points| ==>
              var drill := Scoped(col, columns, field, buckets, points[i].key, Where(base, keep));
              drill.Ok? && |drill.value| == points[i].value
  {
    var get, rows := columns[field], Where(base, keep);
    DerivedKeysStable(col, ValuesOf(base, get), limit, buckets, buckets);
    AutoSeriesConserves(col, get, base, limit, buckets, keep);
    forall i | 0 <= i < |buckets|
      ensures points[i].value == |Where(rows, Cond(col, get, buckets[i], DimensionValues(buckets)))|
    {
      LastIsAt(buckets, i);
    }
    TotalIsSum(col, get, buckets, DimensionValues(buckets), rows, points);
    forall i | 0 <= i < |points|
      ensures var drill := Scoped(col, columns, field, buckets, points[i].key, rows);
              drill.Ok? && |drill.value| == points[i].value
    {
      DrilldownReconciles(col, columns, field, buckets, rows, points, i);
    }
  }

  /** On these rows the point drawn for bucket i and the drilldown of its key hold equally many rows. */
  ghost predicate Reconciles<R, V>(col: Column<V>, columns: map<string, R -> V>, field: string,
                                   buckets: seq<Bucket<V>>, i: nat, rows: seq<R>)
    requires field in columns && i < |buckets|
  {
    forall points: seq<Point> :: IsSeries(col, columns[field], buckets, rows, points) ==>
      var drill := Scoped(col, columns, field, buckets, buckets[i].key, rows);
      drill.Ok? && |drill.value| == points[i].value
  }

  /** The two buckets take in the same values. */
  ghost predicate Interchangeable<R(!new), V>(col: Column<V>, get: R -> V, dv: seq<V>, a: Bucket<V>, b: Bucket<V>) {
    forall r: R :: InBucket(col, a, dv, get(r)) == InBucket(col, b, dv, get(r))
  }

  /** MAIN: with repeated keys the chart shows the last bucket of a key and the drilldown opens the first, so
      they reconcile whatever the rows iff the dimension declares those two to take in the same values. */
  lemma DrilldownReconcilesIff<R(!new), V>(col: Column<V>, columns: map<string, R -> V>, field: string,
                                           buckets: seq<Bucket<V>>, i: nat)
    requires field in columns && i < |buckets|
    ensures BucketByKey(buckets, buckets[i].key).Some? && LastByKey(buckets, buckets[i].key).Some?
    ensures (forall rows :: Reconciles(col, columns, field, buckets, i, rows)) <==>
            Interchangeable(col, columns[field], DimensionValues(buckets), BucketByKey(buckets, buckets[i].key).value,
                            LastByKey(buckets, buckets[i].key).value)
  {
    FirstExists(buckets, i);
    LastExists(buckets, i);
    var get, dv := columns[field], DimensionValues(buckets);
    var first, last := BucketByKey(buckets, buckets[i].key).value, LastByKey(buckets, buckets[i].key).value;
    if Interchangeable(col, get, dv, first, last) {
      forall rows ensures Reconciles(col, columns, field, buckets, i, rows) {
        SameCounts(rows, Cond(col, get, first, dv), Cond(col, get, last, dv));
      }
    }
    if forall rows :: Reconciles(col, columns, field, buckets, i, rows) {
      forall r: R ensures InBucket(col, first, dv, get(r)) == InBucket(col, last, dv, get(r)) {
        assert Reconciles(col, columns, field, buckets, i, [r]);
        SeriesExists(col, get, buckets, [r]);
        OneRow(r, Cond(col, get, first, dv));
        OneRow(r, Cond(col, get, last, dv));
      }
    }
  }

  lemma {:induction false} SameCounts<R(!new)>(rows: seq<R>, p: R -> bool, q: R -> bool)
    requires forall r: R :: p(r) == q(r)
    ensures |Where(rows, p)| == |Where(rows, q)|
  {
    if rows != [] { SameCounts(rows[..|rows| - 1], p, q); }
  }

  lemma OneRow<R>(r: R, p: R -> bool)
    ensures |Where([r], p)| == if p(r) then 1 else 0
  {
    assert [r][..0] == [];
    assert Where<R>([], p) == [];
  }

  lemma TwoRows<R>(r: R, p: R -> bool)
    ensures |Where([r, r], p)| == if p(r) then 2 else 0
  {
    assert [r, r][..1] == [r];
    OneRow(r, p);
  }

  lemma SeriesExists<R, V>(col: Column<V>, get: R -> V, buckets: seq<Bucket<V>>, rows: seq<R>)
    ensures exists points :: IsSeries(col, get, buckets, rows, points)
  {
    forall i | 0 <= i < |buckets| ensures LastByKey(buckets, buckets[i].key).Some? { LastExists(buckets, i); }
    var dv := DimensionValues(buckets);
    var points := seq(|buckets|, i requires 0 <= i < |buckets| =>
      Point(buckets[i].key, |Where(rows, Cond(col, get, LastByKey(buckets, buckets[i].key).value, dv))|));
    assert IsSeries(col, get, buckets, rows, points);
  }

  /** Two buckets under one key, two rows of the first value: the chart draws 0, the drilldown opens 2. */
  lemma RepeatedKeyDisagrees(col: Column<int>)
    ensures var buckets: seq<Bucket<int>> := [Single("k", 1), Single("k", 2)];
            var columns := map["f" := (r: int) => r];
            var drill := Scoped(col, columns, "f", buckets, "k", [1, 1]);
            && drill.Ok? && |drill.value| == 2
            && forall points :: IsSeries(col, columns["f"], buckets, [1, 1], points) ==> points[0] == Point("k", 0)
  {
    var buckets: seq<Bucket<int>> := [Single("k", 1), Single("k", 2)];
    var get := (r: int) => r;
    var dv := DimensionValues(buckets);
    var first, last := Cond(col, get, buckets[0], dv), Cond(col, get, buckets[1], dv);
    assert BucketByKey(buckets, "k") == Some(buckets[0]);
    assert buckets[..1] == [buckets[0]] && LastByKey(buckets, "k") == Some(buckets[1]);
    assert InBucket(col, buckets[0], dv, get(1)) && !InBucket(col, buckets[1], dv, get(1));
    assert first(1) && !last(1);
    TwoRows(1, first);
    TwoRows(1, last);
  }

  lemma {:induction false} FirstExists<V>(buckets: seq<Bucket<V>>, i: nat)
    requires i < |buckets|
    ensures BucketByKey(buckets, buckets[i].key).Some?
  {
    if i > 0 { FirstExists(buckets[1..], i - 1); }
  }

  // ---- paging ----

  const ROWS_LIMIT_MAX := 500

  /** `max(1, min(int(limit or 50), 500))`. */
  function PageSize(limit: int): int {
    var asked := if limit == 0 then 50 else limit;
    if asked > ROWS_LIMIT_MAX then ROWS_LIMIT_MAX else if asked < 1 then 1 else asked
  }

  /** What a caller gets for the limit it asks for: none means 50, at most 500, at least one row. */
  lemma PageSizes(limit: int)
    ensures 1 <= PageSize(limit) <= 500
    ensures 1 <= limit <= 500 ==> PageSize(limit) == limit
    ensures limit > 500 ==> PageSize(limit) == 500
    ensures limit < 0 ==> PageSize(limit) == 1
    ensures PageSize(0) == 50
  {
  }

  function Clamp(n: int, length: nat): nat { if n < 0 then 0 else if n > length then length else n }

  /** `rows` after ordering: the page of the scoped rows. */
  function Page<R>(scoped: seq<R>, limit: Option<int>, offset: int): seq<R> {
    var start := if offset < 0 then 0 else offset;
    match limit
    case None => scoped[Clamp(start, |scoped|)..]
    case Some(l) => scoped[Clamp(start, |scoped|)..Clamp(start + PageSize(l), |scoped|)]
  }

  /** A page holds the rows from its offset on, as many as its size allows; without a limit, all of them. */
  lemma PageHolds<R>(scoped: seq<R>, limit: Option<int>, offset: int)
    ensures var page, start := Page(scoped, limit, offset), if offset < 0 then 0 else offset;
            && (start >= |scoped| ==> page == [])
            && (start < |scoped| ==>
                  |page| == if limit.None? || |scoped| - start <= PageSize(limit.value) then |scoped| - start
                            else PageSize(limit.value))
            && forall k :: 0 <= k < |page| ==> page[k] == scoped[start + k]
  {
  }

  /** The first n pages when the caller advances by the limit it asked for. */
  function Pages<R>(scoped: seq<R>, limit: int, n: nat): seq<R> {
    if n == 0 then [] else Pages(scoped, limit, n - 1) + Page(scoped, Some(limit), (n - 1) * limit)
  }

  /** MAIN: consecutive pages of a limit within the cap tile the rows: a prefix without gap or repeat. */
  lemma {:induction false} PagesTile<R>(scoped: seq<R>, limit: int, n: nat)
    requires 1 <= limit <= ROWS_LIMIT_MAX
    ensures Pages(scoped, limit, n) == scoped[..Clamp(n * limit, |scoped|)]
  {
    if n > 0 {
      PagesTile(scoped, limit, n - 1);
      NextOffset(n, limit);
      TileOne(scoped, (n - 1) * limit, limit);
    }
  }

  lemma TileOne<R>(scoped: seq<R>, offset: nat, limit: int)
    requires 1 <= limit <= ROWS_LIMIT_MAX
    ensures scoped[..Clamp(offset, |scoped|)] + Page(scoped, Some(limit), offset) ==
            scoped[..Clamp(offset + limit, |scoped|)]
  {
    var from, until := Clamp(offset, |scoped|), Clamp(offset + limit, |scoped|);
    assert scoped[..from] + scoped[from..until] == scoped[..until];
  }

  lemma NextOffset(n: int, limit: int)
    ensures n * limit == (n - 1) * limit + limit
    ensures n >= 1 && limit >= 0 ==> (n - 1) * limit >= 0
  {
  }

  /** Above the cap, pages shrink to 500 rows while the offset still moves by the whole limit. */
  lemma {:induction false} PagesSkip<R>(scoped: seq<R>, limit: int, n: nat)
    requires limit > ROWS_LIMIT_MAX && |scoped| > ROWS_LIMIT_MAX
    ensures n >= 1 ==> |Pages(scoped, limit, n)| < n * limit
    ensures |Pages(scoped, limit, n)| < |scoped|
  {
    if n == 1 {
      assert Pages(scoped, limit, 0) == [];
    } else if n > 1 {
      PagesSkip(scoped, limit, n - 1);
      NextOffset(n, limit);
      PageAtMost(scoped, limit, (n - 1) * limit);
    }
  }

  lemma PageAtMost<R>(scoped: seq<R>, limit: int, offset: nat)
    requires limit > ROWS_LIMIT_MAX
    ensures |Page(scoped, Some(limit), offset)| <= ROWS_LIMIT_MAX
    ensures offset <= |scoped| ==> |Page(scoped, Some(limit), offset)| <= |scoped| - offset
    ensures offset > |scoped| ==> Page(scoped, Some(limit), offset) == []
  {
  }

  lemma ManyPages<R>(scoped: seq<R>, limit: int)
    requires 1 <= limit <= ROWS_LIMIT_MAX
    ensures Pages(scoped, limit, |scoped|) == scoped
  {
    PagesTile(scoped, limit, |scoped|);
    NotLess(|scoped|, limit);
  }

  lemma NotLess(n: nat, limit: int)
    requires limit >= 1
    ensures n * limit >= n
  {
  }

  /** MAIN: a caller that advances by its own limit sees every row in the end iff the limit is within the
      cap or the rows fit one capped page. */
  lemma PagingCompleteIff<R>(scoped: seq<R>, limit: int)
    requires limit >= 1
    ensures (exists n: nat :: Pages(scoped, limit, n) == scoped) <==>
            limit <= ROWS_LIMIT_MAX || |scoped| <= ROWS_LIMIT_MAX
  {
    if limit <= ROWS_LIMIT_MAX {
      ManyPages(scoped, limit);
    } else if |scoped| <= ROWS_LIMIT_MAX {
      OnePage(scoped, limit);
    } else {
      forall n: nat ensures Pages(scoped, limit, n) != scoped { PagesSkip(scoped, limit, n); }
    }
  }

  lemma OnePage<R>(scoped: seq<R>, limit: int)
    requires limit > ROWS_LIMIT_MAX && |scoped| <= ROWS_LIMIT_MAX
    ensures Pages(scoped, limit, 1) == scoped
  {
    assert Pages(scoped, limit, 0) == [];
    assert Page(scoped, Some(limit), 0) == scoped;
  }
}
