/** Numeric dimensions: consecutive bands split a column's values. */
module DatasetBands {
  import opened Common
  import opened Datasets

  /** Each band ends above where it begins, and where the next one begins. */
  ghost predicate Consecutive<V(!new)>(col: Column<V>, bands: seq<Bucket<V>>) {
    && bands != []
    && (forall i :: 0 <= i < |bands| ==>
          bands[i].Band? && (bands[i].hi.Some? ==> col.less(bands[i].lo, bands[i].hi.value)))
    && (forall i :: 0 <= i < |bands| - 1 ==> bands[i].hi == Some(bands[i + 1].lo))
  }

  /** From the first lower bound up to the last upper one, if there is one. */
  predicate InSpan<V>(col: Column<V>, bands: seq<Bucket<V>>, v: V) {
    && bands != [] && bands[0].Band? && !col.less(v, bands[0].lo)
    && var last := bands[|bands| - 1]; last.Band? && (last.hi.None? || col.less(v, last.hi.value))
  }

  lemma {:induction false} LowerBoundsRise<V(!new)>(col: Column<V>, bands: seq<Bucket<V>>, i: nat)
    requires StrictTotal(col.less) && Consecutive(col, bands) && i < |bands|
    ensures bands[0].lo == bands[i].lo || col.less(bands[0].lo, bands[i].lo)
  {
    if i > 0 {
      LowerBoundsRise(col, bands, i - 1);
      assert bands[i - 1].hi == Some(bands[i].lo);
    }
  }

  lemma {:induction false} PrefixConsecutive<V(!new)>(col: Column<V>, bands: seq<Bucket<V>>)
    requires Consecutive(col, bands) && |bands| > 1
    ensures Consecutive(col, bands[..|bands| - 1])
  {
    var init := bands[..|bands| - 1];
    forall i | 0 <= i < |init| - 1
      ensures init[i].hi == Some(init[i + 1].lo)
    {
      assert init[i] == bands[i] && init[i + 1] == bands[i + 1];
    }
  }

  /** MAIN: a value in the span of consecutive bands falls in exactly one of them, any other in none. */
  lemma {:induction false} ExactlyOneBand<V(!new)>(col: Column<V>, bands: seq<Bucket<V>>, dv: seq<V>, v: V)
    requires StrictTotal(col.less) && Consecutive(col, bands)
    ensures Hits(col, bands, dv, v) == if InSpan(col, bands, v) then 1 else 0
    decreases |bands|
  {
    var n := |bands| - 1;
    var last := if InBucket(col, bands[n], dv, v) then 1 else 0;
    assert Hits(col, bands, dv, v) == Hits(col, bands[..n], dv, v) + last;
    if n == 0 {
      assert Hits(col, bands[..0], dv, v) == 0;
    } else {
      PrefixConsecutive(col, bands);
      ExactlyOneBand(col, bands[..n], dv, v);
      LowerBoundsRise(col, bands, n);
      assert InSpan(col, bands[..n], v) <==> !col.less(v, bands[0].lo) && col.less(v, bands[n].lo) by {
        assert bands[..n][0] == bands[0] && bands[..n][n - 1] == bands[n - 1];
        assert bands[n - 1].hi == Some(bands[n].lo);
      }
    }
  }

  lemma {:induction false} HitsSum<R, V>(col: Column<V>, get: R -> V, buckets: seq<Bucket<V>>, dv: seq<V>, rows: seq<R>,
                                         p: R -> bool)
    requires forall r :: r in rows ==> Hits(col, buckets, dv, get(r)) == if p(r) then 1 else 0
    ensures SumOfCounts(col, get, buckets, dv, rows) == |Where(rows, p)|
    decreases |rows|
  {
    if rows == [] {
      NoRows(col, get, buckets, dv);
    } else {
      var init, last := rows[..|rows| - 1], rows[|rows| - 1];
      assert rows == init + [last];
      HitsSum(col, get, buckets, dv, init, p);
      OneMoreRow(col, get, buckets, dv, init, last);
    }
  }

  /** MAIN: a chart over consecutive bands adds up to the rows from the first bound on, up to the last one if there is
      one. */
  lemma BandChartSums<R, V(!new)>(col: Column<V>, get: R -> V, bands: seq<Bucket<V>>, rows: seq<R>, points: seq<Point>)
    requires StrictTotal(col.less) && Consecutive(col, bands) && UniqueKeys(bands)
    requires IsSeries(col, get, bands, rows, points)
    ensures TotalOf(points) == |Where(rows, (r: R) => InSpan(col, bands, get(r)))|
  {
    var p := (r: R) => InSpan(col, bands, get(r));
    forall r | r in rows ensures Hits(col, bands, DimensionValues(bands), get(r)) == if p(r) then 1 else 0 {
      ExactlyOneBand(col, bands, DimensionValues(bands), get(r));
    }
    forall i | 0 <= i < |bands|
      ensures points[i].value == |Where(rows, Cond(col, get, bands[i], DimensionValues(bands)))|
    {
      LastIsAt(bands, i);
    }
    TotalIsSum(col, get, bands, DimensionValues(bands), rows, points);
    HitsSum(col, get, bands, DimensionValues(bands), rows, p);
  }
}
