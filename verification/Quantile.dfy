/** Quantiles read off cumulative histogram buckets, by linear interpolation inside one bucket. */
module Quantile {
  import opened Options
  import StableSort
  import WaitHistogram

  datatype Bound = Finite(v: real) | Infinite

  datatype Bucket = Bucket(upper: Bound, count: real)

  predicate AtMost(a: Bound, b: Bound) {
    b.Infinite? || (a.Finite? && a.v <= b.v)
  }

  predicate Sorted(buckets: seq<Bucket>) {
    forall i, j :: 0 <= i < j < |buckets| ==> AtMost(buckets[i].upper, buckets[j].upper)
  }

  predicate NotAbove(a: Bucket, b: Bucket) {
    AtMost(a.upper, b.upper)
  }

  function SortByUpper(buckets: seq<Bucket>): seq<Bucket> {
    StableSort.Sort(buckets, NotAbove)
  }

  lemma SortByUpperIs(buckets: seq<Bucket>)
    ensures Sorted(SortByUpper(buckets)) && multiset(SortByUpper(buckets)) == multiset(buckets)
    ensures Sorted(buckets) ==> SortByUpper(buckets) == buckets
  {
    assert StableSort.TotalPreorder(NotAbove);
    StableSort.SortSorts(buckets, NotAbove);
    StableSort.SortPermutes(buckets, NotAbove);
    if Sorted(buckets) { StableSort.SortedStays(buckets, NotAbove); }
  }

  /** No bound is negative. The counts are arbitrary: rows of several series may be merged. */
  predicate NonNegative(buckets: seq<Bucket>) {
    forall i :: 0 <= i < |buckets| ==> AtMost(Finite(0.0), buckets[i].upper)
  }

  /** The counts rise with the bound, as in the rows of one series. */
  predicate Cumulative(buckets: seq<Bucket>) {
    forall i, j :: 0 <= i < j < |buckets| ==> buckets[i].count <= buckets[j].count
  }

  /** The point of the segment from `pu` to `u` where the count, going from `pc` to `c`, is `t`. */
  function Interpolate(pu: real, u: real, pc: real, c: real, t: real): real
    requires c - pc > 0.0
  {
    pu + (u - pu) * ((t - pc) / (c - pc))
  }

  function Target(total: real, q: real): real {
    total * q
  }

  /** The value at cumulative count `t`, from bucket `i` on. */
  function Walk(buckets: seq<Bucket>, i: nat, previousUpper: real, previousCount: real, t: real): Option<real>
    requires i <= |buckets|
    decreases |buckets| - i
  {
    if i == |buckets| then None
    else
      var b := buckets[i];
      if b.count >= t then
        if b.upper.Infinite? then Some(previousUpper)
        else if b.count - previousCount <= 0.0 then Some(b.upper.v)
        else Some(Interpolate(previousUpper, b.upper.v, previousCount, b.count, t))
      else Walk(buckets, i + 1, if b.upper.Infinite? then previousUpper else b.upper.v, b.count, t)
  }

  function Quantile(buckets: seq<Bucket>, q: real): Option<real> {
    if buckets == [] || buckets[|buckets| - 1].count <= 0.0 then None
    else Walk(buckets, 0, 0.0, 0.0, Target(buckets[|buckets| - 1].count, q))
  }

  /** histogram_quantile, after its rows are selected. */
  method HistogramQuantile(rows: seq<Bucket>, q: real) returns (r: Option<real>)
    ensures r == Quantile(SortByUpper(rows), q)
  {
    var buckets := SortByUpper(rows);
    if buckets == [] { return None; }
    var total := buckets[|buckets| - 1].count;
    if total <= 0.0 { return None; }
    var target := total * q;
    var previousUpper, previousCount := 0.0, 0.0;
    assert target == Target(total, q);
    for i := 0 to |buckets|
      invariant Walk(buckets, i, previousUpper, previousCount, target) == Quantile(buckets, q)
    {
      var upper, count := buckets[i].upper, buckets[i].count;
      if count >= target {
        if upper.Infinite? { return Some(previousUpper); }
        var bucketCount := count - previousCount;
        if bucketCount <= 0.0 { return Some(upper.v); }
        var offset := (target - previousCount) / bucketCount;
        var value := previousUpper + (upper.v - previousUpper) * offset;
        assert value == Interpolate(previousUpper, upper.v, previousCount, count, target);
        return Some(value);
      }
      previousUpper := if upper.Infinite? then previousUpper else upper.v;
      previousCount := count;
    }
    return None;
  }

  lemma Shrink(x: real, o: real)
    requires 0.0 <= x && 0.0 <= o <= 1.0
    ensures 0.0 <= x * o <= x
  {
  }

  lemma Widen(x: real, o: real, p: real)
    requires 0.0 <= x && o <= p
    ensures x * o <= x * p
  {
  }

  lemma Fraction(a: real, b: real)
    requires 0.0 <= a <= b && 0.0 < b
    ensures 0.0 <= a / b <= 1.0
  {
  }

  lemma FractionGrows(a: real, c: real, b: real)
    requires a <= c && 0.0 < b
    ensures a / b <= c / b
  {
  }

  lemma TargetRange(total: real, p: real, q: real)
    requires 0.0 <= total && 0.0 <= p <= q <= 1.0
    ensures 0.0 <= Target(total, p) <= Target(total, q) <= total
  {
    Shrink(total, p);
    Shrink(total, q);
    Widen(total, p, q);
  }

  lemma InterpolateBetween(pu: real, u: real, pc: real, c: real, t: real)
    requires pu <= u && pc <= t <= c && c - pc > 0.0
    ensures pu <= Interpolate(pu, u, pc, c, t) <= u
  {
    Fraction(t - pc, c - pc);
    Shrink(u - pu, (t - pc) / (c - pc));
  }

  lemma InterpolateGrows(pu: real, u: real, pc: real, c: real, s: real, t: real)
    requires pu <= u && s <= t && c - pc > 0.0
    ensures Interpolate(pu, u, pc, c, s) <= Interpolate(pu, u, pc, c, t)
  {
    FractionGrows(s - pc, t - pc, c - pc);
    Widen(u - pu, (s - pc) / (c - pc), (t - pc) / (c - pc));
  }

  /** The state of the walk at bucket `i` is consistent with the buckets. */
  predicate Passing(buckets: seq<Bucket>, i: nat, previousUpper: real, previousCount: real, t: real)
    requires i <= |buckets|
  {
    && Sorted(buckets) && 0.0 <= previousUpper && previousCount <= t
    && buckets != [] && t <= buckets[|buckets| - 1].count
    && (i < |buckets| ==> AtMost(Finite(previousUpper), buckets[i].upper))
    && (i == |buckets| ==> buckets[i - 1].count < t)
  }

  lemma PassingNext(buckets: seq<Bucket>, i: nat, pu: real, pc: real, t: real) returns (next: real)
    requires i < |buckets| && Passing(buckets, i, pu, pc, t) && buckets[i].count < t
    ensures next == (if buckets[i].upper.Infinite? then pu else buckets[i].upper.v) && pu <= next
    ensures i + 1 < |buckets| && Passing(buckets, i + 1, next, buckets[i].count, t)
  {
    next := if buckets[i].upper.Infinite? then pu else buckets[i].upper.v;
    if i + 1 < |buckets| {
      assert AtMost(buckets[i].upper, buckets[i + 1].upper);
    }
  }

  lemma StopsInside(buckets: seq<Bucket>, i: nat, pu: real, pc: real, t: real)
    requires i < |buckets| && Passing(buckets, i, pu, pc, t) && buckets[i].count >= t
    ensures var v := Walk(buckets, i, pu, pc, t); v.Some? && pu <= v.value && AtMost(Finite(v.value), buckets[i].upper)
  {
    var b := buckets[i];
    if b.upper.Finite? && b.count - pc > 0.0 { InterpolateBetween(pu, b.upper.v, pc, b.count, t); }
  }

  /** The walk finds a value, and none below where it is. */
  lemma {:induction false} WalkAbove(buckets: seq<Bucket>, i: nat, pu: real, pc: real, t: real)
    requires i < |buckets| && Passing(buckets, i, pu, pc, t)
    ensures Walk(buckets, i, pu, pc, t).Some? && pu <= Walk(buckets, i, pu, pc, t).value
    decreases |buckets| - i
  {
    if buckets[i].count >= t {
      StopsInside(buckets, i, pu, pc, t);
    } else {
      var next := PassingNext(buckets, i, pu, pc, t);
      WalkAbove(buckets, i + 1, next, buckets[i].count, t);
    }
  }

  /** The value is at most a bound whose count reaches `t`, and at least one whose count does not. */
  lemma {:induction false} WalkBrackets(buckets: seq<Bucket>, i: nat, pu: real, pc: real, t: real, k: nat)
    requires i <= k < |buckets| && Passing(buckets, i, pu, pc, t) && Cumulative(buckets)
    ensures Walk(buckets, i, pu, pc, t).Some?
    ensures Brackets(buckets[k], t, Walk(buckets, i, pu, pc, t).value)
    decreases |buckets| - i
  {
    if buckets[i].count >= t {
      StopsInside(buckets, i, pu, pc, t);
      assert k > i ==> AtMost(buckets[i].upper, buckets[k].upper) && buckets[i].count <= buckets[k].count;
    } else {
      var next := PassingNext(buckets, i, pu, pc, t);
      if k == i {
        WalkAbove(buckets, i + 1, next, buckets[i].count, t);
      } else {
        WalkBrackets(buckets, i + 1, next, buckets[i].count, t, k);
      }
    }
  }

  predicate Brackets(b: Bucket, t: real, v: real) {
    if b.count >= t then AtMost(Finite(v), b.upper) else b.upper.Finite? ==> b.upper.v <= v
  }

  /** The row with the largest bound counted something. */
  predicate Counted(buckets: seq<Bucket>) {
    buckets != [] && buckets[|buckets| - 1].count > 0.0
  }

  lemma Starts(buckets: seq<Bucket>, q: real)
    requires Sorted(buckets) && NonNegative(buckets) && Counted(buckets) && 0.0 <= q <= 1.0
    ensures Passing(buckets, 0, 0.0, 0.0, Target(buckets[|buckets| - 1].count, q))
  {
    TargetRange(buckets[|buckets| - 1].count, q, q);
  }

  /** Both sides of the estimate for one series: it is at most each bound whose count reaches the target, and at
      least each finite bound whose count does not. */
  lemma QuantileBrackets(buckets: seq<Bucket>, q: real, k: nat)
    requires Sorted(buckets) && NonNegative(buckets) && Cumulative(buckets) && Counted(buckets)
    requires k < |buckets| && 0.0 <= q <= 1.0
    ensures Quantile(buckets, q).Some? && 0.0 <= Quantile(buckets, q).value
    ensures Brackets(buckets[k], Target(buckets[|buckets| - 1].count, q), Quantile(buckets, q).value)
  {
    Starts(buckets, q);
    WalkAbove(buckets, 0, 0.0, 0.0, Target(buckets[|buckets| - 1].count, q));
    WalkBrackets(buckets, 0, 0.0, 0.0, Target(buckets[|buckets| - 1].count, q), k);
  }

  /** No finite bound is above `top`. */
  predicate Top(buckets: seq<Bucket>, top: real) {
    forall k :: 0 <= k < |buckets| && buckets[k].upper.Finite? ==> buckets[k].upper.v <= top
  }

  lemma {:induction false} WalkBelow(buckets: seq<Bucket>, i: nat, pu: real, pc: real, t: real, top: real)
    requires i < |buckets| && Passing(buckets, i, pu, pc, t) && pu <= top && Top(buckets, top)
    ensures Walk(buckets, i, pu, pc, t).Some? && Walk(buckets, i, pu, pc, t).value <= top
    decreases |buckets| - i
  {
    if buckets[i].count >= t {
      StopsInside(buckets, i, pu, pc, t);
    } else {
      var next := PassingNext(buckets, i, pu, pc, t);
      WalkBelow(buckets, i + 1, next, buckets[i].count, t, top);
    }
  }

  /** Of any rows in any order: there is a quantile exactly if something was counted, and it lies
      between 0 and the largest finite bound, or is 0 if there is none. */
  lemma QuantileRange(rows: seq<Bucket>, q: real, top: real)
    requires NonNegative(rows) && 0.0 <= q <= 1.0 && 0.0 <= top && Top(rows, top)
    ensures Quantile(SortByUpper(rows), q).Some? <==> Counted(SortByUpper(rows))
    ensures Counted(SortByUpper(rows)) ==> 0.0 <= Quantile(SortByUpper(rows), q).value <= top
  {
    var buckets := SortByUpper(rows);
    SortKeepsBounds(rows, top);
    if Counted(buckets) {
      Starts(buckets, q);
      WalkAbove(buckets, 0, 0.0, 0.0, Target(buckets[|buckets| - 1].count, q));
      WalkBelow(buckets, 0, 0.0, 0.0, Target(buckets[|buckets| - 1].count, q), top);
    }
  }

  lemma SortKeepsBounds(rows: seq<Bucket>, top: real)
    requires NonNegative(rows) && Top(rows, top)
    ensures Sorted(SortByUpper(rows)) && NonNegative(SortByUpper(rows)) && Top(SortByUpper(rows), top)
  {
    SortByUpperIs(rows);
    var buckets := SortByUpper(rows);
    forall k | 0 <= k < |buckets| ensures buckets[k] in rows {
      assert buckets[k] in multiset(buckets);
    }
  }

  lemma {:induction false} TopExists(rows: seq<Bucket>) returns (top: real)
    ensures 0.0 <= top && Top(rows, top)
  {
    if rows == [] { return 0.0; }
    var b := rows[|rows| - 1];
    top := TopExists(rows[..|rows| - 1]);
    if b.upper.Finite? && b.upper.v > top { top := b.upper.v; }
  }

  lemma {:induction false} WalkMonotone(buckets: seq<Bucket>, i: nat, pu: real, pc: real, s: real, t: real)
    requires i < |buckets| && Passing(buckets, i, pu, pc, s) && Passing(buckets, i, pu, pc, t) && s <= t
    ensures Walk(buckets, i, pu, pc, s).Some? && Walk(buckets, i, pu, pc, t).Some?
    ensures Walk(buckets, i, pu, pc, s).value <= Walk(buckets, i, pu, pc, t).value
    decreases |buckets| - i
  {
    var b := buckets[i];
    if b.count >= t {
      if b.upper.Finite? && b.count - pc > 0.0 { InterpolateGrows(pu, b.upper.v, pc, b.count, s, t); }
    } else {
      var next := PassingNext(buckets, i, pu, pc, t);
      if b.count >= s {
        StopsInside(buckets, i, pu, pc, s);
        WalkAbove(buckets, i + 1, next, b.count, t);
      } else {
        var same := PassingNext(buckets, i, pu, pc, s);
        WalkMonotone(buckets, i + 1, next, b.count, s, t);
      }
    }
  }

  /** Of any rows in any order, a larger quantile has no smaller value. */
  lemma QuantileMonotone(rows: seq<Bucket>, p: real, q: real)
    requires NonNegative(rows) && 0.0 <= p <= q <= 1.0
    ensures var x, y := Quantile(SortByUpper(rows), p), Quantile(SortByUpper(rows), q);
            (x.Some? <==> y.Some?) && (x.Some? ==> x.value <= y.value)
  {
    var buckets := SortByUpper(rows);
    var top := TopExists(rows);
    SortKeepsBounds(rows, top);
    if Counted(buckets) {
      var total := buckets[|buckets| - 1].count;
      TargetRange(total, p, q);
      WalkMonotone(buckets, 0, 0.0, 0.0, Target(total, p), Target(total, q));
    }
  }

  /** The largest finite bound before bucket `k` of sorted rows, or 0 if there is none. */
  function LastFinite(buckets: seq<Bucket>, k: nat): real
    requires k <= |buckets|
  {
    if k == 0 then 0.0
    else if buckets[k - 1].upper.Finite? then buckets[k - 1].upper.v
    else LastFinite(buckets, k - 1)
  }

  lemma {:induction false} WalkTo(buckets: seq<Bucket>, i: nat, k: nat, t: real)
    requires i <= k < |buckets| && buckets[k].count >= t && forall j :: i <= j < k ==> buckets[j].count < t
    ensures Walk(buckets, i, LastFinite(buckets, i), if i == 0 then 0.0 else buckets[i - 1].count, t)
         == Walk(buckets, k, LastFinite(buckets, k), if k == 0 then 0.0 else buckets[k - 1].count, t)
    decreases k - i
  {
    if i < k { WalkTo(buckets, i + 1, k, t); }
  }

  lemma OnSegment(pu: real, u: real, pc: real, c: real, t: real)
    requires c - pc > 0.0
    ensures (Interpolate(pu, u, pc, c, t) - pu) * (c - pc) == (u - pu) * (t - pc)
  {
    var o := (t - pc) / (c - pc);
    assert o * (c - pc) == t - pc;
    assert ((u - pu) * o) * (c - pc) == (u - pu) * (o * (c - pc));
  }

  /** The value itself, for any rows in any order: with `k` the first bucket, by bound, that reaches the
      target, it lies on the straight line through the counts at both ends of that bucket; it is the upper
      bound of a bucket without a count of its own, and the last finite bound before an infinite one. */
  lemma QuantileOnLine(rows: seq<Bucket>, q: real, k: nat)
    requires var b := SortByUpper(rows);
             && k < |b| && b[|b| - 1].count > 0.0 && b[k].count >= b[|b| - 1].count * q
             && forall j :: 0 <= j < k ==> b[j].count < b[|b| - 1].count * q
    ensures Quantile(SortByUpper(rows), q).Some?
    ensures var b, v := SortByUpper(rows), Quantile(SortByUpper(rows), q).value;
            var t, low, before := b[|b| - 1].count * q, LastFinite(b, k), if k == 0 then 0.0 else b[k - 1].count;
            if b[k].upper.Infinite? then v == low
            else if b[k].count <= before then v == b[k].upper.v
            else (v - low) * (b[k].count - before) == (b[k].upper.v - low) * (t - before)
  {
    var b := SortByUpper(rows);
    var t, before := b[|b| - 1].count * q, if k == 0 then 0.0 else b[k - 1].count;
    assert t == Target(b[|b| - 1].count, q);
    WalkTo(b, 0, k, t);
    if b[k].upper.Finite? && b[k].count - before > 0.0 {
      OnSegment(LastFinite(b, k), b[k].upper.v, before, b[k].count, t);
    }
  }

  /** The rendered wait buckets with their +Inf row. */
  function WaitBuckets(rows: seq<(real, nat)>, total: nat): (b: seq<Bucket>)
    ensures |b| == |rows| + 1 && b[|rows|] == Bucket(Infinite, total as real)
    ensures forall i :: 0 <= i < |rows| ==> b[i] == Bucket(Finite(rows[i].0), rows[i].1 as real)
  {
    seq(|rows|, i requires 0 <= i < |rows| => Bucket(Finite(rows[i].0), rows[i].1 as real)) + [Bucket(Infinite, total as real)]
  }

  /** The number of waits up to each bound. */
  ghost predicate Rendered(rows: seq<(real, nat)>, waits: seq<real>) {
    && |rows| == |WaitHistogram.BUCKETS|
    && forall i :: 0 <= i < |rows| ==>
         rows[i] == (WaitHistogram.BUCKETS[i], WaitHistogram.CountAtMost(waits, WaitHistogram.BUCKETS[i]))
  }

  lemma WaitBucketsCumulative(rows: seq<(real, nat)>, waits: seq<real>)
    requires Rendered(rows, waits)
    ensures var b := WaitBuckets(rows, |waits|); Sorted(b) && NonNegative(b) && Cumulative(b)
  {
    forall i, j | 0 <= i < j < |rows| ensures rows[i].0 < rows[j].0 && rows[i].1 <= rows[j].1 {
      WaitHistogram.BucketsAscend(i, j);
      WaitHistogram.CountMonotone(waits, WaitHistogram.BUCKETS[i], WaitHistogram.BUCKETS[j]);
    }
    forall i | 0 <= i < |rows| ensures rows[i].1 <= |waits| && 0.0 <= rows[i].0 {
      WaitHistogram.CountMonotone(waits, WaitHistogram.BUCKETS[i], WaitHistogram.BUCKETS[i]);
      if i > 0 { WaitHistogram.BucketsAscend(0, i); }
    }
  }

  lemma SortedAlready(buckets: seq<Bucket>, q: real)
    requires Sorted(buckets)
    ensures Quantile(SortByUpper(buckets), q) == Quantile(buckets, q)
  {
    SortByUpperIs(buckets);
  }

  /** From the recorded waits to a quantile: the estimate lies in the bucket of the true one. */
  lemma WaitQuantileBrackets(rows: seq<(real, nat)>, waits: seq<real>, q: real, k: nat)
    requires Rendered(rows, waits) && waits != [] && 0.0 <= q <= 1.0 && k < |rows|
    ensures var v, t := Quantile(SortByUpper(WaitBuckets(rows, |waits|)), q), Target(|waits| as real, q);
            && v.Some? && 0.0 <= v.value
            && (if WaitHistogram.CountAtMost(waits, rows[k].0) as real >= t then v.value <= rows[k].0 else rows[k].0 <= v.value)
  {
    var buckets := WaitBuckets(rows, |waits|);
    WaitBucketsCumulative(rows, waits);
    SortedAlready(buckets, q);
    BracketsOfLast(buckets, |waits| as real, q, k);
    assert buckets[k] == Bucket(Finite(rows[k].0), WaitHistogram.CountAtMost(waits, rows[k].0) as real);
  }

  lemma BracketsOfLast(buckets: seq<Bucket>, total: real, q: real, k: nat)
    requires Sorted(buckets) && NonNegative(buckets) && Cumulative(buckets) && k < |buckets| && 0.0 <= q <= 1.0
    requires buckets[|buckets| - 1].count == total > 0.0
    ensures var v := Quantile(buckets, q); v.Some? && 0.0 <= v.value && Brackets(buckets[k], Target(total, q), v.value)
  {
    QuantileBrackets(buckets, q, k);
  }
}
