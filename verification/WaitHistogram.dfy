/** Wait-time buckets: each wait is counted once, in the first bucket that fits, and the metrics
    page turns those counts into cumulative ones. */
module WaitHistogram {

  const BUCKETS: seq<real> := [0.01, 0.1, 0.5, 1.0, 3.0, 10.0, 30.0, 60.0, 300.0]

  lemma BucketsAscend(i: nat, j: nat)
    requires i < j < |BUCKETS|
    ensures BUCKETS[i] < BUCKETS[j]
  {
  }

  /** The waits no longer than `bound`. */
  ghost function CountAtMost(waits: seq<real>, bound: real): nat {
    if waits == [] then 0
    else CountAtMost(waits[..|waits| - 1], bound) + (if waits[|waits| - 1] <= bound then 1 else 0)
  }

  /** The waits that fit bucket `i` and no earlier one. */
  ghost predicate FirstFit(w: real, i: nat)
    requires i < |BUCKETS|
  {
    w <= BUCKETS[i] && forall j :: 0 <= j < i ==> w > BUCKETS[j]
  }

  ghost function CountFirstFit(waits: seq<real>, i: nat): nat
    requires i < |BUCKETS|
  {
    if waits == [] then 0
    else CountFirstFit(waits[..|waits| - 1], i) + (if FirstFit(waits[|waits| - 1], i) then 1 else 0)
  }

  /** `histogram` holds one first-fit count per bucket for the recorded waits. */
  ghost predicate Counts(histogram: seq<nat>, waits: seq<real>) {
    |histogram| == |BUCKETS| && forall i :: 0 <= i < |BUCKETS| ==> histogram[i] == CountFirstFit(waits, i)
  }

  /** The sum of the waits, a negative one counting as zero. */
  ghost function TotalOf(waits: seq<real>): real {
    if waits == [] then 0.0
    else TotalOf(waits[..|waits| - 1]) + (if waits[|waits| - 1] < 0.0 then 0.0 else waits[|waits| - 1])
  }

  /** The four statistics fields of the slot manager. */
  datatype WaitStats = WaitStats(samples: nat, totalSeconds: real, maxSeconds: real, histogram: seq<nat>)

  ghost predicate Describes(stats: WaitStats, waits: seq<real>) {
    && stats.samples == |waits|
    && Counts(stats.histogram, waits)
    && stats.totalSeconds == TotalOf(waits)
    && (stats.maxSeconds == 0.0 || stats.maxSeconds in waits)
    && 0.0 <= stats.maxSeconds && (forall w :: w in waits ==> w <= stats.maxSeconds)
  }

  function NoStats(): (stats: WaitStats)
    ensures Describes(stats, [])
  {
    WaitStats(0, 0.0, 0.0, seq(|BUCKETS|, i => 0))
  }

  /** _record_wait: every wait is counted once, in the first bucket that fits. */
  method RecordWait(stats: WaitStats, w: real, ghost waits: seq<real>) returns (s: WaitStats)
    requires Describes(stats, waits)
    ensures Describes(s, waits + [w])
    ensures s.totalSeconds == stats.totalSeconds + (if w < 0.0 then 0.0 else w)
    ensures s.maxSeconds == if w > stats.maxSeconds then w else stats.maxSeconds
  {
    s := stats.(
      samples := stats.samples + 1,
      totalSeconds := stats.totalSeconds + (if w < 0.0 then 0.0 else w),
      maxSeconds := if w > stats.maxSeconds then w else stats.maxSeconds);
    assert (waits + [w])[..|waits|] == waits;
    var i := 0;
    while i < |BUCKETS|
      invariant 0 <= i <= |BUCKETS| && s.histogram == stats.histogram
      invariant s.samples == |waits| + 1 && s.totalSeconds == TotalOf(waits + [w])
      invariant s.maxSeconds == (if w > stats.maxSeconds then w else stats.maxSeconds)
      invariant forall j :: 0 <= j < i ==> w > BUCKETS[j]
    {
      if w <= BUCKETS[i] {
        s := s.(histogram := s.histogram[i := s.histogram[i] + 1]);
        return;
      }
      i := i + 1;
    }
  }

  ghost function FirstFitsBelow(waits: seq<real>, n: nat): nat
    requires n <= |BUCKETS|
  {
    if n == 0 then 0 else FirstFitsBelow(waits, n - 1) + CountFirstFit(waits, n - 1)
  }

  lemma {:induction false} OneWaitMore(waits: seq<real>, n: nat)
    requires waits != [] && n < |BUCKETS|
    ensures var w := waits[|waits| - 1];
            FirstFitsBelow(waits, n + 1) ==
            FirstFitsBelow(waits[..|waits| - 1], n + 1) + (if w <= BUCKETS[n] then 1 else 0)
    decreases n
  {
    var w := waits[|waits| - 1];
    if n > 0 {
      OneWaitMore(waits, n - 1);
      BucketsAscend(n - 1, n);
      if w > BUCKETS[n - 1] {
        forall j | 0 <= j < n ensures w > BUCKETS[j] {
          if j < n - 1 { BucketsAscend(j, n - 1); }
        }
      }
    } else {
      assert FirstFit(w, 0) <==> w <= BUCKETS[0];
    }
  }

  /** Prefix sums of first-fit counts count the waits up to each bound. */
  lemma {:induction false} PrefixSumsCount(waits: seq<real>, n: nat)
    requires n < |BUCKETS|
    ensures FirstFitsBelow(waits, n + 1) == CountAtMost(waits, BUCKETS[n])
    decreases |waits|
  {
    if waits == [] {
      EmptyPrefix(n + 1);
    } else {
      OneWaitMore(waits, n);
      PrefixSumsCount(waits[..|waits| - 1], n);
    }
  }

  lemma {:induction false} EmptyPrefix(n: nat)
    requires n <= |BUCKETS|
    ensures FirstFitsBelow([], n) == 0
  {
    if n > 0 { EmptyPrefix(n - 1); }
  }

  lemma {:induction false} CountMonotone(waits: seq<real>, a: real, b: real)
    requires a <= b
    ensures CountAtMost(waits, a) <= CountAtMost(waits, b) <= |waits|
  {
    if waits != [] { CountMonotone(waits[..|waits| - 1], a, b); }
  }

  /** The cumulative rows of the metrics page, and the +Inf row, which is the sample count. */
  method Render(histogram: seq<nat>, samples: nat, ghost waits: seq<real>)
    returns (rows: seq<(real, nat)>, total: nat)
    requires Counts(histogram, waits) && samples == |waits|
    ensures |rows| == |BUCKETS| && total == |waits|
    ensures |rows| == 9 && forall i :: 0 <= i < 9 ==> rows[i].0 == [0.01, 0.1, 0.5, 1.0, 3.0, 10.0, 30.0, 60.0, 300.0][i]
    ensures forall i :: 0 <= i < |rows| ==> rows[i] == (BUCKETS[i], CountAtMost(waits, BUCKETS[i]))
    ensures forall i, j :: 0 <= i < j < |rows| ==> rows[i].0 < rows[j].0 && rows[i].1 <= rows[j].1 <= total
  {
    rows := [];
    total := samples;
    var cumulative := 0;
    for i := 0 to |BUCKETS|
      invariant cumulative == FirstFitsBelow(waits, i) && |rows| == i
      invariant forall k :: 0 <= k < i ==> rows[k] == (BUCKETS[k], CountAtMost(waits, BUCKETS[k]))
    {
      cumulative := cumulative + histogram[i];
      PrefixSumsCount(waits, i);
      rows := rows + [(BUCKETS[i], cumulative)];
    }
    forall i, j | 0 <= i < j < |rows|
      ensures rows[i].0 < rows[j].0 && rows[i].1 <= rows[j].1 <= total
    {
      BucketsAscend(i, j);
      CountMonotone(waits, BUCKETS[i], BUCKETS[j]);
    }
  }
}
