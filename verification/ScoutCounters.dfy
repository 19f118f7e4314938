/** What a window of restarts reports, said of the counters themselves: several containers, whose counters
    may be reset. */
module ScoutCounters {
  import opened Options
  import opened ScoutRestarts

  // ---------- one sample ----------

  /** The sample has a usable counter, and this is it. */
  predicate Reads(s: Sample, count: int) {
    s.restarts.Some? && s.restarts.value.count > 0 && s.restarts.value.max == count
  }

  predicate BelongsTo(samples: seq<Sample>, k: nat, entity: string)
    requires k < |samples|
  {
    samples[k].entity == entity
  }

  /** p is the last of the first n samples that belongs to the container. */
  predicate IsLast(samples: seq<Sample>, p: nat, n: nat, entity: string) {
    && p < n <= |samples| && BelongsTo(samples, p, entity)
    && forall j {:trigger BelongsTo(samples, j, entity)} | p < j < n :: !BelongsTo(samples, j, entity)
  }

  /** p is the last sample of its container before k. */
  predicate Precedes(samples: seq<Sample>, p: nat, k: nat) {
    k < |samples| && IsLast(samples, p, k, samples[k].entity)
  }

  /** The counter of sample k can be compared with the previous one of its container, at most 90 seconds older,
      and is `rise` above it; a counter that fell was reset, which is no restart. */
  ghost predicate Rises(samples: seq<Sample>, k: nat, rise: int) {
    exists p: nat, before: int, count: int {:trigger Precedes(samples, p, k), Reads(samples[p], before), Reads(samples[k], count)} ::
      && Precedes(samples, p, k) && Reads(samples[p], before) && Reads(samples[k], count)
      && 0 < samples[k].at - samples[p].at <= 90_000
      && rise == if count >= before then count - before else 0
  }

  lemma PriorPrecedes(samples: seq<Sample>, k: nat)
    requires k < |samples|
    ensures var p := Prior(samples, samples[k].entity, k);
            forall q: nat {:trigger Precedes(samples, q, k)} :: Precedes(samples, q, k) <==> p >= 0 && q == p
  {
    var p := Prior(samples, samples[k].entity, k);
    if p >= 0 { assert BelongsTo(samples, p, samples[k].entity); }
  }

  lemma DeltaIsRise(samples: seq<Sample>, k: nat, rise: int)
    requires k < |samples|
    ensures Rises(samples, k, rise) <==> Delta(samples, k) == Some(rise)
  {
    PriorPrecedes(samples, k);
    var p := Prior(samples, samples[k].entity, k);
    if Delta(samples, k) == Some(rise) {
      var before, count := samples[p].restarts.value.max, samples[k].restarts.value.max;
      assert Precedes(samples, p, k) && Reads(samples[p], before) && Reads(samples[k], count);
    }
  }

  // ---------- a block of samples ----------

  function DeltaOrZero(samples: seq<Sample>, k: nat): int
    requires k < |samples|
  {
    match Delta(samples, k) case Some(d) => d case None => 0
  }

  function BlockSum(samples: seq<Sample>, lo: nat, hi: nat): int
    requires lo <= hi <= |samples|
  {
    if lo == hi then 0 else BlockSum(samples, lo, hi - 1) + DeltaOrZero(samples, hi - 1)
  }

  predicate AllCompared(samples: seq<Sample>, lo: nat, hi: nat)
    requires lo <= hi <= |samples|
  {
    forall k | lo <= k < hi :: Delta(samples, k).Some?
  }

  lemma {:induction false} BlocksJoin(samples: seq<Sample>, lo: nat, mid: nat, hi: nat)
    requires lo <= mid <= hi <= |samples|
    ensures BlockSum(samples, lo, hi) == BlockSum(samples, lo, mid) + BlockSum(samples, mid, hi)
  {
    if mid < hi { BlocksJoin(samples, lo, mid, hi - 1); }
  }

  predicate BlockOf(samples: seq<Sample>, n: nat, t: int, lo: nat, hi: nat) {
    lo <= hi <= n <= |samples| && forall k | 0 <= k < n :: samples[k].at == t <==> lo <= k < hi
  }

  lemma SampleElsewhere(samples: seq<Sample>, n: nat, t: int)
    requires 0 < n <= |samples| && samples[n - 1].at != t
    ensures BucketAt(samples, n, t) == BucketAt(samples, n - 1, t)
  {
  }

  /** The bucket of a time holds the block of samples of that time. */
  lemma {:induction false} BucketIsBlock(samples: seq<Sample>, n: nat, t: int, lo: nat, hi: nat)
    requires BlockOf(samples, n, t, lo, hi)
    ensures BucketAt(samples, n, t).count == BlockSum(samples, lo, hi)
    ensures BucketAt(samples, n, t).complete <==> AllCompared(samples, lo, hi)
  {
    if lo == hi {
      EmptyBlock(samples, n, t);
    } else {
      var end := if hi == n then n - 1 else hi;
      assert BlockOf(samples, n - 1, t, lo, end);
      BucketIsBlock(samples, n - 1, t, lo, end);
      if hi == n {
        SampleInBucket(samples, n, t);
        LastOfBlock(samples, lo, n);
      } else {
        SampleElsewhere(samples, n, t);
      }
    }
  }

  lemma SampleInBucket(samples: seq<Sample>, n: nat, t: int)
    requires 0 < n <= |samples| && samples[n - 1].at == t
    ensures BucketAt(samples, n, t).count == BucketAt(samples, n - 1, t).count + DeltaOrZero(samples, n - 1)
    ensures BucketAt(samples, n, t).complete <==> BucketAt(samples, n - 1, t).complete && Delta(samples, n - 1).Some?
  {
  }

  lemma LastOfBlock(samples: seq<Sample>, lo: nat, n: nat)
    requires lo < n <= |samples|
    ensures AllCompared(samples, lo, n) <==> AllCompared(samples, lo, n - 1) && Delta(samples, n - 1).Some?
  {
  }

  lemma {:induction false} EmptyBlock(samples: seq<Sample>, n: nat, t: int)
    requires n <= |samples| && forall k | 0 <= k < n :: samples[k].at != t
    ensures BucketAt(samples, n, t) == Bucket(0, true)
  {
    if n > 0 { EmptyBlock(samples, n - 1, t); }
  }

  /** How many samples come before time t. */
  function Earlier(samples: seq<Sample>, t: int): (n: nat)
    ensures n <= |samples|
  {
    if samples == [] || samples[0].at >= t then 0 else 1 + Earlier(samples[1..], t)
  }

  lemma {:induction false} EarlierSplits(samples: seq<Sample>, t: int)
    requires Ordered(samples)
    ensures forall k | 0 <= k < |samples| :: samples[k].at < t <==> k < Earlier(samples, t)
  {
    if samples != [] && samples[0].at < t {
      EarlierSplits(samples[1..], t);
      forall k | 0 <= k < |samples| ensures samples[k].at < t <==> k < Earlier(samples, t) {
        if k > 0 { assert samples[k] == samples[1..][k - 1]; }
      }
    }
  }

  predicate SplitAt(samples: seq<Sample>, t: int, n: nat) {
    n <= |samples| && forall k | 0 <= k < |samples| :: samples[k].at < t <==> k < n
  }

  /** Times between which no sample lies split the samples alike. */
  lemma SameSplit(samples: seq<Sample>, s: int, t: int, m: nat, n: nat)
    requires SplitAt(samples, s, m) && SplitAt(samples, t, n)
    requires forall k | 0 <= k < |samples| :: samples[k].at < s <==> samples[k].at < t
    ensures m == n
  {
    assert m < |samples| ==> !(samples[m].at < s);
    assert n < |samples| ==> !(samples[n].at < t);
  }

  /** `cut` splits the samples at every time. */
  ghost predicate Cuts(samples: seq<Sample>, cut: int -> nat) {
    forall t :: SplitAt(samples, t, cut(t))
  }

  lemma CutGrows(samples: seq<Sample>, cut: int -> nat, s: int, t: int)
    requires Cuts(samples, cut) && s <= t
    ensures cut(s) <= cut(t)
  {
    assert SplitAt(samples, s, cut(s)) && SplitAt(samples, t, cut(t));
    assert cut(t) < |samples| ==> !(samples[cut(t)].at < t);
  }

  lemma OrderedIsCut(samples: seq<Sample>) returns (cut: int -> nat)
    requires Ordered(samples)
    ensures Cuts(samples, cut)
  {
    cut := t => Earlier(samples, t);
    forall t ensures SplitAt(samples, t, cut(t)) { EarlierSplits(samples, t); }
  }

  /** A point holds the block of samples of its time. */
  lemma PointIsBlock(samples: seq<Sample>, points: seq<Point>, i: nat, lo: nat, hi: nat)
    requires PointsOf(samples, |samples|, points) && i < |points| && lo <= hi
    requires SplitAt(samples, points[i].at, lo) && SplitAt(samples, points[i].at + 1, hi)
    ensures points[i].bucket.count == BlockSum(samples, lo, hi)
    ensures points[i].bucket.complete <==> AllCompared(samples, lo, hi)
  {
    BucketIsBlock(samples, |samples|, points[i].at, lo, hi);
  }

  lemma NotBetween(samples: seq<Sample>, points: seq<Point>, i: nat, k: nat)
    requires PointsOf(samples, |samples|, points) && 0 < i < |points| && k < |samples|
    ensures samples[k].at < points[i - 1].at + 1 <==> samples[k].at < points[i].at
  {
    assert HasPoint(points, samples[k].at);
    var j :| 0 <= j < |points| && points[j].at == samples[k].at;
    assert j < i ==> j == i - 1 || points[j].at < points[i - 1].at;
    assert i <= j ==> i == j || points[i].at < points[j].at;
  }

  lemma NothingBetween(samples: seq<Sample>, points: seq<Point>, i: nat, cut: int -> nat)
    requires Cuts(samples, cut) && PointsOf(samples, |samples|, points) && 0 < i < |points|
    ensures cut(points[i - 1].at + 1) == cut(points[i].at)
  {
    var s, t := points[i - 1].at + 1, points[i].at;
    forall k | 0 <= k < |samples| ensures samples[k].at < s <==> samples[k].at < t { NotBetween(samples, points, i, k); }
    assert SplitAt(samples, s, cut(s)) && SplitAt(samples, t, cut(t));
    SameSplit(samples, s, t, cut(s), cut(t));
  }

  /** The window from one point to another is the block of samples from the time of the first to that of the last. */
  predicate Blocked(samples: seq<Sample>, points: seq<Point>, start: nat, end: nat, lo: nat, hi: nat) {
    && start <= end < |points| && lo <= hi <= |samples|
    && Sum(points, start, end + 1) == BlockSum(samples, lo, hi)
    && (Gaps(points, start, end + 1) == 0 <==> AllCompared(samples, lo, hi))
  }

  lemma OnePoint(samples: seq<Sample>, points: seq<Point>, end: nat, cut: int -> nat)
    requires Cuts(samples, cut) && PointsOf(samples, |samples|, points) && end < |points|
    ensures Blocked(samples, points, end, end, cut(points[end].at), cut(points[end].at + 1))
  {
    var t := points[end].at;
    assert SplitAt(samples, t, cut(t)) && SplitAt(samples, t + 1, cut(t + 1));
    CutGrows(samples, cut, t, t + 1);
    PointIsBlock(samples, points, end, cut(t), cut(t + 1));
  }

  lemma SumOfOne(points: seq<Point>, i: nat)
    requires i < |points|
    ensures Sum(points, i, i + 1) == points[i].bucket.count
    ensures Gaps(points, i, i + 1) == 0 <==> points[i].bucket.complete
  {
  }

  /** The last point joins the block of those before it. */
  lemma AddPoint(samples: seq<Sample>, points: seq<Point>, start: nat, end: nat, lo: nat, mid: nat, hi: nat)
    requires Blocked(samples, points, start, end, lo, mid)
    requires Blocked(samples, points, end + 1, end + 1, mid, hi)
    ensures Blocked(samples, points, start, end + 1, lo, hi)
  {
    SumOfOne(points, end + 1);
    BlocksJoin(samples, lo, mid, hi);
    if AllCompared(samples, lo, hi) {
      assert AllCompared(samples, lo, mid) && AllCompared(samples, mid, hi);
    }
  }

  /** Where the samples of point i begin, and those of the point before it end. */
  function Joint(points: seq<Point>, cut: int -> nat, i: nat): nat
    requires 0 < |points| && i <= |points|
  {
    if i < |points| then cut(points[i].at) else cut(points[i - 1].at + 1)
  }

  lemma EndsAtJoint(samples: seq<Sample>, points: seq<Point>, cut: int -> nat, i: nat)
    requires Cuts(samples, cut) && PointsOf(samples, |samples|, points) && i < |points|
    ensures Joint(points, cut, i + 1) == cut(points[i].at + 1)
  {
    if i + 1 < |points| { NothingBetween(samples, points, i + 1, cut); }
  }

  /** Each point is a block that begins where the one before it ends. */
  ghost predicate Chained(samples: seq<Sample>, points: seq<Point>, cut: int -> nat) {
    forall i | 0 <= i < |points| :: Blocked(samples, points, i, i, Joint(points, cut, i), Joint(points, cut, i + 1))
  }

  lemma PointsAreChained(samples: seq<Sample>, points: seq<Point>, cut: int -> nat)
    requires Cuts(samples, cut) && PointsOf(samples, |samples|, points)
    ensures Chained(samples, points, cut)
  {
    forall i | 0 <= i < |points| ensures Blocked(samples, points, i, i, Joint(points, cut, i), Joint(points, cut, i + 1)) {
      OnePoint(samples, points, i, cut);
      EndsAtJoint(samples, points, cut, i);
    }
  }

  lemma {:induction false} ChainIsBlock(samples: seq<Sample>, points: seq<Point>, start: nat, end: nat, cut: int -> nat)
    requires Chained(samples, points, cut) && start <= end < |points|
    ensures Blocked(samples, points, start, end, Joint(points, cut, start), Joint(points, cut, end + 1))
    decreases end
  {
    assert Blocked(samples, points, end, end, Joint(points, cut, end), Joint(points, cut, end + 1));
    if start < end {
      ChainIsBlock(samples, points, start, end - 1, cut);
      AddPoint(samples, points, start, end - 1, Joint(points, cut, start), Joint(points, cut, end), Joint(points, cut, end + 1));
    }
  }

  lemma WindowIsBlock(samples: seq<Sample>, points: seq<Point>, start: nat, end: nat, cut: int -> nat)
    requires Cuts(samples, cut) && PointsOf(samples, |samples|, points) && start <= end < |points|
    ensures Blocked(samples, points, start, end, cut(points[start].at), cut(points[end].at + 1))
  {
    PointsAreChained(samples, points, cut);
    ChainIsBlock(samples, points, start, end, cut);
    EndsAtJoint(samples, points, cut, end);
  }

  /** The samples from the first point of the window to the last. */
  predicate Spans(samples: seq<Sample>, points: seq<Point>, start: nat, end: nat, lo: nat, hi: nat)
    requires start <= end < |points|
  {
    && lo <= hi <= |samples|
    && forall k | 0 <= k < |samples| :: lo <= k < hi <==> points[start].at <= samples[k].at <= points[end].at
  }

  lemma SpanIsBlock(samples: seq<Sample>, points: seq<Point>, start: nat, end: nat, lo: nat, hi: nat)
    requires Ordered(samples) && PointsOf(samples, |samples|, points) && start <= end < |points|
    requires Spans(samples, points, start, end, lo, hi)
    ensures Blocked(samples, points, start, end, lo, hi)
  {
    var cut := OrderedIsCut(samples);
    var first, last := points[start].at, points[end].at;
    assert HasSample(samples, |samples|, first);
    var k :| 0 <= k < |samples| && samples[k].at == first;
    SpanIsCut(samples, first, last, lo, hi, k, cut);
    WindowIsBlock(samples, points, start, end, cut);
  }

  lemma SpanIsCut(samples: seq<Sample>, first: int, last: int, lo: nat, hi: nat, k: nat, cut: int -> nat)
    requires Ordered(samples) && lo <= k < hi <= |samples| && Cuts(samples, cut)
    requires forall j | 0 <= j < |samples| :: lo <= j < hi <==> first <= samples[j].at <= last
    ensures lo == cut(first) && hi == cut(last + 1)
  {
    SpanSplits(samples, first, last, lo, hi, k);
    assert SplitAt(samples, first, cut(first)) && SplitAt(samples, last + 1, cut(last + 1));
    SameSplit(samples, first, first, lo, cut(first));
    SameSplit(samples, last + 1, last + 1, hi, cut(last + 1));
  }

  lemma SpanSplits(samples: seq<Sample>, first: int, last: int, lo: nat, hi: nat, k: nat)
    requires Ordered(samples) && lo <= k < hi <= |samples|
    requires forall j | 0 <= j < |samples| :: lo <= j < hi <==> first <= samples[j].at <= last
    ensures SplitAt(samples, first, lo) && SplitAt(samples, last + 1, hi)
  {
    forall j | 0 <= j < |samples|
      ensures samples[j].at < first <==> j < lo
      ensures samples[j].at < last + 1 <==> j < hi
    {
      assert first <= samples[k].at <= last;
      assert j <= k ==> samples[j].at <= samples[k].at;
      assert k <= j ==> samples[k].at <= samples[j].at;
    }
  }

  // ---------- what a window reports ----------

  function SumOf(xs: seq<int>): int {
    if xs == [] then 0 else SumOf(xs[..|xs| - 1]) + xs[|xs| - 1]
  }

  /** What each sample of the block rises. */
  ghost predicate RisesBy(samples: seq<Sample>, lo: nat, hi: nat, rises: seq<int>) {
    lo <= hi <= |samples| && |rises| == hi - lo && forall i | 0 <= i < |rises| :: Rises(samples, lo + i, rises[i])
  }

  lemma {:induction false} BlockRises(samples: seq<Sample>, lo: nat, hi: nat) returns (rises: seq<int>)
    requires lo <= hi <= |samples| && AllCompared(samples, lo, hi)
    ensures RisesBy(samples, lo, hi, rises) && BlockSum(samples, lo, hi) == SumOf(rises)
  {
    rises := [];
    if lo < hi {
      var before := BlockRises(samples, lo, hi - 1);
      var d := Delta(samples, hi - 1).value;
      DeltaIsRise(samples, hi - 1, d);
      rises := before + [d];
      OneMoreRise(samples, lo, hi - 1, before, d);
    }
  }

  lemma OneMoreRise(samples: seq<Sample>, lo: nat, n: nat, rises: seq<int>, d: int)
    requires n < |samples| && RisesBy(samples, lo, n, rises) && Rises(samples, n, d)
    ensures RisesBy(samples, lo, n + 1, rises + [d]) && SumOf(rises + [d]) == SumOf(rises) + d
  {
    var all := rises + [d];
    assert all[..|all| - 1] == rises;
    forall i | 0 <= i < |all| ensures Rises(samples, lo + i, all[i]) {
      if i < |rises| { assert Rises(samples, lo + i, rises[i]); }
    }
  }

  /** The sample can be compared with the previous one of its container. */
  ghost predicate Comparable(samples: seq<Sample>, k: nat) {
    exists rise :: Rises(samples, k, rise)
  }

  lemma ComparedIffComparable(samples: seq<Sample>, lo: nat, hi: nat)
    requires lo <= hi <= |samples|
    ensures AllCompared(samples, lo, hi) <==> forall k: nat | lo <= k < hi :: Comparable(samples, k)
  {
    forall k: nat | lo <= k < hi ensures Delta(samples, k).Some? <==> Comparable(samples, k) {
      if Delta(samples, k).Some? { DeltaIsRise(samples, k, Delta(samples, k).value); }
      if rise :| Rises(samples, k, rise) { DeltaIsRise(samples, k, rise); }
    }
    if forall k: nat | lo <= k < hi :: Comparable(samples, k) {
      forall k | lo <= k < hi ensures Delta(samples, k).Some? { assert Comparable(samples, k); }
    }
  }

  /** The window ends at point `end`, which always belongs to it, and reaches back to the point `start`. */
  predicate Begins(points: seq<Point>, end: nat, windowSeconds: int, start: nat) {
    start <= end < |points|
    && forall j | 0 <= j <= end :: start <= j <==> j == end || points[j].at > points[end].at - 1_000 * windowSeconds
  }

  lemma BeginsAtStart(points: seq<Point>, end: nat, windowSeconds: int, start: nat)
    requires end < |points|
    ensures Begins(points, end, windowSeconds, start) <==> WindowStart(points, end, windowSeconds, start)
  {
    forall j | 0 <= j <= end
      ensures InWindow(points, end, windowSeconds, j) <==> j == end || points[j].at > points[end].at - 1_000 * windowSeconds
    {
    }
  }

  /** A window reports a number exactly when it is covered and each of its samples can be compared with the
      previous one of its container; the number is what the counters rose from sample to sample. */
  lemma WindowReports(samples: seq<Sample>, points: seq<Point>, end: nat, windowSeconds: int, start: nat, lo: nat, hi: nat)
    requires Ordered(samples) && PointsOf(samples, |samples|, points) && end < |points|
    requires Begins(points, end, windowSeconds, start) && Spans(samples, points, start, end, lo, hi)
    ensures Naive(points, end, windowSeconds).Some? <==>
              (end - start + 1) * 30 >= windowSeconds && forall k: nat | lo <= k < hi :: Comparable(samples, k)
    ensures Naive(points, end, windowSeconds).Some? ==>
              exists rises :: RisesBy(samples, lo, hi, rises) && Naive(points, end, windowSeconds).value == SumOf(rises)
  {
    BeginsAtStart(points, end, windowSeconds, start);
    NaiveBySum(points, end, windowSeconds, start);
    SpanIsBlock(samples, points, start, end, lo, hi);
    ComparedIffComparable(samples, lo, hi);
    if AllCompared(samples, lo, hi) { var rises := BlockRises(samples, lo, hi); }
  }

  lemma {:induction false} StartOf(points: seq<Point>, end: nat, windowSeconds: int, from: nat) returns (start: nat)
    requires StrictlyAscending(points) && from <= end < |points|
    requires from == end || points[from].at > points[end].at - windowSeconds * 1000
    ensures WindowStart(points, end, windowSeconds, start)
    decreases from
  {
    start := from;
    if from > 0 && points[from - 1].at > points[end].at - windowSeconds * 1000 {
      start := StartOf(points, end, windowSeconds, from - 1);
    } else {
      FindsWindowStart(points, end, windowSeconds, from);
    }
  }

  lemma SpanOf(samples: seq<Sample>, points: seq<Point>, start: nat, end: nat) returns (lo: nat, hi: nat)
    requires Ordered(samples) && StrictlyAscending(points) && start <= end < |points|
    ensures Spans(samples, points, start, end, lo, hi)
  {
    var cut := OrderedIsCut(samples);
    var first, last := points[start].at, points[end].at;
    lo, hi := cut(first), cut(last + 1);
    assert SplitAt(samples, first, lo) && SplitAt(samples, last + 1, hi);
    CutGrows(samples, cut, first, last + 1);
  }

  // ---------- resets ----------

  /** No counter is above the previous one of its container. */
  ghost predicate NeverRises(samples: seq<Sample>) {
    forall p: nat, k: nat {:trigger Precedes(samples, p, k)} | Precedes(samples, p, k) ::
      samples[p].restarts.Some? && samples[k].restarts.Some? ==> samples[k].restarts.value.max <= samples[p].restarts.value.max
  }

  lemma {:induction false} SumOfZeros(rises: seq<int>)
    requires forall i | 0 <= i < |rises| :: rises[i] == 0
    ensures SumOf(rises) == 0
  {
    if rises != [] { SumOfZeros(rises[..|rises| - 1]); }
  }

  /** Counters that are reset or stay as they are never report a restart. */
  lemma ResetsAreNoRestarts(samples: seq<Sample>, points: seq<Point>, windowSeconds: int, values: seq<Observation>, i: nat)
    requires Ordered(samples) && PointsOf(samples, |samples|, points) && Windowed(samples, windowSeconds, values)
    requires NeverRises(samples) && i < |values|
    ensures values[i].value == None || values[i].value == Some(0)
  {
    assert IsNaive(points, windowSeconds, i, values[i]);
    var start := StartOf(points, i, windowSeconds, i);
    var lo, hi := SpanOf(samples, points, start, i);
    BeginsAtStart(points, i, windowSeconds, start);
    WindowReports(samples, points, i, windowSeconds, start, lo, hi);
    if values[i].value.Some? {
      var rises :| RisesBy(samples, lo, hi, rises) && values[i].value.value == SumOf(rises);
      forall j | 0 <= j < |rises| ensures rises[j] == 0 { assert Rises(samples, lo + j, rises[j]); }
      SumOfZeros(rises);
    }
  }

  // ---------- several containers ----------

  /** The counter of the latest of the first n samples of a container. */
  ghost predicate LatestReads(samples: seq<Sample>, n: nat, entity: string, count: int) {
    exists p: nat {:trigger IsLast(samples, p, n, entity)} :: IsLast(samples, p, n, entity) && Reads(samples[p], count)
  }

  /** The counters of some containers after the first n samples. */
  ghost predicate Counters(samples: seq<Sample>, n: nat, entities: seq<string>, counts: seq<int>) {
    |counts| == |entities| && forall i {:trigger counts[i]} | 0 <= i < |entities| :: LatestReads(samples, n, entities[i], counts[i])
  }

  predicate AllDifferent(entities: seq<string>) {
    forall i, j | 0 <= i < j < |entities| :: entities[i] != entities[j]
  }

  ghost predicate NeverFalls(samples: seq<Sample>) {
    forall p: nat, k: nat {:trigger Precedes(samples, p, k)} | Precedes(samples, p, k) ::
      samples[p].restarts.Some? && samples[k].restarts.Some? ==> samples[p].restarts.value.max <= samples[k].restarts.value.max
  }

  lemma {:induction false} SumOfUpdate(xs: seq<int>, i: nat, x: int)
    requires i < |xs|
    ensures SumOf(xs[i := x]) == SumOf(xs) + x - xs[i]
  {
    var n := |xs| - 1;
    if i < n {
      assert xs[i := x][..n] == xs[..n][i := x];
      SumOfUpdate(xs[..n], i, x);
    } else {
      assert xs[i := x][..n] == xs[..n];
    }
  }

  /** One more sample moves the counter of its container by what it rises. */
  lemma NextCounters(samples: seq<Sample>, n: nat, entities: seq<string>, counts: seq<int>, i: nat, rise: int)
    requires n < |samples| && AllDifferent(entities) && Counters(samples, n, entities, counts)
    requires i < |entities| && entities[i] == samples[n].entity && Rises(samples, n, rise) && NeverFalls(samples)
    ensures Counters(samples, n + 1, entities, counts[i := counts[i] + rise])
  {
    var counts' := counts[i := counts[i] + rise];
    forall j | 0 <= j < |entities| ensures LatestReads(samples, n + 1, entities[j], counts'[j]) {
      assert LatestReads(samples, n, entities[j], counts[j]);
      if j == i {
        SameLatest(samples, n, entities[i], counts[i], rise);
      } else {
        assert entities[j] != samples[n].entity;
        LatestStays(samples, n, entities[j], counts[j]);
      }
    }
  }

  lemma LatestStays(samples: seq<Sample>, n: nat, entity: string, count: int)
    requires n < |samples| && LatestReads(samples, n, entity, count) && samples[n].entity != entity
    ensures LatestReads(samples, n + 1, entity, count)
  {
    var p: nat :| IsLast(samples, p, n, entity) && Reads(samples[p], count);
    assert IsLast(samples, p, n + 1, entity);
  }

  lemma SameLatest(samples: seq<Sample>, n: nat, entity: string, count: int, rise: int)
    requires n < |samples| && LatestReads(samples, n, entity, count) && samples[n].entity == entity
    requires Rises(samples, n, rise) && NeverFalls(samples)
    ensures LatestReads(samples, n + 1, entity, count + rise)
  {
    var p: nat :| IsLast(samples, p, n, entity) && Reads(samples[p], count);
    assert Precedes(samples, p, n);
    PriorPrecedes(samples, n);
    assert IsLast(samples, n, n + 1, entity) && Reads(samples[n], count + rise);
  }

  lemma NextRise(samples: seq<Sample>, n: nat, entities: seq<string>, counts: seq<int>, rise: int, total: int) returns (counts': seq<int>)
    requires n < |samples| && AllDifferent(entities) && Gained(samples, n, entities, counts, total) && NeverFalls(samples)
    requires samples[n].entity in entities && Rises(samples, n, rise)
    ensures Gained(samples, n + 1, entities, counts', total + rise)
  {
    var i :| 0 <= i < |entities| && entities[i] == samples[n].entity;
    NextCounters(samples, n, entities, counts, i, rise);
    SumOfUpdate(counts, i, counts[i] + rise);
    counts' := counts[i := counts[i] + rise];
  }

  predicate Listed(samples: seq<Sample>, lo: nat, hi: nat, entities: seq<string>) {
    lo <= hi <= |samples| && forall k {:trigger samples[k].entity in entities} | lo <= k < hi :: samples[k].entity in entities
  }

  /** The counters after a block, given those before it and what its samples rise. */
  ghost predicate Gained(samples: seq<Sample>, hi: nat, entities: seq<string>, counts: seq<int>, total: int) {
    Counters(samples, hi, entities, counts) && SumOf(counts) == total
  }

  /** The first i samples of the block have been counted. */
  lemma CountedSoFar(samples: seq<Sample>, lo: nat, hi: nat, entities: seq<string>, counts: seq<int>, rises: seq<int>, i: nat)
    returns (counts': seq<int>)
    requires RisesBy(samples, lo, hi, rises) && AllDifferent(entities) && NeverFalls(samples) && Listed(samples, lo, hi, entities)
    requires i < |rises| && Gained(samples, lo + i, entities, counts, SumOf(counts))
    ensures Gained(samples, lo + i + 1, entities, counts', SumOf(counts) + rises[i])
  {
    assert Rises(samples, lo + i, rises[i]) && samples[lo + i].entity in entities;
    counts' := NextRise(samples, lo + i, entities, counts, rises[i], SumOf(counts));
  }

  lemma SumOfWhole(xs: seq<int>)
    ensures SumOf(xs[..|xs|]) == SumOf(xs)
  {
    assert xs[..|xs|] == xs;
  }

  lemma SumOfNext(xs: seq<int>, i: nat)
    requires i < |xs|
    ensures SumOf(xs[..i + 1]) == SumOf(xs[..i]) + xs[i]
  {
    assert xs[..i + 1][..i] == xs[..i];
  }

  ghost predicate Reached(samples: seq<Sample>, n: nat, entities: seq<string>, total: int) {
    exists counts :: Gained(samples, n, entities, counts, total)
  }

  lemma ReachesNext(samples: seq<Sample>, lo: nat, hi: nat, entities: seq<string>, rises: seq<int>, i: nat, total: int)
    requires RisesBy(samples, lo, hi, rises) && AllDifferent(entities) && NeverFalls(samples) && Listed(samples, lo, hi, entities)
    requires i < |rises| && Reached(samples, lo + i, entities, total)
    ensures Reached(samples, lo + i + 1, entities, total + rises[i])
  {
    var counts :| Gained(samples, lo + i, entities, counts, total);
    var counts' := CountedSoFar(samples, lo, hi, entities, counts, rises, i);
  }

  /** A total reached before sample lo + i is raised by it. */
  ghost predicate LeadsOn(samples: seq<Sample>, lo: nat, entities: seq<string>, rises: seq<int>, i: nat, total: int)
    requires i < |rises|
  {
    Reached(samples, lo + i, entities, total) ==> Reached(samples, lo + i + 1, entities, total + rises[i])
  }

  ghost predicate Leads(samples: seq<Sample>, lo: nat, entities: seq<string>, rises: seq<int>) {
    forall i: nat, total: int | i < |rises| :: LeadsOn(samples, lo, entities, rises, i, total)
  }

  lemma BlockLeads(samples: seq<Sample>, lo: nat, hi: nat, entities: seq<string>, rises: seq<int>)
    requires RisesBy(samples, lo, hi, rises) && AllDifferent(entities) && NeverFalls(samples) && Listed(samples, lo, hi, entities)
    ensures Leads(samples, lo, entities, rises)
  {
    forall i: nat, total: int | i < |rises| ensures LeadsOn(samples, lo, entities, rises, i, total) {
      if Reached(samples, lo + i, entities, total) { ReachesNext(samples, lo, hi, entities, rises, i, total); }
    }
  }

  lemma {:induction false} CountersRise(samples: seq<Sample>, lo: nat, k: nat, entities: seq<string>, before: int, rises: seq<int>, total: int)
    requires Leads(samples, lo, entities, rises) && lo <= k <= lo + |rises| && Reached(samples, lo, entities, before)
    requires total == before + SumOf(rises[..k - lo])
    ensures Reached(samples, k, entities, total)
  {
    if lo < k {
      var i := k - lo - 1;
      SumOfNext(rises, i);
      CountersRise(samples, lo, k - 1, entities, before, rises, total - rises[i]);
      assert LeadsOn(samples, lo, entities, rises, i, total - rises[i]);
    }
  }

  lemma BlockGains(samples: seq<Sample>, lo: nat, hi: nat, entities: seq<string>, before: int, rises: seq<int>, total: int)
    requires RisesBy(samples, lo, hi, rises) && AllDifferent(entities) && NeverFalls(samples) && Listed(samples, lo, hi, entities)
    requires Reached(samples, lo, entities, before) && total == before + SumOf(rises)
    ensures Reached(samples, hi, entities, total)
  {
    BlockLeads(samples, lo, hi, entities, rises);
    SumOfWhole(rises);
    CountersRise(samples, lo, hi, entities, before, rises, total);
  }

  lemma CountsReached(samples: seq<Sample>, n: nat, entities: seq<string>, before: seq<int>)
    requires Counters(samples, n, entities, before)
    ensures Reached(samples, n, entities, SumOf(before))
  {
    assert Gained(samples, n, entities, before, SumOf(before));
  }

  lemma LatestIsUnique(samples: seq<Sample>, n: nat, entity: string, a: int, b: int)
    requires LatestReads(samples, n, entity, a) && LatestReads(samples, n, entity, b)
    ensures a == b
  {
  }

  lemma CountersAreUnique(samples: seq<Sample>, n: nat, entities: seq<string>, a: seq<int>, b: seq<int>)
    requires Counters(samples, n, entities, a) && Counters(samples, n, entities, b)
    ensures a == b
  {
    forall i | 0 <= i < |entities| ensures a[i] == b[i] { LatestIsUnique(samples, n, entities[i], a[i], b[i]); }
  }

  lemma AreReached(samples: seq<Sample>, n: nat, entities: seq<string>, counts: seq<int>, total: int)
    requires Counters(samples, n, entities, counts) && Reached(samples, n, entities, total)
    ensures SumOf(counts) == total
  {
    var counts' :| Gained(samples, n, entities, counts', total);
    CountersAreUnique(samples, n, entities, counts, counts');
  }

  /** However the samples of several containers interleave, when no counter falls a reported window is the sum of
      what each counter gained from before the window to its end. */
  lemma InterleavedGains(samples: seq<Sample>, points: seq<Point>, end: nat, windowSeconds: int, start: nat, lo: nat, hi: nat,
                         entities: seq<string>, before: seq<int>, after: seq<int>)
    requires Ordered(samples) && PointsOf(samples, |samples|, points) && end < |points| && NeverFalls(samples)
    requires Begins(points, end, windowSeconds, start) && Spans(samples, points, start, end, lo, hi)
    requires AllDifferent(entities) && Listed(samples, lo, hi, entities)
    requires Counters(samples, lo, entities, before) && Counters(samples, hi, entities, after)
    requires Naive(points, end, windowSeconds).Some?
    ensures Naive(points, end, windowSeconds).value == SumOf(after) - SumOf(before)
  {
    WindowReports(samples, points, end, windowSeconds, start, lo, hi);
    var rises :| RisesBy(samples, lo, hi, rises) && Naive(points, end, windowSeconds).value == SumOf(rises);
    CountsReached(samples, lo, entities, before);
    BlockGains(samples, lo, hi, entities, SumOf(before), rises, SumOf(before) + SumOf(rises));
    AreReached(samples, hi, entities, after, SumOf(before) + SumOf(rises));
  }
}
