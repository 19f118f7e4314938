/** Container restarts within a sliding window, from counters that only mean
    something relative to the previous sample of the same container. */
module ScoutRestarts {
  import opened Options
  import opened StableSort

  datatype Aggregate = Aggregate(count: int, max: int)
  datatype Sample = Sample(entity: string, at: int, restarts: Option<Aggregate>)
  datatype Bucket = Bucket(count: int, complete: bool)
  datatype Point = Point(at: int, bucket: Bucket)
  datatype Observation = Observation(at: int, value: Option<int>)

  function CountOf(s: Sample): Option<int> {
    if s.restarts.Some? && s.restarts.value.count > 0 then Some(s.restarts.value.max) else None
  }

  // ---------- what a bucket means ----------

  /** The latest earlier sample of the same container, or -1. */
  function Prior(samples: seq<Sample>, entity: string, k: nat): (p: int)
    requires k <= |samples|
    ensures -1 <= p < k && (p >= 0 ==> samples[p].entity == entity)
    ensures forall j | p < j < k :: samples[j].entity != entity
  {
    if k == 0 then -1 else if samples[k - 1].entity == entity then k - 1 else Prior(samples, entity, k - 1)
  }

  /** The restarts a sample witnesses, when it can be compared with its predecessor. */
  function Delta(samples: seq<Sample>, k: nat): Option<int>
    requires k < |samples|
  {
    var p := Prior(samples, samples[k].entity, k);
    if p < 0 then None
    else
      var count, before := CountOf(samples[k]), CountOf(samples[p]);
      if count.Some? && before.Some? && samples[p].at < samples[k].at && samples[k].at - samples[p].at <= 90_000 then
        Some(if count.value > before.value then count.value - before.value else 0)
      else None
  }

  /** The bucket of time t after the first n samples. */
  function BucketAt(samples: seq<Sample>, n: nat, t: int): Bucket
    requires n <= |samples|
  {
    if n == 0 then Bucket(0, true)
    else
      var rest := BucketAt(samples, n - 1, t);
      if samples[n - 1].at != t then rest
      else
        match Delta(samples, n - 1)
        case Some(d) => Bucket(rest.count + d, rest.complete)
        case None => Bucket(rest.count, false)
  }

  predicate Ordered(samples: seq<Sample>) {
    forall i, j | 0 <= i < j < |samples| :: samples[i].at <= samples[j].at
  }

  predicate StrictlyAscending(points: seq<Point>) {
    forall i, j | 0 <= i < j < |points| :: points[i].at < points[j].at
  }

  predicate HasSample(samples: seq<Sample>, n: nat, t: int)
    requires n <= |samples|
  {
    exists k :: 0 <= k < n && samples[k].at == t
  }

  predicate HasPoint(points: seq<Point>, t: int) {
    exists j :: 0 <= j < |points| && points[j].at == t
  }

  /** One point per time of a sample, in order, each with the bucket of its time. */
  predicate PointsOf(samples: seq<Sample>, n: nat, points: seq<Point>)
    requires n <= |samples|
  {
    && StrictlyAscending(points)
    && (forall j | 0 <= j < |points| :: points[j].bucket == BucketAt(samples, n, points[j].at))
    && (forall j {:trigger HasSample(samples, n, points[j].at)} | 0 <= j < |points| :: HasSample(samples, n, points[j].at))
    && (forall k {:trigger HasPoint(points, samples[k].at)} | 0 <= k < n :: HasPoint(points, samples[k].at))
  }

  /** The time and counter of the latest of the first n samples of each container. */
  ghost predicate Remembers(samples: seq<Sample>, n: nat, previous: map<string, (int, Option<int>)>)
    requires n <= |samples|
  {
    && (forall e :: e in previous <==> Prior(samples, e, n) >= 0)
    && forall e | e in previous ::
         previous[e] == (samples[Prior(samples, e, n)].at, CountOf(samples[Prior(samples, e, n)]))
  }

  function Compared(sample: Sample, previous: map<string, (int, Option<int>)>): Option<int> {
    if sample.entity !in previous then None
    else
      var (at, before) := previous[sample.entity];
      var count := CountOf(sample);
      if count.Some? && before.Some? && sample.at > at && sample.at - at <= 90_000
      then Some(if count.value > before.value then count.value - before.value else 0)
      else None
  }

  lemma ComparedIsDelta(samples: seq<Sample>, n: nat, previous: map<string, (int, Option<int>)>)
    requires n < |samples| && Remembers(samples, n, previous)
    ensures Compared(samples[n], previous) == Delta(samples, n)
  {
  }

  lemma RememberNext(samples: seq<Sample>, n: nat, previous: map<string, (int, Option<int>)>)
    requires n < |samples| && Remembers(samples, n, previous)
    ensures Remembers(samples, n + 1, previous[samples[n].entity := (samples[n].at, CountOf(samples[n]))])
  {
  }

  /** The first loop.  In time order the bucket of a sample is either the last one or new. */
  method Buckets(ordered: seq<Sample>) returns (points: seq<Point>)
    requires Ordered(ordered)
    ensures PointsOf(ordered, |ordered|, points)
  {
    var previous: map<string, (int, Option<int>)> := map[];
    points := [];
    for i := 0 to |ordered|
      invariant PointsOf(ordered, i, points)
      invariant Remembers(ordered, i, previous)
    {
      var sample := ordered[i];
      LastIsLatest(ordered, i, points);
      ComparedIsDelta(ordered, i, previous);
      var delta := Compared(sample, previous);
      ghost var before := points;
      var bucket := Bucket(0, true);
      if points != [] && points[|points| - 1].at == sample.at {
        bucket := points[|points| - 1].bucket;
        points := points[..|points| - 1];
      }
      if delta.Some? { bucket := bucket.(count := bucket.count + delta.value); }
      else { bucket := bucket.(complete := false); }
      assert bucket == BucketAt(ordered, i + 1, sample.at);
      AddSample(ordered, i, before, points, Point(sample.at, bucket));
      points := points + [Point(sample.at, bucket)];
      RememberNext(ordered, i, previous);
      previous := previous[sample.entity := (sample.at, CountOf(sample))];
    }
  }

  /** In time order no point is later than the next sample. */
  lemma LastIsLatest(samples: seq<Sample>, i: nat, points: seq<Point>)
    requires Ordered(samples) && i < |samples| && PointsOf(samples, i, points)
    ensures forall j | 0 <= j < |points| :: points[j].at <= samples[i].at
    ensures points == [] || points[|points| - 1].at != samples[i].at ==>
              (forall j | 0 <= j < |points| :: points[j].at < samples[i].at)
              && BucketAt(samples, i, samples[i].at) == Bucket(0, true)
  {
    forall j | 0 <= j < |points| ensures points[j].at <= samples[i].at {
      assert HasSample(samples, i, points[j].at);
    }
    if points == [] || points[|points| - 1].at != samples[i].at {
      forall k | 0 <= k < i ensures samples[k].at != samples[i].at {
        assert HasPoint(points, samples[k].at);
      }
      NoSampleNoBucket(samples, i, samples[i].at);
    }
  }

  lemma {:induction false} NoSampleNoBucket(samples: seq<Sample>, n: nat, t: int)
    requires n <= |samples| && forall k | 0 <= k < n :: samples[k].at != t
    ensures BucketAt(samples, n, t) == Bucket(0, true)
  {
    if n > 0 { NoSampleNoBucket(samples, n - 1, t); }
  }

  lemma AddSample(samples: seq<Sample>, i: nat, points: seq<Point>, kept: seq<Point>, last: Point)
    requires i < |samples| && PointsOf(samples, i, points)
    requires last.at == samples[i].at && last.bucket == BucketAt(samples, i + 1, last.at)
    requires forall j | 0 <= j < |kept| :: kept[j].at < last.at
    requires Keeps(points, kept, last)
    ensures PointsOf(samples, i + 1, kept + [last])
  {
    var points' := kept + [last];
    assert StrictlyAscending(kept);
    forall j | 0 <= j < |points'|
      ensures HasSample(samples, i + 1, points'[j].at) && points'[j].bucket == BucketAt(samples, i + 1, points'[j].at)
    {
      NewPointIsRight(samples, i, points, kept, last, j);
    }
    forall k | 0 <= k < i + 1 ensures HasPoint(points', samples[k].at) {
      NewPointsCover(samples, i, points, kept, last, k);
    }
  }

  /** Everything but a point of the same time as the new one. */
  predicate Keeps(points: seq<Point>, kept: seq<Point>, last: Point) {
    kept == points || (points != [] && kept == points[..|points| - 1] && points[|points| - 1].at == last.at)
  }

  lemma NewPointIsRight(samples: seq<Sample>, i: nat, points: seq<Point>, kept: seq<Point>, last: Point, j: nat)
    requires i < |samples| && PointsOf(samples, i, points) && Keeps(points, kept, last) && j <= |kept|
    requires last.at == samples[i].at && last.bucket == BucketAt(samples, i + 1, last.at)
    requires forall j | 0 <= j < |kept| :: kept[j].at < last.at
    ensures var p := (kept + [last])[j]; HasSample(samples, i + 1, p.at) && p.bucket == BucketAt(samples, i + 1, p.at)
  {
    if j < |kept| {
      assert kept[j] == points[j];
      assert HasSample(samples, i, points[j].at);
      OldSample(samples, i, points[j].at);
    } else {
      assert samples[i].at == last.at;
    }
  }

  lemma NewPointsCover(samples: seq<Sample>, i: nat, points: seq<Point>, kept: seq<Point>, last: Point, k: nat)
    requires k <= i < |samples| && PointsOf(samples, i, points) && Keeps(points, kept, last) && last.at == samples[i].at
    ensures HasPoint(kept + [last], samples[k].at)
  {
    if samples[k].at == last.at {
      assert (kept + [last])[|kept|].at == samples[k].at;
    } else {
      assert HasPoint(points, samples[k].at);
      var j :| 0 <= j < |points| && points[j].at == samples[k].at;
      assert (kept + [last])[j].at == samples[k].at;
    }
  }

  lemma OldSample(samples: seq<Sample>, i: nat, t: int)
    requires i < |samples| && t != samples[i].at
    ensures HasSample(samples, i, t) ==> HasSample(samples, i + 1, t)
    ensures BucketAt(samples, i + 1, t) == BucketAt(samples, i, t)
  {
    if HasSample(samples, i, t) {
      var k :| 0 <= k < i && samples[k].at == t;
    }
  }

  // ---------- the window ----------

  /** The points of the window that ends at point `end`; the end itself always belongs. */
  predicate InWindow(points: seq<Point>, end: nat, windowSeconds: int, j: nat)
    requires j <= end < |points|
  {
    j == end || points[j].at > points[end].at - windowSeconds * 1000
  }

  function Total(points: seq<Point>, end: nat, windowSeconds: int, n: nat): int
    requires n <= end + 1 <= |points|
  {
    if n == 0 then 0
    else Total(points, end, windowSeconds, n - 1) + if InWindow(points, end, windowSeconds, n - 1) then points[n - 1].bucket.count else 0
  }

  function Size(points: seq<Point>, end: nat, windowSeconds: int, n: nat): nat
    requires n <= end + 1 <= |points|
  {
    if n == 0 then 0
    else Size(points, end, windowSeconds, n - 1) + if InWindow(points, end, windowSeconds, n - 1) then 1 else 0
  }

  predicate Complete(points: seq<Point>, end: nat, windowSeconds: int)
    requires end < |points|
  {
    forall j | 0 <= j <= end && InWindow(points, end, windowSeconds, j) :: points[j].bucket.complete
  }

  /** The naive value: the sum over the window, when all of it is complete and it is covered. */
  function Naive(points: seq<Point>, end: nat, windowSeconds: int): Option<int>
    requires end < |points|
  {
    if Complete(points, end, windowSeconds) && Size(points, end, windowSeconds, end + 1) * 30 >= windowSeconds
    then Some(Total(points, end, windowSeconds, end + 1)) else None
  }

  predicate IsNaive(points: seq<Point>, windowSeconds: int, i: nat, o: Observation)
    requires i < |points|
  {
    o.at == points[i].at && o.value == Naive(points, i, windowSeconds)
  }

  function Sum(points: seq<Point>, lo: nat, hi: nat): int
    requires lo <= hi <= |points|
  {
    if lo == hi then 0 else Sum(points, lo, hi - 1) + points[hi - 1].bucket.count
  }

  function Gaps(points: seq<Point>, lo: nat, hi: nat): nat
    requires lo <= hi <= |points|
  {
    if lo == hi then 0 else Gaps(points, lo, hi - 1) + if points[hi - 1].bucket.complete then 0 else 1
  }

  lemma {:induction false} DropFirst(points: seq<Point>, lo: nat, hi: nat)
    requires lo < hi <= |points|
    ensures Sum(points, lo, hi) == points[lo].bucket.count + Sum(points, lo + 1, hi)
    ensures Gaps(points, lo, hi) == (if points[lo].bucket.complete then 0 else 1) + Gaps(points, lo + 1, hi)
  {
    if lo + 1 < hi { DropFirst(points, lo, hi - 1); }
  }

  lemma {:induction false} NoGaps(points: seq<Point>, lo: nat, hi: nat)
    requires lo <= hi <= |points|
    ensures Gaps(points, lo, hi) == 0 <==> forall j | lo <= j < hi :: points[j].bucket.complete
  {
    if lo < hi { NoGaps(points, lo, hi - 1); }
  }

  /** `start` separates the points before the window from those in it. */
  predicate WindowStart(points: seq<Point>, end: nat, windowSeconds: int, start: nat)
    requires end < |points|
  {
    start <= end && forall j | 0 <= j <= end :: InWindow(points, end, windowSeconds, j) <==> start <= j
  }

  lemma {:induction false} NaivePrefix(points: seq<Point>, end: nat, windowSeconds: int, start: nat, n: nat)
    requires end < |points| && WindowStart(points, end, windowSeconds, start) && n <= end + 1
    ensures n <= start ==> Total(points, end, windowSeconds, n) == 0 && Size(points, end, windowSeconds, n) == 0
    ensures start <= n ==> Total(points, end, windowSeconds, n) == Sum(points, start, n)
                           && Size(points, end, windowSeconds, n) == n - start
  {
    if n > 0 {
      NaivePrefix(points, end, windowSeconds, start, n - 1);
      assert InWindow(points, end, windowSeconds, n - 1) <==> start <= n - 1;
    }
  }

  lemma NaiveBySum(points: seq<Point>, end: nat, windowSeconds: int, start: nat)
    requires end < |points| && WindowStart(points, end, windowSeconds, start)
    ensures Naive(points, end, windowSeconds) ==
            if Gaps(points, start, end + 1) == 0 && (end - start + 1) * 30 >= windowSeconds
            then Some(Sum(points, start, end + 1)) else None
  {
    NaivePrefix(points, end, windowSeconds, start, end + 1);
    NoGaps(points, start, end + 1);
  }

  lemma FindsWindowStart(points: seq<Point>, end: nat, windowSeconds: int, start: nat)
    requires StrictlyAscending(points) && start <= end < |points|
    requires start == end || points[start].at > points[end].at - windowSeconds * 1000
    requires start == 0 || points[start - 1].at <= points[end].at - windowSeconds * 1000
    ensures WindowStart(points, end, windowSeconds, start)
  {
  }

  /** The second loop: two pointers and running totals give the naive value at every point. */
  method Windows(points: seq<Point>, windowSeconds: int) returns (values: seq<Observation>)
    requires StrictlyAscending(points)
    ensures |values| == |points| && forall i | 0 <= i < |points| :: IsNaive(points, windowSeconds, i, values[i])
  {
    var start, total, incomplete := 0, 0, 0;
    values := [];
    for end := 0 to |points|
      invariant |values| == end && forall i | 0 <= i < end :: IsNaive(points, windowSeconds, i, values[i])
      invariant start <= end && total == Sum(points, start, end) && incomplete == Gaps(points, start, end)
      invariant start == 0 || points[start - 1].at <= points[end - 1].at - windowSeconds * 1000
    {
      var at := points[end].at;
      total := total + points[end].bucket.count;
      incomplete := incomplete + if points[end].bucket.complete then 0 else 1;
      while start < end && points[start].at <= at - windowSeconds * 1000
        invariant start <= end && total == Sum(points, start, end + 1) && incomplete == Gaps(points, start, end + 1)
        invariant start == 0 || points[start - 1].at <= at - windowSeconds * 1000
      {
        DropFirst(points, start, end + 1);
        var left := points[start].bucket;
        start := start + 1;
        total := total - left.count;
        incomplete := incomplete - if left.complete then 0 else 1;
      }
      FindsWindowStart(points, end, windowSeconds, start);
      NaiveBySum(points, end, windowSeconds, start);
      var value := if incomplete == 0 && (end - start + 1) * 30 >= windowSeconds then Some(total) else None;
      assert IsNaive(points, windowSeconds, end, Observation(at, value));
      values := values + [Observation(at, value)];
    }
  }

  lemma TimesAgree(samples: seq<Sample>, n: nat, xs: seq<Point>, ys: seq<Point>, i: nat)
    requires n <= |samples| && PointsOf(samples, n, xs) && PointsOf(samples, n, ys) && i < |xs|
    ensures HasPoint(ys, xs[i].at)
  {
    assert HasSample(samples, n, xs[i].at);
    var k :| 0 <= k < n && samples[k].at == xs[i].at;
    assert HasPoint(ys, samples[k].at);
  }

  /** The samples determine the points. */
  lemma PointsAreDetermined(samples: seq<Sample>, n: nat, xs: seq<Point>, ys: seq<Point>)
    requires n <= |samples| && PointsOf(samples, n, xs) && PointsOf(samples, n, ys)
    ensures xs == ys
  {
    var times := seq(|xs|, k requires 0 <= k < |xs| => xs[k].at);
    var others := seq(|ys|, k requires 0 <= k < |ys| => ys[k].at);
    forall t ensures t in times <==> t in others {
      if t in times {
        var i :| 0 <= i < |times| && times[i] == t;
        TimesAgree(samples, n, xs, ys, i);
        var j :| 0 <= j < |ys| && ys[j].at == t;
        assert others[j] == t;
      }
      if t in others {
        var i :| 0 <= i < |others| && others[i] == t;
        TimesAgree(samples, n, ys, xs, i);
        var j :| 0 <= j < |xs| && xs[j].at == t;
        assert times[j] == t;
      }
    }
    SameAscending(times, others);
    forall k | 0 <= k < |xs| ensures xs[k] == ys[k] {
      assert times[k] == others[k];
    }
  }

  /** One naive value for each of the points that the samples determine. */
  ghost predicate Windowed(ordered: seq<Sample>, windowSeconds: int, values: seq<Observation>) {
    forall points | PointsOf(ordered, |ordered|, points) ::
      |values| == |points| && forall i | 0 <= i < |points| :: IsNaive(points, windowSeconds, i, values[i])
  }

  /** The whole computation, for samples in any order. */
  method RestartObservations(samples: seq<Sample>, windowSeconds: int) returns (values: seq<Observation>)
    ensures var ordered := SortBy(samples, (s: Sample) => s.at);
            Ordered(ordered) && multiset(ordered) == multiset(samples) && Windowed(ordered, windowSeconds, values)
  {
    var key := (s: Sample) => s.at;
    var ordered := SortBy(samples, key);
    SortIsOrdered(samples, key);
    forall i, j | 0 <= i < j < |ordered| ensures ordered[i].at <= ordered[j].at {
      assert key(ordered[i]) <= key(ordered[j]);
    }
    var buckets := Buckets(ordered);
    values := Windows(buckets, windowSeconds);
    forall points | PointsOf(ordered, |ordered|, points) ensures points == buckets {
      PointsAreDetermined(ordered, |ordered|, points, buckets);
    }
  }

  // ---------- one container, sampled without interruption ----------

  /** One container whose counter never resets, sampled at least every 90 seconds. */
  predicate Steady(samples: seq<Sample>) {
    && (forall i, j | 0 <= i < j < |samples| :: samples[i].at < samples[j].at)
    && (forall i | 0 <= i < |samples| :: samples[i].entity == samples[0].entity && CountOf(samples[i]).Some?)
    && (forall i | 0 < i < |samples| ::
          samples[i].at - samples[i - 1].at <= 90_000 && CountOf(samples[i - 1]).value <= CountOf(samples[i]).value)
  }

  function Counter(samples: seq<Sample>, k: nat): int
    requires k < |samples| && Steady(samples)
  {
    CountOf(samples[k]).value
  }

  lemma SteadyDelta(samples: seq<Sample>, k: nat)
    requires Steady(samples) && k < |samples|
    ensures Delta(samples, k) == if k == 0 then None else Some(Counter(samples, k) - Counter(samples, k - 1))
  {
    assert samples[k].entity == samples[0].entity;
    if k > 0 { assert samples[k - 1].entity == samples[0].entity; }
  }

  lemma {:induction false} SteadyBucket(samples: seq<Sample>, n: nat, k: nat)
    requires Steady(samples) && k < n <= |samples|
    ensures BucketAt(samples, n, samples[k].at) ==
            if k == 0 then Bucket(0, false) else Bucket(Counter(samples, k) - Counter(samples, k - 1), true)
  {
    if n == k + 1 {
      SteadyDelta(samples, k);
      NoSampleNoBucket(samples, k, samples[k].at);
    } else {
      SteadyBucket(samples, n - 1, k);
    }
  }

  lemma {:induction false} SameAscending(xs: seq<int>, ys: seq<int>)
    requires forall i, j | 0 <= i < j < |xs| :: xs[i] < xs[j]
    requires forall i, j | 0 <= i < j < |ys| :: ys[i] < ys[j]
    requires forall x :: x in xs <==> x in ys
    ensures xs == ys
  {
    assert xs == [] <==> ys == [] by {
      if xs != [] { assert xs[0] in ys; }
      if ys != [] { assert ys[0] in xs; }
    }
    if xs != [] {
      assert xs[0] in ys && ys[|ys| - 1] in xs && xs[|xs| - 1] in ys;
      var n, m := |xs| - 1, |ys| - 1;
      assert xs[n] == ys[m];
      forall x ensures x in xs[..n] <==> x in ys[..m] {
        if x in xs[..n] { assert x in xs && x < xs[n]; }
        if x in ys[..m] { assert x in ys && x < ys[m]; }
      }
      SameAscending(xs[..n], ys[..m]);
      assert xs == xs[..n] + [xs[n]] && ys == ys[..m] + [ys[m]];
    }
  }

  lemma SteadyPoints(samples: seq<Sample>, points: seq<Point>)
    requires Steady(samples) && PointsOf(samples, |samples|, points)
    ensures |points| == |samples|
    ensures forall k | 0 <= k < |samples| :: points[k].at == samples[k].at &&
              points[k].bucket == if k == 0 then Bucket(0, false) else Bucket(Counter(samples, k) - Counter(samples, k - 1), true)
  {
    var xs := seq(|points|, k requires 0 <= k < |points| => points[k].at);
    var ys := seq(|samples|, k requires 0 <= k < |samples| => samples[k].at);
    forall x ensures x in xs <==> x in ys {
      if x in xs {
        var j :| 0 <= j < |xs| && xs[j] == x;
        assert HasSample(samples, |samples|, points[j].at);
        var k :| 0 <= k < |samples| && samples[k].at == x;
        assert ys[k] == x;
      }
      if x in ys {
        var k :| 0 <= k < |ys| && ys[k] == x;
        assert HasPoint(points, samples[k].at);
        var j :| 0 <= j < |points| && points[j].at == x;
        assert xs[j] == x;
      }
    }
    SameAscending(xs, ys);
    forall k: nat | k < |samples|
      ensures points[k].at == samples[k].at && points[k].bucket ==
              if k == 0 then Bucket(0, false) else Bucket(Counter(samples, k) - Counter(samples, k - 1), true)
    {
      assert xs[k] == ys[k];
      SteadyBucket(samples, |samples|, k);
    }
  }

  lemma {:induction false} SumTelescopes(samples: seq<Sample>, points: seq<Point>, lo: nat, hi: nat)
    requires Steady(samples) && PointsOf(samples, |samples|, points) && 0 < lo < hi <= |samples| == |points|
    ensures Sum(points, lo, hi) == Counter(samples, hi - 1) - Counter(samples, lo - 1)
    ensures Gaps(points, lo, hi) == 0
  {
    SteadyPoints(samples, points);
    if lo + 1 < hi {
      SumTelescopes(samples, points, lo, hi - 1);
    } else {
      assert Sum(points, lo, lo) == 0 && Gaps(points, lo, lo) == 0;
    }
  }

  lemma StartIsIncomplete(samples: seq<Sample>, points: seq<Point>, hi: nat)
    requires Steady(samples) && PointsOf(samples, |samples|, points) && 0 < hi <= |points|
    ensures Gaps(points, 0, hi) > 0
  {
    SteadyPoints(samples, points);
    NoGaps(points, 0, hi);
    assert points[0].at == samples[0].at;
    SteadyBucket(samples, |samples|, 0);
  }

  /** The window of a steady container reports exactly what its counter gained since the
      last sample before the window, and nothing when there is none or the window is not covered. */
  lemma WindowTelescopes(samples: seq<Sample>, points: seq<Point>, end: nat, windowSeconds: int, start: nat)
    requires Steady(samples) && PointsOf(samples, |samples|, points) && end < |points|
    requires WindowStart(points, end, windowSeconds, start)
    ensures |points| == |samples| && start < |samples|
    ensures Naive(points, end, windowSeconds) ==
            if start > 0 && (end - start + 1) * 30 >= windowSeconds
            then Some(Counter(samples, end) - Counter(samples, start - 1)) else None
  {
    SteadyPoints(samples, points);
    NaiveBySum(points, end, windowSeconds, start);
    if start > 0 { SumTelescopes(samples, points, start, end + 1); }
    else { StartIsIncomplete(samples, points, end + 1); }
  }
}
