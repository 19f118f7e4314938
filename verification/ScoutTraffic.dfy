/** Traffic counts over a window that the collected samples must cover. */
module ScoutTraffic {
  import opened Options
  import opened StableSort

  const MAX_SAFE_INTEGER := 9_007_199_254_740_991

  /** A count as received: an integer of any size, or a number that is not one. */
  datatype Count = Whole(n: int) | NotAnInteger
  datatype Sample = Sample(at: int, count: Count, ready: bool, dropped: Option<int>)
  datatype Observation = Observation(at: int, value: Option<int>)

  predicate Safe(c: Count) {
    c.Whole? && 0 <= c.n <= MAX_SAFE_INTEGER
  }

  // ---------- specification ----------

  predicate Ordered(points: seq<Sample>) {
    forall i, j | 0 <= i < j < |points| :: points[i].at <= points[j].at
  }

  /** The last sample at or before the boundary, or -1. */
  function Baseline(ordered: seq<Sample>, boundary: int, n: nat): (b: int)
    requires n <= |ordered|
    ensures -1 <= b < n && (b >= 0 ==> ordered[b].at <= boundary)
    ensures forall j | b < j < n :: ordered[j].at > boundary
  {
    if n == 0 then -1 else if ordered[n - 1].at <= boundary then n - 1 else Baseline(ordered, boundary, n - 1)
  }

  predicate Usable(p: Sample, dropped: Option<int>) {
    p.ready && p.dropped.Some? && p.dropped == dropped && Safe(p.count)
  }

  /** From sample b on: all usable with one dropped counter, each within 45 s after its predecessor. */
  predicate Contiguous(ordered: seq<Sample>, b: nat)
    requires b < |ordered|
  {
    && (forall i | b <= i < |ordered| :: Usable(ordered[i], ordered[b].dropped))
    && (forall i | b < i < |ordered| :: 0 < ordered[i].at - ordered[i - 1].at <= 45_000)
  }

  function CountsFrom(ordered: seq<Sample>, from: nat, to: nat): int
    requires from <= to <= |ordered|
  {
    if from == to then 0
    else CountsFrom(ordered, from, to - 1) + if ordered[to - 1].count.Whole? then ordered[to - 1].count.n else 0
  }

  function LatestAt(ordered: seq<Sample>, now: int): int {
    if ordered == [] then now else ordered[|ordered| - 1].at
  }

  function Boundary(ordered: seq<Sample>, windowSeconds: int, now: int): int {
    LatestAt(ordered, now) - windowSeconds * 1000
  }

  /** The window that ends at the latest sample is fresh, has a baseline, and is covered from there. */
  predicate Covered(ordered: seq<Sample>, windowSeconds: int, now: int) {
    && ordered != [] && now - LatestAt(ordered, now) <= 90_000
    && var boundary := Boundary(ordered, windowSeconds, now);
       var b := Baseline(ordered, boundary, |ordered|);
       b >= 0 && boundary - ordered[b].at <= 45_000 && Contiguous(ordered, b)
  }

  // ---------- the computation ----------

  method FindBaseline(ordered: seq<Sample>, boundary: int) returns (baseline: int)
    ensures baseline == Baseline(ordered, boundary, |ordered|)
  {
    baseline := -1;
    for index := 0 to |ordered|
      invariant baseline == Baseline(ordered, boundary, index)
    {
      if ordered[index].at <= boundary { baseline := index; }
    }
  }

  method SumFrom(ordered: seq<Sample>, b: nat) returns (total: Option<int>)
    requires b < |ordered|
    ensures total.Some? <==> Contiguous(ordered, b)
    ensures total.Some? ==> total.value == CountsFrom(ordered, b + 1, |ordered|)
  {
    var sum := 0;
    for index := b to |ordered|
      invariant forall i | b <= i < index :: Usable(ordered[i], ordered[b].dropped)
      invariant forall i | b < i < index :: 0 < ordered[i].at - ordered[i - 1].at <= 45_000
      invariant sum == if index == b then 0 else CountsFrom(ordered, b + 1, index)
    {
      var point := ordered[index];
      if !point.ready || point.dropped.None? || point.dropped != ordered[b].dropped || !Safe(point.count) {
        return None;
      }
      if index > b {
        var gap := point.at - ordered[index - 1].at;
        if gap <= 0 || gap > 45_000 { return None; }
        sum := sum + point.count.n;
      }
    }
    total := Some(sum);
  }

  function Past(samples: seq<Sample>, now: int): seq<Sample> {
    if samples == [] then [] else (if samples[0].at <= now then [samples[0]] else []) + Past(samples[1..], now)
  }

  /** A number exactly when the window is covered: the counts after the baseline. */
  predicate Reported(ordered: seq<Sample>, windowSeconds: int, now: int, o: Observation) {
    && o.at == LatestAt(ordered, now)
    && (o.value.Some? <==> Covered(ordered, windowSeconds, now))
    && (o.value.Some? ==>
          var b := Baseline(ordered, Boundary(ordered, windowSeconds, now), |ordered|);
          o.value.value == CountsFrom(ordered, b + 1, |ordered|))
  }

  method Observe(ordered: seq<Sample>, windowSeconds: int, now: int) returns (o: Observation)
    ensures Reported(ordered, windowSeconds, now, o)
  {
    if ordered == [] { return Observation(now, None); }
    var latest := ordered[|ordered| - 1];
    if now - latest.at > 90_000 { return Observation(latest.at, None); }
    var boundary := latest.at - windowSeconds * 1000;
    var baseline := FindBaseline(ordered, boundary);
    if baseline < 0 || boundary - ordered[baseline].at > 45_000 { return Observation(latest.at, None); }
    var total := SumFrom(ordered, baseline);
    o := Observation(latest.at, total);
  }

  method TrafficObservation(samples: seq<Sample>, windowSeconds: int, now: int) returns (o: Observation)
    ensures var ordered := SortBy(Past(samples, now), (p: Sample) => p.at);
            Ordered(ordered) && multiset(ordered) == multiset(Past(samples, now)) && Reported(ordered, windowSeconds, now, o)
  {
    var key := (p: Sample) => p.at;
    var ordered := SortBy(Past(samples, now), key);
    SortIsOrdered(Past(samples, now), key);
    forall i, j | 0 <= i < j < |ordered| ensures ordered[i].at <= ordered[j].at {
      assert key(ordered[i]) <= key(ordered[j]);
    }
    o := Observe(ordered, windowSeconds, now);
  }

  // ---------- what a number means ----------

  function After(samples: seq<Sample>, boundary: int): int {
    if samples == [] then 0
    else (if samples[0].at > boundary && samples[0].count.Whole? then samples[0].count.n else 0) + After(samples[1..], boundary)
  }

  lemma {:induction false} CountsAreAfter(ordered: seq<Sample>, boundary: int, n: nat)
    requires Ordered(ordered) && n <= |ordered|
    ensures After(ordered[..n], boundary) == CountsFrom(ordered, Baseline(ordered, boundary, n) + 1, n)
  {
    if n > 0 {
      CountsAreAfter(ordered, boundary, n - 1);
      assert ordered[..n] == ordered[..n - 1] + [ordered[n - 1]];
      AfterAppend(ordered[..n - 1], [ordered[n - 1]], boundary);
      if ordered[n - 1].at <= boundary { NothingAfter(ordered[..n - 1], boundary); }
    }
  }

  lemma {:induction false} AfterAppend(xs: seq<Sample>, ys: seq<Sample>, boundary: int)
    ensures After(xs + ys, boundary) == After(xs, boundary) + After(ys, boundary)
  {
    if xs == [] { assert xs + ys == ys; }
    else {
      assert (xs + ys)[1..] == xs[1..] + ys;
      AfterAppend(xs[1..], ys, boundary);
    }
  }

  lemma {:induction false} NothingAfter(xs: seq<Sample>, boundary: int)
    requires forall x | x in xs :: x.at <= boundary
    ensures After(xs, boundary) == 0
  {
    if xs != [] { NothingAfter(xs[1..], boundary); }
  }

  lemma {:induction false} AfterIgnoresOrder(xs: seq<Sample>, ys: seq<Sample>, boundary: int)
    requires multiset(xs) == multiset(ys)
    ensures After(xs, boundary) == After(ys, boundary)
  {
    if xs == [] {
      assert |ys| == |multiset(ys)| == 0;
    } else {
      assert xs[0] in multiset(ys);
      var k :| 0 <= k < |ys| && ys[k] == xs[0];
      var rest := ys[..k] + ys[k + 1..];
      assert xs == [xs[0]] + xs[1..];
      AfterWithout(ys, k, boundary);
      AfterIgnoresOrder(xs[1..], rest, boundary);
    }
  }

  lemma AfterWithout(ys: seq<Sample>, k: nat, boundary: int)
    requires k < |ys|
    ensures var rest := ys[..k] + ys[k + 1..];
            && multiset(rest) == multiset(ys) - multiset{ys[k]}
            && After(ys, boundary) == After([ys[k]], boundary) + After(rest, boundary)
  {
    assert ys == ys[..k] + ([ys[k]] + ys[k + 1..]);
    AfterAppend(ys[..k], [ys[k]] + ys[k + 1..], boundary);
    AfterAppend([ys[k]], ys[k + 1..], boundary);
    AfterAppend(ys[..k], ys[k + 1..], boundary);
  }

  /** The reported number is the sum over all samples strictly after the boundary, wherever they stood. */
  lemma NumberIsSumAfterBoundary(samples: seq<Sample>, ordered: seq<Sample>, windowSeconds: int, now: int)
    requires Ordered(ordered) && multiset(ordered) == multiset(Past(samples, now))
    ensures var boundary := Boundary(ordered, windowSeconds, now);
            CountsFrom(ordered, Baseline(ordered, boundary, |ordered|) + 1, |ordered|) == After(Past(samples, now), boundary)
  {
    SumAfter(ordered, Past(samples, now), Boundary(ordered, windowSeconds, now));
  }

  lemma SumAfter(ordered: seq<Sample>, samples: seq<Sample>, boundary: int)
    requires Ordered(ordered) && multiset(ordered) == multiset(samples)
    ensures CountsFrom(ordered, Baseline(ordered, boundary, |ordered|) + 1, |ordered|) == After(samples, boundary)
  {
    CountsAreAfter(ordered, boundary, |ordered|);
    assert ordered[..|ordered|] == ordered;
    AfterIgnoresOrder(ordered, samples, boundary);
  }

  /** A number leaves no hole in the window: any moment of it lies between two
      consecutive samples that are at most 45 seconds apart. */
  lemma NoHoleInWindow(ordered: seq<Sample>, windowSeconds: int, now: int, t: int) returns (i: nat)
    requires Ordered(ordered) && Covered(ordered, windowSeconds, now) && windowSeconds > 0
    requires Boundary(ordered, windowSeconds, now) < t <= LatestAt(ordered, now)
    ensures i + 1 < |ordered| && ordered[i].at < t <= ordered[i + 1].at && ordered[i + 1].at - ordered[i].at <= 45_000
  {
    i := Baseline(ordered, Boundary(ordered, windowSeconds, now), |ordered|);
    while ordered[i + 1].at < t
      invariant Baseline(ordered, Boundary(ordered, windowSeconds, now), |ordered|) <= i < |ordered| - 1
      invariant ordered[i].at < t
    {
      i := i + 1;
    }
  }
}
