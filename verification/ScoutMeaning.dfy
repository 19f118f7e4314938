/** What a verdict and a traffic count say of the readings and samples they were made from. */
module ScoutMeaning {
  import opened Options
  import opened ScoutCondition
  import ScoutTraffic

  // ---------- sustained breaches ----------

  /** The reading is finite and has reached the threshold. */
  predicate Reaches(c: Condition, p: Observation) {
    match p.reading
    case Finite(value) => (c.operator.Above? && value >= c.threshold) || (c.operator.Below? && value <= c.threshold)
    case _ => false
  }

  /** How far apart in milliseconds readings of an unbroken run may be: one and a half intervals of an HTTP check. */
  function GapMs(c: Condition): int {
    match c.http case NoHttp => 45_000 case Http(interval) => 1_500 * interval
  }

  /** How old the latest reading may be: an interval of an HTTP check and half a minute. */
  function AgeMs(c: Condition): int {
    match c.http case NoHttp => 90_000 case Http(interval) => 1_000 * interval + 30_000
  }

  /** Readings in ascending order of time that all reach the threshold, each soon enough after the one before. */
  predicate Chain(c: Condition, chain: seq<Observation>) {
    && chain != [] && (forall i | 0 <= i < |chain| :: Reaches(c, chain[i]))
    && forall i | 0 < i < |chain| :: 0 < chain[i].at - chain[i - 1].at <= GapMs(c)
  }

  /** No reading in the time of the chain is left out of it. */
  predicate Whole(obs: seq<Observation>, chain: seq<Observation>)
    requires chain != []
  {
    && (forall p | p in chain :: p in obs)
    && forall p | p in obs && chain[0].at <= p.at <= chain[|chain| - 1].at :: p in chain
  }

  lemma BreachReaches(c: Condition, p: Observation)
    ensures Breaches(c, p.reading) <==> Reaches(c, p)
  {
  }

  lemma {:induction false} ChainAscends(c: Condition, chain: seq<Observation>, i: nat, j: nat)
    requires Chain(c, chain) && i <= j < |chain|
    ensures chain[i].at <= chain[j].at && (i < j ==> chain[i].at < chain[j].at)
    decreases j
  {
    if i < j { ChainAscends(c, chain, i, j - 1); }
  }

  /** One reading for each time. */
  predicate OnePerTime(obs: seq<Observation>) {
    forall p, q | p in obs && q in obs && p.at == q.at :: p == q
  }

  lemma ChainIsUnbroken(c: Condition, obs: seq<Observation>, last: Observation, chain: seq<Observation>)
    requires OnePerTime(obs) && Chain(c, chain) && Whole(obs, chain) && chain[|chain| - 1] == last
    ensures Unbroken(c, Effective(obs, last), chain[0].at, last.at)
  {
    var s := Effective(obs, last);
    EffectiveIsAll(obs, last);
    ChainAscends(c, chain, 0, |chain| - 1);
    assert chain[0] in s;
    forall p | p in s && chain[0].at <= p.at <= last.at ensures Linked(c, s, chain[0].at, p) {
      assert p in chain;
      var i :| 0 <= i < |chain| && chain[i] == p;
      BreachReaches(c, p);
      if i > 0 {
        ChainAscends(c, chain, 0, i - 1);
        assert chain[i - 1] in s;
      }
    }
  }

  /** A chain up to the latest reading, which is fresh, that spans the duration and leaves nothing out makes the
      condition fire, since its beginning or earlier. */
  lemma ChainFires(c: Condition, obs: seq<Observation>, now: int, r: Result, chain: seq<Observation>)
    requires Outcome(c, obs, now, r) && c.durationSeconds > 0 && OnePerTime(obs)
    requires Chain(c, chain) && Whole(obs, chain)
    requires var last := chain[|chain| - 1];
             && last.at <= now <= last.at + AgeMs(c) && (forall p | p in obs && p.at <= now :: p.at <= last.at)
             && last.at - chain[0].at >= 1_000 * c.durationSeconds
    ensures r.verdict.Firing? && r.since <= chain[0].at
  {
    var last := chain[|chain| - 1];
    TheLatest(obs, now, last);
    LatestDecides(c, obs, now, last, r);
    ChainIsUnbroken(c, obs, last, chain);
    BreachReaches(c, last);
  }

  lemma TheLatest(obs: seq<Observation>, now: int, last: Observation)
    requires last in obs && last.at <= now && OnePerTime(obs) && forall p | p in obs && p.at <= now :: p.at <= last.at
    ensures IsLatest(obs, now, last)
  {
    var i := LastIndex(obs, last);
    forall j | 0 <= j < |obs| && obs[j].at <= now ensures obs[j].at <= last.at && (j > i ==> obs[j].at < last.at) {
      assert obs[j] in obs;
    }
  }

  lemma {:induction false} LastIndex(obs: seq<Observation>, p: Observation) returns (i: nat)
    requires p in obs
    ensures i < |obs| && obs[i] == p && forall j | i < j < |obs| :: obs[j] != p
  {
    var n := |obs| - 1;
    if obs[n] == p { i := n; } else {
      assert obs == obs[..n] + [obs[n]];
      i := LastIndex(obs[..n], p);
    }
  }

  /** The readings from `from` to `to` in ascending order of time. */
  lemma {:induction false} InOrderOfTime(rest: set<Observation>) returns (chain: seq<Observation>)
    requires forall p, q | p in rest && q in rest && p.at == q.at :: p == q
    ensures (forall p :: p in chain <==> p in rest) && forall i, j | 0 <= i < j < |chain| :: chain[i].at < chain[j].at
    decreases |rest|
  {
    if rest == {} { return []; }
    var last := LatestIn(rest);
    var front := InOrderOfTime(rest - {last});
    chain := front + [last];
    forall i | 0 <= i < |front| ensures front[i].at < last.at {
      assert front[i] in rest - {last};
    }
  }

  lemma {:induction false} LatestIn(rest: set<Observation>) returns (last: Observation)
    requires rest != {}
    ensures last in rest && forall p | p in rest :: p.at <= last.at
    decreases |rest|
  {
    last :| last in rest;
    if rest != {last} {
      var other := LatestIn(rest - {last});
      if other.at > last.at { last := other; }
    }
  }

  /** What fires has such a chain from the time since which it does. */
  lemma FiringHasChain(c: Condition, obs: seq<Observation>, now: int, r: Result) returns (chain: seq<Observation>)
    requires Outcome(c, obs, now, r) && c.durationSeconds > 0 && OnePerTime(obs) && r.verdict.Firing?
    ensures Chain(c, chain) && Whole(obs, chain) && chain[0].at == r.since
    ensures var last := chain[|chain| - 1];
            && last.at <= now <= last.at + AgeMs(c) && (forall p | p in obs && p.at <= now :: p.at <= last.at)
            && last.at - r.since >= 1_000 * c.durationSeconds && r.reading == last.reading
  {
    var last := FiringLatest(c, obs, now, r);
    EffectiveIsAll(obs, last);
    chain := ChainOf(c, Effective(obs, last), r.since, last);
  }

  lemma ChainOf(c: Condition, s: set<Observation>, since: int, last: Observation) returns (chain: seq<Observation>)
    requires Unbroken(c, s, since, last.at) && last in s && forall p, q | p in s && q in s && p.at == q.at :: p == q
    ensures Chain(c, chain) && chain[0].at == since && chain[|chain| - 1] == last
    ensures forall p :: p in chain <==> p in s && since <= p.at <= last.at
  {
    chain := InOrderOfTime(set p | p in s && since <= p.at <= last.at);
    UnbrokenIsChain(c, s, since, last, chain);
  }

  /** The latest reading that a firing verdict is about. */
  lemma FiringLatest(c: Condition, obs: seq<Observation>, now: int, r: Result) returns (last: Observation)
    requires Outcome(c, obs, now, r) && c.durationSeconds > 0 && r.verdict.Firing?
    ensures last in obs && last.at <= now <= last.at + AgeMs(c) && (forall p | p in obs && p.at <= now :: p.at <= last.at)
    ensures Unbroken(c, Effective(obs, last), r.since, last.at) && last in Effective(obs, last)
    ensures last.at - r.since >= 1_000 * c.durationSeconds && r.reading == last.reading
  {
    last :| last in obs && IsLatest(obs, now, last) && Fresh(c, last, now);
    LatestDecides(c, obs, now, last, r);
    forall p | p in obs && p.at <= now ensures p.at <= last.at {
      var j :| 0 <= j < |obs| && obs[j] == p;
    }
  }

  lemma UnbrokenIsChain(c: Condition, s: set<Observation>, since: int, last: Observation, chain: seq<Observation>)
    requires Unbroken(c, s, since, last.at) && last in s
    requires forall p, q | p in s && q in s && p.at == q.at :: p == q
    requires (forall p :: p in chain <==> p in s && since <= p.at <= last.at)
    requires forall i, j | 0 <= i < j < |chain| :: chain[i].at < chain[j].at
    ensures Chain(c, chain) && chain[0].at == since && chain[|chain| - 1] == last
  {
    var first :| first in s && first.at == since;
    assert first in chain && last in chain;
    var a :| 0 <= a < |chain| && chain[a] == first;
    var b :| 0 <= b < |chain| && chain[b] == last;
    assert chain[0] in chain && chain[|chain| - 1] in chain;
    assert a == 0 && b == |chain| - 1;
    forall i: nat | i < |chain| ensures Reaches(c, chain[i]) && (i > 0 ==> 0 < chain[i].at - chain[i - 1].at <= GapMs(c)) {
      LinkOfChain(c, s, since, last, chain, i);
    }
  }

  lemma LinkOfChain(c: Condition, s: set<Observation>, since: int, last: Observation, chain: seq<Observation>, i: nat)
    requires Unbroken(c, s, since, last.at) && i < |chain| && chain[0].at == since
    requires forall p :: p in chain <==> p in s && since <= p.at <= last.at
    requires forall i, j | 0 <= i < j < |chain| :: chain[i].at < chain[j].at
    ensures Reaches(c, chain[i]) && (i > 0 ==> 0 < chain[i].at - chain[i - 1].at <= GapMs(c))
  {
    var p := chain[i];
    assert p in chain && Linked(c, s, since, p);
    BreachReaches(c, p);
    if i > 0 {
      var q :| q in s && since <= q.at < p.at && p.at - q.at <= ContinuityGapMs(c);
      assert q in chain;
      var j :| 0 <= j < |chain| && chain[j] == q;
      assert j <= i - 1;
    }
  }

  // ---------- other verdicts ----------

  /** The result says nothing when no reading is finite, not after now and recent enough; the latest that is not in
      the breach is healthy; a condition without a duration fires on the latest reading alone. */
  lemma LatestAlone(c: Condition, obs: seq<Observation>, now: int, r: Result, last: Observation)
    requires Outcome(c, obs, now, r) && OnePerTime(obs)
    requires last in obs && last.at <= now && forall p | p in obs && p.at <= now :: p.at <= last.at
    ensures r.verdict.Unknown? <==> !last.reading.Finite? || now - last.at > AgeMs(c)
    ensures r.verdict.Healthy? <==> last.reading.Finite? && now - last.at <= AgeMs(c) && !Reaches(c, last)
    ensures c.durationSeconds == 0 ==>
              (r.verdict.Firing? <==> now - last.at <= AgeMs(c) && Reaches(c, last)) && (r.verdict.Firing? ==> r.since == last.at)
    ensures !r.verdict.Unknown? ==> r.reading == last.reading
  {
    TheLatest(obs, now, last);
    LatestDecides(c, obs, now, last, r);
    BreachReaches(c, last);
  }

  // ---------- traffic ----------

  /** The sample was collected with a listener that was ready, and its count is an integer that is exact in the
      source's numbers. */
  predicate Countable(p: ScoutTraffic.Sample) {
    p.ready && p.dropped.Some? && p.count.Whole? && 0 <= p.count.n <= 9_007_199_254_740_991
  }

  /** There is a sample at most 45 s before the window, and from it on all samples are countable, none dropped an event
      meanwhile, and each comes within 45 s after the one before. */
  predicate Complete(ordered: seq<ScoutTraffic.Sample>, b: nat, boundary: int)
    requires b < |ordered|
  {
    && boundary - 45_000 <= ordered[b].at <= boundary && (forall i | b < i < |ordered| :: ordered[i].at > boundary)
    && (forall i | b <= i < |ordered| :: Countable(ordered[i]) && ordered[i].dropped == ordered[b].dropped)
    && forall i | b < i < |ordered| :: ordered[i - 1].at < ordered[i].at <= ordered[i - 1].at + 45_000
  }

  /** A number is reported exactly when the latest sample is at most 90 s old and the samples are complete; it is then the
      sum of the counts of the window. */
  lemma TrafficReported(ordered: seq<ScoutTraffic.Sample>, windowSeconds: int, now: int, o: ScoutTraffic.Observation)
    requires ScoutTraffic.Reported(ordered, windowSeconds, now, o) && ScoutTraffic.Ordered(ordered)
    ensures ordered == [] ==> o == ScoutTraffic.Observation(now, None)
    ensures ordered != [] ==>
              var last := ordered[|ordered| - 1].at;
              var boundary := last - 1_000 * windowSeconds;
              && o.at == last
              && (o.value.Some? <==> now - last <= 90_000 && exists b: nat | b < |ordered| :: Complete(ordered, b, boundary))
  {
    if ordered != [] {
      var boundary := ordered[|ordered| - 1].at - 1_000 * windowSeconds;
      var b := ScoutTraffic.Baseline(ordered, boundary, |ordered|);
      if b >= 0 { CompleteIffContiguous(ordered, b, boundary); }
      forall k: nat | k < |ordered| && Complete(ordered, k, boundary) ensures k == b {
        BaselineIs(ordered, boundary, |ordered|, k);
      }
    }
  }

  lemma {:induction false} BaselineIs(ordered: seq<ScoutTraffic.Sample>, boundary: int, n: nat, k: nat)
    requires k < n <= |ordered| && ordered[k].at <= boundary && forall i | k < i < n :: ordered[i].at > boundary
    ensures ScoutTraffic.Baseline(ordered, boundary, n) == k
  {
    if k < n - 1 { BaselineIs(ordered, boundary, n - 1, k); }
  }

  lemma CompleteIffContiguous(ordered: seq<ScoutTraffic.Sample>, b: nat, boundary: int)
    requires b < |ordered| && ordered[b].at <= boundary && forall i | b < i < |ordered| :: ordered[i].at > boundary
    ensures Complete(ordered, b, boundary) <==> boundary - ordered[b].at <= 45_000 && ScoutTraffic.Contiguous(ordered, b)
  {
    if ScoutTraffic.Contiguous(ordered, b) {
      forall i | b <= i < |ordered| ensures Countable(ordered[i]) && ordered[i].dropped == ordered[b].dropped {
        assert ScoutTraffic.Usable(ordered[i], ordered[b].dropped);
      }
    }
    if Complete(ordered, b, boundary) {
      forall i | b <= i < |ordered| ensures ScoutTraffic.Usable(ordered[i], ordered[b].dropped) {
        assert Countable(ordered[i]);
      }
    }
  }
}
