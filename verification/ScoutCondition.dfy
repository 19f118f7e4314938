/** When an alert condition fires: evaluation of a sustained breach. */
module ScoutCondition {
  import opened Options
  import opened StableSort

  datatype Reading = Missing | NotFinite | Finite(value: real)
  datatype Observation = Observation(at: int, reading: Reading)
  datatype Operator = Above | Below
  datatype Http = NoHttp | Http(intervalSeconds: int)
  datatype Condition = Condition(operator: Operator, threshold: real, durationSeconds: int, http: Http)

  datatype Verdict = Firing | Healthy | Pending | Unknown
  datatype Result = Result(verdict: Verdict, reading: Reading, since: int)

  const UNKNOWN := Result(Unknown, Missing, 0)

  function MaxGapMs(c: Condition): int {
    if c.http.Http? then (c.http.intervalSeconds + 30) * 1000 else 90_000
  }

  function ContinuityGapMs(c: Condition): int {
    if c.http.Http? then c.http.intervalSeconds * 1500 else 45_000
  }

  predicate Breaches(c: Condition, r: Reading) {
    r.Finite? && if c.operator.Above? then r.value >= c.threshold else r.value <= c.threshold
  }

  // ---------- specification ----------

  /** The latest reading up to now; of several at that time, the last one listed. */
  predicate IsLatest(obs: seq<Observation>, now: int, last: Observation) {
    exists i | 0 <= i < |obs| ::
      && obs[i] == last && last.at <= now
      && forall j | 0 <= j < |obs| && obs[j].at <= now :: obs[j].at <= last.at && (j > i ==> obs[j].at < last.at)
  }

  function FirstAt(obs: seq<Observation>, t: int): Option<Observation> {
    if obs == [] then None else if obs[0].at == t then Some(obs[0]) else FirstAt(obs[1..], t)
  }

  /** The readings that count: the latest, and of any earlier time the one listed first. */
  function Effective(obs: seq<Observation>, last: Observation): set<Observation> {
    set p | p in obs && (p == last || (p.at != last.at && FirstAt(obs, p.at) == Some(p)))
  }

  predicate Fresh(c: Condition, last: Observation, now: int) {
    last.reading.Finite? && now - last.at <= MaxGapMs(c)
  }

  /** A breach that begins the run or follows another reading of it soon enough. */
  predicate Linked(c: Condition, obs: set<Observation>, from: int, p: Observation) {
    Breaches(c, p.reading) &&
    (p.at == from || exists q | q in obs :: from <= q.at < p.at && p.at - q.at <= ContinuityGapMs(c))
  }

  /** Every reading from `from` to `to` breaches, and none follows its predecessor too late. */
  predicate Unbroken(c: Condition, obs: set<Observation>, from: int, to: int) {
    && (exists p | p in obs :: p.at == from) && from <= to
    && forall p {:trigger Linked(c, obs, from, p)} | p in obs && from <= p.at <= to :: Linked(c, obs, from, p)
  }

  /** No earlier start would do. */
  ghost predicate Longest(c: Condition, obs: set<Observation>, since: int, to: int) {
    forall from: int | from < since :: !Unbroken(c, obs, from, to)
  }

  predicate Sustained(c: Condition, obs: set<Observation>, to: int) {
    exists p | p in obs :: Unbroken(c, obs, p.at, to) && to - p.at >= c.durationSeconds * 1000
  }

  // ---------- the evaluation ----------

  method Latest(obs: seq<Observation>, now: int) returns (found: bool, last: Observation)
    ensures found ==> IsLatest(obs, now, last)
    ensures !found ==> forall p | p in obs :: p.at > now
  {
    found, last := false, Observation(0, Missing);
    ghost var at := 0;
    for i := 0 to |obs|
      invariant found ==> at < i && obs[at] == last && last.at <= now
      invariant found ==> forall j | 0 <= j < i && obs[j].at <= now :: obs[j].at <= last.at && (j > at ==> obs[j].at < last.at)
      invariant !found ==> forall j | 0 <= j < i :: obs[j].at > now
    {
      var point := obs[i];
      if point.at <= now && (!found || point.at >= last.at) {
        found, last, at := true, point, i;
      }
    }
  }

  /** The backward scan over readings in descending order of time, up to the latest. */
  method Scan(c: Condition, ordered: seq<Observation>, last: Observation) returns (since: int)
    requires Ascending(ordered, (p: Observation) => -p.at)
    requires last in ordered && Breaches(c, last.reading)
    requires forall p | p in ordered :: p.at <= last.at
    ensures Unbroken(c, Effective(ordered, last), since, last.at) && Longest(c, Effective(ordered, last), since, last.at)
  {
    since := last.at;
    var previousAt := last.at;
    ghost var obs := Effective(ordered, last);
    OnlyLatest(c, ordered, last);
    for i := 0 to |ordered|
      invariant previousAt == since
      invariant Unbroken(c, obs, since, last.at)
      invariant forall j | 0 <= j < i :: ordered[j].at >= since
    {
      var point := ordered[i];
      if point.at >= previousAt { continue; }
      FirstOfItsTime(ordered, i);
      if previousAt - point.at > ContinuityGapMs(c) || !Breaches(c, point.reading) {
        BreakIsLongest(c, ordered, last, since, i);
        return;
      }
      ExtendUnbroken(c, ordered, last, since, i);
      since := point.at;
      previousAt := point.at;
    }
    EndIsLongest(c, ordered, last, since);
  }

  lemma OnlyLatest(c: Condition, ordered: seq<Observation>, last: Observation)
    requires last in ordered && Breaches(c, last.reading)
    ensures Unbroken(c, Effective(ordered, last), last.at, last.at)
  {
    var obs := Effective(ordered, last);
    assert last in obs;
    forall p | p in obs && last.at <= p.at <= last.at ensures Linked(c, obs, last.at, p) {
      assert p == last;
    }
  }

  lemma {:induction false} FirstOfItsTime(ordered: seq<Observation>, i: nat)
    requires i < |ordered| && forall j | 0 <= j < i :: ordered[j].at != ordered[i].at
    ensures FirstAt(ordered, ordered[i].at) == Some(ordered[i])
  {
    if i > 0 { FirstOfItsTime(ordered[1..], i - 1); }
  }

  lemma ExtendUnbroken(c: Condition, ordered: seq<Observation>, last: Observation, since: int, i: nat)
    requires Ascending(ordered, (p: Observation) => -p.at) && i < |ordered| && since <= last.at
    requires Unbroken(c, Effective(ordered, last), since, last.at)
    requires forall j | 0 <= j < i :: ordered[j].at >= since
    requires FirstAt(ordered, ordered[i].at) == Some(ordered[i])
    requires ordered[i].at < since && since - ordered[i].at <= ContinuityGapMs(c) && Breaches(c, ordered[i].reading)
    ensures Unbroken(c, Effective(ordered, last), ordered[i].at, last.at)
  {
    var key, obs := (p: Observation) => -p.at, Effective(ordered, last);
    assert ordered[i] in obs;
    forall p | p in obs && ordered[i].at <= p.at <= last.at
      ensures Linked(c, obs, ordered[i].at, p)
    {
      var k :| 0 <= k < |ordered| && ordered[k] == p;
      if k > i { assert key(ordered[i]) <= key(ordered[k]); }
      if p.at == ordered[i].at {
        assert p == ordered[i];
      } else {
        assert Linked(c, obs, since, p);
      }
    }
  }

  lemma EndIsLongest(c: Condition, ordered: seq<Observation>, last: Observation, since: int)
    requires forall j | 0 <= j < |ordered| :: ordered[j].at >= since
    ensures Longest(c, Effective(ordered, last), since, last.at)
  {
  }

  lemma BreakIsLongest(c: Condition, ordered: seq<Observation>, last: Observation, since: int, i: nat)
    requires Ascending(ordered, (p: Observation) => -p.at) && i < |ordered|
    requires Unbroken(c, Effective(ordered, last), since, last.at)
    requires forall j | 0 <= j < i :: ordered[j].at >= since
    requires FirstAt(ordered, ordered[i].at) == Some(ordered[i])
    requires ordered[i].at < since && (since - ordered[i].at > ContinuityGapMs(c) || !Breaches(c, ordered[i].reading))
    ensures Longest(c, Effective(ordered, last), since, last.at)
  {
    var obs := Effective(ordered, last);
    forall from: int | from < since ensures !Unbroken(c, obs, from, last.at) {
      if Unbroken(c, obs, from, last.at) { NothingOlder(c, ordered, last, since, i, from); }
    }
  }

  lemma NothingOlder(c: Condition, ordered: seq<Observation>, last: Observation, since: int, i: nat, from: int)
    requires Ascending(ordered, (p: Observation) => -p.at) && i < |ordered|
    requires (exists p | p in Effective(ordered, last) :: p.at == since) && since <= last.at
    requires forall j | 0 <= j < i :: ordered[j].at >= since
    requires FirstAt(ordered, ordered[i].at) == Some(ordered[i])
    requires ordered[i].at < since && from < since && Unbroken(c, Effective(ordered, last), from, last.at)
    ensures since - ordered[i].at <= ContinuityGapMs(c) && Breaches(c, ordered[i].reading)
  {
    var obs := Effective(ordered, last);
    var s :| s in obs && s.at == since;
    assert Linked(c, obs, from, s);
    var q :| q in obs && from <= q.at < since && since - q.at <= ContinuityGapMs(c);
    OlderIsNotLater(ordered, since, i, q);
    assert ordered[i] in obs && Linked(c, obs, from, ordered[i]);
  }

  lemma OlderIsNotLater(ordered: seq<Observation>, since: int, i: nat, q: Observation)
    requires Ascending(ordered, (p: Observation) => -p.at) && i < |ordered|
    requires forall j | 0 <= j < i :: ordered[j].at >= since
    requires q in ordered && q.at < since
    ensures q.at <= ordered[i].at
  {
    var key := (p: Observation) => -p.at;
    var k :| 0 <= k < |ordered| && ordered[k] == q;
    assert key(ordered[i]) <= key(ordered[k]);
  }

  lemma UnbrokenHasMembersOnly(c: Condition, xs: set<Observation>, ys: set<Observation>, from: int, to: int)
    requires (forall p: Observation | p.at <= to :: p in xs <==> p in ys) && Unbroken(c, xs, from, to)
    ensures Unbroken(c, ys, from, to)
  {
    forall p | p in ys && from <= p.at <= to ensures Linked(c, ys, from, p) {
      assert Linked(c, xs, from, p);
    }
  }

  lemma LongestDependsOnMembers(c: Condition, xs: set<Observation>, ys: set<Observation>, since: int, to: int)
    requires forall p: Observation | p.at <= to :: p in xs <==> p in ys
    ensures Unbroken(c, xs, since, to) ==> Unbroken(c, ys, since, to)
    ensures Longest(c, xs, since, to) ==> Longest(c, ys, since, to)
  {
    if Unbroken(c, xs, since, to) { UnbrokenHasMembersOnly(c, xs, ys, since, to); }
    forall from: int | from < since ensures Unbroken(c, ys, from, to) ==> Unbroken(c, xs, from, to) {
      if Unbroken(c, ys, from, to) { UnbrokenHasMembersOnly(c, ys, xs, from, to); }
    }
  }

  /** What the verdict must be, given the latest reading. */
  ghost predicate Judged(c: Condition, obs: set<Observation>, last: Observation, r: Result) {
    && r.reading == last.reading
    && (r.verdict.Healthy? <==> !Breaches(c, last.reading))
    && (r.verdict.Firing? <==> Breaches(c, last.reading) && last.at - r.since >= c.durationSeconds * 1000)
    && if r.verdict.Healthy? || c.durationSeconds == 0 then r.since == last.at
       else Unbroken(c, obs, r.since, last.at) && Longest(c, obs, r.since, last.at)
  }

  /** What the evaluation must say: nothing without a fresh finite latest reading, and otherwise
      what the readings that count make of it. */
  ghost predicate Outcome(c: Condition, obs: seq<Observation>, now: int, r: Result) {
    && (forall last | last in obs && IsLatest(obs, now, last) && Fresh(c, last, now) ::
          !r.verdict.Unknown? && Judged(c, Effective(obs, last), last, r))
    && ((forall last | last in obs && IsLatest(obs, now, last) :: !Fresh(c, last, now)) ==> r == UNKNOWN)
  }

  /** The evaluation: unknown without a fresh finite reading, healthy when the latest does not
      breach, otherwise judged by the whole unbroken run of breaches that ends there. */
  method Evaluate(c: Condition, obs: seq<Observation>, now: int) returns (r: Result)
    ensures Outcome(c, obs, now, r)
  {
    var found, last := Latest(obs, now);
    if !found {
      NothingYet(c, obs, now);
      return UNKNOWN;
    }
    if last.reading.Finite? && now - last.at <= MaxGapMs(c) {
      r := Judge(c, obs, last);
    } else {
      r := UNKNOWN;
    }
    LatestDecides(c, obs, now, last, r);
  }

  /** The verdict on a fresh latest reading. */
  method Judge(c: Condition, obs: seq<Observation>, last: Observation) returns (r: Result)
    requires last in obs && last.reading.Finite?
    ensures !r.verdict.Unknown? && Judged(c, Effective(obs, last), last, r)
  {
    if !Breaches(c, last.reading) { return Result(Healthy, last.reading, last.at); }
    if c.durationSeconds == 0 { return Result(Firing, last.reading, last.at); }
    var past := Past(obs, last.at);
    PastMembers(obs, last.at);
    var key := (p: Observation) => -p.at;
    var ordered := SortBy(past, key);
    SortIsOrdered(past, key);
    SortKeepsMembers(past, key);
    var since := Scan(c, ordered, last);
    SortingKeepsEffective(obs, last, key);
    LongestDependsOnMembers(c, Effective(ordered, last), Effective(obs, last), since, last.at);
    r := Result(if last.at - since >= c.durationSeconds * 1000 then Firing else Pending, last.reading, since);
  }

  lemma NothingYet(c: Condition, obs: seq<Observation>, now: int)
    requires forall p | p in obs :: p.at > now
    ensures Outcome(c, obs, now, UNKNOWN)
  {
  }

  lemma LatestDecides(c: Condition, obs: seq<Observation>, now: int, last: Observation, r: Result)
    requires IsLatest(obs, now, last)
    ensures last in obs
    ensures Outcome(c, obs, now, r) <==>
            if Fresh(c, last, now) then !r.verdict.Unknown? && Judged(c, Effective(obs, last), last, r) else r == UNKNOWN
  {
    LatestIsUnique(obs, now, last);
  }

  lemma LatestIsUnique(obs: seq<Observation>, now: int, last: Observation)
    requires IsLatest(obs, now, last)
    ensures last in obs && forall other | other in obs && IsLatest(obs, now, other) :: other == last
  {
    forall other | other in obs && IsLatest(obs, now, other) ensures other == last {
      var i :| 0 <= i < |obs| && obs[i] == last && last.at <= now
               && forall j | 0 <= j < |obs| && obs[j].at <= now :: obs[j].at <= last.at && (j > i ==> obs[j].at < last.at);
      var k :| 0 <= k < |obs| && obs[k] == other && other.at <= now
               && forall j | 0 <= j < |obs| && obs[j].at <= now :: obs[j].at <= other.at && (j > k ==> obs[j].at < other.at);
    }
  }

  function Past(obs: seq<Observation>, to: int): seq<Observation> {
    if obs == [] then []
    else (if obs[0].at <= to then [obs[0]] else []) + Past(obs[1..], to)
  }

  lemma {:induction false} PastMembers(obs: seq<Observation>, to: int)
    ensures forall p: Observation :: p in Past(obs, to) <==> p in obs && p.at <= to
  {
    if obs != [] {
      PastMembers(obs[1..], to);
      assert obs == [obs[0]] + obs[1..];
    }
  }

  lemma {:induction false} PastKeepsFirst(obs: seq<Observation>, to: int, t: int)
    requires t <= to
    ensures FirstAt(Past(obs, to), t) == FirstAt(obs, t)
  {
    if obs != [] {
      PastKeepsFirst(obs[1..], to, t);
      var rest := Past(obs[1..], to);
      assert ([obs[0]] + rest)[1..] == rest && [] + rest == rest;
    }
  }

  lemma {:induction false} InsertPutsFirst(x: Observation, xs: seq<Observation>, key: Observation -> int, t: int)
    requires forall p :: key(p) == -p.at
    ensures FirstAt(Insert(x, xs, key), t) == if x.at == t then Some(x) else FirstAt(xs, t)
  {
    if xs == [] || key(x) <= key(xs[0]) {
      assert ([x] + xs)[1..] == xs;
    } else {
      var rest := Insert(x, xs[1..], key);
      assert ([xs[0]] + rest)[1..] == rest;
      InsertPutsFirst(x, xs[1..], key, t);
    }
  }

  /** The sort is stable: of the readings of one time, the first stays first. */
  lemma {:induction false} SortKeepsFirst(xs: seq<Observation>, key: Observation -> int, t: int)
    requires forall p :: key(p) == -p.at
    ensures FirstAt(SortBy(xs, key), t) == FirstAt(xs, t)
  {
    if xs != [] {
      SortKeepsFirst(xs[1..], key, t);
      InsertPutsFirst(xs[0], SortBy(xs[1..], key), key, t);
    }
  }

  lemma SortingKeepsEffective(obs: seq<Observation>, last: Observation, key: Observation -> int)
    requires forall p :: key(p) == -p.at
    ensures forall p: Observation | p.at <= last.at ::
              p in Effective(SortBy(Past(obs, last.at), key), last) <==> p in Effective(obs, last)
  {
    var past := Past(obs, last.at);
    PastMembers(obs, last.at);
    SortKeepsMembers(past, key);
    forall p: Observation | p.at <= last.at
      ensures p in Effective(SortBy(past, key), last) <==> p in Effective(obs, last)
    {
      SortKeepsFirst(past, key, p.at);
      PastKeepsFirst(obs, last.at, p.at);
    }
  }

  // ---------- what the verdict means ----------

  lemma JudgedFiresIffSustained(c: Condition, obs: set<Observation>, last: Observation, r: Result)
    requires last in obs && Judged(c, obs, last, r) && c.durationSeconds > 0 && Breaches(c, last.reading)
    ensures r.verdict.Firing? <==> Sustained(c, obs, last.at)
  {
    if r.verdict.Firing? {
      var p :| p in obs && p.at == r.since;
    }
    forall p | p in obs && Unbroken(c, obs, p.at, last.at) ensures r.since <= p.at { }
  }

  /** The latest reading is fresh and breaches, and some unbroken run of breaches up to it lasts long enough. */
  predicate Breached(c: Condition, obs: seq<Observation>, now: int, last: Observation) {
    && IsLatest(obs, now, last) && Fresh(c, last, now) && Breaches(c, last.reading)
    && Sustained(c, Effective(obs, last), last.at)
  }

  /** With a positive duration it fires exactly when the breach of the latest reading is sustained. */
  lemma FiresIffSustained(c: Condition, obs: seq<Observation>, now: int, r: Result)
    requires Outcome(c, obs, now, r) && c.durationSeconds > 0
    ensures r.verdict.Firing? <==> exists last | last in obs :: Breached(c, obs, now, last)
  {
    forall last | last in obs && IsLatest(obs, now, last) && Fresh(c, last, now) && Breaches(c, last.reading)
      ensures r.verdict.Firing? <==> Breached(c, obs, now, last)
    {
      JudgedFiresIffSustained(c, Effective(obs, last), last, r);
    }
  }

  /** Readings repeated for the same time are the same reading. */
  predicate Consistent(obs: seq<Observation>) {
    forall p, q | p in obs && q in obs && p.at == q.at :: p == q
  }

  lemma {:induction false} FirstIsMember(obs: seq<Observation>, t: int)
    ensures FirstAt(obs, t).Some? ==> FirstAt(obs, t).value in obs && FirstAt(obs, t).value.at == t
    ensures FirstAt(obs, t).None? ==> forall p | p in obs :: p.at != t
  {
    if obs != [] {
      FirstIsMember(obs[1..], t);
      assert obs == [obs[0]] + obs[1..];
    }
  }

  lemma EffectiveIsAll(obs: seq<Observation>, last: Observation)
    requires Consistent(obs) && last in obs
    ensures forall p :: p in Effective(obs, last) <==> p in obs
  {
    forall p | p in obs ensures p in Effective(obs, last) { FirstIsMember(obs, p.at); }
  }

  lemma {:induction false} LastPosition(obs: seq<Observation>, t: int) returns (i: nat)
    requires exists p | p in obs :: p.at == t
    ensures i < |obs| && obs[i].at == t && forall j | i < j < |obs| :: obs[j].at != t
  {
    var n := |obs| - 1;
    if obs[n].at == t {
      i := n;
    } else {
      assert obs == obs[..n] + [obs[n]];
      i := LastPosition(obs[..n], t);
    }
  }

  /** Which reading is the latest does not depend on the order either. */
  lemma LatestOfSameMembers(xs: seq<Observation>, ys: seq<Observation>, now: int, last: Observation)
    requires Consistent(xs) && (forall p: Observation :: p in xs <==> p in ys) && IsLatest(xs, now, last)
    ensures last in ys && IsLatest(ys, now, last)
  {
    assert last in xs;
    var i := LastPosition(ys, last.at);
    assert ys[i] in xs && ys[i] == last;
    forall j | 0 <= j < |ys| && ys[j].at <= now ensures ys[j].at <= last.at {
      assert ys[j] in xs;
    }
  }

  lemma EffectiveOfSameMembers(xs: seq<Observation>, ys: seq<Observation>, last: Observation)
    requires Consistent(xs) && last in xs && forall p: Observation :: p in xs <==> p in ys
    ensures Effective(xs, last) == Effective(ys, last)
  {
    EffectiveIsAll(xs, last);
    EffectiveIsAll(ys, last);
  }

  lemma JudgedAlike(c: Condition, obs: set<Observation>, last: Observation, r: Result, r': Result)
    requires Judged(c, obs, last, r) && Judged(c, obs, last, r') && !r.verdict.Unknown? && !r'.verdict.Unknown?
    ensures r == r'
  {
  }

  /** Unless readings of one time differ, the outcome depends neither on the order of the
      readings nor on their repetition. */
  lemma VerdictIgnoresOrder(c: Condition, xs: seq<Observation>, ys: seq<Observation>, now: int, r: Result, r': Result)
    requires Consistent(xs) && forall p: Observation :: p in xs <==> p in ys
    requires Outcome(c, xs, now, r) && Outcome(c, ys, now, r')
    ensures r == r'
  {
    if last :| last in xs && IsLatest(xs, now, last) {
      LatestOfSameMembers(xs, ys, now, last);
      LatestDecides(c, xs, now, last, r);
      LatestDecides(c, ys, now, last, r');
      EffectiveOfSameMembers(xs, ys, last);
      if Fresh(c, last, now) { JudgedAlike(c, Effective(xs, last), last, r, r'); }
    } else if last :| last in ys && IsLatest(ys, now, last) {
      LatestOfSameMembers(ys, xs, now, last);
    }
  }

  /** A condition whose threshold is easier to reach. */
  predicate Easier(c: Condition, c': Condition) {
    c' == c.(threshold := c'.threshold) &&
    if c.operator.Above? then c'.threshold <= c.threshold else c'.threshold >= c.threshold
  }

  lemma EasierKeepsUnbroken(c: Condition, c': Condition, obs: set<Observation>, from: int, to: int)
    requires Easier(c, c') && Unbroken(c, obs, from, to)
    ensures Unbroken(c', obs, from, to)
  {
    forall p | p in obs && from <= p.at <= to ensures Linked(c', obs, from, p) {
      assert Linked(c, obs, from, p);
    }
  }

  /** What fires keeps firing, and does so no later, when the threshold is made easier. */
  lemma FiringIsMonotone(c: Condition, c': Condition, obs: seq<Observation>, now: int, r: Result, r': Result)
    requires Easier(c, c') && Outcome(c, obs, now, r) && Outcome(c', obs, now, r') && r.verdict.Firing?
    ensures r'.verdict.Firing? && r'.since <= r.since
  {
    var last :| last in obs && IsLatest(obs, now, last) && Fresh(c, last, now);
    if c.durationSeconds != 0 { EasierKeepsUnbroken(c, c', Effective(obs, last), r.since, last.at); }
  }
}
