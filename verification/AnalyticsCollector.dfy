/** The analytics collector in its own form: a table that its methods update in place. */
module AnalyticsCollector {
  import opened AnalyticsTable
  import opened Options

  class Collector {
    var cells: map<Key, Cell>
    var dropped: nat
    var period: Option<int>
    var ingressWindow: int
    var ingressCount: nat
    ghost var waiting: seq<Arrival>

    ghost function State(): Table
      reads this
    {
      Table(cells, dropped, period, ingressWindow, ingressCount, waiting)
    }

    constructor ()
      ensures State() == FRESH
    {
      cells, dropped, period, ingressWindow, ingressCount, waiting := map[], 0, None, 0, 0, [];
    }

    method AllowIngress(second: int) returns (ok: bool)
      modifies this`ingressWindow, this`ingressCount, this`dropped
      ensures (State(), ok) == Admit(old(State()), second)
    {
      if ingressWindow != second { ingressWindow, ingressCount := second, 0; }
      ingressCount := ingressCount + 1;
      ok := ingressCount <= MAX_INGRESS;
      if !ok { dropped := dropped + 1; }
    }

    method ExpirePending(now: int)
      modifies this`cells, this`dropped, this`period, this`waiting
      ensures State() == Expire(old(State()), now)
    {
      if period.None? { period := Some(now); }
      if now - period.value > MAX_AGE_MS {
        var left := cells;
        while left != map[]
          invariant dropped + Pending(left) == old(dropped) + Pending(old(cells))
          invariant cells == old(cells) && ingressWindow == old(ingressWindow) && ingressCount == old(ingressCount)
          decreases |left|
        {
          var k :| k in left;
          PendingRemove(left, k);
          dropped := dropped + left[k].count;
          left := left - {k};
        }
        cells, period, waiting := map[], Some(now), [];
      }
    }

    method Add(e: Event, now: int)
      requires Shaped(State())
      modifies this`cells, this`dropped, this`period, this`waiting
      ensures State() == AnalyticsTable.Add(old(State()), e, now)
    {
      ExpirePending(now);
      var key := KeyOf(e);
      if key !in cells && |cells| >= MAX_CELLS {
        dropped := dropped + 1;
        return;
      }
      var prior := if key in cells then cells[key] else EMPTY_CELL;
      if prior.count >= MAX_COUNT {
        dropped := dropped + 1;
        return;
      }
      cells, waiting := cells[key := Merge(prior, e)], waiting + [Arrival(e, now)];
    }

    /** Hands the unexpired cells to a sample; `queued` is whether the queue took the sample. */
    method Flush(now: int, queued: bool) returns (taken: map<Key, Cell>, reported: nat)
      modifies this`cells, this`dropped, this`period, this`waiting
      ensures State() == AnalyticsTable.Flush(old(State()), now, queued).0
      ensures var t := AnalyticsTable.Flush(old(State()), now, queued).1; taken == t.cells && reported == t.dropped
    {
      ExpirePending(now);
      taken, reported := cells, dropped;
      if queued { cells, period, waiting := map[], None, []; }
    }
  }
}
