/** The attempt limiter as it runs, proved against `Limiter`. */
module AttemptLimiter {
  import opened Base
  import L = Limiter

  datatype OptionsError = AllowanceNotPositive | WindowNotPositive

  function Configure(allowance: int, window: int): (r: Result<L.Config, OptionsError>)
    ensures r.Ok? ==> r.value.Valid()
    ensures r.Ok? <==> allowance > 0 && window > 0
    ensures r.Ok? ==> r.value.allowance == allowance && r.value.window == window
    ensures r == Err(WindowNotPositive) ==> allowance > 0
  {
    if allowance <= 0 then Err(AllowanceNotPositive)
    else if window <= 0 then Err(WindowNotPositive)
    else Ok(L.Config(allowance, window))
  }

  class AttemptLimiter {
    const cfg: L.Config
    var failures: L.Failures
    var order: seq<string>
    var lastSweep: Option<int>

    ghost function View(): L.State reads this { L.State(failures, order, lastSweep) }

    ghost predicate Valid() reads this { cfg.Valid() && L.Bounded(View()) }

    constructor (cfg: L.Config)
      requires cfg.Valid()
      ensures this.cfg == cfg && Valid() && View() == L.State(map[], [], None)
    {
      this.cfg := cfg;
      failures, order, lastSweep := map[], [], None;
    }

    method Allowed(id: string, now: int) returns (ok: bool)
      requires Valid()
      ensures ok <==> L.Allowed(cfg, failures, id, now)
    {
      if id !in failures || L.Expired(cfg, failures[id], now) {
        return true;
      }
      return failures[id].count < cfg.allowance;
    }

    method Failed(id: string, now: int)
      requires Valid()
      modifies this
      ensures Valid() && View() == L.Failed(cfg, old(View()), id, now)
    {
      hide L.Swept, L.Evicted, L.Queued;
      ghost var s := View();
      L.CallsKeepBounded(cfg, s, id, now);
      L.NotedQueued(cfg, s, id, now);
      var tracked := id in failures;
      var record := if !tracked || L.Expired(cfg, failures[id], now) then L.Record(0, now) else failures[id];
      record := record.(count := record.count + 1);
      failures := failures[id := record];
      if !tracked {
        order := order + [id];
      }
      ghost var noted := View();
      assert noted == L.Noted(cfg, s, id, now);
      L.SweptQueued(cfg, noted, now);
      if |failures| > L.SWEEP_THRESHOLD && (lastSweep.None? || now - lastSweep.value >= cfg.window) {
        Sweep(now);
      }
      EvictPastCeiling();
    }

    /** Evicts while there are too many; with everything tracked in the queue, once is enough. */
    method EvictPastCeiling()
      requires L.Queued(View()) && |failures| <= L.MAX_TRACKED + 1
      modifies this`failures, this`order
      ensures View() == if |old(failures)| > L.MAX_TRACKED then L.Evicted(old(View())) else old(View())
      ensures |failures| <= L.MAX_TRACKED
    {
      ghost var s := View();
      if |failures| > L.MAX_TRACKED { L.EvictsOne(s); }
      while |failures| > L.MAX_TRACKED
        invariant L.Queued(View())
        invariant View() == s || (|s.failures| > L.MAX_TRACKED && View() == L.Evicted(s))
        decreases |failures|
      {
        EvictOldest();
      }
    }

    /** Drops the earliest identifier still tracked. */
    method EvictOldest()
      modifies this`failures, this`order
      ensures View() == L.Evicted(old(View()))
    {
      ghost var s := View();
      while |order| > 0
        invariant failures == s.failures && lastSweep == s.lastSweep
        invariant L.Evicted(View()) == L.Evicted(s)
        decreases |order|
      {
        var oldest := order[0];
        order := order[1..];
        if oldest in failures {
          failures := failures - {oldest};
          return;
        }
      }
    }

    method Succeeded(id: string)
      requires Valid()
      modifies this`failures
      ensures Valid() && View() == L.Succeeded(old(View()), id)
    {
      L.CallsKeepBounded(cfg, View(), id, 0);
      failures := failures - {id};
    }

    method Tracked() returns (n: int)
      requires Valid()
      ensures n == |failures.Keys| && n <= L.MAX_TRACKED
    {
      n := |failures|;
      assert |failures| == |failures.Keys|;
    }

    /** Drops every record whose window has passed, and compacts the queue alongside. */
    method Sweep(now: int)
      modifies this
      ensures View() == L.Swept(cfg, old(View()), now)
    {
      lastSweep := Some(now);
      SweepFailures(now);
      Compact();
    }

    method SweepFailures(now: int)
      modifies this`failures
      ensures failures == L.Fresh(cfg, old(failures), now)
    {
      ghost var was := failures;
      var remaining := failures.Keys;
      while remaining != {}
        invariant remaining <= was.Keys
        invariant failures.Keys == remaining + L.Fresh(cfg, was, now).Keys
        invariant forall id :: id in failures ==> failures[id] == was[id]
        decreases remaining
      {
        var id :| id in remaining;
        if L.Expired(cfg, failures[id], now) {
          failures := failures - {id};
        }
        remaining := remaining - {id};
      }
    }

    method Compact()
      modifies this`order
      ensures order == Kept(old(order), failures.Keys)
    {
      var kept := [];
      for i := 0 to |order|
        invariant order == old(order)
        invariant kept == Kept(order[..i], failures.Keys)
      {
        assert order[..i + 1][..i] == order[..i];
        if order[i] in failures {
          kept := kept + [order[i]];
        }
      }
      assert order[..|order|] == order;
      order := kept;
    }
  }
}
