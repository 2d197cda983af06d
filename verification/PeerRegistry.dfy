/** The registry as it runs, proved against `Registry`. */
module PeerRegistry {
  import opened Base
  import opened Identifiers
  import R = Registry

  const DEFAULT_MAX_PEERS := 10_000

  datatype Problem = HeartbeatNotPositive | SuspectWithinHeartbeat | OfflineWithinSuspect

  /** What `New` makes of its options: every problem it finds, or windows that order. */
  function Configure(heartbeat: int, suspect: int, offline: int, maxPeers: int): (r: Result<R.Config, seq<Problem>>)
    ensures r.Ok? ==> r.value.Valid()
    ensures r.Ok? <==> 0 < heartbeat < suspect < offline
    ensures r.Ok? ==>
      r.value.heartbeat == heartbeat && r.value.suspect == suspect && r.value.offline == offline
    ensures r.Ok? && maxPeers > 0 ==> r.value.ceiling == maxPeers
    ensures r.Ok? && maxPeers <= 0 ==> r.value.ceiling == 10_000
    ensures r.Err? ==>
      && (HeartbeatNotPositive in r.error <==> heartbeat <= 0)
      && (SuspectWithinHeartbeat in r.error <==> 0 < heartbeat && suspect <= heartbeat)
      && (OfflineWithinSuspect in r.error <==> offline <= suspect)
  {
    var first :=
      if heartbeat <= 0 then [HeartbeatNotPositive]
      else if suspect <= heartbeat then [SuspectWithinHeartbeat] else [];
    var problems := first + if offline <= suspect then [OfflineWithinSuspect] else [];
    if problems != [] then Err(problems)
    else Ok(R.Config(heartbeat, suspect, offline, if maxPeers <= 0 then DEFAULT_MAX_PEERS else maxPeers))
  }

  class PeerRegistry {
    const cfg: R.Config
    var peers: R.Peers

    ghost predicate Valid() reads this { cfg.Valid() && |peers| <= cfg.ceiling }

    constructor (cfg: R.Config)
      requires cfg.Valid()
      ensures this.cfg == cfg && Valid() && peers == map[]
    {
      this.cfg := cfg;
      peers := map[];
    }

    method Register(raw: string, now: int) returns (r: Result<R.Peer, R.Error>)
      requires Valid()
      modifies this`peers
      ensures Valid() && peers == R.After(cfg, old(peers), R.Request.Register(raw), now)
      ensures r == R.RegisterAnswer(cfg, old(peers), TrimSpace(raw), now)
    {
      R.NeverOverfull(cfg, peers, R.Request.Register(raw), now);
      var id := TrimSpace(raw);
      if id == "" {
        return Err(R.NoIdentifier);
      }
      var touched := R.Touched(peers, id, now);
      if id !in peers && |peers| >= cfg.ceiling {
        // Expired first, so that nobody is refused for records nobody will hear from again.
        var _ := ExpireLocked(now);
        if |peers| >= cfg.ceiling {
          return Err(R.Full);
        }
      }
      peers := peers[id := touched];
      return Ok(R.Peer(id, touched.registeredAt, now, R.Online));
    }

    method Heartbeat(id: string, now: int) returns (r: Result<R.Peer, R.Error>)
      requires Valid()
      modifies this`peers
      ensures Valid() && peers == R.After(cfg, old(peers), R.Request.Heartbeat(id), now)
      ensures r == R.HeartbeatAnswer(cfg, old(peers), id, now)
    {
      R.NeverOverfull(cfg, peers, R.Request.Heartbeat(id), now);
      if id !in peers || R.StateOf(cfg, peers[id], now) == R.Gone {
        peers := peers - {id};
        return Err(R.NotRegistered);
      }
      var held := peers[id].(lastSeen := now);
      peers := peers[id := held];
      return Ok(R.Peer(id, held.registeredAt, now, R.Online));
    }

    method Deregister(id: string)
      requires Valid()
      modifies this`peers
      ensures Valid() && peers == R.After(cfg, old(peers), R.Request.Deregister(id), 0)
    {
      R.NeverOverfull(cfg, peers, R.Request.Deregister(id), 0);
      peers := peers - {id};
    }

    method Lookup(id: string, now: int) returns (r: Option<R.Peer>)
      requires Valid()
      ensures r == R.LookupAnswer(cfg, peers, id, now)
    {
      if id !in peers {
        return None;
      }
      var state := R.StateOf(cfg, peers[id], now);
      if state == R.Gone {
        return None;
      }
      return Some(R.Peer(id, peers[id].registeredAt, peers[id].lastSeen, state));
    }

    /** How many peers are held, by state, with everything held as the total. */
    method Count(now: int) returns (online: int, suspect: int, total: int)
      requires Valid()
      ensures online == |R.InState(cfg, peers, R.Online, now)|
      ensures suspect == |R.InState(cfg, peers, R.Suspect, now)|
      ensures total == |peers| <= cfg.ceiling
    {
      online, suspect, total := 0, 0, |peers|;
      var remaining := peers.Keys;
      assert R.InState(cfg, peers, R.Online, now) - remaining == {};
      assert R.InState(cfg, peers, R.Suspect, now) - remaining == {};
      while remaining != {}
        invariant remaining <= peers.Keys
        invariant online == |R.InState(cfg, peers, R.Online, now) - remaining|
        invariant suspect == |R.InState(cfg, peers, R.Suspect, now) - remaining|
        decreases remaining
      {
        var id :| id in remaining;
        Grow(R.InState(cfg, peers, R.Online, now), remaining, id);
        Grow(R.InState(cfg, peers, R.Suspect, now), remaining, id);
        match R.StateOf(cfg, peers[id], now) {
          case Online => online := online + 1;
          case Suspect => suspect := suspect + 1;
          case Gone =>
        }
        remaining := remaining - {id};
      }
      assert R.InState(cfg, peers, R.Online, now) - {} == R.InState(cfg, peers, R.Online, now);
      assert R.InState(cfg, peers, R.Suspect, now) - {} == R.InState(cfg, peers, R.Suspect, now);
    }

    /** Removes every peer past the offline window and names each of them once. */
    method Expire(now: int) returns (removed: seq<string>)
      requires Valid()
      modifies this`peers
      ensures Valid() && peers == R.After(cfg, old(peers), R.Request.Expire, now)
      ensures Enumerates(removed, R.GoneIds(cfg, old(peers), now))
    {
      R.NeverOverfull(cfg, peers, R.Request.Expire, now);
      removed := ExpireLocked(now);
    }

    method ExpireLocked(now: int) returns (removed: seq<string>)
      modifies this`peers
      ensures peers == R.Present(cfg, old(peers), now)
      ensures Enumerates(removed, R.GoneIds(cfg, old(peers), now))
    {
      ghost var m := peers;
      removed := [];
      var remaining := peers.Keys;
      while remaining != {}
        invariant remaining <= m.Keys
        invariant peers == m - (R.GoneIds(cfg, m, now) - remaining)
        invariant Enumerates(removed, R.GoneIds(cfg, m, now) - remaining)
        decreases remaining
      {
        var id :| id in remaining;
        ghost var gone := R.GoneIds(cfg, m, now);
        assert gone - (remaining - {id}) == (gone - remaining) + if id in gone then {id} else {};
        if R.StateOf(cfg, peers[id], now) == R.Gone {
          EnumerationAppend(removed, gone - remaining, id);
          peers := peers - {id};
          removed := removed + [id];
        }
        remaining := remaining - {id};
      }
      assert R.GoneIds(cfg, m, now) - {} == R.GoneIds(cfg, m, now);
    }
  }
}
