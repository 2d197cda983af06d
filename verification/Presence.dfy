/** Runs of the registry and the hub together: a channel that is held keeps its peer
    online, so long as the refresh comes round often enough. */
module Presence {
  import opened Base
  import opened Identifiers
  import R = Registry
  import RegistryRuns
  import H = HubRuns
  import S = Signaling

  /** What the server does for a peer that is there: a heartbeat, or a registration
      where the registry no longer answers for it. */
  ghost function Refreshed(cfg: R.Config, m: R.Peers, peer: string, now: int): R.Peers {
    var beaten := R.AfterHeartbeat(cfg, m, peer, now);
    if R.Answering(cfg, m, peer, now) then beaten else R.AfterRegister(cfg, beaten, TrimSpace(peer), now)
  }

  /** A heartbeat the registry refuses costs nobody present its place. */
  lemma RefusedBeat(cfg: R.Config, m: R.Peers, peer: string, now: int)
    requires !R.Answering(cfg, m, peer, now)
    ensures var beaten := R.AfterHeartbeat(cfg, m, peer, now);
            R.Present(cfg, beaten, now) == R.Present(cfg, m, now) && |beaten| <= |m|
    ensures peer !in R.Present(cfg, m, now)
  {
    var beaten := R.AfterHeartbeat(cfg, m, peer, now);
    SubsetSize(beaten.Keys, m.Keys);
    assert |beaten| == |beaten.Keys| && |m| == |m.Keys|;
  }

  lemma AcceptedBeat(cfg: R.Config, m: R.Peers, peer: string, now: int)
    requires cfg.Valid() && R.Answering(cfg, m, peer, now)
    ensures R.Answering(cfg, R.AfterHeartbeat(cfg, m, peer, now), peer, now) && peer in R.Present(cfg, m, now)
  {
  }

  /** A peer that is there is answered for from then on, unless it was not before and the
      peers that are present fill the ceiling: then, and only then, it is left out. */
  lemma RefreshAnswers(cfg: R.Config, m: R.Peers, peer: string, now: int)
    requires cfg.Valid() && |m| <= cfg.ceiling && PeerId(peer)
    ensures R.LookupAnswer(cfg, Refreshed(cfg, m, peer, now), peer, now).Some?
      <==> peer in R.Present(cfg, m, now) || |R.Present(cfg, m, now)| < cfg.ceiling
  {
    hide R.Present, R.AfterHeartbeat, R.AfterRegister, R.Refused, R.Answering, R.StateOf, TrimSpace, PeerId;
    TrimKeepsPeerId(peer);
    if R.Answering(cfg, m, peer, now) {
      AcceptedBeat(cfg, m, peer, now);
    } else {
      var beaten := R.AfterHeartbeat(cfg, m, peer, now);
      RefusedBeat(cfg, m, peer, now);
      R.RefusesExactlyWhenFull(cfg, beaten, peer, now);
      RegistryRuns.RegisteredAnswers(cfg, beaten, peer, now, peer);
      PresentAnswers(cfg, beaten, peer, now);
      NotEmpty(peer);
    }
  }

  lemma PresentAnswers(cfg: R.Config, m: R.Peers, peer: string, now: int)
    ensures R.Answering(cfg, m, peer, now) <==> peer in R.Present(cfg, m, now)
  {
  }

  lemma NotEmpty(peer: string)
    requires PeerId(peer)
    ensures peer != ""
  {
  }

  ghost function AllRefreshed(cfg: R.Config, m: R.Peers, peers: seq<string>, now: int): R.Peers {
    if peers == [] then m
    else Refreshed(cfg, AllRefreshed(cfg, m, peers[..|peers| - 1], now), peers[|peers| - 1], now)
  }

  /** A request to the registry; something at the hub, a joining channel being reported
      as present; or the ticker refreshing every peer that holds a channel. */
  datatype Event =
    | Asked(request: R.Request, at: int)
    | AtHub(event: H.Event, at: int)
    | Tick(order: seq<string>, at: int)

  ghost predicate Step(cfg: R.Config, hcfg: S.Config, m: R.Peers, h: S.Hub, e: Event, m': R.Peers, h': S.Hub) {
    match e
    case Asked(r, at) => m' == R.After(cfg, m, r, at) && h' == h
    case AtHub(x, at) =>
      h' == H.Step(hcfg, h, x) && m' == if x.Join? then Refreshed(cfg, m, x.peer, at) else m
    case Tick(order, at) =>
      Enumerates(order, h.conns.Keys) && h' == h && m' == AllRefreshed(cfg, m, order, at)
  }

  ghost predicate Run(cfg: R.Config, hcfg: S.Config, ms: seq<R.Peers>, hs: seq<S.Hub>, events: seq<Event>) {
    && cfg.Valid() && |ms| == |hs| == |events| + 1
    && EachStep(cfg, hcfg, ms, hs, events) && ClockForward(events)
  }

  ghost predicate EachStep(cfg: R.Config, hcfg: S.Config, ms: seq<R.Peers>, hs: seq<S.Hub>, events: seq<Event>)
    requires |ms| == |hs| == |events| + 1
  {
    forall i :: 0 <= i < |events| ==> Step(cfg, hcfg, ms[i], hs[i], events[i], ms[i + 1], hs[i + 1])
  }

  ghost predicate ClockForward(events: seq<Event>) {
    forall i, j :: 0 <= i <= j < |events| ==> events[i].at <= events[j].at
  }

  lemma RunStep(cfg: R.Config, hcfg: S.Config, ms: seq<R.Peers>, hs: seq<S.Hub>, events: seq<Event>, i: nat, k: nat)
    requires Run(cfg, hcfg, ms, hs, events) && i <= k < |events|
    ensures Step(cfg, hcfg, ms[k], hs[k], events[k], ms[k + 1], hs[k + 1])
    ensures events[i].at <= events[k].at && (i < k ==> events[k - 1].at <= events[k].at)
  {
  }

  lemma HeldSoFar(cfg: R.Config, hs: seq<S.Hub>, events: seq<Event>, p: string, start: int, i: nat, k: nat)
    requires i <= k < |events| < |hs| && StaysHeld(cfg, hs, events, p, start, i, k + 1)
    ensures StaysHeld(cfg, hs, events, p, start, i, k)
    ensures p in hs[k].conns && events[k] != Asked(R.Deregister(p), events[k].at)
    ensures events[k].at - LastTick(events, i, k, start) <= cfg.suspect
  {
  }

  /** Anything done for one peer keeps another that is there. */
  lemma RefreshKeeps(cfg: R.Config, m: R.Peers, peer: string, now: int, p: string)
    requires cfg.Valid() && p in R.Present(cfg, m, now)
    ensures p in Refreshed(cfg, m, peer, now)
    ensures Refreshed(cfg, m, peer, now)[p].lastSeen == now
      || (peer != p && Refreshed(cfg, m, peer, now)[p] == m[p])
  {
    var beaten := R.AfterHeartbeat(cfg, m, peer, now);
    assert p in R.Present(cfg, beaten, now);
  }

  /** Seen at or after `since`, and not in the future. */
  ghost predicate SeenSince(m: R.Peers, p: string, since: int, now: int) {
    p in m && since <= m[p].lastSeen <= now
  }

  lemma SeenIsPresent(cfg: R.Config, m: R.Peers, p: string, since: int, now: int)
    requires cfg.Valid() && SeenSince(m, p, since, now) && now - since <= cfg.suspect
    ensures p in R.Present(cfg, m, now) && R.StateOf(cfg, m[p], now) == R.Online
    ensures p !in R.GoneIds(cfg, m, now)
  {
  }

  lemma RefreshSees(cfg: R.Config, m: R.Peers, peer: string, now: int, p: string, since: int)
    requires cfg.Valid() && SeenSince(m, p, since, now) && now - since <= cfg.suspect
    ensures SeenSince(Refreshed(cfg, m, peer, now), p, if peer == p then now else since, now)
  {
    SeenIsPresent(cfg, m, p, since, now);
    RefreshKeeps(cfg, m, peer, now, p);
  }

  lemma {:induction false} TickSees(cfg: R.Config, m: R.Peers, order: seq<string>, now: int, p: string, since: int)
    requires cfg.Valid() && SeenSince(m, p, since, now) && now - since <= cfg.suspect
    ensures SeenSince(AllRefreshed(cfg, m, order, now), p, if p in order then now else since, now)
  {
    hide Refreshed, SeenSince;
    if order != [] {
      var n := |order| - 1;
      assert order == order[..n] + [order[n]];
      TickSees(cfg, m, order[..n], now, p, since);
      var before := AllRefreshed(cfg, m, order[..n], now);
      RefreshSees(cfg, before, order[n], now, p, if p in order[..n] then now else since);
    }
  }

  /** When the peer was last sure to be refreshed before event `k`: the last tick since
      event `i`, or the moment `start` it was seen at. */
  ghost function LastTick(events: seq<Event>, i: nat, k: nat, start: int): int
    requires i <= k <= |events|
  {
    if k == i then start
    else if events[k - 1].Tick? then events[k - 1].at
    else LastTick(events, i, k - 1, start)
  }

  /** The channel stays held, through any replacements; the peer does not deregister;
      and no event comes more than the suspect window after the last refresh. */
  ghost predicate StaysHeld(cfg: R.Config, hs: seq<S.Hub>, events: seq<Event>, p: string, start: int, i: nat, j: nat)
    requires i <= j <= |events| < |hs|
  {
    && (forall k :: i <= k < j ==> p in hs[k].conns && events[k] != Asked(R.Deregister(p), events[k].at))
    && (forall k :: i <= k < j ==> events[k].at - LastTick(events, i, k, start) <= cfg.suspect)
  }

  lemma StepSees(cfg: R.Config, hcfg: S.Config, m: R.Peers, h: S.Hub, e: Event, m': R.Peers, h': S.Hub,
                 p: string, since: int)
    requires cfg.Valid() && Step(cfg, hcfg, m, h, e, m', h')
    requires p in h.conns && e != Asked(R.Deregister(p), e.at)
    requires SeenSince(m, p, since, e.at) && e.at - since <= cfg.suspect
    ensures SeenSince(m', p, if e.Tick? then e.at else since, e.at)
  {
    SeenIsPresent(cfg, m, p, since, e.at);
    match e
    case Asked(r, at) => R.PresentIsKept(cfg, m, r, at, p);
    case AtHub(x, at) => if x.Join? { RefreshSees(cfg, m, x.peer, at, p, since); }
    case Tick(order, at) => TickSees(cfg, m, order, at, p, since);
  }

  lemma {:induction false} HeldChannelIsSeen(cfg: R.Config, hcfg: S.Config, ms: seq<R.Peers>, hs: seq<S.Hub>,
                                             events: seq<Event>, p: string, start: int, i: nat, j: nat, now: int)
    requires Run(cfg, hcfg, ms, hs, events) && i <= j <= |events|
    requires SeenSince(ms[i], p, start, if i < j then events[i].at else now)
    requires StaysHeld(cfg, hs, events, p, start, i, j)
    requires i < j ==> events[j - 1].at <= now
    ensures SeenSince(ms[j], p, LastTick(events, i, j, start), now)
    decreases j - i
  {
    hide EachStep, ClockForward, Step, StaysHeld, SeenSince;
    if i < j {
      var k := j - 1;
      RunStep(cfg, hcfg, ms, hs, events, i, k);
      HeldSoFar(cfg, hs, events, p, start, i, k);
      HeldChannelIsSeen(cfg, hcfg, ms, hs, events, p, start, i, k, events[k].at);
      StepSees(cfg, hcfg, ms[k], hs[k], events[k], ms[j], hs[j], p, LastTick(events, i, k, start));
      SeenLater(ms[j], p, LastTick(events, i, j, start), events[k].at, now);
    }
  }

  /** As long as its channel stays held and the refresh is never later than the suspect
      window, a registered peer is Online at every instant and no sweep names it. */
  lemma HeldChannelIsOnline(cfg: R.Config, hcfg: S.Config, ms: seq<R.Peers>, hs: seq<S.Hub>,
                            events: seq<Event>, p: string, start: int, i: nat, j: nat, now: int)
    requires Run(cfg, hcfg, ms, hs, events) && i <= j <= |events|
    requires SeenSince(ms[i], p, start, if i < j then events[i].at else now)
    requires StaysHeld(cfg, hs, events, p, start, i, j)
    requires i < j ==> events[j - 1].at <= now
    requires now - LastTick(events, i, j, start) <= cfg.suspect
    ensures p in ms[j] && R.StateOf(cfg, ms[j][p], now) == R.Online
    ensures p !in R.GoneIds(cfg, ms[j], now)
  {
    hide EachStep, ClockForward, StaysHeld;
    HeldChannelIsSeen(cfg, hcfg, ms, hs, events, p, start, i, j, now);
    SeenIsPresent(cfg, ms[j], p, LastTick(events, i, j, start), now);
  }

  lemma SeenLater(m: R.Peers, p: string, since: int, t: int, now: int)
    requires SeenSince(m, p, since, t) && t <= now
    ensures SeenSince(m, p, since, now)
  {
  }
}
