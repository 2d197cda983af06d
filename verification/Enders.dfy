/** Who ends in a request and who stays queued, told from the store before it is served:
    with these a caller can check beforehand whether the queue stays in order. */
module Enders {
  import opened Base
  import opened Identifiers
  import opened Sessions
  import opened SessionInvariant
  import opened SessionOpen
  import opened SettledOpen
  import opened TurnOrders
  import opened EndedOrder

  ghost function TimedOutOf(cfg: Config, m: Records, ids: set<string>, now: int): set<string> {
    set id | id in ids && id in m && TimedOut(cfg, m[id], now)
  }

  /** A peer at its cap has what has timed out of it end. */
  ghost function AtCap(cfg: Config, m: Records, peer: string, now: int): set<string> {
    if Saturated(cfg, m, peer) then TimedOutOf(cfg, m, PeerIds(m, peer), now) else {}
  }

  /** In the three turns: the pair's own; past the pair and the ceiling, the caller's; and
      if the caller really is below its cap, the callee's. */
  ghost function OpenEnders(cfg: Config, m: Records, caller: string, callee: string, now: int): set<string> {
    var key := PairKey(caller, callee);
    var m1 := SettlePair(cfg, m, key, now);
    TimedOutOf(cfg, m, PairIds(m, key), now)
    + (if !PastChecks(cfg, m, key, now) then {}
       else AtCap(cfg, m1, caller, now)
            + if Saturated(cfg, Settled(cfg, m, now), caller) then {}
              else AtCap(cfg, MakeRoom(cfg, m1, caller, now), callee, now))
  }

  ghost function EndersOf(cfg: Config, m: Records, r: Request, now: int): set<string> {
    match r
    case Open(_, _, _, _) =>
      if Considered(r) then OpenEnders(cfg, m, TrimSpace(r.caller), TrimSpace(r.callee), now) else {}
    case Get(id, askedBy) => if id in m && m[id].Has(askedBy) && TimedOut(cfg, m[id], now) then {id} else {}
    case Report(id, reporter, to, _) =>
      if id in m && m[id].Has(reporter) && m[id].Live()
         && (TimedOut(cfg, m[id], now) || to == Failed || to == Closed) then {id} else {}
    case ClosePeer(peer) => PeerIds(m, peer)
    case Reap => TimedOutIds(cfg, m, now) - ForgottenIds(cfg, m, now)
  }

  lemma SettleIdsEnds(cfg: Config, m: Records, ids: set<string>, now: int)
    ensures DeadIds(SettleIds(cfg, m, ids, now)) == DeadIds(m) + TimedOutOf(cfg, m, ids, now)
    ensures SettleIds(cfg, m, ids, now).Keys == m.Keys
  {
  }

  lemma MakeRoomEnds(cfg: Config, m: Records, peer: string, now: int)
    ensures DeadIds(MakeRoom(cfg, m, peer, now)) == DeadIds(m) + AtCap(cfg, m, peer, now)
    ensures MakeRoom(cfg, m, peer, now).Keys == m.Keys
  {
    hide PeerIds, SettleIds, DeadIds, TimedOutOf;
    SettleIdsEnds(cfg, m, PeerIds(m, peer), now);
  }

  lemma DroppedDead(m: Records, dropped: set<string>)
    ensures DeadIds(m - dropped) == DeadIds(m) - dropped
  {
  }

  lemma InsertedDead(m: Records, id: string, caller: string, callee: string, now: int)
    requires id !in m
    ensures DeadIds(m[id := Fresh(id, caller, callee, now)]) == DeadIds(m)
  {
  }

  /** Past the pair and the ceiling. */
  lemma OpenNewEnds(cfg: Config, b: Book, m: Records, caller: string, callee: string,
                    newId: Option<string>, now: int)
    requires m.Keys == b.sessions.Keys && (newId.Some? ==> newId.value !in m)
    ensures var ends := AtCap(cfg, m, caller, now)
                        + if Saturated(cfg, Settled(cfg, m, now), caller) then {}
                          else AtCap(cfg, MakeRoom(cfg, m, caller, now), callee, now);
            var m' := OpenNew(cfg, m, b.ended, caller, callee, newId, now).records;
            DeadIds(m') == DeadIds(m) + ends || DeadIds(m') == DeadIds(m) + ends - Dropped(cfg, b)
  {
    hide MakeRoom, Saturated, Settled, Trimmed, Dropped, DeadIds, AtCap;
    var m2 := MakeRoom(cfg, m, caller, now);
    var m3 := MakeRoom(cfg, m2, callee, now);
    CapIsReal(cfg, m, caller, now);
    MakeRoomEnds(cfg, m, caller, now);
    MakeRoomEnds(cfg, m2, callee, now);
    TrimmedIs(cfg, b, m3);
    DroppedDead(m3, Dropped(cfg, b));
    if newId.Some? { InsertedDead(m3 - Dropped(cfg, b), newId.value, caller, callee, now); }
  }

  lemma OpenEnds(cfg: Config, b: Book, caller: string, callee: string, newId: Option<string>, now: int)
    requires OnePerPair(b.sessions) && (newId.Some? ==> newId.value !in b.sessions)
    ensures var ends := OpenEnders(cfg, b.sessions, caller, callee, now);
            var m' := OpenOutcome(cfg, b, caller, callee, newId, now).records;
            DeadIds(m') == DeadIds(b.sessions) + ends || DeadIds(m') == DeadIds(b.sessions) + ends - Dropped(cfg, b)
  {
    hide PairKey, PairIds, LiveIds, Settled, OpenOutcome, OpenNew;
    hide Saturated, AtCap, TimedOutOf, MakeRoom, OnePerPair, DeadIds;
    hide SettleIds, Dropped;
    var m, key := b.sessions, PairKey(caller, callee);
    var m1 := SettlePair(cfg, m, key, now);
    SettleIdsEnds(cfg, m, PairIds(m, key), now);
    SettledAfterSome(cfg, m, PairIds(m, key), now);
    if held :| held in PairIds(Settled(cfg, m, now), key) {
      OneLiveForPair(cfg, m, key, now, held);
      HeldAnswer(cfg, b, caller, callee, newId, now, held);
    } else {
      UnheldAnswer(cfg, b, caller, callee, newId, now);
      OpenNewEnds(cfg, b, m1, caller, callee, newId, now);
    }
  }

  lemma EndersLive(cfg: Config, m: Records, m': Records, peer: string, now: int)
    requires Wanes(m, m')
    ensures AtCap(cfg, m', peer, now) <= LiveIds(m)
  {
  }

  lemma OpenEndersLive(cfg: Config, m: Records, caller: string, callee: string, now: int)
    ensures OpenEnders(cfg, m, caller, callee, now) <= LiveIds(m)
  {
    hide PairKey, AtCap, Saturated, MakeRoom, PastChecks, SettleIds, Wanes;
    var key := PairKey(caller, callee);
    var m1 := SettlePair(cfg, m, key, now);
    SettleIdsWanes(cfg, m, PairIds(m, key), now);
    MakeRoomWanes(cfg, m1, caller, now);
    WaneTwice(m, m1, MakeRoom(cfg, m1, caller, now));
    EndersLive(cfg, m, m1, caller, now);
    EndersLive(cfg, m, MakeRoom(cfg, m1, caller, now), callee, now);
  }

  /** Who a request takes from live to ended. */
  lemma NewlyEndedAre(cfg: Config, b: Book, r: Request, now: int)
    requires cfg.Valid() && BookOk(cfg, b) && FreshFor(r, b.sessions)
    ensures NewlyEnded(cfg, b, r, now) == EndersOf(cfg, b.sessions, r, now)
  {
    match r
    case Open(_, _, _, _) => OpenNewlyEnded(cfg, b, r, now);
    case Report(id, reporter, to, path) => ReportNewlyEnded(cfg, b, r, now);
    case _ =>
  }

  lemma ReportNewlyEnded(cfg: Config, b: Book, r: Request, now: int)
    requires r.Report?
    ensures NewlyEnded(cfg, b, r, now) == EndersOf(cfg, b.sessions, r, now)
  {
  }

  lemma OpenNewlyEnded(cfg: Config, b: Book, r: Request, now: int)
    requires r.Open? && BookOk(cfg, b) && FreshFor(r, b.sessions)
    ensures NewlyEnded(cfg, b, r, now) == EndersOf(cfg, b.sessions, r, now)
  {
    hide Serve, OpenOutcome, OpenEnders, TrimSpace, Dropped, OnePerPair, Bounded, Keyed;
    ConsideredServed(cfg, b, b, r, now);
    if Considered(r) {
      var caller, callee := TrimSpace(r.caller), TrimSpace(r.callee);
      OpenEnds(cfg, b, caller, callee, r.newId, now);
      OpenEndersLive(cfg, b.sessions, caller, callee, now);
      DroppedDies(cfg, b);
    }
  }

  lemma DroppedDies(cfg: Config, b: Book)
    requires BookOk(cfg, b)
    ensures Dropped(cfg, b) <= DeadIds(b.sessions)
  {
    if b.ended != [] { assert b.ended[0] in b.ended; }
  }

  /** An `Open` gets past its checks and both caps, to where it makes way and inserts. */
  ghost predicate MakesWay(cfg: Config, m: Records, r: Request, now: int) {
    && Considered(r)
    && var caller, callee := TrimSpace(r.caller), TrimSpace(r.callee);
       && PastChecks(cfg, m, PairKey(caller, callee), now)
       && !Saturated(cfg, Settled(cfg, m, now), caller) && !Saturated(cfg, Settled(cfg, m, now), callee)
  }

  ghost function ForgottenBy(cfg: Config, b: Book, r: Request, now: int): set<string> {
    match r
    case Open(_, _, _, _) => if MakesWay(cfg, b.sessions, r, now) then Dropped(cfg, b) else {}
    case Reap => ForgottenIds(cfg, b.sessions, now)
    case _ => {}
  }

  /** Who of the queue a request leaves there. */
  lemma StillQueuedAre(cfg: Config, b: Book, r: Request, now: int)
    requires cfg.Valid() && BookOk(cfg, b) && FreshFor(r, b.sessions)
    ensures StillQueued(cfg, b, r, now) == Elems(b.ended) - ForgottenBy(cfg, b, r, now)
  {
    assert forall id :: id in b.ended ==> id in DeadIds(b.sessions);
    match r
    case Open(_, _, _, _) => OpenKeys(cfg, b, r, now);
    case _ =>
  }

  lemma OpenKeys(cfg: Config, b: Book, r: Request, now: int)
    requires cfg.Valid() && BookOk(cfg, b) && r.Open? && FreshFor(r, b.sessions)
    ensures forall id :: id in b.sessions ==>
      (id in Serve(cfg, b, r, now).records <==> id !in ForgottenBy(cfg, b, r, now))
  {
    hide Serve, OpenOutcome, OpenNew, TrimSpace, PairKey, PairIds;
    hide LiveIds, Settled, SettleIds, Saturated, Dropped, OnePerPair;
    ConsideredServed(cfg, b, b, r, now);
    if Considered(r) {
      var caller, callee, m := TrimSpace(r.caller), TrimSpace(r.callee), b.sessions;
      var key := PairKey(caller, callee);
      var m1 := SettlePair(cfg, m, key, now);
      SettleIdsEnds(cfg, m, PairIds(m, key), now);
      SettledAfterSome(cfg, m, PairIds(m, key), now);
      if held :| held in PairIds(Settled(cfg, m, now), key) {
        OneLiveForPair(cfg, m, key, now, held);
        HeldAnswer(cfg, b, caller, callee, r.newId, now, held);
      } else {
        UnheldAnswer(cfg, b, caller, callee, r.newId, now);
        OpenNewSettled(cfg, b, m1, caller, callee, r.newId, now);
        SettledKeys(cfg, m, now);
        SettledKeys(cfg, Serve(cfg, b, r, now).records, now);
      }
    }
  }

  lemma SettledKeys(cfg: Config, m: Records, now: int)
    ensures Settled(cfg, m, now).Keys == m.Keys
  {
  }

  /** Whether a request keeps the queue in order, told from the store before it is served. */
  lemma OrderKeptByIff(cfg: Config, b: Book, r: Request, now: int)
    requires cfg.Valid() && BookOk(cfg, b) && FreshFor(r, b.sessions) && BookInOrder(b)
    ensures (forall b' | Next(cfg, b, r, now, b') :: BookInOrder(b')) <==>
      forall s :: s in EndersOf(cfg, b.sessions, r, now) ==>
        && (forall t :: t in Elems(b.ended) - ForgottenBy(cfg, b, r, now) ==>
              EndOf(b.sessions, t) <= EndingOf(cfg, b.sessions, s, now))
        && (forall t :: t in EndersOf(cfg, b.sessions, r, now) && TurnAt(r, b.sessions, t) <= TurnAt(r, b.sessions, s) ==>
              EndingOf(cfg, b.sessions, t, now) <= EndingOf(cfg, b.sessions, s, now))
  {
    hide BookOk, BookInOrder, Next, NewlyEnded, StillQueued, EndersOf;
    hide ForgottenBy, FreshFor, EndOf, EndingOf, TurnAt, Elems;
    OrderKeptIff(cfg, b, r, now);
    NewlyEndedAre(cfg, b, r, now);
    StillQueuedAre(cfg, b, r, now);
  }
}
