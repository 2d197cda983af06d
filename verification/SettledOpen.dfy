/** What `Open` leaves, read off the settled records: a specification that knows nothing
    of what was settled when. */
module SettledOpen {
  import opened Base
  import opened Identifiers
  import opened Sessions
  import opened SessionOpen
  import opened SessionLazy

  /** The record an `Open` that takes a new one in makes way with: at the bound, the front
      of the queue. */
  ghost function Dropped(cfg: Config, b: Book): set<string> {
    if |b.sessions| >= cfg.Bound() && b.ended != [] then {b.ended[0]} else {}
  }

  /** Nothing that is really live stands in the way of a new session. */
  ghost predicate Admits(cfg: Config, actual: Records, caller: string, callee: string) {
    && PairIds(actual, PairKey(caller, callee)) == {} && |LiveIds(actual)| < cfg.ceiling
    && !Saturated(cfg, actual, caller) && !Saturated(cfg, actual, callee)
  }

  ghost function Taken(actual: Records, dropped: set<string>, caller: string, callee: string,
                       newId: Option<string>, now: int): Records
  {
    match newId
    case None => actual - dropped
    case Some(id) => (actual - dropped)[id := Fresh(id, caller, callee, now)]
  }

  lemma SettledMakeRoom(cfg: Config, m: Records, peer: string, now: int)
    ensures Settled(cfg, MakeRoom(cfg, m, peer, now), now) == Settled(cfg, m, now)
    ensures MakeRoom(cfg, m, peer, now).Keys == m.Keys
  {
    SettledAfterSome(cfg, m, PeerIds(m, peer), now);
  }

  lemma SettledTaken(cfg: Config, m: Records, dropped: set<string>, caller: string, callee: string,
                     newId: Option<string>, now: int)
    requires cfg.Valid()
    ensures Settled(cfg, Taken(m, dropped, caller, callee, newId, now), now)
         == Taken(Settled(cfg, m, now), dropped, caller, callee, newId, now)
  {
  }

  lemma TrimmedIs(cfg: Config, b: Book, m: Records)
    requires m.Keys == b.sessions.Keys
    ensures Trimmed(cfg, m, b.ended) == m - Dropped(cfg, b)
  {
    assert |m| == |m.Keys| == |b.sessions.Keys| == |b.sessions|;
    assert m - {} == m;
  }

  lemma OpenNewSettled(cfg: Config, b: Book, m: Records, caller: string, callee: string,
                       newId: Option<string>, now: int)
    requires cfg.Valid() && m.Keys == b.sessions.Keys
    ensures var actual := Settled(cfg, m, now);
            Settled(cfg, OpenNew(cfg, m, b.ended, caller, callee, newId, now).records, now)
            == if Saturated(cfg, actual, caller) || Saturated(cfg, actual, callee) then actual
               else Taken(actual, Dropped(cfg, b), caller, callee, newId, now)
  {
    hide MakeRoom, Saturated, Settled, Trimmed, Dropped;
    var m2 := MakeRoom(cfg, m, caller, now);
    var m3 := MakeRoom(cfg, m2, callee, now);
    CapIsReal(cfg, m, caller, now);
    CapIsReal(cfg, m2, callee, now);
    SettledMakeRoom(cfg, m, caller, now);
    SettledMakeRoom(cfg, m2, callee, now);
    TrimmedIs(cfg, b, m3);
    SettledTaken(cfg, m3, Dropped(cfg, b), caller, callee, newId, now);
  }

  /** Unless unread timeouts hold the ceiling, `Open` leaves what it would have left a
      fully settled store: the settled records, less the record dropped and with the new
      one where a new one is admitted. */
  lemma OpenLeaves(cfg: Config, b: Book, caller: string, callee: string, newId: Option<string>, now: int)
    requires cfg.Valid() && OnePerPair(b.sessions)
    requires !FullTooSoon(cfg, b.sessions, PairKey(caller, callee), now)
    ensures var actual := Settled(cfg, b.sessions, now);
            Settled(cfg, OpenOutcome(cfg, b, caller, callee, newId, now).records, now)
            == if Admits(cfg, actual, caller, callee) then Taken(actual, Dropped(cfg, b), caller, callee, newId, now)
               else actual
  {
    hide PairKey, PairIds, LiveIds, Settled, OpenOutcome, OpenNew, Saturated, Taken, Dropped, OnePerPair;
    var key, actual := PairKey(caller, callee), Settled(cfg, b.sessions, now);
    var m1 := SettlePair(cfg, b.sessions, key, now);
    SettledAfterSome(cfg, b.sessions, PairIds(b.sessions, key), now);
    if held :| held in PairIds(actual, key) {
      OneLiveForPair(cfg, b.sessions, key, now, held);
      HeldAnswer(cfg, b, caller, callee, newId, now, held);
    } else {
      UnheldAnswer(cfg, b, caller, callee, newId, now);
      SettledLiveFewer(cfg, b.sessions, key, now);
      OpenNewSettled(cfg, b, m1, caller, callee, newId, now);
    }
  }

  // --- two stores that agree ------------------------------------------------------------

  /** The request is well-formed and allowed, so the records are looked at. */
  predicate Considered(r: Request) {
    && r.Open? && TrimSpace(r.caller) != "" && TrimSpace(r.callee) != ""
    && TrimSpace(r.caller) != TrimSpace(r.callee) && r.allowed
  }

  lemma ConsideredServed(cfg: Config, b: Book, b': Book, r: Request, now: int)
    requires r.Open?
    ensures Considered(r) ==>
      Serve(cfg, b, r, now) == OpenOutcome(cfg, b, TrimSpace(r.caller), TrimSpace(r.callee), r.newId, now)
    ensures !Considered(r) ==>
      && Serve(cfg, b, r, now).records == b.sessions
      && Serve(cfg, b, r, now).answer == Serve(cfg, b', r, now).answer
  {
    hide OpenOutcome, TrimSpace;
  }

  ghost predicate TooSoon(cfg: Config, m: Records, r: Request, now: int) {
    Considered(r) && FullTooSoon(cfg, m, PairKey(TrimSpace(r.caller), TrimSpace(r.callee)), now)
  }

  /** The request gets as far as making way for a new session: a store at its bound forgets
      one, even where no identifier can then be had. */
  ghost predicate TakesIn(cfg: Config, m: Records, r: Request, now: int) {
    Considered(r) && Admits(cfg, Settled(cfg, m, now), TrimSpace(r.caller), TrimSpace(r.callee))
  }

  /** Stores that agree answer an `Open` alike, unless unread timeouts fill one of them. */
  lemma OpenAnswersAlike(cfg: Config, b: Book, b': Book, r: Request, now: int)
    requires r.Open? && OnePerPair(b.sessions) && OnePerPair(b'.sessions)
    requires Agree(cfg, b.sessions, b'.sessions, now)
    requires !TooSoon(cfg, b.sessions, r, now) && !TooSoon(cfg, b'.sessions, r, now)
    ensures Serve(cfg, b, r, now).answer == Serve(cfg, b', r, now).answer
  {
    hide Serve, OpenOutcome, Settled, FullTooSoon, OnePerPair, TrimSpace;
    ConsideredServed(cfg, b, b', r, now);
    ConsideredServed(cfg, b', b, r, now);
    if Considered(r) {
      OpenSeesUnsettledCeiling(cfg, b, [], TrimSpace(r.caller), TrimSpace(r.callee), r.newId, now);
      OpenSeesUnsettledCeiling(cfg, b', [], TrimSpace(r.caller), TrimSpace(r.callee), r.newId, now);
    }
  }

  /** And they still agree afterwards if and only if way was made for no session or both made
      way with the same record. */
  lemma OpenAgreesIff(cfg: Config, b: Book, b': Book, r: Request, now: int)
    requires r.Open? && cfg.Valid() && BookOk(cfg, b) && BookOk(cfg, b') && FreshFor(r, b.sessions)
    requires Agree(cfg, b.sessions, b'.sessions, now)
    requires !TooSoon(cfg, b.sessions, r, now) && !TooSoon(cfg, b'.sessions, r, now)
    ensures Agree(cfg, Serve(cfg, b, r, now).records, Serve(cfg, b', r, now).records, now)
      <==> (TakesIn(cfg, b.sessions, r, now) ==> Dropped(cfg, b) == Dropped(cfg, b'))
  {
    assert OnePerPair(b.sessions) && OnePerPair(b'.sessions);
    hide Serve, OpenOutcome, Settled, FullTooSoon, OnePerPair, TrimSpace, Admits, Taken, Dropped, BookOk;
    ConsideredServed(cfg, b, b', r, now);
    ConsideredServed(cfg, b', b, r, now);
    if Considered(r) {
      var actual := Settled(cfg, b.sessions, now);
      OpenLeaves(cfg, b, TrimSpace(r.caller), TrimSpace(r.callee), r.newId, now);
      OpenLeaves(cfg, b', TrimSpace(r.caller), TrimSpace(r.callee), r.newId, now);
      DroppedAreHeld(cfg, b, now);
      DroppedAreHeld(cfg, b', now);
      TakenTells(actual, Dropped(cfg, b), Dropped(cfg, b'), TrimSpace(r.caller), TrimSpace(r.callee), r.newId, now);
    }
  }

  lemma DroppedAreHeld(cfg: Config, b: Book, now: int)
    requires BookOk(cfg, b)
    ensures Dropped(cfg, b) <= Settled(cfg, b.sessions, now).Keys
    ensures Settled(cfg, b.sessions, now).Keys == b.sessions.Keys
  {
    if b.ended != [] {
      assert b.ended[0] in b.ended;
      assert b.ended[0] in DeadIds(b.sessions);
    }
  }

  lemma TakenTells(actual: Records, dropped: set<string>, other: set<string>, caller: string, callee: string,
                   newId: Option<string>, now: int)
    requires dropped <= actual.Keys && other <= actual.Keys && (newId.Some? ==> newId.value !in actual)
    ensures Taken(actual, dropped, caller, callee, newId, now) == Taken(actual, other, caller, callee, newId, now)
      <==> dropped == other
  {
    var taken := Taken(actual, dropped, caller, callee, newId, now);
    assert forall id :: id in actual ==> (id in taken <==> id !in dropped);
    var taken' := Taken(actual, other, caller, callee, newId, now);
    assert forall id :: id in actual ==> (id in taken' <==> id !in other);
    if taken == taken' {
      assert forall id :: id in dropped <==> id in other;
    }
  }
}
