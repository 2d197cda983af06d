/** The session store as it runs: one map of records and four structures kept beside
    it so that no request scans. Every method is proved to leave what `Sessions.Serve`
    says, and the indexes exactly what a scan would give. */
module SessionStore {
  import opened Base
  import opened Identifiers
  import opened Sessions
  import opened SessionIndexes
  import opened SessionInvariant
  import opened SessionPasses

  const DEFAULT_MAX_SESSIONS := 10_000
  const DEFAULT_MAX_SESSIONS_PER_PEER := 64

  datatype Options = Options(
    negotiationTimeout: int, retention: int, maxSessions: int, maxSessionsPerPeer: int)

  datatype OptionsError = TimeoutNotPositive | RetentionNegative

  /** What `New` makes of its options: a refusal, or a configuration every session can finish under. */
  function Configure(o: Options): (r: Result<Config, OptionsError>)
    ensures r.Ok? ==> r.value.Valid()
    ensures r.Ok? <==> o.negotiationTimeout > 0 && o.retention >= 0
    ensures r == Err(RetentionNegative) ==> o.negotiationTimeout > 0
    ensures r.Ok? ==> r.value.timeout == o.negotiationTimeout && r.value.retention == o.retention
    ensures r.Ok? && o.maxSessions > 0 ==> r.value.ceiling == o.maxSessions
    ensures r.Ok? && o.maxSessions <= 0 ==> r.value.ceiling == 10_000
    ensures r.Ok? && o.maxSessionsPerPeer > 0 ==> r.value.perPeerCap == o.maxSessionsPerPeer
    ensures r.Ok? && o.maxSessionsPerPeer <= 0 ==> r.value.perPeerCap == 64
  {
    if o.negotiationTimeout <= 0 then Err(TimeoutNotPositive)
    else if o.retention < 0 then Err(RetentionNegative)
    else
      Ok(Config(o.negotiationTimeout, o.retention,
                if o.maxSessions <= 0 then DEFAULT_MAX_SESSIONS else o.maxSessions,
                if o.maxSessionsPerPeer <= 0 then DEFAULT_MAX_SESSIONS_PER_PEER else o.maxSessionsPerPeer))
  }

  class Store {
    const cfg: Config
    var sessions: Records
    var pairs: map<string, string>
    var live: int
    var perPeer: Rows
    var ended: seq<string>

    ghost function View(): Book reads this { Book(sessions, ended) }

    /** The records are filed under their own identifiers and the indexes agree with them. */
    ghost predicate Sound() reads this {
      cfg.Valid() && Keyed(sessions) && IndexesAgree(sessions, pairs, live, perPeer)
    }

    /** The queue lists the ended records, each once, and nothing else. */
    ghost predicate Listed() reads this {
      Enumerates(ended, DeadIds(sessions))
    }

    ghost predicate Valid() reads this {
      Sound() && BookOk(cfg, View())
    }

    constructor (cfg: Config)
      requires cfg.Valid()
      ensures this.cfg == cfg && Valid() && View() == Book(map[], [])
    {
      this.cfg := cfg;
      sessions, pairs, live, perPeer, ended := map[], map[], 0, map[], [];
    }

    method Track(peer: string, id: string)
      modifies this`perPeer
      ensures perPeer == Tracked(old(perPeer), peer, id)
    {
      if peer !in perPeer {
        perPeer := perPeer[peer := {}];
      }
      perPeer := perPeer[peer := perPeer[peer] + {id}];
    }

    method Untrack(peer: string, id: string)
      modifies this`perPeer
      ensures perPeer == Untracked(old(perPeer), peer, id)
    {
      if peer !in perPeer {
        return;
      }
      var held := perPeer[peer] - {id};
      perPeer := perPeer[peer := held];
      if held == {} {
        perPeer := perPeer - {peer};
      }
    }

    /** Takes a session out of every index of live sessions. On entry the record has
        ended and the indexes still describe `before`, where it had not. */
    method Ended(held: Session, ghost before: Records)
      requires held.id in before && before[held.id].Live() && !held.Live()
      requires held.SameCall(before[held.id])
      requires sessions == before[held.id := held]
      requires IndexesAgree(before, pairs, live, perPeer)
      modifies this`live, this`perPeer, this`pairs, this`ended
      ensures IndexesAgree(sessions, pairs, live, perPeer)
      ensures ended == old(ended) + [held.id]
      ensures Enumerates(old(ended), DeadIds(before)) ==> Listed()
    {
      hide PairKey, PairsAgree, RowsAgree, LiveIds, PeerIds, Untracked;
      EndedIndexes(before, held, pairs, live, perPeer);
      EndedSets(before, held);
      live := live - 1;
      Untrack(held.caller, held.id);
      Untrack(held.callee, held.id);
      pairs := pairs - {held.Key()};
      ended := ended + [held.id];
      if Enumerates(old(ended), DeadIds(before)) {
        EnumerationAppend(old(ended), DeadIds(before), held.id);
      }
    }

    /** Applies the negotiation timeout to one record. */
    method Settle(held: Session, now: int) returns (r: Session)
      requires Sound() && held.id in sessions && sessions[held.id] == held
      modifies this`sessions, this`live, this`perPeer, this`pairs, this`ended
      ensures Sound()
      ensures r == SettleOne(cfg, held, now)
      ensures sessions == old(sessions)[held.id := r]
      ensures ended == old(ended) + if TimedOut(cfg, held, now) then [held.id] else []
      ensures old(Listed()) ==> Listed()
    {
      hide PairKey, IndexesAgree;
      if held.state != Negotiating || now - held.openedAt <= cfg.timeout {
        return held;
      }
      ghost var before := sessions;
      r := held.(state := Failed, changedAt := held.openedAt + cfg.timeout);
      sessions := sessions[held.id := r];
      Ended(r, before);
    }

    /** The live session between two peers, with the timeout applied to it. */
    method Pair(a: string, b: string, now: int) returns (r: Option<Session>)
      requires Sound() && Listed()
      modifies this`sessions, this`live, this`perPeer, this`pairs, this`ended
      ensures Sound() && Listed()
      ensures sessions == SettlePair(cfg, old(sessions), PairKey(a, b), now)
      ensures old(ended) <= ended && From(ended, |old(ended)|, PairIds(old(sessions), PairKey(a, b)))
      ensures r.None? ==> PairIds(sessions, PairKey(a, b)) == {}
      ensures r.Some? ==> PairIds(sessions, PairKey(a, b)) == {r.value.id} && sessions[r.value.id] == r.value
    {
      hide PairKey, PairsAgree, RowsAgree, PeerIds, PairIds, LiveIds, DeadIds, SettlePair, SettleOne;
      var key := PairKey(a, b);
      PairSettles(cfg, sessions, pairs, key, now);
      if key !in pairs {
        return None;
      }
      // The source also answers for a dangling index entry; there is none.
      assert pairs[key] in sessions;
      var held := Settle(sessions[pairs[key]], now);
      if !held.Live() {
        return None;
      }
      return Some(held);
    }

    /** Applies the timeout to everything one peer holds. */
    method SettlePeer(peer: string, now: int)
      requires Sound() && Listed()
      modifies this`sessions, this`live, this`perPeer, this`pairs, this`ended
      ensures Sound() && Listed()
      ensures sessions == SettleIds(cfg, old(sessions), PeerIds(old(sessions), peer), now)
      ensures old(ended) <= ended && From(ended, |old(ended)|, PeerIds(old(sessions), peer))
    {
      hide PairKey, IndexesAgree, LiveIds, DeadIds, PeerIds, SettleOne;
      var ids := Row(perPeer, peer);
      ghost var was := sessions;
      RowIs(was, pairs, live, perPeer, peer);
      ghost var done := {};
      SettleNone(cfg, was, now);
      while ids != {}
        invariant Sound() && Listed() && old(ended) <= ended
        invariant From(ended, |old(ended)|, PeerIds(was, peer))
        invariant ids <= was.Keys && done !! ids && done + ids == PeerIds(was, peer)
        invariant sessions == SettleIds(cfg, was, done, now)
        decreases ids
      {
        var id :| id in ids;
        // The source also skips an identifier it no longer holds; there is none.
        assert id in sessions && sessions[id] == was[id];
        SettleMore(cfg, was, done, id, now);
        var settled := Settle(sessions[id], now);
        ids, done := ids - {id}, done + {id};
      }
    }

    /** Drops a record, and its pair's entry if that still points at it. */
    method Forget(id: string, held: Session)
      requires Sound() && id in sessions && sessions[id] == held && !held.Live()
      modifies this`sessions, this`pairs
      ensures Sound() && sessions == old(sessions) - {id}
    {
      SameLiveIndexes(sessions, sessions - {id}, pairs, live, perPeer);
      sessions := sessions - {id};
      pairs := if held.Key() in pairs && pairs[held.Key()] == id then pairs - {held.Key()} else pairs;
    }

    /** Drops the records that ended first while the store is at its bound: at most one
        ever goes, it is the front of the queue, and the loop never skips an entry. */
    method Trim()
      requires Valid()
      modifies this`sessions, this`pairs, this`ended
      ensures Valid() && |sessions| < cfg.Bound()
      ensures sessions == Trimmed(cfg, old(sessions), old(ended))
      ensures ended == if |old(sessions)| >= cfg.Bound() then old(ended)[1..] else old(ended)
    {
      hide PairKey, IndexesAgree, OnePerPair;
      ghost var b := View();
      if |sessions| >= cfg.Bound() { BoundLeavesEnded(cfg, b); }
      TrimMakesRoom(cfg, b, b.sessions);
      while |sessions| >= cfg.Bound() && |ended| > 0
        invariant Valid() && (|sessions| >= cfg.Bound() ==> |ended| > 0)
        invariant |b.sessions| < cfg.Bound() ==> View() == b
        invariant |b.sessions| >= cfg.Bound() ==>
            View() == b || View() == Book(Trimmed(cfg, b.sessions, b.ended), b.ended[1..])
        decreases |ended|
      {
        var oldest := ended[0];
        DropFront(sessions, ended);
        ended := ended[1..];
        assert oldest in DeadIds(sessions);
        if oldest in sessions && !sessions[oldest].Live() {
          Forget(oldest, sessions[oldest]);
        }
        DropWanes(b.sessions, {oldest});
        WaneKeeps(cfg, b.sessions, sessions);
      }
    }

    /** One peer's turn at the cap: settled if it is there, refused if it still is. */
    method RoomFor(peer: string, now: int) returns (ok: bool)
      requires Valid()
      modifies this`sessions, this`live, this`perPeer, this`pairs, this`ended
      ensures Valid() && old(ended) <= ended && From(ended, |old(ended)|, PeerIds(old(sessions), peer))
      ensures sessions == MakeRoom(cfg, old(sessions), peer, now)
      ensures ok <==> !Saturated(cfg, sessions, peer)
    {
      assert Row(perPeer, peer) == PeerIds(sessions, peer);
      if |Row(perPeer, peer)| < cfg.perPeerCap {
        return true;
      }
      ghost var was := sessions;
      SettlePeer(peer, now);
      SettleIdsWanes(cfg, was, PeerIds(was, peer), now);
      WaneKeeps(cfg, was, sessions);
      assert Row(perPeer, peer) == PeerIds(sessions, peer);
      ok := |Row(perPeer, peer)| < cfg.perPeerCap;
    }

    /** Files a new session and tells every index of it. */
    method Insert(created: Session)
      requires created.Live() && created.id !in sessions && PairIds(sessions, created.Key()) == {}
      requires IndexesAgree(sessions, pairs, live, perPeer)
      modifies this`sessions, this`live, this`perPeer, this`pairs
      ensures sessions == old(sessions)[created.id := created]
      ensures IndexesAgree(sessions, pairs, live, perPeer)
    {
      OpenedIndexes(sessions, created, pairs, live, perPeer);
      sessions := sessions[created.id := created];
      pairs := pairs[created.Key() := created.id];
      live := live + 1;
      Track(created.caller, created.id);
      Track(created.callee, created.id);
    }

    /** Opens a session past the pair and ceiling checks. */
    method OpenFresh(caller: string, callee: string, newId: Option<string>, now: int, ghost b: Book)
      returns (r: Result<Session, Error>)
      requires Valid() && caller != callee && BookOk(cfg, b)
      requires Wanes(b.sessions, sessions) && sessions.Keys == b.sessions.Keys && b.ended <= ended
      requires newId.Some? ==> newId.value !in sessions
      requires PairIds(sessions, PairKey(caller, callee)) == {} && |LiveIds(sessions)| < cfg.ceiling
      requires From(ended, |b.ended|, PairIds(b.sessions, PairKey(caller, callee)))
      modifies this`sessions, this`live, this`perPeer, this`pairs, this`ended
      ensures Valid() && Requeued(b.ended, sessions, ended) && InTurn(caller, callee, b.sessions, ended)
      ensures Outcome(sessions, One(r)) == OpenNew(cfg, old(sessions), b.ended, caller, callee, newId, now)
    {
      hide PairKey, IndexesAgree, Bounded, OnePerPair, DeadIds, LiveIds, PairIds, InTurn, From;
      ghost var m1, e1 := sessions, ended;
      MakeRoomWanes(cfg, m1, caller, now);
      var room := RoomFor(caller, now);
      WaneTwice(b.sessions, m1, sessions);
      ghost var m2, e2 := sessions, ended;
      if !room {
        QueueGrew(b, sessions, ended);
        NoneFrom(e2, PeerIds(m2, callee));
        TurnsTaken(b, m1, m2, caller, callee, e1, e2, e2);
        return Err(TooManyForPeer);
      }
      MakeRoomWanes(cfg, m2, callee, now);
      room := RoomFor(callee, now);
      WaneTwice(b.sessions, m2, sessions);
      TurnsTaken(b, m1, m2, caller, callee, e1, e2, ended);
      if !room {
        QueueGrew(b, sessions, ended);
        return Err(TooManyForPeer);
      }
      OpenNewReady(cfg, b, m1, caller, callee, now);
      r := OpenTrimmed(caller, callee, newId, now, b);
    }

    /** The tail of `Open`: everything is settled and only the record is missing. */
    method OpenTrimmed(caller: string, callee: string, newId: Option<string>, now: int, ghost b: Book)
      returns (r: Result<Session, Error>)
      requires Valid() && caller != callee && BookOk(cfg, b)
      requires Wanes(b.sessions, sessions) && sessions.Keys == b.sessions.Keys && b.ended <= ended
      requires newId.Some? ==> newId.value !in sessions
      requires Ready(cfg, Trimmed(cfg, sessions, b.ended), caller, callee)
      requires InTurn(caller, callee, b.sessions, ended)
      modifies this`sessions, this`live, this`perPeer, this`pairs, this`ended
      ensures Valid() && Requeued(b.ended, sessions, ended) && InTurn(caller, callee, b.sessions, ended)
      ensures newId.None? ==>
        r == Err(NoIdentifier) && sessions == Trimmed(cfg, old(sessions), b.ended)
      ensures newId.Some? ==>
        var s := Fresh(newId.value, caller, callee, now);
        r == Ok(s) && sessions == Trimmed(cfg, old(sessions), b.ended)[s.id := s]
    {
      hide PairKey, PairsAgree, RowsAgree, Bounded, OnePerPair, InTurn;
      TrimmedFront(cfg, b, sessions, ended);
      if ended != [] { TurnsTrimmed(caller, callee, b.sessions, ended); }
      Trim();
      QueueTrimmed(cfg, b, old(sessions), old(ended), sessions, ended);
      if newId.None? {
        return Err(NoIdentifier);
      }
      var created := Fresh(newId.value, caller, callee, now);
      InsertKeeps(cfg, sessions, created.id, caller, callee, now);
      ghost var trimmed := sessions;
      Insert(created);
      QueueInserted(b.ended, trimmed, created, ended);
      return Ok(created);
    }

    /** Creates a session from caller to callee, or answers the one they already have.
        `allowed` is the authorizer's answer and `newId` the random identifier, absent
        when the source of randomness fails. */
    method Open(rawCaller: string, rawCallee: string, allowed: bool, newId: Option<string>, now: int)
      returns (r: Result<Session, Error>)
      requires Valid() && (newId.Some? ==> newId.value !in sessions)
      modifies this`sessions, this`live, this`perPeer, this`pairs, this`ended
      ensures Valid()
      ensures Next(cfg, old(View()), Request.Open(rawCaller, rawCallee, allowed, newId), now, View())
      ensures One(r) == Serve(cfg, old(View()), Request.Open(rawCaller, rawCallee, allowed, newId), now).answer
    {
      ghost var b := View();
      var caller, callee := TrimSpace(rawCaller), TrimSpace(rawCallee);
      QueueGrew(b, b.sessions, b.ended);
      NoTurnsYet(caller, callee, b);
      if caller == "" {
        return Err(NoCaller);
      } else if callee == "" {
        return Err(NoCallee);
      } else if caller == callee {
        return Err(ToSelf);
      }
      if !allowed {
        return Err(NotAllowed);
      }
      r := OpenLocked(caller, callee, newId, now);
    }

    /** `Open` with the lock held. */
    method OpenLocked(caller: string, callee: string, newId: Option<string>, now: int)
      returns (r: Result<Session, Error>)
      requires Valid() && caller != callee && (newId.Some? ==> newId.value !in sessions)
      modifies this`sessions, this`live, this`perPeer, this`pairs, this`ended
      ensures Valid() && Requeued(old(ended), sessions, ended) && InTurn(caller, callee, old(sessions), ended)
      ensures Outcome(sessions, One(r)) == OpenOutcome(cfg, old(View()), caller, callee, newId, now)
    {
      hide PairKey, PairsAgree, RowsAgree, Bounded, OnePerPair, InTurn, From;
      ghost var b := View();
      SettleIdsWanes(cfg, sessions, PairIds(sessions, PairKey(caller, callee)), now);
      var existing := Pair(caller, callee, now);
      WaneKeeps(cfg, b.sessions, sessions);
      QueueGrew(b, sessions, ended);
      PairsTurn(b, caller, callee, ended);
      if existing.Some? {
        return Ok(existing.value);
      }
      if live >= cfg.ceiling {
        return Err(Full);
      }
      r := OpenFresh(caller, callee, newId, now, b);
    }

    /** Reports a session to a peer in it; to anybody else it does not exist. */
    method Get(id: string, askedBy: string, now: int) returns (r: Result<Session, Error>)
      requires Valid()
      modifies this`sessions, this`live, this`perPeer, this`pairs, this`ended
      ensures Valid()
      ensures Next(cfg, old(View()), Request.Get(id, askedBy), now, View())
      ensures One(r) == Serve(cfg, old(View()), Request.Get(id, askedBy), now).answer
    {
      ghost var b := View();
      if id !in sessions || !sessions[id].Has(askedBy) {
        r := Err(NotFound);
      } else {
        var found := Settle(sessions[id], now);
        r := Ok(found);
      }
      Served(cfg, b, Request.Get(id, askedBy), now, View());
    }

    /** Moves a session to the state a peer in it says it reached. */
    method Report(id: string, reporter: string, to: State, path: Path, now: int)
      returns (r: Result<Session, Error>)
      requires Valid()
      modifies this`sessions, this`live, this`perPeer, this`pairs, this`ended
      ensures Valid()
      ensures Next(cfg, old(View()), Request.Report(id, reporter, to, path), now, View())
      ensures One(r) == Serve(cfg, old(View()), Request.Report(id, reporter, to, path), now).answer
    {
      ghost var b := View();
      r := ReportLocked(id, reporter, to, path, now);
      Served(cfg, b, Request.Report(id, reporter, to, path), now, View());
    }

    method ReportLocked(id: string, reporter: string, to: State, path: Path, now: int)
      returns (r: Result<Session, Error>)
      requires Sound() && Listed()
      modifies this`sessions, this`live, this`perPeer, this`pairs, this`ended
      ensures Sound() && Listed() && old(ended) <= ended
      ensures Outcome(sessions, One(r)) == ReportOutcome(cfg, old(sessions), id, reporter, to, path, now)
    {
      hide PairKey, IndexesAgree, DeadIds, TimedOut;
      if id !in sessions || !sessions[id].Has(reporter) {
        return Err(NotFound);
      }
      ghost var m := sessions;
      var found := Settle(sessions[id], now);
      r := Transition(found, to, path, now);
      assert m[id := found][id := Moved(found, to, path, now)] == m[id := Moved(found, to, path, now)];
    }

    /** A settled session is moved if the move is one it can make, and left as it was if not. */
    method Transition(held: Session, to: State, path: Path, now: int) returns (r: Result<Session, Error>)
      requires Sound() && Listed() && held.id in sessions && sessions[held.id] == held
      modifies this`sessions, this`live, this`perPeer, this`pairs, this`ended
      ensures Sound() && Listed() && old(ended) <= ended
      ensures CanMove(held.state, to) ==>
        r == Ok(Moved(held, to, path, now)) && sessions == old(sessions)[held.id := Moved(held, to, path, now)]
      ensures !CanMove(held.state, to) ==> r == Err(BadTransition) && sessions == old(sessions)
    {
      hide PairKey, IndexesAgree, DeadIds;
      if !CanMove(held.state, to) {
        return Err(BadTransition);
      }
      var found := Move(held, to, path, now);
      return Ok(found);
    }

    /** The move itself, once it is allowed. */
    method Move(held: Session, to: State, path: Path, now: int) returns (found: Session)
      requires Sound() && Listed() && held.id in sessions && sessions[held.id] == held
      requires CanMove(held.state, to)
      modifies this`sessions, this`live, this`perPeer, this`pairs, this`ended
      ensures Sound() && Listed() && old(ended) <= ended
      ensures found == Moved(held, to, path, now)
      ensures sessions == old(sessions)[held.id := found]
    {
      hide PairKey, PairsAgree, RowsAgree;
      ghost var before := sessions;
      found := held.(state := to, changedAt := now);
      if to == Connected {
        found := found.(path := path);
      }
      sessions := sessions[held.id := found];
      if held.Live() && !found.Live() {
        Ended(found, before);
      } else {
        assert LiveIds(sessions) == LiveIds(before) && DeadIds(sessions) == DeadIds(before);
        SameLiveIndexes(before, sessions, pairs, live, perPeer);
      }
    }

    /** Ends one session for a peer that left, unless it had already ended or timed out. */
    method Shut(id: string, peer: string, now: int) returns (closed: Option<Session>)
      requires Sound() && Listed() && id in sessions
      modifies this`sessions, this`live, this`perPeer, this`pairs, this`ended
      ensures Sound() && Listed() && old(ended) <= ended
      ensures sessions == old(sessions)[id := ShutOne(cfg, old(sessions)[id], peer, now)]
      ensures closed.Some? <==> id in ClosedIds(cfg, old(sessions), peer, now)
      ensures closed.Some? ==> closed.value == ShutOne(cfg, old(sessions)[id], peer, now)
    {
      hide PairKey, IndexesAgree, DeadIds, TimedOut;
      if !sessions[id].Has(peer) {
        return None;
      }
      // Settled first: a session past its timeout failed then, and is not relabelled.
      var held := Settle(sessions[id], now);
      if !held.Live() {
        return None;
      }
      held := Close(held, now);
      return Some(held);
    }

    method Close(held: Session, now: int) returns (closed: Session)
      requires Sound() && Listed() && held.id in sessions && sessions[held.id] == held && held.Live()
      modifies this`sessions, this`live, this`perPeer, this`pairs, this`ended
      ensures Sound() && Listed() && old(ended) <= ended
      ensures closed == held.(state := Closed, changedAt := now)
      ensures sessions == old(sessions)[held.id := closed]
    {
      hide PairKey, IndexesAgree;
      ghost var before := sessions;
      closed := held.(state := Closed, changedAt := now);
      sessions := sessions[held.id := closed];
      Ended(closed, before);
    }

    /** Ends every session a peer was in and names the ones it closed. */
    method ClosePeer(peer: string, now: int) returns (closed: seq<Session>)
      requires Valid()
      modifies this`sessions, this`live, this`perPeer, this`pairs, this`ended
      ensures Valid()
      ensures Next(cfg, old(View()), Request.ClosePeer(peer), now, View())
      ensures Many(Elems(closed)) == Serve(cfg, old(View()), Request.ClosePeer(peer), now).answer
      ensures NoDup(closed)
    {
      ghost var b := View();
      closed := ClosePass(peer, now);
      Served(cfg, b, Request.ClosePeer(peer), now, View());
    }

    method ClosePass(peer: string, now: int) returns (closed: seq<Session>)
      requires Sound() && Listed()
      modifies this`sessions, this`live, this`perPeer, this`pairs, this`ended
      ensures Sound() && Listed() && old(ended) <= ended
      ensures sessions == ShutSome(cfg, old(sessions), old(sessions).Keys, peer, now)
      ensures Elems(closed) == ShutOf(cfg, old(sessions), ClosedIds(cfg, old(sessions), peer, now), peer, now)
      ensures NoDup(closed)
    {
      hide PairKey, IndexesAgree, DeadIds, ShutOne;
      ghost var m := sessions;
      ghost var order := [];
      closed := [];
      var remaining := sessions.Keys;
      ShutNone(cfg, m, peer, now);
      while remaining != {}
        invariant Sound() && Listed() && old(ended) <= ended && remaining <= m.Keys
        invariant sessions == ShutSome(cfg, m, m.Keys - remaining, peer, now)
        invariant ShutInOrder(cfg, m, order, peer, now, closed)
        invariant Enumerates(order, ClosedIds(cfg, m, peer, now) - remaining)
        decreases remaining
      {
        var id :| id in remaining;
        ShutMore(cfg, m, remaining, id, peer, now);
        var shut := Shut(id, peer, now);
        if shut.Some? {
          EnumerationAppend(order, ClosedIds(cfg, m, peer, now) - remaining, id);
          ShutOneMore(cfg, m, order, peer, now, closed, id);
          order := order + [id];
          closed := closed + [shut.value];
        }
        remaining := remaining - {id};
      }
      assert m.Keys - {} == m.Keys;
      assert ClosedIds(cfg, m, peer, now) - {} == ClosedIds(cfg, m, peer, now);
      ShutList(cfg, m, ClosedIds(cfg, m, peer, now), order, peer, now, closed);
    }

    /** How many sessions are live as stored, read from the counter. */
    method Count() returns (n: int)
      requires Valid()
      ensures n == |LiveIds(sessions)|
    {
      n := live;
    }

    /** How many records are held, live and ended alike. */
    method Held() returns (n: int)
      requires Valid()
      ensures n == |LiveIds(sessions)| + |ended| && n <= cfg.Bound()
    {
      n := |sessions|;
      EnumerationSize(ended, DeadIds(sessions));
      assert sessions.Keys == LiveIds(sessions) + DeadIds(sessions);
      assert |sessions| == |sessions.Keys|;
    }

    /** Drops from the queue the identifiers the store no longer holds. */
    method CompactEnded()
      modifies this`ended
      ensures ended == Kept(old(ended), sessions.Keys)
    {
      var kept := [];
      for i := 0 to |ended|
        invariant ended == old(ended)
        invariant kept == Kept(ended[..i], sessions.Keys)
      {
        assert ended[..i + 1][..i] == ended[..i];
        if ended[i] in sessions {
          kept := kept + [ended[i]];
        }
      }
      assert ended[..|ended|] == ended;
      ended := kept;
    }

    /** One record's turn in a reaping pass. */
    method ReapOne(id: string, now: int) returns (failed: bool, forgotten: bool)
      requires Sound() && id in sessions
      modifies this`sessions, this`live, this`perPeer, this`pairs, this`ended
      ensures Sound()
      ensures failed == TimedOut(cfg, old(sessions)[id], now)
      ensures forgotten == PastRetention(cfg, SettleOne(cfg, old(sessions)[id], now), now)
      ensures forgotten ==> sessions == old(sessions) - {id}
      ensures !forgotten ==> sessions == old(sessions)[id := SettleOne(cfg, old(sessions)[id], now)]
      ensures ended == old(ended) + if failed then [id] else []
    {
      hide PairKey, IndexesAgree;
      var before := sessions[id].state;
      ghost var m := sessions;
      var held := Settle(sessions[id], now);
      failed := before == Negotiating && held.state == Failed;
      forgotten := !held.Live() && now - held.changedAt > cfg.retention;
      if forgotten {
        Forget(id, held);
        assert m[id := held] - {id} == m - {id};
      }
    }

    /** Settles what has timed out and forgets what is past its retention. */
    method Reap(now: int) returns (failed: int, forgotten: int)
      requires Valid()
      modifies this`sessions, this`live, this`perPeer, this`pairs, this`ended
      ensures Valid()
      ensures Next(cfg, old(View()), Request.Reap, now, View())
      ensures Swept(failed, forgotten) == Serve(cfg, old(View()), Request.Reap, now).answer
    {
      hide PairKey, IndexesAgree, TimedOutIds, ForgottenIds;
      ghost var b := View();
      ghost var grown;
      failed, forgotten, grown := ReapPass(now);
      CompactEnded();
      ReapServed(cfg, b, now, grown);
    }

    /** The pass over the map, before the queue is compacted. */
    method ReapPass(now: int) returns (failed: int, forgotten: int, ghost grown: seq<string>)
      requires Sound() && Listed()
      modifies this`sessions, this`live, this`perPeer, this`pairs, this`ended
      ensures Sound() && grown == ended && old(ended) <= ended
      ensures sessions == Reaped(cfg, old(sessions), now)
      ensures failed == |TimedOutIds(cfg, old(sessions), now)|
      ensures forgotten == |ForgottenIds(cfg, old(sessions), now)|
      ensures Enumerates(ended, DeadIds(Settled(cfg, old(sessions), now)))
    {
      hide PairKey, IndexesAgree, DeadIds;
      ghost var m := sessions;
      failed, forgotten := 0, 0;
      var remaining := sessions.Keys;
      ReapNone(cfg, m, now);
      while remaining != {}
        invariant Sound() && old(ended) <= ended && remaining <= m.Keys
        invariant ReapedTo(m, remaining, now)
        invariant failed == |TimedOutIds(cfg, m, now) - remaining|
        invariant forgotten == |ForgottenIds(cfg, m, now) - remaining|
        decreases remaining
      {
        var id :| id in remaining;
        ReapMoreCounts(cfg, m, remaining, id, now);
        var didFail, didForget := ReapTurn(id, now, m, remaining);
        failed := failed + if didFail then 1 else 0;
        forgotten := forgotten + if didForget then 1 else 0;
        remaining := remaining - {id};
      }
      ReapAll(cfg, m, now);
      grown := ended;
    }

    /** The pass so far: everything but `remaining` has had its turn. */
    ghost predicate ReapedTo(m: Records, remaining: set<string>, now: int) reads this {
      && sessions == ReapedSome(cfg, m, m.Keys - remaining, now)
      && Enumerates(ended, ReapedDead(cfg, m, m.Keys - remaining, now))
    }

    method ReapTurn(id: string, now: int, ghost m: Records, ghost remaining: set<string>)
      returns (failed: bool, forgotten: bool)
      requires Sound() && remaining <= m.Keys && id in remaining && ReapedTo(m, remaining, now)
      modifies this`sessions, this`live, this`perPeer, this`pairs, this`ended
      ensures Sound() && old(ended) <= ended && ReapedTo(m, remaining - {id}, now)
      ensures failed == (id in TimedOutIds(cfg, m, now))
      ensures forgotten == (id in ForgottenIds(cfg, m, now))
    {
      hide PairKey, IndexesAgree, TimedOut;
      ReapMore(cfg, m, remaining, id, now);
      failed, forgotten := ReapOne(id, now);
      ReapMoreListed(cfg, m, remaining, id, now, old(ended));
    }
  }
}
