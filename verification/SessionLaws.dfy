/** What each request to the session store means, in the words of states and moments: laws
    that hold of `Serve` and do not repeat how it gets there. */
module SessionLaws {
  import opened Base
  import opened Identifiers
  import opened Sessions
  import opened SessionInvariant
  import opened SessionOpen
  import opened SettledOpen
  import opened Enders

  /** A session reads as it is stored, up to and including the moment its timeout falls;
      past that moment one still negotiating reads as failed at that moment. */
  lemma ReadLaw(cfg: Config, s: Session, now: int)
    ensures s.state != Negotiating || now <= s.openedAt + cfg.timeout ==> SettleOne(cfg, s, now) == s
    ensures s.state == Negotiating && now > s.openedAt + cfg.timeout ==>
      SettleOne(cfg, s, now)
      == Session(s.id, s.caller, s.callee, Failed, s.path, s.openedAt, s.openedAt + cfg.timeout)
  {
  }

  /** A participant gets the session as it reads at `now`, and nothing else changes. */
  lemma GetLaw(cfg: Config, b: Book, id: string, askedBy: string, now: int)
    requires id in b.sessions && (askedBy == b.sessions[id].caller || askedBy == b.sessions[id].callee)
    ensures var out := Serve(cfg, b, Get(id, askedBy), now);
            && out.answer == One(Ok(SettleOne(cfg, b.sessions[id], now)))
            && out.records == b.sessions[id := SettleOne(cfg, b.sessions[id], now)]
  {
  }

  /** To anybody else a session does not exist: a read and a report are answered as by a
      store that does not hold it, and leave it alone. */
  lemma StrangerLaw(cfg: Config, b: Book, id: string, peer: string, to: State, path: Path, now: int)
    requires id in b.sessions ==> peer != b.sessions[id].caller && peer != b.sessions[id].callee
    ensures var without := Book(b.sessions - {id}, b.ended);
            && Serve(cfg, b, Get(id, peer), now).answer == Serve(cfg, without, Get(id, peer), now).answer
            && Serve(cfg, b, Report(id, peer, to, path), now).answer
               == Serve(cfg, without, Report(id, peer, to, path), now).answer
    ensures Serve(cfg, b, Get(id, peer), now) == Outcome(b.sessions, One(Err(NotFound)))
    ensures Serve(cfg, b, Report(id, peer, to, path), now) == Outcome(b.sessions, One(Err(NotFound)))
  {
  }

  /** The moves a peer's report may make. */
  predicate Allowed(from: State, to: State) {
    || (from == Negotiating && (to == Connected || to == Failed || to == Closed))
    || (from == Connected && (to == Failed || to == Closed))
  }

  /** A report by a participant: from the session as it reads at `now`, a move that is
      allowed puts it in the state reported, changed now, with the reported path exactly if
      it connected; any other is refused and leaves it as it reads. */
  lemma ReportLaw(cfg: Config, b: Book, id: string, reporter: string, to: State, path: Path, now: int)
    requires id in b.sessions && (reporter == b.sessions[id].caller || reporter == b.sessions[id].callee)
    ensures var s := SettleOne(cfg, b.sessions[id], now);
            var out := Serve(cfg, b, Report(id, reporter, to, path), now);
            && (Allowed(s.state, to) ==>
                  var r := Session(s.id, s.caller, s.callee, to, if to == Connected then path else s.path, s.openedAt, now);
                  out == Outcome(b.sessions[id := r], One(Ok(r))))
            && (!Allowed(s.state, to) ==> out == Outcome(b.sessions[id := s], One(Err(BadTransition))))
  {
  }

  /** What a departure makes of a session. */
  function Left(s: Session, now: int): Session {
    if s.state == Negotiating || s.state == Connected
    then Session(s.id, s.caller, s.callee, Closed, s.path, s.openedAt, now) else s
  }

  /** A peer's departure: of the sessions it is in, those live at `now` are closed now with
      the path they had, those past their timeout are failed as of it, the ended stay as
      they are; no session of others is touched; and the answer is what was closed. */
  lemma DepartureLaw(cfg: Config, b: Book, peer: string, now: int)
    ensures var out := Serve(cfg, b, ClosePeer(peer), now);
            && out.records.Keys == b.sessions.Keys
            && (forall id :: id in b.sessions ==>
                  out.records[id] == if peer == b.sessions[id].caller || peer == b.sessions[id].callee
                                     then Left(SettleOne(cfg, b.sessions[id], now), now) else b.sessions[id])
    ensures var closed := set id | id in b.sessions
                            && (peer == b.sessions[id].caller || peer == b.sessions[id].callee)
                            && (var s := SettleOne(cfg, b.sessions[id], now); s.state == Negotiating || s.state == Connected)
                          :: Left(SettleOne(cfg, b.sessions[id], now), now);
            Serve(cfg, b, ClosePeer(peer), now).answer == Many(closed)
  {
  }

  /** When a session reads as ended at `now`, the moment it ended. */
  function Ended(cfg: Config, s: Session, now: int): Option<int> {
    match s.state
    case Negotiating => if now > s.openedAt + cfg.timeout then Some(s.openedAt + cfg.timeout) else None
    case Connected => None
    case _ => Some(s.changedAt)
  }

  /** A reap forgets exactly the sessions that ended more than the retention ago, leaves
      every other as it reads at `now`, and adds none. */
  lemma ReapLaw(cfg: Config, b: Book, now: int)
    ensures var m' := Serve(cfg, b, Reap, now).records;
            && (forall id :: id in m' ==> id in b.sessions)
            && (forall id :: id in b.sessions ==>
                  (id in m' <==> match Ended(cfg, b.sessions[id], now)
                                 case None => true
                                 case Some(t) => now - t <= cfg.retention))
            && (forall id :: id in m' ==> m'[id] == SettleOne(cfg, b.sessions[id], now))
  {
  }

  /** And it answers how many were past their timeout unread and how many it forgot. */
  lemma ReapAnswerLaw(cfg: Config, b: Book, now: int)
    ensures var failed := set id | id in b.sessions
              && b.sessions[id].state == Negotiating && now > b.sessions[id].openedAt + cfg.timeout;
            var m' := Serve(cfg, b, Reap, now).records;
            Serve(cfg, b, Reap, now).answer == Swept(|failed|, |b.sessions.Keys - m'.Keys|)
  {
    var failed := set id | id in b.sessions
      && b.sessions[id].state == Negotiating && now > b.sessions[id].openedAt + cfg.timeout;
    assert failed == TimedOutIds(cfg, b.sessions, now);
    assert b.sessions.Keys - Serve(cfg, b, Reap, now).records.Keys == ForgottenIds(cfg, b.sessions, now);
  }

  /** The requests `Open` turns away without looking at a session, and in which order. */
  lemma OpenRefusalLaw(cfg: Config, b: Book, r: Request, now: int)
    requires r.Open?
    ensures var caller, callee := TrimSpace(r.caller), TrimSpace(r.callee);
            var out := Serve(cfg, b, r, now);
            && (caller == "" ==> out == Outcome(b.sessions, One(Err(NoCaller))))
            && (caller != "" && callee == "" ==> out == Outcome(b.sessions, One(Err(NoCallee))))
            && (caller != "" && callee == caller ==> out == Outcome(b.sessions, One(Err(ToSelf))))
            && (caller != "" && callee != "" && callee != caller && !r.allowed ==>
                  out == Outcome(b.sessions, One(Err(NotAllowed))))
  {
    hide TrimSpace;
  }

  /** What `Open` answers past that. A live session of the pair is the answer; failing that
      the stored sessions that are live once the pair's own is settled must be below the
      ceiling, and each of the two peers below its cap in sessions live at `now`; a new
      session is negotiating from now on, under the identifier drawn, with no path. */
  lemma OpenAnswerLaw(cfg: Config, b: Book, r: Request, now: int)
    requires Considered(r) && OnePerPair(b.sessions)
    ensures var caller, callee := TrimSpace(r.caller), TrimSpace(r.callee);
            var actual, key := Settled(cfg, b.sessions, now), PairKey(caller, callee);
            var answer := Serve(cfg, b, r, now).answer;
            && (forall id :: id in PairIds(actual, key) ==> answer == One(Ok(actual[id])))
            && (PairIds(actual, key) == {} ==>
                  answer == One(
                    if |LiveIds(SettlePair(cfg, b.sessions, key, now))| >= cfg.ceiling then Err(Full)
                    else if |PeerIds(actual, caller)| >= cfg.perPeerCap || |PeerIds(actual, callee)| >= cfg.perPeerCap
                    then Err(TooManyForPeer)
                    else if r.newId.None? then Err(NoIdentifier)
                    else Ok(Session(r.newId.value, caller, callee, Negotiating, PathUnknown, now, now))))
  {
    hide OpenOutcome, TrimSpace, PairKey, PairIds, LiveIds, PeerIds, Settled, SettlePair, OnePerPair, Serve;
    var caller, callee := TrimSpace(r.caller), TrimSpace(r.callee);
    ConsideredServed(cfg, b, b, r, now);
    if held :| held in PairIds(Settled(cfg, b.sessions, now), PairKey(caller, callee)) {
      OneLiveForPair(cfg, b.sessions, PairKey(caller, callee), now, held);
      HeldAnswer(cfg, b, caller, callee, r.newId, now, held);
    } else {
      UnheldAnswer(cfg, b, caller, callee, r.newId, now);
    }
  }

  lemma SettledIds(cfg: Config, m: Records, now: int)
    requires Keyed(m)
    ensures forall id :: id in Settled(cfg, m, now) ==> id in m && Settled(cfg, m, now)[id].id == id
  {
  }

  /** An answer with a session the store did not hold is the end of the way through. */
  lemma CreatedMakesWay(cfg: Config, b: Book, r: Request, now: int, s: Session)
    requires BookOk(cfg, b) && r.Open? && Serve(cfg, b, r, now).answer == One(Ok(s)) && s.id !in b.sessions
    ensures MakesWay(cfg, b.sessions, r, now)
  {
    assert OnePerPair(b.sessions) && Keyed(b.sessions);
    SettledIds(cfg, b.sessions, now);
    hide OpenOutcome, TrimSpace, PairKey, LiveIds, PeerIds, Settled, SettlePair, OnePerPair, BookOk, Keyed;
    if Considered(r) {
      OpenAnswerLaw(cfg, b, r, now);
      assert forall id :: id in PairIds(Settled(cfg, b.sessions, now), PairKey(TrimSpace(r.caller), TrimSpace(r.callee)))
                ==> id in Settled(cfg, b.sessions, now);
    } else {
      OpenRefusalLaw(cfg, b, r, now);
    }
  }

  /** Below four records for each live session allowed, `Open` forgets nothing. */
  lemma BelowTheBoundLaw(cfg: Config, b: Book, r: Request, now: int)
    requires cfg.Valid() && BookOk(cfg, b) && r.Open? && FreshFor(r, b.sessions) && |b.sessions| < 4 * cfg.ceiling
    ensures b.sessions.Keys <= Serve(cfg, b, r, now).records.Keys
  {
    hide Serve, MakesWay, BookOk, FreshFor;
    OpenKeys(cfg, b, r, now);
  }

  /** At that many, one that creates a session forgets the record at the front of the queue. */
  lemma AtTheBoundLaw(cfg: Config, b: Book, r: Request, now: int, s: Session)
    requires cfg.Valid() && BookOk(cfg, b) && r.Open? && FreshFor(r, b.sessions) && |b.sessions| >= 4 * cfg.ceiling
    requires Serve(cfg, b, r, now).answer == One(Ok(s)) && s.id !in b.sessions
    ensures b.ended != [] && b.ended[0] in b.sessions
    ensures b.sessions.Keys - Serve(cfg, b, r, now).records.Keys == {b.ended[0]}
  {
    hide Serve, MakesWay, BookOk, FreshFor;
    OpenKeys(cfg, b, r, now);
    CreatedMakesWay(cfg, b, r, now, s);
    BoundLeavesEnded(cfg, b);
  }
}
