/** What `Open` answers, stated on the sessions that are really live at `now`. */
module SessionOpen {
  import opened Base
  import opened Identifiers
  import opened Sessions
  import opened SessionInvariant
  import opened SessionRuns

  /** Settling part of the store first does not change what settling all of it gives. */
  lemma SettledAfterSome(cfg: Config, m: Records, ids: set<string>, now: int)
    ensures Settled(cfg, SettleIds(cfg, m, ids, now), now) == Settled(cfg, m, now)
  {
  }

  lemma SettledWanes(cfg: Config, m: Records, now: int)
    ensures Wanes(m, Settled(cfg, m, now)) && Settled(cfg, m, now).Keys == m.Keys
  {
  }

  /** Although only a peer found at its cap is settled, it ends up refused exactly when
      it holds its cap in sessions that are live at `now`. */
  lemma CapIsReal(cfg: Config, m: Records, peer: string, now: int)
    ensures Saturated(cfg, MakeRoom(cfg, m, peer, now), peer) <==> Saturated(cfg, Settled(cfg, m, now), peer)
  {
    SettledWanes(cfg, m, now);
    if Saturated(cfg, m, peer) {
      assert PeerIds(MakeRoom(cfg, m, peer, now), peer) == PeerIds(Settled(cfg, m, now), peer);
    } else {
      SaturationWanes(cfg, m, Settled(cfg, m, now), peer);
    }
  }

  /** The pair and ceiling checks let the request through. */
  ghost predicate PastChecks(cfg: Config, m: Records, key: string, now: int) {
    PairIds(Settled(cfg, m, now), key) == {} && |LiveIds(SettlePair(cfg, m, key, now))| < cfg.ceiling
  }

  /** The pair's own session is settled before it is looked at, so what is found is live at `now`. */
  lemma PairIsReal(cfg: Config, m: Records, key: string, now: int)
    ensures PairIds(SettlePair(cfg, m, key, now), key) == PairIds(Settled(cfg, m, now), key)
  {
  }

  /** What `Open` answers past the pair and ceiling checks, read off the settled records. */
  ghost function NewAnswer(cfg: Config, actual: Records, caller: string, callee: string,
                           newId: Option<string>, now: int): Answer
  {
    if Saturated(cfg, actual, caller) || Saturated(cfg, actual, callee) then One(Err(TooManyForPeer))
    else if newId.None? then One(Err(NoIdentifier))
    else One(Ok(Fresh(newId.value, caller, callee, now)))
  }

  lemma OpenNewAnswer(cfg: Config, m: Records, ended: seq<string>, caller: string, callee: string,
                      newId: Option<string>, now: int)
    ensures OpenNew(cfg, m, ended, caller, callee, newId, now).answer
         == NewAnswer(cfg, Settled(cfg, m, now), caller, callee, newId, now)
  {
    hide PeerIds, Settled, Trimmed;
    var m2 := MakeRoom(cfg, m, caller, now);
    CapIsReal(cfg, m, caller, now);
    CapIsReal(cfg, m2, callee, now);
    SettledAfterSome(cfg, m, PeerIds(m, caller), now);
  }

  /** Past the pair and ceiling checks, `Open` refuses for a peer's cap if and only if
      one of the two really is in as many live sessions as it may be. */
  lemma OpenRefusesAtTheCap(cfg: Config, b: Book, caller: string, callee: string,
                            newId: Option<string>, now: int)
    requires PastChecks(cfg, b.sessions, PairKey(caller, callee), now)
    ensures var actual := Settled(cfg, b.sessions, now);
            OpenOutcome(cfg, b, caller, callee, newId, now).answer == One(Err(TooManyForPeer))
            <==> |PeerIds(actual, caller)| >= cfg.perPeerCap || |PeerIds(actual, callee)| >= cfg.perPeerCap
  {
    hide PairKey, PeerIds, PairIds, LiveIds, OpenNew, Settled;
    var key := PairKey(caller, callee);
    PairIsReal(cfg, b.sessions, key, now);
    SettledAfterSome(cfg, b.sessions, PairIds(b.sessions, key), now);
    OpenNewAnswer(cfg, SettlePair(cfg, b.sessions, key, now), b.ended, caller, callee, newId, now);
  }

  /** While a session is live, asking for its pair in either order answers with it and
      changes nothing, whatever the ceilings say. */
  lemma OpenAnswersTheLiveSession(cfg: Config, b: Book, id: string, newId: Option<string>, now: int)
    requires BookOk(cfg, b) && id in b.sessions && SettleOne(cfg, b.sessions[id], now).Live()
    ensures var s := b.sessions[id];
            && OpenOutcome(cfg, b, s.caller, s.callee, newId, now) == Outcome(b.sessions, One(Ok(s)))
            && OpenOutcome(cfg, b, s.callee, s.caller, newId, now) == Outcome(b.sessions, One(Ok(s)))
  {
    var s := b.sessions[id];
    PairKeySymmetric(s.caller, s.callee);
    assert id in LiveIds(b.sessions);
    assert PairIds(b.sessions, s.Key()) == {id} by {
      forall x | x in PairIds(b.sessions, s.Key()) ensures x == id {
        assert x in LiveIds(b.sessions);
      }
    }
    assert SettlePair(cfg, b.sessions, s.Key(), now) == b.sessions;
  }

  /** What `Open` answers that it did not create is a live session of exactly the two
      peers asked for, provided all four identifiers are free of NUL. */
  lemma OpenAnswersThePairAsked(cfg: Config, b: Book, caller: string, callee: string,
                                newId: Option<string>, now: int, s: Session)
    requires BookOk(cfg, b) && (newId.Some? ==> newId.value !in b.sessions)
    requires OpenOutcome(cfg, b, caller, callee, newId, now).answer == One(Ok(s)) && s.id in b.sessions
    requires NulFree(caller) && NulFree(callee) && NulFree(s.caller) && NulFree(s.callee)
    ensures {s.caller, s.callee} == {caller, callee}
    ensures s == b.sessions[s.id] && SettleOne(cfg, s, now).Live()
  {
    var key := PairKey(caller, callee);
    var m1 := SettlePair(cfg, b.sessions, key, now);
    if PairIds(m1, key) == {} {
      OpenNewAnswer(cfg, m1, b.ended, caller, callee, newId, now);
      assert false;
    }
    assert s.id in m1 && m1[s.id] == s && s.Key() == key && s.Live();
    PairKeyInjective(s.caller, s.callee, caller, callee);
  }

  /** Outside the alphabet that fails: a NUL inside an identifier makes `Open` answer a
      caller with a session it is not in. */
  lemma OpenAnswersAStranger(cfg: Config, now: int)
    requires cfg.Valid()
    ensures var s := Fresh("x", "a", "b\0c", now);
            var b := Book(map["x" := s], []);
            BookOk(cfg, b) &&
            OpenOutcome(cfg, b, "a\0b", "c", Some("y"), now).answer == One(Ok(s)) && !s.Has("c")
  {
    var s := Fresh("x", "a", "b\0c", now);
    var b := Book(map["x" := s], []);
    PairKeyCollidesOnNul();
    assert LiveIds(b.sessions) == {"x"} && DeadIds(b.sessions) == {};
    forall p ensures |PeerIds(b.sessions, p)| <= 1 { SubsetSize(PeerIds(b.sessions, p), {"x"}); }
    assert BookOk(cfg, b);
    assert "c" != "a" && "c"[0] != "b\0c"[0];
    assert PairIds(b.sessions, s.Key()) == {"x"};
    assert SettlePair(cfg, b.sessions, s.Key(), now) == b.sessions;
  }

  // --- the ceiling reads the stored counter ------------------------------------------

  /** The ceiling is reached only by sessions that have timed out and nobody has read. */
  ghost predicate FullTooSoon(cfg: Config, m: Records, key: string, now: int) {
    && PairIds(Settled(cfg, m, now), key) == {}
    && |LiveIds(Settled(cfg, m, now))| < cfg.ceiling <= |LiveIds(SettlePair(cfg, m, key, now))|
  }

  lemma SettledAlready(cfg: Config, m: Records, key: string, now: int)
    ensures var actual := Settled(cfg, m, now);
            Settled(cfg, actual, now) == actual && SettlePair(cfg, actual, key, now) == actual
  {
  }

  /** A pair has at most one session that is live at `now`. */
  lemma OneLiveForPair(cfg: Config, m: Records, key: string, now: int, held: string)
    requires OnePerPair(m) && held in PairIds(Settled(cfg, m, now), key)
    ensures PairIds(Settled(cfg, m, now), key) == {held}
    ensures held in m && held in Settled(cfg, m, now)
    ensures SettlePair(cfg, m, key, now)[held] == Settled(cfg, m, now)[held]
  {
    hide PairKey;
    forall x | x in PairIds(Settled(cfg, m, now), key) ensures x == held {
      assert x in LiveIds(m) && held in LiveIds(m) && m[x].Key() == m[held].Key() == key;
    }
  }

  /** Where the pair has a live session, that is the answer. */
  lemma HeldAnswer(cfg: Config, b: Book, caller: string, callee: string, newId: Option<string>, now: int, held: string)
    requires PairIds(Settled(cfg, b.sessions, now), PairKey(caller, callee)) == {held} && held in b.sessions
    requires SettlePair(cfg, b.sessions, PairKey(caller, callee), now)[held] == Settled(cfg, b.sessions, now)[held]
    ensures OpenOutcome(cfg, b, caller, callee, newId, now)
         == Outcome(SettlePair(cfg, b.sessions, PairKey(caller, callee), now),
                    One(Ok(Settled(cfg, b.sessions, now)[held])))
  {
    hide PairKey, PairIds, LiveIds, SettlePair, Settled, OpenNew;
    PairIsReal(cfg, b.sessions, PairKey(caller, callee), now);
  }

  /** Where it has none, the ceiling is asked and then what a new session takes. */
  lemma UnheldAnswer(cfg: Config, b: Book, caller: string, callee: string, newId: Option<string>, now: int)
    requires PairIds(Settled(cfg, b.sessions, now), PairKey(caller, callee)) == {}
    ensures var m1 := SettlePair(cfg, b.sessions, PairKey(caller, callee), now);
            && OpenOutcome(cfg, b, caller, callee, newId, now)
               == (if |LiveIds(m1)| >= cfg.ceiling then Refuse(m1, Full)
                   else OpenNew(cfg, m1, b.ended, caller, callee, newId, now))
            && OpenOutcome(cfg, b, caller, callee, newId, now).answer
               == (if |LiveIds(m1)| >= cfg.ceiling then One(Err(Full))
                   else NewAnswer(cfg, Settled(cfg, b.sessions, now), caller, callee, newId, now))
  {
    hide PairKey, PairIds, LiveIds, Settled, OpenNew, NewAnswer;
    var key := PairKey(caller, callee);
    PairIsReal(cfg, b.sessions, key, now);
    SettledAfterSome(cfg, b.sessions, PairIds(b.sessions, key), now);
    OpenNewAnswer(cfg, SettlePair(cfg, b.sessions, key, now), b.ended, caller, callee, newId, now);
  }

  lemma NeverFull(cfg: Config, actual: Records, caller: string, callee: string, newId: Option<string>, now: int)
    ensures NewAnswer(cfg, actual, caller, callee, newId, now) != One(Err(Full))
  {
  }

  lemma SettledLiveFewer(cfg: Config, m: Records, key: string, now: int)
    ensures |LiveIds(Settled(cfg, m, now))| <= |LiveIds(SettlePair(cfg, m, key, now))|
  {
    SubsetSize(LiveIds(Settled(cfg, m, now)), LiveIds(SettlePair(cfg, m, key, now)));
  }

  /** `Open` would answer a fully settled store the same if and only if the ceiling is
      not being held by sessions that have timed out unread. */
  lemma OpenSeesUnsettledCeiling(cfg: Config, b: Book, queue: seq<string>, caller: string, callee: string,
                                 newId: Option<string>, now: int)
    requires OnePerPair(b.sessions)
    ensures OpenOutcome(cfg, b, caller, callee, newId, now).answer
         == OpenOutcome(cfg, Book(Settled(cfg, b.sessions, now), queue), caller, callee, newId, now).answer
         <==> !FullTooSoon(cfg, b.sessions, PairKey(caller, callee), now)
  {
    hide PairKey, PairIds, LiveIds, SettlePair, Settled, OpenOutcome, NewAnswer, OnePerPair;
    var key, actual := PairKey(caller, callee), Settled(cfg, b.sessions, now);
    SettledAlready(cfg, b.sessions, key, now);
    if held :| held in PairIds(actual, key) {
      OneLiveForPair(cfg, b.sessions, key, now, held);
      HeldAnswer(cfg, b, caller, callee, newId, now, held);
      HeldAnswer(cfg, Book(actual, queue), caller, callee, newId, now, held);
    } else {
      UnheldAnswer(cfg, b, caller, callee, newId, now);
      UnheldAnswer(cfg, Book(actual, queue), caller, callee, newId, now);
      SettledLiveFewer(cfg, b.sessions, key, now);
      NeverFull(cfg, actual, caller, callee, newId, now);
    }
  }

  const ROOM_FOR_ONE := Config(1, 0, 1, 1)
  const UNREAD := Book(map["x" := Fresh("x", "a", "b", 0)], [])

  lemma OpensTheOne()
    ensures Next(ROOM_FOR_ONE, Book(map[], []), Open("a", "b", true, Some("x")), 0, UNREAD)
  {
    TrimKeepsPeerId("a");
    TrimKeepsPeerId("b");
    assert DeadIds(UNREAD.sessions) == {};
  }

  lemma UnreadFills()
    ensures PairIds(Settled(ROOM_FOR_ONE, UNREAD.sessions, 2), PairKey("c", "d")) == {}
    ensures FullTooSoon(ROOM_FOR_ONE, UNREAD.sessions, PairKey("c", "d"), 2)
    ensures NewAnswer(ROOM_FOR_ONE, Settled(ROOM_FOR_ONE, UNREAD.sessions, 2), "c", "d", Some("y"), 2)
         == One(Ok(Fresh("y", "c", "d", 2)))
  {
    var m, key := UNREAD.sessions, PairKey("c", "d");
    assert m["x"].Key() == "a\0b" && key == "c\0d";
    assert PairIds(m, key) == {} && SettlePair(ROOM_FOR_ONE, m, key, 2) == m;
    assert LiveIds(m) == {"x"} && LiveIds(Settled(ROOM_FOR_ONE, m, 2)) == {};
    assert PeerIds(Settled(ROOM_FOR_ONE, m, 2), "c") == {} && PeerIds(Settled(ROOM_FOR_ONE, m, 2), "d") == {};
  }

  /** It does happen: in a run from an empty store with room for one session, one that
      timed out unread fills it. Another pair is refused for want of room, where a store
      that had read it would have opened their session. */
  lemma FullTooSoonHappens() returns (books: seq<Book>, events: seq<Event>)
    ensures Run(ROOM_FOR_ONE, books, events)
    ensures var b := books[|events|];
            && FullTooSoon(ROOM_FOR_ONE, b.sessions, PairKey("c", "d"), 2)
            && OpenOutcome(ROOM_FOR_ONE, b, "c", "d", Some("y"), 2).answer == One(Err(Full))
            && OpenOutcome(ROOM_FOR_ONE, Book(Settled(ROOM_FOR_ONE, b.sessions, 2), b.ended), "c", "d", Some("y"), 2).answer
               == One(Ok(Fresh("y", "c", "d", 2)))
  {
    hide PairKey, Next, OpenOutcome, NewAnswer, Settled, SettlePair, PairIds, LiveIds;
    var e := Event(Open("a", "b", true, Some("x")), 0);
    var b, key := UNREAD, PairKey("c", "d");
    EmptyRun(ROOM_FOR_ONE);
    OpensTheOne();
    RunExtends(ROOM_FOR_ONE, [Book(map[], [])], [], e, b);
    books, events := [Book(map[], [])] + [b], [] + [e];
    UnreadFills();
    UnheldAnswer(ROOM_FOR_ONE, b, "c", "d", Some("y"), 2);
    SettledAlready(ROOM_FOR_ONE, b.sessions, key, 2);
    UnheldAnswer(ROOM_FOR_ONE, Book(Settled(ROOM_FOR_ONE, b.sessions, 2), b.ended), "c", "d", Some("y"), 2);
  }
}
