/** Whole runs of the session store: the bounds that hold in every state, and the life
    each session lives. */
module SessionRuns {
  import opened Base
  import opened Identifiers
  import opened Sessions
  import opened SessionInvariant

  datatype Event = Event(request: Request, at: int)

  ghost predicate EachServed(cfg: Config, books: seq<Book>, events: seq<Event>)
    requires |books| == |events| + 1
  {
    forall i :: 0 <= i < |events| ==> Next(cfg, books[i], events[i].request, events[i].at, books[i + 1])
  }

  ghost predicate ClockForward(events: seq<Event>) {
    forall i, j :: 0 <= i <= j < |events| ==> events[i].at <= events[j].at
  }

  ghost predicate NewIdsAreNew(books: seq<Book>, events: seq<Event>)
    requires |books| == |events| + 1
  {
    forall i, j :: 0 <= i <= j < |events| ==> FreshFor(events[j].request, books[i].sessions)
  }

  /** A run from an empty store: each event serves one request, the clock never goes
      back, and a new identifier is one the store never held. */
  ghost predicate Run(cfg: Config, books: seq<Book>, events: seq<Event>) {
    && cfg.Valid() && |books| == |events| + 1 && books[0] == Book(map[], [])
    && EachServed(cfg, books, events) && ClockForward(events) && NewIdsAreNew(books, events)
  }

  lemma RunStep(cfg: Config, books: seq<Book>, events: seq<Event>, i: nat)
    requires Run(cfg, books, events) && i < |events|
    ensures Next(cfg, books[i], events[i].request, events[i].at, books[i + 1])
    ensures FreshFor(events[i].request, books[i].sessions)
    ensures i > 0 ==> events[i - 1].at <= events[i].at
  {
  }

  lemma EmptyRun(cfg: Config)
    requires cfg.Valid()
    ensures Run(cfg, [Book(map[], [])], [])
  {
  }

  /** One more request is served: no earlier than the last, and one that opens a session
      with an identifier no state of the run has held. */
  lemma RunExtends(cfg: Config, books: seq<Book>, events: seq<Event>, e: Event, b': Book)
    requires Run(cfg, books, events) && Next(cfg, books[|events|], e.request, e.at, b')
    requires events != [] ==> events[|events| - 1].at <= e.at
    requires forall b :: b in books ==> FreshFor(e.request, b.sessions)
    ensures Run(cfg, books + [b'], events + [e])
  {
    hide Next, FreshFor;
    var books', events' := books + [b'], events + [e];
    forall i | 0 <= i < |events'|
      ensures Next(cfg, books'[i], events'[i].request, events'[i].at, books'[i + 1])
    {
      if i < |events| { assert books'[i] == books[i] && events'[i] == events[i] && books'[i + 1] == books[i + 1]; }
    }
    forall i, j | 0 <= i <= j < |events'| ensures FreshFor(events'[j].request, books'[i].sessions) {
      assert books'[i] == books[i] && books[i] in books;
      if j < |events| { assert events'[j] == events[j]; }
    }
  }

  lemma {:induction false} RunKeepsBook(cfg: Config, books: seq<Book>, events: seq<Event>, i: nat)
    requires Run(cfg, books, events) && i < |books|
    ensures BookOk(cfg, books[i])
  {
    hide BookOk, Next, EachServed, ClockForward, NewIdsAreNew, FreshFor;
    if i == 0 {
      EmptyBookOk(cfg);
    } else {
      RunKeepsBook(cfg, books, events, i - 1);
      RunStep(cfg, books, events, i - 1);
      NextKeepsBook(cfg, books[i - 1], events[i - 1].request, events[i - 1].at, books[i]);
    }
  }

  /** In every state of every run the store holds at most four records for each live
      session it allows, no more live sessions than the ceiling, no more for any peer
      than its cap, and never two for one pair. */
  lemma RunIsBounded(cfg: Config, books: seq<Book>, events: seq<Event>, i: nat)
    requires Run(cfg, books, events) && i < |books|
    ensures var m := books[i].sessions;
            && |m| <= 4 * cfg.ceiling && |LiveIds(m)| <= cfg.ceiling
            && (forall p :: |PeerIds(m, p)| <= cfg.perPeerCap)
            && (forall x, y | x in LiveIds(m) && y in LiveIds(m) ::
                  {m[x].caller, m[x].callee} == {m[y].caller, m[y].callee} ==> x == y)
            && |LiveIds(m)| + |books[i].ended| == |m|
  {
    RunKeepsBook(cfg, books, events, i);
    var m := books[i].sessions;
    forall x, y | x in LiveIds(m) && y in LiveIds(m)
               && {m[x].caller, m[x].callee} == {m[y].caller, m[y].callee}
      ensures x == y
    {
      SamePairSameKey(m[x], m[y]);
    }
    EnumerationSize(books[i].ended, DeadIds(m));
    assert m.Keys == LiveIds(m) + DeadIds(m) && LiveIds(m) * DeadIds(m) == {};
    assert |m| == |m.Keys|;
  }

  lemma SamePairSameKey(s: Session, t: Session)
    requires {s.caller, s.callee} == {t.caller, t.callee}
    ensures s.Key() == t.Key()
  {
    assert s.caller in {t.caller, t.callee} && s.callee in {t.caller, t.callee};
    assert t.caller in {s.caller, s.callee} && t.callee in {s.caller, s.callee};
    PairKeySymmetric(s.caller, s.callee);
  }

  /** `Open` forgets at most one record: the one that ended first, only at the bound. */
  lemma OpenForgetsOnlyTheFirstEnded(cfg: Config, b: Book, r: Request, now: int, b': Book)
    requires cfg.Valid() && BookOk(cfg, b) && r.Open? && FreshFor(r, b.sessions) && Next(cfg, b, r, now, b')
    ensures var gone := b.sessions.Keys - b'.sessions.Keys;
            gone != {} ==>
              && |b.sessions| == cfg.Bound() && b.ended != [] && gone == {b.ended[0]}
              && !b.sessions[b.ended[0]].Live()
  {
    hide PairKey, LiveIds, DeadIds, PeerIds, PairIds, OnePerPair, Keyed;
    var caller, callee := TrimSpace(r.caller), TrimSpace(r.callee);
    var m1 := SettlePair(cfg, b.sessions, PairKey(caller, callee), now);
    var m3 := MakeRoom(cfg, MakeRoom(cfg, m1, caller, now), callee, now);
    assert m3.Keys == b.sessions.Keys;
    assert |m3| == |m3.Keys| && |b.sessions| == |b.sessions.Keys|;
    assert b'.sessions.Keys >= b.sessions.Keys || b'.sessions.Keys >= Trimmed(cfg, m3, b.ended).Keys;
    if |b.sessions| >= cfg.Bound() {
      BoundLeavesEnded(cfg, b);
      DeadInQueue(b);
    }
  }

  lemma DeadInQueue(b: Book)
    requires b.ended != [] && b.ended[0] in DeadIds(b.sessions)
    ensures b.ended[0] in b.sessions && !b.sessions[b.ended[0]].Live()
  {
  }

  // --- the life of one session ----------------------------------------------------

  /** A record as it may stand at `now`. */
  ghost predicate SessionOk(cfg: Config, s: Session, now: int) {
    && s.openedAt <= s.changedAt <= now
    && (s.state == Negotiating ==> s.changedAt == s.openedAt && s.path == PathUnknown)
    && (s.state == Connected ==> s.changedAt <= s.openedAt + cfg.timeout)
  }

  ghost predicate AllOk(cfg: Config, m: Records, now: int) {
    forall id :: id in m ==> SessionOk(cfg, m[id], now)
  }

  /** What may become of a record: the same call, its end final, time going forward, and
      once it has connected or ended, the path it has for good. */
  ghost predicate Evolves(cfg: Config, s: Session, s': Session) {
    && s'.SameCall(s) && s.changedAt <= s'.changedAt
    && (s' == s || Stage(s.state) < Stage(s'.state))
    && (s.state == Negotiating && s'.state == Connected ==> s'.changedAt <= s.openedAt + cfg.timeout)
    && (s.state != Negotiating ==> s'.path == s.path)
  }

  lemma EvolvesStill(cfg: Config, s: Session)
    ensures Evolves(cfg, s, s)
  {
  }

  lemma EvolvesOn(cfg: Config, s: Session, s': Session, s'': Session)
    requires Evolves(cfg, s, s') && Evolves(cfg, s', s'')
    ensures Evolves(cfg, s, s'')
  {
  }

  /** A record is left alone, settled, moved by a report, or shut by a departure. */
  ghost predicate OneStep(cfg: Config, s: Session, s': Session, now: int) {
    || s' == s
    || s' == SettleOne(cfg, s, now)
    || (exists to, path :: CanMove(SettleOne(cfg, s, now).state, to)
          && s' == Moved(SettleOne(cfg, s, now), to, path, now))
    || (exists peer :: s' == ShutOne(cfg, s, peer, now))
  }

  lemma OneStepEvolves(cfg: Config, s: Session, s': Session, t: int, now: int)
    requires cfg.Valid() && SessionOk(cfg, s, t) && t <= now && OneStep(cfg, s, s', now)
    ensures Evolves(cfg, s, s') && SessionOk(cfg, s', now)
    ensures s'.path == s.path || (s.state == Negotiating && s'.state == Connected)
  {
  }

  /** `Open` does nothing to a session it already holds but settle it. */
  lemma OpenSettlesOrLeaves(cfg: Config, b: Book, r: Request, now: int, id: string)
    requires r.Open? && FreshFor(r, b.sessions) && id in b.sessions
    requires id in Serve(cfg, b, r, now).records
    ensures var s := Serve(cfg, b, r, now).records[id];
            s == b.sessions[id] || s == SettleOne(cfg, b.sessions[id], now)
  {
    hide PairKey, LiveIds, PeerIds, PairIds, SettleOne, TrimSpace, OpenNew;
    var caller, callee := TrimSpace(r.caller), TrimSpace(r.callee);
    var m1 := SettlePair(cfg, b.sessions, PairKey(caller, callee), now);
    OpenNewSettlesOrLeaves(cfg, m1, b.ended, caller, callee, r.newId, now, id);
    SettledIsFinal(cfg, b.sessions[id], now);
  }

  lemma SettledIsFinal(cfg: Config, s: Session, now: int)
    ensures SettleOne(cfg, SettleOne(cfg, s, now), now) == SettleOne(cfg, s, now)
  {
  }

  lemma OpenNewSettlesOrLeaves(cfg: Config, m: Records, ended: seq<string>, caller: string, callee: string,
                               newId: Option<string>, now: int, id: string)
    requires id in m && (newId.Some? ==> newId.value != id)
    ensures var m' := OpenNew(cfg, m, ended, caller, callee, newId, now).records;
            id in m' ==> m'[id] == m[id] || m'[id] == SettleOne(cfg, m[id], now)
  {
    hide PairKey, LiveIds, PeerIds, SettleOne;
    SettledIsFinal(cfg, m[id], now);
  }

  lemma ServeIsOneStep(cfg: Config, b: Book, r: Request, now: int, id: string)
    requires FreshFor(r, b.sessions) && id in b.sessions && id in Serve(cfg, b, r, now).records
    ensures OneStep(cfg, b.sessions[id], Serve(cfg, b, r, now).records[id], now)
  {
    hide PairKey, LiveIds, PeerIds, PairIds;
    var s, s' := b.sessions[id], Serve(cfg, b, r, now).records[id];
    match r
    case Open(c, d, allowed, newId) =>
      OpenSettlesOrLeaves(cfg, b, r, now, id);
    case Report(x, y, to, path) =>
      assert s' == s || s' == SettleOne(cfg, s, now) || s' == Moved(SettleOne(cfg, s, now), to, path, now);
    case ClosePeer(peer) => assert s' == ShutOne(cfg, s, peer, now);
    case _ =>
  }

  lemma NextIsOneStep(cfg: Config, b: Book, r: Request, now: int, b': Book, id: string)
    requires Next(cfg, b, r, now, b') && FreshFor(r, b.sessions)
    requires id in b.sessions && id in b'.sessions
    ensures OneStep(cfg, b.sessions[id], b'.sessions[id], now)
  {
    hide Serve, OneStep, Requeued;
    ServeIsOneStep(cfg, b, r, now, id);
  }

  lemma NextCreates(cfg: Config, b: Book, r: Request, now: int, b': Book, id: string)
    requires Next(cfg, b, r, now, b') && id !in b.sessions && id in b'.sessions
    ensures r.Open? && r.newId == Some(id)
    ensures b'.sessions[id] == Fresh(id, TrimSpace(r.caller), TrimSpace(r.callee), now)
  {
    hide PairKey, LiveIds, PeerIds, PairIds, Requeued, SettleOne;
  }

  /** Every record of every state is one that may stand at that moment. */
  lemma {:induction false} RunRecordsOk(cfg: Config, books: seq<Book>, events: seq<Event>, i: nat, now: int)
    requires Run(cfg, books, events) && i < |books|
    requires i > 0 ==> events[i - 1].at <= now
    ensures AllOk(cfg, books[i].sessions, now)
  {
    if i > 0 {
      var b, e, b' := books[i - 1], events[i - 1], books[i];
      RunStep(cfg, books, events, i - 1);
      RunRecordsOk(cfg, books, events, i - 1, e.at);
      forall id | id in b'.sessions ensures SessionOk(cfg, b'.sessions[id], now) {
        if id in b.sessions {
          NextIsOneStep(cfg, b, e.request, e.at, b', id);
          OneStepEvolves(cfg, b.sessions[id], b'.sessions[id], e.at, e.at);
        } else {
          NextCreates(cfg, b, e.request, e.at, b', id);
        }
      }
    }
  }

  lemma RunRecordOk(cfg: Config, books: seq<Book>, events: seq<Event>, i: nat, now: int, id: string)
    requires Run(cfg, books, events) && i < |books| && id in books[i].sessions
    requires i > 0 ==> events[i - 1].at <= now
    ensures SessionOk(cfg, books[i].sessions[id], now)
  {
    RunRecordsOk(cfg, books, events, i, now);
  }

  /** An identifier the store has let go of never comes back. */
  lemma {:induction false} NeverReused(cfg: Config, books: seq<Book>, events: seq<Event>, i: nat, k: nat, j: nat, id: string)
    requires Run(cfg, books, events) && i <= k <= j < |books|
    requires id in books[i].sessions && id in books[j].sessions
    ensures id in books[k].sessions
    decreases j - k
  {
    hide Next;
    if k < j {
      hide EachServed, ClockForward;
      NeverReused(cfg, books, events, i, k + 1, j, id);
      RunStep(cfg, books, events, k);
      assert FreshFor(events[k].request, books[i].sessions);
      if id !in books[k].sessions {
        NextCreates(cfg, books[k], events[k].request, events[k].at, books[k + 1], id);
      }
    }
  }

  /** From any state of a run to any later one in which a session is still held, the
      session has only moved forward: same call, Negotiating to Connected to ended with
      the end final, times nondecreasing, connected within the timeout, one path. */
  lemma {:induction false} RunLifecycle(cfg: Config, books: seq<Book>, events: seq<Event>, i: nat, j: nat, id: string)
    requires Run(cfg, books, events) && i <= j < |books|
    requires id in books[i].sessions && id in books[j].sessions
    ensures Evolves(cfg, books[i].sessions[id], books[j].sessions[id])
    decreases j - i
  {
    hide EachServed, ClockForward, NewIdsAreNew, FreshFor, Next, Evolves, OneStep, SessionOk, AllOk;
    if i == j {
      EvolvesStill(cfg, books[i].sessions[id]);
    } else {
      var e := events[j - 1];
      NeverReused(cfg, books, events, i, j - 1, j, id);
      RunLifecycle(cfg, books, events, i, j - 1, id);
      RunStep(cfg, books, events, j - 1);
      RunRecordOk(cfg, books, events, j - 1, e.at, id);
      NextIsOneStep(cfg, books[j - 1], e.request, e.at, books[j], id);
      OneStepEvolves(cfg, books[j - 1].sessions[id], books[j].sessions[id], e.at, e.at);
      EvolvesOn(cfg, books[i].sessions[id], books[j - 1].sessions[id], books[j].sessions[id]);
    }
  }

  /** In state `k` the session was connected over this path. */
  ghost predicate ConnectedOver(books: seq<Book>, k: nat, id: string, path: Path) {
    && k < |books| && id in books[k].sessions
    && books[k].sessions[id].state == Connected && books[k].sessions[id].path == path
  }

  /** A path appears only with a connection: whenever the path of a held session differs
      between two states of a run, the session was connected over the later path in a
      state in between. A session that ends without connecting keeps the path it had. */
  lemma {:induction false} PathComesWithConnection(cfg: Config, books: seq<Book>, events: seq<Event>,
                                                   i: nat, j: nat, id: string)
    requires Run(cfg, books, events) && i <= j < |books|
    requires id in books[i].sessions && id in books[j].sessions
    ensures var path := books[j].sessions[id].path;
            path == books[i].sessions[id].path || exists k: nat :: i < k <= j && ConnectedOver(books, k, id, path)
    decreases j - i
  {
    hide EachServed, ClockForward, NewIdsAreNew, FreshFor, Next, Evolves, OneStep, SessionOk;
    if i < j {
      var e := events[j - 1];
      NeverReused(cfg, books, events, i, j - 1, j, id);
      PathComesWithConnection(cfg, books, events, i, j - 1, id);
      RunStep(cfg, books, events, j - 1);
      RunRecordOk(cfg, books, events, j - 1, e.at, id);
      NextIsOneStep(cfg, books[j - 1], e.request, e.at, books[j], id);
      OneStepEvolves(cfg, books[j - 1].sessions[id], books[j].sessions[id], e.at, e.at);
      if books[j].sessions[id].path != books[j - 1].sessions[id].path {
        assert ConnectedOver(books, j, id, books[j].sessions[id].path);
      }
    }
  }

  /** In every run, a session that has a path, ended or not, was connected over that very
      path in this state or an earlier one. */
  lemma {:induction false} PathMeansConnected(cfg: Config, books: seq<Book>, events: seq<Event>, j: nat, id: string)
    returns (k: nat)
    requires Run(cfg, books, events) && j < |books|
    requires id in books[j].sessions && books[j].sessions[id].path != PathUnknown
    ensures k <= j && ConnectedOver(books, k, id, books[j].sessions[id].path)
  {
    hide EachServed, ClockForward, NewIdsAreNew, FreshFor, Next, Evolves, OneStep, SessionOk;
    var e := events[j - 1];
    RunStep(cfg, books, events, j - 1);
    if id in books[j - 1].sessions {
      RunRecordOk(cfg, books, events, j - 1, e.at, id);
      NextIsOneStep(cfg, books[j - 1], e.request, e.at, books[j], id);
      OneStepEvolves(cfg, books[j - 1].sessions[id], books[j].sessions[id], e.at, e.at);
    } else {
      NextCreates(cfg, books[j - 1], e.request, e.at, books[j], id);
    }
    if books[j].sessions[id].state == Connected {
      k := j;
    } else {
      k := PathMeansConnected(cfg, books, events, j - 1, id);
    }
  }

  /** A record that reads as ended reads the same at every later moment. */
  lemma EndReadsTheSame(cfg: Config, s: Session, s': Session, read: Session, now: int, later: int)
    requires cfg.Valid() && SettleOne(cfg, s, now) == read && !read.Live() && now <= later
    requires OneStep(cfg, s, s', now)
    ensures SettleOne(cfg, s', later) == read
  {
  }

  /** Once a negotiating session has passed its timeout, every later read of it, until it
      is forgotten, gives Failed at the moment the timeout fell, whatever was reported,
      closed or reaped in between and whether or not anything had noticed. */
  lemma {:induction false} TimedOutForGood(cfg: Config, books: seq<Book>, events: seq<Event>,
                                           i: nat, j: nat, id: string, now: int)
    requires Run(cfg, books, events) && i <= j < |events|
    requires id in books[i].sessions && id in books[j].sessions
    requires TimedOut(cfg, books[i].sessions[id], events[i].at) && events[j].at <= now
    ensures var s := books[i].sessions[id];
            SettleOne(cfg, books[j].sessions[id], now)
            == s.(state := Failed, changedAt := s.openedAt + cfg.timeout)
    decreases j - i
  {
    hide EachServed, ClockForward, NewIdsAreNew, Next, OneStep, FreshFor;
    var s := books[i].sessions[id];
    if i < j {
      var e := events[j - 1];
      NeverReused(cfg, books, events, i, j - 1, j, id);
      TimedOutForGood(cfg, books, events, i, j - 1, id, e.at);
      RunStep(cfg, books, events, j - 1);
      NextIsOneStep(cfg, books[j - 1], e.request, e.at, books[j], id);
      RunStep(cfg, books, events, j);
      EndReadsTheSame(cfg, books[j - 1].sessions[id], books[j].sessions[id],
                           SettleOne(cfg, s, events[i].at), e.at, now);
    }
  }
}
