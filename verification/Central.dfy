/** The control plane as `main` wires it: the handlers that move a session and announce
    its end, the sweep that closes what a departed peer was in, and the reports of
    presence that keep a connected peer registered. */
module Central {
  import opened Base
  import opened Identifiers
  import opened Sessions
  import A = Announcements
  import L = AnnouncementLog
  import D = Departures
  import SessionRuns
  import Sweep
  import N = Notices
  import Presence
  import R = Registry
  import PeerRegistry
  import S = Signaling
  import SignalingHub
  import SessionStore

  /** The states a peer may report, by name. */
  function ReportableState(raw: string): (st: Option<State>)
    ensures st.Some? <==> raw in {"connected", "failed", "closed"}
    ensures st.Some? ==> Sweep.StateName(st.value) == raw && st.value != Negotiating
    ensures st == Some(Connected) <==> raw == "connected"
    ensures st == Some(Failed) <==> raw == "failed"
  {
    if raw == "connected" then Some(Connected)
    else if raw == "failed" then Some(Failed)
    else if raw == "closed" then Some(Closed)
    else None
  }

  function PathName(p: Path): string {
    match p
    case PathUnknown => ""
    case Direct => "direct"
    case Relayed => "relayed"
  }

  function ReportablePath(raw: string): (p: Option<Path>)
    ensures p.Some? <==> exists x :: PathName(x) == raw
    ensures p.Some? ==> PathName(p.value) == raw
    ensures p == Some(Direct) <==> raw == "direct"
    ensures p == Some(Relayed) <==> raw == "relayed"
  {
    if raw == "" then assert PathName(PathUnknown) == raw; Some(PathUnknown)
    else if raw == "direct" then assert PathName(Direct) == raw; Some(Direct)
    else if raw == "relayed" then assert PathName(Relayed) == raw; Some(Relayed)
    else None
  }

  datatype Reply = BadRequest | Unreachable | Answered(result: Result<Session, Error>)

  /** The sweep's requests to the store: each removed peer's sessions are closed in turn. */
  function Closings(removed: seq<string>, now: int): (events: seq<SessionRuns.Event>)
    ensures |events| == |removed|
    ensures forall i :: 0 <= i < |removed| ==> events[i] == SessionRuns.Event(ClosePeer(removed[i]), now)
  {
    seq(|removed|, i requires 0 <= i < |removed| => SessionRuns.Event(ClosePeer(removed[i]), now))
  }

  /** The store served the report, and what it ended, no more, was told and logged. */
  ghost predicate Reported(cfg: Config, b: Book, r: Request, now: int, b': Book, reply: Reply, told: seq<Session>,
                           was: L.Log, log: L.Log)
  {
    && Next(cfg, b, r, now, b')
    && reply.Answered? && One(reply.result) == Serve(cfg, b, r, now).answer
    && L.Tells(cfg, b, r, now, b', told)
    && log == L.Extended(was, r, now, b', told)
  }

  /** The log since `was` is the departures of `gone`, and `told` is what they had announced. */
  ghost predicate Departing(was: L.Log, log: L.Log, gone: seq<string>, now: int, told: seq<Session>) {
    && was.books <= log.books && was.tells <= log.tells
    && log.events == was.events + Closings(gone, now)
    && L.Flat(log.tells) == L.Flat(was.tells) + told
  }

  lemma DepartsOne(was: L.Log, log: L.Log, gone: seq<string>, now: int, told: seq<Session>,
                   peer: string, b': Book, closed: seq<Session>)
    requires Departing(was, log, gone, now, told)
    ensures Departing(was, L.Extended(log, ClosePeer(peer), now, b', closed), gone + [peer], now, told + closed)
  {
    assert Closings(gone + [peer], now) == Closings(gone, now) + [SessionRuns.Event(ClosePeer(peer), now)];
    assert (log.tells + [closed])[..|log.tells|] == log.tells;
  }

  /** How far a sweep has come: the peers of `done` have had their turn. */
  ghost predicate SweptSoFar(cfg: Config, start: Book, b: Book, done: seq<string>, now: int, told: seq<Session>,
                             h: S.Hub, h': S.Hub, broken: set<S.Conn>, was: L.Log, log: L.Log)
  {
    && Sweep.SweptBook(cfg, start, Elems(done), now, b)
    && Sweep.ToldSoFar(cfg, start.sessions, Elems(done), now, told)
    && h' == Sweep.Notified(h, told, broken) && h'.conns == h.conns
    && Departing(was, log, done, now, told)
  }

  lemma SweptMore(cfg: Config, start: Book, done: seq<string>, now: int, told: seq<Session>,
                  h: S.Hub, h': S.Hub, broken: set<S.Conn>, was: L.Log, log: L.Log,
                  peer: string, b: Book, b': Book, closed: seq<Session>)
    requires Keyed(start.sessions) && SweptSoFar(cfg, start, b, done, now, told, h, h', broken, was, log)
    requires Next(cfg, b, ClosePeer(peer), now, b')
    requires NoDup(closed) && Many(Elems(closed)) == CloseOutcome(cfg, b.sessions, peer, now).answer
    ensures SweptSoFar(cfg, start, b', done + [peer], now, told + closed,
                       h, Sweep.Notified(h', closed, broken), broken,
                       was, L.Extended(log, ClosePeer(peer), now, b', closed))
  {
    assert Elems(done + [peer]) == Elems(done) + {peer};
    hide Elems, Sweep.SweptBook, Sweep.ToldSoFar, Sweep.Notified, Departing;
    hide Next, CloseOutcome, NoDup, Keyed, L.Extended;
    Sweep.PeerSwept(cfg, start, Elems(done), peer, now, told, b, b', closed);
    Sweep.NotifiedConcat(h, told, closed, broken);
    N.NotifiedKeepsConns(h, told + closed, broken);
    DepartsOne(was, log, done, now, told, peer, b', closed);
  }

  lemma SweptReceipts(cfg: Config, start: Book, b: Book, done: seq<string>, now: int, told: seq<Session>,
                      h: S.Hub, h': S.Hub, broken: set<S.Conn>, was: L.Log, log: L.Log, closed: seq<Session>)
    requires SweptSoFar(cfg, start, b, done, now, told, h, h', broken, was, log)
    ensures N.Receipts(told + closed, h, broken) == N.Receipts(told, h, broken) + N.Receipts(closed, h', broken)
  {
    N.ReceiptsConcat(told, closed, h, h', broken);
  }

  lemma SweptTold(cfg: Config, start: Book, b: Book, done: seq<string>, now: int, told: seq<Session>,
                  h: S.Hub, h': S.Hub, broken: set<S.Conn>, was: L.Log, log: L.Log)
    requires SweptSoFar(cfg, start, b, done, now, told, h, h', broken, was, log)
    requires L.LogOk(cfg, was) && L.LogOk(cfg, log)
    ensures Sweep.SweptBook(cfg, start, Elems(done), now, b)
    ensures Sweep.ToldSoFar(cfg, start.sessions, Elems(done), now, told)
    ensures h' == Sweep.Notified(h, told, broken)
    ensures Departing(was, log, done, now, told)
    ensures forall id :: L.Mentions(told, id) <==> L.AnnouncedFrom(cfg, log, |was.events|, id)
  {
    hide Sweep.SweptBook, Sweep.ToldSoFar, Sweep.Notified, Departing, L.LogOk, L.Mentions, L.AnnouncedFrom;
    DepartedTold(cfg, was, log, done, now, told);
  }

  /** What was told names exactly the sessions whose ending these departures announce. */
  lemma DepartedTold(cfg: Config, was: L.Log, log: L.Log, gone: seq<string>, now: int, told: seq<Session>)
    requires L.LogOk(cfg, was) && L.LogOk(cfg, log) && Departing(was, log, gone, now, told)
    ensures forall id :: L.Mentions(told, id) <==> L.AnnouncedFrom(cfg, log, |was.events|, id)
  {
    hide L.Flat, L.EachTold, SessionRuns.EachServed, L.Mentions;
    var n, m := |was.events|, |log.events|;
    L.FlatSplit(log.tells, n);
    assert log.tells[..n] == was.tells && log.tells[n..] == log.tells[n..m];
    SameRest(L.Flat(was.tells), told, L.Flat(log.tells[n..m]));
    forall id ensures L.Mentions(told, id) <==> L.AnnouncedFrom(cfg, log, n, id) {
      L.ToldBetween(cfg, log, n, m, id);
    }
  }

  lemma NothingTold(receipts: seq<N.Receipt>, h: S.Hub, broken: set<S.Conn>)
    ensures receipts + N.Receipts([], h, broken) == receipts && Sweep.Notified(h, [], broken) == h
  {
  }

  class Central {
    const registry: PeerRegistry.PeerRegistry
    const store: SessionStore.Store
    const hub: SignalingHub.Hub
    /** Every session end announced so far, in order, with who held which connection then. */
    ghost var receipts: seq<N.Receipt>
    /** What each connection had been sent at the start. */
    ghost const first: N.Outboxes
    /** Every request the store has served, with what it left and what was announced for it. */
    ghost var log: L.Log

    ghost predicate Valid() reads this, registry, store, hub {
      registry.Valid() && store.Valid() && hub.Valid() && Logged() && Received()
    }

    /** What was announced was received, by whom it concerns and by nobody else. */
    ghost predicate Received() reads this, hub {
      N.Kept(first, hub.outbox, receipts, L.Flat(log.tells))
    }

    ghost predicate Logged() reads this, store {
      L.LogOk(store.cfg, log) && L.EndsIn(log, store.View())
    }

    constructor (registry: PeerRegistry.PeerRegistry, store: SessionStore.Store, hub: SignalingHub.Hub)
      requires registry.Valid() && store.Valid() && hub.Valid()
      ensures Valid() && receipts == [] && log == L.Log([store.View()], [], []) && first == hub.outbox
      ensures this.registry == registry && this.store == store && this.hub == hub
    {
      this.registry, this.store, this.hub := registry, store, hub;
      receipts, first := [], hub.outbox;
      log := L.Log([store.View()], [], []);
    }

    /** The store has served a request since the log was written; here is its entry. */
    ghost method Enter(b: Book, r: Request, now: int, told: seq<Session>)
      requires L.LogOk(store.cfg, log) && L.EndsIn(log, b)
      requires Next(store.cfg, b, r, now, store.View()) && L.Tells(store.cfg, b, r, now, store.View(), told)
      modifies `log
      ensures Logged() && log == L.Extended(old(log), r, now, store.View(), told)
      ensures L.Flat(log.tells) == L.Flat(old(log.tells)) + told
    {
      hide Next, L.LogOk, L.EndsIn, L.Tells, L.Flat;
      L.LogExtends(store.cfg, log, b, r, now, store.View(), told);
      log := L.Extended(log, r, now, store.View(), told);
    }

    /** As `Enter`, for a request that has nothing announced. */
    ghost method EnterSilent(b: Book, r: Request, now: int)
      requires r.Open? || r.Get? || r.Reap?
      requires L.LogOk(store.cfg, log) && L.EndsIn(log, b)
      requires Next(store.cfg, b, r, now, store.View())
      modifies `log
      ensures Logged() && log == L.Extended(old(log), r, now, store.View(), [])
      ensures L.Flat(log.tells) == L.Flat(old(log.tells))
    {
      hide Next, L.LogOk, L.EndsIn, L.Tells, L.Flat;
      L.SilentTells(store.cfg, b, r, now, store.View());
      Enter(b, r, now, []);
    }

    /** Opens a session for a caller once the registry answers for the peer it asked for. */
    method OpenSession(caller: string, callee: string, newId: Option<string>, now: int) returns (reply: Reply)
      requires Valid() && (newId.Some? ==> newId.value !in store.sessions)
      modifies store, `log
      ensures Valid()
      ensures (callee == "" || callee == caller) ==> reply == BadRequest
      ensures callee != "" && callee != caller && !R.Answering(registry.cfg, registry.peers, callee, now) ==>
        reply == Unreachable
      ensures reply.Answered? <==>
        callee != "" && callee != caller && R.Answering(registry.cfg, registry.peers, callee, now)
      ensures !reply.Answered? ==> store.View() == old(store.View()) && log == old(log)
      ensures reply.Answered? ==>
        && Next(store.cfg, old(store.View()), Open(caller, callee, true, newId), now, store.View())
        && One(reply.result) == Serve(store.cfg, old(store.View()), Open(caller, callee, true, newId), now).answer
        && log == L.Extended(old(log), Open(caller, callee, true, newId), now, store.View(), [])
    {
      hide Next, Serve, L.LogOk, L.EndsIn, L.Flat, R.Answering;
      hide SessionStore.Store.Valid, PeerRegistry.PeerRegistry.Valid, SignalingHub.Hub.Valid;
      if callee == "" || callee == caller {
        return BadRequest;
      }
      var held := registry.Lookup(callee, now);
      if held.None? {
        return Unreachable;
      }
      var r := store.Open(caller, callee, true, newId, now);
      EnterSilent(old(store.View()), Open(caller, callee, true, newId), now);
      return Answered(r);
    }

    /** Reads a session for a peer in it. */
    method GetSession(id: string, peer: string, now: int) returns (r: Result<Session, Error>)
      requires Valid()
      modifies store, `log
      ensures Valid()
      ensures Next(store.cfg, old(store.View()), Get(id, peer), now, store.View())
      ensures One(r) == Serve(store.cfg, old(store.View()), Get(id, peer), now).answer
      ensures log == L.Extended(old(log), Get(id, peer), now, store.View(), [])
    {
      hide Next, Serve, L.LogOk, L.EndsIn, L.Flat;
      r := store.Get(id, peer, now);
      EnterSilent(old(store.View()), Get(id, peer), now);
    }

    /** One tick of the store's own sweep. */
    method ReapSessions(now: int) returns (failed: int, forgotten: int)
      requires Valid()
      modifies store, `log
      ensures Valid()
      ensures Next(store.cfg, old(store.View()), Reap, now, store.View())
      ensures Swept(failed, forgotten) == Serve(store.cfg, old(store.View()), Reap, now).answer
      ensures log == L.Extended(old(log), Reap, now, store.View(), [])
    {
      hide Next, Serve, L.LogOk, L.EndsIn, L.Flat;
      failed, forgotten := store.Reap(now);
      EnterSilent(old(store.View()), Reap, now);
    }

    /** Carries one signaling message; the lookup of the other side is a read of the store. */
    method Signal(sender: string, msg: S.Message, now: int, broken: set<S.Conn>) returns (ok: bool)
      requires Valid()
      modifies store, `log, hub`outbox, hub`closed, hub.conns.Values
      ensures Valid()
      ensures hub.View() == S.Routed(hub.cfg, old(hub.View()), sender, msg,
          SignalingHub.OtherOf(store.cfg, old(store.sessions), msg.sessionId, sender, now), now, broken)
      ensures ok <==> S.RouteSucceeds(hub.cfg, old(hub.View()), sender, msg,
          SignalingHub.OtherOf(store.cfg, old(store.sessions), msg.sessionId, sender, now), now, broken)
      ensures if S.Asks(hub.cfg, old(hub.View()), sender, msg, now)
        then Next(store.cfg, old(store.View()), Get(msg.sessionId, sender), now, store.View())
          && log == L.Extended(old(log), Get(msg.sessionId, sender), now, store.View(), [])
        else store.View() == old(store.View()) && log == old(log)
    {
      hide Next, L.LogOk, L.EndsIn, L.Flat, S.Routed, S.RouteSucceeds, S.Asks, SignalingHub.OtherOf;
      ok := hub.Route(sender, msg, store, now, broken);
      N.KeptAfterRouting(first, hub.cfg, old(hub.View()), receipts, L.Flat(log.tells), sender, msg,
                         SignalingHub.OtherOf(store.cfg, old(store.sessions), msg.sessionId, sender, now), now, broken);
      if S.Asks(hub.cfg, old(hub.View()), sender, msg, now) {
        EnterSilent(old(store.View()), Get(msg.sessionId, sender), now);
      }
    }

    /** Tells both peers of a session that ended; a session still live is not announced. */
    method NotifyEnded(s: Session, broken: set<S.Conn>)
      requires hub.Valid()
      modifies `receipts, hub`outbox, hub`closed
      ensures hub.Valid()
      ensures receipts == old(receipts) + N.Receipts(L.Ending(s), old(hub.View()), broken)
      ensures hub.View() == Sweep.Notified(old(hub.View()), L.Ending(s), broken)
    {
      if s.Live() {
        NothingTold(receipts, hub.View(), broken);
        return;
      }
      assert [s][..0] == [];
      hub.SessionEnded(s.id, Sweep.StateName(s.state), [s.caller, s.callee], broken);
      receipts := receipts + N.Receipts([s], old(hub.View()), broken);
    }

    /** Moves a session on a peer's word, and announces its end if that ended it. */
    method ReportSession(id: string, peer: string, rawState: string, rawPath: string, now: int, broken: set<S.Conn>)
      returns (reply: Reply, ghost told: seq<Session>)
      requires Valid()
      modifies `receipts, `log, store, hub`outbox, hub`closed
      ensures Valid()
      ensures ReportableState(rawState).None? || ReportablePath(rawPath).None? ==>
        reply == BadRequest && store.View() == old(store.View()) && log == old(log) && told == []
      ensures ReportableState(rawState).Some? && ReportablePath(rawPath).Some? ==>
        Reported(store.cfg, old(store.View()), Report(id, peer, ReportableState(rawState).value, ReportablePath(rawPath).value),
                 now, store.View(), reply, told, old(log), log)
      ensures receipts == old(receipts) + N.Receipts(told, old(hub.View()), broken)
      ensures hub.View() == Sweep.Notified(old(hub.View()), told, broken)
    {
      told := [];
      NothingTold(receipts, hub.View(), broken);
      var to := ReportableState(rawState);
      if to.None? {
        return BadRequest, [];
      }
      var path := ReportablePath(rawPath);
      if path.None? {
        return BadRequest, [];
      }
      reply, told := ReportAndNotify(id, peer, to.value, path.value, now, broken);
    }

    /** Closes a session for a peer in it. */
    method DeleteSession(id: string, peer: string, now: int, broken: set<S.Conn>)
      returns (reply: Reply, ghost told: seq<Session>)
      requires Valid()
      modifies `receipts, `log, store, hub`outbox, hub`closed
      ensures Valid()
      ensures Reported(store.cfg, old(store.View()), Report(id, peer, Closed, PathUnknown), now, store.View(),
                       reply, told, old(log), log)
      ensures receipts == old(receipts) + N.Receipts(told, old(hub.View()), broken)
      ensures hub.View() == Sweep.Notified(old(hub.View()), told, broken)
    {
      reply, told := ReportAndNotify(id, peer, Closed, PathUnknown, now, broken);
    }

    method ReportAndNotify(id: string, peer: string, to: State, path: Path, now: int, broken: set<S.Conn>)
      returns (reply: Reply, ghost told: seq<Session>)
      requires Valid()
      modifies `receipts, `log, store, hub`outbox, hub`closed
      ensures Valid()
      ensures Reported(store.cfg, old(store.View()), Report(id, peer, to, path), now, store.View(),
                       reply, told, old(log), log)
      ensures receipts == old(receipts) + N.Receipts(told, old(hub.View()), broken)
      ensures hub.View() == Sweep.Notified(old(hub.View()), told, broken)
    {
      hide Next, Serve, L.Tells, L.LogOk, L.EndsIn, L.Flat, Sweep.Notified, Keyed;
      hide SessionStore.Store.Valid, PeerRegistry.PeerRegistry.Valid, SignalingHub.Hub.Valid;
      RecordsInOrder();
      var r := store.Report(id, peer, to, path, now);
      told := if r.Ok? then L.Ending(r.value) else [];
      L.ReportTells(store.cfg, old(store.View()), Report(id, peer, to, path), now, store.View(), r);
      Enter(old(store.View()), Report(id, peer, to, path), now, told);
      if r.Ok? {
        NotifyEnded(r.value, broken);
      } else {
        NothingTold(receipts, hub.View(), broken);
      }
      N.KeptAfterTelling(first, old(hub.View()), old(receipts), L.Flat(old(log.tells)), told, broken);
      reply := Answered(r);
    }

    /** A peer that is there: kept where the registry answers for it, registered where not. */
    method Connected(peer: string, now: int)
      requires registry.Valid()
      modifies registry
      ensures registry.Valid()
      ensures registry.peers == Presence.Refreshed(registry.cfg, old(registry.peers), peer, now)
    {
      var beat := registry.Heartbeat(peer, now);
      if beat.Err? {
        var _ := registry.Register(peer, now);
      }
    }

    /** What a request to the registry does to registry and store together. */
    twostate predicate Asked(r: R.Request, now: int) reads registry, store {
      D.Step(registry.cfg, store.cfg, old(registry.peers), old(store.View()), D.Asked(r, now),
             registry.peers, store.View())
    }

    /** A peer registers itself. */
    method RegisterPeer(peer: string, now: int) returns (r: Result<R.Peer, R.Error>)
      requires Valid()
      modifies registry
      ensures Valid() && Asked(R.Register(peer), now)
      ensures r == R.RegisterAnswer(registry.cfg, old(registry.peers), TrimSpace(peer), now)
    {
      hide L.LogOk, L.EndsIn, L.Flat, R.After, SessionStore.Store.Valid, SignalingHub.Hub.Valid;
      r := registry.Register(peer, now);
    }

    /** A peer reports in; one the registry no longer answers for is told to register. */
    method HeartbeatPeer(peer: string, now: int) returns (r: Result<R.Peer, R.Error>)
      requires Valid()
      modifies registry
      ensures Valid() && Asked(R.Heartbeat(peer), now)
      ensures r == R.HeartbeatAnswer(registry.cfg, old(registry.peers), peer, now)
    {
      hide L.LogOk, L.EndsIn, L.Flat, R.After, SessionStore.Store.Valid, SignalingHub.Hub.Valid;
      r := registry.Heartbeat(peer, now);
    }

    /** A peer takes itself out. */
    method DeregisterPeer(peer: string, now: int)
      requires Valid()
      modifies registry
      ensures Valid() && Asked(R.Deregister(peer), now)
    {
      hide L.LogOk, L.EndsIn, L.Flat, SessionStore.Store.Valid, SignalingHub.Hub.Valid;
      registry.Deregister(peer);
    }

    /** Reports one peer to another. */
    method LookupPeer(peer: string, now: int) returns (r: Option<R.Peer>)
      requires Valid()
      ensures r == R.LookupAnswer(registry.cfg, registry.peers, peer, now)
    {
      r := registry.Lookup(peer, now);
    }

    /** A peer opens its signaling channel. */
    method OpenChannel(peer: string, conn: S.Conn, now: int)
      requires Valid()
      modifies registry, hub
      ensures Valid()
      ensures hub.View() == S.Joined(old(hub.View()), peer, conn, now)
      ensures registry.peers == Presence.Refreshed(registry.cfg, old(registry.peers), peer, now)
    {
      hub.Register(peer, conn, now);
      Connected(peer, now);
    }

    /** A peer's signaling channel has closed. The registry is not told: its own window decides. */
    method CloseChannel(peer: string, conn: S.Conn)
      requires Valid()
      modifies hub
      ensures Valid()
      ensures hub.View() == S.Left(old(hub.View()), peer, conn)
    {
      hub.Deregister(peer, conn);
    }

    /** One tick of the refresh: every peer holding a channel, in whatever order. */
    method RefreshPresence(now: int) returns (ghost order: seq<string>)
      requires Valid()
      modifies registry
      ensures Valid()
      ensures Enumerates(order, hub.conns.Keys)
      ensures registry.peers == Presence.AllRefreshed(registry.cfg, old(registry.peers), order, now)
    {
      var peers := hub.Peers();
      order := peers;
      for i := 0 to |peers|
        invariant Valid()
        invariant registry.peers == Presence.AllRefreshed(registry.cfg, old(registry.peers), peers[..i], now)
      {
        assert peers[..i + 1][..i] == peers[..i];
        Connected(peers[i], now);
      }
      assert peers[..|peers|] == peers;
    }

    /** One sweep: the registry names the peers past the offline window, every session
        one of them was in is closed, and each closed session is announced once. To the
        store it is one departure after another, in the order the registry names them. */
    method SweepPeers(now: int, broken: set<S.Conn>) returns (ghost removed: seq<string>, ghost told: seq<Session>)
      requires Valid()
      modifies `receipts, `log, registry, store, hub`outbox, hub`closed
      ensures Valid()
      ensures Asked(R.Expire, now)
      ensures Enumerates(removed, R.GoneIds(registry.cfg, old(registry.peers), now))
      ensures var gone := R.GoneIds(registry.cfg, old(registry.peers), now);
              && Sweep.SweptBook(store.cfg, old(store.View()), gone, now, store.View())
              && Sweep.ToldSoFar(store.cfg, old(store.sessions), gone, now, told)
      ensures Departing(old(log), log, removed, now, told)
      ensures forall id :: L.Mentions(told, id) <==> L.AnnouncedFrom(store.cfg, log, |old(log).events|, id)
      ensures receipts == old(receipts) + N.Receipts(told, old(hub.View()), broken)
      ensures hub.View() == Sweep.Notified(old(hub.View()), told, broken)
    {
      hide Sweep.SweptBook, Sweep.ToldSoFar, Sweep.Notified, Departing;
      hide L.LogOk, L.EndsIn, L.Flat, L.Mentions, L.AnnouncedFrom;
      hide Elems, Enumerates, R.GoneIds, R.After;
      hide SessionStore.Store.Valid, PeerRegistry.PeerRegistry.Valid, SignalingHub.Hub.Valid;
      var expired := registry.Expire(now);
      removed := expired;
      told := OnExpired(expired, now, broken);
      EnumeratedElems(expired, R.GoneIds(registry.cfg, old(registry.peers), now));
    }

    lemma RecordsInOrder()
      requires Valid()
      ensures Keyed(store.sessions) && Enumerates(store.ended, DeadIds(store.sessions))
    {
    }

    /** The sweep's callback. */
    method OnExpired(removed: seq<string>, now: int, broken: set<S.Conn>) returns (ghost told: seq<Session>)
      requires Valid()
      modifies `receipts, `log, store, hub`outbox, hub`closed
      ensures Valid()
      ensures Sweep.SweptBook(store.cfg, old(store.View()), Elems(removed), now, store.View())
      ensures Sweep.ToldSoFar(store.cfg, old(store.sessions), Elems(removed), now, told)
      ensures Departing(old(log), log, removed, now, told)
      ensures forall id :: L.Mentions(told, id) <==> L.AnnouncedFrom(store.cfg, log, |old(log).events|, id)
      ensures receipts == old(receipts) + N.Receipts(told, old(hub.View()), broken)
      ensures hub.View() == Sweep.Notified(old(hub.View()), told, broken)
    {
      hide SweptSoFar, Keyed, Enumerates, L.LogOk, L.EndsIn, L.Flat, L.Mentions, L.AnnouncedFrom, Departing;
      hide SessionStore.Store.Valid, PeerRegistry.PeerRegistry.Valid, SignalingHub.Hub.Valid;
      ghost var start, was, before := store.View(), receipts, log;
      RecordsInOrder();
      told := [];
      NobodyYet(store.cfg, start, now, old(hub.View()), broken, was, log);
      assert removed[..0] == [];
      for i := 0 to |removed|
        invariant Valid()
        invariant SweptSoFar(store.cfg, start, store.View(), removed[..i], now, told,
                             old(hub.View()), hub.View(), broken, before, log)
        invariant receipts == was + N.Receipts(told, old(hub.View()), broken)
      {
        ghost var h, served, entries := hub.View(), store.View(), log;
        ghost var closed := PeerGone(removed[i], now, broken, start, removed[..i], told, old(hub.View()), before);
        assert removed[..i + 1] == removed[..i] + [removed[i]];
        SweptReceipts(store.cfg, start, served, removed[..i], now, told, old(hub.View()), h, broken, before, entries, closed);
        ConcatAssoc(was, N.Receipts(told, old(hub.View()), broken), N.Receipts(closed, h, broken));
        told := told + closed;
      }
      assert removed[..|removed|] == removed;
      SweptTold(store.cfg, start, store.View(), removed, now, told, old(hub.View()), hub.View(), broken, before, log);
    }

    /** The peers of `done` have had their turn; one more takes it. */
    method PeerGone(peer: string, now: int, broken: set<S.Conn>, ghost start: Book, ghost done: seq<string>,
                    ghost told: seq<Session>, ghost h: S.Hub, ghost before: L.Log)
      returns (ghost closed: seq<Session>)
      requires Valid() && Keyed(start.sessions)
      requires SweptSoFar(store.cfg, start, store.View(), done, now, told, h, hub.View(), broken, before, log)
      modifies `receipts, `log, store, hub`outbox, hub`closed
      ensures Valid()
      ensures SweptSoFar(store.cfg, start, store.View(), done + [peer], now, told + closed,
                         h, hub.View(), broken, before, log)
      ensures receipts == old(receipts) + N.Receipts(closed, old(hub.View()), broken)
    {
      hide SweptSoFar, Sweep.Notified, Next, CloseOutcome, NoDup, Keyed, L.LogOk, L.EndsIn, L.Flat;
      closed := CloseAndNotify(peer, now, broken);
      SweptMore(store.cfg, start, done, now, told, h, old(hub.View()), broken, before, old(log),
                peer, old(store.View()), store.View(), closed);
    }

    /** One departed peer's turn: what it was in is closed, and each end announced. */
    method CloseAndNotify(peer: string, now: int, broken: set<S.Conn>) returns (ghost closed: seq<Session>)
      requires Valid()
      modifies `receipts, `log, store, hub`outbox, hub`closed
      ensures Valid() && NoDup(closed)
      ensures Next(store.cfg, old(store.View()), ClosePeer(peer), now, store.View())
      ensures Many(Elems(closed)) == CloseOutcome(store.cfg, old(store.sessions), peer, now).answer
      ensures log == L.Extended(old(log), ClosePeer(peer), now, store.View(), closed)
      ensures receipts == old(receipts) + N.Receipts(closed, old(hub.View()), broken)
      ensures hub.View() == Sweep.Notified(old(hub.View()), closed, broken)
    {
      hide Next, Serve, CloseOutcome, NoDup, Elems, Keyed;
      hide Enumerates, Sweep.Notified, L.LogOk, L.EndsIn, L.Flat, L.Tells;
      hide SessionStore.Store.Valid, PeerRegistry.PeerRegistry.Valid, SignalingHub.Hub.Valid;
      RecordsInOrder();
      ServeClose(store.cfg, store.View(), peer, now);
      var ended := store.ClosePeer(peer, now);
      closed := ended;
      L.CloseTells(store.cfg, old(store.View()), peer, now, store.View(), closed);
      Enter(old(store.View()), ClosePeer(peer), now, closed);
      AnnounceAll(ended, broken);
      N.KeptAfterTelling(first, old(hub.View()), old(receipts), L.Flat(old(log.tells)), closed, broken);
    }

    method AnnounceAll(closed: seq<Session>, broken: set<S.Conn>)
      requires hub.Valid()
      modifies `receipts, hub`outbox, hub`closed
      ensures hub.Valid()
      ensures receipts == old(receipts) + N.Receipts(closed, old(hub.View()), broken)
      ensures hub.View() == Sweep.Notified(old(hub.View()), closed, broken)
    {
      for i := 0 to |closed|
        invariant hub.Valid() && receipts == old(receipts)
        invariant hub.View() == Sweep.Notified(old(hub.View()), closed[..i], broken)
      {
        assert closed[..i + 1] == closed[..i] + [closed[i]] && closed[..i + 1][..i] == closed[..i];
        hub.SessionEnded(closed[i].id, Sweep.StateName(closed[i].state), [closed[i].caller, closed[i].callee], broken);
      }
      assert closed[..|closed|] == closed;
      receipts := receipts + N.Receipts(closed, old(hub.View()), broken);
    }
  }

  lemma ServeClose(cfg: Config, b: Book, peer: string, now: int)
    ensures Serve(cfg, b, ClosePeer(peer), now) == CloseOutcome(cfg, b.sessions, peer, now)
  {
  }

  lemma EnumeratedElems(q: seq<string>, s: set<string>)
    requires Enumerates(q, s)
    ensures Elems(q) == s
  {
  }

  lemma ConcatAssoc<T>(a: seq<T>, b: seq<T>, c: seq<T>)
    ensures a + b + c == a + (b + c)
  {
  }

  lemma SameRest<T>(a: seq<T>, b: seq<T>, c: seq<T>)
    requires a + b == a + c
    ensures b == c
  {
    assert b == (a + b)[|a|..] && c == (a + c)[|a|..];
  }

  lemma NobodyYet(cfg: Config, b: Book, now: int, h: S.Hub, broken: set<S.Conn>,
                  was: seq<N.Receipt>, log: L.Log)
    requires Enumerates(b.ended, DeadIds(b.sessions))
    ensures SweptSoFar(cfg, b, b, [], now, [], h, h, broken, log, log)
    ensures was + N.Receipts([], h, broken) == was
  {
    assert Elems<string>([]) == {};
    Sweep.NobodySwept(cfg, b, now);
    hide Sweep.SweptBook;
    assert log.events + Closings([], now) == log.events && L.Flat(log.tells) + [] == L.Flat(log.tells);
  }

  /** Over the whole life of the wired program, so long as its clock never goes back and
      its identifiers are new: no session's end is announced twice, and it is announced if
      and only if something other than the clock ended it. */
  lemma EachEndAnnouncedOnce(central: Central)
    requires central.Valid()
    requires SessionRuns.Run(central.store.cfg, central.log.books, central.log.events)
    ensures N.OnceEach(central.receipts)
    ensures forall id :: N.Announced(central.receipts, id) <==>
      exists i: nat :: i < |central.log.events|
        && A.EndedAt(central.store.cfg, central.log.books, central.log.events, i, id)
  {
    hide L.LogOk, SessionRuns.Run, A.EndedAt, N.AllReceived;
    var log := central.log;
    LogLengths(central);
    assert log.tells[..|log.events|] == log.tells;
    L.AnnouncedOnceEach(central.store.cfg, log, |log.events|);
    N.ReceiptsName(central.receipts, L.Flat(log.tells));
  }

  lemma LogLengths(central: Central)
    requires central.Valid()
    ensures |central.log.books| == |central.log.events| + 1 == |central.log.tells| + 1
  {
  }

  /** And announced means received: since the start, each connection has been sent about each
      announced session exactly one notice for each of its two peers that held it then, about
      any other session none, and the notices are the only messages about sessions it got. */
  lemma EachEndReceivedOnce(central: Central, c: S.Conn)
    requires central.Valid()
    requires SessionRuns.Run(central.store.cfg, central.log.books, central.log.events)
    ensures N.NoticesIn(N.On(central.hub.outbox, c))
         == N.NoticesIn(N.On(central.first, c)) + N.Received(central.receipts, c)
    ensures forall k :: 0 <= k < |central.receipts| ==>
      var r := central.receipts[k];
      N.Count(N.Received(central.receipts, c), r.session.id)
      == (if r.Holds(r.session.caller, c) then 1 else 0) + (if r.Holds(r.session.callee, c) then 1 else 0)
    ensures forall id :: !N.Announced(central.receipts, id) ==> N.Count(N.Received(central.receipts, c), id) == 0
  {
    hide SessionRuns.Run, N.Count, N.Received, N.Receipt.Holds, L.LogOk;
    EachEndAnnouncedOnce(central);
    forall k | 0 <= k < |central.receipts|
      ensures var r := central.receipts[k];
              N.Count(N.Received(central.receipts, c), r.session.id)
              == (if r.Holds(r.session.caller, c) then 1 else 0) + (if r.Holds(r.session.callee, c) then 1 else 0)
    {
      N.AnnouncedIsReceived(central.receipts, k, c);
    }
    forall id | !N.Announced(central.receipts, id) ensures N.Count(N.Received(central.receipts, c), id) == 0 {
      N.NotAnnounced(central.receipts, c, id);
    }
  }
}
