/** The registry and the session store together: which departures close the sessions of
    the peer that left. The design has every one do so; here is exactly which do, and a
    run in which one does not. */
module Departures {
  import opened Base
  import opened Identifiers
  import opened Sessions
  import opened SessionInvariant
  import A = Announcements
  import SessionRuns
  import Sweep
  import R = Registry

  /** A request to the registry or to the store. */
  datatype Event = Asked(request: R.Request, at: int) | Stored(asked: Request, at: int)

  /** The sweep hands whoever it removed to the store; no other request to the registry
      reaches the store. */
  ghost predicate SweptInto(rcfg: R.Config, cfg: Config, m: R.Peers, b: Book, r: R.Request, now: int, b': Book) {
    if r == R.Expire then Sweep.SweptBook(cfg, b, R.GoneIds(rcfg, m, now), now, b') else b' == b
  }

  ghost predicate Step(rcfg: R.Config, cfg: Config, m: R.Peers, b: Book, e: Event, m': R.Peers, b': Book) {
    match e
    case Asked(r, at) => m' == R.After(rcfg, m, r, at) && SweptInto(rcfg, cfg, m, b, r, at, b')
    case Stored(r, at) => m' == m && FreshFor(r, b.sessions) && Next(cfg, b, r, at, b')
  }

  // --- one step ---------------------------------------------------------------

  /** Every way out of the registry. */
  lemma LeavesWhen(rcfg: R.Config, m: R.Peers, r: R.Request, now: int, p: string)
    requires p in m
    ensures p !in R.After(rcfg, m, r, now) <==>
      || r == R.Deregister(p)
      || (p in R.GoneIds(rcfg, m, now)
          && (r == R.Expire || r == R.Heartbeat(p)
              || (r.Register? && TrimSpace(r.id) != "" && TrimSpace(r.id) !in m && |m| >= rcfg.ceiling)))
  {
  }

  /** A request to the registry ends a live session if and only if it is the sweep and
      one of the two peers is past the offline window. */
  lemma RegistryEndsIff(rcfg: R.Config, cfg: Config, m: R.Peers, b: Book, r: R.Request, now: int,
                        m': R.Peers, b': Book, id: string)
    requires Step(rcfg, cfg, m, b, Asked(r, now), m', b')
    requires id in b.sessions && SettleOne(cfg, b.sessions[id], now).Live()
    ensures A.EndedBy(cfg, b, now, b', id) <==>
      r == R.Expire
      && (b.sessions[id].caller in R.GoneIds(rcfg, m, now) || b.sessions[id].callee in R.GoneIds(rcfg, m, now))
  {
  }

  /** A peer in a live session leaves the registry: the session is ended by that step if
      and only if the step is the sweep. Otherwise it is left exactly as it was. */
  lemma DepartureEndsIff(rcfg: R.Config, cfg: Config, m: R.Peers, b: Book, r: R.Request, now: int,
                         m': R.Peers, b': Book, p: string, id: string)
    requires Step(rcfg, cfg, m, b, Asked(r, now), m', b')
    requires p in m && p !in m'
    requires id in b.sessions && b.sessions[id].Has(p) && SettleOne(cfg, b.sessions[id], now).Live()
    ensures A.EndedBy(cfg, b, now, b', id) <==> r == R.Expire
    ensures r != R.Expire ==> b' == b
  {
    hide SettleOne;
    LeavesWhen(rcfg, m, r, now, p);
    RegistryEndsIff(rcfg, cfg, m, b, r, now, m', b', id);
  }

  // --- after leaving quietly --------------------------------------------------------

  ghost predicate EachStep(rcfg: R.Config, cfg: Config, ms: seq<R.Peers>, books: seq<Book>, events: seq<Event>)
    requires |ms| == |books| == |events| + 1
  {
    forall i :: 0 <= i < |events| ==> Step(rcfg, cfg, ms[i], books[i], events[i], ms[i + 1], books[i + 1])
  }

  /** From an empty registry and an empty store, with a clock that never goes back. */
  ghost predicate Run(rcfg: R.Config, cfg: Config, ms: seq<R.Peers>, books: seq<Book>, events: seq<Event>) {
    && rcfg.Valid() && cfg.Valid() && |ms| == |books| == |events| + 1
    && ms[0] == map[] && books[0] == Book(map[], [])
    && EachStep(rcfg, cfg, ms, books, events)
    && forall i, j :: 0 <= i <= j < |events| ==> events[i].at <= events[j].at
  }

  lemma SweepKeepsBook(cfg: Config, b: Book, peers: set<string>, now: int, b': Book)
    requires BookOk(cfg, b) && Sweep.SweptBook(cfg, b, peers, now, b')
    ensures BookOk(cfg, b')
  {
    assert Wanes(b.sessions, b'.sessions);
    hide Wanes, Sweep.SweptRecords, Keyed, OnePerPair, Bounded;
    WaneKeeps(cfg, b.sessions, b'.sessions);
  }

  lemma StepKeepsBook(rcfg: R.Config, cfg: Config, m: R.Peers, b: Book, e: Event, m': R.Peers, b': Book)
    requires cfg.Valid() && BookOk(cfg, b) && Step(rcfg, cfg, m, b, e, m', b')
    ensures BookOk(cfg, b')
  {
    hide BookOk, Next, Requeued, FreshFor;
    match e
    case Stored(r, at) => NextKeepsBook(cfg, b, r, at, b');
    case Asked(r, at) =>
      if r == R.Expire { SweepKeepsBook(cfg, b, R.GoneIds(rcfg, m, at), at, b'); }
  }

  lemma {:induction false} RunKeepsBook(rcfg: R.Config, cfg: Config, ms: seq<R.Peers>, books: seq<Book>,
                                        events: seq<Event>, i: nat)
    requires Run(rcfg, cfg, ms, books, events) && i < |books|
    ensures BookOk(cfg, books[i])
  {
    hide BookOk, Step;
    if i == 0 {
      EmptyBookOk(cfg);
    } else {
      RunKeepsBook(rcfg, cfg, ms, books, events, i - 1);
      StepKeepsBook(rcfg, cfg, ms[i - 1], books[i - 1], events[i - 1], ms[i], books[i]);
    }
  }

  /** Nothing reports on the session, closes for a peer of it, or sweeps one of them. */
  ghost predicate LeavesAlone(rcfg: R.Config, m: R.Peers, e: Event, s: Session) {
    match e
    case Asked(r, at) =>
      r == R.Expire ==> s.caller !in R.GoneIds(rcfg, m, at) && s.callee !in R.GoneIds(rcfg, m, at)
    case Stored(r, at) =>
      !(r.Report? && r.id == s.id) && !(r.ClosePeer? && s.Has(r.peer))
  }

  /** Then the step leaves a session that is live at its moment exactly as it was. */
  lemma StepLeaves(rcfg: R.Config, cfg: Config, m: R.Peers, b: Book, e: Event, m': R.Peers, b': Book, id: string)
    requires cfg.Valid() && BookOk(cfg, b) && Step(rcfg, cfg, m, b, e, m', b')
    requires id in b.sessions && SettleOne(cfg, b.sessions[id], e.at).Live()
    requires LeavesAlone(rcfg, m, e, b.sessions[id])
    ensures id in b'.sessions && b'.sessions[id] == b.sessions[id]
  {
    var s := b.sessions[id];
    if e.Stored? {
      match e.asked
      case Open(_, _, _, _) => OpenLeaves(cfg, b, e.asked, e.at, b', id);
      case Report(x, reporter, to, path) => assert s.id == id && x != id;
      case _ =>
    }
  }

  lemma OpenLeaves(cfg: Config, b: Book, r: Request, now: int, b': Book, id: string)
    requires cfg.Valid() && BookOk(cfg, b) && r.Open? && FreshFor(r, b.sessions) && Next(cfg, b, r, now, b')
    requires id in b.sessions && SettleOne(cfg, b.sessions[id], now).Live()
    ensures id in b'.sessions && b'.sessions[id] == b.sessions[id]
  {
    hide BookOk, Requeued, OpenChecked;
    SessionRuns.OpenForgetsOnlyTheFirstEnded(cfg, b, r, now, b');
    assert id !in b.sessions.Keys - b'.sessions.Keys;
    SessionRuns.OpenSettlesOrLeaves(cfg, b, r, now, id);
  }

  lemma LiveEarlier(cfg: Config, s: Session, t: int, now: int)
    requires t <= now && SettleOne(cfg, s, now).Live()
    ensures SettleOne(cfg, s, t).Live()
  {
  }

  /** A peer that left quietly is no longer there for a sweep to name. So long as it does
      not come back, nobody sweeps the other peer, and neither says anything, a session
      it was in outlives it, through any number of sweeps and other requests: for as long
      as its own timeout lets it, for ever once it has connected. */
  lemma {:induction false} QuietlyLeftStaysOpen(
    rcfg: R.Config, cfg: Config, ms: seq<R.Peers>, books: seq<Book>, events: seq<Event>,
    i: nat, j: nat, p: string, id: string, now: int)
    requires Run(rcfg, cfg, ms, books, events) && i <= j <= |events|
    requires id in books[i].sessions && books[i].sessions[id].Has(p)
    requires SettleOne(cfg, books[i].sessions[id], now).Live()
    requires forall k :: i <= k < j ==> events[k].at <= now && p !in ms[k]
    requires forall k :: i <= k < j && events[k] == Asked(R.Expire, events[k].at) ==>
      books[i].sessions[id].Other(p) !in R.GoneIds(rcfg, ms[k], events[k].at)
    requires forall k :: i <= k < j && events[k].Stored? ==>
      LeavesAlone(rcfg, ms[k], events[k], books[i].sessions[id])
    ensures id in books[j].sessions && books[j].sessions[id] == books[i].sessions[id]
    decreases j - i
  {
    hide Step, BookOk;
    if i < j {
      var k := j - 1;
      QuietlyLeftStaysOpen(rcfg, cfg, ms, books, events, i, k, p, id, now);
      RunKeepsBook(rcfg, cfg, ms, books, events, k);
      LiveEarlier(cfg, books[k].sessions[id], events[k].at, now);
      StepLeaves(rcfg, cfg, ms[k], books[k], events[k], ms[j], books[j], id);
    }
  }

  // --- one that stays open --------------------------------------------------------

  const PEERS := R.Config(1, 2, 3, 2)
  const SESSIONS := Config(10, 100, 2, 2)

  const OPENED := Book(map["x" := Session("x", "a", "b", Negotiating, PathUnknown, 0, 0)], [])
  const TALKING := Book(map["x" := Session("x", "a", "b", Connected, Direct, 0, 1)], [])

  lemma OpensAndConnects()
    ensures Next(SESSIONS, Book(map[], []), Open("a", "b", true, Some("x")), 0, OPENED)
    ensures Next(SESSIONS, OPENED, Report("x", "a", Connected, Direct), 1, TALKING)
  {
    TrimKeepsPeerId("a");
    TrimKeepsPeerId("b");
  }

  lemma Registrations()
    ensures R.After(PEERS, map[], R.Register("a"), 0) == map["a" := R.Record(0, 0)]
    ensures R.After(PEERS, map["a" := R.Record(0, 0)], R.Register("b"), 0)
      == map["a" := R.Record(0, 0), "b" := R.Record(0, 0)]
  {
    TrimKeepsPeerId("a");
    TrimKeepsPeerId("b");
  }

  lemma AdmissionDrops()
    ensures var m := map["a" := R.Record(0, 0), "b" := R.Record(0, 3)];
            && R.After(PEERS, map["a" := R.Record(0, 0), "b" := R.Record(0, 0)], R.Heartbeat("b"), 3) == m
            && R.After(PEERS, m, R.Register("c"), 4) == map["b" := R.Record(0, 3), "c" := R.Record(4, 4)]
  {
    TrimKeepsPeerId("c");
    var m := map["a" := R.Record(0, 0), "b" := R.Record(0, 3)];
    assert R.GoneIds(PEERS, m, 4) == {"a"};
    assert R.Present(PEERS, m, 4) == map["b" := R.Record(0, 3)];
  }

  /** The run: `a` and `b` register and talk; `b` alone is heard from again; `c` takes the
      room of `a`; the sweep comes round. */
  ghost function PeersAt(k: int): R.Peers {
    if k == 0 then map[]
    else if k == 1 then map["a" := R.Record(0, 0)]
    else if k <= 4 then map["a" := R.Record(0, 0), "b" := R.Record(0, 0)]
    else if k == 5 then map["a" := R.Record(0, 0), "b" := R.Record(0, 3)]
    else map["b" := R.Record(0, 3), "c" := R.Record(4, 4)]
  }

  ghost function BookAt(k: int): Book {
    if k <= 2 then Book(map[], []) else if k == 3 then OPENED else TALKING
  }

  const EVENTS := [
    Asked(R.Register("a"), 0), Asked(R.Register("b"), 0), Stored(Open("a", "b", true, Some("x")), 0),
    Stored(Report("x", "a", Connected, Direct), 1), Asked(R.Heartbeat("b"), 3),
    Asked(R.Register("c"), 4), Asked(R.Expire, 5)]

  lemma StepAt(k: nat)
    requires k < 7
    ensures Step(PEERS, SESSIONS, PeersAt(k), BookAt(k), EVENTS[k], PeersAt(k + 1), BookAt(k + 1))
  {
    hide Next, R.After, Requeued, R.GoneIds, Sweep.SweptRecords;
    OpensAndConnects();
    Registrations();
    AdmissionDrops();
    SweepNamesNobody(PeersAt(6));
  }

  /** A full registry drops a silent peer to admit another, and the sweep that follows
      names nobody: the session the dropped peer is in is still connected after both. */
  lemma StillConnected() returns (ms: seq<R.Peers>, books: seq<Book>)
    ensures Run(PEERS, SESSIONS, ms, books, EVENTS)
    ensures EVENTS[5].request.Register? && "a" in ms[5] && "a" !in ms[6]
    ensures EVENTS[6].request == R.Expire && R.GoneIds(PEERS, ms[6], EVENTS[6].at) == {}
    ensures books[5] == books[6] == books[7]
    ensures var m := books[7].sessions; "x" in m && m["x"].Has("a") && m["x"].state == Connected
  {
    hide Step;
    ms, books := seq(8, k => PeersAt(k)), seq(8, k => BookAt(k));
    forall i | 0 <= i < |EVENTS|
      ensures Step(PEERS, SESSIONS, ms[i], books[i], EVENTS[i], ms[i + 1], books[i + 1])
    {
      StepAt(i);
    }
    SweepNamesNobody(PeersAt(6));
  }

  lemma SweepNamesNobody(m: R.Peers)
    requires m == map["b" := R.Record(0, 3), "c" := R.Record(4, 4)]
    ensures R.GoneIds(PEERS, m, 5) == {} && R.After(PEERS, m, R.Expire, 5) == m
    ensures SweptInto(PEERS, SESSIONS, m, TALKING, R.Expire, 5, TALKING)
  {
    assert R.GoneIds(PEERS, m, 5) == {};
    assert Sweep.SweptRecords(SESSIONS, TALKING.sessions, {}, 5) == TALKING.sessions;
    assert DeadIds(TALKING.sessions) == {};
  }
}
