/** What one sweep does to the sessions: every session of every peer that went is closed
    once and announced once, in whatever order the peers come. */
module Sweep {
  import opened Base
  import opened Sessions
  import S = Signaling

  /** What the departure of all of `peers` leaves of one record. */
  function ShutAny(cfg: Config, s: Session, peers: set<string>, now: int): Session {
    var settled := SettleOne(cfg, s, now);
    if s.caller !in peers && s.callee !in peers then s
    else if settled.Live() then settled.(state := Closed, changedAt := now)
    else settled
  }

  ghost function SweptRecords(cfg: Config, m: Records, peers: set<string>, now: int): Records {
    map id | id in m :: ShutAny(cfg, m[id], peers, now)
  }

  /** The sessions live at `now` that one of the peers is in. */
  ghost function SweptIds(cfg: Config, m: Records, peers: set<string>, now: int): set<string> {
    set id | id in m && (m[id].caller in peers || m[id].callee in peers) && SettleOne(cfg, m[id], now).Live()
  }

  /** What is announced: each of them as it was closed. */
  ghost function SweptSessions(cfg: Config, m: Records, peers: set<string>, now: int): set<Session> {
    set id | id in SweptIds(cfg, m, peers, now) :: SweptRecords(cfg, m, peers, now)[id]
  }

  /** What the departure of all of `peers` leaves of the store. */
  ghost predicate SweptBook(cfg: Config, b: Book, peers: set<string>, now: int, b': Book) {
    b'.sessions == SweptRecords(cfg, b.sessions, peers, now) && Requeued(b.ended, b'.sessions, b'.ended)
  }

  lemma NobodySwept(cfg: Config, b: Book, now: int)
    requires Enumerates(b.ended, DeadIds(b.sessions))
    ensures SweptBook(cfg, b, {}, now, b)
  {
    assert SweptRecords(cfg, b.sessions, {}, now) == b.sessions;
    assert forall id :: id in b.ended ==> id in DeadIds(b.sessions);
    KeptAll(b.ended, b.sessions.Keys);
  }

  /** The queue continues across two departures as across one. */
  lemma RequeuedTwice(ended: seq<string>, m: Records, ended': seq<string>, m': Records, ended'': seq<string>)
    requires Requeued(ended, m, ended') && Requeued(ended', m', ended'') && m.Keys == m'.Keys
    ensures Requeued(ended, m', ended'')
  {
    var kept := Kept(ended, m.Keys);
    KeptElems(ended, m.Keys);
    KeptAll(kept, m.Keys);
    KeptPrefix(kept, ended', m.Keys);
  }

  lemma ShutAnyMore(cfg: Config, s: Session, done: set<string>, peer: string, now: int)
    ensures ShutOne(cfg, ShutAny(cfg, s, done, now), peer, now) == ShutAny(cfg, s, done + {peer}, now)
  {
  }

  /** One more departed peer closes what it is in and nobody before it was. */
  lemma OneMorePeer(cfg: Config, m: Records, done: set<string>, peer: string, now: int)
    requires Keyed(m)
    ensures var k := SweptRecords(cfg, m, done, now);
            && CloseOutcome(cfg, k, peer, now).records == SweptRecords(cfg, m, done + {peer}, now)
            && ClosedIds(cfg, k, peer, now) == SweptIds(cfg, m, done + {peer}, now) - SweptIds(cfg, m, done, now)
  {
    var k := SweptRecords(cfg, m, done, now);
    forall id | id in m ensures ShutOne(cfg, k[id], peer, now) == ShutAny(cfg, m[id], done + {peer}, now) {
      ShutAnyMore(cfg, m[id], done, peer, now);
    }
    forall id ensures id in ClosedIds(cfg, k, peer, now) <==>
      id in SweptIds(cfg, m, done + {peer}, now) && id !in SweptIds(cfg, m, done, now)
    {
      if id in m { ClosedMore(cfg, m[id], done, peer, now); }
    }
  }

  lemma ClosedMore(cfg: Config, s: Session, done: set<string>, peer: string, now: int)
    ensures var k := ShutAny(cfg, s, done, now);
            k.Has(peer) && SettleOne(cfg, k, now).Live() <==>
              SettleOne(cfg, s, now).Live() && s.Has(peer) && s.caller !in done && s.callee !in done
  {
  }

  /** `told` announces exactly the sessions the peers of `done` were in, each once. */
  ghost predicate ToldSoFar(cfg: Config, m: Records, done: set<string>, now: int, told: seq<Session>) {
    && NoDup(told)
    && (forall s :: s in told <==> s in SweptSessions(cfg, m, done, now))
  }

  lemma ToldMore(cfg: Config, m: Records, done: set<string>, peer: string, now: int,
                 told: seq<Session>, closed: seq<Session>)
    requires Keyed(m) && ToldSoFar(cfg, m, done, now, told) && NoDup(closed)
    requires Many(Elems(closed)) == CloseOutcome(cfg, SweptRecords(cfg, m, done, now), peer, now).answer
    ensures ToldSoFar(cfg, m, done + {peer}, now, told + closed)
  {
    var k := SweptRecords(cfg, m, done, now);
    var more := done + {peer};
    OneMorePeer(cfg, m, done, peer, now);
    forall s ensures s in closed <==>
      s.id in ClosedIds(cfg, k, peer, now) && s == SweptRecords(cfg, m, more, now)[s.id]
    {
      ClosedAre(cfg, m, done, peer, now, closed, s);
    }
    forall id | id in SweptIds(cfg, m, done, now)
      ensures id in SweptIds(cfg, m, more, now) && SweptRecords(cfg, m, more, now)[id] == k[id]
    {
    }
    forall s ensures s in told <==> s.id in SweptIds(cfg, m, done, now) && s == k[s.id] {
      SweptAre(cfg, m, done, now, s);
    }
    forall s ensures s in told + closed <==> s in SweptSessions(cfg, m, more, now) {
      SweptAre(cfg, m, more, now, s);
    }
    forall i, j | 0 <= i < |told| && 0 <= j < |closed| ensures told[i] != closed[j] {
      assert told[i] in told && closed[j] in closed;
    }
  }

  lemma SweptAre(cfg: Config, m: Records, peers: set<string>, now: int, s: Session)
    requires Keyed(m)
    ensures s in SweptSessions(cfg, m, peers, now) <==>
      s.id in SweptIds(cfg, m, peers, now) && s == SweptRecords(cfg, m, peers, now)[s.id]
  {
  }

  lemma ClosedAre(cfg: Config, m: Records, done: set<string>, peer: string, now: int, closed: seq<Session>, s: Session)
    requires Keyed(m)
    requires Many(Elems(closed)) == CloseOutcome(cfg, SweptRecords(cfg, m, done, now), peer, now).answer
    ensures s in closed <==>
      s.id in ClosedIds(cfg, SweptRecords(cfg, m, done, now), peer, now)
      && s == SweptRecords(cfg, m, done + {peer}, now)[s.id]
  {
    var k := SweptRecords(cfg, m, done, now);
    OneMorePeer(cfg, m, done, peer, now);
    assert s in closed <==> s in Elems(closed);
    forall id | id in ClosedIds(cfg, k, peer, now)
      ensures ShutOne(cfg, k[id], peer, now) == SweptRecords(cfg, m, done + {peer}, now)[id]
    {
      assert CloseOutcome(cfg, k, peer, now).records[id] == ShutOne(cfg, k[id], peer, now);
    }
  }

  /** One departed peer's turn, from what the store answered to it. */
  lemma PeerSwept(cfg: Config, start: Book, done: set<string>, peer: string, now: int,
                  told: seq<Session>, b: Book, b': Book, closed: seq<Session>)
    requires Keyed(start.sessions) && SweptBook(cfg, start, done, now, b)
    requires Next(cfg, b, ClosePeer(peer), now, b')
    requires NoDup(closed) && Many(Elems(closed)) == CloseOutcome(cfg, b.sessions, peer, now).answer
    requires ToldSoFar(cfg, start.sessions, done, now, told)
    ensures SweptBook(cfg, start, done + {peer}, now, b')
    ensures ToldSoFar(cfg, start.sessions, done + {peer}, now, told + closed)
  {
    assert b'.sessions.Keys == b.sessions.Keys;
    hide SweptRecords, ToldSoFar, Requeued, CloseOutcome, ClosedIds, SweptIds, NoDup, Keyed;
    OneMorePeer(cfg, start.sessions, done, peer, now);
    ToldMore(cfg, start.sessions, done, peer, now, told, closed);
    RequeuedTwice(start.ended, b.sessions, b.ended, b'.sessions, b'.ended);
  }

  /** However many peers of a session went and in whatever order they come, the sweep
      leaves every session as the departure of its first peer does. */
  lemma OrderDoesNotMatter(cfg: Config, s: Session, p: string, q: string, now: int)
    ensures ShutOne(cfg, ShutOne(cfg, s, p, now), q, now) == ShutOne(cfg, ShutOne(cfg, s, q, now), p, now)
    ensures ShutOne(cfg, ShutOne(cfg, s, p, now), q, now) == ShutAny(cfg, s, {p, q}, now)
  {
  }

  // --- telling the peers ----------------------------------------------------------------

  function StateName(st: State): string {
    match st
    case Negotiating => "negotiating"
    case Connected => "connected"
    case Failed => "failed"
    case Closed => "closed"
  }

  /** The hub after both peers of each session in `told` were sent its end. */
  function Notified(h: S.Hub, told: seq<Session>, broken: set<S.Conn>): S.Hub {
    if told == [] then h
    else
      var s := told[|told| - 1];
      S.Told(Notified(h, told[..|told| - 1], broken), [s.caller, s.callee],
             S.Notice(s.id, StateName(s.state)), broken)
  }

  lemma {:induction false} NotifiedConcat(h: S.Hub, told: seq<Session>, more: seq<Session>, broken: set<S.Conn>)
    ensures Notified(h, told + more, broken) == Notified(Notified(h, told, broken), more, broken)
  {
    if more == [] {
      assert told + more == told;
    } else {
      var n := |more| - 1;
      assert (told + more)[..|told + more| - 1] == told + more[..n];
      NotifiedConcat(h, told, more[..n], broken);
    }
  }
}
