/** The negotiation timeout is applied when something reads a session, and records past
    their retention go when a ticker comes round. Neither the moment of the one nor the
    rhythm of the other can be told from the answers. */
module SessionLazy {
  import opened Base
  import opened Sessions

  /** Two stores no reader at `now` can tell apart. */
  ghost predicate Agree(cfg: Config, m: Records, m': Records, now: int) {
    Settled(cfg, m, now) == Settled(cfg, m', now)
  }

  lemma SettledTwice(cfg: Config, m: Records, t: int, now: int)
    requires t <= now
    ensures Settled(cfg, Settled(cfg, m, t), now) == Settled(cfg, m, now)
  {
  }

  lemma AgreeLater(cfg: Config, m: Records, m': Records, t: int, now: int)
    requires t <= now && Agree(cfg, m, m', t)
    ensures Agree(cfg, m, m', now)
  {
  }

  lemma AgreeOn(cfg: Config, m: Records, m': Records, now: int, id: string)
    requires Agree(cfg, m, m', now)
    ensures id in m <==> id in m'
    ensures id in m ==> SettleOne(cfg, m[id], now) == SettleOne(cfg, m'[id], now)
    ensures id in m ==> m[id].SameCall(m'[id])
  {
    assert m.Keys == Settled(cfg, m, now).Keys == Settled(cfg, m', now).Keys == m'.Keys;
    if id in m {
      assert Settled(cfg, m, now)[id] == Settled(cfg, m', now)[id];
    }
  }

  /** Settling any records at all is invisible. */
  lemma TouchAgrees(cfg: Config, m: Records, ids: set<string>, t: int, now: int)
    requires t <= now
    ensures Agree(cfg, m, SettleIds(cfg, m, ids, t), now)
  {
  }

  /** The requests that read: their answers depend on the clock and the reports alone. */
  predicate Reads(r: Request) {
    r.Get? || r.Report? || r.ClosePeer?
  }

  lemma SameUpdate(cfg: Config, m: Records, m': Records, id: string, s: Session, now: int)
    requires Agree(cfg, m, m', now) && id in m
    ensures Agree(cfg, m[id := s], m'[id := s], now)
  {
    AgreeOn(cfg, m, m', now, id);
    assert Settled(cfg, m[id := s], now) == Settled(cfg, m, now)[id := SettleOne(cfg, s, now)];
    assert Settled(cfg, m'[id := s], now) == Settled(cfg, m', now)[id := SettleOne(cfg, s, now)];
  }

  lemma ShutAgrees(cfg: Config, s: Session, s': Session, peer: string, now: int)
    requires SettleOne(cfg, s, now) == SettleOne(cfg, s', now)
    ensures SettleOne(cfg, ShutOne(cfg, s, peer, now), now) == SettleOne(cfg, ShutOne(cfg, s', peer, now), now)
    ensures s.Has(peer) ==> ShutOne(cfg, s, peer, now) == ShutOne(cfg, s', peer, now)
    ensures s.Has(peer) == s'.Has(peer)
  {
  }

  lemma CloseAgrees(cfg: Config, m: Records, m': Records, peer: string, now: int)
    requires Agree(cfg, m, m', now)
    ensures CloseOutcome(cfg, m, peer, now).answer == CloseOutcome(cfg, m', peer, now).answer
    ensures Agree(cfg, CloseOutcome(cfg, m, peer, now).records, CloseOutcome(cfg, m', peer, now).records, now)
  {
    hide SettleOne, ShutOne;
    var n, n' := CloseOutcome(cfg, m, peer, now).records, CloseOutcome(cfg, m', peer, now).records;
    forall id ensures id in m <==> id in m'
      ensures id in ClosedIds(cfg, m, peer, now) <==> id in ClosedIds(cfg, m', peer, now)
      ensures id in m ==> SettleOne(cfg, n[id], now) == SettleOne(cfg, n'[id], now)
      ensures id in ClosedIds(cfg, m, peer, now) ==> ShutOne(cfg, m[id], peer, now) == ShutOne(cfg, m'[id], peer, now)
    {
      AgreeOn(cfg, m, m', now, id);
      if id in m { ShutAgrees(cfg, m[id], m'[id], peer, now); }
    }
    assert ClosedIds(cfg, m, peer, now) == ClosedIds(cfg, m', peer, now);
  }

  /** Stores that agree answer a read alike and still agree afterwards. */
  lemma ReadAgrees(cfg: Config, b: Book, b': Book, r: Request, now: int)
    requires Agree(cfg, b.sessions, b'.sessions, now) && Reads(r)
    ensures Serve(cfg, b, r, now).answer == Serve(cfg, b', r, now).answer
    ensures Agree(cfg, Serve(cfg, b, r, now).records, Serve(cfg, b', r, now).records, now)
  {
    var m, m' := b.sessions, b'.sessions;
    match r
    case Get(id, askedBy) =>
      AgreeOn(cfg, m, m', now, id);
      if id in m { SameUpdate(cfg, m, m', id, SettleOne(cfg, m[id], now), now); }
    case Report(id, reporter, to, path) =>
      AgreeOn(cfg, m, m', now, id);
      if id in m {
        var settled := SettleOne(cfg, m[id], now);
        SameUpdate(cfg, m, m', id, settled, now);
        SameUpdate(cfg, m, m', id, Moved(settled, to, path, now), now);
      }
    case ClosePeer(peer) => CloseAgrees(cfg, m, m', peer, now);
    case _ =>
  }

  /** Every read by every peer is answered alike. */
  ghost predicate ReadAlike(cfg: Config, m: Records, m': Records, now: int) {
    forall id, p :: GetOutcome(cfg, m, id, p, now).answer == GetOutcome(cfg, m', id, p, now).answer
  }

  /** Agreement is just what reading tells: two stores agree if and only if every read by
      every peer is answered alike. */
  lemma AgreeIffReadAlike(cfg: Config, m: Records, m': Records, now: int)
    ensures Agree(cfg, m, m', now) <==> ReadAlike(cfg, m, m', now)
  {
    if Agree(cfg, m, m', now) {
      forall id, p ensures GetOutcome(cfg, m, id, p, now).answer == GetOutcome(cfg, m', id, p, now).answer {
        ReadAgrees(cfg, Book(m, []), Book(m', []), Get(id, p), now);
      }
    } else {
      var id :| id in m.Keys + m'.Keys
        && (id !in m || id !in m' || SettleOne(cfg, m[id], now) != SettleOne(cfg, m'[id], now));
      var p := if id in m then m[id].caller else m'[id].caller;
      assert GetOutcome(cfg, m, id, p, now).answer != GetOutcome(cfg, m', id, p, now).answer;
    }
  }

  // --- reaping ----------------------------------------------------------------

  /** Reaping twice, at any two moments in order, is reaping once at the later one. */
  lemma ReapTwice(cfg: Config, m: Records, t: int, now: int)
    requires t <= now && cfg.Valid()
    ensures Reaped(cfg, Reaped(cfg, m, t), now) == Reaped(cfg, m, now)
  {
  }

  /** A second reap at the same moment finds nothing to do and leaves the queue as it is. */
  lemma ReapAgain(cfg: Config, b: Book, b': Book, b'': Book, now: int)
    requires cfg.Valid() && BookOk(cfg, b)
    requires Next(cfg, b, Reap, now, b') && Next(cfg, b', Reap, now, b'')
    ensures Serve(cfg, b', Reap, now).answer == Swept(0, 0)
    ensures b'' == b'
  {
    ReapTwice(cfg, b.sessions, now, now);
    assert TimedOutIds(cfg, b'.sessions, now) == {};
    assert ForgottenIds(cfg, b'.sessions, now) == {};
    forall id | id in b'.ended ensures id in b''.sessions.Keys {
      assert id in DeadIds(b'.sessions);
    }
    KeptAll(b'.ended, b''.sessions.Keys);
    EnumerationSize(b'.ended, DeadIds(b'.sessions));
    EnumerationSize(b''.ended, DeadIds(b'.sessions));
  }

  /** What a reap keeps back is exactly what it counts: records before and after differ
      by `forgotten`, and live records by `failed`. */
  lemma ReapCounts(cfg: Config, b: Book, now: int)
    requires cfg.Valid()
    ensures var out := Serve(cfg, b, Reap, now);
            && out.answer.forgotten == |b.sessions| - |out.records|
            && out.answer.failed == |LiveIds(b.sessions)| - |LiveIds(out.records)|
  {
    var m := b.sessions;
    var kept := Reaped(cfg, m, now);
    assert |m| == |kept| + |ForgottenIds(cfg, m, now)| by {
      assert kept.Keys == m.Keys - ForgottenIds(cfg, m, now);
      assert m.Keys == kept.Keys + ForgottenIds(cfg, m, now);
      assert |m| == |m.Keys| && |kept| == |kept.Keys|;
    }
    assert |LiveIds(m)| == |LiveIds(kept)| + |TimedOutIds(cfg, m, now)| by {
      LiveSplit(cfg, m, now);
    }
  }

  lemma LiveSplit(cfg: Config, m: Records, now: int)
    ensures LiveIds(m) == LiveIds(Reaped(cfg, m, now)) + TimedOutIds(cfg, m, now)
    ensures LiveIds(Reaped(cfg, m, now)) !! TimedOutIds(cfg, m, now)
  {
  }

  /** A reap hides nothing that has not passed its retention: every read it does not
      turn into "not found" gives the answer it would have given. */
  lemma ReapUnseen(cfg: Config, m: Records, id: string, askedBy: string, t: int, now: int)
    requires t <= now && cfg.Valid() && id in m && !PastRetention(cfg, SettleOne(cfg, m[id], t), t)
    ensures GetOutcome(cfg, Reaped(cfg, m, t), id, askedBy, now).answer == GetOutcome(cfg, m, id, askedBy, now).answer
  {
  }
}
