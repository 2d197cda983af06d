/** What the store's loops have done part-way, and what each request leaves in the
    queue of ended sessions. */
module SessionPasses {
  import opened Base
  import opened Identifiers
  import opened Sessions
  import opened SessionInvariant

  /** A queue that only grew still lists the ended records it listed. */
  lemma QueueGrew(b: Book, m: Records, ended: seq<string>)
    requires Enumerates(b.ended, DeadIds(b.sessions)) && b.ended <= ended
    requires Enumerates(ended, DeadIds(m))
    ensures Requeued(b.ended, m, ended)
  {
    forall id | id in b.ended ensures id in m.Keys {
      assert id in ended;
    }
    KeptAll(b.ended, m.Keys);
  }

  /** Taking the front of the queue and its record together keeps the listing exact. */
  lemma DropFront(m: Records, ended: seq<string>)
    requires Enumerates(ended, DeadIds(m)) && ended != []
    ensures ended[0] in DeadIds(m)
    ensures Enumerates(ended[1..], DeadIds(m - {ended[0]}))
  {
    assert ended[0] in ended && ended == [ended[0]] + ended[1..];
    assert DeadIds(m - {ended[0]}) == DeadIds(m) - {ended[0]};
  }

  /** From position `n` on the queue lists nothing but these. */
  ghost predicate From(q: seq<string>, n: nat, ids: set<string>) {
    forall k :: n <= k < |q| ==> q[k] in ids
  }

  /** What is queued with the pair, then for the caller, then for the callee, is in turn. */
  lemma TurnsTaken(b: Book, m1: Records, m2: Records, caller: string, callee: string,
                   e1: seq<string>, e2: seq<string>, e3: seq<string>)
    requires Keyed(b.sessions) && Enumerates(b.ended, DeadIds(b.sessions)) && caller != callee
    requires b.ended <= e1 <= e2 <= e3
    requires Wanes(b.sessions, m1) && Wanes(m1, m2) && PairIds(m1, PairKey(caller, callee)) == {}
    requires From(e1, |b.ended|, PairIds(b.sessions, PairKey(caller, callee)))
    requires From(e2, |e1|, PeerIds(m1, caller)) && From(e3, |e2|, PeerIds(m2, callee))
    ensures InTurn(caller, callee, b.sessions, e3)
  {
    hide PairKey, Enumerates;
    var m := b.sessions;
    forall k | 0 <= k < |e3| && e3[k] in LiveIds(m)
      ensures |b.ended| <= k
      ensures Turn(caller, callee, m[e3[k]]) == if k < |e1| then 0 else if k < |e2| then 1 else 2
    {
      QueuedInTurn(b, m1, m2, caller, callee, e1, e2, e3, k);
    }
  }

  lemma QueuedInTurn(b: Book, m1: Records, m2: Records, caller: string, callee: string,
                     e1: seq<string>, e2: seq<string>, e3: seq<string>, k: nat)
    requires Keyed(b.sessions) && Enumerates(b.ended, DeadIds(b.sessions)) && caller != callee
    requires b.ended <= e1 <= e2 <= e3
    requires Wanes(b.sessions, m1) && Wanes(m1, m2) && PairIds(m1, PairKey(caller, callee)) == {}
    requires From(e1, |b.ended|, PairIds(b.sessions, PairKey(caller, callee)))
    requires From(e2, |e1|, PeerIds(m1, caller)) && From(e3, |e2|, PeerIds(m2, callee))
    requires k < |e3| && e3[k] in LiveIds(b.sessions)
    ensures |b.ended| <= k
    ensures Turn(caller, callee, b.sessions[e3[k]]) == if k < |e1| then 0 else if k < |e2| then 1 else 2
  {
    hide PairKey;
    var id := e3[k];
    forall i | 0 <= i < |b.ended| ensures e3[i] !in LiveIds(b.sessions) {
      assert e3[i] == b.ended[i] && b.ended[i] in b.ended;
    }
    if |e1| <= k < |e2| {
      assert id == e2[k];
      NotThePair(m1, caller, callee, id);
    } else if |e2| <= k {
      NotThePair(m1, caller, callee, id);
      if m1[id].Has(caller) { BothPeersKey(m1[id], caller, callee); }
    } else {
      assert id == e1[k];
    }
  }

  /** Where the pair's own session is all that was settled, one turn was taken. */
  lemma PairsTurn(b: Book, caller: string, callee: string, e1: seq<string>)
    requires Enumerates(b.ended, DeadIds(b.sessions)) && b.ended <= e1
    requires From(e1, |b.ended|, PairIds(b.sessions, PairKey(caller, callee)))
    ensures InTurn(caller, callee, b.sessions, e1)
  {
    hide PairKey;
    forall i | 0 <= i < |b.ended| ensures e1[i] !in LiveIds(b.sessions) {
      assert e1[i] == b.ended[i] && b.ended[i] in b.ended;
    }
  }

  lemma NoneFrom(q: seq<string>, ids: set<string>)
    ensures From(q, |q|, ids)
  {
  }

  lemma TurnsTrimmed(caller: string, callee: string, m: Records, q: seq<string>)
    requires InTurn(caller, callee, m, q) && q != []
    ensures InTurn(caller, callee, m, q[1..])
  {
    hide Turn;
    var rest := q[1..];
    forall i, j | 0 <= i < j < |rest| && rest[i] in LiveIds(m) && rest[j] in LiveIds(m)
      ensures Turn(caller, callee, m[rest[i]]) <= Turn(caller, callee, m[rest[j]])
    {
      assert rest[i] == q[i + 1] && rest[j] == q[j + 1];
    }
  }

  /** Nothing live is queued yet. */
  lemma NoTurnsYet(caller: string, callee: string, b: Book)
    requires Enumerates(b.ended, DeadIds(b.sessions))
    ensures InTurn(caller, callee, b.sessions, b.ended)
  {
    assert forall i :: 0 <= i < |b.ended| ==> b.ended[i] in b.ended;
  }

  lemma NotThePair(m: Records, caller: string, callee: string, id: string)
    requires PairIds(m, PairKey(caller, callee)) == {} && id in LiveIds(m)
    ensures m[id].Key() != PairKey(caller, callee)
  {
    assert id !in PairIds(m, PairKey(caller, callee));
  }

  lemma BothPeersKey(s: Session, caller: string, callee: string)
    requires s.caller != s.callee && s.Has(caller) && s.Has(callee) && caller != callee
    ensures s.Key() == PairKey(caller, callee)
  {
    PairKeySymmetric(caller, callee);
  }

  lemma SettleNone(cfg: Config, m: Records, now: int)
    ensures SettleIds(cfg, m, {}, now) == m
  {
  }

  lemma SettleMore(cfg: Config, m: Records, done: set<string>, id: string, now: int)
    requires id in m && id !in done
    ensures SettleIds(cfg, m, done + {id}, now) == SettleIds(cfg, m, done, now)[id := SettleOne(cfg, m[id], now)]
  {
  }

  /** Whatever was settled on the way, the front of the queue is the one it was. */
  lemma TrimmedFront(cfg: Config, b: Book, m: Records, ended: seq<string>)
    requires cfg.Valid() && BookOk(cfg, b) && m.Keys == b.sessions.Keys && b.ended <= ended
    ensures Trimmed(cfg, m, ended) == Trimmed(cfg, m, b.ended)
    ensures |m| >= cfg.Bound() ==> b.ended != []
  {
    assert |m| == |m.Keys| == |b.sessions.Keys| == |b.sessions|;
    if |m| >= cfg.Bound() { BoundLeavesEnded(cfg, b); }
  }

  /** Dropping the front record drops the front of the queue and nothing behind it. */
  lemma QueueFrontDropped(b: Book, keys: set<string>)
    requires Enumerates(b.ended, DeadIds(b.sessions)) && b.ended != []
    requires keys == b.sessions.Keys - {b.ended[0]}
    ensures Kept(b.ended, keys) == b.ended[1..]
  {
    var e := b.ended;
    assert e == [e[0]] + e[1..];
    KeptConcat([e[0]], e[1..], keys);
    assert [e[0]][..0] == [];
    forall id | id in e[1..] ensures id in keys {
      assert id in e && id in DeadIds(b.sessions) && id != e[0];
    }
    KeptAll(e[1..], keys);
  }

  lemma QueueTrimmed(cfg: Config, b: Book, m: Records, ended: seq<string>, m': Records, ended': seq<string>)
    requires BookOk(cfg, b) && m.Keys == b.sessions.Keys && b.ended <= ended
    requires |m| >= cfg.Bound() ==> b.ended != []
    requires m' == Trimmed(cfg, m, b.ended)
    requires ended' == if |m| >= cfg.Bound() then ended[1..] else ended
    requires Enumerates(ended', DeadIds(m'))
    ensures Requeued(b.ended, m', ended')
  {
    if |m| >= cfg.Bound() {
      QueueFrontDropped(b, m'.Keys);
    } else {
      QueueGrew(b, m', ended');
    }
  }

  lemma QueueInserted(was: seq<string>, m: Records, s: Session, ended: seq<string>)
    requires Requeued(was, m, ended) && s.id !in m && s.Live() && s.id !in was
    ensures Requeued(was, m[s.id := s], ended)
  {
    InsertSets(m, s);
    KeptAgree(was, m.Keys, m[s.id := s].Keys);
  }

  /** A pass over the map that has shut the records in `ids` and not yet the others. */
  ghost function ShutSome(cfg: Config, m: Records, ids: set<string>, peer: string, now: int): Records {
    map id | id in m :: if id in ids then ShutOne(cfg, m[id], peer, now) else m[id]
  }

  ghost function ShutOf(cfg: Config, m: Records, ids: set<string>, peer: string, now: int): set<Session>
    requires ids <= m.Keys
  {
    set id | id in ids :: ShutOne(cfg, m[id], peer, now)
  }

  lemma ShutNone(cfg: Config, m: Records, peer: string, now: int)
    ensures ShutSome(cfg, m, m.Keys - m.Keys, peer, now) == m
    ensures ClosedIds(cfg, m, peer, now) - m.Keys == {}
  {
  }

  /** Every request but `Open` and `Reap` keeps all records, so its queue only grows. */
  lemma Served(cfg: Config, b: Book, r: Request, now: int, b': Book)
    requires cfg.Valid() && BookOk(cfg, b) && !r.Open?
    requires b'.sessions == Serve(cfg, b, r, now).records
    requires b.ended <= b'.ended && Enumerates(b'.ended, DeadIds(b'.sessions))
    ensures BookOk(cfg, b') && Next(cfg, b, r, now, b')
  {
    QueueGrew(b, b'.sessions, b'.ended);
    NextKeepsBook(cfg, b, r, now, b');
  }

  /** One more record of the pass, whichever comes next. */
  lemma ShutMore(cfg: Config, m: Records, remaining: set<string>, id: string, peer: string, now: int)
    requires remaining <= m.Keys && id in remaining
    ensures ShutSome(cfg, m, m.Keys - (remaining - {id}), peer, now)
         == ShutSome(cfg, m, m.Keys - remaining, peer, now)[id := ShutOne(cfg, m[id], peer, now)]
    ensures ShutSome(cfg, m, m.Keys - remaining, peer, now)[id] == m[id]
    ensures ClosedIds(cfg, m, peer, now) - (remaining - {id})
         == (ClosedIds(cfg, m, peer, now) - remaining) + if id in ClosedIds(cfg, m, peer, now) then {id} else {}
  {
  }

  /** `closed` is what shutting the records of `order` gave, one for one. */
  ghost predicate ShutInOrder(cfg: Config, m: Records, order: seq<string>, peer: string, now: int,
                              closed: seq<Session>)
  {
    |closed| == |order| &&
    forall i :: 0 <= i < |order| ==> order[i] in m && closed[i] == ShutOne(cfg, m[order[i]], peer, now)
  }

  lemma ShutOneMore(cfg: Config, m: Records, order: seq<string>, peer: string, now: int,
                    closed: seq<Session>, id: string)
    requires ShutInOrder(cfg, m, order, peer, now, closed) && id in m
    ensures ShutInOrder(cfg, m, order + [id], peer, now, closed + [ShutOne(cfg, m[id], peer, now)])
  {
  }

  lemma ShutList(cfg: Config, m: Records, ids: set<string>, order: seq<string>, peer: string, now: int,
                 closed: seq<Session>)
    requires Keyed(m) && ids <= m.Keys && Enumerates(order, ids)
    requires ShutInOrder(cfg, m, order, peer, now, closed)
    ensures NoDup(closed) && Elems(closed) == ShutOf(cfg, m, ids, peer, now)
  {
  }

  /** A reaping pass that has taken the records in `done` and not yet the others. */
  ghost function ReapedSome(cfg: Config, m: Records, done: set<string>, now: int): Records {
    SettleIds(cfg, m, done, now) - ForgottenIds(cfg, m, now) * done
  }

  /** What the queue lists in the middle of the pass, forgotten records included. */
  ghost function ReapedDead(cfg: Config, m: Records, done: set<string>, now: int): set<string> {
    DeadIds(SettleIds(cfg, m, done, now))
  }

  lemma ReapNone(cfg: Config, m: Records, now: int)
    ensures ReapedSome(cfg, m, m.Keys - m.Keys, now) == m
    ensures ReapedDead(cfg, m, m.Keys - m.Keys, now) == DeadIds(m)
    ensures TimedOutIds(cfg, m, now) - m.Keys == {} && ForgottenIds(cfg, m, now) - m.Keys == {}
  {
  }

  lemma ReapAll(cfg: Config, m: Records, now: int)
    ensures ReapedSome(cfg, m, m.Keys - {}, now) == Reaped(cfg, m, now)
    ensures ReapedDead(cfg, m, m.Keys - {}, now) == DeadIds(Settled(cfg, m, now))
    ensures TimedOutIds(cfg, m, now) - {} == TimedOutIds(cfg, m, now)
    ensures ForgottenIds(cfg, m, now) - {} == ForgottenIds(cfg, m, now)
  {
  }

  /** One more record of the pass, whichever comes next. */
  lemma ReapMore(cfg: Config, m: Records, remaining: set<string>, id: string, now: int)
    requires remaining <= m.Keys && id in remaining
    ensures id in ReapedSome(cfg, m, m.Keys - remaining, now)
    ensures ReapedSome(cfg, m, m.Keys - remaining, now)[id] == m[id]
    ensures id in ForgottenIds(cfg, m, now) ==>
      ReapedSome(cfg, m, m.Keys - (remaining - {id}), now) == ReapedSome(cfg, m, m.Keys - remaining, now) - {id}
    ensures id !in ForgottenIds(cfg, m, now) ==>
      ReapedSome(cfg, m, m.Keys - (remaining - {id}), now)
      == ReapedSome(cfg, m, m.Keys - remaining, now)[id := SettleOne(cfg, m[id], now)]
  {
  }

  lemma ReapMoreCounts(cfg: Config, m: Records, remaining: set<string>, id: string, now: int)
    requires remaining <= m.Keys && id in remaining
    ensures |TimedOutIds(cfg, m, now) - (remaining - {id})|
      == |TimedOutIds(cfg, m, now) - remaining| + if TimedOut(cfg, m[id], now) then 1 else 0
    ensures |ForgottenIds(cfg, m, now) - (remaining - {id})|
      == |ForgottenIds(cfg, m, now) - remaining| + if id in ForgottenIds(cfg, m, now) then 1 else 0
  {
    Grow(TimedOutIds(cfg, m, now), remaining, id);
    Grow(ForgottenIds(cfg, m, now), remaining, id);
  }

  lemma ReapMoreDead(cfg: Config, m: Records, remaining: set<string>, id: string, now: int)
    requires remaining <= m.Keys && id in remaining
    ensures ReapedDead(cfg, m, m.Keys - (remaining - {id}), now)
      == ReapedDead(cfg, m, m.Keys - remaining, now) + if TimedOut(cfg, m[id], now) then {id} else {}
    ensures TimedOut(cfg, m[id], now) ==> id !in ReapedDead(cfg, m, m.Keys - remaining, now)
  {
  }

  lemma ReapMoreListed(cfg: Config, m: Records, remaining: set<string>, id: string, now: int, ended: seq<string>)
    requires remaining <= m.Keys && id in remaining
    requires Enumerates(ended, ReapedDead(cfg, m, m.Keys - remaining, now))
    ensures Enumerates(ended + if TimedOut(cfg, m[id], now) then [id] else [],
                       ReapedDead(cfg, m, m.Keys - (remaining - {id}), now))
  {
    ReapMoreDead(cfg, m, remaining, id, now);
    if TimedOut(cfg, m[id], now) {
      EnumerationAppend(ended, ReapedDead(cfg, m, m.Keys - remaining, now), id);
    } else {
      assert ended + [] == ended;
    }
  }

  /** Compacting what the pass left gives the queue a reap is meant to leave. */
  lemma ReapQueue(cfg: Config, b: Book, now: int, grown: seq<string>)
    requires BookOk(cfg, b) && b.ended <= grown
    requires Enumerates(grown, DeadIds(Settled(cfg, b.sessions, now)))
    ensures Requeued(b.ended, Reaped(cfg, b.sessions, now), Kept(grown, Reaped(cfg, b.sessions, now).Keys))
  {
    var m := Reaped(cfg, b.sessions, now);
    KeptPrefix(b.ended, grown, m.Keys);
    KeptElems(grown, m.Keys);
    forall id ensures id in Kept(grown, m.Keys) <==> id in DeadIds(m) {
    }
  }

  /** A finished and compacted pass is a reap. */
  lemma ReapServed(cfg: Config, b: Book, now: int, grown: seq<string>)
    requires cfg.Valid() && BookOk(cfg, b) && b.ended <= grown
    requires Enumerates(grown, DeadIds(Settled(cfg, b.sessions, now)))
    ensures var m := Reaped(cfg, b.sessions, now);
            var b' := Book(m, Kept(grown, m.Keys));
            BookOk(cfg, b') && Next(cfg, b, Reap, now, b')
    ensures Serve(cfg, b, Reap, now).answer
      == Swept(|TimedOutIds(cfg, b.sessions, now)|, |ForgottenIds(cfg, b.sessions, now)|)
  {
    hide BookOk, Reaped, Requeued, Settled, DeadIds;
    var m := Reaped(cfg, b.sessions, now);
    ReapQueue(cfg, b, now, grown);
    NextKeepsBook(cfg, b, Reap, now, Book(m, Kept(grown, m.Keys)));
  }
}
