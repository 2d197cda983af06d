/** Every request keeps what the store relies on: records filed under their own
    identifier, one live session per pair, the ceilings, and a queue that lists the
    ended records and nothing else. */
module SessionInvariant {
  import opened Base
  import opened Identifiers
  import opened Sessions

  /** What a step leaves, apart from the queue. */
  ghost predicate RecordsOk(cfg: Config, m: Records) {
    Keyed(m) && OnePerPair(m) && Bounded(cfg, m)
  }

  lemma SettleIdsWanes(cfg: Config, m: Records, ids: set<string>, now: int)
    ensures Wanes(m, SettleIds(cfg, m, ids, now))
    ensures SettleIds(cfg, m, ids, now).Keys == m.Keys
  {
  }

  /** A dropped record that was not live takes nothing from the live sessions. */
  lemma DropWanes(m: Records, ids: set<string>)
    ensures Wanes(m, m - ids)
  {
  }

  lemma InsertSets(m: Records, s: Session)
    requires s.id !in m && s.Live()
    ensures LiveIds(m[s.id := s]) == LiveIds(m) + {s.id}
    ensures DeadIds(m[s.id := s]) == DeadIds(m)
    ensures forall p :: PeerIds(m[s.id := s], p) == PeerIds(m, p) + if s.Has(p) then {s.id} else {}
  {
  }

  lemma InsertKeepsPairs(m: Records, s: Session)
    requires OnePerPair(m) && s.id !in m && s.Live()
    requires PairIds(m, s.Key()) == {}
    ensures OnePerPair(m[s.id := s])
  {
    var m' := m[s.id := s];
    InsertSets(m, s);
    forall x | x in LiveIds(m) ensures m[x].Key() != s.Key() {
      assert x in PairIds(m, m[x].Key());
    }
    forall x, y | x in LiveIds(m') && y in LiveIds(m') && m'[x].Key() == m'[y].Key() ensures x == y {
      if x != s.id && y != s.id {
        assert m'[x] == m[x] && m'[y] == m[y] && x in LiveIds(m) && y in LiveIds(m);
      }
    }
  }

  lemma InsertSize(m: Records, s: Session)
    ensures |m[s.id := s]| <= |m| + 1
  {
  }

  lemma InsertKeepsBounds(cfg: Config, m: Records, s: Session)
    requires Bounded(cfg, m) && s.id !in m && s.Live()
    requires |LiveIds(m)| < cfg.ceiling && |m| < cfg.Bound()
    requires !Saturated(cfg, m, s.caller) && !Saturated(cfg, m, s.callee)
    ensures Bounded(cfg, m[s.id := s])
  {
    hide LiveIds, PeerIds, DeadIds;
    var m' := m[s.id := s];
    InsertSets(m, s);
    InsertSize(m, s);
    assert |LiveIds(m')| <= |LiveIds(m)| + 1;
    forall p ensures |PeerIds(m', p)| <= cfg.perPeerCap {
      assert |PeerIds(m, p)| <= cfg.perPeerCap;
      assert PeerIds(m', p) == PeerIds(m, p) + if s.Has(p) then {s.id} else {};
    }
  }

  /** Where the store is at its bound, an ended record is there to make way. */
  lemma BoundLeavesEnded(cfg: Config, b: Book)
    requires cfg.Valid() && BookOk(cfg, b) && |b.sessions| >= cfg.Bound()
    ensures b.ended != [] && b.ended[0] in DeadIds(b.sessions)
  {
    if b.ended == [] {
      assert forall id :: id in b.sessions ==> id in LiveIds(b.sessions) by {
        forall id | id in b.sessions ensures id in LiveIds(b.sessions) {
          assert id !in b.ended;
          assert id !in DeadIds(b.sessions);
        }
      }
      SubsetSize(b.sessions.Keys, LiveIds(b.sessions));
    } else {
      assert b.ended[0] in b.ended;
    }
  }

  /** The state just before the new record goes in. */
  ghost predicate Ready(cfg: Config, m: Records, caller: string, callee: string) {
    && Keyed(m) && OnePerPair(m) && Bounded(cfg, m)
    && PairIds(m, PairKey(caller, callee)) == {}
    && |LiveIds(m)| < cfg.ceiling && |m| < cfg.Bound()
    && !Saturated(cfg, m, caller) && !Saturated(cfg, m, callee)
  }

  /** Trimming removes at most one record, never a live one, and leaves room. */
  lemma TrimMakesRoom(cfg: Config, b: Book, m: Records)
    requires cfg.Valid() && BookOk(cfg, b)
    requires Wanes(b.sessions, m) && m.Keys == b.sessions.Keys
    ensures |Trimmed(cfg, m, b.ended)| < cfg.Bound()
    ensures LiveIds(Trimmed(cfg, m, b.ended)) == LiveIds(m)
    ensures |m| - 1 <= |Trimmed(cfg, m, b.ended)|
    ensures forall id :: id in Trimmed(cfg, m, b.ended) ==> id in m && Trimmed(cfg, m, b.ended)[id] == m[id]
  {
    assert |m| == |m.Keys| == |b.sessions.Keys| == |b.sessions|;
    if |m| >= cfg.Bound() {
      BoundLeavesEnded(cfg, b);
      var front := b.ended[0];
      assert front in m && !m[front].Live();
      assert Trimmed(cfg, m, b.ended).Keys == m.Keys - {front};
      assert |m.Keys - {front}| == |m.Keys| - 1;
    }
  }

  lemma PairSettled(cfg: Config, m: Records, m': Records, key: string)
    requires Wanes(m, m') && PairIds(m, key) == {}
    ensures PairIds(m', key) == {}
  {
  }

  lemma SaturationWanes(cfg: Config, m: Records, m': Records, p: string)
    requires Wanes(m, m') && !Saturated(cfg, m, p)
    ensures !Saturated(cfg, m', p)
  {
    SubsetSize(PeerIds(m', p), PeerIds(m, p));
  }

  lemma MakeRoomWanes(cfg: Config, m: Records, p: string, now: int)
    ensures Wanes(m, MakeRoom(cfg, m, p, now))
    ensures MakeRoom(cfg, m, p, now).Keys == m.Keys
  {
  }

  /** Past its checks `OpenNew` reaches a state with room for the record it inserts. */
  lemma OpenNewReady(cfg: Config, b: Book, m1: Records, caller: string, callee: string, now: int)
    requires cfg.Valid() && BookOk(cfg, b) && caller != callee
    requires Wanes(b.sessions, m1) && m1.Keys == b.sessions.Keys
    requires PairIds(m1, PairKey(caller, callee)) == {} && |LiveIds(m1)| < cfg.ceiling
    requires !Saturated(cfg, MakeRoom(cfg, m1, caller, now), caller)
    requires !Saturated(cfg, MakeRoom(cfg, MakeRoom(cfg, m1, caller, now), callee, now), callee)
    ensures Ready(cfg, Trimmed(cfg, MakeRoom(cfg, MakeRoom(cfg, m1, caller, now), callee, now), b.ended),
                  caller, callee)
  {
    var m2 := MakeRoom(cfg, m1, caller, now);
    var m3 := MakeRoom(cfg, m2, callee, now);
    var m4 := Trimmed(cfg, m3, b.ended);
    MakeRoomWanes(cfg, m1, caller, now);
    MakeRoomWanes(cfg, m2, callee, now);
    WaneTwice(b.sessions, m1, m2);
    WaneTwice(b.sessions, m2, m3);
    TrimMakesRoom(cfg, b, m3);
    assert Wanes(m3, m4);
    WaneTwice(b.sessions, m3, m4);
    WaneKeeps(cfg, b.sessions, m4);
    WaneTwice(m2, m3, m4);
    SaturationWanes(cfg, m2, m4, caller);
    SaturationWanes(cfg, m3, m4, callee);
    WaneTwice(m1, m2, m4);
    PairSettled(cfg, m1, m4, PairKey(caller, callee));
    assert LiveIds(m4) <= LiveIds(m1);
    SubsetSize(LiveIds(m4), LiveIds(m1));
  }

  lemma InsertKeeps(cfg: Config, m: Records, id: string, caller: string, callee: string, now: int)
    requires Ready(cfg, m, caller, callee) && id !in m && caller != callee
    ensures RecordsOk(cfg, m[id := Fresh(id, caller, callee, now)])
  {
    InsertKeepsPairs(m, Fresh(id, caller, callee, now));
    InsertKeepsBounds(cfg, m, Fresh(id, caller, callee, now));
  }

  lemma OpenNewKeeps(cfg: Config, b: Book, m1: Records, caller: string, callee: string,
                     newId: Option<string>, now: int)
    requires cfg.Valid() && BookOk(cfg, b) && caller != callee
    requires Wanes(b.sessions, m1) && m1.Keys == b.sessions.Keys
    requires PairIds(m1, PairKey(caller, callee)) == {} && |LiveIds(m1)| < cfg.ceiling
    requires newId.Some? ==> newId.value !in b.sessions
    ensures RecordsOk(cfg, OpenNew(cfg, m1, b.ended, caller, callee, newId, now).records)
  {
    var m2 := MakeRoom(cfg, m1, caller, now);
    var m3 := MakeRoom(cfg, m2, callee, now);
    MakeRoomWanes(cfg, m1, caller, now);
    MakeRoomWanes(cfg, m2, callee, now);
    WaneTwice(b.sessions, m1, m2);
    WaneTwice(b.sessions, m2, m3);
    WaneKeeps(cfg, b.sessions, m2);
    WaneKeeps(cfg, b.sessions, m3);
    if !Saturated(cfg, m2, caller) && !Saturated(cfg, m3, callee) {
      OpenNewReady(cfg, b, m1, caller, callee, now);
      if newId.Some? {
        InsertKeeps(cfg, Trimmed(cfg, m3, b.ended), newId.value, caller, callee, now);
      }
    }
  }

  lemma OpenKeeps(cfg: Config, b: Book, caller: string, callee: string, allowed: bool,
                  newId: Option<string>, now: int)
    requires cfg.Valid() && BookOk(cfg, b)
    requires newId.Some? ==> newId.value !in b.sessions
    ensures RecordsOk(cfg, OpenChecked(cfg, b, caller, callee, allowed, newId, now).records)
  {
    var m1 := SettlePair(cfg, b.sessions, PairKey(caller, callee), now);
    SettleIdsWanes(cfg, b.sessions, PairIds(b.sessions, PairKey(caller, callee)), now);
    WaneKeeps(cfg, b.sessions, m1);
    if caller != callee && PairIds(m1, PairKey(caller, callee)) == {} && |LiveIds(m1)| < cfg.ceiling {
      OpenNewKeeps(cfg, b, m1, caller, callee, newId, now);
    }
  }

  /** A request other than `Open` adds no record and revives none. */
  lemma OtherRequestsWane(cfg: Config, b: Book, r: Request, now: int)
    requires Keyed(b.sessions) && !r.Open?
    ensures Wanes(b.sessions, Serve(cfg, b, r, now).records)
  {
  }

  /** Every request keeps the store in order: the ceilings hold, no record is filed
      twice, no pair has two live sessions, and the queue lists exactly the ended. */
  lemma NextKeepsBook(cfg: Config, b: Book, r: Request, now: int, b': Book)
    requires cfg.Valid() && BookOk(cfg, b) && FreshFor(r, b.sessions)
    requires Next(cfg, b, r, now, b')
    ensures BookOk(cfg, b')
  {
    match r
    case Open(caller, callee, allowed, newId) =>
      OpenKeeps(cfg, b, TrimSpace(caller), TrimSpace(callee), allowed, newId, now);
    case _ =>
      OtherRequestsWane(cfg, b, r, now);
      WaneKeeps(cfg, b.sessions, b'.sessions);
  }

  lemma EmptyBookOk(cfg: Config)
    requires cfg.Valid()
    ensures BookOk(cfg, Book(map[], []))
  {
  }
}
