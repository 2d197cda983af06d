/** What the store's redundant structures must say, and how each one follows a
    session that ends, is forgotten, moves, or is opened. */
module SessionIndexes {
  import opened Sessions

  type Rows = map<string, set<string>>

  /** A peer's row; reading a missing row gives an empty one. */
  function Row(rows: Rows, peer: string): set<string> {
    if peer in rows then rows[peer] else {}
  }

  function Tracked(rows: Rows, peer: string, id: string): Rows {
    rows[peer := Row(rows, peer) + {id}]
  }

  function Untracked(rows: Rows, peer: string, id: string): Rows {
    if Row(rows, peer) - {id} == {} then rows - {peer} else rows[peer := Row(rows, peer) - {id}]
  }

  /** `pairs` maps exactly each live session's key to its identifier. */
  ghost predicate PairsAgree(m: Records, pairs: map<string, string>) {
    && (forall id :: id in LiveIds(m) ==> m[id].Key() in pairs && pairs[m[id].Key()] == id)
    && (forall k :: k in pairs ==> pairs[k] in LiveIds(m) && m[pairs[k]].Key() == k)
  }

  /** Every row is the live sessions of its peer, and no row is empty. */
  ghost predicate RowsAgree(m: Records, rows: Rows) {
    && (forall p :: Row(rows, p) == PeerIds(m, p))
    && (forall p :: p in rows ==> rows[p] != {})
  }

  /** The indexes are what a scan of the records would give. */
  ghost predicate IndexesAgree(m: Records, pairs: map<string, string>, live: int, rows: Rows) {
    PairsAgree(m, pairs) && live == |LiveIds(m)| && RowsAgree(m, rows)
  }

  lemma RowIs(m: Records, pairs: map<string, string>, live: int, rows: Rows, peer: string)
    requires IndexesAgree(m, pairs, live, rows)
    ensures Row(rows, peer) == PeerIds(m, peer) <= m.Keys
  {
  }

  /** An identifier is found under a key exactly when a scan finds it there. */
  lemma PairLookup(m: Records, pairs: map<string, string>, key: string)
    requires PairsAgree(m, pairs)
    ensures PairIds(m, key) == if key in pairs then {pairs[key]} else {}
  {
  }

  /** Settling what a pair's entry points at is settling whatever the pair has. */
  lemma PairSettles(cfg: Config, m: Records, pairs: map<string, string>, key: string, now: int)
    requires Keyed(m) && PairsAgree(m, pairs)
    ensures key !in pairs ==> PairIds(m, key) == {} && SettlePair(cfg, m, key, now) == m
    ensures key in pairs ==>
      && pairs[key] in m && m[pairs[key]].id == pairs[key] && PairIds(m, key) == {pairs[key]}
      && SettleOne(cfg, m[pairs[key]], now).id == pairs[key]
      && SettlePair(cfg, m, key, now) == m[pairs[key] := SettleOne(cfg, m[pairs[key]], now)]
      && PairIds(SettlePair(cfg, m, key, now), key)
         == if SettleOne(cfg, m[pairs[key]], now).Live() then {pairs[key]} else {}
  {
    PairLookup(m, pairs, key);
  }

  /** What a session's end does to the scans. */
  lemma EndedSets(m: Records, s: Session)
    requires s.id in m && m[s.id].Live() && !s.Live() && s.SameCall(m[s.id])
    ensures LiveIds(m[s.id := s]) == LiveIds(m) - {s.id}
    ensures DeadIds(m[s.id := s]) == DeadIds(m) + {s.id}
    ensures forall p :: PeerIds(m[s.id := s], p) == PeerIds(m, p) - {s.id}
  {
  }

  lemma EndedPairs(m: Records, s: Session, pairs: map<string, string>)
    requires s.id in m && m[s.id].Live() && !s.Live() && s.SameCall(m[s.id])
    requires PairsAgree(m, pairs)
    ensures PairsAgree(m[s.id := s], pairs - {s.Key()})
  {
  }

  lemma EndedRows(m: Records, s: Session, rows: Rows)
    requires s.id in m && m[s.id].Live() && !s.Live() && s.SameCall(m[s.id])
    requires RowsAgree(m, rows)
    ensures RowsAgree(m[s.id := s], Untracked(Untracked(rows, s.caller, s.id), s.callee, s.id))
  {
    var rows1 := Untracked(rows, s.caller, s.id);
    var rows2 := Untracked(rows1, s.callee, s.id);
    EndedSets(m, s);
    forall p ensures Row(rows2, p) == PeerIds(m[s.id := s], p) {
      assert Row(rows, p) == PeerIds(m, p);
      assert PeerIds(m[s.id := s], p) == PeerIds(m, p) - {s.id};
      assert Row(rows1, p) == if p == s.caller then Row(rows, p) - {s.id} else Row(rows, p);
      assert Row(rows2, p) == if p == s.callee then Row(rows1, p) - {s.id} else Row(rows1, p);
      if p != s.caller && p != s.callee { assert s.id !in PeerIds(m, p); }
    }
  }

  /** The indexes follow a session that ends. */
  lemma EndedIndexes(m: Records, s: Session, pairs: map<string, string>, live: int, rows: Rows)
    requires s.id in m && m[s.id].Live() && !s.Live() && s.SameCall(m[s.id])
    requires IndexesAgree(m, pairs, live, rows)
    ensures IndexesAgree(m[s.id := s], pairs - {s.Key()}, live - 1,
                         Untracked(Untracked(rows, s.caller, s.id), s.callee, s.id))
  {
    EndedSets(m, s);
    EndedPairs(m, s, pairs);
    EndedRows(m, s, rows);
  }

  /** The same live sessions between the same peers: nothing for the indexes to follow. */
  lemma SameLiveIndexes(m: Records, m': Records, pairs: map<string, string>, live: int, rows: Rows)
    requires IndexesAgree(m, pairs, live, rows)
    requires LiveIds(m') == LiveIds(m)
    requires forall id :: id in LiveIds(m) ==> m'[id].SameCall(m[id])
    ensures IndexesAgree(m', pairs, live, rows)
  {
  }

  lemma OpenedPairs(m: Records, s: Session, pairs: map<string, string>)
    requires s.id !in m && s.Live() && PairsAgree(m, pairs) && PairIds(m, s.Key()) == {}
    ensures PairsAgree(m[s.id := s], pairs[s.Key() := s.id])
  {
    var m', pairs' := m[s.id := s], pairs[s.Key() := s.id];
    assert s.Key() !in pairs by { PairLookup(m, pairs, s.Key()); }
    forall id | id in LiveIds(m') ensures m'[id].Key() in pairs' && pairs'[m'[id].Key()] == id {
      if id != s.id { assert id in LiveIds(m) && m'[id] == m[id] && m[id].Key() in pairs; }
    }
    forall k | k in pairs' ensures pairs'[k] in LiveIds(m') && m'[pairs'[k]].Key() == k {
      if k != s.Key() { assert pairs[k] in LiveIds(m) && m[pairs[k]].Key() == k; }
    }
  }

  lemma OpenedRows(m: Records, s: Session, rows: Rows)
    requires s.id !in m && s.Live() && RowsAgree(m, rows)
    ensures RowsAgree(m[s.id := s], Tracked(Tracked(rows, s.caller, s.id), s.callee, s.id))
  {
    var rows2 := Tracked(Tracked(rows, s.caller, s.id), s.callee, s.id);
    forall p ensures Row(rows2, p) == PeerIds(m[s.id := s], p) {
      assert Row(rows, p) == PeerIds(m, p);
      assert PeerIds(m[s.id := s], p) == PeerIds(m, p) + if s.Has(p) then {s.id} else {};
    }
  }

  /** The indexes follow a session that is opened. */
  lemma OpenedIndexes(m: Records, s: Session, pairs: map<string, string>, live: int, rows: Rows)
    requires s.id !in m && s.Live() && PairIds(m, s.Key()) == {}
    requires IndexesAgree(m, pairs, live, rows)
    ensures IndexesAgree(m[s.id := s], pairs[s.Key() := s.id], live + 1,
                         Tracked(Tracked(rows, s.caller, s.id), s.callee, s.id))
  {
    assert LiveIds(m[s.id := s]) == LiveIds(m) + {s.id} && s.id !in LiveIds(m);
    OpenedPairs(m, s, pairs);
    OpenedRows(m, s, rows);
  }
}
