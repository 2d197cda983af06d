/** Double counting over the per-peer rows: every live session is in exactly two of them. */
module SessionRows {
  import opened Sessions
  import opened SessionIndexes

  /** The sizes of the rows of `peers`, added up. */
  ghost function RowTotal(rows: Rows, peers: set<string>): nat
    decreases peers
  {
    if peers == {} then 0
    else
      var p :| p in peers;
      |Row(rows, p)| + RowTotal(rows, peers - {p})
  }

  /** The places in the rows of `peers` that live sessions take. */
  ghost function Places(m: Records, peers: set<string>): set<(string, string)> {
    set p, id | p in peers && id in PeerIds(m, p) :: (p, id)
  }

  lemma {:induction false} PairedSize(p: string, ids: set<string>)
    ensures |set id | id in ids :: (p, id)| == |ids|
  {
    if ids != {} {
      var x :| x in ids;
      PairedSize(p, ids - {x});
      assert (set id | id in ids :: (p, id)) == (set id | id in ids - {x} :: (p, id)) + {(p, x)};
    }
  }

  lemma PlacesOfOneMore(m: Records, peers: set<string>, p: string)
    requires p in peers
    ensures Places(m, peers) == Places(m, peers - {p}) + (set id | id in PeerIds(m, p) :: (p, id))
    ensures Places(m, peers - {p}) !! (set id | id in PeerIds(m, p) :: (p, id))
  {
  }

  lemma {:induction false} RowsCountPlaces(m: Records, rows: Rows, peers: set<string>)
    requires RowsAgree(m, rows)
    ensures RowTotal(rows, peers) == |Places(m, peers)|
    decreases peers
  {
    if peers == {} {
      assert Places(m, peers) == {};
    } else {
      hide Places;
      var p :| p in peers && RowTotal(rows, peers) == |Row(rows, p)| + RowTotal(rows, peers - {p});
      RowsCountPlaces(m, rows, peers - {p});
      PairedSize(p, PeerIds(m, p));
      assert Row(rows, p) == PeerIds(m, p);
      PlacesOfOneMore(m, peers, p);
    }
  }

  /** The two places of each session in `ids`. */
  ghost function TwoPlaces(m: Records, ids: set<string>): set<(string, string)>
    requires ids <= m.Keys
  {
    (set id | id in ids :: (m[id].caller, id)) + (set id | id in ids :: (m[id].callee, id))
  }

  lemma {:induction false} TwoEach(m: Records, ids: set<string>)
    requires Keyed(m) && ids <= m.Keys
    ensures |TwoPlaces(m, ids)| == 2 * |ids|
  {
    if ids == {} {
      assert TwoPlaces(m, ids) == {};
    } else {
      var x :| x in ids;
      TwoEach(m, ids - {x});
      assert TwoPlaces(m, ids) == TwoPlaces(m, ids - {x}) + {(m[x].caller, x), (m[x].callee, x)};
      assert TwoPlaces(m, ids - {x}) !! {(m[x].caller, x), (m[x].callee, x)};
    }
  }

  lemma PlacesAreTwoEach(m: Records, rows: Rows)
    requires RowsAgree(m, rows)
    ensures Places(m, rows.Keys) == TwoPlaces(m, LiveIds(m))
  {
    forall p, id ensures (p, id) in Places(m, rows.Keys) <==> (p, id) in TwoPlaces(m, LiveIds(m)) {
      assert Row(rows, p) == PeerIds(m, p);
      assert id in PeerIds(m, p) <==> id in LiveIds(m) && (p == m[id].caller || p == m[id].callee);
    }
  }

  /** The row sizes add up to twice the live counter. */
  lemma RowsSumToTwiceLive(m: Records, pairs: map<string, string>, live: int, rows: Rows)
    requires Keyed(m) && IndexesAgree(m, pairs, live, rows)
    ensures RowTotal(rows, rows.Keys) == 2 * live
  {
    hide PairsAgree, RowsAgree, Places, TwoPlaces, RowTotal;
    RowsCountPlaces(m, rows, rows.Keys);
    TwoEach(m, LiveIds(m));
    PlacesAreTwoEach(m, rows);
  }
}
