/** The hub as it runs, proved against `Signaling`. Each peer's connection sits in a
    holder of its own whose counters are updated in place. */
module SignalingHub {
  import opened Base
  import S = Signaling
  import Sessions
  import SessionStore

  const DEFAULT_MESSAGES_PER_WINDOW := 120
  const DEFAULT_WINDOW := 60

  /** Limits left unset take their defaults; the window is in seconds. */
  function Configure(messagesPerWindow: int, window: int): (c: S.Config)
    ensures c.Valid()
    ensures messagesPerWindow > 0 ==> c.allowance == messagesPerWindow
    ensures messagesPerWindow <= 0 ==> c.allowance == 120
    ensures window > 0 ==> c.window == window
    ensures window <= 0 ==> c.window == 60
  {
    S.Config(if messagesPerWindow <= 0 then DEFAULT_MESSAGES_PER_WINDOW else messagesPerWindow,
             if window <= 0 then DEFAULT_WINDOW else window)
  }

  class Holder {
    const conn: S.Conn
    var sent: int
    var windowFrom: int

    constructor (conn: S.Conn, now: int)
      ensures Value() == S.Spent(conn, 0, now)
    {
      this.conn := conn;
      sent := 0;
      windowFrom := now;
    }

    function Value(): S.Spent reads this { S.Spent(conn, sent, windowFrom) }
  }

  /** What the hub asks the session store: the other peer of a session that is live, and
      only on behalf of a peer in it. */
  ghost function OtherOf(cfg: Sessions.Config, m: Sessions.Records, id: string, peer: string, now: int): Option<string> {
    if id in m && m[id].Has(peer) && Sessions.SettleOne(cfg, m[id], now).Live()
    then Some(m[id].Other(peer)) else None
  }

  method Other(store: SessionStore.Store, id: string, peer: string, now: int) returns (other: Option<string>)
    requires store.Valid()
    modifies store`sessions, store`live, store`perPeer, store`pairs, store`ended
    ensures store.Valid()
    ensures Sessions.Next(store.cfg, old(store.View()), Sessions.Get(id, peer), now, store.View())
    ensures other == OtherOf(store.cfg, old(store.sessions), id, peer, now)
  {
    var held := store.Get(id, peer, now);
    if held.Err? || !held.value.Live() {
      return None;
    }
    return Some(held.value.Other(peer));
  }

  class Hub {
    const cfg: S.Config
    var conns: map<string, Holder>
    /** What each connection was sent and which were closed: the far side of `Conn`. */
    var outbox: map<S.Conn, seq<S.Message>>
    var closed: set<S.Conn>

    ghost function View(): S.Hub
      reads this, conns.Values
    {
      S.Hub(map p | p in conns :: conns[p].Value(), outbox, closed)
    }

    /** No holder serves two peers. */
    ghost predicate Valid()
      reads this
    {
      cfg.Valid() && forall p, q :: p in conns && q in conns && conns[p] == conns[q] ==> p == q
    }

    constructor (cfg: S.Config)
      requires cfg.Valid()
      ensures this.cfg == cfg && Valid() && View() == S.Hub(map[], map[], {})
    {
      this.cfg := cfg;
      conns, outbox, closed := map[], map[], {};
    }

    /** Takes a peer's connection and closes the one it replaces. Telling the registry is
        the caller's next step. */
    method Register(peer: string, conn: S.Conn, now: int)
      requires Valid()
      modifies this
      ensures Valid() && View() == S.Joined(old(View()), peer, conn, now)
    {
      ghost var before, others := View(), conns;
      var held := peer in conns;
      var existing := if held then conns[peer].conn else 0;
      var holder := new Holder(conn, now);
      conns := conns[peer := holder];
      assert forall p :: p in others && p != peer ==> conns[p] == others[p] != holder;
      assert View().conns == before.conns[peer := S.Spent(conn, 0, now)];
      if held {
        closed := closed + {existing};
      }
    }

    /** Drops a peer's connection if the one given is still the one held. */
    method Deregister(peer: string, conn: S.Conn)
      requires Valid()
      modifies this
      ensures Valid() && View() == S.Left(old(View()), peer, conn)
    {
      if peer in conns && conns[peer].conn == conn {
        conns := conns - {peer};
      }
    }

    method Count() returns (n: int)
      ensures n == |View().conns|
    {
      n := |conns|;
      assert View().conns.Keys == conns.Keys;
      assert |conns| == |conns.Keys| && |View().conns| == |View().conns.Keys|;
    }

    /** Names every peer holding a channel. */
    method Peers() returns (peers: seq<string>)
      ensures Enumerates(peers, conns.Keys)
    {
      peers := [];
      var remaining := conns.Keys;
      while remaining != {}
        invariant remaining <= conns.Keys && Enumerates(peers, conns.Keys - remaining)
        decreases remaining
      {
        var peer :| peer in remaining;
        EnumerationAppend(peers, conns.Keys - remaining, peer);
        assert conns.Keys - (remaining - {peer}) == (conns.Keys - remaining) + {peer};
        peers := peers + [peer];
        remaining := remaining - {peer};
      }
      assert conns.Keys - {} == conns.Keys;
    }

    /** Counts one message against the sender's allowance. */
    method Allowed(peer: string, now: int) returns (ok: bool)
      requires Valid()
      modifies conns.Values
      ensures View() == S.Counted(cfg, old(View()), peer, now)
      ensures ok <==> S.Passes(cfg, old(View()), peer, now)
    {
      if peer !in conns {
        return false;
      }
      var held := conns[peer];
      if now - held.windowFrom > cfg.window {
        held.windowFrom := now;
        held.sent := 0;
      }
      held.sent := held.sent + 1;
      return held.sent <= cfg.allowance;
    }

    /** Writes to one peer's connection; `broken` is the connections that fail to take it. */
    method Send(peer: string, msg: S.Message, broken: set<S.Conn>) returns (ok: bool)
      modifies this`outbox, this`closed
      ensures View() == S.Sent(old(View()), peer, msg, broken)
      ensures ok <==> S.Writable(old(View()), peer, broken)
    {
      if peer !in conns {
        return false;
      }
      var conn := conns[peer].conn;
      if conn in broken {
        closed := closed + {conn};
        return false;
      }
      outbox := outbox[conn := (if conn in outbox then outbox[conn] else []) + [msg]];
      return true;
    }

    /** Carries one message from a peer to the other side of the session it names. */
    method Route(sender: string, msg: S.Message, store: SessionStore.Store, now: int, broken: set<S.Conn>)
      returns (ok: bool)
      requires Valid() && store.Valid()
      modifies this`outbox, this`closed, conns.Values
      modifies store`sessions, store`live, store`perPeer, store`pairs, store`ended
      ensures Valid() && store.Valid()
      ensures View() == S.Routed(cfg, old(View()), sender, msg,
          OtherOf(store.cfg, old(store.sessions), msg.sessionId, sender, now), now, broken)
      ensures ok <==> S.RouteSucceeds(cfg, old(View()), sender, msg,
          OtherOf(store.cfg, old(store.sessions), msg.sessionId, sender, now), now, broken)
      ensures if S.Asks(cfg, old(View()), sender, msg, now)
        then Sessions.Next(store.cfg, old(store.View()), Sessions.Get(msg.sessionId, sender), now, store.View())
        else store.View() == old(store.View())
    {
      hide Sessions.Next, OtherOf, S.Spend, S.Sent, S.Delivered;
      if !S.Carriable(msg.kind) {
        ok := Send(sender, S.Refusal(msg.sessionId, S.CODE_UNKNOWN_TYPE), broken);
        return;
      }
      var allowed := Allowed(sender, now);
      if !allowed {
        ok := Send(sender, S.Refusal(msg.sessionId, S.CODE_TOO_FAST), broken);
        return;
      }
      var other := Other(store, msg.sessionId, sender, now);
      ok := Deliver(sender, msg, other, broken);
    }

    /** Past the type and the allowance: the session's answer decides. */
    method Deliver(sender: string, msg: S.Message, other: Option<string>, broken: set<S.Conn>) returns (ok: bool)
      modifies this`outbox, this`closed
      ensures View() == S.Delivered(old(View()), sender, msg, other, broken)
      ensures ok <==>
        S.Writable(old(View()), sender, broken)
        || (msg.sessionId != "" && other.Some? && S.Writable(old(View()), other.value, broken))
    {
      if msg.sessionId == "" || other.None? {
        ok := Send(sender, S.Refusal(msg.sessionId, S.CODE_NOT_IN_SESSION), broken);
        return;
      }
      ok := Forward(sender, other.value, msg, broken);
    }

    /** Delivers to the other side, and tells the sender when that does not work. */
    method Forward(sender: string, other: string, msg: S.Message, broken: set<S.Conn>) returns (ok: bool)
      modifies this`outbox, this`closed
      ensures var sent := S.Sent(old(View()), other, S.Stamped(msg, sender), broken);
              View() == if S.Writable(old(View()), other, broken) then sent
                        else S.Sent(sent, sender, S.Refusal(msg.sessionId, S.CODE_PEER_NOT_CONNECTED), broken)
      ensures ok <==> S.Writable(old(View()), other, broken) || S.Writable(old(View()), sender, broken)
    {
      ok := Send(other, msg.(sender := sender, code := "", state := ""), broken);
      if !ok {
        ok := Send(sender, S.Refusal(msg.sessionId, S.CODE_PEER_NOT_CONNECTED), broken);
      }
    }

    /** Tells each of the peers that a session has ended. */
    method SessionEnded(sessionId: string, state: string, peers: seq<string>, broken: set<S.Conn>)
      modifies this`outbox, this`closed
      ensures View() == S.Told(old(View()), peers, S.Notice(sessionId, state), broken)
    {
      for i := 0 to |peers|
        invariant conns == old(conns)
        invariant View() == S.Told(old(View()), peers[..i], S.Notice(sessionId, state), broken)
      {
        assert peers[..i + 1][..i] == peers[..i];
        var _ := Send(peers[i], S.Notice(sessionId, state), broken);
      }
      assert peers[..|peers|] == peers;
    }
  }
}
