/** What each connection is sent, said of the outboxes alone: a message that may be carried
    arrives, and one that may not is answered with the reason. */
module Deliveries {
  import opened Base
  import opened Sessions
  import S = Signaling
  import R = Routing
  import SignalingHub

  /** One message was sent on `c`, and nothing on any other connection. */
  ghost predicate SentOn(h: S.Hub, h': S.Hub, c: S.Conn, m: S.Message) {
    && S.Outbox(h', c) == S.Outbox(h, c) + [m]
    && forall d :: d != c ==> S.Outbox(h', d) == S.Outbox(h, d)
  }

  /** The sender holds a channel, and this message is within its allowance: of the window it
      is counted in, or of one that restarts because that has passed. */
  predicate WithinAllowance(hcfg: S.Config, h: S.Hub, sender: string, now: int) {
    && sender in h.conns
    && (if now - h.conns[sender].windowFrom > hcfg.window then 1 else h.conns[sender].sent + 1) <= hcfg.allowance
  }

  /** The peer holds a connection that takes a write. */
  predicate Reachable(h: S.Hub, peer: string, broken: set<S.Conn>) {
    peer in h.conns && h.conns[peer].conn !in broken
  }

  /** Why a message is not carried, by the code the sender is answered with: what it is,
      then how often it comes, then the session it names, then whether the other side can
      be written to. */
  function WhyNot(hcfg: S.Config, h: S.Hub, sender: string, msg: S.Message, other: Option<string>,
                  now: int, broken: set<S.Conn>): Option<string>
  {
    if msg.kind != S.Offer && msg.kind != S.Answer && msg.kind != S.Candidate && msg.kind != S.Bye
    then Some("unknown_type")
    else if !WithinAllowance(hcfg, h, sender, now) then Some("too_many_messages")
    else if msg.sessionId == "" || other == None then Some("not_in_session")
    else if !Reachable(h, other.value, broken) then Some("peer_not_connected")
    else None
  }

  lemma SentIs(h: S.Hub, peer: string, msg: S.Message, broken: set<S.Conn>)
    ensures Reachable(h, peer, broken) ==> SentOn(h, S.Sent(h, peer, msg, broken), h.conns[peer].conn, msg)
    ensures !Reachable(h, peer, broken) ==> forall c :: S.Outbox(S.Sent(h, peer, msg, broken), c) == S.Outbox(h, c)
    ensures S.Sent(h, peer, msg, broken).conns == h.conns
  {
  }

  lemma CountedIs(hcfg: S.Config, h: S.Hub, peer: string, now: int)
    ensures var h' := S.Counted(hcfg, h, peer, now);
            && h'.outbox == h.outbox && h'.conns.Keys == h.conns.Keys
            && (forall p :: p in h.conns ==> h'.conns[p].conn == h.conns[p].conn)
            && (S.Passes(hcfg, h, peer, now) <==> WithinAllowance(hcfg, h, peer, now))
  {
  }

  /** What routing does to the hub besides: a message of a kind that is carried counts in its
      sender's window, or in a new one if that has passed, and nothing else changes; and of
      the connections it writes to, those that do not take it are closed. */
  lemma RoutingCounts(hcfg: S.Config, h: S.Hub, sender: string, msg: S.Message, other: Option<string>,
                      now: int, broken: set<S.Conn>)
    ensures var h' := S.Routed(hcfg, h, sender, msg, other, now, broken);
            && h'.conns ==
                 (if sender in h.conns && (msg.kind == S.Offer || msg.kind == S.Answer || msg.kind == S.Candidate || msg.kind == S.Bye)
                  then h.conns[sender := var held := h.conns[sender];
                                         if now - held.windowFrom > hcfg.window then S.Spent(held.conn, 1, now)
                                         else S.Spent(held.conn, held.sent + 1, held.windowFrom)]
                  else h.conns)
            && h.closed <= h'.closed <= h.closed + broken
  {
    hide S.Outbox;
  }

  /** A failed write closes the connection, and only that does. */
  lemma FailedWriteCloses(h: S.Hub, peer: string, msg: S.Message, broken: set<S.Conn>)
    ensures S.Sent(h, peer, msg, broken).closed
         == h.closed + if peer in h.conns && h.conns[peer].conn in broken then {h.conns[peer].conn} else {}
  {
  }

  /** A message nothing speaks against is written to the other side, unchanged but for being
      named by the connection it came in on, and nobody else is sent anything. */
  lemma CarriedArrives(hcfg: S.Config, h: S.Hub, sender: string, msg: S.Message, other: Option<string>,
                       now: int, broken: set<S.Conn>)
    requires WhyNot(hcfg, h, sender, msg, other, now, broken) == None
    ensures SentOn(h, S.Routed(hcfg, h, sender, msg, other, now, broken), h.conns[other.value].conn,
                   S.Message(msg.kind, msg.sessionId, sender, msg.payload, "", ""))
    ensures S.RouteSucceeds(hcfg, h, sender, msg, other, now, broken)
  {
    hide S.Sent, S.Counted, S.Passes, WithinAllowance;
    var counted := S.Counted(hcfg, h, sender, now);
    CountedIs(hcfg, h, sender, now);
    SentIs(counted, other.value, S.Stamped(msg, sender), broken);
  }

  /** Any other is answered to the sender, if it can be written to, by exactly one error
      naming the session and the reason, and nobody else is sent anything. */
  lemma RefusedIsAnswered(hcfg: S.Config, h: S.Hub, sender: string, msg: S.Message, other: Option<string>,
                          now: int, broken: set<S.Conn>)
    requires WhyNot(hcfg, h, sender, msg, other, now, broken).Some?
    ensures var h' := S.Routed(hcfg, h, sender, msg, other, now, broken);
            var code := WhyNot(hcfg, h, sender, msg, other, now, broken).value;
            if Reachable(h, sender, broken)
            then SentOn(h, h', h.conns[sender].conn, S.Message(S.Error, msg.sessionId, "", "", code, ""))
            else forall c :: S.Outbox(h', c) == S.Outbox(h, c)
    ensures S.RouteSucceeds(hcfg, h, sender, msg, other, now, broken) <==> Reachable(h, sender, broken)
  {
    hide S.Sent, S.Counted, S.Passes, WithinAllowance;
    var counted := S.Counted(hcfg, h, sender, now);
    var code := WhyNot(hcfg, h, sender, msg, other, now, broken).value;
    CountedIs(hcfg, h, sender, now);
    SentIs(h, sender, S.Refusal(msg.sessionId, code), broken);
    SentIs(counted, sender, S.Refusal(msg.sessionId, code), broken);
    if other.Some? {
      var sent := S.Sent(counted, other.value, S.Stamped(msg, sender), broken);
      SentIs(counted, other.value, S.Stamped(msg, sender), broken);
      SentIs(sent, sender, S.Refusal(msg.sessionId, code), broken);
    }
  }

  // --- over runs of the store and the hub ---------------------------------------------

  /** The session is live at `now`, its timeout applied, and these are its two peers. */
  predicate Between(cfg: Config, s: Session, p: string, q: string, now: int) {
    && (s.state == Connected || (s.state == Negotiating && now <= s.openedAt + cfg.timeout))
    && ((p == s.caller && q == s.callee) || (p == s.callee && q == s.caller))
  }

  /** The other side of a session is found exactly by a peer in it, while it is live. */
  lemma OtherIs(cfg: Config, m: Records, id: string, p: string, q: string, now: int)
    requires Keyed(m)
    ensures SignalingHub.OtherOf(cfg, m, id, p, now) == Some(q) <==> id in m && Between(cfg, m[id], p, q, now)
  {
  }

  /** Within an outbox what was sent stays where it was. */
  lemma {:induction false} OutboxGrows(cfg: Config, hcfg: S.Config, books: seq<Book>, hubs: seq<S.Hub>,
                                       events: seq<R.Event>, i: nat, n: nat, c: S.Conn)
    requires R.Run(cfg, hcfg, books, hubs, events) && i <= n < |hubs|
    ensures S.Outbox(hubs[i], c) <= S.Outbox(hubs[n], c)
    decreases n - i
  {
    hide R.Step, S.Outbox, Keyed;
    if i < n {
      var k := n - 1;
      OutboxGrows(cfg, hcfg, books, hubs, events, i, k, c);
      R.KeyedInRun(cfg, hcfg, books, hubs, events, k);
      assert R.Step(cfg, hcfg, books[k], hubs[k], events[k], books[n], hubs[n]);
      R.StepDelivers(cfg, hcfg, books[k], hubs[k], events[k], books[n], hubs[n], c);
    }
  }

  /** In every run: a peer of a live session, within its allowance, sends an offer, answer,
      candidate or bye, and the other side holds a connection that takes it. Then and at
      every later moment that connection has been sent the message, at one place. */
  lemma EveryCarriedArrives(cfg: Config, hcfg: S.Config, books: seq<Book>, hubs: seq<S.Hub>,
                            events: seq<R.Event>, i: nat, n: nat, q: string)
    requires R.Run(cfg, hcfg, books, hubs, events) && i < n < |hubs|
    requires events[i].Carried? && events[i].event.Route?
    requires var x := events[i].event;
             && x.msg.kind in {S.Offer, S.Answer, S.Candidate, S.Bye}
             && WithinAllowance(hcfg, hubs[i], x.sender, x.at)
             && x.msg.sessionId != "" && x.msg.sessionId in books[i].sessions
             && Between(cfg, books[i].sessions[x.msg.sessionId], x.sender, q, x.at)
             && Reachable(hubs[i], q, x.broken)
    ensures var x := events[i].event;
            var c := hubs[i].conns[q].conn;
            var k := |S.Outbox(hubs[i], c)|;
            && k < |S.Outbox(hubs[n], c)|
            && S.Outbox(hubs[n], c)[k] == S.Message(x.msg.kind, x.msg.sessionId, x.sender, x.msg.payload, "", "")
  {
    var x := events[i].event;
    var c := hubs[i].conns[q].conn;
    R.KeyedInRun(cfg, hcfg, books, hubs, events, i);
    assert R.Step(cfg, hcfg, books[i], hubs[i], events[i], books[i + 1], hubs[i + 1]);
    OtherIs(cfg, books[i].sessions, x.msg.sessionId, x.sender, q, x.at);
    hide S.Routed, S.Outbox, WithinAllowance, SignalingHub.OtherOf, Keyed, Between;
    CarriedArrives(hcfg, hubs[i], x.sender, x.msg, x.other, x.at, x.broken);
    OutboxGrows(cfg, hcfg, books, hubs, events, i + 1, n, c);
  }
}
