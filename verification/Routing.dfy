/** Runs of the session store and the hub together: what can ever reach a connection. */
module Routing {
  import opened Base
  import opened Sessions
  import opened SessionInvariant
  import S = Signaling
  import H = HubRuns
  import SignalingHub

  /** A request to the store, or something at the hub. */
  datatype Event = Stored(request: Request, at: int) | Carried(event: H.Event)

  /** A routed message asks the store who the other side is, and that read settles what
      it touches; the server's own messages are session notices. */
  ghost predicate Step(cfg: Config, hcfg: S.Config, b: Book, h: S.Hub, e: Event, b': Book, h': S.Hub) {
    match e
    case Stored(r, at) => FreshFor(r, b.sessions) && Next(cfg, b, r, at, b') && h' == h
    case Carried(x) =>
      && h' == H.Step(hcfg, h, x)
      && (x.Tell? ==> x.msg.kind == S.SessionState)
      && (x.Route? ==> x.other == SignalingHub.OtherOf(cfg, b.sessions, x.msg.sessionId, x.sender, x.at))
      && (if x.Route? && S.Asks(hcfg, h, x.sender, x.msg, x.at)
          then Next(cfg, b, Get(x.msg.sessionId, x.sender), x.at, b') else b' == b)
  }

  ghost predicate Run(cfg: Config, hcfg: S.Config, books: seq<Book>, hubs: seq<S.Hub>, events: seq<Event>) {
    && cfg.Valid() && |books| == |hubs| == |events| + 1
    && books[0] == Book(map[], []) && hubs[0] == S.Hub(map[], map[], {})
    && forall i :: 0 <= i < |events| ==> Step(cfg, hcfg, books[i], hubs[i], events[i], books[i + 1], hubs[i + 1])
  }

  /** A message `m` on connection `c` is the one its sender gave, unchanged but for the
      name of the connection it came in on, and `c` belongs to the other participant of
      the session it names, which was live with its timeout applied. */
  ghost predicate Rightful(cfg: Config, b: Book, h: S.Hub, e: Event, c: S.Conn, m: S.Message) {
    && e.Carried? && e.event.Route?
    && var x := e.event;
       var id := x.msg.sessionId;
       && S.Carriable(x.msg.kind)
       && m == S.Message(x.msg.kind, id, x.sender, x.msg.payload, "", "")
       && x.sender in h.conns && id in b.sessions
       && var s := b.sessions[id];
          && SettleOne(cfg, s, x.at).Live()
          && {x.sender, s.Other(x.sender)} == {s.caller, s.callee} && s.Other(x.sender) != x.sender
          && s.Other(x.sender) in h.conns && h.conns[s.Other(x.sender)].conn == c
  }

  lemma {:induction false} NoticesOnly(h: S.Hub, peers: seq<string>, msg: S.Message, broken: set<S.Conn>, c: S.Conn)
    requires !S.Carriable(msg.kind)
    ensures S.Outbox(h, c) <= S.Outbox(S.Told(h, peers, msg, broken), c)
    ensures forall k :: |S.Outbox(h, c)| <= k < |S.Outbox(S.Told(h, peers, msg, broken), c)| ==>
      !S.Carriable(S.Outbox(S.Told(h, peers, msg, broken), c)[k].kind)
  {
    if peers != [] { NoticesOnly(h, peers[..|peers| - 1], msg, broken, c); }
  }

  /** One event extends a connection's outbox, and what a peer originated in the
      extension is rightfully there. */
  lemma StepDelivers(cfg: Config, hcfg: S.Config, b: Book, h: S.Hub, e: Event, b': Book, h': S.Hub, c: S.Conn)
    requires Keyed(b.sessions) && Step(cfg, hcfg, b, h, e, b', h')
    ensures S.Outbox(h, c) <= S.Outbox(h', c)
    ensures forall k :: |S.Outbox(h, c)| <= k < |S.Outbox(h', c)| && S.Carriable(S.Outbox(h', c)[k].kind) ==>
      Rightful(cfg, b, h, e, c, S.Outbox(h', c)[k])
  {
    if e.Carried? && e.event.Route? {
      RouteDelivers(cfg, hcfg, b, h, e, c);
    } else if e.Carried? && e.event.Tell? {
      NoticesOnly(h, e.event.peers, e.event.msg, e.event.broken, c);
    }
  }

  /** One write changes no holder, and adds the message to a connection exactly when that
      is the one the peer holds and it takes it. */
  lemma SentAppends(h: S.Hub, peer: string, msg: S.Message, broken: set<S.Conn>, c: S.Conn)
    ensures S.Sent(h, peer, msg, broken).conns == h.conns
    ensures S.Outbox(S.Sent(h, peer, msg, broken), c)
         == S.Outbox(h, c) + if S.Writable(h, peer, broken) && h.conns[peer].conn == c then [msg] else []
  {
  }

  /** Counting a message moves no connection and sends nothing. */
  lemma CountedSendsNothing(hcfg: S.Config, h: S.Hub, peer: string, now: int, c: S.Conn)
    ensures var h' := S.Counted(hcfg, h, peer, now);
            && S.Outbox(h', c) == S.Outbox(h, c) && h'.conns.Keys == h.conns.Keys
            && forall p :: p in h.conns ==> h'.conns[p].conn == h.conns[p].conn
  {
  }

  /** Past the type and the allowance a connection gets nothing, a refusal, or the message
      itself if it is the other side's. */
  lemma DeliveredAppends(h: S.Hub, sender: string, msg: S.Message, other: Option<string>,
                         broken: set<S.Conn>, c: S.Conn)
    ensures var before := S.Outbox(h, c);
            var after := S.Outbox(S.Delivered(h, sender, msg, other, broken), c);
            && before <= after
            && forall k :: |before| <= k < |after| ==>
                 || after[k].kind == S.Error
                 || (after[k] == S.Stamped(msg, sender)
                     && other.Some? && other.value in h.conns && h.conns[other.value].conn == c)
  {
    hide S.Sent, S.Outbox;
    if msg.sessionId == "" || other.None? {
      SentAppends(h, sender, S.Refusal(msg.sessionId, S.CODE_NOT_IN_SESSION), broken, c);
    } else {
      var sent := S.Sent(h, other.value, S.Stamped(msg, sender), broken);
      SentAppends(h, other.value, S.Stamped(msg, sender), broken, c);
      SentAppends(sent, sender, S.Refusal(msg.sessionId, S.CODE_PEER_NOT_CONNECTED), broken, c);
    }
  }

  lemma RouteDelivers(cfg: Config, hcfg: S.Config, b: Book, h: S.Hub, e: Event, c: S.Conn)
    requires Keyed(b.sessions) && e.Carried? && e.event.Route?
    requires var x := e.event;
             x.other == SignalingHub.OtherOf(cfg, b.sessions, x.msg.sessionId, x.sender, x.at)
    ensures var h' := H.Step(hcfg, h, e.event);
            && S.Outbox(h, c) <= S.Outbox(h', c)
            && forall k :: |S.Outbox(h, c)| <= k < |S.Outbox(h', c)| && S.Carriable(S.Outbox(h', c)[k].kind) ==>
                 Rightful(cfg, b, h, e, c, S.Outbox(h', c)[k])
  {
    hide S.Sent, S.Outbox, S.Spend, S.Counted, S.Delivered, SettleOne;
    var x := e.event;
    var counted := S.Counted(hcfg, h, x.sender, x.at);
    CountedSendsNothing(hcfg, h, x.sender, x.at, c);
    SentAppends(h, x.sender, S.Refusal(x.msg.sessionId, S.CODE_UNKNOWN_TYPE), x.broken, c);
    SentAppends(counted, x.sender, S.Refusal(x.msg.sessionId, S.CODE_TOO_FAST), x.broken, c);
    DeliveredAppends(counted, x.sender, x.msg, x.other, x.broken, c);
  }

  lemma {:induction false} RunKeepsBook(cfg: Config, hcfg: S.Config, books: seq<Book>, hubs: seq<S.Hub>,
                                        events: seq<Event>, i: nat)
    requires Run(cfg, hcfg, books, hubs, events) && i < |books|
    ensures BookOk(cfg, books[i])
  {
    hide BookOk, Next, H.Step;
    if i == 0 {
      EmptyBookOk(cfg);
    } else {
      RunKeepsBook(cfg, hcfg, books, hubs, events, i - 1);
      var b, h, e, b' := books[i - 1], hubs[i - 1], events[i - 1], books[i];
      assert Step(cfg, hcfg, b, h, e, b', hubs[i]);
      if e.Stored? {
        NextKeepsBook(cfg, b, e.request, e.at, b');
      } else if b' != b {
        NextKeepsBook(cfg, b, Get(e.event.msg.sessionId, e.event.sender), e.event.at, b');
      }
    }
  }

  /** In every state of every run, every message a peer originated that any connection
      was sent got there rightfully, at some step of the run. */
  lemma {:induction false} EveryDeliveryIsRightful(cfg: Config, hcfg: S.Config, books: seq<Book>, hubs: seq<S.Hub>,
                                                   events: seq<Event>, n: nat, c: S.Conn, k: nat) returns (i: nat)
    requires Run(cfg, hcfg, books, hubs, events) && n < |hubs|
    requires k < |S.Outbox(hubs[n], c)| && S.Carriable(S.Outbox(hubs[n], c)[k].kind)
    ensures i < n && Rightful(cfg, books[i], hubs[i], events[i], c, S.Outbox(hubs[n], c)[k])
  {
    hide Rightful, BookOk, H.Step, Next, SignalingHub.OtherOf;
    var p := n - 1;
    assert Step(cfg, hcfg, books[p], hubs[p], events[p], books[n], hubs[n]);
    KeyedInRun(cfg, hcfg, books, hubs, events, p);
    StepDelivers(cfg, hcfg, books[p], hubs[p], events[p], books[n], hubs[n], c);
    if k < |S.Outbox(hubs[p], c)| {
      i := EveryDeliveryIsRightful(cfg, hcfg, books, hubs, events, p, c, k);
    } else {
      i := p;
    }
  }

  lemma KeyedInRun(cfg: Config, hcfg: S.Config, books: seq<Book>, hubs: seq<S.Hub>, events: seq<Event>, i: nat)
    requires Run(cfg, hcfg, books, hubs, events) && i < |books|
    ensures Keyed(books[i].sessions)
  {
    RunKeepsBook(cfg, hcfg, books, hubs, events, i);
  }
}
