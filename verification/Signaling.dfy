/** The signaling hub as a value: which connection each peer holds, what its sender has
    spent, and what every connection has been sent. A connection is a number standing
    for its identity; whether a write to it succeeds is the environment's choice. */
module Signaling {
  import opened Base

  datatype Kind = Offer | Answer | Candidate | Bye | Error | SessionState | Unknown(name: string)

  datatype Message = Message(
    kind: Kind, sessionId: string, sender: string, payload: string, code: string, state: string)

  const CODE_NOT_IN_SESSION := "not_in_session"
  const CODE_PEER_NOT_CONNECTED := "peer_not_connected"
  const CODE_UNKNOWN_TYPE := "unknown_type"
  const CODE_TOO_FAST := "too_many_messages"

  type Conn = nat

  /** One connection and what its sender has spent. */
  datatype Spent = Spent(conn: Conn, sent: int, windowFrom: int)

  datatype Hub = Hub(conns: map<string, Spent>, outbox: map<Conn, seq<Message>>, closed: set<Conn>)

  datatype Config = Config(allowance: int, window: int) {
    predicate Valid() { allowance > 0 && window > 0 }
  }

  predicate Carriable(k: Kind) {
    k == Offer || k == Answer || k == Candidate || k == Bye
  }

  function Outbox(h: Hub, c: Conn): seq<Message> {
    if c in h.outbox then h.outbox[c] else []
  }

  function Joined(h: Hub, peer: string, conn: Conn, now: int): Hub {
    h.(conns := h.conns[peer := Spent(conn, 0, now)],
       closed := if peer in h.conns then h.closed + {h.conns[peer].conn} else h.closed)
  }

  function Left(h: Hub, peer: string, conn: Conn): Hub {
    if peer in h.conns && h.conns[peer].conn == conn then h.(conns := h.conns - {peer}) else h
  }

  /** One message counted against a window that restarts once it has passed. */
  function Spend(cfg: Config, s: Spent, now: int): Spent {
    if now - s.windowFrom > cfg.window then s.(windowFrom := now, sent := 1) else s.(sent := s.sent + 1)
  }

  function Counted(cfg: Config, h: Hub, peer: string, now: int): Hub {
    if peer in h.conns then h.(conns := h.conns[peer := Spend(cfg, h.conns[peer], now)]) else h
  }

  predicate Passes(cfg: Config, h: Hub, peer: string, now: int) {
    peer in h.conns && Spend(cfg, h.conns[peer], now).sent <= cfg.allowance
  }

  predicate Writable(h: Hub, peer: string, broken: set<Conn>) {
    peer in h.conns && h.conns[peer].conn !in broken
  }

  /** One write: appended where the connection takes it, and a connection that does not
      take it is closed. */
  function Sent(h: Hub, peer: string, msg: Message, broken: set<Conn>): Hub {
    if peer !in h.conns then h
    else
      var c := h.conns[peer].conn;
      if c in broken then h.(closed := h.closed + {c})
      else h.(outbox := h.outbox[c := Outbox(h, c) + [msg]])
  }

  function Refusal(sessionId: string, code: string): Message {
    Message(Error, sessionId, "", "", code, "")
  }

  function Notice(sessionId: string, state: string): Message {
    Message(SessionState, sessionId, "", "", "", state)
  }

  /** The message as the far side gets it: named by the connection it came in on. */
  function Stamped(msg: Message, sender: string): Message {
    msg.(sender := sender, code := "", state := "")
  }

  /** Whether a message gets as far as asking who the other side is. */
  predicate Asks(cfg: Config, h: Hub, sender: string, msg: Message, now: int) {
    Carriable(msg.kind) && Passes(cfg, h, sender, now)
  }

  /** Past the type and the allowance: to the other side, or back with what went wrong. */
  function Delivered(h: Hub, sender: string, msg: Message, other: Option<string>, broken: set<Conn>): Hub {
    if msg.sessionId == "" || other.None? then
      Sent(h, sender, Refusal(msg.sessionId, CODE_NOT_IN_SESSION), broken)
    else
      var h' := Sent(h, other.value, Stamped(msg, sender), broken);
      if Writable(h, other.value, broken) then h'
      else Sent(h', sender, Refusal(msg.sessionId, CODE_PEER_NOT_CONNECTED), broken)
  }

  /** `other` is what the session lookup answers, when it is asked. */
  function Routed(cfg: Config, h: Hub, sender: string, msg: Message, other: Option<string>,
                  now: int, broken: set<Conn>): Hub
  {
    if !Carriable(msg.kind) then Sent(h, sender, Refusal(msg.sessionId, CODE_UNKNOWN_TYPE), broken)
    else
      var h1 := Counted(cfg, h, sender, now);
      if !Passes(cfg, h, sender, now) then Sent(h1, sender, Refusal(msg.sessionId, CODE_TOO_FAST), broken)
      else Delivered(h1, sender, msg, other, broken)
  }

  /** Whether the last write of a routing succeeded, which is what the caller is told. */
  predicate RouteSucceeds(cfg: Config, h: Hub, sender: string, msg: Message, other: Option<string>,
                          now: int, broken: set<Conn>)
  {
    if Asks(cfg, h, sender, msg, now) && msg.sessionId != "" && other.Some? && Writable(h, other.value, broken)
    then true
    else Writable(h, sender, broken)
  }

  function Told(h: Hub, peers: seq<string>, msg: Message, broken: set<Conn>): Hub {
    if peers == [] then h
    else Sent(Told(h, peers[..|peers| - 1], msg, broken), peers[|peers| - 1], msg, broken)
  }
}
