/** The peer registry as a value. What it holds is two timestamps per peer; where a peer
    stands is derived from its silence, so a record may be past the offline window and
    still be held. `Present` is what a reader sees. */
module Registry {
  import opened Base
  import opened Identifiers

  datatype State = Online | Suspect | Gone

  datatype Record = Record(registeredAt: int, lastSeen: int)

  type Peers = map<string, Record>

  datatype Peer = Peer(id: string, registeredAt: int, lastSeen: int, state: State)

  datatype Error = NoIdentifier | Full | NotRegistered

  datatype Config = Config(heartbeat: int, suspect: int, offline: int, ceiling: int) {
    predicate Valid() { 0 < heartbeat < suspect < offline && ceiling > 0 }
  }

  function StateOf(cfg: Config, r: Record, now: int): State {
    var silence := now - r.lastSeen;
    if silence > cfg.offline then Gone else if silence > cfg.suspect then Suspect else Online
  }

  ghost function GoneIds(cfg: Config, m: Peers, now: int): set<string> {
    set id | id in m && StateOf(cfg, m[id], now) == Gone
  }

  ghost function InState(cfg: Config, m: Peers, st: State, now: int): set<string> {
    set id | id in m && StateOf(cfg, m[id], now) == st
  }

  /** The records that are not past the offline window. */
  ghost function Present(cfg: Config, m: Peers, now: int): Peers {
    m - GoneIds(cfg, m, now)
  }

  function Touched(m: Peers, id: string, now: int): Record {
    Record(if id in m then m[id].registeredAt else now, now)
  }

  /** What `Register` makes room with: nothing, unless the peer is new and there is none. */
  ghost function RoomFor(cfg: Config, m: Peers, id: string, now: int): Peers {
    if id !in m && |m| >= cfg.ceiling then Present(cfg, m, now) else m
  }

  ghost predicate Refused(cfg: Config, m: Peers, id: string, now: int) {
    id !in m && |RoomFor(cfg, m, id, now)| >= cfg.ceiling
  }

  ghost function AfterRegister(cfg: Config, m: Peers, id: string, now: int): Peers {
    if id == "" then m
    else if Refused(cfg, m, id, now) then RoomFor(cfg, m, id, now)
    else RoomFor(cfg, m, id, now)[id := Touched(m, id, now)]
  }

  ghost function RegisterAnswer(cfg: Config, m: Peers, id: string, now: int): Result<Peer, Error> {
    if id == "" then Err(NoIdentifier)
    else if Refused(cfg, m, id, now) then Err(Full)
    else Ok(Peer(id, Touched(m, id, now).registeredAt, now, Online))
  }

  predicate Answering(cfg: Config, m: Peers, id: string, now: int) {
    id in m && StateOf(cfg, m[id], now) != Gone
  }

  function AfterHeartbeat(cfg: Config, m: Peers, id: string, now: int): Peers {
    if Answering(cfg, m, id, now) then m[id := Touched(m, id, now)] else m - {id}
  }

  function HeartbeatAnswer(cfg: Config, m: Peers, id: string, now: int): Result<Peer, Error> {
    if Answering(cfg, m, id, now) then Ok(Peer(id, m[id].registeredAt, now, Online)) else Err(NotRegistered)
  }

  function LookupAnswer(cfg: Config, m: Peers, id: string, now: int): Option<Peer> {
    if Answering(cfg, m, id, now)
    then Some(Peer(id, m[id].registeredAt, m[id].lastSeen, StateOf(cfg, m[id], now)))
    else None
  }

  datatype Request =
    | Register(id: string) | Heartbeat(id: string) | Deregister(id: string)
    | Lookup(id: string) | Tally | Expire

  ghost function After(cfg: Config, m: Peers, r: Request, now: int): Peers {
    match r
    case Register(id) => AfterRegister(cfg, m, TrimSpace(id), now)
    case Heartbeat(id) => AfterHeartbeat(cfg, m, id, now)
    case Deregister(id) => m - {id}
    case Lookup(_) => m
    case Tally => m
    case Expire => Present(cfg, m, now)
  }

  // --- what holds in every state -----------------------------------------------------

  lemma PresentSize(cfg: Config, m: Peers, now: int)
    ensures |Present(cfg, m, now)| <= |m|
  {
  }

  /** The registry never holds more records than its ceiling, expired ones included. */
  lemma NeverOverfull(cfg: Config, m: Peers, r: Request, now: int)
    requires cfg.Valid() && |m| <= cfg.ceiling
    ensures |After(cfg, m, r, now)| <= cfg.ceiling
  {
  }

  /** `Register` refuses a peer for want of room if and only if it is not there now and
      the peers that are there now already fill the ceiling: records nobody will hear
      from again neither keep a peer out nor let one in past the ceiling. */
  lemma RefusesExactlyWhenFull(cfg: Config, m: Peers, id: string, now: int)
    requires cfg.Valid() && |m| <= cfg.ceiling
    ensures Refused(cfg, m, id, now)
      <==> id !in Present(cfg, m, now) && |Present(cfg, m, now)| >= cfg.ceiling
  {
  }

  /** Nothing but its own deregistration removes a peer that is not past the window, and
      nothing makes it look longer silent than it was. */
  lemma PresentIsKept(cfg: Config, m: Peers, r: Request, now: int, p: string)
    requires p in Present(cfg, m, now) && r != Deregister(p)
    ensures var m' := After(cfg, m, r, now);
            p in m' && (m'[p] == m[p] || m'[p] == Record(m[p].registeredAt, now))
  {
  }
}
