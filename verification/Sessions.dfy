/** The session store as one collection of records, without its indexes: what each
    request answers and which records it leaves, read off the records by scanning
    them. `SessionStore` is the indexed form that is proved to do the same. */
module Sessions {
  import opened Base
  import opened Identifiers

  datatype State = Negotiating | Connected | Failed | Closed

  datatype Path = PathUnknown | Direct | Relayed

  datatype Session = Session(
    id: string, caller: string, callee: string,
    state: State, path: Path, openedAt: int, changedAt: int)
  {
    predicate Live() { state == Negotiating || state == Connected }

    predicate Has(peer: string) { peer == caller || peer == callee }

    function Other(peer: string): string { if peer == caller then callee else caller }

    function Key(): string { PairKey(caller, callee) }

    /** The same call: everything that never changes after `Open`. */
    predicate SameCall(s: Session) {
      id == s.id && caller == s.caller && callee == s.callee && openedAt == s.openedAt
    }
  }

  type Records = map<string, Session>

  /** What `New` settles on. Times are integers in one unit. */
  datatype Config = Config(timeout: int, retention: int, ceiling: int, perPeerCap: int) {
    predicate Valid() { timeout > 0 && retention >= 0 && ceiling > 0 && perPeerCap > 0 }

    /** The most records the store holds, live and ended alike. */
    function Bound(): int { ceiling * 4 }
  }

  datatype Error =
    | NoCaller | NoCallee | ToSelf | NotAllowed | Full | TooManyForPeer | NoIdentifier
    | NotFound | BadTransition

  // --- one record -------------------------------------------------------------

  /** How far along its life a session is. */
  function Stage(st: State): nat {
    match st
    case Negotiating => 0
    case Connected => 1
    case Failed => 2
    case Closed => 2
  }

  predicate CanMove(from: State, to: State)
    ensures CanMove(from, to) <==> Stage(from) < Stage(to)
  {
    match from
    case Negotiating => to == Connected || to == Failed || to == Closed
    case Connected => to == Closed || to == Failed
    case Failed => false
    case Closed => false
  }

  predicate TimedOut(cfg: Config, s: Session, now: int) {
    s.state == Negotiating && now - s.openedAt > cfg.timeout
  }

  /** A record with the negotiation timeout applied. */
  function SettleOne(cfg: Config, s: Session, now: int): Session {
    if TimedOut(cfg, s, now) then s.(state := Failed, changedAt := s.openedAt + cfg.timeout) else s
  }

  function Moved(s: Session, to: State, path: Path, now: int): Session {
    s.(state := to, changedAt := now, path := if to == Connected then path else s.path)
  }

  /** What a peer's departure leaves of one record. */
  function ShutOne(cfg: Config, s: Session, peer: string, now: int): Session {
    var settled := SettleOne(cfg, s, now);
    if !s.Has(peer) then s
    else if settled.Live() then settled.(state := Closed, changedAt := now)
    else settled
  }

  predicate PastRetention(cfg: Config, s: Session, now: int) {
    !s.Live() && now - s.changedAt > cfg.retention
  }

  // --- scans ------------------------------------------------------------------

  ghost function LiveIds(m: Records): set<string> { set id | id in m && m[id].Live() }

  ghost function DeadIds(m: Records): set<string> { set id | id in m && !m[id].Live() }

  ghost function PeerIds(m: Records, peer: string): set<string> {
    set id | id in m && m[id].Live() && m[id].Has(peer)
  }

  ghost function PairIds(m: Records, key: string): set<string> {
    set id | id in m && m[id].Live() && m[id].Key() == key
  }

  ghost function TimedOutIds(cfg: Config, m: Records, now: int): set<string> {
    set id | id in m && TimedOut(cfg, m[id], now)
  }

  /** The timeout applied to the records in `ids` and to no other. */
  ghost function SettleIds(cfg: Config, m: Records, ids: set<string>, now: int): Records {
    map id | id in m :: if id in ids then SettleOne(cfg, m[id], now) else m[id]
  }

  /** The timeout applied to everything: what a reader at `now` would see. */
  ghost function Settled(cfg: Config, m: Records, now: int): Records {
    map id | id in m :: SettleOne(cfg, m[id], now)
  }

  // --- requests ---------------------------------------------------------------

  datatype Request =
    | Open(caller: string, callee: string, allowed: bool, newId: Option<string>)
    | Get(id: string, askedBy: string)
    | Report(id: string, reporter: string, to: State, path: Path)
    | ClosePeer(peer: string)
    | Reap

  datatype Answer =
    | One(result: Result<Session, Error>)
    | Many(closed: set<Session>)
    | Swept(failed: int, forgotten: int)

  datatype Outcome = Outcome(records: Records, answer: Answer)

  /** The store's state up to its indexes: the records, and the queue of ended ones. */
  datatype Book = Book(sessions: Records, ended: seq<string>)

  function Fresh(id: string, caller: string, callee: string, now: int): Session {
    Session(id, caller, callee, Negotiating, PathUnknown, now, now)
  }

  ghost predicate Saturated(cfg: Config, m: Records, peer: string) {
    |PeerIds(m, peer)| >= cfg.perPeerCap
  }

  /** A peer at its cap has what it holds settled; any other is left alone. */
  ghost function MakeRoom(cfg: Config, m: Records, peer: string, now: int): Records {
    if Saturated(cfg, m, peer) then SettleIds(cfg, m, PeerIds(m, peer), now) else m
  }

  /** At the bound, the record that ended first makes way. */
  ghost function Trimmed(cfg: Config, m: Records, ended: seq<string>): Records {
    if |m| >= cfg.Bound() && ended != [] then m - {ended[0]} else m
  }

  ghost function Refuse(m: Records, e: Error): Outcome { Outcome(m, One(Err(e))) }

  ghost function SettlePair(cfg: Config, m: Records, key: string, now: int): Records {
    SettleIds(cfg, m, PairIds(m, key), now)
  }

  /** `Open` once the pair has no live session and the ceiling leaves room. */
  ghost function OpenNew(cfg: Config, m: Records, ended: seq<string>,
                         caller: string, callee: string, newId: Option<string>, now: int): Outcome
  {
    var m2 := MakeRoom(cfg, m, caller, now);
    if Saturated(cfg, m2, caller) then Refuse(m2, TooManyForPeer)
    else
      var m3 := MakeRoom(cfg, m2, callee, now);
      if Saturated(cfg, m3, callee) then Refuse(m3, TooManyForPeer)
      else
        var m4 := Trimmed(cfg, m3, ended);
        match newId
        case None => Refuse(m4, NoIdentifier)
        case Some(id) =>
          Outcome(m4[id := Fresh(id, caller, callee, now)], One(Ok(Fresh(id, caller, callee, now))))
  }

  ghost function OpenOutcome(cfg: Config, b: Book, caller: string, callee: string,
                             newId: Option<string>, now: int): Outcome
  {
    var m1 := SettlePair(cfg, b.sessions, PairKey(caller, callee), now);
    var held := PairIds(m1, PairKey(caller, callee));
    if held != {} then
      var id :| id in held;
      Outcome(m1, One(Ok(m1[id])))
    else if |LiveIds(m1)| >= cfg.ceiling then Refuse(m1, Full)
    else OpenNew(cfg, m1, b.ended, caller, callee, newId, now)
  }

  ghost function OpenChecked(cfg: Config, b: Book, caller: string, callee: string,
                             allowed: bool, newId: Option<string>, now: int): Outcome
  {
    if caller == "" then Refuse(b.sessions, NoCaller)
    else if callee == "" then Refuse(b.sessions, NoCallee)
    else if caller == callee then Refuse(b.sessions, ToSelf)
    else if !allowed then Refuse(b.sessions, NotAllowed)
    else OpenOutcome(cfg, b, caller, callee, newId, now)
  }

  ghost function GetOutcome(cfg: Config, m: Records, id: string, askedBy: string, now: int): Outcome {
    if id in m && m[id].Has(askedBy) then
      Outcome(m[id := SettleOne(cfg, m[id], now)], One(Ok(SettleOne(cfg, m[id], now))))
    else Refuse(m, NotFound)
  }

  ghost function ReportOutcome(cfg: Config, m: Records, id: string, reporter: string,
                               to: State, path: Path, now: int): Outcome
  {
    if id in m && m[id].Has(reporter) then
      var settled := SettleOne(cfg, m[id], now);
      if CanMove(settled.state, to) then
        Outcome(m[id := Moved(settled, to, path, now)], One(Ok(Moved(settled, to, path, now))))
      else Refuse(m[id := settled], BadTransition)
    else Refuse(m, NotFound)
  }

  /** The sessions a peer's departure closes: live at `now` with the timeout applied. */
  ghost function ClosedIds(cfg: Config, m: Records, peer: string, now: int): set<string> {
    set id | id in m && m[id].Has(peer) && SettleOne(cfg, m[id], now).Live()
  }

  ghost function CloseOutcome(cfg: Config, m: Records, peer: string, now: int): Outcome {
    Outcome(map id | id in m :: ShutOne(cfg, m[id], peer, now),
            Many(set id | id in ClosedIds(cfg, m, peer, now) :: ShutOne(cfg, m[id], peer, now)))
  }

  ghost function ForgottenIds(cfg: Config, m: Records, now: int): set<string> {
    set id | id in m && PastRetention(cfg, SettleOne(cfg, m[id], now), now)
  }

  ghost function Reaped(cfg: Config, m: Records, now: int): Records {
    Settled(cfg, m, now) - ForgottenIds(cfg, m, now)
  }

  ghost function ReapOutcome(cfg: Config, m: Records, now: int): Outcome {
    Outcome(Reaped(cfg, m, now), Swept(|TimedOutIds(cfg, m, now)|, |ForgottenIds(cfg, m, now)|))
  }

  ghost function Serve(cfg: Config, b: Book, r: Request, now: int): Outcome {
    match r
    case Open(caller, callee, allowed, newId) =>
      OpenChecked(cfg, b, TrimSpace(caller), TrimSpace(callee), allowed, newId, now)
    case Get(id, askedBy) => GetOutcome(cfg, b.sessions, id, askedBy, now)
    case Report(id, reporter, to, path) => ReportOutcome(cfg, b.sessions, id, reporter, to, path, now)
    case ClosePeer(peer) => CloseOutcome(cfg, b.sessions, peer, now)
    case Reap => ReapOutcome(cfg, b.sessions, now)
  }

  /** The queue after a step: surviving entries first and in the order they had, then
      whatever ended during the step, in an order the source leaves open. */
  ghost predicate Requeued(ended: seq<string>, m: Records, ended': seq<string>) {
    Kept(ended, m.Keys) <= ended' && Enumerates(ended', DeadIds(m))
  }

  /** Whose turn it is when `Open` comes to settle a session: the pair's own, then what
      the caller is in, then what the callee is in. */
  function Turn(caller: string, callee: string, s: Session): nat {
    if s.Key() == PairKey(caller, callee) then 0 else if s.Has(caller) then 1 else 2
  }

  /** The sessions of `m` that were live are queued in their turn. */
  ghost predicate InTurn(caller: string, callee: string, m: Records, q: seq<string>) {
    forall i, j :: 0 <= i < j < |q| && q[i] in LiveIds(m) && q[j] in LiveIds(m) ==>
      Turn(caller, callee, m[q[i]]) <= Turn(caller, callee, m[q[j]])
  }

  /** One request served at `now`. */
  ghost predicate Next(cfg: Config, b: Book, r: Request, now: int, b': Book) {
    && b'.sessions == Serve(cfg, b, r, now).records && Requeued(b.ended, b'.sessions, b'.ended)
    && (r.Open? ==> InTurn(TrimSpace(r.caller), TrimSpace(r.callee), b.sessions, b'.ended))
  }

  // --- what every reachable state satisfies --------------------------------------

  ghost predicate Keyed(m: Records) {
    forall id :: id in m ==> m[id].id == id && m[id].caller != m[id].callee
  }

  ghost predicate OnePerPair(m: Records) {
    forall x, y :: x in LiveIds(m) && y in LiveIds(m) && m[x].Key() == m[y].Key() ==> x == y
  }

  ghost predicate Bounded(cfg: Config, m: Records) {
    && |LiveIds(m)| <= cfg.ceiling
    && |m| <= cfg.Bound()
    && forall p :: |PeerIds(m, p)| <= cfg.perPeerCap
  }

  ghost predicate BookOk(cfg: Config, b: Book) {
    Keyed(b.sessions) && OnePerPair(b.sessions) && Bounded(cfg, b.sessions) &&
    Enumerates(b.ended, DeadIds(b.sessions))
  }

  /** A request that opens a session is given an identifier the store does not hold. */
  ghost predicate FreshFor(r: Request, m: Records) {
    r.Open? && r.newId.Some? ==> r.newId.value !in m
  }

  // --- keeping it -------------------------------------------------------------

  /** Nothing was added and nothing came back to life. */
  ghost predicate Wanes(m: Records, m': Records) {
    forall id :: id in m' ==> id in m && m'[id].SameCall(m[id]) && (m'[id].Live() ==> m[id].Live())
  }

  lemma WaneKeeps(cfg: Config, m: Records, m': Records)
    requires Wanes(m, m') && Keyed(m) && OnePerPair(m) && Bounded(cfg, m)
    ensures Keyed(m') && OnePerPair(m') && Bounded(cfg, m')
  {
    assert LiveIds(m') <= LiveIds(m);
    SubsetSize(LiveIds(m'), LiveIds(m));
    SubsetSize(m'.Keys, m.Keys);
    forall p ensures |PeerIds(m', p)| <= cfg.perPeerCap {
      SubsetSize(PeerIds(m', p), PeerIds(m, p));
      assert |PeerIds(m, p)| <= cfg.perPeerCap;
    }
  }

  lemma WaneTwice(m: Records, m': Records, m'': Records)
    requires Wanes(m, m') && Wanes(m', m'')
    ensures Wanes(m, m'')
  {
  }
}
