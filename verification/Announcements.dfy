/** Which endings are announced to the two peers, over whole runs: the report and delete
    handlers announce the session they ended, the sweep announces each session a
    departed peer's closing ended, and nothing else announces anything. */
module Announcements {
  import opened Base
  import opened Sessions
  import opened SessionRuns

  /** The sessions whose ending is announced when a request is served. */
  ghost function Announced(cfg: Config, b: Book, r: Request, now: int): set<string> {
    match r
    case Report(id, reporter, to, path) =>
      (match ReportOutcome(cfg, b.sessions, id, reporter, to, path, now).answer.result
       case Ok(s) => if s.Live() then {} else {s.id}
       case Err(_) => {})
    case ClosePeer(peer) => ClosedIds(cfg, b.sessions, peer, now)
    case _ => {}
  }

  /** A session that was live at `now`, timeout applied, and is not live afterwards:
      something other than the clock ended it. */
  ghost predicate EndedBy(cfg: Config, b: Book, now: int, b': Book, id: string) {
    && id in b.sessions && SettleOne(cfg, b.sessions[id], now).Live()
    && id in b'.sessions && !b'.sessions[id].Live()
  }

  /** Serving a request announces exactly the sessions it ended. */
  lemma AnnouncedIffEnded(cfg: Config, b: Book, r: Request, now: int, b': Book, id: string)
    requires cfg.Valid() && BookOk(cfg, b) && FreshFor(r, b.sessions) && Next(cfg, b, r, now, b')
    ensures id in Announced(cfg, b, r, now) <==> EndedBy(cfg, b, now, b', id)
  {
    match r
    case Open(caller, callee, allowed, newId) =>
      OpenEndsNothing(cfg, b, r, now, b', id);
    case Report(x, reporter, to, path) => ReportAnnounces(cfg, b, r, now, b', id);
    case _ =>
  }

  lemma ReportAnnounces(cfg: Config, b: Book, r: Request, now: int, b': Book, id: string)
    requires r.Report? && Keyed(b.sessions) && b'.sessions == Serve(cfg, b, r, now).records
    ensures id in Announced(cfg, b, r, now) <==> EndedBy(cfg, b, now, b', id)
  {
  }

  /** What a report answers is what it leaves, and it is announced if it is not live. */
  lemma ReportLeaves(cfg: Config, b: Book, r: Request, now: int, s: Session)
    requires r.Report? && Keyed(b.sessions) && Serve(cfg, b, r, now).answer == One(Ok(s))
    ensures s.id in Serve(cfg, b, r, now).records && Serve(cfg, b, r, now).records[s.id] == s
    ensures Announced(cfg, b, r, now) == if s.Live() then {} else {s.id}
  {
  }

  lemma ReportRefused(cfg: Config, b: Book, r: Request, now: int, e: Error)
    requires r.Report? && Serve(cfg, b, r, now).answer == One(Err(e))
    ensures Announced(cfg, b, r, now) == {}
  {
  }

  lemma OpenEndsNothing(cfg: Config, b: Book, r: Request, now: int, b': Book, id: string)
    requires r.Open? && FreshFor(r, b.sessions) && Next(cfg, b, r, now, b')
    ensures !EndedBy(cfg, b, now, b', id)
  {
    if id in b.sessions && id in b'.sessions {
      OpenSettlesOrLeaves(cfg, b, r, now, id);
    }
  }

  ghost predicate EndedAt(cfg: Config, books: seq<Book>, events: seq<Event>, i: nat, id: string)
    requires i < |events| < |books|
  {
    EndedBy(cfg, books[i], events[i].at, books[i + 1], id)
  }

  lemma EndsOnce(cfg: Config, books: seq<Book>, events: seq<Event>, i: nat, j: nat, id: string)
    requires Run(cfg, books, events) && i < j < |events|
    requires EndedAt(cfg, books, events, i, id)
    ensures !EndedAt(cfg, books, events, j, id)
  {
    hide EachServed, ClockForward, NewIdsAreNew, Next, FreshFor;
    if id in books[j].sessions {
      RunLifecycle(cfg, books, events, i + 1, j, id);
    }
  }

  /** A session that the clock failed is ended by nothing else, before or after. */
  lemma TimeoutIsNoEnding(cfg: Config, books: seq<Book>, events: seq<Event>, i: nat, k: nat, id: string)
    requires Run(cfg, books, events) && i < |events| && k < |events|
    requires id in books[i].sessions && TimedOut(cfg, books[i].sessions[id], events[i].at)
    ensures !EndedAt(cfg, books, events, k, id)
  {
    hide EachServed, ClockForward, NewIdsAreNew, Next, FreshFor;
    if k < i && id in books[k + 1].sessions {
      RunLifecycle(cfg, books, events, k + 1, i, id);
    } else if i <= k && id in books[k].sessions {
      TimedOutForGood(cfg, books, events, i, k, id, events[k].at);
    }
  }
}
