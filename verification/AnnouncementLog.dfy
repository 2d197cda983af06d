/** What the server has announced, beside the requests that caused it: one entry for each
    request the store served, whoever made it, with the session ends announced for it. */
module AnnouncementLog {
  import opened Base
  import opened Sessions
  import opened SessionRuns
  import opened Announcements

  /** `books[k]` was served `events[k]`, left `books[k + 1]`, and `tells[k]` was announced. */
  datatype Log = Log(books: seq<Book>, events: seq<Event>, tells: seq<seq<Session>>)

  /** Each session the request ended, as it ended, once, and nothing else. */
  ghost predicate Tells(cfg: Config, b: Book, r: Request, now: int, b': Book, told: seq<Session>) {
    && NoDup(told)
    && (forall s :: s in told ==> s.id in Announced(cfg, b, r, now) && s.id in b'.sessions && s == b'.sessions[s.id])
    && (forall id :: id in Announced(cfg, b, r, now) ==> Mentions(told, id))
  }

  ghost predicate Mentions(told: seq<Session>, id: string) {
    exists s :: s in told && s.id == id
  }

  ghost predicate EachTold(cfg: Config, log: Log)
    requires |log.books| == |log.events| + 1 == |log.tells| + 1
  {
    forall k :: 0 <= k < |log.events| ==>
      Tells(cfg, log.books[k], log.events[k].request, log.events[k].at, log.books[k + 1], log.tells[k])
  }

  ghost predicate LogOk(cfg: Config, log: Log) {
    && |log.books| == |log.events| + 1 == |log.tells| + 1
    && EachServed(cfg, log.books, log.events) && EachTold(cfg, log)
  }

  ghost predicate EndsIn(log: Log, b: Book) {
    log.books != [] && log.books[|log.books| - 1] == b
  }

  function Extended(log: Log, r: Request, now: int, b': Book, told: seq<Session>): Log {
    Log(log.books + [b'], log.events + [Event(r, now)], log.tells + [told])
  }

  /** Everything announced, in order. */
  function Flat(tells: seq<seq<Session>>): seq<Session> {
    if tells == [] then [] else Flat(tells[..|tells| - 1]) + tells[|tells| - 1]
  }

  lemma {:induction false} FlatSplit(tells: seq<seq<Session>>, n: nat)
    requires n <= |tells|
    ensures Flat(tells) == Flat(tells[..n]) + Flat(tells[n..])
  {
    var m := |tells| - 1;
    if n <= m {
      FlatSplit(tells[..m], n);
      assert tells[..m][..n] == tells[..n] && tells[..m][n..] == tells[n..][..m - n];
    } else {
      assert tells[..n] == tells;
    }
  }

  /** One more request served and its endings announced. */
  lemma LogExtends(cfg: Config, log: Log, b: Book, r: Request, now: int, b': Book, told: seq<Session>)
    requires LogOk(cfg, log) && EndsIn(log, b)
    requires Next(cfg, b, r, now, b') && Tells(cfg, b, r, now, b', told)
    ensures var log' := Extended(log, r, now, b', told);
            LogOk(cfg, log') && EndsIn(log', b') && Flat(log'.tells) == Flat(log.tells) + told
  {
    hide Next, Tells;
    var log' := Extended(log, r, now, b', told);
    forall k | 0 <= k < |log'.events|
      ensures Next(cfg, log'.books[k], log'.events[k].request, log'.events[k].at, log'.books[k + 1])
      ensures Tells(cfg, log'.books[k], log'.events[k].request, log'.events[k].at, log'.books[k + 1], log'.tells[k])
    {
      if k < |log.events| { assert log'.books[k + 1] == log.books[k + 1]; }
    }
    assert log'.tells[..|log.tells|] == log.tells;
  }

  // --- what is told of one request --------------------------------------------------

  lemma SilentTells(cfg: Config, b: Book, r: Request, now: int, b': Book)
    requires r.Open? || r.Get? || r.Reap?
    ensures Tells(cfg, b, r, now, b', [])
  {
  }

  /** What there is to announce of a session that was moved. */
  function Ending(s: Session): seq<Session> {
    if s.Live() then [] else [s]
  }

  lemma ReportTells(cfg: Config, b: Book, r: Request, now: int, b': Book, result: Result<Session, Error>)
    requires r.Report? && Keyed(b.sessions) && Next(cfg, b, r, now, b')
    requires One(result) == Serve(cfg, b, r, now).answer
    ensures Tells(cfg, b, r, now, b', if result.Ok? then Ending(result.value) else [])
  {
    hide Serve, Announced, Requeued, Keyed;
    match result
    case Ok(s) => ReportLeaves(cfg, b, r, now, s);
    case Err(e) => ReportRefused(cfg, b, r, now, e);
  }

  lemma CloseTells(cfg: Config, b: Book, peer: string, now: int, b': Book, closed: seq<Session>)
    requires Keyed(b.sessions) && Next(cfg, b, ClosePeer(peer), now, b')
    requires NoDup(closed) && Many(Elems(closed)) == CloseOutcome(cfg, b.sessions, peer, now).answer
    ensures Tells(cfg, b, ClosePeer(peer), now, b', closed)
  {
    assert forall s :: s in closed <==> s in Elems(closed);
    forall id | id in b.sessions ensures ShutOne(cfg, b.sessions[id], peer, now).id == id { }
    hide ShutOne, SettleOne, Keyed, NoDup, Elems, Requeued;
    forall id | id in ClosedIds(cfg, b.sessions, peer, now) ensures Mentions(closed, id) {
      assert ShutOne(cfg, b.sessions[id], peer, now) in closed;
    }
  }

  // --- everything told --------------------------------------------------------------

  /** From entry `n` on, `id` was announced for some request. */
  ghost predicate AnnouncedFrom(cfg: Config, log: Log, n: nat, id: string)
    requires |log.books| == |log.events| + 1
  {
    exists k: nat :: n <= k < |log.events|
      && id in Announced(cfg, log.books[k], log.events[k].request, log.events[k].at)
  }

  lemma MentionsConcat(told: seq<Session>, more: seq<Session>, id: string)
    ensures Mentions(told + more, id) <==> Mentions(told, id) || Mentions(more, id)
  {
    if s :| s in told && s.id == id { assert s in told + more; }
    if s :| s in more && s.id == id { assert s in told + more; }
  }

  lemma TellsMentions(cfg: Config, b: Book, r: Request, now: int, b': Book, told: seq<Session>, id: string)
    requires Tells(cfg, b, r, now, b', told)
    ensures Mentions(told, id) <==> id in Announced(cfg, b, r, now)
  {
  }

  /** Between two moments of the log exactly what its requests announced was told. */
  lemma {:induction false} ToldBetween(cfg: Config, log: Log, n: nat, m: nat, id: string)
    requires LogOk(cfg, log) && n <= m <= |log.events|
    ensures Mentions(Flat(log.tells[n..m]), id) <==>
      exists k: nat :: n <= k < m && id in Announced(cfg, log.books[k], log.events[k].request, log.events[k].at)
    decreases m
  {
    hide EachServed, Announced, Mentions, Tells;
    if n == m {
      NothingMentioned(id);
    } else {
      var k := m - 1;
      ToldBetween(cfg, log, n, k, id);
      assert log.tells[n..m][..k - n] == log.tells[n..k];
      MentionsConcat(Flat(log.tells[n..k]), log.tells[k], id);
      TellsMentions(cfg, log.books[k], log.events[k].request, log.events[k].at, log.books[m], log.tells[k], id);
    }
  }

  lemma NothingMentioned(id: string)
    ensures !Mentions([], id)
  {
  }

  /** No two entries are about one session. */
  ghost predicate NoIdTwice(told: seq<Session>) {
    forall i, j :: 0 <= i < j < |told| ==> told[i].id != told[j].id
  }

  lemma TellsOnceEach(cfg: Config, b: Book, r: Request, now: int, b': Book, told: seq<Session>)
    requires Tells(cfg, b, r, now, b', told)
    ensures NoIdTwice(told)
  {
    forall i, j | 0 <= i < j < |told| ensures told[i].id != told[j].id {
      assert told[i] in told && told[j] in told && told[i] != told[j];
    }
  }

  lemma NoIdTwiceConcat(told: seq<Session>, more: seq<Session>)
    requires NoIdTwice(told) && NoIdTwice(more)
    requires forall id :: Mentions(told, id) ==> !Mentions(more, id)
    ensures NoIdTwice(told + more)
  {
    forall i, j | 0 <= i < |told| && 0 <= j < |more| ensures told[i].id != more[j].id {
      assert told[i] in told && more[j] in more;
      assert Mentions(told, told[i].id) && Mentions(more, more[j].id);
    }
  }

  /** The run theorem: whoever made the requests, and however they came (reports, deletes,
      the departures of a sweep, opens and reads between them), no two announcements are
      about one session, and a session is announced if and only if something other than
      the clock ended it. */
  lemma {:induction false} AnnouncedOnceEach(cfg: Config, log: Log, n: nat)
    requires LogOk(cfg, log) && Run(cfg, log.books, log.events) && n <= |log.events|
    ensures NoIdTwice(Flat(log.tells[..n]))
    ensures forall id :: Mentions(Flat(log.tells[..n]), id) <==>
      exists i: nat :: i < n && EndedAt(cfg, log.books, log.events, i, id)
  {
    hide EachServed, ClockForward, NewIdsAreNew, Announced, Mentions, Tells, EndedBy, NoIdTwice, BookOk, Next;
    if n == 0 {
      NothingTwice();
    } else {
      var k := n - 1;
      var b, e, b', told := log.books[k], log.events[k], log.books[n], log.tells[k];
      AnnouncedOnceEach(cfg, log, k);
      assert log.tells[..n][..k] == log.tells[..k];
      RunStep(cfg, log.books, log.events, k);
      RunKeepsBook(cfg, log.books, log.events, k);
      forall id ensures Mentions(told, id) <==> EndedAt(cfg, log.books, log.events, k, id) {
        TellsMentions(cfg, b, e.request, e.at, b', told, id);
        AnnouncedIffEnded(cfg, b, e.request, e.at, b', id);
      }
      forall id | Mentions(Flat(log.tells[..k]), id) ensures !Mentions(told, id) {
        var i: nat :| i < k && EndedAt(cfg, log.books, log.events, i, id);
        EndsOnce(cfg, log.books, log.events, i, k, id);
      }
      TellsOnceEach(cfg, b, e.request, e.at, b', told);
      NoIdTwiceConcat(Flat(log.tells[..k]), told);
      forall id ensures Mentions(Flat(log.tells[..n]), id) <==>
        exists i: nat :: i < n && EndedAt(cfg, log.books, log.events, i, id)
      {
        MentionsConcat(Flat(log.tells[..k]), told, id);
      }
    }
  }

  lemma NothingTwice()
    ensures NoIdTwice([]) && forall id :: !Mentions([], id)
  {
  }

  /** A session the clock failed is announced neither before nor after. */
  lemma TimeoutIsNeverAnnounced(cfg: Config, log: Log, i: nat, id: string)
    requires LogOk(cfg, log) && Run(cfg, log.books, log.events) && i < |log.events|
    requires id in log.books[i].sessions && TimedOut(cfg, log.books[i].sessions[id], log.events[i].at)
    ensures !Mentions(Flat(log.tells), id)
  {
    hide LogOk, Run, Mentions, NoIdTwice, Flat, EndedBy;
    var n := |log.events|;
    assert log.tells[..n] == log.tells && |log.books| == n + 1 by { LogLengths(cfg, log); }
    AnnouncedOnceEach(cfg, log, n);
    forall k: nat | k < n ensures !EndedAt(cfg, log.books, log.events, k, id) {
      TimeoutIsNoEnding(cfg, log.books, log.events, i, k, id);
    }
  }

  lemma LogLengths(cfg: Config, log: Log)
    requires LogOk(cfg, log)
    ensures |log.books| == |log.events| + 1 == |log.tells| + 1
  {
  }
}
