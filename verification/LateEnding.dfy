/** A run in which the store forgets a session that ended later than one it keeps. One
    session is left unread past its timeout while others are opened and closed up to the
    bound; read at last, it is queued behind all of them with the earliest ending. */
module LateEnding {
  import opened Base
  import opened Identifiers
  import opened Sessions
  import opened SessionPasses
  import opened SessionRuns

  /** Two live sessions at a time, so eight records in all; a timeout of ten. */
  const CFG := Config(10, 100, 2, 2)

  const UNREAD := Session("x", "a", "b", Negotiating, PathUnknown, 0, 0)
  const READ_LATE := Session("x", "a", "b", Failed, PathUnknown, 0, 10)

  function Name(n: nat): string { seq(n + 1, _ => 'y') }

  function Quick(n: nat): Session {
    Session(Name(n), "c", "d", Closed, PathUnknown, 20, 20)
  }

  /** After `n` sessions were opened and closed beside the unread one. */
  function Records(n: nat): Sessions.Records {
    if n == 0 then map["x" := UNREAD] else Records(n - 1)[Name(n) := Quick(n)]
  }

  function Queue(n: nat): seq<string> {
    if n == 0 then [] else Queue(n - 1) + [Name(n)]
  }

  lemma Names(n: nat)
    ensures |Name(n)| == n + 1
    ensures n > 0 ==> Name(n) != "x"
  {
  }

  /** The unread session, and as many others as there were: no two under one name. */
  lemma {:induction false} Held(n: nat)
    ensures |Records(n)| == n + 1 && "x" in Records(n) && Records(n)["x"] == UNREAD
    ensures forall id :: id in Records(n) && id != "x" ==> 2 <= |id| <= n + 1 && Records(n)[id] == Quick(|id| - 1)
    ensures forall id :: id in Records(n) && Records(n)[id].Live() ==> id == "x"
  {
    hide Name;
    if n > 0 {
      Held(n - 1);
      Names(n);
    }
  }

  lemma {:induction false} Queued(n: nat)
    ensures Enumerates(Queue(n), DeadIds(Records(n)))
    ensures n > 0 ==> Queue(n) != [] && Queue(n)[0] == Name(1)
  {
    hide Name;
    if n > 0 {
      Queued(n - 1);
      Held(n - 1);
      Names(n);
      DeadMore(Records(n - 1), Name(n), Quick(n));
      EnumerationAppend(Queue(n - 1), DeadIds(Records(n - 1)), Name(n));
    }
  }

  lemma DeadMore(m: Sessions.Records, id: string, s: Session)
    requires id !in m && !s.Live()
    ensures DeadIds(m[id := s]) == DeadIds(m) + {id}
    ensures id !in DeadIds(m)
  {
  }

  // --- the steps --------------------------------------------------------------

  /** A request that ends nothing and forgets nothing. */
  lemma NothingEnds(b: Book, r: Request, now: int, m': Sessions.Records)
    requires Enumerates(b.ended, DeadIds(b.sessions)) && m' == Serve(CFG, b, r, now).records
    requires DeadIds(m') == DeadIds(b.sessions)
    ensures Next(CFG, b, r, now, Book(m', b.ended))
  {
    hide Serve;
    assert forall id :: id in b.ended ==> id in DeadIds(m');
    KeptAll(b.ended, m'.Keys);
    if r.Open? { NoTurnsYet(TrimSpace(r.caller), TrimSpace(r.callee), b); }
  }

  /** A request that ends one session. */
  lemma OneEnds(b: Book, r: Request, now: int, m': Sessions.Records, id: string)
    requires !r.Open?
    requires Enumerates(b.ended, DeadIds(b.sessions)) && m' == Serve(CFG, b, r, now).records
    requires DeadIds(m') == DeadIds(b.sessions) + {id} && id !in DeadIds(b.sessions)
    ensures Next(CFG, b, r, now, Book(m', b.ended + [id]))
  {
    hide Serve;
    assert forall x :: x in b.ended ==> x in DeadIds(m');
    KeptAll(b.ended, m'.Keys);
    EnumerationAppend(b.ended, DeadIds(b.sessions), id);
  }

  ghost function After(n: nat): Book { Book(Records(n), Queue(n)) }

  /** With one more opened and not yet closed. */
  ghost function During(n: nat): Book {
    Book(Records(n)[Name(n + 1) := Fresh(Name(n + 1), "c", "d", 20)], Queue(n))
  }

  lemma OpensQuick(n: nat)
    requires n < 7
    ensures Next(CFG, After(n), Open("c", "d", true, Some(Name(n + 1))), 20, During(n))
  {
    hide Name, Records, Queue, Enumerates, OpenOutcome, Quick, Next;
    var m, id := Records(n), Name(n + 1);
    Held(n);
    Names(n + 1);
    PeersTrimmed();
    OpensBeside(m, Queue(n), id, 20);
    Queued(n);
    NothingEnds(After(n), Open("c", "d", true, Some(id)), 20, During(n).sessions);
  }

  lemma ClosesQuick(n: nat)
    ensures Next(CFG, During(n), Report(Name(n + 1), "c", Closed, PathUnknown), 20, After(n + 1))
  {
    hide Name, Records, Queue, Enumerates, Next;
    var id := Name(n + 1);
    Held(n);
    Names(n + 1);
    Queued(n);
    assert DeadIds(During(n).sessions) == DeadIds(Records(n));
    assert Records(n + 1) == Records(n)[id := Quick(n + 1)] && Queue(n + 1) == Queue(n) + [id] by { OneMore(n); }
    assert During(n).sessions[id := Quick(n + 1)] == Records(n + 1);
    OneEnds(During(n), Report(id, "c", Closed, PathUnknown), 20, Records(n + 1), id);
  }

  lemma OneMore(n: nat)
    ensures Records(n + 1) == Records(n)[Name(n + 1) := Quick(n + 1)] && Queue(n + 1) == Queue(n) + [Name(n + 1)]
  {
  }

  lemma PeersTrimmed()
    ensures TrimSpace("c") == "c" && TrimSpace("d") == "d"
  {
    TrimKeepsPeerId("c");
    TrimKeepsPeerId("d");
  }

  /** No live session of the two peers, and no more than one of anybody's. */
  lemma OpensBeside(m: Sessions.Records, ended: seq<string>, id: string, now: int)
    requires forall x :: x in m && m[x].Live() ==> x == "x" && m[x] == UNREAD
    ensures OpenOutcome(CFG, Book(m, ended), "c", "d", Some(id), now)
      == Outcome(Trimmed(CFG, m, ended)[id := Fresh(id, "c", "d", now)], One(Ok(Fresh(id, "c", "d", now))))
  {
    var key := PairKey("c", "d");
    assert UNREAD.Key() == "a\0b" && key == "c\0d";
    assert PairIds(m, key) == {} && SettlePair(CFG, m, key, now) == m;
    assert LiveIds(m) <= {"x"};
    SubsetSize(LiveIds(m), {"x"});
    assert PeerIds(m, "c") == {} && PeerIds(m, "d") == {};
  }

  // --- the run ----------------------------------------------------------------

  /** No state of the run has held a name as long as this. */
  ghost predicate Shorter(books: seq<Book>, n: nat) {
    forall b, id :: b in books && id in b.sessions ==> |id| < n
  }

  ghost predicate ReachesAfter(books: seq<Book>, events: seq<Event>, n: nat) {
    && Run(CFG, books, events) && books[|events|] == After(n) && Shorter(books, n + 2)
    && events != [] && events[|events| - 1].at <= 20
  }

  lemma Starts() returns (books: seq<Book>, events: seq<Event>)
    ensures ReachesAfter(books, events, 0)
  {
    var e := Event(Open("a", "b", true, Some("x")), 0);
    var b := Book(map[], []);
    EmptyRun(CFG);
    TrimKeepsPeerId("a");
    TrimKeepsPeerId("b");
    assert Next(CFG, b, e.request, 0, After(0));
    RunExtends(CFG, [b], [], e, After(0));
    books, events := [b] + [After(0)], [] + [e];
  }

  lemma {:induction false} Fills(n: nat) returns (books: seq<Book>, events: seq<Event>)
    requires n <= 7
    ensures ReachesAfter(books, events, n)
  {
    if n == 0 {
      books, events := Starts();
    } else {
      books, events := Fills(n - 1);
      books, events := OpensAndCloses(n - 1, books, events);
    }
  }

  lemma OpensAndCloses(n: nat, was: seq<Book>, before: seq<Event>) returns (books: seq<Book>, events: seq<Event>)
    requires n < 7 && ReachesAfter(was, before, n)
    ensures ReachesAfter(books, events, n + 1)
  {
    hide Name, Next, Records, Queue, EachServed, ClockForward, NewIdsAreNew;
    var id := Name(n + 1);
    var opens := Event(Open("c", "d", true, Some(id)), 20);
    var closes := Event(Report(id, "c", Closed, PathUnknown), 20);
    Names(n + 1);
    OpensQuick(n);
    RunExtends(CFG, was, before, opens, During(n));
    books, events := was + [During(n)], before + [opens];
    ClosesQuick(n);
    RunExtends(CFG, books, events, closes, After(n + 1));
    Held(n);
    Held(n + 1);
    books, events := books + [After(n + 1)], events + [closes];
  }

  /** The unread session read at last: said to have ended at 10, and queued last. */
  ghost function Read(): Book {
    Book(Records(7)["x" := READ_LATE], Queue(7) + ["x"])
  }

  lemma ReadsLate()
    ensures Next(CFG, After(7), Get("x", "a"), 30, Read())
  {
    hide Name, Records, Queue, Enumerates, Next, Quick;
    Held(7);
    Queued(7);
    assert DeadIds(Read().sessions) == DeadIds(Records(7)) + {"x"};
    OneEnds(After(7), Get("x", "a"), 30, Read().sessions, "x");
  }

  /** One more `Open`: the store is at its bound and forgets the front of the queue. */
  ghost function Last(): Book {
    Book((Read().sessions - {Name(1)})[Name(8) := Fresh(Name(8), "c", "d", 30)], Read().ended[1..])
  }

  /** A request that forgets the front of the queue. */
  lemma FrontGoes(b: Book, r: Request, now: int, m': Sessions.Records)
    requires Enumerates(b.ended, DeadIds(b.sessions)) && m' == Serve(CFG, b, r, now).records && b.ended != []
    requires DeadIds(m') == DeadIds(b.sessions) - {b.ended[0]} && b.ended[0] !in m'
    ensures Next(CFG, b, r, now, Book(m', b.ended[1..]))
  {
    hide Serve;
    var rest := b.ended[1..];
    assert b.ended == [b.ended[0]] + rest;
    TailEnumerates(b.ended, DeadIds(b.sessions));
    FrontNotKept(b.ended, m'.Keys);
    if r.Open? {
      NoTurnsYet(TrimSpace(r.caller), TrimSpace(r.callee), b);
      TurnsTrimmed(TrimSpace(r.caller), TrimSpace(r.callee), b.sessions, b.ended);
    }
  }

  lemma TailEnumerates(q: seq<string>, s: set<string>)
    requires Enumerates(q, s) && q != []
    ensures Enumerates(q[1..], s - {q[0]})
  {
    assert q == [q[0]] + q[1..];
  }

  lemma FrontNotKept(q: seq<string>, keep: set<string>)
    requires q != [] && q[0] !in keep && forall x :: x in q[1..] ==> x in keep
    ensures Kept(q, keep) == q[1..]
  {
    assert q == [q[0]] + q[1..];
    KeptConcat([q[0]], q[1..], keep);
    KeptAll(q[1..], keep);
    assert [q[0]][..0] == [];
  }

  lemma ReadIs()
    ensures |Read().sessions| == 8 && LiveIds(Read().sessions) == {}
    ensures Enumerates(Read().ended, DeadIds(Read().sessions))
    ensures Read().ended != [] && Read().ended[0] == Name(1) && Name(1) != Name(8)
    ensures Name(1) in Read().sessions && Read().sessions[Name(1)].changedAt == 20
    ensures forall b, id :: b == Read() && id in b.sessions ==> |id| < 9
  {
    hide Name, Records, Queue;
    Held(7);
    Names(1);
    Names(8);
    Queued(7);
    assert Name(1) in Queue(7);
    DeadMore(Records(7) - {"x"}, "x", READ_LATE);
    assert DeadIds(Read().sessions) == DeadIds(Records(7)) + {"x"};
    EnumerationAppend(Queue(7), DeadIds(Records(7)), "x");
  }

  lemma OpensAtTheBound()
    ensures Next(CFG, Read(), Open("c", "d", true, Some(Name(8))), 30, Last())
  {
    hide Name, Read, Enumerates, OpenOutcome, Next;
    var m, id := Read().sessions, Name(8);
    ReadIs();
    Names(8);
    PeersTrimmed();
    assert forall x :: x in m ==> x !in LiveIds(m);
    OpensBeside(m, Read().ended, id, 30);
    assert Trimmed(CFG, m, Read().ended) == m - {Name(1)};
    assert DeadIds(Last().sessions) == DeadIds(m) - {Name(1)};
    FrontGoes(Read(), Open("c", "d", true, Some(id)), 30, Last().sessions);
  }

  /** The whole run. Its last `Open` forgets a session that ended at 20 and keeps one
      that ended at 10. */
  lemma ForgetsTheNewer() returns (books: seq<Book>, events: seq<Event>, gone: string)
    ensures Run(CFG, books, events) && |events| > 0 && events[|events| - 1].request.Open?
    ensures var m, m' := books[|events| - 1].sessions, books[|events|].sessions;
            && gone in m && gone !in m' && m[gone].changedAt == 20
            && "x" in m && "x" in m' && !m'["x"].Live() && m'["x"].changedAt == 10
  {
    hide Name, Next, Records, Queue, EachServed, ClockForward, NewIdsAreNew;
    var was, before := Fills(7);
    var asks := Event(Get("x", "a"), 30);
    var opens := Event(Open("c", "d", true, Some(Name(8))), 30);
    gone := Name(1);
    Names(1);
    Names(8);
    ReadsLate();
    RunExtends(CFG, was, before, asks, Read());
    books, events := was + [Read()], before + [asks];
    Held(7);
    ReadIs();
    OpensAtTheBound();
    RunExtends(CFG, books, events, opens, Last());
    books, events := books + [Last()], events + [opens];
  }

  /** The same records as a store has that settled the unread session in time: it ended
      first, so it is queued first. */
  ghost function InTime(): Book {
    Book(Read().sessions, ["x"] + Queue(7))
  }

  /** So the moment of settling can be told: one `Open` on, and the one store still answers
      for the session the other has forgotten. */
  lemma ForgettingTells()
    ensures var r := Open("c", "d", true, Some(Name(8)));
            var late := Serve(CFG, Read(), r, 30).records;
            var early := Serve(CFG, InTime(), r, 30).records;
            && Enumerates(InTime().ended, DeadIds(InTime().sessions))
            && GetOutcome(CFG, late, "x", "a", 30).answer == One(Ok(READ_LATE))
            && GetOutcome(CFG, early, "x", "a", 30).answer == One(Err(NotFound))
  {
    hide Name, Enumerates, OpenOutcome, Records, Queue;
    var m, id := Read().sessions, Name(8);
    ReadIs();
    InTimeIs();
    Names(1);
    Names(8);
    PeersTrimmed();
    assert forall x :: x in m ==> x !in LiveIds(m);
    OpensBeside(m, Read().ended, id, 30);
    OpensBeside(m, InTime().ended, id, 30);
    assert Trimmed(CFG, m, Read().ended) == m - {Name(1)};
    assert Trimmed(CFG, m, InTime().ended) == m - {"x"};
  }

  lemma InTimeIs()
    ensures Enumerates(InTime().ended, DeadIds(InTime().sessions))
    ensures InTime().ended[0] == "x"
  {
    hide Name, Records, Queue;
    Held(7);
    Queued(7);
    assert DeadIds(InTime().sessions) == DeadIds(Records(7)) + {"x"};
    assert "x" !in Queue(7);
  }
}
