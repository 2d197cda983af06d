/** Whether "the oldest ended session goes first" holds. The store forgets from the front
    of a queue that is in the order endings were recorded in, and a session that timed
    out unread is recorded late: at the timeout it ended at, behind sessions that ended
    after it. Here is exactly when the queue is in the order of `changedAt`. */
module EndedOrder {
  import opened Base
  import opened Identifiers
  import opened Sessions
  import opened SessionRuns
  import opened TurnOrders

  function EndOf(m: Records, id: string): int {
    if id in m then m[id].changedAt else 0
  }

  /** Nobody in the queue ended later than somebody behind it. */
  ghost predicate InOrder(m: Records, q: seq<string>) {
    forall i, j :: 0 <= i < j < |q| ==> EndOf(m, q[i]) <= EndOf(m, q[j])
  }

  ghost predicate BookInOrder(b: Book) {
    InOrder(b.sessions, b.ended)
  }

  /** Nobody in `q` ended later than somebody in `tail`. */
  ghost predicate Before(m: Records, q: seq<string>, tail: seq<string>) {
    forall t, s :: t in q && s in tail ==> EndOf(m, t) <= EndOf(m, s)
  }

  lemma InOrderConcat(m: Records, q: seq<string>, tail: seq<string>)
    ensures InOrder(m, q + tail) <==> InOrder(m, q) && InOrder(m, tail) && Before(m, q, tail)
  {
    var all := q + tail;
    if InOrder(m, all) {
      forall i, j | 0 <= i < j < |q| ensures EndOf(m, q[i]) <= EndOf(m, q[j]) {
        assert all[i] == q[i] && all[j] == q[j];
      }
      forall i, j | 0 <= i < j < |tail| ensures EndOf(m, tail[i]) <= EndOf(m, tail[j]) {
        assert all[|q| + i] == tail[i] && all[|q| + j] == tail[j];
      }
      forall t, s | t in q && s in tail ensures EndOf(m, t) <= EndOf(m, s) {
        var i :| 0 <= i < |q| && q[i] == t;
        var j :| 0 <= j < |tail| && tail[j] == s;
        assert all[i] == t && all[|q| + j] == s;
      }
    }
  }

  lemma InOrderAgree(m: Records, m': Records, q: seq<string>)
    requires forall id :: id in q ==> EndOf(m, id) == EndOf(m', id)
    ensures InOrder(m, q) <==> InOrder(m', q)
  {
    assert forall i :: 0 <= i < |q| ==> q[i] in q;
  }

  lemma {:induction false} KeptInOrder(m: Records, q: seq<string>, keep: set<string>)
    requires InOrder(m, q)
    ensures InOrder(m, Kept(q, keep))
  {
    if q != [] {
      var n := |q| - 1;
      assert q == q[..n] + [q[n]];
      InOrderConcat(m, q[..n], [q[n]]);
      KeptInOrder(m, q[..n], keep);
      KeptElems(q[..n], keep);
      InOrderConcat(m, Kept(q[..n], keep), [q[n]]);
    }
  }

  // --- one request ----------------------------------------------------------------

  /** When a session that stops being live at `now` will be said to have ended. */
  function Ending(cfg: Config, s: Session, now: int): int {
    if TimedOut(cfg, s, now) then s.openedAt + cfg.timeout else now
  }

  function EndingOf(cfg: Config, m: Records, id: string, now: int): int {
    if id in m then Ending(cfg, m[id], now) else now
  }

  /** The sessions a request takes from live to ended. */
  ghost function NewlyEnded(cfg: Config, b: Book, r: Request, now: int): set<string> {
    DeadIds(Serve(cfg, b, r, now).records) * LiveIds(b.sessions)
  }

  /** The ended records a request does not forget. */
  ghost function StillQueued(cfg: Config, b: Book, r: Request, now: int): set<string> {
    set t | t in b.ended && t in Serve(cfg, b, r, now).records
  }

  /** Whoever ends in this request ends no earlier than whoever is queued, nor than another
      it may be queued behind: anybody of its own turn or an earlier one. */
  ghost predicate KeepsOrder(cfg: Config, b: Book, r: Request, now: int) {
    forall s :: s in NewlyEnded(cfg, b, r, now) ==>
      && (forall t :: t in StillQueued(cfg, b, r, now) ==>
            EndOf(b.sessions, t) <= EndingOf(cfg, b.sessions, s, now))
      && (forall t :: t in NewlyEnded(cfg, b, r, now) && TurnAt(r, b.sessions, t) <= TurnAt(r, b.sessions, s) ==>
            EndingOf(cfg, b.sessions, t, now) <= EndingOf(cfg, b.sessions, s, now))
  }

  /** What the request appends to the queue. */
  ghost function Appended(b: Book, b': Book): seq<string> {
    var n := |Kept(b.ended, b'.sessions.Keys)|;
    if n <= |b'.ended| then b'.ended[n..] else []
  }

  lemma EndedAtItsEnding(cfg: Config, s: Session, s': Session, now: int)
    requires OneStep(cfg, s, s', now)
    ensures !s.Live() ==> s' == s
    ensures s.Live() && !s'.Live() ==> s'.changedAt == Ending(cfg, s, now)
  {
  }

  /** One record across a request. */
  lemma EndsAt(cfg: Config, b: Book, r: Request, now: int, b': Book, id: string)
    requires FreshFor(r, b.sessions) && Next(cfg, b, r, now, b')
    requires id in DeadIds(b'.sessions)
    ensures id in b.sessions
    ensures id in DeadIds(b.sessions) ==> EndOf(b'.sessions, id) == EndOf(b.sessions, id)
    ensures id in LiveIds(b.sessions) ==> EndOf(b'.sessions, id) == EndingOf(cfg, b.sessions, id, now)
  {
    hide Next, OneStep;
    if id in b.sessions {
      NextIsOneStep(cfg, b, r, now, b', id);
      EndedAtItsEnding(cfg, b.sessions[id], b'.sessions[id], now);
    } else {
      NextCreates(cfg, b, r, now, b', id);
    }
  }

  lemma EndedStaysEnded(cfg: Config, b: Book, r: Request, now: int, id: string)
    requires FreshFor(r, b.sessions)
    requires id in DeadIds(b.sessions) && id in Serve(cfg, b, r, now).records
    ensures id in DeadIds(Serve(cfg, b, r, now).records)
  {
    hide Serve, OneStep;
    ServeIsOneStep(cfg, b, r, now, id);
    EndedAtItsEnding(cfg, b.sessions[id], Serve(cfg, b, r, now).records[id], now);
  }

  /** The queue after a request: what is left of the old one, then whoever ended. */
  lemma QueueParts(cfg: Config, b: Book, r: Request, now: int, b': Book)
    requires BookOk(cfg, b) && FreshFor(r, b.sessions) && Next(cfg, b, r, now, b')
    ensures b'.ended == Kept(b.ended, b'.sessions.Keys) + Appended(b, b')
    ensures forall t :: t in Kept(b.ended, b'.sessions.Keys) <==> t in StillQueued(cfg, b, r, now)
    ensures Enumerates(Appended(b, b'), NewlyEnded(cfg, b, r, now))
  {
    hide Serve;
    var q, tail := Kept(b.ended, b'.sessions.Keys), Appended(b, b');
    KeptElems(b.ended, b'.sessions.Keys);
    assert b'.ended == q + tail;
    NoDupParts(q, tail);
    forall id ensures id in tail <==> id in NewlyEnded(cfg, b, r, now) {
      assert id in b'.ended <==> id in q || id in tail;
      if id in DeadIds(b'.sessions) { EndsAt(cfg, b, r, now, b', id); }
      if id in b.ended && id in b'.sessions { EndedStaysEnded(cfg, b, r, now, id); }
    }
  }

  lemma NoDupParts(q: seq<string>, tail: seq<string>)
    requires NoDup(q + tail)
    ensures NoDup(tail) && forall id :: id in q ==> id !in tail
  {
    var all := q + tail;
    forall i, j | 0 <= i < j < |tail| ensures tail[i] != tail[j] {
      assert all[|q| + i] == tail[i] && all[|q| + j] == tail[j];
    }
    forall i, j | 0 <= i < |q| && 0 <= j < |tail| ensures q[i] != tail[j] {
      assert all[i] == q[i] && all[|q| + j] == tail[j];
    }
  }

  /** The queue a request leaves is in order if and only if what it appends is, and ends
      no earlier than what was queued. */
  lemma StepInOrder(cfg: Config, b: Book, r: Request, now: int, b': Book)
    requires BookOk(cfg, b) && FreshFor(r, b.sessions) && Next(cfg, b, r, now, b') && BookInOrder(b)
    ensures BookInOrder(b') <==>
      && InOrder(b'.sessions, Appended(b, b'))
      && Before(b'.sessions, Kept(b.ended, b'.sessions.Keys), Appended(b, b'))
  {
    hide Next, BookOk, InOrder, Before, Appended;
    var q := Kept(b.ended, b'.sessions.Keys);
    QueueParts(cfg, b, r, now, b');
    QueuedKeepEnd(cfg, b, r, now, b');
    KeptInOrder(b.sessions, b.ended, b'.sessions.Keys);
    InOrderAgree(b.sessions, b'.sessions, q);
    InOrderConcat(b'.sessions, q, Appended(b, b'));
  }

  lemma QueuedKeepEnd(cfg: Config, b: Book, r: Request, now: int, b': Book)
    requires BookOk(cfg, b) && FreshFor(r, b.sessions) && Next(cfg, b, r, now, b')
    ensures forall t :: t in Kept(b.ended, b'.sessions.Keys) ==> EndOf(b'.sessions, t) == EndOf(b.sessions, t)
  {
    hide Serve;
    KeptElems(b.ended, b'.sessions.Keys);
    forall t | t in Kept(b.ended, b'.sessions.Keys) ensures EndOf(b'.sessions, t) == EndOf(b.sessions, t) {
      EndedStaysEnded(cfg, b, r, now, t);
      EndsAt(cfg, b, r, now, b', t);
    }
  }

  /** Ended records wait for nobody's turn. */
  lemma QueuedInTurn(cfg: Config, b: Book, r: Request, m': Records, tail: seq<string>)
    requires Enumerates(b.ended, DeadIds(b.sessions)) && TurnSorted(r, b.sessions, tail)
    ensures r.Open? ==>
      InTurn(TrimSpace(r.caller), TrimSpace(r.callee), b.sessions, Kept(b.ended, m'.Keys) + tail)
  {
    hide Turn, TrimSpace;
    var q := Kept(b.ended, m'.Keys);
    KeptElems(b.ended, m'.Keys);
    forall i | 0 <= i < |q| ensures q[i] !in LiveIds(b.sessions) {
      assert q[i] in q && q[i] in b.ended && q[i] in DeadIds(b.sessions);
    }
    if r.Open? {
      var all := q + tail;
      forall i, j | 0 <= i < j < |all| && all[i] in LiveIds(b.sessions) && all[j] in LiveIds(b.sessions)
        ensures TurnAt(r, b.sessions, all[i]) <= TurnAt(r, b.sessions, all[j])
      {
        assert all[i] == tail[i - |q|] && all[j] == tail[j - |q|];
      }
    }
  }

  /** Any session a request ends may be queued before all others of its turn or later. */
  lemma AppendedFirst(cfg: Config, b: Book, r: Request, now: int, x: string) returns (b': Book)
    requires BookOk(cfg, b) && FreshFor(r, b.sessions) && x in NewlyEnded(cfg, b, r, now)
    ensures Next(cfg, b, r, now, b') && x in Appended(b, b')
    ensures forall y :: y in NewlyEnded(cfg, b, r, now) && y != x && TurnAt(r, b.sessions, x) <= TurnAt(r, b.sessions, y) ==>
      Precedes(Appended(b, b'), x, y)
  {
    hide Serve, TurnAt, TurnSorted, Precedes, InTurn, FreshFor, OnePerPair, Bounded, Keyed;
    var m' := Serve(cfg, b, r, now).records;
    var q, dead := Kept(b.ended, m'.Keys), DeadIds(m');
    KeptElems(b.ended, m'.Keys);
    forall id | id in q ensures id in dead { EndedStaysEnded(cfg, b, r, now, id); }
    assert forall y :: y in NewlyEnded(cfg, b, r, now) ==> y in dead - Elems(q);
    var tail := TurnOrder(r, b.sessions, dead - Elems(q), x);
    EnumerationConcat(q, tail, Elems(q), dead - Elems(q));
    assert Elems(q) + (dead - Elems(q)) == dead;
    QueuedInTurn(cfg, b, r, m', tail);
    b' := Book(m', q + tail);
    assert Appended(b, b') == tail;
  }

  /** The exact condition, to be checked before the call: whatever order its endings are
      queued in, a request leaves the queue in order if and only if none of the sessions
      it ends is said to have ended before a queued one, nor before another whose turn is
      the same or earlier. */
  lemma OrderKeptIff(cfg: Config, b: Book, r: Request, now: int)
    requires BookOk(cfg, b) && FreshFor(r, b.sessions) && BookInOrder(b)
    ensures (forall b' | Next(cfg, b, r, now, b') :: BookInOrder(b')) <==> KeepsOrder(cfg, b, r, now)
  {
    hide Next, BookOk, BookInOrder, KeepsOrder, FreshFor;
    if KeepsOrder(cfg, b, r, now) {
      forall b' | Next(cfg, b, r, now, b') ensures BookInOrder(b') {
        KeepsOrderKeeps(cfg, b, r, now, b');
      }
    } else {
      var b' := OutOfOrder(cfg, b, r, now);
    }
  }

  lemma KeepsOrderKeeps(cfg: Config, b: Book, r: Request, now: int, b': Book)
    requires BookOk(cfg, b) && FreshFor(r, b.sessions) && Next(cfg, b, r, now, b') && BookInOrder(b)
    requires KeepsOrder(cfg, b, r, now)
    ensures BookInOrder(b')
  {
    hide Next, BookOk, BookInOrder, Appended, FreshFor, NewlyEnded, StillQueued;
    StepInOrder(cfg, b, r, now, b');
    QueueParts(cfg, b, r, now, b');
    QueuedKeepEnd(cfg, b, r, now, b');
    AppendedEnds(cfg, b, r, now, b');
    AppendedInTurn(cfg, b, r, now, b');
    var tail := Appended(b, b');
    assert forall i :: 0 <= i < |tail| ==> tail[i] in tail;
  }

  lemma AppendedInTurn(cfg: Config, b: Book, r: Request, now: int, b': Book)
    requires BookOk(cfg, b) && FreshFor(r, b.sessions) && Next(cfg, b, r, now, b')
    ensures TurnSorted(r, b.sessions, Appended(b, b'))
  {
    hide Serve, Turn, BookOk, TrimSpace, Requeued, Appended, DeadIds;
    QueueParts(cfg, b, r, now, b');
    var n, tail := |Kept(b.ended, b'.sessions.Keys)|, Appended(b, b');
    forall i, j | 0 <= i < j < |tail| ensures TurnAt(r, b.sessions, tail[i]) <= TurnAt(r, b.sessions, tail[j]) {
      assert tail[i] in tail && tail[j] in tail;
      assert b'.ended[n + i] == tail[i] && b'.ended[n + j] == tail[j];
    }
  }

  lemma AppendedEnds(cfg: Config, b: Book, r: Request, now: int, b': Book)
    requires FreshFor(r, b.sessions) && Next(cfg, b, r, now, b')
    ensures forall s :: s in NewlyEnded(cfg, b, r, now) ==> EndOf(b'.sessions, s) == EndingOf(cfg, b.sessions, s, now)
  {
    hide Serve;
    forall s | s in NewlyEnded(cfg, b, r, now)
      ensures EndOf(b'.sessions, s) == EndingOf(cfg, b.sessions, s, now)
    {
      EndsAt(cfg, b, r, now, b', s);
    }
  }

  lemma OutOfOrder(cfg: Config, b: Book, r: Request, now: int) returns (b': Book)
    requires BookOk(cfg, b) && FreshFor(r, b.sessions) && BookInOrder(b)
    requires !KeepsOrder(cfg, b, r, now)
    ensures Next(cfg, b, r, now, b') && !BookInOrder(b')
  {
    hide Next, BookOk, BookInOrder, Appended, FreshFor, NewlyEnded, StillQueued, TurnAt;
    var s :| s in NewlyEnded(cfg, b, r, now)
      && ((exists t :: t in StillQueued(cfg, b, r, now) && EndOf(b.sessions, t) > EndingOf(cfg, b.sessions, s, now))
        || exists t :: t in NewlyEnded(cfg, b, r, now) && TurnAt(r, b.sessions, t) <= TurnAt(r, b.sessions, s)
                       && EndingOf(cfg, b.sessions, t, now) > EndingOf(cfg, b.sessions, s, now));
    if t :| t in StillQueued(cfg, b, r, now) && EndOf(b.sessions, t) > EndingOf(cfg, b.sessions, s, now) {
      b' := AppendedFirst(cfg, b, r, now, s);
      StepInOrder(cfg, b, r, now, b');
      QueueParts(cfg, b, r, now, b');
      QueuedKeepEnd(cfg, b, r, now, b');
      AppendedEnds(cfg, b, r, now, b');
    } else {
      var t :| t in NewlyEnded(cfg, b, r, now) && TurnAt(r, b.sessions, t) <= TurnAt(r, b.sessions, s)
               && EndingOf(cfg, b.sessions, t, now) > EndingOf(cfg, b.sessions, s, now);
      b' := AppendedFirst(cfg, b, r, now, t);
      StepInOrder(cfg, b, r, now, b');
      AppendedEnds(cfg, b, r, now, b');
      assert Precedes(Appended(b, b'), t, s);
    }
  }

  /** Reading a session that timed out unread: the queue stays in order if and only if
      nothing queued ended after the moment the timeout fell. */
  lemma ReadKeepsOrderIff(cfg: Config, b: Book, id: string, askedBy: string, now: int, b': Book)
    requires BookOk(cfg, b) && BookInOrder(b) && Next(cfg, b, Get(id, askedBy), now, b')
    requires id in b.sessions && b.sessions[id].Has(askedBy) && TimedOut(cfg, b.sessions[id], now)
    ensures BookInOrder(b') <==>
      forall t :: t in b.ended ==> b.sessions[t].changedAt <= b.sessions[id].openedAt + cfg.timeout
  {
    hide BookInOrder, Appended;
    var r := Get(id, askedBy);
    assert NewlyEnded(cfg, b, r, now) == {id};
    assert StillQueued(cfg, b, r, now) == Elems(b.ended);
    StepInOrder(cfg, b, r, now, b');
    QueueParts(cfg, b, r, now, b');
    QueuedKeepEnd(cfg, b, r, now, b');
    AppendedEnds(cfg, b, r, now, b');
    var tail := Appended(b, b');
    EnumerationSize(tail, {id});
    assert id in tail && |tail| == 1;
    forall t | t in b.ended ensures EndOf(b.sessions, t) == b.sessions[t].changedAt {
      assert t in DeadIds(b.sessions);
    }
  }

  // --- whole runs -----------------------------------------------------------------

  /** What a step appended is in order, and ended no earlier than what was queued. */
  ghost predicate AppendsInOrder(b: Book, b': Book) {
    && InOrder(b'.sessions, Appended(b, b'))
    && Before(b'.sessions, Kept(b.ended, b'.sessions.Keys), Appended(b, b'))
  }

  lemma {:induction false} InOrderSoFar(cfg: Config, books: seq<Book>, events: seq<Event>, n: nat)
    requires Run(cfg, books, events) && n < |books|
    ensures (forall i :: 0 <= i <= n ==> BookInOrder(books[i]))
      <==> (forall i :: 0 <= i < n ==> AppendsInOrder(books[i], books[i + 1]))
  {
    hide EachServed, ClockForward, NewIdsAreNew, Next, FreshFor, BookOk, InOrder, Before, Appended;
    if n == 0 {
      NothingInOrder();
    } else {
      var k := n - 1;
      InOrderSoFar(cfg, books, events, k);
      if BookInOrder(books[k]) {
        RunStep(cfg, books, events, k);
        RunKeepsBook(cfg, books, events, k);
        StepInOrder(cfg, books[k], events[k].request, events[k].at, books[n]);
      }
    }
  }

  lemma NothingInOrder()
    ensures BookInOrder(Book(map[], []))
  {
  }

  /** A run's queue is in the order of ending throughout if and only if every step
      appends in order. */
  lemma RunInOrderIff(cfg: Config, books: seq<Book>, events: seq<Event>)
    requires Run(cfg, books, events)
    ensures (forall i :: 0 <= i < |books| ==> BookInOrder(books[i]))
      <==> (forall i :: 0 <= i < |events| ==> AppendsInOrder(books[i], books[i + 1]))
  {
    hide Run, BookInOrder, AppendsInOrder;
    assert |books| == |events| + 1 by { RunLengths(cfg, books, events); }
    InOrderSoFar(cfg, books, events, |events|);
  }

  lemma RunLengths(cfg: Config, books: seq<Book>, events: seq<Event>)
    requires Run(cfg, books, events)
    ensures |books| == |events| + 1
  {
  }

  lemma {:induction false} RunKeepsOrder(cfg: Config, books: seq<Book>, events: seq<Event>, i: nat)
    requires Run(cfg, books, events) && i < |books|
    requires forall k :: 0 <= k < i ==> KeepsOrder(cfg, books[k], events[k].request, events[k].at)
    ensures BookInOrder(books[i])
  {
    hide EachServed, ClockForward, NewIdsAreNew, Next, FreshFor, BookOk, BookInOrder, KeepsOrder;
    if i == 0 {
      NothingInOrder();
    } else {
      RunKeepsOrder(cfg, books, events, i - 1);
      RunStep(cfg, books, events, i - 1);
      RunKeepsBook(cfg, books, events, i - 1);
      KeepsOrderKeeps(cfg, books[i - 1], events[i - 1].request, events[i - 1].at, books[i]);
    }
  }

  /** "The oldest first": in a run whose requests so far met the condition, what `Open`
      forgets ended no later than any ended record the store held. */
  lemma OldestIsForgotten(cfg: Config, books: seq<Book>, events: seq<Event>, i: nat, id: string)
    requires Run(cfg, books, events) && i < |events| && events[i].request.Open?
    requires forall k :: 0 <= k < i ==> KeepsOrder(cfg, books[k], events[k].request, events[k].at)
    requires id in books[i].sessions && id !in books[i + 1].sessions
    ensures id in DeadIds(books[i].sessions)
    ensures forall t :: t in DeadIds(books[i].sessions) ==>
      books[i].sessions[id].changedAt <= books[i].sessions[t].changedAt
  {
    hide EachServed, ClockForward, NewIdsAreNew, Next, FreshFor, KeepsOrder;
    var b := books[i];
    RunKeepsOrder(cfg, books, events, i);
    RunStep(cfg, books, events, i);
    RunKeepsBook(cfg, books, events, i);
    OpenForgetsOnlyTheFirstEnded(cfg, b, events[i].request, events[i].at, books[i + 1]);
    assert id in b.sessions.Keys - books[i + 1].sessions.Keys;
    forall t | t in DeadIds(b.sessions) ensures b.sessions[id].changedAt <= b.sessions[t].changedAt {
      assert t in b.ended;
      var j :| 0 <= j < |b.ended| && b.ended[j] == t;
      assert EndOf(b.sessions, b.ended[0]) <= EndOf(b.sessions, b.ended[j]);
    }
  }
}
