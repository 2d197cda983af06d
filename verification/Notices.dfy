/** What the announcement of a session's end is to its peers: one message on the connection
    each of them holds. Said of the outboxes alone. */
module Notices {
  import opened Base
  import opened Sessions
  import S = Signaling
  import Sweep
  import L = AnnouncementLog
  import D = Deliveries

  /** An announced session, with who held which connection at that moment and which
      connections would not take a write. */
  datatype Receipt = Receipt(session: Session, conns: map<string, S.Spent>, broken: set<S.Conn>) {
    /** The peer held this connection, and it took writes. */
    predicate Holds(peer: string, c: S.Conn) {
      peer in conns && conns[peer].conn == c && c !in broken
    }

    function Notice(): S.Message {
      S.Message(S.SessionState, session.id, "", "", "", Sweep.StateName(session.state))
    }

    /** What the announcement puts on a connection: a notice for each of the session's two
        peers that held it. */
    function Copies(c: S.Conn): seq<S.Message> {
      (if Holds(session.caller, c) then [Notice()] else []) + (if Holds(session.callee, c) then [Notice()] else [])
    }
  }

  function Received(receipts: seq<Receipt>, c: S.Conn): seq<S.Message> {
    if receipts == [] then []
    else Received(receipts[..|receipts| - 1], c) + receipts[|receipts| - 1].Copies(c)
  }

  function Receipts(told: seq<Session>, h: S.Hub, broken: set<S.Conn>): (receipts: seq<Receipt>)
    ensures |receipts| == |told|
    ensures forall i :: 0 <= i < |told| ==> receipts[i] == Receipt(told[i], h.conns, broken)
  {
    seq(|told|, i requires 0 <= i < |told| => Receipt(told[i], h.conns, broken))
  }

  lemma SentReaches(h: S.Hub, peer: string, msg: S.Message, broken: set<S.Conn>, c: S.Conn)
    ensures var h' := S.Sent(h, peer, msg, broken);
            && h'.conns == h.conns
            && S.Outbox(h', c) == S.Outbox(h, c)
                 + if peer in h.conns && h.conns[peer].conn == c && c !in broken then [msg] else []
  {
  }

  lemma ToldTwo(h: S.Hub, p: string, q: string, msg: S.Message, broken: set<S.Conn>)
    ensures S.Told(h, [p, q], msg, broken) == S.Sent(S.Sent(h, p, msg, broken), q, msg, broken)
  {
    hide S.Sent;
    assert S.Told(h, [p], msg, broken) == S.Sent(h, p, msg, broken) by { assert [p][..0] == []; }
    assert [p, q][..1] == [p];
  }

  /** Both peers of an ended session are written to, each on the connection it holds. */
  lemma BothAreTold(h: S.Hub, s: Session, broken: set<S.Conn>, c: S.Conn)
    ensures var h' := S.Told(h, [s.caller, s.callee], S.Notice(s.id, Sweep.StateName(s.state)), broken);
            h'.conns == h.conns && S.Outbox(h', c) == S.Outbox(h, c) + Receipt(s, h.conns, broken).Copies(c)
  {
    hide S.Sent, S.Outbox;
    var msg := S.Notice(s.id, Sweep.StateName(s.state));
    var one := S.Sent(h, s.caller, msg, broken);
    ToldTwo(h, s.caller, s.callee, msg, broken);
    SentReaches(h, s.caller, msg, broken, c);
    SentReaches(one, s.callee, msg, broken, c);
  }

  lemma ReceivedMore(receipts: seq<Receipt>, r: Receipt, c: S.Conn)
    ensures Received(receipts + [r], c) == Received(receipts, c) + r.Copies(c)
  {
    assert (receipts + [r])[..|receipts|] == receipts;
  }

  lemma {:induction false} ReceivedConcat(receipts: seq<Receipt>, more: seq<Receipt>, c: S.Conn)
    ensures Received(receipts + more, c) == Received(receipts, c) + Received(more, c)
  {
    if more == [] {
      assert receipts + more == receipts;
    } else {
      var n := |more| - 1;
      assert (receipts + more)[..|receipts + more| - 1] == receipts + more[..n];
      ReceivedConcat(receipts, more[..n], c);
    }
  }

  lemma NotifiedMore(h: S.Hub, told: seq<Session>, s: Session, broken: set<S.Conn>)
    ensures Sweep.Notified(h, told + [s], broken)
         == S.Told(Sweep.Notified(h, told, broken), [s.caller, s.callee], S.Notice(s.id, Sweep.StateName(s.state)), broken)
  {
    assert (told + [s])[..|told|] == told;
  }

  /** The announcements of `told` put on a connection what its receipts say, and nothing else. */
  ghost predicate ToldOn(h: S.Hub, told: seq<Session>, broken: set<S.Conn>, c: S.Conn) {
    var h' := Sweep.Notified(h, told, broken);
    h'.conns == h.conns && S.Outbox(h', c) == S.Outbox(h, c) + Received(Receipts(told, h, broken), c)
  }

  lemma ReceiptsMore(told: seq<Session>, s: Session, h: S.Hub, broken: set<S.Conn>)
    ensures Receipts(told + [s], h, broken) == Receipts(told, h, broken) + [Receipt(s, h.conns, broken)]
  {
  }

  lemma NothingToldOn(h: S.Hub, broken: set<S.Conn>, c: S.Conn)
    ensures ToldOn(h, [], broken, c)
  {
    assert Receipts([], h, broken) == [];
  }

  lemma OneMoreToldOn(h: S.Hub, told: seq<Session>, s: Session, broken: set<S.Conn>, c: S.Conn)
    requires ToldOn(h, told, broken, c)
    ensures ToldOn(h, told + [s], broken, c)
  {
    hide S.Outbox, S.Told, Sweep.Notified, Received, Receipts;
    NotifiedMore(h, told, s, broken);
    BothAreTold(Sweep.Notified(h, told, broken), s, broken, c);
    ReceiptsMore(told, s, h, broken);
    ReceivedMore(Receipts(told, h, broken), Receipt(s, h.conns, broken), c);
  }

  /** Of any number of announcements, each connection gets exactly the notices for the peers
      that hold it, in order, and nobody's place in the hub changes. */
  lemma {:induction false} NotifiedReceived(h: S.Hub, told: seq<Session>, broken: set<S.Conn>, c: S.Conn)
    ensures ToldOn(h, told, broken, c)
  {
    hide ToldOn;
    if told == [] {
      NothingToldOn(h, broken, c);
    } else {
      var n := |told| - 1;
      NotifiedReceived(h, told[..n], broken, c);
      OneMoreToldOn(h, told[..n], told[n], broken, c);
      assert told[..n] + [told[n]] == told;
    }
  }

  // --- how often one session's notice is received ---------------------------------------

  /** How many notices about `id` there are. */
  function Count(msgs: seq<S.Message>, id: string): nat {
    if msgs == [] then 0
    else Count(msgs[..|msgs| - 1], id) + if msgs[|msgs| - 1].sessionId == id then 1 else 0
  }

  lemma {:induction false} CountConcat(a: seq<S.Message>, b: seq<S.Message>, id: string)
    ensures Count(a + b, id) == Count(a, id) + Count(b, id)
  {
    if b == [] {
      assert a + b == a;
    } else {
      assert (a + b)[..|a + b| - 1] == a + b[..|b| - 1];
      CountConcat(a, b[..|b| - 1], id);
    }
  }

  lemma CopiesCount(r: Receipt, c: S.Conn, id: string)
    ensures Count(r.Copies(c), id) ==
      if r.session.id == id
      then (if r.Holds(r.session.caller, c) then 1 else 0) + (if r.Holds(r.session.callee, c) then 1 else 0)
      else 0
  {
    var one := [r.Notice()];
    assert one[..0] == [] && (one + one)[..1] == one;
    assert r.Copies(c) == [] || r.Copies(c) == one || r.Copies(c) == one + one;
    assert Count(one, id) == if r.session.id == id then 1 else 0;
    assert one + [] == one && [] + one == one;
  }

  /** No session was announced twice. */
  ghost predicate OnceEach(receipts: seq<Receipt>) {
    forall i, j :: 0 <= i < j < |receipts| ==> receipts[i].session.id != receipts[j].session.id
  }

  ghost predicate Announced(receipts: seq<Receipt>, id: string) {
    exists i :: 0 <= i < |receipts| && receipts[i].session.id == id
  }

  /** Receipts name the sessions they are of. */
  lemma ReceiptsName(receipts: seq<Receipt>, announced: seq<Session>)
    requires |receipts| == |announced| && forall i :: 0 <= i < |announced| ==> receipts[i].session == announced[i]
    ensures L.NoIdTwice(announced) <==> OnceEach(receipts)
    ensures forall id :: Announced(receipts, id) <==> L.Mentions(announced, id)
  {
    forall id ensures Announced(receipts, id) <==> L.Mentions(announced, id) {
      if i :| 0 <= i < |receipts| && receipts[i].session.id == id { assert announced[i] in announced; }
      if s :| s in announced && s.id == id {
        var i :| 0 <= i < |announced| && announced[i] == s;
        assert receipts[i].session.id == id;
      }
    }
    assert forall i :: 0 <= i < |announced| ==> receipts[i].session.id == announced[i].id;
  }

  lemma {:induction false} NotAnnounced(receipts: seq<Receipt>, c: S.Conn, id: string)
    requires !Announced(receipts, id)
    ensures Count(Received(receipts, c), id) == 0
  {
    if receipts != [] {
      var n := |receipts| - 1;
      NotAnnounced(receipts[..n], c, id);
      CountConcat(Received(receipts[..n], c), receipts[n].Copies(c), id);
      CopiesCount(receipts[n], c, id);
    }
  }

  /** Where no session is announced twice, a connection has received of each announced one
      exactly one notice for each of its peers that held it then. */
  lemma {:induction false} AnnouncedIsReceived(receipts: seq<Receipt>, k: nat, c: S.Conn)
    requires OnceEach(receipts) && k < |receipts|
    ensures var r := receipts[k];
            Count(Received(receipts, c), r.session.id)
            == (if r.Holds(r.session.caller, c) then 1 else 0) + (if r.Holds(r.session.callee, c) then 1 else 0)
  {
    var n, id := |receipts| - 1, receipts[k].session.id;
    var before := receipts[..n];
    CountConcat(Received(before, c), receipts[n].Copies(c), id);
    CopiesCount(receipts[n], c, id);
    if k == n {
      NotAnnounced(before, c, id);
    } else {
      AnnouncedIsReceived(before, k, c);
    }
  }

  // --- all that any connection was ever told of sessions ---------------------------------

  type Outboxes = map<S.Conn, seq<S.Message>>

  function On(outbox: Outboxes, c: S.Conn): seq<S.Message> {
    if c in outbox then outbox[c] else []
  }

  /** The server's own messages about sessions, among those of a connection. */
  function NoticesIn(msgs: seq<S.Message>): seq<S.Message> {
    if msgs == [] then []
    else NoticesIn(msgs[..|msgs| - 1]) + if msgs[|msgs| - 1].kind == S.SessionState then [msgs[|msgs| - 1]] else []
  }

  lemma {:induction false} NoticesInConcat(a: seq<S.Message>, b: seq<S.Message>)
    ensures NoticesIn(a + b) == NoticesIn(a) + NoticesIn(b)
  {
    if b == [] {
      assert a + b == a;
    } else {
      assert (a + b)[..|a + b| - 1] == a + b[..|b| - 1];
      NoticesInConcat(a, b[..|b| - 1]);
    }
  }

  lemma CopiesAreNotices(r: Receipt, c: S.Conn)
    ensures NoticesIn(r.Copies(c)) == r.Copies(c)
  {
    var one := [r.Notice()];
    assert NoticesIn(one) == one by { assert one[..0] == []; }
    NoticesInConcat(one, one);
    assert r.Copies(c) == [] || r.Copies(c) == one || r.Copies(c) == one + one;
  }

  lemma {:induction false} ReceivedAreNotices(receipts: seq<Receipt>, c: S.Conn)
    ensures NoticesIn(Received(receipts, c)) == Received(receipts, c)
  {
    if receipts != [] {
      hide Receipt.Copies;
      var n := |receipts| - 1;
      ReceivedAreNotices(receipts[..n], c);
      CopiesAreNotices(receipts[n], c);
      NoticesInConcat(Received(receipts[..n], c), receipts[n].Copies(c));
    }
  }

  /** Since the outboxes were `first`, every connection was sent exactly the notices that
      the receipts say, in order, and no other message about a session. */
  ghost predicate AllReceived(first: Outboxes, outbox: Outboxes, receipts: seq<Receipt>) {
    forall c :: NoticesIn(On(outbox, c)) == NoticesIn(On(first, c)) + Received(receipts, c)
  }

  /** Telling of sessions adds their receipts. */
  lemma ReceivedAfterTelling(first: Outboxes, h: S.Hub, receipts: seq<Receipt>, told: seq<Session>, broken: set<S.Conn>)
    requires AllReceived(first, h.outbox, receipts)
    ensures AllReceived(first, Sweep.Notified(h, told, broken).outbox, receipts + Receipts(told, h, broken))
  {
    hide Sweep.Notified, Received, NoticesIn, Receipts;
    var h', more := Sweep.Notified(h, told, broken), Receipts(told, h, broken);
    forall c ensures NoticesIn(On(h'.outbox, c)) == NoticesIn(On(first, c)) + Received(receipts + more, c) {
      NotifiedReceived(h, told, broken, c);
      assert On(h'.outbox, c) == On(h.outbox, c) + Received(more, c);
      NoticesInConcat(On(h.outbox, c), Received(more, c));
      ReceivedAreNotices(more, c);
      ReceivedConcat(receipts, more, c);
    }
  }

  lemma OthersAreNoNotices(msgs: seq<S.Message>, m: S.Message)
    requires m.kind != S.SessionState
    ensures NoticesIn(msgs + [m]) == NoticesIn(msgs)
  {
    assert (msgs + [m])[..|msgs|] == msgs;
  }

  /** Carrying a message, or refusing to, tells nobody of any session. */
  lemma ReceivedAfterRouting(first: Outboxes, hcfg: S.Config, h: S.Hub, receipts: seq<Receipt>, sender: string,
                             msg: S.Message, other: Option<string>, now: int, broken: set<S.Conn>)
    requires AllReceived(first, h.outbox, receipts)
    ensures AllReceived(first, S.Routed(hcfg, h, sender, msg, other, now, broken).outbox, receipts)
  {
    var h' := S.Routed(hcfg, h, sender, msg, other, now, broken);
    hide S.Routed, NoticesIn, Received, D.WithinAllowance;
    var why := D.WhyNot(hcfg, h, sender, msg, other, now, broken);
    var sent := if why == None then S.Message(msg.kind, msg.sessionId, sender, msg.payload, "", "")
                else S.Message(S.Error, msg.sessionId, "", "", why.value, "");
    if why == None {
      D.CarriedArrives(hcfg, h, sender, msg, other, now, broken);
    } else {
      D.RefusedIsAnswered(hcfg, h, sender, msg, other, now, broken);
    }
    forall c ensures NoticesIn(On(h'.outbox, c)) == NoticesIn(On(h.outbox, c)) {
      assert On(h'.outbox, c) == S.Outbox(h', c) && On(h.outbox, c) == S.Outbox(h, c);
      OthersAreNoNotices(On(h.outbox, c), sent);
    }
  }

  /** Receipts of two tellings in a row, nobody having come or gone between them. */
  lemma ReceiptsConcat(told: seq<Session>, more: seq<Session>, h: S.Hub, h': S.Hub, broken: set<S.Conn>)
    requires h'.conns == h.conns
    ensures Receipts(told + more, h, broken) == Receipts(told, h, broken) + Receipts(more, h', broken)
  {
  }

  lemma NotifiedKeepsConns(h: S.Hub, told: seq<Session>, broken: set<S.Conn>)
    ensures Sweep.Notified(h, told, broken).conns == h.conns
  {
    NotifiedReceived(h, told, broken, 0);
  }

  /** The receipts are those of `announced`, and all of them were received. */
  ghost predicate Kept(first: Outboxes, outbox: Outboxes, receipts: seq<Receipt>, announced: seq<Session>) {
    && |receipts| == |announced| && (forall i :: 0 <= i < |announced| ==> receipts[i].session == announced[i])
    && AllReceived(first, outbox, receipts)
  }

  lemma KeptAfterTelling(first: Outboxes, h: S.Hub, receipts: seq<Receipt>, announced: seq<Session>,
                         told: seq<Session>, broken: set<S.Conn>)
    requires Kept(first, h.outbox, receipts, announced)
    ensures Kept(first, Sweep.Notified(h, told, broken).outbox, receipts + Receipts(told, h, broken), announced + told)
  {
    hide AllReceived, Sweep.Notified;
    ReceivedAfterTelling(first, h, receipts, told, broken);
  }

  lemma KeptAfterRouting(first: Outboxes, hcfg: S.Config, h: S.Hub, receipts: seq<Receipt>, announced: seq<Session>,
                         sender: string, msg: S.Message, other: Option<string>, now: int, broken: set<S.Conn>)
    requires Kept(first, h.outbox, receipts, announced)
    ensures Kept(first, S.Routed(hcfg, h, sender, msg, other, now, broken).outbox, receipts, announced)
  {
    hide AllReceived, S.Routed;
    ReceivedAfterRouting(first, hcfg, h, receipts, sender, msg, other, now, broken);
  }
}
