/** Whole runs of the hub: which channel is held for a peer, and how many messages of one
    channel get past its allowance. */
module HubRuns {
  import opened Base
  import opened Signaling
  import FixedWindow

  /** `other` is the session lookup's answer at that moment; `broken` the connections
      that would not take a write. */
  datatype Event =
    | Join(peer: string, conn: Conn, at: int)
    | Leave(peer: string, conn: Conn, at: int)
    | Route(sender: string, msg: Message, other: Option<string>, broken: set<Conn>, at: int)
    | Tell(peers: seq<string>, msg: Message, broken: set<Conn>, at: int)

  type Events = seq<Event>

  function Step(cfg: Config, h: Hub, e: Event): Hub {
    match e
    case Join(peer, conn, at) => Joined(h, peer, conn, at)
    case Leave(peer, conn, _) => Left(h, peer, conn)
    case Route(sender, msg, other, broken, at) => Routed(cfg, h, sender, msg, other, at, broken)
    case Tell(peers, msg, broken, _) => Told(h, peers, msg, broken)
  }

  function After(cfg: Config, events: Events): Hub {
    if events == [] then Hub(map[], map[], {})
    else Step(cfg, After(cfg, events[..|events| - 1]), events[|events| - 1])
  }

  ghost predicate Timed(events: Events) {
    forall i, j :: 0 <= i <= j < |events| ==> events[i].at <= events[j].at
  }

  lemma {:induction false} ToldKeepsConns(h: Hub, peers: seq<string>, msg: Message, broken: set<Conn>)
    ensures Told(h, peers, msg, broken).conns == h.conns
    ensures h.closed <= Told(h, peers, msg, broken).closed
  {
    if peers != [] { ToldKeepsConns(h, peers[..|peers| - 1], msg, broken); }
  }

  /** Routing touches nobody's place in the hub, and of the counters only the sender's. */
  lemma RouteKeepsConns(cfg: Config, h: Hub, sender: string, msg: Message, other: Option<string>,
                        now: int, broken: set<Conn>)
    ensures var h' := Routed(cfg, h, sender, msg, other, now, broken);
            && h'.conns == (if Carriable(msg.kind) then Counted(cfg, h, sender, now).conns else h.conns)
            && h.closed <= h'.closed
  {
  }

  // --- the newest channel wins ---------------------------------------------------------

  /** Join `i` is the last of its peer, and its own channel has not left since. */
  ghost predicate Stands(events: Events, i: nat, peer: string, conn: Conn) {
    && i < |events| && events[i].Join? && events[i].peer == peer && events[i].conn == conn
    && forall k :: i < k < |events| ==>
         && !(events[k].Join? && events[k].peer == peer)
         && !(events[k].Leave? && events[k].peer == peer && events[k].conn == conn)
  }

  lemma StandsBefore(events: Events, e: Event, i: nat, peer: string, conn: Conn)
    requires i < |events|
    requires !(e.Join? && e.peer == peer) && !(e.Leave? && e.peer == peer && e.conn == conn)
    ensures Stands(events + [e], i, peer, conn) <==> Stands(events, i, peer, conn)
  {
    var more := events + [e];
    assert forall k :: 0 <= k < |events| ==> more[k] == events[k];
    if Stands(more, i, peer, conn) {
      forall k | i < k < |events|
        ensures !(events[k].Join? && events[k].peer == peer)
        ensures !(events[k].Leave? && events[k].peer == peer && events[k].conn == conn)
      {
        assert more[k] == events[k];
      }
    }
  }

  /** In every state the hub holds for a peer exactly the channel it registered last,
      unless that very channel has deregistered; a replaced channel that deregisters
      late does not take its replacement with it. */
  lemma {:induction false} NewestChannelIsHeld(cfg: Config, events: Events, peer: string, conn: Conn)
    ensures peer in After(cfg, events).conns && After(cfg, events).conns[peer].conn == conn
      <==> exists i: nat :: Stands(events, i, peer, conn)
  {
    if events != [] {
      var n := |events| - 1;
      var before, e := events[..n], events[n];
      var h := After(cfg, before);
      assert events == before + [e];
      NewestChannelIsHeld(cfg, before, peer, conn);
      if e.Join? && e.peer == peer {
        assert e.conn == conn ==> Stands(events, n, peer, conn);
      } else {
        if e.Route? { RouteKeepsConns(cfg, h, e.sender, e.msg, e.other, e.at, e.broken); }
        if e.Tell? { ToldKeepsConns(h, e.peers, e.msg, e.broken); }
        if !(e.Leave? && e.peer == peer && e.conn == conn) {
          forall i: nat | i < n ensures Stands(events, i, peer, conn) <==> Stands(before, i, peer, conn) {
            StandsBefore(before, e, i, peer, conn);
          }
        }
      }
    }
  }

  lemma {:induction false} ClosedStays(cfg: Config, events: Events, n: nat)
    requires n <= |events|
    ensures After(cfg, events[..n]).closed <= After(cfg, events).closed
  {
    if n == |events| {
      assert events[..n] == events;
    } else {
      var before, e := events[..|events| - 1], events[|events| - 1];
      var h := After(cfg, before);
      assert before[..n] == events[..n];
      ClosedStays(cfg, before, n);
      if e.Route? { RouteKeepsConns(cfg, h, e.sender, e.msg, e.other, e.at, e.broken); }
      if e.Tell? { ToldKeepsConns(h, e.peers, e.msg, e.broken); }
    }
  }

  /** A channel that still stood when its peer registered another was closed. */
  lemma ReplacedIsClosed(cfg: Config, events: Events, i: nat, j: nat, peer: string, conn: Conn)
    requires i < j < |events| && Stands(events[..j], i, peer, conn)
    requires events[j].Join? && events[j].peer == peer
    ensures conn in After(cfg, events).closed
  {
    NewestChannelIsHeld(cfg, events[..j], peer, conn);
    assert events[..j + 1][..j] == events[..j];
    ClosedStays(cfg, events, j + 1);
  }

  // --- the message allowance -----------------------------------------------------------

  /** Event `i` is a message of this channel that got past the allowance. */
  ghost predicate PassedAt(cfg: Config, events: Events, i: nat, peer: string, conn: Conn)
    requires i < |events|
  {
    var h, e := After(cfg, events[..i]), events[i];
    && e.Route? && e.sender == peer && Asks(cfg, h, peer, e.msg, e.at) && h.conns[peer].conn == conn
  }

  /** The moments at which messages of one channel passed. */
  ghost function Times(cfg: Config, events: Events, peer: string, conn: Conn): seq<int> {
    if events == [] then []
    else
      var n := |events| - 1;
      var before := Times(cfg, events[..n], peer, conn);
      if PassedAt(cfg, events, n, peer, conn) then before + [events[n].at] else before
  }

  ghost function Marks(cfg: Config, events: Events, peer: string, conn: Conn): seq<FixedWindow.Mark> {
    if events == [] then []
    else
      var n := |events| - 1;
      var before := Marks(cfg, events[..n], peer, conn);
      if PassedAt(cfg, events, n, peer, conn) then
        var s := Spend(cfg, After(cfg, events[..n]).conns[peer], events[n].at);
        before + [FixedWindow.Mark(events[n].at, s.windowFrom, s.sent)]
      else before
  }

  /** Each channel registers once. */
  ghost predicate JoinsOnce(events: Events, conn: Conn) {
    forall i, j :: 0 <= i < j < |events| && events[i].Join? && events[j].Join? ==>
      !(events[i].conn == conn && events[j].conn == conn)
  }

  /** The counter of a held channel carries on from the last message it let pass; refused
      ones in between only push it further past the allowance. */
  ghost predicate Carries(cfg: Config, s: Spent, marks: seq<FixedWindow.Mark>) {
    if marks == [] then s.sent == 0
    else
      var last := marks[|marks| - 1];
      s.windowFrom == last.start
      && (s.sent == last.count || (last.count == cfg.allowance && s.sent > cfg.allowance))
  }

  lemma {:induction false} MarksAreTimes(cfg: Config, events: Events, peer: string, conn: Conn)
    ensures |Marks(cfg, events, peer, conn)| == |Times(cfg, events, peer, conn)|
    ensures forall k :: 0 <= k < |Times(cfg, events, peer, conn)| ==>
      Marks(cfg, events, peer, conn)[k].at == Times(cfg, events, peer, conn)[k]
  {
    if events != [] { MarksAreTimes(cfg, events[..|events| - 1], peer, conn); }
  }

  lemma {:induction false} MarksBefore(cfg: Config, events: Events, peer: string, conn: Conn, now: int)
    requires forall i :: 0 <= i < |events| ==> events[i].at <= now
    ensures forall k :: 0 <= k < |Marks(cfg, events, peer, conn)| ==> Marks(cfg, events, peer, conn)[k].at <= now
  {
    if events != [] { MarksBefore(cfg, events[..|events| - 1], peer, conn, now); }
  }

  /** A channel nobody has registered has let nothing pass. */
  lemma {:induction false} NoMarksBeforeJoin(cfg: Config, events: Events, peer: string, conn: Conn)
    requires forall i :: 0 <= i < |events| ==> !(events[i].Join? && events[i].conn == conn)
    ensures Marks(cfg, events, peer, conn) == []
  {
    if events != [] {
      var n := |events| - 1;
      NoMarksBeforeJoin(cfg, events[..n], peer, conn);
      NewestChannelIsHeld(cfg, events[..n], peer, conn);
    }
  }

  lemma MarkAppends(cfg: Config, marks: seq<FixedWindow.Mark>, s: Spent, now: int)
    requires cfg.Valid() && FixedWindow.Counted(marks, cfg.allowance, cfg.window) && Carries(cfg, s, marks)
    requires s.windowFrom <= now && forall k :: 0 <= k < |marks| ==> marks[k].at <= now
    requires marks == [] ==> now - s.windowFrom >= 0
    ensures var t := Spend(cfg, s, now);
            if t.sent <= cfg.allowance
            then FixedWindow.Counted(marks + [FixedWindow.Mark(now, t.windowFrom, t.sent)], cfg.allowance, cfg.window)
                 && Carries(cfg, t, marks + [FixedWindow.Mark(now, t.windowFrom, t.sent)])
            else Carries(cfg, t, marks)
    ensures Spend(cfg, s, now).windowFrom <= now
  {
  }

  /** A held channel's counter fits what it let pass, and its window has begun. */
  ghost predicate Fits(cfg: Config, h: Hub, marks: seq<FixedWindow.Mark>, peer: string, conn: Conn, now: int) {
    peer in h.conns && h.conns[peer].conn == conn ==>
      Carries(cfg, h.conns[peer], marks) && h.conns[peer].windowFrom <= now
  }

  /** Nothing but a message of the peer's own touches its channel's counter. */
  lemma OthersLeaveCounter(cfg: Config, h: Hub, e: Event, peer: string, conn: Conn)
    requires !(e.Join? && e.peer == peer) && !(e.Route? && e.sender == peer)
    ensures var h' := Step(cfg, h, e);
            peer in h'.conns && h'.conns[peer].conn == conn ==> peer in h.conns && h'.conns[peer] == h.conns[peer]
  {
    if e.Route? { RouteKeepsConns(cfg, h, e.sender, e.msg, e.other, e.at, e.broken); }
    if e.Tell? { ToldKeepsConns(h, e.peers, e.msg, e.broken); }
  }

  lemma MessageMarks(cfg: Config, events: Events, peer: string, conn: Conn)
    requires cfg.Valid() && events != []
    requires var e := events[|events| - 1]; e.Route? && e.sender == peer
    requires var n := |events| - 1;
             && FixedWindow.Counted(Marks(cfg, events[..n], peer, conn), cfg.allowance, cfg.window)
             && Fits(cfg, After(cfg, events[..n]), Marks(cfg, events[..n], peer, conn), peer, conn, events[n].at)
             && forall k :: 0 <= k < |Marks(cfg, events[..n], peer, conn)| ==>
                  Marks(cfg, events[..n], peer, conn)[k].at <= events[n].at
    ensures FixedWindow.Counted(Marks(cfg, events, peer, conn), cfg.allowance, cfg.window)
    ensures Fits(cfg, After(cfg, events), Marks(cfg, events, peer, conn), peer, conn, events[|events| - 1].at)
  {
    hide FixedWindow.Counted, Carries;
    var n := |events| - 1;
    var e, h := events[n], After(cfg, events[..n]);
    var marks := Marks(cfg, events[..n], peer, conn);
    RouteKeepsConns(cfg, h, e.sender, e.msg, e.other, e.at, e.broken);
    if peer in h.conns && h.conns[peer].conn == conn {
      MarkAppends(cfg, marks, h.conns[peer], e.at);
    }
  }

  lemma {:induction false} MarksCounted(cfg: Config, events: Events, peer: string, conn: Conn, now: int)
    requires cfg.Valid() && Timed(events) && JoinsOnce(events, conn)
    requires forall i :: 0 <= i < |events| ==> events[i].at <= now
    ensures FixedWindow.Counted(Marks(cfg, events, peer, conn), cfg.allowance, cfg.window)
    ensures Fits(cfg, After(cfg, events), Marks(cfg, events, peer, conn), peer, conn, now)
  {
    if events != [] {
      hide FixedWindow.Counted, Carries, Step;
      var n := |events| - 1;
      var before, e := events[..n], events[n];
      assert Timed(before) && JoinsOnce(before, conn);
      MarksCounted(cfg, before, peer, conn, e.at);
      MarksBefore(cfg, before, peer, conn, e.at);
      if e.Route? && e.sender == peer {
        MessageMarks(cfg, events, peer, conn);
      } else if e.Join? && e.peer == peer {
        JoinFits(cfg, events, peer, conn);
      } else {
        OthersLeaveCounter(cfg, After(cfg, before), e, peer, conn);
      }
    }
  }

  lemma JoinFits(cfg: Config, events: Events, peer: string, conn: Conn)
    requires events != [] && JoinsOnce(events, conn)
    requires var e := events[|events| - 1]; e.Join? && e.peer == peer
    ensures Marks(cfg, events, peer, conn) == Marks(cfg, events[..|events| - 1], peer, conn)
    ensures Fits(cfg, After(cfg, events), Marks(cfg, events, peer, conn), peer, conn, events[|events| - 1].at)
  {
    var n := |events| - 1;
    if events[n].conn == conn {
      assert forall i :: 0 <= i < n ==> events[..n][i] == events[i];
      NoMarksBeforeJoin(cfg, events[..n], peer, conn);
    }
  }

  /** In any interval no longer than the window at most twice the allowance of one
      channel's messages pass, however many are refused in between. */
  lemma MessagesInAWindow(cfg: Config, events: Events, peer: string, conn: Conn, i: nat, j: nat)
    requires cfg.Valid() && Timed(events) && JoinsOnce(events, conn)
    requires i <= j < |Times(cfg, events, peer, conn)|
    requires Times(cfg, events, peer, conn)[j] - Times(cfg, events, peer, conn)[i] <= cfg.window
    ensures j - i + 1 <= 2 * cfg.allowance
  {
    MarksAreTimes(cfg, events, peer, conn);
    var now := if events == [] then 0 else events[|events| - 1].at;
    MarksCounted(cfg, events, peer, conn, now);
    if j - i >= 2 * cfg.allowance {
      FixedWindow.AtMostTwice(Marks(cfg, events, peer, conn), cfg.allowance, cfg.window, i, j);
    }
  }

  /** A channel that joins, sends its allowance as its first window closes and a whole
      allowance right after. */
  function Burst(cfg: Config, n: nat): Events {
    if n == 0 then [Join("p", 1, 0)] else Burst(cfg, n - 1) + [BurstEvent(cfg, n)]
  }

  function BurstEvent(cfg: Config, n: nat): Event {
    Route("p", Message(Bye, "", "", "", "", ""), None, {}, if n <= cfg.allowance then cfg.window else cfg.window + 1)
  }

  function BurstCounter(cfg: Config, n: nat): Spent {
    if n <= cfg.allowance then Spent(1, n, 0) else Spent(1, n - cfg.allowance, cfg.window + 1)
  }

  lemma BurstEnds(cfg: Config, n: nat)
    requires n > 0
    ensures Burst(cfg, n) != [] && Burst(cfg, n)[|Burst(cfg, n)| - 1] == BurstEvent(cfg, n)
    ensures Burst(cfg, n)[..|Burst(cfg, n)| - 1] == Burst(cfg, n - 1)
  {
  }

  lemma BurstSpends(cfg: Config, n: nat)
    requires cfg.Valid() && 0 < n <= 2 * cfg.allowance
    ensures Spend(cfg, BurstCounter(cfg, n - 1), BurstEvent(cfg, n).at) == BurstCounter(cfg, n)
    ensures BurstCounter(cfg, n).sent <= cfg.allowance
  {
  }

  lemma {:induction false} BurstState(cfg: Config, n: nat)
    requires cfg.Valid() && n <= 2 * cfg.allowance
    ensures "p" in After(cfg, Burst(cfg, n)).conns && After(cfg, Burst(cfg, n)).conns["p"] == BurstCounter(cfg, n)
  {
    if n == 0 {
      assert Burst(cfg, 0)[..0] == [];
    } else {
      hide After, Burst, BurstCounter, Spend;
      BurstState(cfg, n - 1);
      BurstSpends(cfg, n);
      BurstStep(cfg, n);
    }
  }

  lemma BurstStep(cfg: Config, n: nat)
    requires n > 0 && "p" in After(cfg, Burst(cfg, n - 1)).conns
    ensures After(cfg, Burst(cfg, n)).conns
      == Counted(cfg, After(cfg, Burst(cfg, n - 1)), "p", BurstEvent(cfg, n).at).conns
  {
  }

  lemma BurstPasses(cfg: Config, n: nat)
    requires cfg.Valid() && 0 < n <= 2 * cfg.allowance
    ensures Burst(cfg, n) != [] && PassedAt(cfg, Burst(cfg, n), |Burst(cfg, n)| - 1, "p", 1)
  {
    hide Burst, Spend, After;
    BurstState(cfg, n - 1);
    BurstEnds(cfg, n);
    BurstSpends(cfg, n);
  }

  lemma TimesGrow(cfg: Config, n: nat)
    requires cfg.Valid() && 0 < n <= 2 * cfg.allowance
    ensures Times(cfg, Burst(cfg, n), "p", 1) == Times(cfg, Burst(cfg, n - 1), "p", 1) + [BurstEvent(cfg, n).at]
  {
    hide Burst, After, PassedAt;
    BurstEnds(cfg, n);
    BurstPasses(cfg, n);
  }

  lemma {:induction false} BurstTimes(cfg: Config, n: nat) returns (times: seq<int>)
    requires cfg.Valid() && n <= 2 * cfg.allowance
    ensures times == Times(cfg, Burst(cfg, n), "p", 1) && |times| == n
    ensures n > 0 ==> times[0] == BurstEvent(cfg, 1).at && times[n - 1] == BurstEvent(cfg, n).at
  {
    if n == 0 {
      times := [];
      assert Burst(cfg, 0)[..0] == [];
    } else {
      hide Burst, After, PassedAt, Times, BurstEvent;
      var before := BurstTimes(cfg, n - 1);
      TimesGrow(cfg, n);
      times := before + [BurstEvent(cfg, n).at];
    }
  }

  /** Twice the allowance does pass within one window's length: the first window opens
      with the channel and not with a message, so the bound cannot be lowered. */
  lemma AllowanceIsReachedTwice(cfg: Config)
    requires cfg.Valid()
    ensures var times := Times(cfg, Burst(cfg, 2 * cfg.allowance), "p", 1);
            |times| == 2 * cfg.allowance && times[|times| - 1] - times[0] <= cfg.window
  {
    var times := BurstTimes(cfg, 2 * cfg.allowance);
  }
}
