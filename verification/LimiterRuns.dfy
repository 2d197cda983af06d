/** Whole runs of the attempt limiter: what a refusal proves, how many failures one
    identifier can get through, and what sweeps and evictions do and do not change. */
module LimiterRuns {
  import opened Base
  import opened Limiter

  /** A sweep may also come at a moment of its own, besides the ones `Failed` runs. */
  datatype Event = Fail(id: string, at: int) | Succeed(id: string, at: int) | Sweep(at: int)

  type Events = seq<Event>

  ghost function Step(cfg: Config, s: State, e: Event): State {
    match e
    case Fail(id, at) => Failed(cfg, s, id, at)
    case Succeed(id, _) => Succeeded(s, id)
    case Sweep(at) => Swept(cfg, s, at)
  }

  ghost function After(cfg: Config, events: Events): State {
    if events == [] then State(map[], [], None)
    else Step(cfg, After(cfg, events[..|events| - 1]), events[|events| - 1])
  }

  /** The clock never goes back. */
  ghost predicate Timed(events: Events) {
    forall i, j :: 0 <= i <= j < |events| ==> events[i].at <= events[j].at
  }

  /** In every reachable state at most 8192 identifiers are tracked, each queued. */
  lemma {:induction false} RunOk(cfg: Config, events: Events)
    ensures Bounded(After(cfg, events)) && |After(cfg, events).failures| <= 8192
  {
    if events != [] {
      var s, e := After(cfg, events[..|events| - 1]), events[|events| - 1];
      RunOk(cfg, events[..|events| - 1]);
      CallsKeepBounded(cfg, s, if e.Sweep? then "" else e.id, e.at);
    }
  }

  /** What one event does to one identifier's record. */
  lemma StepOnRecord(cfg: Config, s: State, e: Event, id: string)
    requires Queued(s)
    ensures var f, f' := s.failures, Step(cfg, s, e).failures;
            id in f' ==>
              && (e.Fail? && e.id == id ==> f'[id] == Counted(cfg, f, id, e.at))
              && (!(e.Fail? && e.id == id) ==> id in f && f'[id] == f[id])
              && (e.Succeed? ==> e.id != id)
  {
    if e.Fail? {
      NotedQueued(cfg, s, e.id, e.at);
      SweptQueued(cfg, Noted(cfg, s, e.id, e.at), e.at);
      var t := Cleared(cfg, Noted(cfg, s, e.id, e.at), e.at);
      if |t.failures| > MAX_TRACKED { EvictsOne(t); }
    }
  }

  // --- what a refusal proves -------------------------------------------------------

  /** How many failures of `id` are recorded from event `i` on. */
  ghost function FailuresFrom(events: Events, i: nat, id: string): nat
    decreases |events|
  {
    if |events| <= i then 0
    else
      var last := events[|events| - 1];
      FailuresFrom(events[..|events| - 1], i, id) + if last.Fail? && last.id == id then 1 else 0
  }

  /** Event `i` is the failure that opened the window, and nothing since cleared it. */
  ghost predicate Opens(events: Events, i: nat, id: string, r: Record) {
    && i < |events| && events[i] == Fail(id, r.startedAt)
    && FailuresFrom(events, i, id) == r.count
    && forall k :: i <= k < |events| ==> !(events[k].Succeed? && events[k].id == id)
  }

  /** A record counts exactly the failures since the one that opened its window, and no
      success has come in between, whatever was swept or evicted meanwhile. */
  lemma {:induction false} RecordIsEarned(cfg: Config, events: Events, id: string) returns (i: nat)
    requires id in After(cfg, events).failures
    ensures Opens(events, i, id, After(cfg, events).failures[id])
  {
    hide Failed, Swept, Succeeded, Bounded, Queued;
    var n := |events| - 1;
    var before, e := events[..n], events[n];
    RunOk(cfg, before);
    StepOnRecord(cfg, After(cfg, before), e, id);
    if e.Fail? && e.id == id && After(cfg, events).failures[id].count == 1
       && After(cfg, events).failures[id] == Record(1, e.at) {
      i := n;
      assert FailuresFrom(before, n, id) == 0;
    } else {
      i := RecordIsEarned(cfg, before, id);
      assert events[i] == before[i];
      assert forall k :: i <= k < n ==> events[k] == before[k];
    }
  }

  /** If an identifier is refused, at least `allowance` failures of it were recorded within
      the last window, and none of its successes came after the first of them. */
  lemma RefusalIsEarned(cfg: Config, events: Events, id: string, now: int) returns (i: nat)
    requires !Allowed(cfg, After(cfg, events).failures, id, now)
    ensures i < |events| && events[i].Fail? && events[i].id == id && now - events[i].at <= cfg.window
    ensures FailuresFrom(events, i, id) >= cfg.allowance
    ensures forall k :: i <= k < |events| ==> !(events[k].Succeed? && events[k].id == id)
  {
    i := RecordIsEarned(cfg, events, id);
  }

  // --- sweeping is invisible, until an eviction -------------------------------------

  /** The counter without its housekeeping: nothing is swept and nothing is evicted. */
  ghost function Plain(cfg: Config, events: Events): Failures {
    if events == [] then map[]
    else PlainStep(cfg, Plain(cfg, events[..|events| - 1]), events[|events| - 1])
  }

  ghost function PlainStep(cfg: Config, f: Failures, e: Event): Failures {
    match e
    case Fail(id, at) => Recorded(cfg, f, id, at)
    case Succeed(id, _) => f - {id}
    case Sweep(_) => f
  }

  ghost function Ids(events: Events): set<string> {
    set i | 0 <= i < |events| && !events[i].Sweep? :: events[i].id
  }

  /** All that an answer about `id` at `now` depends on: its record, if its window is open. */
  function FreshOf(cfg: Config, f: Failures, id: string, now: int): Option<Record> {
    if id in f && !Expired(cfg, f[id], now) then Some(f[id]) else None
  }

  lemma FreshOfFresh(cfg: Config, f: Failures, id: string, now: int)
    ensures FreshOf(cfg, f, id, now).Some? <==> id in Fresh(cfg, f, now)
    ensures id in Fresh(cfg, f, now) ==> FreshOf(cfg, f, id, now) == Some(Fresh(cfg, f, now)[id])
    ensures Allowed(cfg, f, id, now) <==>
      FreshOf(cfg, f, id, now).None? || FreshOf(cfg, f, id, now).value.count < cfg.allowance
  {
  }

  lemma FreshOfLater(cfg: Config, f: Failures, f': Failures, id: string, t: int, now: int)
    requires t <= now && FreshOf(cfg, f, id, t) == FreshOf(cfg, f', id, t)
    ensures FreshOf(cfg, f, id, now) == FreshOf(cfg, f', id, now)
  {
  }

  lemma FreshOfRecorded(cfg: Config, f: Failures, f': Failures, x: string, id: string, now: int)
    requires cfg.Valid() && FreshOf(cfg, f, id, now) == FreshOf(cfg, f', id, now)
    ensures FreshOf(cfg, Recorded(cfg, f, x, now), id, now) == FreshOf(cfg, Recorded(cfg, f', x, now), id, now)
  {
  }

  lemma FreshMinus(cfg: Config, f: Failures, ids: set<string>, now: int)
    ensures Fresh(cfg, f - ids, now) == Fresh(cfg, f, now) - ids
  {
  }

  lemma BeforeEvictionFresh(cfg: Config, s: State, id: string, now: int)
    ensures Fresh(cfg, BeforeEviction(cfg, s, id, now).failures, now)
         == Fresh(cfg, Recorded(cfg, s.failures, id, now), now)
  {
  }

  /** A failure leaves the fresh records the plain counter leaves, less the one it evicted. */
  lemma FailedLeaves(cfg: Config, s: State, id: string, now: int)
    requires Bounded(s)
    ensures Fresh(cfg, Failed(cfg, s, id, now).failures, now)
         == Fresh(cfg, Recorded(cfg, s.failures, id, now), now) - Evictees(cfg, s, id, now)
  {
    hide Queued, BeforeEviction, Recorded, Fresh, Victims, Evicted;
    var t := BeforeEviction(cfg, s, id, now);
    BeforeEvictionFresh(cfg, s, id, now);
    BeforeEvictionQueued(cfg, s, id, now);
    if |t.failures| > MAX_TRACKED {
      EvictedLeaves(cfg, t, now);
    } else {
      FreshMinus(cfg, t.failures, {}, now);
      MinusNothing(t.failures);
    }
  }

  lemma MinusNothing(f: Failures)
    ensures f - {} == f
  {
  }

  lemma EvictedLeaves(cfg: Config, t: State, now: int)
    requires Queued(t) && |t.failures| > 0
    ensures Fresh(cfg, Evicted(t).failures, now) == Fresh(cfg, t.failures, now) - Victims(t)
  {
    hide Queued, Fresh, Victims, Evicted;
    EvictsOne(t);
    FreshMinus(cfg, t.failures, Victims(t), now);
  }

  lemma BeforeEvictionQueued(cfg: Config, s: State, id: string, now: int)
    requires Queued(s)
    ensures Queued(BeforeEviction(cfg, s, id, now))
  {
    NotedQueued(cfg, s, id, now);
    SweptQueued(cfg, Noted(cfg, s, id, now), now);
  }

  /** So it agrees with the plain counter if and only if what it evicted had already
      expired: an eviction is the one thing that can forgive. */
  lemma FailedIsPlainUnlessItForgives(cfg: Config, s: State, id: string, now: int)
    requires Bounded(s)
    ensures Fresh(cfg, Failed(cfg, s, id, now).failures, now) == Fresh(cfg, Recorded(cfg, s.failures, id, now), now)
      <==> forall x :: x in Evictees(cfg, s, id, now) ==>
             Expired(cfg, BeforeEviction(cfg, s, id, now).failures[x], now)
  {
    hide Bounded, Failed, Recorded, BeforeEviction, Evictees;
    var gone := Evictees(cfg, s, id, now);
    var t := BeforeEviction(cfg, s, id, now);
    FailedLeaves(cfg, s, id, now);
    BeforeEvictionFresh(cfg, s, id, now);
    var counts := Fresh(cfg, t.failures, now);
    if forall x :: x in gone ==> Expired(cfg, t.failures[x], now) {
      assert counts - gone == counts;
    } else {
      var x :| x in gone && !Expired(cfg, t.failures[x], now);
      assert x in counts && x !in counts - gone;
    }
  }

  lemma {:induction false} TracksOnlyIds(cfg: Config, events: Events)
    ensures After(cfg, events).failures.Keys <= Ids(events)
  {
    if events != [] {
      var n := |events| - 1;
      TracksOnlyIds(cfg, events[..n]);
      forall i | 0 <= i < n && !events[i].Sweep? ensures events[i].id in Ids(events[..n]) {
        assert events[..n][i] == events[i];
      }
      forall x | x in After(cfg, events).failures.Keys ensures x in Ids(events) {
        RunOk(cfg, events[..n]);
        StepOnRecord(cfg, After(cfg, events[..n]), events[n], x);
        if x in Ids(events[..n]) {
          var i :| 0 <= i < n && !events[..n][i].Sweep? && events[..n][i].id == x;
          assert events[i].id == x;
        } else {
          assert events[n].id == x;
        }
      }
    }
  }

  lemma PrefixIds(events: Events, n: nat)
    requires n <= |events|
    ensures Ids(events[..n]) <= Ids(events) && |Ids(events[..n])| <= |Ids(events)|
  {
    forall x | x in Ids(events[..n]) ensures x in Ids(events) {
      var i :| 0 <= i < n && !events[..n][i].Sweep? && events[..n][i].id == x;
      assert events[i].id == x;
    }
    SubsetSize(Ids(events[..n]), Ids(events));
  }

  /** With no more identifiers than may be tracked, nothing is ever evicted. */
  lemma NothingEvicted(cfg: Config, events: Events, n: nat)
    requires n < |events| && |Ids(events)| <= MAX_TRACKED && events[n].Fail?
    ensures var s := After(cfg, events[..n]);
            |Cleared(cfg, Noted(cfg, s, events[n].id, events[n].at), events[n].at).failures| <= MAX_TRACKED
  {
    var s, e := After(cfg, events[..n]), events[n];
    TracksOnlyIds(cfg, events[..n]);
    PrefixIds(events, n);
    var f := Noted(cfg, s, e.id, e.at).failures;
    assert f.Keys == s.failures.Keys + {e.id} && e.id in Ids(events);
    SubsetSize(f.Keys, Ids(events));
    assert |f| == |f.Keys|;
    SubsetSize(Fresh(cfg, f, e.at).Keys, f.Keys);
    assert |Fresh(cfg, f, e.at)| == |Fresh(cfg, f, e.at).Keys|;
  }

  // --- the limiter and the plain counter over a run ------------------------------------

  /** The failure evicts the record of `id` while its window is open. */
  ghost predicate Forgives(cfg: Config, s: State, e: Event, id: string) {
    e.Fail? && id in Evictees(cfg, s, e.id, e.at)
    && !Expired(cfg, BeforeEviction(cfg, s, e.id, e.at).failures[id], e.at)
  }

  ghost predicate ForgivenAt(cfg: Config, events: Events, n: nat, id: string)
    requires n < |events|
  {
    Forgives(cfg, After(cfg, events[..n]), events[n], id)
  }

  /** No eviction of the run drops the record of `id` while its window is open. Records
      that have expired, and those of others, may be evicted at will. */
  ghost predicate NeverForgiven(cfg: Config, events: Events, id: string) {
    forall n :: 0 <= n < |events| ==> !ForgivenAt(cfg, events, n, id)
  }

  /** From records that agree on `id`, the limiter and the plain counter come to agree
      again if and only if the event does not forgive `id`. */
  lemma StepIsPlainIff(cfg: Config, s: State, f: Failures, e: Event, id: string)
    requires cfg.Valid() && Bounded(s) && FreshOf(cfg, s.failures, id, e.at) == FreshOf(cfg, f, id, e.at)
    ensures FreshOf(cfg, Step(cfg, s, e).failures, id, e.at) == FreshOf(cfg, PlainStep(cfg, f, e), id, e.at)
      <==> !Forgives(cfg, s, e, id)
  {
    hide Failed, Recorded, BeforeEviction, Evictees, Bounded;
    if e.Fail? {
      var t := BeforeEviction(cfg, s, e.id, e.at);
      FailedLeaves(cfg, s, e.id, e.at);
      BeforeEvictionFresh(cfg, s, e.id, e.at);
      FreshOfRecorded(cfg, s.failures, f, e.id, id, e.at);
      FreshOfFresh(cfg, Failed(cfg, s, e.id, e.at).failures, id, e.at);
      FreshOfFresh(cfg, Recorded(cfg, s.failures, e.id, e.at), id, e.at);
      FreshOfFresh(cfg, t.failures, id, e.at);
    }
  }

  /** At the moment of each event, when it has been served, the records of `id` agree. */
  ghost predicate AgreesAfter(cfg: Config, events: Events, n: nat, id: string)
    requires n < |events|
  {
    FreshOf(cfg, After(cfg, events[..n + 1]).failures, id, events[n].at)
    == FreshOf(cfg, Plain(cfg, events[..n + 1]), id, events[n].at)
  }

  lemma OneMore(cfg: Config, events: Events, n: nat)
    requires n < |events|
    ensures After(cfg, events[..n + 1]) == Step(cfg, After(cfg, events[..n]), events[n])
    ensures Plain(cfg, events[..n + 1]) == PlainStep(cfg, Plain(cfg, events[..n]), events[n])
  {
    assert events[..n + 1][..n] == events[..n];
  }

  /** Over a whole run the limiter, with all its housekeeping, holds of an identifier what
      the plain counter does if and only if no eviction ever forgives it. */
  lemma {:induction false} LimiterIsPlainIff(cfg: Config, events: Events, id: string, n: nat)
    requires cfg.Valid() && Timed(events) && n <= |events|
    ensures (forall k :: 0 <= k < n ==> AgreesAfter(cfg, events, k, id))
      <==> (forall k :: 0 <= k < n ==> !ForgivenAt(cfg, events, k, id))
  {
    hide FreshOf, After, Plain, Step, PlainStep, Forgives, Bounded;
    if n > 0 {
      var k := n - 1;
      LimiterIsPlainIff(cfg, events, id, k);
      if forall i :: 0 <= i < k ==> AgreesAfter(cfg, events, i, id) {
        var s, f, e := After(cfg, events[..k]), Plain(cfg, events[..k]), events[k];
        if k > 0 {
          assert AgreesAfter(cfg, events, k - 1, id) && events[..k - 1 + 1] == events[..k];
          FreshOfLater(cfg, s.failures, f, id, events[k - 1].at, e.at);
        } else {
          EmptyAgrees(cfg, events, id, e.at);
        }
        RunOk(cfg, events[..k]);
        StepIsPlainIff(cfg, s, f, e, id);
        OneMore(cfg, events, k);
        assert AgreesAfter(cfg, events, k, id) <==> !ForgivenAt(cfg, events, k, id);
      }
    }
  }

  lemma EmptyAgrees(cfg: Config, events: Events, id: string, now: int)
    ensures FreshOf(cfg, After(cfg, events[..0]).failures, id, now) == FreshOf(cfg, Plain(cfg, events[..0]), id, now)
  {
  }

  /** While nothing forgives an identifier, the limiter answers for it as the plain counter
      does: no sweep, at whatever moment, and no other eviction changes any answer. */
  lemma LimiterIsPlain(cfg: Config, events: Events, id: string, now: int)
    requires cfg.Valid() && Timed(events) && NeverForgiven(cfg, events, id)
    requires forall i :: 0 <= i < |events| ==> events[i].at <= now
    ensures FreshOf(cfg, After(cfg, events).failures, id, now) == FreshOf(cfg, Plain(cfg, events), id, now)
    ensures Allowed(cfg, After(cfg, events).failures, id, now) <==> Allowed(cfg, Plain(cfg, events), id, now)
  {
    hide FreshOf, After, Plain, Allowed, ForgivenAt;
    var n := |events|;
    assert events[..n] == events;
    if n == 0 {
      EmptyAgrees(cfg, events, id, now);
    } else {
      LimiterIsPlainIff(cfg, events, id, n);
      assert AgreesAfter(cfg, events, n - 1, id);
      FreshOfLater(cfg, After(cfg, events).failures, Plain(cfg, events), id, events[n - 1].at, now);
    }
    FreshOfFresh(cfg, After(cfg, events).failures, id, now);
    FreshOfFresh(cfg, Plain(cfg, events), id, now);
  }

  /** A run with no more identifiers than may be tracked forgives nobody. */
  lemma FewForgiveNobody(cfg: Config, events: Events, id: string)
    requires |Ids(events)| <= 8192
    ensures NeverForgiven(cfg, events, id)
  {
    hide After, Ids, Noted, Cleared, Victims;
    forall n | 0 <= n < |events| ensures !ForgivenAt(cfg, events, n, id) {
      if events[n].Fail? { NothingEvicted(cfg, events, n); }
    }
  }

  lemma ForgivenBefore(cfg: Config, events: Events, id: string)
    requires events != [] && NeverForgiven(cfg, events, id)
    ensures NeverForgiven(cfg, events[..|events| - 1], id)
  {
    hide After, Forgives;
    var before := events[..|events| - 1];
    forall n | 0 <= n < |before| ensures !ForgivenAt(cfg, before, n, id) {
      assert before[..n] == events[..n] && !ForgivenAt(cfg, events, n, id);
    }
  }
}
