/** How many failures of one identifier fit in one window's length when every attempt is
    asked for first, and what an eviction gives away. */
module LimiterBound {
  import opened Base
  import opened Limiter
  import opened LimiterRuns
  import FixedWindow

  /** Each failure of `id` was preceded, in the same handler step, by a permission. */
  ghost predicate Guarded(cfg: Config, events: Events, id: string) {
    forall i :: 0 <= i < |events| && events[i].Fail? && events[i].id == id ==>
      Allowed(cfg, After(cfg, events[..i]).failures, id, events[i].at)
  }

  ghost predicate NeverSucceeds(events: Events, id: string) {
    forall i :: 0 <= i < |events| ==> !(events[i].Succeed? && events[i].id == id)
  }

  /** The moments at which a failure of `id` was recorded. */
  ghost function Times(events: Events, id: string): seq<int> {
    if events == [] then []
    else
      var e, before := events[|events| - 1], Times(events[..|events| - 1], id);
      if e.Fail? && e.id == id then before + [e.at] else before
  }

  /** The same moments with the window each was counted in. */
  ghost function Marks(cfg: Config, events: Events, id: string): seq<FixedWindow.Mark> {
    if events == [] then []
    else
      var n := |events| - 1;
      var e, before := events[n], Marks(cfg, events[..n], id);
      if e.Fail? && e.id == id then
        var c := Counted(cfg, Plain(cfg, events[..n]), id, e.at);
        before + [FixedWindow.Mark(e.at, c.startedAt, c.count)]
      else before
  }

  ghost predicate OpenOnEvents(marks: seq<FixedWindow.Mark>) {
    forall k :: 0 <= k < |marks| && marks[k].count == 1 ==> marks[k].at == marks[k].start
  }

  /** The last mark is the record the plain counter holds. */
  ghost predicate LastMarkHeld(marks: seq<FixedWindow.Mark>, f: Failures, id: string) {
    if marks == [] then id !in f
    else id in f && f[id] == Record(marks[|marks| - 1].count, marks[|marks| - 1].start)
  }

  lemma {:induction false} MarksAreTimes(cfg: Config, events: Events, id: string)
    ensures |Marks(cfg, events, id)| == |Times(events, id)|
    ensures forall k :: 0 <= k < |Times(events, id)| ==> Marks(cfg, events, id)[k].at == Times(events, id)[k]
  {
    if events != [] { MarksAreTimes(cfg, events[..|events| - 1], id); }
  }

  lemma {:induction false} MarksBefore(cfg: Config, events: Events, id: string, now: int)
    requires forall i :: 0 <= i < |events| ==> events[i].at <= now
    ensures forall k :: 0 <= k < |Marks(cfg, events, id)| ==> Marks(cfg, events, id)[k].at <= now
  {
    if events != [] { MarksBefore(cfg, events[..|events| - 1], id, now); }
  }

  lemma MarkAppends(marks: seq<FixedWindow.Mark>, f: Failures, id: string, cfg: Config, now: int)
    requires cfg.Valid() && FixedWindow.Counted(marks, cfg.allowance, cfg.window) && OpenOnEvents(marks)
    requires LastMarkHeld(marks, f, id) && Allowed(cfg, f, id, now)
    requires forall k :: 0 <= k < |marks| ==> marks[k].at <= now
    ensures var c := Counted(cfg, f, id, now);
            var more := marks + [FixedWindow.Mark(now, c.startedAt, c.count)];
            FixedWindow.Counted(more, cfg.allowance, cfg.window) && OpenOnEvents(more)
  {
  }

  lemma GuardedBefore(cfg: Config, events: Events, id: string)
    requires events != [] && Timed(events) && Guarded(cfg, events, id) && NeverSucceeds(events, id)
    ensures var before, e := events[..|events| - 1], events[|events| - 1];
            && Timed(before) && Guarded(cfg, before, id) && NeverSucceeds(before, id)
            && (forall i :: 0 <= i < |before| ==> before[i].at <= e.at)
            && (e.Fail? && e.id == id ==> Allowed(cfg, After(cfg, before).failures, id, e.at))
            && !(e.Succeed? && e.id == id)
  {
    hide After, Allowed;
    var n := |events| - 1;
    assert forall i :: 0 <= i < n ==> events[..n][..i] == events[..i];
  }

  lemma {:induction false} MarksCounted(cfg: Config, events: Events, id: string)
    requires cfg.Valid() && Timed(events) && NeverForgiven(cfg, events, id)
    requires Guarded(cfg, events, id) && NeverSucceeds(events, id)
    ensures FixedWindow.Counted(Marks(cfg, events, id), cfg.allowance, cfg.window)
    ensures OpenOnEvents(Marks(cfg, events, id))
    ensures LastMarkHeld(Marks(cfg, events, id), Plain(cfg, events), id)
  {
    if events != [] {
      var n := |events| - 1;
      var before, e := events[..n], events[n];
      ForgivenBefore(cfg, events, id);
      GuardedBefore(cfg, events, id);
      hide FixedWindow.Counted, After, NeverForgiven, Guarded, NeverSucceeds, Timed, OpenOnEvents, Allowed;
      MarksCounted(cfg, before, id);
      if e.Fail? && e.id == id {
        LimiterIsPlain(cfg, before, id, e.at);
        MarksBefore(cfg, before, id, e.at);
        MarkAppends(Marks(cfg, before, id), Plain(cfg, before), id, cfg, e.at);
      }
    }
  }

  /** With attempts asked for first, no success of the identifier and no eviction of its
      record while its window is open, any interval no longer than the window holds at most
      twice the allowance less one of its failures, whatever is swept or evicted besides. */
  lemma FailuresInAWindow(cfg: Config, events: Events, id: string, i: nat, j: nat)
    requires cfg.Valid() && Timed(events) && NeverForgiven(cfg, events, id)
    requires Guarded(cfg, events, id) && NeverSucceeds(events, id)
    requires i <= j < |Times(events, id)| && Times(events, id)[j] - Times(events, id)[i] <= cfg.window
    ensures j - i + 1 <= 2 * cfg.allowance - 1
  {
    MarksCounted(cfg, events, id);
    MarksAreTimes(cfg, events, id);
    if j - i >= 2 * cfg.allowance - 1 {
      FixedWindow.FewerThanTwice(Marks(cfg, events, id), cfg.allowance, cfg.window, i, j);
    }
  }

  // --- the bound is reached ------------------------------------------------------------

  /** One failure, the rest of the allowance as its window closes, a whole allowance after. */
  ghost function Burst(cfg: Config, n: nat): Events {
    seq(n, k => Fail("x", if k == 0 then 0 else if k < cfg.allowance then cfg.window else cfg.window + 1))
  }

  lemma {:induction false} BurstCounts(cfg: Config, n: nat)
    requires cfg.Valid() && n <= 2 * cfg.allowance
    ensures n == 0 ==> Plain(cfg, Burst(cfg, n)) == map[]
    ensures 0 < n <= cfg.allowance ==> Plain(cfg, Burst(cfg, n)) == map["x" := Record(n, 0)]
    ensures n > cfg.allowance ==>
      Plain(cfg, Burst(cfg, n)) == map["x" := Record(n - cfg.allowance, cfg.window + 1)]
    ensures |Times(Burst(cfg, n), "x")| == n
    ensures forall k :: 0 <= k < n ==> Times(Burst(cfg, n), "x")[k] == Burst(cfg, n)[k].at
  {
    if n > 0 {
      assert Burst(cfg, n)[..n - 1] == Burst(cfg, n - 1);
      BurstCounts(cfg, n - 1);
    }
  }

  /** For every allowance and window there is a permitted run in which twice the allowance
      less one failures fall within the window's length: the bound cannot be lowered. */
  lemma BoundIsReached(cfg: Config)
    requires cfg.Valid()
    ensures var events := Burst(cfg, 2 * cfg.allowance);
            && Timed(events) && NeverForgiven(cfg, events, "x")
            && Guarded(cfg, events, "x") && NeverSucceeds(events, "x")
            && |Times(events, "x")| == 2 * cfg.allowance
            && Times(events, "x")[2 * cfg.allowance - 1] - Times(events, "x")[1] <= cfg.window
  {
    hide Burst, After, Plain, Allowed, Times;
    var n := 2 * cfg.allowance;
    BurstCounts(cfg, n);
    BurstShape(cfg, n);
    FewForgiveNobody(cfg, Burst(cfg, n), "x");
    forall i | 0 <= i < n ensures Allowed(cfg, After(cfg, Burst(cfg, n)[..i]).failures, "x", Burst(cfg, n)[i].at) {
      BurstAllowed(cfg, n, i);
    }
  }

  lemma BurstShape(cfg: Config, n: nat)
    requires cfg.Valid() && n > 0
    ensures |Burst(cfg, n)| == n && Timed(Burst(cfg, n)) && |Ids(Burst(cfg, n))| <= 1
    ensures forall k :: 0 <= k < n ==> Burst(cfg, n)[k].Fail? && Burst(cfg, n)[k].id == "x"
    ensures n > 1 ==> Burst(cfg, n)[n - 1].at - Burst(cfg, n)[1].at <= 1
  {
    SubsetSize(Ids(Burst(cfg, n)), {"x"});
  }

  lemma BurstAllowed(cfg: Config, n: nat, i: nat)
    requires cfg.Valid() && i < n <= 2 * cfg.allowance
    ensures Allowed(cfg, After(cfg, Burst(cfg, n)[..i]).failures, "x", Burst(cfg, n)[i].at)
  {
    hide After, Plain, Ids;
    var before := Burst(cfg, i);
    assert Burst(cfg, n)[..i] == before;
    BurstCounts(cfg, i);
    BurstShape(cfg, n);
    PrefixIds(Burst(cfg, n), i);
    FewForgiveNobody(cfg, before, "x");
    LimiterIsPlain(cfg, before, "x", Burst(cfg, n)[i].at);
  }

  // --- past MAX_TRACKED identifiers an eviction forgives -----------------------------------

  function Name(i: nat): string {
    seq(i + 1, _ => 'a')
  }

  /** One identifier spends its allowance, then `n` others fail once each, all at once. */
  ghost function Crowd(cfg: Config, n: nat): Events
    requires cfg.Valid()
  {
    if n == 0 then seq(cfg.allowance, _ => Fail(Name(0), 0))
    else Crowd(cfg, n - 1) + [Fail(Name(n), 0)]
  }

  ghost predicate Crowded(cfg: Config, s: State, n: nat) {
    && |s.failures| == n + 1 && s.order != [] && s.order[0] == Name(0)
    && (forall x :: x in s.failures ==> |x| <= n + 1 && s.failures[x].startedAt == 0)
    && (forall x :: x in s.order ==> x in s.failures)
    && Name(0) in s.failures && s.failures[Name(0)].count == cfg.allowance
    && (s.lastSweep == None || s.lastSweep == Some(0))
  }

  lemma CrowdStep(cfg: Config, s: State, n: nat)
    requires cfg.Valid() && Crowded(cfg, s, n)
    ensures Crowded(cfg, Cleared(cfg, Noted(cfg, s, Name(n + 1), 0), 0), n + 1)
  {
    var x := Name(n + 1);
    assert |x| == n + 2 && |Name(0)| == 1;
    var t := Noted(cfg, s, x, 0);
    assert t.failures == s.failures[x := Record(1, 0)] && t.order == s.order + [x];
    NothingStale(cfg, t);
    assert t.failures.Keys == s.failures.Keys + {x};
    assert |t.failures| == |t.failures.Keys| && |s.failures| == |s.failures.Keys|;
  }

  lemma NothingStale(cfg: Config, t: State)
    requires cfg.Valid() && forall x :: x in t.failures ==> t.failures[x].startedAt == 0
    requires forall x :: x in t.order ==> x in t.failures
    ensures Swept(cfg, t, 0) == t.(lastSweep := Some(0))
  {
    assert Fresh(cfg, t.failures, 0) == t.failures;
    KeptAll(t.order, t.failures.Keys);
  }

  lemma {:induction false} SpendAllowance(cfg: Config, k: nat)
    requires cfg.Valid()
    ensures var s := After(cfg, seq(k, _ => Fail(Name(0), 0)));
            k > 0 ==> s == State(map[Name(0) := Record(k, 0)], [Name(0)], None)
    ensures k == 0 ==> After(cfg, seq(k, _ => Fail(Name(0), 0))) == State(map[], [], None)
  {
    var all := seq(k, _ => Fail(Name(0), 0));
    if k > 0 {
      assert all[..k - 1] == seq(k - 1, _ => Fail(Name(0), 0));
      SpendAllowance(cfg, k - 1);
    }
  }

  lemma CrowdedSize(cfg: Config, s: State, n: nat)
    requires Crowded(cfg, s, n)
    ensures |s.failures| == n + 1
  {
  }

  lemma CrowdRun(cfg: Config, n: nat)
    requires cfg.Valid()
    ensures After(cfg, Crowd(cfg, n + 1)) == Failed(cfg, After(cfg, Crowd(cfg, n)), Name(n + 1), 0)
  {
  }

  lemma CrowdStart(cfg: Config)
    requires cfg.Valid()
    ensures Crowded(cfg, After(cfg, Crowd(cfg, 0)), 0)
  {
    SpendAllowance(cfg, cfg.allowance);
    var f := map[Name(0) := Record(cfg.allowance, 0)];
    assert |f.Keys| == |{Name(0)}| == 1;
    assert |Name(0)| == 1;
  }

  lemma {:induction false} CrowdState(cfg: Config, n: nat)
    requires cfg.Valid() && n < MAX_TRACKED
    ensures Crowded(cfg, After(cfg, Crowd(cfg, n)), n)
  {
    hide Crowded, Noted, Cleared, Evicted, After, Crowd;
    if n == 0 {
      CrowdStart(cfg);
    } else {
      var s := After(cfg, Crowd(cfg, n - 1));
      CrowdState(cfg, n - 1);
      CrowdRun(cfg, n - 1);
      CrowdStep(cfg, s, n - 1);
      CrowdedSize(cfg, Cleared(cfg, Noted(cfg, s, Name(n), 0), 0), n);
    }
  }

  /** It does forgive: an identifier at its allowance is refused, and is allowed again
      within the same instant once MAX_TRACKED others have failed. */
  lemma EvictionForgives(cfg: Config)
    requires cfg.Valid()
    ensures !Allowed(cfg, After(cfg, Crowd(cfg, MAX_TRACKED - 1)).failures, Name(0), 0)
    ensures Allowed(cfg, After(cfg, Crowd(cfg, MAX_TRACKED)).failures, Name(0), 0)
  {
    var n := MAX_TRACKED - 1;
    CrowdState(cfg, n);
    CrowdStep(cfg, After(cfg, Crowd(cfg, n)), n);
    CrowdRun(cfg, n);
  }
}
