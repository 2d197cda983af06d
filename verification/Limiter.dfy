/** The attempt limiter as a value: what each call records, what a sweep and an eviction
    take away, and what every state it reaches satisfies. */
module Limiter {
  import opened Base

  const SWEEP_THRESHOLD := 1024
  const MAX_TRACKED := 8192

  datatype Config = Config(allowance: int, window: int) {
    predicate Valid() { allowance > 0 && window > 0 }
  }

  /** One identifier's failures inside the window that started at `startedAt`. */
  datatype Record = Record(count: int, startedAt: int)

  type Failures = map<string, Record>

  /** `lastSweep` is absent until the first sweep. */
  datatype State = State(failures: Failures, order: seq<string>, lastSweep: Option<int>)

  predicate Expired(cfg: Config, r: Record, now: int) {
    now - r.startedAt > cfg.window
  }

  predicate Allowed(cfg: Config, f: Failures, id: string, now: int) {
    id !in f || Expired(cfg, f[id], now) || f[id].count < cfg.allowance
  }

  /** The record one more failure leaves. */
  function Counted(cfg: Config, f: Failures, id: string, now: int): Record {
    if id in f && !Expired(cfg, f[id], now) then Record(f[id].count + 1, f[id].startedAt) else Record(1, now)
  }

  /** The plain counter: one record per identifier, nothing ever cleared out. */
  function Recorded(cfg: Config, f: Failures, id: string, now: int): Failures {
    f[id := Counted(cfg, f, id, now)]
  }

  /** The records whose window has not passed: all that any answer depends on. */
  ghost function Fresh(cfg: Config, f: Failures, now: int): Failures {
    map id | id in f && !Expired(cfg, f[id], now) :: f[id]
  }

  ghost function Swept(cfg: Config, s: State, now: int): State {
    var f := Fresh(cfg, s.failures, now);
    State(f, Kept(s.order, f.Keys), Some(now))
  }

  /** The front of the queue that is still tracked, if any is. */
  ghost function Victims(s: State): (ids: set<string>)
    ensures ids <= s.failures.Keys
    decreases |s.order|
  {
    if s.order == [] then {}
    else if s.order[0] in s.failures then {s.order[0]}
    else Victims(s.(order := s.order[1..]))
  }

  ghost function Evicted(s: State): State
    decreases |s.order|
  {
    if s.order == [] then s
    else if s.order[0] in s.failures then s.(failures := s.failures - {s.order[0]}, order := s.order[1..])
    else Evicted(s.(order := s.order[1..]))
  }

  predicate SweepDue(cfg: Config, s: State, now: int) {
    |s.failures| > SWEEP_THRESHOLD && (s.lastSweep.None? || now - s.lastSweep.value >= cfg.window)
  }

  ghost function Noted(cfg: Config, s: State, id: string, now: int): State {
    s.(failures := Recorded(cfg, s.failures, id, now),
       order := if id in s.failures then s.order else s.order + [id])
  }

  ghost function Cleared(cfg: Config, s: State, now: int): State {
    if SweepDue(cfg, s, now) then Swept(cfg, s, now) else s
  }

  /** The state `Failed` evicts from, and the record it evicts, if any. */
  ghost function BeforeEviction(cfg: Config, s: State, id: string, now: int): State {
    Cleared(cfg, Noted(cfg, s, id, now), now)
  }

  ghost function Evictees(cfg: Config, s: State, id: string, now: int): (ids: set<string>)
    ensures ids <= BeforeEviction(cfg, s, id, now).failures.Keys
  {
    var t := BeforeEviction(cfg, s, id, now);
    if |t.failures| > MAX_TRACKED then Victims(t) else {}
  }

  ghost function Failed(cfg: Config, s: State, id: string, now: int): State {
    var t := BeforeEviction(cfg, s, id, now);
    if |t.failures| > MAX_TRACKED then Evicted(t) else t
  }

  ghost function Succeeded(s: State, id: string): State {
    s.(failures := s.failures - {id})
  }

  /** Every tracked identifier is somewhere in the queue. */
  ghost predicate Queued(s: State) {
    forall id :: id in s.failures ==> id in s.order
  }

  ghost predicate Bounded(s: State) {
    Queued(s) && |s.failures| <= MAX_TRACKED
  }

  lemma SweptQueued(cfg: Config, s: State, now: int)
    requires Queued(s)
    ensures Queued(Swept(cfg, s, now)) && |Swept(cfg, s, now).failures| <= |s.failures|
  {
    var f := Fresh(cfg, s.failures, now);
    KeptElems(s.order, f.Keys);
    SubsetSize(f.Keys, s.failures.Keys);
  }

  /** With every tracked identifier queued, an eviction removes exactly one record and
      keeps it so: the loop that evicts while there are too many cannot spin. */
  lemma {:induction false} EvictsOne(s: State)
    requires Queued(s) && s.failures != map[]
    ensures exists id :: id in s.failures && Victims(s) == {id}
    ensures Evicted(s).failures == s.failures - Victims(s)
    ensures |Evicted(s).failures| == |s.failures| - 1
    ensures Queued(Evicted(s)) && Evicted(s).lastSweep == s.lastSweep
    decreases |s.order|
  {
    var any :| any in s.failures;
    assert any in s.order && s.order == [s.order[0]] + s.order[1..];
    var front := s.order[0];
    if front in s.failures {
      assert (s.failures - {front}).Keys == s.failures.Keys - {front};
      assert Victims(s) == {front};
    } else {
      EvictsOne(s.(order := s.order[1..]));
    }
  }

  /** Of the tracked identifiers, the one evicted is the one queued first. */
  lemma {:induction false} EvictsTheFirst(s: State) returns (k: nat)
    requires Queued(s) && s.failures != map[]
    ensures k < |s.order| && Victims(s) == {s.order[k]} && s.order[k] in s.failures
    ensures forall j :: 0 <= j < k ==> s.order[j] !in s.failures
    ensures Evicted(s).failures == s.failures - {s.order[k]} && Evicted(s).order == s.order[k + 1..]
    decreases |s.order|
  {
    var any :| any in s.failures;
    assert any in s.order && s.order == [s.order[0]] + s.order[1..];
    if s.order[0] in s.failures {
      k := 0;
    } else {
      var l := EvictsTheFirst(s.(order := s.order[1..]));
      k := l + 1;
      assert s.order[1..][l + 1..] == s.order[k + 1..];
    }
  }

  lemma NotedQueued(cfg: Config, s: State, id: string, now: int)
    requires Queued(s)
    ensures Queued(Noted(cfg, s, id, now))
    ensures |Noted(cfg, s, id, now).failures| <= |s.failures| + 1
  {
  }

  /** After every call at most MAX_TRACKED identifiers are tracked, each of them queued. */
  lemma CallsKeepBounded(cfg: Config, s: State, id: string, now: int)
    requires Bounded(s)
    ensures Bounded(Failed(cfg, s, id, now))
    ensures Bounded(Succeeded(s, id))
    ensures Bounded(Swept(cfg, s, now))
  {
    NotedQueued(cfg, s, id, now);
    SweptQueued(cfg, Noted(cfg, s, id, now), now);
    SweptQueued(cfg, s, now);
    SubsetSize(Succeeded(s, id).failures.Keys, s.failures.Keys);
    var t := Cleared(cfg, Noted(cfg, s, id, now), now);
    if |t.failures| > MAX_TRACKED { EvictsOne(t); }
  }

  /** A failure that leaves more than 1024 identifiers tracked, when nothing was swept for a
      window, leaves none whose window has passed. */
  lemma FailedSweepsWhenDue(cfg: Config, s: State, id: string, now: int)
    requires cfg.Valid() && Bounded(s) && |s.failures.Keys + {id}| > 1024
    requires s.lastSweep.None? || now - s.lastSweep.value >= cfg.window
    ensures var s' := Failed(cfg, s, id, now);
            s'.lastSweep == Some(now) && forall x :: x in s'.failures ==> now - s'.failures[x].startedAt <= cfg.window
  {
    hide Victims, Evicted;
    NotedSize(cfg, s, id, now);
    NotedQueued(cfg, s, id, now);
    SweptQueued(cfg, Noted(cfg, s, id, now), now);
    var t := BeforeEviction(cfg, s, id, now);
    if |t.failures| > MAX_TRACKED { EvictsOne(t); }
  }

  /** Otherwise nothing is swept: everybody tracked is tracked still, and the one who failed,
      but for one evicted if that makes more than 8192. */
  lemma FailedKeepsOtherwise(cfg: Config, s: State, id: string, now: int)
    requires cfg.Valid() && Bounded(s)
    requires |s.failures.Keys + {id}| <= 1024 || (s.lastSweep.Some? && now - s.lastSweep.value < cfg.window)
    ensures var s' := Failed(cfg, s, id, now);
            && s'.failures.Keys <= s.failures.Keys + {id} && s'.lastSweep == s.lastSweep
            && |s'.failures| == (if |s.failures.Keys + {id}| <= 8192 then |s.failures.Keys + {id}| else 8192)
            && (forall x :: x in s'.failures ==> s'.failures[x] == if x == id then Counted(cfg, s.failures, id, now) else s.failures[x])
  {
    hide Victims, Evicted;
    NotedSize(cfg, s, id, now);
    NotedQueued(cfg, s, id, now);
    var t := BeforeEviction(cfg, s, id, now);
    if |t.failures| > MAX_TRACKED { EvictsOne(t); }
  }

  lemma NotedSize(cfg: Config, s: State, id: string, now: int)
    ensures Noted(cfg, s, id, now).failures.Keys == s.failures.Keys + {id}
    ensures |Noted(cfg, s, id, now).failures| == |s.failures.Keys + {id}| <= |s.failures| + 1
  {
    var f := Noted(cfg, s, id, now).failures;
    assert f.Keys == s.failures.Keys + {id};
    assert |f| == |f.Keys| && |s.failures| == |s.failures.Keys|;
  }
}
