/** Whole runs of the store as it is, which settles a session when something touches it,
    beside a store that settles everything before each request. Over any requests at all
    their answers are the same, but for the two things only `Open` can tell. */
module LazyRuns {
  import opened Base
  import opened Identifiers
  import opened Sessions
  import opened SessionInvariant
  import opened SessionOpen
  import opened SessionLazy
  import opened SettledOpen

  /** A request, or any records at all being settled at some moment. */
  datatype Step = Ask(request: Request, at: int) | Touch(ids: set<string>, at: int)

  ghost predicate LazyStep(cfg: Config, b: Book, s: Step, b': Book) {
    match s
    case Ask(r, at) => FreshFor(r, b.sessions) && Next(cfg, b, r, at, b')
    case Touch(ids, at) =>
      b'.sessions == SettleIds(cfg, b.sessions, ids, at) && Requeued(b.ended, b'.sessions, b'.ended)
  }

  /** `rested` is the store with everything settled, just before the request. */
  ghost predicate EagerStep(cfg: Config, b: Book, s: Step, rested: Book, b': Book) {
    match s
    case Ask(r, at) =>
      && rested.sessions == Settled(cfg, b.sessions, at) && Requeued(b.ended, rested.sessions, rested.ended)
      && Next(cfg, rested, r, at, b')
    case Touch(_, _) => rested == b && b' == b
  }

  /** The two runs side by side, over the same steps on one clock. */
  ghost predicate Runs(cfg: Config, steps: seq<Step>, lazy: seq<Book>, eager: seq<Book>, rested: seq<Book>) {
    && cfg.Valid() && |lazy| == |eager| == |steps| + 1 && |rested| == |steps|
    && BookOk(cfg, lazy[0]) && lazy[0] == eager[0]
    && (forall i :: 0 <= i < |steps| ==> LazyStep(cfg, lazy[i], steps[i], lazy[i + 1]))
    && (forall i :: 0 <= i < |steps| ==> EagerStep(cfg, eager[i], steps[i], rested[i], eager[i + 1]))
    && (forall i, j :: 0 <= i <= j < |steps| ==> steps[i].at <= steps[j].at)
  }

  /** What may be told of the moment of settling: an `Open` finds the ceiling held by
      sessions that timed out unread, or makes way for a session with a record
      that is not at the front of the eager store's queue. */
  ghost predicate MayTell(cfg: Config, b: Book, rested: Book, s: Step) {
    && s.Ask? && s.request.Open?
    && (TooSoon(cfg, b.sessions, s.request, s.at)
        || (TakesIn(cfg, b.sessions, s.request, s.at) && Dropped(cfg, b) != Dropped(cfg, rested)))
  }

  /** An answer without the count of timeouts a reap was the first to notice. */
  function Visible(a: Answer): Answer {
    match a
    case Swept(_, forgotten) => Swept(0, forgotten)
    case _ => a
  }

  lemma StepKeepsBook(cfg: Config, b: Book, s: Step, b': Book)
    requires cfg.Valid() && BookOk(cfg, b) && LazyStep(cfg, b, s, b')
    ensures BookOk(cfg, b')
  {
    hide Next, FreshFor, SettleIds, Keyed, OnePerPair, Bounded, Wanes;
    match s
    case Ask(r, at) => NextKeepsBook(cfg, b, r, at, b');
    case Touch(ids, at) =>
      SettleIdsWanes(cfg, b.sessions, ids, at);
      WaneKeeps(cfg, b.sessions, b'.sessions);
  }

  /** Settling everything beforehand leaves a store in order, in which nothing has timed
      out unread. */
  lemma RestedOk(cfg: Config, b: Book, now: int, rested: Book)
    requires BookOk(cfg, b)
    requires rested.sessions == Settled(cfg, b.sessions, now) && Enumerates(rested.ended, DeadIds(rested.sessions))
    ensures BookOk(cfg, rested)
  {
    hide Settled, Keyed, OnePerPair, Bounded, Wanes, Enumerates, DeadIds;
    SettledWanes(cfg, b.sessions, now);
    WaneKeeps(cfg, b.sessions, rested.sessions);
  }

  lemma NeverTooSoon(cfg: Config, m: Records, r: Request, now: int)
    ensures !TooSoon(cfg, Settled(cfg, m, now), r, now)
  {
    if Considered(r) {
      hide Settled, SettlePair, LiveIds, PairIds;
      SettledAlready(cfg, m, PairKey(TrimSpace(r.caller), TrimSpace(r.callee)), now);
    }
  }

  lemma ReapAgrees(cfg: Config, b: Book, b': Book, now: int)
    requires cfg.Valid() && Agree(cfg, b.sessions, b'.sessions, now)
    ensures Visible(Serve(cfg, b, Reap, now).answer) == Visible(Serve(cfg, b', Reap, now).answer)
    ensures Agree(cfg, Serve(cfg, b, Reap, now).records, Serve(cfg, b', Reap, now).records, now)
  {
    forall id ensures id in ForgottenIds(cfg, b.sessions, now) <==> id in ForgottenIds(cfg, b'.sessions, now) {
      AgreeOn(cfg, b.sessions, b'.sessions, now, id);
    }
    assert ForgottenIds(cfg, b.sessions, now) == ForgottenIds(cfg, b'.sessions, now);
  }

  /** Any request, to two stores that agree. */
  lemma RequestAgrees(cfg: Config, b: Book, b': Book, r: Request, now: int)
    requires cfg.Valid() && BookOk(cfg, b) && BookOk(cfg, b') && FreshFor(r, b.sessions)
    requires Agree(cfg, b.sessions, b'.sessions, now)
    requires r.Open? ==> !TooSoon(cfg, b.sessions, r, now) && !TooSoon(cfg, b'.sessions, r, now)
    requires r.Open? && TakesIn(cfg, b.sessions, r, now) ==> Dropped(cfg, b) == Dropped(cfg, b')
    ensures Visible(Serve(cfg, b, r, now).answer) == Visible(Serve(cfg, b', r, now).answer)
    ensures Agree(cfg, Serve(cfg, b, r, now).records, Serve(cfg, b', r, now).records, now)
  {
    assert OnePerPair(b.sessions) && OnePerPair(b'.sessions);
    hide Serve, Agree, BookOk, TooSoon, TakesIn, Dropped, FreshFor, OnePerPair;
    if r.Open? {
      OpenAnswersAlike(cfg, b, b', r, now);
      OpenAgreesIff(cfg, b, b', r, now);
    } else if r.Reap? {
      ReapAgrees(cfg, b, b', now);
    } else {
      ReadAgrees(cfg, b, b', r, now);
    }
  }

  lemma RunsStep(cfg: Config, steps: seq<Step>, lazy: seq<Book>, eager: seq<Book>, rested: seq<Book>, k: nat)
    requires Runs(cfg, steps, lazy, eager, rested) && k < |steps|
    ensures LazyStep(cfg, lazy[k], steps[k], lazy[k + 1])
    ensures EagerStep(cfg, eager[k], steps[k], rested[k], eager[k + 1])
    ensures k > 0 ==> steps[k - 1].at <= steps[k].at
  {
  }

  /** The two runs so far: both in order, and no reader can tell their states apart. */
  ghost predicate Alike(cfg: Config, b: Book, b': Book, now: int) {
    BookOk(cfg, b) && BookOk(cfg, b') && Agree(cfg, b.sessions, b'.sessions, now)
  }

  lemma AlikeLater(cfg: Config, b: Book, b': Book, t: int, now: int)
    requires Alike(cfg, b, b', t) && t <= now
    ensures Alike(cfg, b, b', now)
  {
    hide BookOk, Agree;
    AgreeLater(cfg, b.sessions, b'.sessions, t, now);
  }

  lemma RestedAlike(cfg: Config, b: Book, b': Book, s: Step, rested: Book, b'': Book)
    requires Alike(cfg, b, b', s.at) && s.Ask? && EagerStep(cfg, b', s, rested, b'')
    requires FreshFor(s.request, b.sessions)
    ensures Alike(cfg, b, rested, s.at) && FreshFor(s.request, rested.sessions)
    ensures !TooSoon(cfg, rested.sessions, s.request, s.at)
  {
    RestedOk(cfg, b', s.at, rested);
    hide BookOk, Next, TooSoon, SettleOne;
    SettledTwice(cfg, b'.sessions, s.at, s.at);
    NeverTooSoon(cfg, b'.sessions, s.request, s.at);
    SameKeys(cfg, b.sessions, b'.sessions, s.at);
  }

  lemma SameKeys(cfg: Config, m: Records, m': Records, now: int)
    requires Agree(cfg, m, m', now)
    ensures m.Keys == m'.Keys == Settled(cfg, m', now).Keys
  {
    assert m.Keys == Settled(cfg, m, now).Keys && m'.Keys == Settled(cfg, m', now).Keys;
  }

  /** One step of both runs. */
  lemma StepAlike(cfg: Config, b: Book, b': Book, s: Step, rested: Book, c: Book, c': Book)
    requires cfg.Valid() && Alike(cfg, b, b', s.at) && !MayTell(cfg, b, rested, s)
    requires LazyStep(cfg, b, s, c) && EagerStep(cfg, b', s, rested, c')
    ensures Alike(cfg, c, c', s.at)
  {
    hide BookOk, Agree, TooSoon, TakesIn, Dropped, FreshFor, Serve, Requeued, SettleIds, Settled, InTurn;
    StepKeepsBook(cfg, b, s, c);
    match s
    case Ask(r, at) =>
      RestedAlike(cfg, b, b', s, rested, c');
      RequestAgrees(cfg, b, rested, r, at);
      NextKeepsBook(cfg, rested, r, at, c');
    case Touch(ids, at) =>
      TouchAgrees(cfg, b.sessions, ids, at, at);
      AgreeOver(cfg, b.sessions, c.sessions, b'.sessions, at);
  }

  lemma AgreeOver(cfg: Config, m: Records, n: Records, m': Records, now: int)
    requires Agree(cfg, m, n, now) && Agree(cfg, m, m', now)
    ensures Agree(cfg, n, m', now)
  {
  }

  lemma {:induction false} RunsAlike(cfg: Config, steps: seq<Step>, lazy: seq<Book>, eager: seq<Book>,
                                     rested: seq<Book>, n: nat, now: int)
    requires Runs(cfg, steps, lazy, eager, rested) && n <= |steps|
    requires forall k :: 0 <= k < n ==> !MayTell(cfg, lazy[k], rested[k], steps[k])
    requires n > 0 ==> steps[n - 1].at <= now
    ensures Alike(cfg, lazy[n], eager[n], now)
  {
    if n > 0 {
      hide LazyStep, EagerStep, MayTell, Alike;
      var k := n - 1;
      RunsStep(cfg, steps, lazy, eager, rested, k);
      RunsAlike(cfg, steps, lazy, eager, rested, k, steps[k].at);
      StepAlike(cfg, lazy[k], eager[k], steps[k], rested[k], lazy[n], eager[n]);
      AlikeLater(cfg, lazy[n], eager[n], steps[k].at, now);
    }
  }

  /** Over any run of any requests, with any records settled at any moments on the way: so
      long as nothing has told, the store answers the next request as the one that settles
      everything first does, if and only if that is not an `Open` that finds the ceiling
      held by sessions that timed out unread. */
  lemma LazyIsEager(cfg: Config, steps: seq<Step>, lazy: seq<Book>, eager: seq<Book>, rested: seq<Book>, i: nat)
    requires Runs(cfg, steps, lazy, eager, rested) && i < |steps| && steps[i].Ask?
    requires forall k :: 0 <= k < i ==> !MayTell(cfg, lazy[k], rested[k], steps[k])
    ensures Visible(Serve(cfg, lazy[i], steps[i].request, steps[i].at).answer)
         == Visible(Serve(cfg, rested[i], steps[i].request, steps[i].at).answer)
      <==> !(steps[i].request.Open? && TooSoon(cfg, lazy[i].sessions, steps[i].request, steps[i].at))
  {
    hide LazyStep, EagerStep, MayTell, Alike;
    var b, s := lazy[i], steps[i];
    RunsAlike(cfg, steps, lazy, eager, rested, i, s.at);
    RunsStep(cfg, steps, lazy, eager, rested, i);
    AnswerAlikeIff(cfg, b, eager[i], s, rested[i], lazy[i + 1], eager[i + 1]);
  }

  lemma AnswerAlikeIff(cfg: Config, b: Book, b': Book, s: Step, rested: Book, c: Book, c': Book)
    requires cfg.Valid() && Alike(cfg, b, b', s.at) && s.Ask?
    requires LazyStep(cfg, b, s, c) && EagerStep(cfg, b', s, rested, c')
    ensures Visible(Serve(cfg, b, s.request, s.at).answer) == Visible(Serve(cfg, rested, s.request, s.at).answer)
      <==> !(s.request.Open? && TooSoon(cfg, b.sessions, s.request, s.at))
  {
    hide Serve, BookOk, TooSoon, FreshFor, Next, Settled;
    RestedAlike(cfg, b, b', s, rested, c');
    match s.request
    case Open(_, _, _, _) => OpenAnswersIff(cfg, b, rested, s.request, s.at);
    case Reap => ReapAgrees(cfg, b, rested, s.at);
    case _ => ReadAgrees(cfg, b, rested, s.request, s.at);
  }

  lemma OpenAnswersIff(cfg: Config, b: Book, rested: Book, r: Request, now: int)
    requires r.Open? && Alike(cfg, b, rested, now) && !TooSoon(cfg, rested.sessions, r, now)
    ensures Visible(Serve(cfg, b, r, now).answer) == Visible(Serve(cfg, rested, r, now).answer)
      <==> !TooSoon(cfg, b.sessions, r, now)
  {
    ConsideredServed(cfg, b, rested, r, now);
    ConsideredServed(cfg, rested, b, r, now);
    if Considered(r) {
      var caller, callee := TrimSpace(r.caller), TrimSpace(r.callee);
      OpenSeesUnsettledCeiling(cfg, b, [], caller, callee, r.newId, now);
      OpenSeesUnsettledCeiling(cfg, rested, [], caller, callee, r.newId, now);
      OpenIsOne(cfg, b, caller, callee, r.newId, now);
      OpenIsOne(cfg, rested, caller, callee, r.newId, now);
    }
  }

  lemma OpenIsOne(cfg: Config, b: Book, caller: string, callee: string, newId: Option<string>, now: int)
    ensures OpenOutcome(cfg, b, caller, callee, newId, now).answer.One?
  {
  }

  /** And past an `Open` that did not find that, every read is still answered alike if and
      only if it made way for no session or both stores made way with the same record. */
  lemma OpenTellsIff(cfg: Config, steps: seq<Step>, lazy: seq<Book>, eager: seq<Book>, rested: seq<Book>, i: nat)
    requires Runs(cfg, steps, lazy, eager, rested) && i < |steps| && steps[i].Ask? && steps[i].request.Open?
    requires forall k :: 0 <= k < i ==> !MayTell(cfg, lazy[k], rested[k], steps[k])
    requires !TooSoon(cfg, lazy[i].sessions, steps[i].request, steps[i].at)
    ensures ReadAlike(cfg, lazy[i + 1].sessions, eager[i + 1].sessions, steps[i].at)
      <==> !MayTell(cfg, lazy[i], rested[i], steps[i])
  {
    hide LazyStep, EagerStep, Alike, TooSoon, TakesIn, Dropped, ReadAlike;
    RunsAlike(cfg, steps, lazy, eager, rested, i, steps[i].at);
    RunsStep(cfg, steps, lazy, eager, rested, i);
    AfterOpenIff(cfg, lazy[i], eager[i], steps[i], rested[i], lazy[i + 1], eager[i + 1]);
    AgreeIffReadAlike(cfg, lazy[i + 1].sessions, eager[i + 1].sessions, steps[i].at);
  }

  lemma AfterOpenIff(cfg: Config, b: Book, b': Book, s: Step, rested: Book, c: Book, c': Book)
    requires cfg.Valid() && Alike(cfg, b, b', s.at) && s.Ask? && s.request.Open?
    requires LazyStep(cfg, b, s, c) && EagerStep(cfg, b', s, rested, c') && !TooSoon(cfg, b.sessions, s.request, s.at)
    ensures Agree(cfg, c.sessions, c'.sessions, s.at) <==> !MayTell(cfg, b, rested, s)
  {
    hide Serve, BookOk, TooSoon, TakesIn, Dropped, FreshFor, Settled, Agree, Requeued, InTurn;
    RestedAlike(cfg, b, b', s, rested, c');
    OpenAgreesIff(cfg, b, rested, s.request, s.at);
  }
}
