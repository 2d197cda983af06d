/** The registry told from its history alone: when each peer was last heard, and how long
    ago that is, decide every lookup, heartbeat, admission, count and expiry. */
module RegistryHistory {
  import opened Base
  import opened Identifiers
  import opened Registry
  import opened RegistryRuns

  // --- silence -----------------------------------------------------------------

  /** Where a peer stands is how long it has been silent: up to the suspect window online,
      up to the offline window suspect, and past that gone. */
  lemma SilenceLaw(cfg: Config, r: Record, now: int)
    requires cfg.Valid()
    ensures StateOf(cfg, r, now) == Online <==> now - r.lastSeen <= cfg.suspect
    ensures StateOf(cfg, r, now) == Suspect <==> cfg.suspect < now - r.lastSeen <= cfg.offline
    ensures StateOf(cfg, r, now) == Gone <==> now - r.lastSeen > cfg.offline
  {
  }

  /** An expiry removes exactly the peers last seen more than the offline window ago, names
      exactly those, and leaves the others as they were. */
  lemma ExpiryLaw(cfg: Config, m: Peers, now: int, p: string)
    requires cfg.Valid()
    ensures var m' := After(cfg, m, Expire, now);
            && (p in m' <==> p in m && now - m[p].lastSeen <= cfg.offline)
            && (p in m' ==> m'[p] == m[p])
    ensures p in GoneIds(cfg, m, now) <==> p in m && now - m[p].lastSeen > cfg.offline
  {
  }

  /** A heartbeat of a peer last seen within the offline window makes it seen now and no
      other difference; any other is told to register, and is not held afterwards. */
  lemma HeartbeatLaw(cfg: Config, m: Peers, p: string, now: int)
    requires cfg.Valid()
    ensures p in m && now - m[p].lastSeen <= cfg.offline ==>
      && HeartbeatAnswer(cfg, m, p, now) == Ok(Peer(p, m[p].registeredAt, now, Online))
      && After(cfg, m, Heartbeat(p), now) == m[p := Record(m[p].registeredAt, now)]
    ensures !(p in m && now - m[p].lastSeen <= cfg.offline) ==>
      HeartbeatAnswer(cfg, m, p, now) == Err(NotRegistered) && After(cfg, m, Heartbeat(p), now) == m - {p}
  {
  }

  /** An accepted registration makes the peer seen now, and first registered when it was if
      it is held. It costs nobody but peers past the offline window their place. */
  lemma RegistrationLaw(cfg: Config, m: Peers, raw: string, now: int, x: string)
    requires cfg.Valid() && RegisterAnswer(cfg, m, TrimSpace(raw), now).Ok?
    ensures var p := TrimSpace(raw);
            var r := Record(if p in m then m[p].registeredAt else now, now);
            var m' := After(cfg, m, Register(raw), now);
            && RegisterAnswer(cfg, m, p, now) == Ok(Peer(p, r.registeredAt, now, Online))
            && p in m' && m'[p] == r
            && (x != p && x in m && now - m[x].lastSeen <= cfg.offline ==> x in m' && m'[x] == m[x])
            && (x != p && x in m' ==> x in m && m'[x] == m[x])
  {
    hide TrimSpace;
  }

  // --- runs ---------------------------------------------------------------------------

  ghost function StateAfter(cfg: Config, steps: seq<Step>): Peers {
    if steps == [] then map[]
    else After(cfg, StateAfter(cfg, steps[..|steps| - 1]), steps[|steps| - 1].request, steps[|steps| - 1].at)
  }

  ghost predicate InOrder(steps: seq<Step>) {
    forall i, j :: 0 <= i <= j < |steps| ==> steps[i].at <= steps[j].at
  }

  /** Everybody who asked to register. */
  ghost function Names(steps: seq<Step>): set<string> {
    set i | 0 <= i < |steps| && steps[i].request.Register? :: TrimSpace(steps[i].request.id)
  }

  /** The moment of the last accepted registration or heartbeat of the peer, if it has not
      taken itself out since. A heartbeat is accepted from a peer heard within the offline
      window; a registration from one, or while those heard within it are below the ceiling. */
  ghost function LastHeard(cfg: Config, steps: seq<Step>, p: string): Option<int>
    decreases |steps|, 0
  {
    if steps == [] then None
    else
      var before, e := steps[..|steps| - 1], steps[|steps| - 1];
      match e.request
      case Register(raw) =>
        if TrimSpace(raw) == p && p != "" && (Heard(cfg, before, p, e.at) || |AllHeard(cfg, before, e.at)| < cfg.ceiling)
        then Some(e.at) else LastHeard(cfg, before, p)
      case Heartbeat(id) => if id == p && Heard(cfg, before, p, e.at) then Some(e.at) else LastHeard(cfg, before, p)
      case Deregister(id) => if id == p then None else LastHeard(cfg, before, p)
      case _ => LastHeard(cfg, before, p)
  }

  ghost predicate Heard(cfg: Config, steps: seq<Step>, p: string, now: int)
    decreases |steps|, 1
  {
    LastHeard(cfg, steps, p).Some? && now - LastHeard(cfg, steps, p).value <= cfg.offline
  }

  ghost function AllHeard(cfg: Config, steps: seq<Step>, now: int): set<string>
    decreases |steps|, 2
  {
    set p | p in Names(steps) && Heard(cfg, steps, p, now)
  }

  /** The registry answers for whom the history says was heard, as seen when it was. */
  ghost predicate Tells(cfg: Config, m: Peers, steps: seq<Step>, now: int) {
    forall p :: Answering(cfg, m, p, now) == Heard(cfg, steps, p, now)
             && (Answering(cfg, m, p, now) ==> Some(m[p].lastSeen) == LastHeard(cfg, steps, p))
  }

  lemma TellsLater(cfg: Config, m: Peers, steps: seq<Step>, t: int, now: int)
    requires cfg.Valid() && Tells(cfg, m, steps, t) && t <= now
    ensures Tells(cfg, m, steps, now)
  {
    hide LastHeard, Heard;
    forall p ensures Answering(cfg, m, p, now) == Heard(cfg, steps, p, now)
      ensures Answering(cfg, m, p, now) ==> Some(m[p].lastSeen) == LastHeard(cfg, steps, p)
    {
      assert Answering(cfg, m, p, t) == Heard(cfg, steps, p, t);
      HeardLater(cfg, steps, p, t, now);
    }
  }

  lemma HeardLater(cfg: Config, steps: seq<Step>, p: string, t: int, now: int)
    ensures Heard(cfg, steps, p, t) <==> LastHeard(cfg, steps, p).Some? && t - LastHeard(cfg, steps, p).value <= cfg.offline
    ensures Heard(cfg, steps, p, now) <==> LastHeard(cfg, steps, p).Some? && now - LastHeard(cfg, steps, p).value <= cfg.offline
  {
  }

  /** Only who asked to register was ever heard. */
  lemma {:induction false} HeardAreNamed(cfg: Config, steps: seq<Step>, p: string)
    requires LastHeard(cfg, steps, p).Some?
    ensures p in Names(steps)
  {
    hide AllHeard, TrimSpace;
    var n := |steps| - 1;
    var before, e := steps[..n], steps[n];
    if e.request.Register? && TrimSpace(e.request.id) == p {
    } else {
      HeardAreNamed(cfg, before, p);
      var i :| 0 <= i < n && before[i].request.Register? && TrimSpace(before[i].request.id) == p;
      assert steps[i] == before[i];
    }
  }

  /** So those heard are those present. */
  lemma HeardArePresent(cfg: Config, m: Peers, steps: seq<Step>, now: int)
    requires Tells(cfg, m, steps, now)
    ensures AllHeard(cfg, steps, now) == Present(cfg, m, now).Keys
    ensures |AllHeard(cfg, steps, now)| == |Present(cfg, m, now)|
  {
    forall p ensures p in AllHeard(cfg, steps, now) <==> p in Present(cfg, m, now) {
      assert Answering(cfg, m, p, now) == Heard(cfg, steps, p, now);
      if LastHeard(cfg, steps, p).Some? { HeardAreNamed(cfg, steps, p); }
    }
    assert |Present(cfg, m, now)| == |Present(cfg, m, now).Keys|;
  }

  /** Whether a step has the peer heard, or take itself out. */
  ghost predicate Hears(cfg: Config, before: seq<Step>, e: Step, p: string) {
    match e.request
    case Register(raw) =>
      TrimSpace(raw) == p && p != "" && (Heard(cfg, before, p, e.at) || |AllHeard(cfg, before, e.at)| < cfg.ceiling)
    case Heartbeat(id) => id == p && Heard(cfg, before, p, e.at)
    case _ => false
  }

  lemma OneMoreStep(cfg: Config, before: seq<Step>, e: Step, p: string)
    ensures LastHeard(cfg, before + [e], p) ==
      if Hears(cfg, before, e, p) then Some(e.at)
      else if e.request == Deregister(p) then None else LastHeard(cfg, before, p)
  {
    hide Heard, AllHeard, TrimSpace;
    assert (before + [e])[..|before|] == before;
  }

  /** Who answers after a request: whoever was heard in it, and otherwise who did before,
      less the peer that took itself out. */
  lemma AnswersAfter(cfg: Config, m: Peers, before: seq<Step>, e: Step, p: string)
    requires cfg.Valid() && |m| <= cfg.ceiling && Tells(cfg, m, before, e.at)
    ensures var m' := After(cfg, m, e.request, e.at);
            && (Hears(cfg, before, e, p) ==> Answering(cfg, m', p, e.at) && m'[p].lastSeen == e.at)
            && (!Hears(cfg, before, e, p) ==>
                  && Answering(cfg, m', p, e.at) == (Answering(cfg, m, p, e.at) && e.request != Deregister(p))
                  && (Answering(cfg, m', p, e.at) ==> m'[p].lastSeen == m[p].lastSeen))
  {
    assert Answering(cfg, m, p, e.at) == Heard(cfg, before, p, e.at);
    match e.request
    case Register(raw) =>
      HeardArePresent(cfg, m, before, e.at);
      RegisterAnswersAfter(cfg, m, before, TrimSpace(raw), e.at, p);
    case _ =>
  }

  lemma RegisterAnswersAfter(cfg: Config, m: Peers, before: seq<Step>, id: string, now: int, p: string)
    requires cfg.Valid() && |m| <= cfg.ceiling && |AllHeard(cfg, before, now)| == |Present(cfg, m, now)|
    requires forall x :: Answering(cfg, m, x, now) == Heard(cfg, before, x, now)
    ensures var m' := AfterRegister(cfg, m, id, now);
            var hears := id == p && p != "" && (Heard(cfg, before, p, now) || |AllHeard(cfg, before, now)| < cfg.ceiling);
            && (hears ==> Answering(cfg, m', p, now) && m'[p].lastSeen == now)
            && (!hears ==> Answering(cfg, m', p, now) == Answering(cfg, m, p, now))
            && (!hears && Answering(cfg, m', p, now) ==> m'[p].lastSeen == m[p].lastSeen)
  {
    hide AfterRegister, Registry.Refused, AllHeard, Heard;
    RegisteredAnswers(cfg, m, id, now, p);
    RefusesExactlyWhenFull(cfg, m, id, now);
    assert id in Present(cfg, m, now) <==> Answering(cfg, m, id, now);
  }

  lemma StepTells(cfg: Config, m: Peers, before: seq<Step>, e: Step)
    requires cfg.Valid() && |m| <= cfg.ceiling && Tells(cfg, m, before, e.at)
    ensures Tells(cfg, After(cfg, m, e.request, e.at), before + [e], e.at)
  {
    hide After, LastHeard, Hears, StateOf;
    var m', steps := After(cfg, m, e.request, e.at), before + [e];
    forall p ensures Answering(cfg, m', p, e.at) == Heard(cfg, steps, p, e.at)
      ensures Answering(cfg, m', p, e.at) ==> Some(m'[p].lastSeen) == LastHeard(cfg, steps, p)
    {
      AnswersAfter(cfg, m, before, e, p);
      OneMoreStep(cfg, before, e, p);
      HeardLater(cfg, before, p, e.at, e.at);
      HeardLater(cfg, steps, p, e.at, e.at);
      assert Answering(cfg, m, p, e.at) == Heard(cfg, before, p, e.at);
    }
  }

  lemma {:induction false} HistoryTells(cfg: Config, steps: seq<Step>, now: int)
    requires cfg.Valid() && InOrder(steps) && forall i :: 0 <= i < |steps| ==> steps[i].at <= now
    ensures |StateAfter(cfg, steps)| <= cfg.ceiling
    ensures Tells(cfg, StateAfter(cfg, steps), steps, now)
  {
    hide After, Tells;
    if steps == [] {
      NothingTells(cfg, now);
    } else {
      var n := |steps| - 1;
      var before, e := steps[..n], steps[n];
      HistoryTells(cfg, before, e.at);
      StepTells(cfg, StateAfter(cfg, before), before, e);
      NeverOverfull(cfg, StateAfter(cfg, before), e.request, e.at);
      assert before + [e] == steps;
      TellsLater(cfg, StateAfter(cfg, steps), steps, e.at, now);
    }
  }

  lemma NothingTells(cfg: Config, now: int)
    ensures Tells(cfg, map[], [], now)
  {
  }

  /** In every run a lookup finds a peer if and only if it was last heard at most the
      offline window ago, and reports it online if and only if that was at most the suspect
      window ago. */
  lemma LookupTells(cfg: Config, steps: seq<Step>, p: string, now: int)
    requires cfg.Valid() && InOrder(steps) && forall i :: 0 <= i < |steps| ==> steps[i].at <= now
    ensures var found := LookupAnswer(cfg, StateAfter(cfg, steps), p, now);
            match LastHeard(cfg, steps, p)
            case None => found == None
            case Some(t) =>
              && (found.Some? <==> now - t <= cfg.offline)
              && (found.Some? ==> found.value.id == p && found.value.lastSeen == t)
              && (found.Some? ==> found.value.state == if now - t <= cfg.suspect then Online else Suspect)
  {
    hide LastHeard, StateAfter;
    HistoryTells(cfg, steps, now);
    HeardLater(cfg, steps, p, now, now);
    assert Answering(cfg, StateAfter(cfg, steps), p, now) == Heard(cfg, steps, p, now);
  }

  /** A heartbeat is accepted if and only if the peer was heard within the offline window. */
  lemma HeartbeatTells(cfg: Config, steps: seq<Step>, p: string, now: int)
    requires cfg.Valid() && InOrder(steps) && forall i :: 0 <= i < |steps| ==> steps[i].at <= now
    ensures HeartbeatAnswer(cfg, StateAfter(cfg, steps), p, now).Ok? <==> Heard(cfg, steps, p, now)
  {
    hide LastHeard, StateAfter;
    HistoryTells(cfg, steps, now);
    assert Answering(cfg, StateAfter(cfg, steps), p, now) == Heard(cfg, steps, p, now);
  }

  /** A registration is admitted if and only if the peer was heard within the offline window
      or fewer peers were than the ceiling allows. */
  lemma AdmissionTells(cfg: Config, steps: seq<Step>, raw: string, now: int)
    requires cfg.Valid() && InOrder(steps) && forall i :: 0 <= i < |steps| ==> steps[i].at <= now
    ensures var p := TrimSpace(raw);
            var answer := RegisterAnswer(cfg, StateAfter(cfg, steps), p, now);
            && (p == "" ==> answer == Err(NoIdentifier))
            && (p != "" ==>
                  if Heard(cfg, steps, p, now) || |AllHeard(cfg, steps, now)| < cfg.ceiling
                  then answer.Ok? && answer.value.id == p && answer.value.lastSeen == now && answer.value.state == Online
                  else answer == Err(Full))
  {
    hide LastHeard, StateAfter, TrimSpace;
    var m, p := StateAfter(cfg, steps), TrimSpace(raw);
    HistoryTells(cfg, steps, now);
    HeardArePresent(cfg, m, steps, now);
    RefusesExactlyWhenFull(cfg, m, p, now);
    assert Answering(cfg, m, p, now) == Heard(cfg, steps, p, now);
  }

  ghost function HeardWithin(cfg: Config, steps: seq<Step>, window: int, now: int): set<string> {
    set p | p in Names(steps) && LastHeard(cfg, steps, p).Some? && now - LastHeard(cfg, steps, p).value <= window
  }

  /** The counts are of the peers heard within the suspect window, and between the two. */
  lemma TallyTells(cfg: Config, steps: seq<Step>, now: int)
    requires cfg.Valid() && InOrder(steps) && forall i :: 0 <= i < |steps| ==> steps[i].at <= now
    ensures var m := StateAfter(cfg, steps);
            && InState(cfg, m, Online, now) == HeardWithin(cfg, steps, cfg.suspect, now)
            && InState(cfg, m, Suspect, now)
               == HeardWithin(cfg, steps, cfg.offline, now) - HeardWithin(cfg, steps, cfg.suspect, now)
  {
    var m := StateAfter(cfg, steps);
    hide LastHeard, StateAfter, Names;
    HistoryTells(cfg, steps, now);
    HeardArePresent(cfg, m, steps, now);
    forall p ensures p in m && Answering(cfg, m, p, now) <==> p in AllHeard(cfg, steps, now) {
      assert Answering(cfg, m, p, now) == Heard(cfg, steps, p, now);
    }
  }
}
