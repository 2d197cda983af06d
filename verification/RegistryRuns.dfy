/** Expiry is lazy: a record past the offline window may stay held for as long as nothing
    sweeps it. No answer tells, except in one field. */
module RegistryRuns {
  import opened Identifiers
  import opened Registry

  /** What a caller learns from a request, the moment of first registration aside. */
  datatype Observed =
    | Admitted | Refused(error: Error) | Beating | MustRegister
    | Found(state: State, lastSeen: int) | Absent | Tallied(online: int, suspect: int) | Done

  ghost function Observe(cfg: Config, m: Peers, r: Request, now: int): Observed {
    match r
    case Register(id) =>
      (match RegisterAnswer(cfg, m, TrimSpace(id), now)
       case Ok(_) => Admitted
       case Err(e) => Observed.Refused(e))
    case Heartbeat(id) =>
      (match HeartbeatAnswer(cfg, m, id, now)
       case Ok(_) => Beating
       case Err(_) => MustRegister)
    case Lookup(id) =>
      (match LookupAnswer(cfg, m, id, now)
       case Some(p) => Found(p.state, p.lastSeen)
       case None => Absent)
    case Tally => Tallied(|InState(cfg, m, Online, now)|, |InState(cfg, m, Suspect, now)|)
    case _ => Done
  }

  /** The same peers are there at `now`, and were last seen at the same moments. */
  ghost predicate Agree(cfg: Config, m: Peers, m': Peers, now: int) {
    forall id :: Answering(cfg, m, id, now) == Answering(cfg, m', id, now)
              && (Answering(cfg, m, id, now) ==> m[id].lastSeen == m'[id].lastSeen)
  }

  lemma AgreeLater(cfg: Config, m: Peers, m': Peers, t: int, now: int)
    requires Agree(cfg, m, m', t) && t <= now
    ensures Agree(cfg, m, m', now)
  {
  }

  /** Expiring is invisible. */
  lemma ExpireAgrees(cfg: Config, m: Peers, now: int)
    ensures Agree(cfg, m, Present(cfg, m, now), now)
  {
  }

  lemma AgreeTwice(cfg: Config, m: Peers, m': Peers, m'': Peers, now: int)
    requires Agree(cfg, m, m', now) && Agree(cfg, m', m'', now)
    ensures Agree(cfg, m, m'', now)
  {
  }

  lemma SamePresent(cfg: Config, m: Peers, m': Peers, now: int)
    requires Agree(cfg, m, m', now)
    ensures Present(cfg, m, now).Keys == Present(cfg, m', now).Keys
    ensures |Present(cfg, m, now)| == |Present(cfg, m', now)|
    ensures forall st :: st != Gone ==> InState(cfg, m, st, now) == InState(cfg, m', st, now)
  {
  }

  lemma RegisterAgrees(cfg: Config, m: Peers, m': Peers, id: string, now: int)
    requires cfg.Valid() && |m| <= cfg.ceiling && |m'| <= cfg.ceiling && Agree(cfg, m, m', now)
    ensures Registry.Refused(cfg, m, id, now) == Registry.Refused(cfg, m', id, now)
    ensures Agree(cfg, AfterRegister(cfg, m, id, now), AfterRegister(cfg, m', id, now), now)
  {
    SamePresent(cfg, m, m', now);
    RefusesExactlyWhenFull(cfg, m, id, now);
    RefusesExactlyWhenFull(cfg, m', id, now);
    hide Registry.Refused, AfterRegister, Present, InState, StateOf;
    var n, n' := AfterRegister(cfg, m, id, now), AfterRegister(cfg, m', id, now);
    forall x ensures Answering(cfg, n, x, now) == Answering(cfg, n', x, now)
      ensures Answering(cfg, n, x, now) ==> n[x].lastSeen == n'[x].lastSeen
    {
      assert Answering(cfg, m, x, now) == Answering(cfg, m', x, now);
      RegisteredAnswers(cfg, m, id, now, x);
      RegisteredAnswers(cfg, m', id, now, x);
    }
  }

  /** Who is there after a registration: who was, and the peer unless it was refused. */
  lemma RegisteredAnswers(cfg: Config, m: Peers, id: string, now: int, x: string)
    requires cfg.Valid()
    ensures var m' := AfterRegister(cfg, m, id, now);
            var admitted := id != "" && !Registry.Refused(cfg, m, id, now);
            && (x == id && admitted ==> Answering(cfg, m', x, now) && m'[x].lastSeen == now)
            && (!(x == id && admitted) ==> Answering(cfg, m', x, now) == Answering(cfg, m, x, now))
            && (!(x == id && admitted) && Answering(cfg, m, x, now) ==> m'[x].lastSeen == m[x].lastSeen)
  {
  }

  lemma AgreeBack(cfg: Config, m: Peers, m': Peers, now: int)
    requires Agree(cfg, m, m', now)
    ensures Agree(cfg, m', m, now)
  {
  }

  lemma RemoveAgrees(cfg: Config, m: Peers, m': Peers, id: string, now: int)
    requires Agree(cfg, m, m', now)
    ensures Agree(cfg, m - {id}, m' - {id}, now)
  {
  }

  lemma HeartbeatAgrees(cfg: Config, m: Peers, m': Peers, id: string, now: int)
    requires Agree(cfg, m, m', now)
    ensures Answering(cfg, m, id, now) == Answering(cfg, m', id, now)
    ensures Agree(cfg, AfterHeartbeat(cfg, m, id, now), AfterHeartbeat(cfg, m', id, now), now)
  {
  }

  /** Registries that agree answer every request alike and still agree afterwards. */
  lemma RequestAgrees(cfg: Config, m: Peers, m': Peers, r: Request, now: int)
    requires cfg.Valid() && |m| <= cfg.ceiling && |m'| <= cfg.ceiling && Agree(cfg, m, m', now)
    ensures Observe(cfg, m, r, now) == Observe(cfg, m', r, now)
    ensures Agree(cfg, After(cfg, m, r, now), After(cfg, m', r, now), now)
  {
    hide Registry.Refused, AfterRegister, Present, TrimSpace;
    match r
    case Register(id) => RegisterAgrees(cfg, m, m', TrimSpace(id), now);
    case Tally => SamePresent(cfg, m, m', now);
    case Lookup(id) => assert Answering(cfg, m, id, now) == Answering(cfg, m', id, now);
    case Heartbeat(id) => HeartbeatAgrees(cfg, m, m', id, now);
    case Deregister(id) => RemoveAgrees(cfg, m, m', id, now);
    case Expire =>
      hide Agree;
      ExpireAgrees(cfg, m, now);
      ExpireAgrees(cfg, m', now);
      AgreeBack(cfg, m, Present(cfg, m, now), now);
      AgreeTwice(cfg, Present(cfg, m, now), m, m', now);
      AgreeTwice(cfg, Present(cfg, m, now), m', Present(cfg, m', now), now);
  }

  // --- whole runs ---------------------------------------------------------------------

  datatype Step = Step(request: Request, at: int)

  ghost predicate Timed(steps: seq<Step>, from: int) {
    steps != [] ==> from <= steps[0].at && Timed(steps[1..], steps[0].at)
  }

  /** What the registry answers to everything but the sweeps, which come when they come. */
  ghost function Answers(cfg: Config, m: Peers, steps: seq<Step>): seq<Observed>
    decreases |steps|
  {
    if steps == [] then []
    else
      var r, at := steps[0].request, steps[0].at;
      var rest := Answers(cfg, After(cfg, m, r, at), steps[1..]);
      if r.Expire? then rest else [Observe(cfg, m, r, at)] + rest
  }

  /** What a registry would answer that ignores the sweeps and holds nobody past the window. */
  ghost function EagerAnswers(cfg: Config, m: Peers, steps: seq<Step>): seq<Observed>
    decreases |steps|
  {
    if steps == [] then []
    else
      var r, at := steps[0].request, steps[0].at;
      var present := Present(cfg, m, at);
      if r.Expire? then EagerAnswers(cfg, m, steps[1..])
      else [Observe(cfg, present, r, at)] + EagerAnswers(cfg, After(cfg, present, r, at), steps[1..])
  }

  /** Over any run, with sweeps anywhere in it, the registry answers as the eager one:
      admissions, heartbeat verdicts, lookups and counts do not depend on expiry. */
  lemma {:induction false} LazyIsEager(cfg: Config, m: Peers, m': Peers, steps: seq<Step>, from: int)
    requires cfg.Valid() && Timed(steps, from) && Agree(cfg, m, m', from)
    requires |m| <= cfg.ceiling && |m'| <= cfg.ceiling
    ensures Answers(cfg, m, steps) == EagerAnswers(cfg, m', steps)
    decreases |steps|
  {
    hide Agree, Observe, After, Present;
    if steps != [] {
      var r, at := steps[0].request, steps[0].at;
      AgreeLater(cfg, m, m', from, at);
      NeverOverfull(cfg, m, r, at);
      if r.Expire? {
        ExpiredAgrees(cfg, m, m', at);
        LazyIsEager(cfg, After(cfg, m, r, at), m', steps[1..], at);
      } else {
        var present := Present(cfg, m', at);
        ExpireAgrees(cfg, m', at);
        AgreeTwice(cfg, m, m', present, at);
        PresentSize(cfg, m', at);
        RequestAgrees(cfg, m, present, r, at);
        NeverOverfull(cfg, present, r, at);
        LazyIsEager(cfg, After(cfg, m, r, at), After(cfg, present, r, at), steps[1..], at);
      }
    }
  }

  lemma ExpiredAgrees(cfg: Config, m: Peers, m': Peers, now: int)
    requires Agree(cfg, m, m', now)
    ensures Agree(cfg, After(cfg, m, Expire, now), m', now)
  {
  }

  /** The one field that tells: a peer that registers again after it was gone but before
      anything swept it keeps its old moment of registration, and only such a peer does. */
  lemma OnlyRegisteredAtTells(cfg: Config, m: Peers, id: string, now: int)
    requires cfg.Valid() && |m| <= cfg.ceiling && id != "" && !Registry.Refused(cfg, m, id, now)
    ensures RegisterAnswer(cfg, m, id, now) == RegisterAnswer(cfg, Present(cfg, m, now), id, now)
      <==> !(id in GoneIds(cfg, m, now) && m[id].registeredAt != now)
  {
  }
}
