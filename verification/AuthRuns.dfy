/** Whole runs of the authentication handler: how many wrong credentials of one identifier
    get as far as being checked. */
module AuthRuns {
  import opened LimiterRuns
  import opened LimiterBound
  import opened AuthHandler

  /** The clock never goes back. */
  ghost predicate InOrder(attempts: seq<Attempt>) {
    forall i, j :: 0 <= i <= j < |attempts| ==> attempts[i].at <= attempts[j].at
  }

  ghost function ReplyAt(cfg: L.Config, attempts: seq<Attempt>, k: nat): Reply
    requires k < |attempts|
  {
    LastReply(cfg, attempts[..k + 1])
  }

  /** No attempt of the identifier was granted a token. */
  ghost predicate NeverGranted(cfg: L.Config, attempts: seq<Attempt>, id: string) {
    forall k :: 0 <= k < |attempts| && attempts[k].Id() == id ==> ReplyAt(cfg, attempts, k) != Token
  }

  /** The moments at which a wrong credential of the identifier was checked. */
  ghost function Rejections(cfg: L.Config, attempts: seq<Attempt>, id: string): seq<int> {
    if attempts == [] then []
    else
      var n := |attempts| - 1;
      var before := Rejections(cfg, attempts[..n], id);
      if LastReply(cfg, attempts) == InvalidClient && attempts[n].Id() == id then before + [attempts[n].at] else before
  }

  lemma Last(cfg: L.Config, attempts: seq<Attempt>)
    requires attempts != []
    ensures ReplyAt(cfg, attempts, |attempts| - 1) == LastReply(cfg, attempts)
    ensures forall k :: 0 <= k < |attempts| - 1 ==>
      ReplyAt(cfg, attempts[..|attempts| - 1], k) == ReplyAt(cfg, attempts, k)
  {
    hide LastReply;
    var n := |attempts| - 1;
    assert attempts[..n + 1] == attempts;
    forall k | 0 <= k < n ensures ReplyAt(cfg, attempts[..n], k) == ReplyAt(cfg, attempts, k) {
      assert attempts[..n][..k + 1] == attempts[..k + 1];
    }
  }

  lemma {:induction false} HistoryBefore(cfg: L.Config, attempts: seq<Attempt>, now: int)
    requires forall k :: 0 <= k < |attempts| ==> attempts[k].at <= now
    ensures forall i :: 0 <= i < |History(cfg, attempts)| ==> History(cfg, attempts)[i].at <= now
  {
    hide LastReply;
    if attempts != [] { HistoryBefore(cfg, attempts[..|attempts| - 1], now); }
  }

  lemma {:induction false} HistoryTimed(cfg: L.Config, attempts: seq<Attempt>)
    requires InOrder(attempts)
    ensures Timed(History(cfg, attempts))
  {
    hide LastReply;
    if attempts != [] {
      var n := |attempts| - 1;
      HistoryTimed(cfg, attempts[..n]);
      HistoryBefore(cfg, attempts[..n], attempts[n].at);
    }
  }

  /** The handler asks the limiter before each failure it records, of whatever identifier. */
  lemma {:induction false} HistoryGuarded(cfg: L.Config, attempts: seq<Attempt>, id: string)
    ensures Guarded(cfg, History(cfg, attempts), id)
  {
    hide After, L.Allowed, LastReply;
    if attempts != [] {
      var n := |attempts| - 1;
      var was, events := History(cfg, attempts[..n]), History(cfg, attempts);
      HistoryGuarded(cfg, attempts[..n], id);
      LastGuarded(cfg, attempts);
      forall i | 0 <= i < |events| && events[i].Fail? && events[i].id == id
        ensures L.Allowed(cfg, After(cfg, events[..i]).failures, id, events[i].at)
      {
        if i < |was| {
          assert events[..i] == was[..i] && events[i] == was[i];
        } else {
          assert events[..i] == was;
        }
      }
    }
  }

  lemma LastGuarded(cfg: L.Config, attempts: seq<Attempt>)
    requires attempts != []
    ensures var n := |attempts| - 1;
            var was := After(cfg, History(cfg, attempts[..n])).failures;
            LastReply(cfg, attempts) == InvalidClient ==> L.Allowed(cfg, was, attempts[n].Id(), attempts[n].at)
  {
    hide History, After, L.Allowed;
  }

  lemma {:induction false} HistoryNeverSucceeds(cfg: L.Config, attempts: seq<Attempt>, id: string)
    requires NeverGranted(cfg, attempts, id)
    ensures NeverSucceeds(History(cfg, attempts), id)
  {
    hide LastReply, ReplyAt;
    if attempts != [] {
      var n := |attempts| - 1;
      Last(cfg, attempts);
      assert NeverGranted(cfg, attempts[..n], id);
      HistoryNeverSucceeds(cfg, attempts[..n], id);
    }
  }

  lemma {:induction false} RejectionsAreTimes(cfg: L.Config, attempts: seq<Attempt>, id: string)
    ensures Times(History(cfg, attempts), id) == Rejections(cfg, attempts, id)
  {
    hide LastReply;
    if attempts != [] {
      var n := |attempts| - 1;
      var was := History(cfg, attempts[..n]);
      RejectionsAreTimes(cfg, attempts[..n], id);
      var heard := Heard(LastReply(cfg, attempts), attempts[n]);
      if heard == [] {
        assert was + heard == was;
      } else {
        assert (was + heard)[..|was|] == was;
      }
    }
  }

  /** In every run of the handler, whoever else attempts whatever: of an identifier never
      granted a token, and whose record no eviction drops while its window is open, at most
      twice the allowance less one wrong credentials are checked in one window's length. */
  lemma WrongCredentialsInAWindow(cfg: L.Config, attempts: seq<Attempt>, id: string, i: nat, j: nat)
    requires cfg.Valid() && InOrder(attempts) && NeverGranted(cfg, attempts, id)
    requires NeverForgiven(cfg, History(cfg, attempts), id)
    requires i <= j < |Rejections(cfg, attempts, id)|
    requires Rejections(cfg, attempts, id)[j] - Rejections(cfg, attempts, id)[i] <= cfg.window
    ensures j - i + 1 <= 2 * cfg.allowance - 1
  {
    hide History, Rejections, Times, Guarded, NeverForgiven, Timed, NeverSucceeds;
    HistoryTimed(cfg, attempts);
    HistoryGuarded(cfg, attempts, id);
    HistoryNeverSucceeds(cfg, attempts, id);
    RejectionsAreTimes(cfg, attempts, id);
    FailuresInAWindow(cfg, History(cfg, attempts), id, i, j);
  }

  // --- the bound is reached --------------------------------------------------------------

  /** Wrong credentials for one identifier, at the moments of the burst. */
  ghost function Guesses(cfg: L.Config, n: nat): seq<Attempt> {
    seq(n, k requires 0 <= k < n => Attempt("x", "guess", false, true, Burst(cfg, n)[k].at))
  }

  lemma Guess(cfg: L.Config, n: nat)
    requires 0 < n <= 2 * cfg.allowance
    ensures Guesses(cfg, n)[..n - 1] == Guesses(cfg, n - 1)
    ensures Burst(cfg, n) == Burst(cfg, n - 1) + [Fail("x", Burst(cfg, n)[n - 1].at)]
    ensures Guesses(cfg, n)[n - 1].Id() == "x" && WellFormed("x", "guess")
  {
  }

  /** Every one of them is let through to the check, and fails it. */
  lemma {:induction false} GuessesAreBurst(cfg: L.Config, n: nat)
    requires cfg.Valid() && n <= 2 * cfg.allowance
    ensures History(cfg, Guesses(cfg, n)) == Burst(cfg, n)
    ensures n > 0 ==> LastReply(cfg, Guesses(cfg, n)) == InvalidClient
  {
    if n > 0 {
      hide After, Burst, Guesses, WellFormed;
      GuessesAreBurst(cfg, n - 1);
      Guess(cfg, n);
      BurstAllowed(cfg, n, n - 1);
      assert Burst(cfg, n)[..n - 1] == Burst(cfg, n - 1);
    }
  }

  /** For every allowance and window a run of the handler reaches the bound. */
  lemma HandlerReachesTheBound(cfg: L.Config)
    requires cfg.Valid()
    ensures var n := 2 * cfg.allowance;
            var attempts := Guesses(cfg, n);
            && InOrder(attempts) && NeverGranted(cfg, attempts, "x")
            && NeverForgiven(cfg, History(cfg, attempts), "x")
            && |Rejections(cfg, attempts, "x")| == n
            && Rejections(cfg, attempts, "x")[n - 1] - Rejections(cfg, attempts, "x")[1] <= cfg.window
  {
    hide History, Rejections, Times, NeverForgiven, After, LastReply;
    var n := 2 * cfg.allowance;
    GuessesAreBurst(cfg, n);
    BoundIsReached(cfg);
    RejectionsAreTimes(cfg, Guesses(cfg, n), "x");
    forall k | 0 <= k < n ensures ReplyAt(cfg, Guesses(cfg, n), k) == InvalidClient {
      assert Guesses(cfg, n)[..k + 1] == Guesses(cfg, k + 1);
      GuessesAreBurst(cfg, k + 1);
    }
  }
}
