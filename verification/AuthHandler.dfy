/** The authentication handler's order of steps: permission first, then the credential,
    then what the limiter is told. */
module AuthHandler {
  import opened Base
  import opened Identifiers
  import L = Limiter
  import opened LimiterRuns
  import AttemptLimiter

  const MAX_CLIENT_ID_LEN := 128

  /** The length Go's `len` gives: bytes of UTF-8. */
  function ByteLen(s: string): nat {
    if s == "" then 0
    else
      var first := if s[0] < '\U{80}' then 1 else if s[0] < '\U{800}' then 2 else if s[0] < '\U{10000}' then 3 else 4;
      first + ByteLen(s[1..])
  }

  /** How many characters are at or past a code point. */
  function From(s: string, first: char): nat {
    if s == "" then 0 else (if s[0] >= first then 1 else 0) + From(s[1..], first)
  }

  /** A byte for each character, and one more at each of U+0080, U+0800 and U+10000. */
  lemma {:induction false} ByteLenIs(s: string)
    ensures ByteLen(s) == |s| + From(s, '\U{80}') + From(s, '\U{800}') + From(s, '\U{10000}')
  {
    if s != "" { ByteLenIs(s[1..]); }
  }

  datatype Reply = InvalidRequest | TooManyAttempts | InvalidClient | IssuingFailed | Token

  predicate WellFormed(clientId: string, secret: string) {
    clientId != "" && ByteLen(clientId) <= MAX_CLIENT_ID_LEN && secret != ""
  }

  /** One request: `authentic` is whether the credential is a configured one, `issues`
      whether a token could be minted. */
  datatype Attempt = Attempt(rawClientId: string, secret: string, authentic: bool, issues: bool, at: int) {
    function Id(): string { TrimSpace(rawClientId) }
  }

  /** Permission before the credential, whatever is presented. */
  function ReplyTo(cfg: L.Config, f: L.Failures, a: Attempt): Reply {
    if !WellFormed(a.Id(), a.secret) then InvalidRequest
    else if !L.Allowed(cfg, f, a.Id(), a.at) then TooManyAttempts
    else if !a.authentic then InvalidClient
    else if !a.issues then IssuingFailed
    else Token
  }

  /** What the limiter is told of an attempt that was answered so. */
  function Heard(reply: Reply, a: Attempt): Events {
    match reply
    case InvalidClient => [Fail(a.Id(), a.at)]
    case Token => [Succeed(a.Id(), a.at)]
    case _ => []
  }

  ghost function LastReply(cfg: L.Config, attempts: seq<Attempt>): Reply
    requires attempts != []
    decreases |attempts|, 0
  {
    var n := |attempts| - 1;
    ReplyTo(cfg, After(cfg, History(cfg, attempts[..n])).failures, attempts[n])
  }

  /** Everything the limiter has been told. */
  ghost function History(cfg: L.Config, attempts: seq<Attempt>): Events
    decreases |attempts|
  {
    if attempts == [] then []
    else
      var n := |attempts| - 1;
      History(cfg, attempts[..n]) + Heard(LastReply(cfg, attempts), attempts[n])
  }

  lemma HistoryGrows(cfg: L.Config, attempts: seq<Attempt>, a: Attempt)
    ensures var was := History(cfg, attempts);
            var reply := ReplyTo(cfg, After(cfg, was).failures, a);
            && LastReply(cfg, attempts + [a]) == reply
            && History(cfg, attempts + [a]) == was + Heard(reply, a)
            && After(cfg, History(cfg, attempts + [a]))
               == (match reply
                   case InvalidClient => L.Failed(cfg, After(cfg, was), a.Id(), a.at)
                   case Token => L.Succeeded(After(cfg, was), a.Id())
                   case _ => After(cfg, was))
  {
    hide ReplyTo, L.Failed, L.Succeeded;
    var was := History(cfg, attempts);
    assert (attempts + [a])[..|attempts|] == attempts;
    var reply := ReplyTo(cfg, After(cfg, was).failures, a);
    var heard := Heard(reply, a);
    if heard == [] {
      assert was + heard == was;
    } else {
      assert (was + heard)[..|was|] == was;
    }
  }

  class Handler {
    const limiter: AttemptLimiter.AttemptLimiter
    /** Every attempt served, in order. */
    ghost var attempts: seq<Attempt>

    ghost predicate Valid() reads this, limiter {
      limiter.Valid() && limiter.View() == After(limiter.cfg, History(limiter.cfg, attempts))
    }

    constructor (limiter: AttemptLimiter.AttemptLimiter)
      requires limiter.Valid() && limiter.View() == L.State(map[], [], None)
      ensures Valid() && this.limiter == limiter && attempts == []
    {
      this.limiter := limiter;
      attempts := [];
    }

    /** An identifier that has spent its allowance is refused whatever it presents, and a
        failure is recorded only after a permission at the same moment. */
    method Authenticate(rawClientId: string, secret: string, authentic: bool, issues: bool, now: int)
      returns (reply: Reply)
      requires Valid()
      modifies limiter, `attempts
      ensures Valid()
      ensures attempts == old(attempts) + [Attempt(rawClientId, secret, authentic, issues, now)]
      ensures reply == LastReply(limiter.cfg, attempts)
      ensures reply == InvalidRequest <==>
        TrimSpace(rawClientId) == "" || ByteLen(TrimSpace(rawClientId)) > 128 || secret == ""
      ensures reply == TooManyAttempts <==>
        WellFormed(TrimSpace(rawClientId), secret)
        && !L.Allowed(limiter.cfg, old(limiter.failures), TrimSpace(rawClientId), now)
      ensures reply == InvalidClient ==>
        !authentic
        && L.Allowed(limiter.cfg, old(limiter.failures), TrimSpace(rawClientId), now)
        && limiter.View() == L.Failed(limiter.cfg, old(limiter.View()), TrimSpace(rawClientId), now)
      ensures reply == Token ==>
        authentic && issues
        && limiter.View() == L.Succeeded(old(limiter.View()), TrimSpace(rawClientId))
      ensures reply == IssuingFailed ==> authentic && !issues
      ensures reply != InvalidClient && reply != Token ==> limiter.View() == old(limiter.View())
    {
      hide History, After, L.Failed, L.Succeeded, L.Bounded, L.Allowed, TrimSpace;
      ghost var a := Attempt(rawClientId, secret, authentic, issues, now);
      HistoryGrows(limiter.cfg, attempts, a);
      attempts := attempts + [a];
      var clientId := TrimSpace(rawClientId);
      if clientId == "" || ByteLen(clientId) > MAX_CLIENT_ID_LEN || secret == "" {
        return InvalidRequest;
      }
      var allowed := limiter.Allowed(clientId, now);
      if !allowed {
        return TooManyAttempts;
      }
      if !authentic {
        limiter.Failed(clientId, now);
        return InvalidClient;
      }
      if !issues {
        return IssuingFailed;
      }
      limiter.Succeeded(clientId);
      return Token;
    }
  }
}
