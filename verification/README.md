# Verified model of the control plane

The central server keeps four pieces of state in memory, each behind a lock and each
driven by a clock: the session store, the limiter of failed authentications, the peer
registry, and the signaling hub. `main` wires them together. This project models each of
them twice and proves the two agree.

* **As it runs.** `SessionStore.Store`, `AttemptLimiter.AttemptLimiter`,
  `AuthHandler.Handler`, `PeerRegistry.PeerRegistry`, `SignalingHub.Hub` (with its
  `Holder`s) and `Central.Central` are classes with the source's fields and methods, helpers and loops
  included. A pass over a Go map takes the remaining keys in arbitrary order. Every method
  states its answer and its whole new state in terms of the second form.
* **As a value.** `Sessions`, `Limiter`, `Registry`, `Signaling` and `Sweep` say what each
  call does to plain values, without indexes, queues or iteration order where the source
  does not depend on them. What each call means, in the words of states, moments and
  outboxes and without the functions that compute it, is stated in `SessionLaws`,
  `RegistryHistory`, `Deliveries` and `Notices`. The theorems are about these, over every
  run, in
  `SessionOpen`, `SettledOpen`, `LazyRuns`, `SessionRuns`, `EndedOrder`, `Enders`,
  `AnnouncementLog`, `LimiterRuns`, `LimiterBound`, `AuthRuns`, `RegistryRuns`,
  `Departures`, `HubRuns`, `Routing` and `Presence`.

Time is an integer in one unit, passed as `now` and read once per call. Runs have a clock
that never goes back. A session identifier is a string supplied to `Open` that the store
does not hold (in runs: never held), or nothing when the random source fails. The
authorizer's answer, the credential check, the minting of a token and the success of a
write to a connection are inputs. `Central.Central` keeps, as a ghost, the log of every
request its store has served; its methods ask nothing of the clock or of identifiers past,
and the theorem about what it announced is for every log that is such a run.
`AuthHandler.Handler` keeps the attempts it served in the same way.

Main results:

* the store's four indexes are what a scan would give, after every method;
* in every run: live sessions, sessions per peer and held records are bounded, a pair of
  peers has one live session, a session's record only moves forward, a session with a path
  was connected over it, and a negotiating session past its timeout reads as failed from
  then on;
* over any run of any requests the store answers as one that settles every timeout before
  each request, up to the number of timeouts a reap is the first to notice, until an `Open`
  tells the two apart. It does so in exactly two ways: it finds the ceiling held by
  timed-out sessions nobody has read, or it makes way for a session at the bound while the
  two queues have different fronts, after which some read is answered differently;
* over the whole life of the wired server, sweeps included, no session's ending is
  announced twice, it is announced exactly if the clock did not cause it, and each of its
  two peers that holds a connection taking writes at that moment receives exactly one notice
  of it there, with nobody else receiving any;
* the queue of ended sessions is in the order they ended exactly under a condition on the
  request that can be checked before it is served, and a departure closes a peer's sessions
  exactly if it is the sweep's;
* a refusal by the attempt limiter is earned; at most twice the allowance less one
  wrong credentials of one identifier, granted no token and forgiven by no eviction, are
  checked in one window by the handler, a bound that is reached; over every run the limiter
  and a counter that clears nothing out agree on an identifier exactly if no eviction drops
  its record while its window is open, so that no sweep changes an answer about an
  identifier no eviction forgives;
* over every run the registry's lookups, heartbeat verdicts, admissions and counts are told
  by when each peer was last heard, and its lazy expiry is invisible except in one field;
* a peer's message within its allowance reaches the other participant of a live session, if
  that holds a connection taking writes, and stays where it was put; nobody else is ever sent
  it, and any other message is answered with one error saying why;
* a held channel keeps its peer online while the refresh comes round within the suspect
  window.

## Where the code and its documents differ

The model follows the code.

* The session design has a session close when a peer in it leaves the registry
  (specs/session-lifecycle/requirements.md, R2.6). A departure ends the peer's live sessions
  if and only if it is the sweep's (`Departures.DepartureEndsIff`); after any other one they
  stay as they were for as long as nothing else ends them
  (`Departures.QuietlyLeftStaysOpen`), and a run shows one (`Departures.StillConnected`).
* The oldest ended record is to be forgotten first (R4.4). The queue is in the order the
  store recorded endings. A request leaves it in the order of `ChangedAt` if and only if no
  session it ends is said to have ended before one that is queued, or before another it
  ends that may be queued first (`EndedOrder.OrderKeptIff`; told from the store
  before the request, `Enders.OrderKeptByIff`; for a read of a timed-out session,
  `EndedOrder.ReadKeepsOrderIff`). Where that held so far the oldest is what goes
  (`EndedOrder.OldestIsForgotten`); a run from an empty store shows a newer one going
  (`LateEnding.ForgetsTheNewer`).
* One pair of peers has one key (`internal/session/session.go`, `pairKey`). That holds for
  identifiers without NUL, which the configured alphabet guarantees; for any others
  `Identifiers.PairKeyCollidesIff` says exactly which pairs share their key
  (`Identifiers.PairKeyCollidesOnNul`, `SessionOpen.OpenAnswersAStranger`).
* A session past its timeout is to be failed whether or not anything noticed. The ceiling
  check reads the stored counter and so still counts it (`SessionOpen.FullTooSoonHappens`).

## Model

| member | source | states |
|---|---|---|
| `Identifiers.TrimSpaceCutsTheEnds` | internal/session/session.go:231-232 | what is trimmed is white space at the two ends, and none is left at either |
| `Identifiers.AlphabetIs` | internal/auth/clients.go:20-29 | the characters of a configured identifier, by code point |
| `Identifiers.SpacesAre` | internal/session/session.go:231-232 | white space is what Unicode lists as such |
| `Identifiers.TrimKeepsPeerId` | internal/auth/clients.go:20-29 | trimming leaves an identifier in the configured alphabet as it is |
| `Identifiers.PairKeyInjective` | internal/session/session.go:578-582 | two pairs of NUL-free identifiers share a key exactly when they are the same two peers in either order |
| `Identifiers.PairKeyCollidesOnNul` | internal/session/session.go:578-582 | two different pairs that share a key, once an identifier holds a NUL |
| `Identifiers.PairKeyCollidesIff` | internal/session/session.go:578-582 | for any two identifiers: another pair has their key if and only if the key has a NUL at which it reads as an ordered pair other than them |
| `Identifiers.PeerIdIsNulFree` | internal/auth/clients.go:20-29 | an identifier in the configured alphabet holds no NUL |
| `Sessions.CanMove` | internal/session/session.go:561-574 | a move is allowed exactly when it goes forward: negotiating, connected, ended |
| `SessionStore.Configure` | internal/session/session.go:187-224 | refused exactly when the timeout is not positive or the retention negative; otherwise what was given is kept and each default is used exactly when its limit is not positive |
| `SessionStore.Store.constructor` | internal/session/session.go:212-223 | an empty store in order |
| `SessionStore.Store.Open` | internal/session/session.go:230-299 | answers what a scan of the records answers, leaves exactly those records, keeps all indexes exact; the queue keeps its order, and what the call settles joins it in turn: the pair's, the caller's, the callee's |
| `SessionStore.Store.OpenLocked` | internal/session/session.go:250-299 | the part under the lock: pair lookup, ceiling, caps, trim and insert, against the scan |
| `SessionStore.Store.RoomFor` | internal/session/session.go:259-270 | one peer's turn at the cap: settled only if at it, refused only if still at it |
| `SessionStore.Store.Get` | internal/session/session.go:311-320 | a peer in the session reads it settled; anybody else is told it does not exist; indexes stay exact |
| `SessionStore.Store.Report` | internal/session/session.go:324-353 | settled first, moved only by an allowed move, left as it was otherwise; indexes stay exact |
| `SessionStore.Store.ClosePeer` | internal/session/session.go:358-386 | whatever the map order: every live session of the peer is closed, timed-out ones stay failed, the closed ones are named once each |
| `SessionStore.Store.Reap` | internal/session/session.go:410-431 | whatever the map order: leaves the settled records that are live or within retention, counts exactly what it failed and forgot, compacts the queue in order |
| `SessionStore.Store.Count` | internal/session/session.go:391-396 | the counter is the number of sessions stored as live |
| `SessionStore.Store.Held` | internal/session/session.go:400-405 | live and ended records together, never more than four for each live session allowed |
| `SessionStore.Store.Pair` | internal/session/session.go:434-452 | the index finds the pair's live session exactly when a scan at `now` does; a dangling entry cannot occur |
| `SessionStore.Store.Settle` | internal/session/session.go:457-467 | the timeout applied to one record, every index following |
| `SessionStore.Store.Ended` | internal/session/session.go:471-477 | from indexes that still describe the session as live to indexes that agree with the records |
| `SessionStore.Store.Forget` | internal/session/session.go:480-485 | an ended record goes, and no index of live sessions is disturbed |
| `SessionStore.Store.SettlePeer` | internal/session/session.go:490-504 | exactly this peer's live sessions are settled, in whatever order |
| `SessionStore.Store.Untrack` | internal/session/session.go:519-528 | the session leaves the peer's row, and an emptied row goes |
| `SessionStore.Store.Trim` | internal/session/session.go:532-545 | terminates, drops at most the front of the queue and its record, never a live one, never skips, and leaves room |
| `SessionStore.Store.CompactEnded` | internal/session/session.go:549-557 | keeps exactly the identifiers still held, in order |
| `SessionIndexes.EndedIndexes` | internal/session/session.go:471-477 | taking an ended session out of counter, rows and pairs leaves all three what a scan gives |
| `SessionIndexes.OpenedIndexes` | internal/session/session.go:292-296 | filing a new session in counter, rows and pairs leaves all three what a scan gives |
| `SessionRows.RowsSumToTwiceLive` | internal/session/session.go:164-172 | the sizes of the per-peer rows add up to twice the live counter |
| `SessionLaws.ReadLaw` | internal/session/session.go:457-467 | up to and including the moment its timeout falls a session reads as it is stored; past it, one still negotiating reads as failed at that moment |
| `SessionLaws.GetLaw` | internal/session/session.go:311-320 | a participant gets the session as it reads now, and nothing else changes |
| `SessionLaws.StrangerLaw` | internal/session/session.go:311-331 | to anybody else a read and a report are answered as by a store without that session, and change nothing |
| `SessionLaws.ReportLaw` | internal/session/session.go:324-353 | an allowed move leaves and answers the state reported, changed now, with the reported path exactly if it connected; any other is refused and leaves the session as it reads |
| `SessionLaws.DepartureLaw` | internal/session/session.go:358-386 | of the departed peer's sessions those live now are closed now and answered, those past their timeout are failed as of it, ended ones and those of others are left alone |
| `SessionLaws.ReapLaw` | internal/session/session.go:410-431 | forgotten are exactly the sessions that ended more than the retention ago, the timeout counting as an end; the others are left as they read now |
| `SessionLaws.ReapAnswerLaw` | internal/session/session.go:410-431 | the answer is how many were past their timeout unread and how many records went |
| `SessionLaws.OpenRefusalLaw` | internal/session/session.go:230-247 | the four refusals before any session is looked at, and their order |
| `SessionLaws.OpenAnswerLaw` | internal/session/session.go:250-299 | the pair's live session, or else the ceiling, the two caps and the random source in that order, or else a new session negotiating from now |
| `SessionLaws.BelowTheBoundLaw` | internal/session/session.go:532-545 | below four records for each live session allowed, `Open` forgets nothing |
| `SessionLaws.AtTheBoundLaw` | internal/session/session.go:532-545 | at that many, creating a session forgets exactly the front of the queue |
| `SessionInvariant.NextKeepsBook` | internal/session/session.go:156-175 | every request keeps records filed once, one live session per pair, all ceilings, and a queue listing exactly the ended records |
| `SessionInvariant.TrimMakesRoom` | internal/session/session.go:532-545 | at the bound an ended record is always there to go, at most one goes, and no live session does |
| `SessionOpen.OpenRefusesAtTheCap` | internal/session/session.go:259-270 | past pair and ceiling, refused for a cap if and only if caller or callee really is in that many live sessions at `now` |
| `SessionOpen.OpenAnswersTheLiveSession` | internal/session/session.go:252-254 | while a session is live, asking in either order answers it and changes nothing, even at the ceiling |
| `SessionOpen.OpenAnswersThePairAsked` | internal/session/session.go:434-452 | an existing session that is answered is live and between exactly the two peers asked for (NUL-free) |
| `SessionOpen.OpenAnswersAStranger` | internal/session/session.go:578-582 | with a NUL in an identifier a caller is answered a session it is not in |
| `SessionOpen.OpenSeesUnsettledCeiling` | internal/session/session.go:256-258 | `Open` answers as on a fully settled store if and only if timed-out unread sessions are not what fills the ceiling |
| `SessionOpen.FullTooSoonHappens` | internal/session/session.go:256-258 | a run from an empty store with room for one session, after which another pair is refused for want of room where a store that had read the timed-out session opens theirs |
| `LazyRuns.LazyIsEager` | internal/session/session.go:230-431 | over any run of any requests, with anything settled at any moments in between: while nothing has told, the next answer is that of a store that settles everything first, if and only if it is not an `Open` that finds the ceiling held by unread timeouts |
| `LazyRuns.OpenTellsIff` | internal/session/session.go:250-299 | past an `Open` that did not find that, every read is still answered alike if and only if it made way for no session or both stores made way with the same record |
| `SettledOpen.OpenLeaves` | internal/session/session.go:250-299 | unless unread timeouts hold the ceiling, what `Open` leaves is told from the settled records, the front of the queue and the request alone |
| `SettledOpen.OpenAnswersAlike` | internal/session/session.go:250-299 | and stores that agree answer it alike |
| `SettledOpen.OpenAgreesIff` | internal/session/session.go:272-276 | and still agree if and only if room was made for no session or the same record made way |
| `LateEnding.ForgettingTells` | internal/session/session.go:532-545 | two stores with the same records, one having settled a timeout in time and one late: one `Open` on, a read of that session is answered by the one and not by the other |
| `SessionLazy.AgreeIffReadAlike` | internal/session/session.go:311-320 | two stores agree if and only if every read by every peer is answered alike |
| `SessionLazy.ReadAgrees` | internal/session/session.go:311-386 | stores that agree once settled at `now` answer alike and still agree |
| `SessionLazy.ReapTwice` | internal/session/session.go:410-431 | reaping at two moments in order is reaping once at the later one |
| `SessionLazy.ReapAgain` | internal/session/session.go:410-431 | a second reap at the same moment counts nothing and changes nothing, queue included |
| `SessionLazy.ReapCounts` | internal/session/session.go:410-431 | the two counts are the difference in records and the difference in live records |
| `SessionLazy.ReapUnseen` | internal/session/session.go:410-431 | a reap changes no read of a record within its retention |
| `SessionRuns.RunIsBounded` | internal/session/session.go:150-175 | in every state of every run: the ceilings, four records for each live session allowed, one live session per pair, queue and live count making up the records |
| `SessionRuns.OpenForgetsOnlyTheFirstEnded` | internal/session/session.go:272-276 | `Open` forgets at most one record, the front of the queue, ended, and only at the bound |
| `EndedOrder.OrderKeptIff` | internal/session/session.go:457-477 | for every request: from a queue in the order of ending, it leaves one in order, however its passes over a map go, if and only if no session it ends is said to have ended before one still queued, nor before another whose turn is the same or earlier |
| `Enders.NewlyEndedAre` | internal/session/session.go:230-431 | who a request ends, told from the store before it for each of the five requests; for `Open` in its three turns |
| `Enders.StillQueuedAre` | internal/session/session.go:410-431 | who of the queue it leaves there: all but the front where `Open` makes way at the bound, and all but those past retention where a reap comes |
| `Enders.OrderKeptByIff` | internal/session/session.go:457-477 | the exact condition for the order to be kept, every part of it told from the store before the request |
| `EndedOrder.ReadKeepsOrderIff` | internal/session/session.go:311-320 | a read that settles a timed-out session keeps the order if and only if nothing queued ended after its timeout fell |
| `EndedOrder.RunInOrderIff` | internal/session/session.go:471-477 | the queue is in order in every state of a run if and only if every step appends in order |
| `EndedOrder.OldestIsForgotten` | internal/session/session.go:532-545 | in a run whose requests so far kept the order, what an `Open` forgets ended no later than any ended record held |
| `LateEnding.ForgetsTheNewer` | internal/session/session.go:532-545 | a run from an empty store whose last `Open` forgets a session that ended at 20 and keeps one that ended at 10 |
| `SessionRuns.RunRecordsOk` | internal/session/session.go:64-78 | opened, changed and present moments are ordered in every state; a negotiating session has no path and has not changed; a connected one connected within the timeout |
| `SessionRuns.RunLifecycle` | internal/session/session.go:324-353 | between any two states of a run a held session has only moved forward: same call, final end, times nondecreasing, connected within the timeout, the path fixed once it is past negotiating |
| `SessionRuns.PathComesWithConnection` | internal/session/session.go:324-353 | if a held session's path differs between two states of a run, it was connected over the later path in a state in between |
| `SessionRuns.PathMeansConnected` | internal/session/session.go:31-40 | in every run, a session with a path, ended or not, was connected over that path in this state or an earlier one |
| `SessionRuns.TimedOutForGood` | internal/session/session.go:454-467 | once past its timeout, every later read until it is forgotten gives failed at the moment the timeout fell |
| `Announcements.AnnouncedIffEnded` | internal/transport/sessions.go:69-74 | a request has announced exactly the sessions that were live at its moment and that it ended |
| `AnnouncementLog.AnnouncedOnceEach` | internal/transport/sessions.go:69-74 | over every run and whatever is told for each request, no two announcements are of one session, and a session is announced if and only if a report, a delete or a departure ended it |
| `AnnouncementLog.ToldBetween` | cmd/central/main.go:142-151 | between any two moments the sessions told are the union of what the requests between them announce |
| `AnnouncementLog.TimeoutIsNeverAnnounced` | internal/transport/sessions.go:151-163 | a session the clock failed is announced neither before nor after |
| `Limiter.EvictsOne` | internal/auth/limiter.go:111-121 | with every tracked identifier queued, an eviction removes exactly one record and keeps them queued |
| `Limiter.EvictsTheFirst` | internal/auth/limiter.go:112-121 | it is the one queued first of those still tracked, and everything up to it leaves the queue |
| `Limiter.CallsKeepBounded` | internal/auth/limiter.go:88-132 | after every call at most 8192 identifiers are tracked, each of them queued |
| `Limiter.FailedSweepsWhenDue` | internal/auth/limiter.go:100-105 | a failure past 1024 tracked identifiers with no sweep for a window leaves no expired record |
| `Limiter.FailedKeepsOtherwise` | internal/auth/limiter.go:88-109 | any other failure sweeps nothing, and evicts one record exactly if more than 8192 would be tracked |
| `AttemptLimiter.AttemptLimiter.Allowed` | internal/auth/limiter.go:76-85 | permission as the records say |
| `AttemptLimiter.AttemptLimiter.Failed` | internal/auth/limiter.go:88-109 | counts, queues, sweeps when due and evicts past the ceiling, terminating |
| `AttemptLimiter.AttemptLimiter.EvictOldest` | internal/auth/limiter.go:112-121 | the first queued identifier still tracked goes, stale entries before it with it |
| `AttemptLimiter.AttemptLimiter.Succeeded` | internal/auth/limiter.go:125-132 | the record goes, the queue entry stays |
| `AttemptLimiter.AttemptLimiter.Sweep` | internal/auth/limiter.go:150-166 | exactly the records whose window is open stay, and the queue is compacted in order |
| `LimiterRuns.RunOk` | internal/auth/limiter.go:34-47 | in every reachable state the tracked identifiers are bounded and queued |
| `LimiterRuns.RecordIsEarned` | internal/auth/limiter.go:88-109 | a record counts exactly the failures since the one that opened its window, with no success since |
| `LimiterRuns.RefusalIsEarned` | internal/auth/limiter.go:76-85 | a refused identifier has its allowance of failures within the last window and no success since the first of them |
| `LimiterRuns.LimiterIsPlainIff` | internal/auth/limiter.go:97-121 | over every run the limiter holds of an identifier what a counter without sweeps or evictions does, after every event, if and only if no eviction drops that identifier's record while its window is open |
| `LimiterRuns.LimiterIsPlain` | internal/auth/limiter.go:97-109 | and then answers for it as that counter does at every later moment, whatever is swept or evicted besides |
| `LimiterRuns.FewForgiveNobody` | internal/auth/limiter.go:103-121 | with at most 8192 identifiers no run forgives anybody |
| `LimiterRuns.FailedIsPlainUnlessItForgives` | internal/auth/limiter.go:103-121 | a failure leaves what the plain counter leaves if and only if the record it evicted, if any, had expired |
| `LimiterBound.FailuresInAWindow` | internal/auth/limiter.go:76-109 | any interval no longer than the window holds at most twice the allowance less one failures of an identifier no eviction forgives |
| `LimiterBound.BoundIsReached` | internal/auth/limiter.go:76-109 | for every allowance and window a permitted run that reaches it |
| `LimiterBound.EvictionForgives` | internal/auth/limiter.go:111-121 | a spent identifier that is allowed again in the same instant after 8192 others fail |
| `AuthHandler.Handler.Authenticate` | internal/transport/auth.go:70-122 | permission before credential; refused whatever is presented when the allowance is spent; a failure recorded only after a permission; the limiter stays what the attempts served make it |
| `AuthHandler.ByteLenIs` | internal/transport/auth.go:80-83 | the length an identifier is held to is that of its UTF-8: a byte for each character and one more at each of U+0080, U+0800 and U+10000 |
| `AuthRuns.HistoryGuarded` | internal/transport/auth.go:85-101 | over every run of the handler every failure it records was permitted at that moment |
| `AuthRuns.WrongCredentialsInAWindow` | internal/transport/auth.go:85-101 | over every run of the handler at most twice the allowance less one wrong credentials of an identifier are checked in one window's length, while it is never granted a token and no eviction forgives it |
| `AuthRuns.HandlerReachesTheBound` | internal/transport/auth.go:85-101 | for every allowance and window a run of the handler that reaches it |
| `PeerRegistry.Configure` | internal/registry/registry.go:95-130 | accepted exactly when the three windows are in order, and then kept as given; the default ceiling exactly when none is set; a refusal names exactly the problems there are |
| `PeerRegistry.PeerRegistry.Register` | internal/registry/registry.go:140-168 | trimmed, expired before refused, first registration kept, never past the ceiling |
| `PeerRegistry.PeerRegistry.Heartbeat` | internal/registry/registry.go:173-188 | a peer past the window is removed and told to register, any other is online again |
| `PeerRegistry.PeerRegistry.Lookup` | internal/registry/registry.go:202-218 | absent and gone are one answer |
| `PeerRegistry.PeerRegistry.Count` | internal/registry/registry.go:230-246 | exact counts by derived state, and everything held |
| `PeerRegistry.PeerRegistry.Expire` | internal/registry/registry.go:252-269 | exactly the peers past the window go, each named once, in whatever order |
| `RegistryHistory.SilenceLaw` | internal/registry/registry.go:272-284 | online up to the suspect window of silence, suspect up to the offline window, gone past it |
| `RegistryHistory.ExpiryLaw` | internal/registry/registry.go:252-269 | an expiry removes and names exactly the peers last seen more than the offline window ago |
| `RegistryHistory.HeartbeatLaw` | internal/registry/registry.go:173-188 | accepted from a peer last seen within the offline window, which is then seen now; any other is not held afterwards |
| `RegistryHistory.RegistrationLaw` | internal/registry/registry.go:140-168 | an accepted registration keeps the first moment of registration of a peer that is held, and costs nobody within the offline window its place |
| `RegistryHistory.LookupTells` | internal/registry/registry.go:202-218 | over every run a peer is found if and only if it was last heard at most the offline window ago, and online if and only if at most the suspect window |
| `RegistryHistory.HeartbeatTells` | internal/registry/registry.go:173-188 | over every run a heartbeat is accepted if and only if the peer was heard within the offline window |
| `RegistryHistory.AdmissionTells` | internal/registry/registry.go:140-168 | over every run a registration is admitted if and only if the peer was heard within the offline window or fewer peers were than the ceiling |
| `RegistryHistory.TallyTells` | internal/registry/registry.go:230-246 | over every run the two counts are of those heard within the suspect window, and within the offline window but not the suspect one |
| `Registry.NeverOverfull` | internal/registry/registry.go:152-165 | no request takes the registry past its ceiling, expired records included |
| `Registry.RefusesExactlyWhenFull` | internal/registry/registry.go:152-159 | refused if and only if the peer is not there now and those that are fill the ceiling |
| `Registry.PresentIsKept` | internal/registry/registry.go:190-197 | nothing but its own deregistration removes a peer inside the window |
| `RegistryRuns.LazyIsEager` | internal/registry/registry.go:140-269 | over any run, sweeps anywhere, admissions, heartbeats, lookups and counts are those of a registry that expires first |
| `RegistryRuns.OnlyRegisteredAtTells` | internal/registry/registry.go:161-165 | the moment of registration differs if and only if the peer had gone and nothing had swept it |
| `SignalingHub.Configure` | internal/signaling/hub.go:152-159 | both limits usable, the given ones kept, the defaults exactly when a limit is not positive |
| `SignalingHub.Hub.Register` | internal/signaling/hub.go:183-192 | the new connection is held with a fresh counter, the one it replaces is closed |
| `SignalingHub.Hub.Deregister` | internal/signaling/hub.go:200-213 | removed only if it is the connection held |
| `SignalingHub.Hub.Peers` | internal/signaling/hub.go:234-243 | every peer holding a channel, once |
| `SignalingHub.Hub.Allowed` | internal/signaling/hub.go:318-335 | one message counted in the holder, the window restarted once it has passed |
| `SignalingHub.Hub.Deliver` | internal/signaling/hub.go:257-271 | to the other side of the session, or an answer to the sender saying what went wrong |
| `SignalingHub.Hub.Send` | internal/signaling/hub.go:295-315 | appended where the connection takes it, closed where it does not |
| `SignalingHub.Hub.Route` | internal/signaling/hub.go:248-272 | type, allowance, session and delivery in that order, with the refusal each one gives; the store is read only past the first two |
| `SignalingHub.Hub.SessionEnded` | internal/signaling/hub.go:282-286 | each peer is sent the notice |
| `SignalingHub.Other` | cmd/central/main.go:323-329 | the other participant of a session that is live at `now`, to a peer in it |
| `HubRuns.NewestChannelIsHeld` | internal/signaling/hub.go:183-213 | in every state the hub holds for a peer exactly its last registered channel unless that one deregistered |
| `HubRuns.ReplacedIsClosed` | internal/signaling/hub.go:189-191 | a channel that still stood when its peer registered another was closed |
| `HubRuns.MessagesInAWindow` | internal/signaling/hub.go:318-335 | at most twice the allowance of one channel's messages pass in one window's length, however many are refused between |
| `HubRuns.AllowanceIsReachedTwice` | internal/signaling/hub.go:318-335 | a run that reaches it |
| `Routing.EveryDeliveryIsRightful` | internal/signaling/hub.go:248-272 | over every run, every peer's message on any connection is unchanged, names the connection it came in on, and went to the other participant of a session live at lookup |
| `Deliveries.CarriedArrives` | internal/signaling/hub.go:248-272 | a message nothing speaks against is written once to the other side, named by its sender's connection, and to nobody else |
| `Deliveries.RefusedIsAnswered` | internal/signaling/hub.go:248-291 | any other is answered to its sender by one error with the code for what is wrong, and nobody else is sent anything |
| `Deliveries.RoutingCounts` | internal/signaling/hub.go:318-335 | a message of a carried kind counts in its sender's window, or opens a new one if that has passed, and nobody's place in the hub changes |
| `Deliveries.FailedWriteCloses` | internal/signaling/hub.go:295-315 | a write that fails closes that connection, and only that does |
| `Deliveries.OtherIs` | cmd/central/main.go:323-329 | the other side is found exactly by a peer of a session live now |
| `Deliveries.EveryCarriedArrives` | internal/signaling/hub.go:248-272 | over every run such a message of a live session is in the other side's connection from then on, at one place |
| `Notices.BothAreTold` | internal/transport/sessions.go:69-74 | of one ended session each of the two peers gets a notice on the connection it holds, and no other connection gets anything |
| `Notices.NotifiedReceived` | cmd/central/main.go:144-150 | of any number of them each connection gets exactly the notices for the peers that hold it, in order |
| `Notices.AnnouncedIsReceived` | internal/signaling/hub.go:282-286 | where no session is announced twice, a connection has one notice of it for each of its peers that held the connection |
| `Sweep.OrderDoesNotMatter` | cmd/central/main.go:142-151 | two departures in either order leave a session alike |
| `Sweep.ToldMore` | cmd/central/main.go:144-150 | one more departed peer adds exactly the sessions not yet announced |
| `Presence.HeldChannelIsOnline` | cmd/central/main.go:348-370 | while its channel is held and the refresh is never later than the suspect window, a registered peer is online at every instant and no sweep names it |
| `Presence.RefreshAnswers` | cmd/central/main.go:337-341 | a peer reported present is answered for from then on unless it was absent and the present peers fill the ceiling |
| `Departures.LeavesWhen` | internal/registry/registry.go:140-196 | every way a peer can leave the registry, and no other |
| `Departures.RegistryEndsIff` | cmd/central/main.go:142-151 | a request to the registry ends a live session if and only if it is the sweep and one of the two peers is past the offline window |
| `Departures.DepartureEndsIff` | cmd/central/main.go:142-151 | when a peer of a live session leaves, the session is ended by that step if and only if the step is the sweep, and otherwise nothing in the store changes |
| `Departures.QuietlyLeftStaysOpen` | internal/registry/registry.go:173-196 | after a departure without a sweep, over any run in which the peer stays away, the other is not swept and neither acts on it, the session is left exactly as it was |
| `Departures.StillConnected` | internal/registry/registry.go:152-159 | a run in which a silent peer is dropped to admit another and its session is still connected after that and after the sweep that follows |
| `Central.ReportableState` | internal/transport/sessions.go:218-229 | exactly the three names a peer may report, each read as itself, never negotiating |
| `Central.ReportablePath` | internal/transport/sessions.go:232-243 | exactly the names of the three paths, each read as itself |
| `Central.Central.OpenSession` | internal/transport/sessions.go:77-111 | served exactly when the registry answers for the peer asked for and it is not the caller; then the store's answer, logged; otherwise nothing changes |
| `Central.Central.GetSession` | internal/transport/sessions.go:143-149 | the store's answer to a read, logged, with nothing announced |
| `Central.Central.ReapSessions` | cmd/central/main.go:301-314 | the store's own sweep, logged, with nothing announced |
| `Central.Central.Signal` | cmd/central/main.go:323-329 | routed by the other side the store names; the store is read, and that logged, exactly when the message gets as far as asking |
| `Central.Central.ReportSession` | internal/transport/sessions.go:174-213 | an unreadable report changes nothing; a report announces the session exactly if it ended it, and is logged |
| `Central.Central.DeleteSession` | internal/transport/sessions.go:151-164 | a delete announces the session exactly if it closed it, and is logged |
| `Central.Central.NotifyEnded` | internal/transport/sessions.go:69-74 | both peers of a session that is not live are sent its end once, and that is receipted |
| `Central.Central.RegisterPeer` | internal/transport/peers.go:43-58 | the registry's answer, with the store untouched |
| `Central.Central.HeartbeatPeer` | internal/transport/peers.go:73-95 | the registry's answer, with the store untouched |
| `Central.Central.DeregisterPeer` | internal/transport/peers.go:61-63 | the peer leaves the registry, with the store untouched |
| `Central.Central.LookupPeer` | internal/transport/peers.go:98-119 | the registry's answer, with nothing changed |
| `Central.Central.Connected` | cmd/central/main.go:337-341 | heartbeat, or registration where the registry no longer answers |
| `Central.Central.OpenChannel` | internal/signaling/hub.go:183-195 | the channel is taken, then the peer is reported present |
| `Central.Central.CloseChannel` | internal/transport/signal.go:123 | the channel goes from the hub if it is the one held, and the registry is not told |
| `Central.Central.RefreshPresence` | cmd/central/main.go:348-370 | one tick refreshes every peer holding a channel |
| `Central.Central.SweepPeers` | cmd/central/main.go:142-156 | every session of every expired peer is closed and announced exactly once, both peers gone or not and whatever the order; to the store it is one logged departure for each removed peer, and what was told is the union of what those announce |
| `Central.Central.OnExpired` | cmd/central/main.go:142-156 | the same of the sweep's callback, for any list of removed peers |
| `Central.EachEndAnnouncedOnce` | cmd/central/main.go:142-151 | everything the wired server ever announced names no session twice, and names one if and only if something other than the clock ended it |
| `Central.EachEndReceivedOnce` | internal/signaling/hub.go:274-286 | over the same life each connection received, of each announced session, one notice for each of its two peers that held the connection then, of any other session none, and no other message about sessions |

## Left out

- HTTP, JSON, WebSocket, TLS, logging, tickers, shutdown and goroutines: plumbing; the locks make each call one step.
- Tokens, secret hashing and the client store: the properties live in libraries; the credential check is an input.
- Configuration parsing, ICE credentials and build information: validation lists and string assembly.
- The browser SDK and the demonstration page: browser objects and promise interleavings.
- The federation specs: no code to model.
- Interleavings inside one call: the source reads the clock more than once in `Failed`, `Allowed` and the sweep callback, and between `Allowed` and `Failed` of one request; here each is one step at one `now`.
- Connections: `Conn.Send` appends to an outbox or fails, `Conn.Close` marks the connection closed; a connection is a number, and its far side is two fields of the hub.
- Machine integers: times, counters and `ceiling * 4` are unbounded.
- `time.Time` zero: the limiter's first sweep is due whatever the window, modelled as an absent `lastSweep`.
- `Authorizer` other than a yes or no for each pair: a policy is an input to `Open`.
- Invalid UTF-8 in identifiers: strings are sequences of characters, compared in code point order as their UTF-8 bytes are.
- States and paths beyond the named ones: the transport layer lets no other string reach the store.
- `HeartbeatInterval`, `Connected` and the other accessors: they return a field.
- LimiterBound.FailuresInAWindow: for an identifier with no success of its own and no eviction of its record while its window is open, since either forgives by design.
- LazyRuns.LazyIsEager: compares a reap's answers by what it forgot, since how many timeouts it was the first to notice depends on who noticed before.
- AuthRuns.WrongCredentialsInAWindow: for an identifier never granted a token and never evicted while its window is open, since either forgives by design.
- Central.Central.SweepPeers: the registry's expiry and its callback are one step, so no peer registers again in between.
