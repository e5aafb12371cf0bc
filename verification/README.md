# Verification of the two-server login protocol

A Dafny model of a LoginServer / GameServer pair written in Rust, with proofs about every run of it.
`dafny verify dfyconfig.toml` checks everything.

## What is modelled

A client connects to LoginServer, proves its password and receives a single-use token. LoginServer
keeps `"{account_id}:{user_id}"` under that token in Redis. The client then connects to GameServer,
which takes the token (GET and DEL in one atomic script), becomes authenticated as that account and
kicks any other session of the same user. Both servers run one asynchronous task per session, share
a session registry under a lock, limit connections per address, and send replies through a bounded
queue drained by a writer task.

| file | what it holds |
|---|---|
| `Prelude.dfy`, `Messages.dfy` | integer widths, time in nanoseconds, the wire messages |
| `Registry.dfy` | the session registry, as a value and as a mutable object with cancellation tokens |
| `SessionServer.dfy` | any number of session tasks around one registry, split into "poll the kick token" and "handle an event" |
| `TokenValue.dfy` | formatting and parsing the value stored under a token |
| `Codec.dfy`, `Outbox.dfy` | framing over bytes, the bounded queue, the writer, and all of them together |
| `EventLoop.dfy` | the shape of both event loops |
| `GameSession.dfy`, `GameRuns.dfy`, `GameLoop.dfy` | the GameServer session object, its handlers and its loop; every run of one session; the loop as such a run |
| `LoginSession.dfy` | the LoginServer session object, its handlers, its loop and its limit on attempts |
| `KeepAlive.dfy` | client and GameServer session against the clock |
| `Protocol.dfy`, `ProtocolInvariants.dfy`, `ProtocolHistory.dfy`, `ProtocolReplies.dfy`, `ProtocolTheorems.dfy`, `ProtocolSteps.dfy`, `ProtocolResults.dfy`, `StaleMapping.dfy` | both servers, their tasks and Redis as one transition system |
| `Acceptor.dfy` | the connection limiter: its specification over histories, and the object with maps, queues and loops |
| `Logout.dfy` | the retry schedule for recording a logout |
| `Client.dfy` | the dummy client's two phases |
| `Counters.dfy` | the dummy client's counters, one atomic operation per step |

Objects that the program updates in place (`SessionRegistry`, `ConnectionGuard`, the sessions, `Outbox`,
`BytesMut`, the counters) are classes whose methods are proved against functions on values. The
theorems about runs are about those functions.

## How concurrency is modelled

`Protocol.Do` performs one step of one participant; `Protocol.Reaches` allows every interleaving. Each
`await` of `authenticate` is a step of its own, and so are a session's poll of its kick token, the
handling of the event it then chose, its departure, and the arrival of a backend task's result in its
channel. A kick can therefore land between a poll and the handling of an event, and a departing
session can still be found in the registry. Backend calls can fail at any point, including after they
took effect. Every handler is told by the step whether its reply could be queued.

Fields documented as history (`log`, `tokens`, `auths`, `cancelled`, `late`, `received`, `sent`, `marks`)
are never read by the modelled operations; they only let the theorems say what happened before.
`ProtocolSteps` says it without them, in terms of the steps that were taken.

## What turned out not to hold

- **The user map after a second authentication.** Two `GameConnectRequest`s in flight on one session
  can both succeed, for different users (`docs/PORTING.md:120` accepts this). The first user's mapping
  then points to a session that carries another user, and it is never removed.
  `StaleMapping.StaleMappingIsReachable` is such a run of the whole system, from two logins to the
  departure of the last session; `ProtocolTheorems.IndexAgreesIff` is the exact condition on runs and
  `RegistrySpec.AuthenticateKeepsIndexIff` the exact condition on one call. Exclusivity is not affected.
- **Encodings of empty bodies.** `encode` writes a frame of length 0, which `decode` rejects.
  `Codec.SequenceRoundTripIff` has the exact condition; `Outbox.Send` always sets a payload and so
  meets it.
- **The keep-alive timeout** is safe exactly when 3 s + 2D < 10 s, with D the longest delay
  (`KeepAlive.NeverTimesOutIff`).
- **u32 counters.** The login attempt counter and the logout retry counter wrap after 2^32 steps (a
  release build; a debug build would panic). `LoginLimit.AttemptBoundIff` gives the number of events from
  which the login bound can fail; `LoginLimit.WindowLimitIff`, `Logout.NeverDecreasesIff` and
  `Logout.TotalWaitIsScheduleIff` say exactly what the wrap itself breaks.
- **A snapshot of the client counters** is three separate loads and need not be a state that ever
  existed: `Counters.SnapshotCanCountThrice`. `Counters.SnapshotExactIff` says exactly when it counts
  right, and that it never loses a client.

The comments at `crates/net/src/consts.rs:14` and `docs/PORTING.md:108` say that a session whose inner
channel overflows is terminated. The code waits for room instead (`inner_tx.send(..).await`); the model
follows the code.

## Model

| member | source | states |
|---|---|---|
| `ProtocolSteps.ProvenanceBySteps` | crates/login_server/src/session.rs:269-331 | in every run, an authentication on GameServer was preceded by these steps of the system, in this order: a login request; its task found a row with exactly that account_id and user_id, its password matched and it was not banned, its last login was updated, its token was stored; this very session presented the token, it was taken, reported and handled |
| `ProtocolSteps.StoresAreEarned` | crates/login_server/src/session.rs:269-331 | whatever is stored was stored by a task that took every one of its steps, in order, for the row it stored |
| `ProtocolSteps.OutcomesAreExplained` | crates/login_server/src/session.rs:269-331 | every outcome was given by the last step of its task: not found or a wrong password is 1; banned, after a match, 2; a store without its reply 3; a failed lookup, hash, check or update a database error |
| `ProtocolSteps.CheckResult` | crates/login_server/src/session.rs:279-304 | a check goes on only if the password matches and the account is not banned |
| `ProtocolTheorems.Provenance` | crates/game_server/src/session.rs:308-334 | in every interleaving, an authentication on GameServer used a token that an earlier login task issued after fetching a row with exactly that account_id and user_id, verifying its password, finding it not banned and updating its last login, in that order |
| `ProtocolTheorems.AccountsHaveProvenance` | crates/login_server/src/session.rs:269-331 | every account a game session has comes from such an authentication of that session |
| `ProtocolTheorems.StoredTokenIsAccepted` | crates/game_server/src/backend.rs:62-72 | the converse: while a token is in Redis, taking it yields a result that authenticates any session as exactly the row it was issued for, and it can be taken once |
| `ProtocolSteps.TakeReports` | crates/game_server/src/backend.rs:62-72 | a token check reports the value if it was there and the reply arrived, nothing if it was not there, and an error otherwise; the token is gone once the script ran |
| `ProtocolSteps.SaveReports` | crates/game_server/src/session.rs:281-306 | a score that was saved is reported as saved, and one that was not as an error |
| `ProtocolResults.GameResultsConserved` | crates/game_server/src/session.rs:346-351 | every task that a live GameServer session started is outstanding, or its result waits in the channel, or it was handled: exactly once |
| `ProtocolResults.LoginResultsConserved` | crates/login_server/src/session.rs:207-213 | the same for LoginServer and its authenticate tasks |
| `ProtocolReplies.RepliesAreIssued` | crates/login_server/src/session.rs:216-239 | when a login session handles a success, the token in its reply is one that a task spawned by this very session stored, for the user the session becomes |
| `ProtocolReplies.StepKeepsHonest` | crates/login_server/src/session.rs:269-331 | every step of the system keeps "an outcome on its way to a session names a token stored for that session's request" |
| `ProtocolTheorems.AtMostOneActiveSession` | crates/net/src/registry.rs:66-85 | in every reachable state of both servers, at most one session carrying a user has an uncancelled kick token, and it is the one the user maps to |
| `ProtocolTheorems.KicksAreHeeded` | crates/game_server/src/session.rs:190-218 | a session handles at most one event after its kick token is cancelled |
| `ProtocolSteps.KickedOnlyFor` | crates/net/src/registry.rs:66-97 | on either server, a kicked session was cancelled from outside by some step, or superseded by another session that authenticated as a user whose last authenticator it was; and a live superseded session is kicked |
| `ProtocolSteps.MappedSessionIsActive` | crates/net/src/registry.rs:66-85 | with one authentication per session, and unless a step cancelled it from outside, the session a user maps to is registered, carries the user and has not been kicked |
| `ProtocolSteps.GameHandlers` | crates/game_server/src/session.rs:197-218 | a request step changes its own session only, and ends its loop exactly for a request that is not allowed or an answer that cannot be queued |
| `ProtocolSteps.GameResultHandlers` | crates/game_server/src/session.rs:308-324 | the same for a task's result |
| `ProtocolSteps.LoginHandlers` | crates/login_server/src/session.rs:168-192 | the same for a LoginServer request |
| `ProtocolSteps.LoginResultHandlers` | crates/login_server/src/session.rs:216-239 | the same for an outcome |
| `ProtocolTheorems.GameIndexAgrees` | crates/net/src/registry.rs:41-85 | with one authentication per session, a user maps to its most recent authenticator while that is registered and to nothing afterwards; both maps are empty once all sessions have left |
| `ProtocolTheorems.IndexAgreesIff` | crates/net/src/registry.rs:53-85 | without that hypothesis, every mapping points to a live session carrying the user if and only if no user's last authenticator has since authenticated as someone else |
| `StaleMapping.StaleMappingIsReachable` | docs/PORTING.md:120 | for every configuration that lets two different users in, a run from the empty system leads to a wrong mapping, and on to one where every session has left and the first user still maps to one |
| `StaleMapping.TwoResults` | crates/game_server/src/session.rs:262-279 | the run up to two good results in one channel: both requests pass the check for an account before either result arrives |
| `ProtocolTheorems.TokenConservation` | crates/game_server/src/backend.rs:62-72 | every token that the log says was stored is in exactly one place, and nothing else is in any: Redis, in flight (in one task or one channel, once), used by one authentication, or gone (expired, dropped or lost) |
| `ProtocolTheorems.StoredOnce` | crates/login_server/src/backend.rs:86-102 | the tokens on record are exactly those with a store in the log, and no key is stored twice |
| `ProtocolTheorems.FatesAreExact` | crates/game_server/src/session.rs:346-351 | a token's recorded fate says truly whether it is in Redis, in flight or used |
| `ProtocolHistory.StepGrows` | crates/login_server/src/backend.rs:86-102 | no step takes back a log entry, or changes anything about a token but its fate |
| `ProtocolTheorems.AuthenticationsBounded` | crates/login_server/src/backend.rs:86-102 | game authentications never outnumber the tokens that login tasks stored |
| `ProtocolInvariants.StepKeepsInv` | crates/game_server/src/session.rs:176-219 | every step of either server, of a task or of Redis keeps the invariant that ties trails in the log, Redis, tasks, channels, registries and accounts together |
| `ProtocolInvariants.TraceInv` | crates/game_server/src/session.rs:72-110 | the invariant holds in every state of every run |
| `ProtocolInvariants.IssueInv` | crates/login_server/src/backend.rs:86-102 | storing a token keeps the invariant whether or not the store happened and whether or not its reply arrived |
| `ProtocolInvariants.CheckInv` | crates/login_server/src/session.rs:279-304 | the password and ban checks keep the invariant for every verdict of the password oracle |
| `ProtocolInvariants.TakeInv` | crates/game_server/src/backend.rs:62-72 | taking a token keeps the invariant whether or not the script ran and whether or not its reply arrived |
| `ProtocolInvariants.GameReportInv` | crates/game_server/src/session.rs:346-351 | delivering a task's result to a live or departed session keeps the invariant |
| `ProtocolInvariants.GameInnerInv` | crates/game_server/src/session.rs:308-334 | handling a task's result keeps the invariant, whether it authenticates or not |
| `ProtocolInvariants.Dequeued` | crates/game_server/src/session.rs:308-324 | taking the first message out of a channel leaves every other token where it was |
| `ProtocolInvariants.Enqueued` | crates/game_server/src/session.rs:346-351 | a message joining a channel takes its token there and moves no other |
| `RegistrySpec.KickedExactly` | crates/net/src/registry.rs:41-97 | for each operation, exactly which sessions are kicked afterwards; an authentication kicks the registered session the user mapped to, if it is another, and nobody else |
| `RegistrySpec.MappedExactly` | crates/net/src/registry.rs:41-97 | for each operation, whom every user maps to and what every session carries afterwards |
| `RegistrySpec.ExclusivityKept` | crates/net/src/registry.rs:41-97 | register, remove, authenticate and disconnect keep "an active session of a user is the one the user maps to", for all ids and users |
| `RegistrySpec.AtMostOneActive` | crates/net/src/registry.rs:66-85 | exclusivity means that two active sessions of a user are the same session |
| `RegistrySpec.AuthenticateKeepsIndexIff` | crates/net/src/registry.rs:66-85 | authenticating keeps every mapping right if and only if the session is registered and no other user still maps to it |
| `RegistrySpec.ReauthenticationLeavesStale` | crates/net/src/registry.rs:53-85 | the example: one session, two users, and a mapping that outlives the session |
| `RegistrySpec.IndexKept` | crates/net/src/registry.rs:41-97 | every other operation keeps every mapping right |
| `SessionRegistries.SessionRegistry.constructor` | crates/net/src/registry.rs:24-38 | a new registry is empty |
| `SessionRegistries.SessionRegistry.Register` | crates/net/src/registry.rs:41-50 | the object's new state is that of the specification, for any token; sessions keep distinct tokens if this one is new |
| `SessionRegistries.SessionRegistry.Remove` | crates/net/src/registry.rs:53-63 | the object's new state is that of the specification: the mapping goes only if it points to this session |
| `SessionRegistries.SessionRegistry.Authenticate` | crates/net/src/registry.rs:66-85 | the object's new state, cancelled tokens included, is that of the specification |
| `SessionRegistries.SessionRegistry.Claim` | crates/net/src/registry.rs:67-72 | its first half: the mappings change, no token is cancelled, and the result is whom the user mapped to before |
| `SessionRegistries.SessionRegistry.CancelKick` | crates/net/src/registry.rs:83-83 | cancelling one session's token kicks that session and no other |
| `SessionRegistries.SessionRegistry.Disconnect` | crates/net/src/registry.rs:88-97 | cancels exactly the token of the named session and says whether there was one |
| `SessionRegistries.SessionRegistry.Count` | crates/net/src/registry.rs:99-101 | the number of registered sessions |
| `SessionRegistries.SessionRegistry.Snapshot` | crates/net/src/registry.rs:103-113 | lists every registered session with its user exactly once |
| `SessionServer.LifecycleInv` | crates/game_server/src/session.rs:72-110 | connecting, kicking, polling, quitting and leaving keep tracking, exclusivity, the exact user map and the bound on late events |
| `SessionServer.HandleInv` | crates/game_server/src/session.rs:190-218 | handling an event keeps them too, kicked meanwhile or not, authenticating or not |
| `SessionServer.IndexAgreesIffNoneStale` | crates/net/src/registry.rs:53-85 | for any session server: mappings agree if and only if no user is stale |
| `SessionServer.EmptyIffNoneStale` | crates/net/src/registry.rs:53-63 | once every session has left, the user map is empty if and only if no user is stale |
| `SessionServer.IndexIsLastAuthenticator` | crates/net/src/registry.rs:66-85 | the user map as a function of the history of authentications and the live sessions |
| `SessionServer.OneAuthMeansNoneStale` | docs/PORTING.md:120 | one authentication per session leaves no user stale |
| `SessionServer.WhoIsKicked` | crates/net/src/registry.rs:72-84 | after a session authenticates, the kicked are those kicked before and the registered session, other than itself, that last authenticated as the user |
| `SessionServer.KickedIff` | crates/net/src/registry.rs:66-97 | a live session is kicked if and only if its token was cancelled from outside or it was superseded |
| `SessionServer.MappedIsActive` | crates/net/src/registry.rs:66-85 | for any session server, with one authentication per session: the session a user maps to is active unless cancelled from outside |
| `SessionServer.WhyExiting` | crates/game_server/src/session.rs:182-217 | a loop ends at a poll that sees the kick, at the end of its input or its timer, or for a failed greeting, and then stays ended |
| `SessionServer.WhyHandled` | crates/game_server/src/session.rs:215-217 | handling an event ends the loop exactly when the handler breaks it, and touches no other session |
| `TokenValue.RoundTrip` | crates/login_server/src/backend.rs:93-97 | parsing a stored value gives back account_id and user_id for every u64 and every string, colons included |
| `TokenValue.ParseIff` | crates/game_server/src/session.rs:145-151 | which values parse, and to what: an optional plus, digits whose value fits 64 bits, a colon, and the user_id |
| `TokenValue.ParseDigitsIff` | crates/game_server/src/session.rs:145-151 | the account id parses if and only if it is all digits and its value fits 64 bits |
| `TokenValue.FormatInjective` | crates/login_server/src/backend.rs:93-97 | different accounts never share a stored value |
| `Codec.Decode` | crates/net/src/codec.rs:32-53 | the result and the bytes left in the buffer are those of the one-frame specification |
| `Codec.HeaderRefusedIff` | crates/net/src/codec.rs:37-40 | with two bytes there, a length of 0 or over 8190 is refused and no other is, whatever follows, and the buffer stays as it was |
| `Codec.FrameConsumedIff` | crates/net/src/codec.rs:42-52 | otherwise decoding waits exactly until the frame is there, and then consumes exactly the frame |
| `Codec.UnreadIsShort` | crates/net/src/codec.rs:32-53 | a reader that has met no error holds fewer than 8192 bytes |
| `Codec.Encode` | crates/net/src/codec.rs:60-78 | appends the frame, or nothing when the body is over the limit |
| `Codec.FrameIs` | crates/net/src/codec.rs:60-78 | nothing for a body over 8190 bytes; otherwise its length in two bytes, low byte first, and the body |
| `Codec.DrainExtends` | crates/net/src/codec.rs:32-53 | decoding a prefix and then the rest is decoding the whole |
| `Codec.ChunkingIndependent` | crates/net/src/codec.rs:32-53 | however a stream is split into chunks, the same messages, the same first error and, without an error, the same unread bytes |
| `Codec.FrameDecodes` | crates/net/src/codec.rs:32-78 | one encoded message decodes to itself, unless its body is empty, which is rejected |
| `Codec.SequenceRoundTripIff` | crates/net/src/codec.rs:32-78 | decoding the concatenated encodings of any messages gives exactly those within the size limit and nothing left over, if and only if no body is empty |
| `Codec.PrefixDecodesToPrefix` | crates/net/src/codec.rs:32-78 | any prefix of the bytes decodes without error to a prefix of the messages, and none whose frame is complete is missing |
| `Outboxes.Outbox.Send` | crates/net/src/outbox.rs:51-69 | succeeds if and only if the writer is there and fewer than 200 are queued; appends the wrapped payload or changes nothing |
| `Outboxes.Outbox.SendFlow` | crates/net/src/outbox.rs:72-77 | a refused send breaks the loop |
| `Outboxes.WriteLoop` | crates/net/src/outbox.rs:95-116 | without a socket error the wire ends with the frames of everything that arrived, in order; with one it is a prefix of that and the session is kicked; on a new connection this is a run of `Delivery`, so `EndToEnd` applies to it |
| `Outboxes.Pump` | crates/net/src/outbox.rs:100-110 | batch after batch, wire + buffer grow by exactly the frames that arrive, as steps of `Delivery` |
| `Outboxes.FeedAndDrain` | crates/net/src/outbox.rs:101-105 | batching neither loses, repeats nor reorders a frame, and each message fed is a send, a write and a take of `Delivery` |
| `Delivery.StepKeepsInv` | crates/net/src/outbox.rs:51-116 | sending, taking, partial writes, errors, the drain timeout and finishing keep "wire + buffer + queue = what was sent" |
| `Delivery.AcceptedIff` | crates/net/src/outbox.rs:51-69 | a send is accepted if and only if the writer is at work and fewer than 200 messages wait |
| `Delivery.EndToEnd` | crates/net/src/outbox.rs:51-116 | at any moment the wire decodes to an in-order, gap-free prefix of what was sent (less oversized); the queue is at most 200; at most one send is refused; a finished writer has delivered everything |
| `GameSessions.Session.constructor` | crates/game_server/src/session.rs:81-91 | a new session is unauthenticated, at the origin, and its keep-alive counts from now |
| `GameSessions.Session.OnRemote` | crates/game_server/src/session.rs:221-260 | session, queue, spawned tasks and registry after a request are those of the specification, and a refused reply breaks the loop |
| `GameSessions.Session.OnGameConnectRequest` | crates/game_server/src/session.rs:262-279 | refuses an authenticated session or an empty token, and otherwise spawns one token check |
| `GameSessions.Session.OnGameOverReport` | crates/game_server/src/session.rs:281-306 | saves a score for the session's own account and changes nothing else |
| `GameSessions.Session.OnInner` | crates/game_server/src/session.rs:308-324 | session, queue and registry after a task's result are those of the specification |
| `GameSessions.Session.OnAuthenticated` | crates/game_server/src/session.rs:326-334 | registry, account and keep-alive are updated even when the reply is refused |
| `GameSessions.Session.EventLoop` | crates/game_server/src/session.rs:176-219 | greets the client and returns at once if that cannot be sent; otherwise handles events in order up to and including the first that breaks the loop |
| `GameSessions.Session.Loop` | crates/game_server/src/session.rs:190-218 | the loop after the greeting |
| `GameSessions.Session.Handle` | crates/game_server/src/session.rs:197-213 | state and flow after any one event are those of the specification |
| `GameLoop.BreaksIff` | crates/game_server/src/session.rs:191-260 | exactly which events end the loop: a kick, the end of the input or an error in it; the timer after ten seconds if authenticated; a request that is not allowed; an answer that cannot be queued |
| `GameLoop.NothingAfterTheEnd` | crates/game_server/src/session.rs:215-217 | no event after the one that ends the loop has any effect |
| `GameLoop.KickEndsLoop` | crates/game_server/src/session.rs:197-207 | after a kick, the end of the input or an error in it nothing more happens at all |
| `GameLoop.AllHandledUntilTheEnd` | crates/game_server/src/session.rs:190-218 | until the loop ends, every event is handled |
| `GameLoop.EventLoopIsRun` | crates/game_server/src/session.rs:176-219 | for all events that can happen, the event loop is a run of `GameRuns` with the same state, messages queued, tasks started and registry, so everything proved of runs holds of it |
| `GameLoop.NothingSentToClosed` | crates/net/src/outbox.rs:66-67 | once the writer is gone, nothing more is sent |
| `GameSessions.RunSession` | crates/game_server/src/session.rs:72-110 | the whole task: it registers, serves, leaves the registry, and records the logout of exactly the account it ended with, if any, at least once |
| `GameSession.ResultAnswers` | crates/game_server/src/session.rs:308-342 | the one answer to each result: GameConnectResponse(true, 0) to a readable token and (false, 1) to any other, GameOverResponse(true) to a saved score, ErrorResponse(3) to an error |
| `GameSession.RequestAnswers` | crates/game_server/src/session.rs:221-279 | a connect request is refused with code 1 exactly if the session has an account or the token is empty, and otherwise starts a check of that token |
| `GameRuns.StepKeepsInv` | crates/game_server/src/session.rs:176-351 | every request, task result, timeout and exit keeps the accounting, the trace discipline and the timing of a session |
| `GameRuns.ReplyAccounting` | crates/game_server/src/session.rs:262-351 | while the session is in its loop, GameConnectRequests and authenticated GameOverReports handled = replies sent + backend tasks and inner messages outstanding, and no send has failed |
| `GameRuns.TraceDiscipline` | crates/game_server/src/session.rs:182-342 | ConnectedResponse first and once; only refusals and error 3, and no saved score, before the first successful reply; echoes are exactly those owed to authenticated moves and world changes, in order, and the last of these give the session's place and world; every backend task carries out the request just before it, scores under the session's own account |
| `GameRuns.NothingAfterFailedSend` | crates/game_server/src/session.rs:182-218 | the first failed send is the last thing a session does |
| `GameRuns.TimeoutIsDeserved` | crates/game_server/src/session.rs:191-213 | a keep-alive exit means the session is authenticated and the full timeout has passed since it authenticated and since every KeepAlive |
| `GameRuns.AuthenticationStays` | crates/game_server/src/session.rs:221-342 | in every run, from any state with an account to any later one, there is an account |
| `KeepAlive.NeverTimesOutIff` | crates/dummy_client/src/client.rs:178-210 | with delays up to D, a session never times out while its client runs if and only if 3 s + 2D < 10 s |
| `KeepAlive.SlowestClient` | crates/dummy_client/src/client.rs:178-210 | for every D some run keeps to the delays and is silent for 3 s + 2D |
| `KeepAlive.ReachableInv` | crates/game_server/src/session.rs:326-334 | in every run, due times are one interval apart and the last KeepAlive is at most one interval and a delay older than the next due |
| `LoginSessions.Session.TryConsumeLoginAttempt` | crates/login_server/src/session.rs:241-252 | the fields after an attempt, and the grant, are those of the fixed-window specification |
| `LoginSessions.Session.OnLoginRequest` | crates/login_server/src/session.rs:194-214 | state, reply and spawned task of each branch, in the source's order: already logged in, rate limited, empty credentials, authenticate |
| `LoginSessions.Session.OnRemote` | crates/login_server/src/session.rs:168-192 | state, reply and flow after a request are those of the specification |
| `LoginSessions.Session.OnLoginOutcome` | crates/login_server/src/session.rs:216-239 | state, reply and registry after an authenticate task's outcome are those of the specification |
| `LoginSessions.Session.constructor` | crates/login_server/src/session.rs:78-87 | a new session is not logged in, has made no attempt, and its keep-alive counts from now |
| `LoginSessions.Session.EventLoop` | crates/login_server/src/session.rs:123-166 | greets the client and returns at once if that cannot be sent; otherwise handles events in order up to and including the first that breaks the loop |
| `LoginSessions.Session.Loop` | crates/login_server/src/session.rs:137-165 | the loop after the greeting |
| `LoginSessions.Session.Handle` | crates/login_server/src/session.rs:144-160 | state and flow after any one event are those of the specification |
| `LoginSession.BreaksIff` | crates/login_server/src/session.rs:137-192 | exactly which events end the loop |
| `LoginSession.KickEndsLoop` | crates/login_server/src/session.rs:144-154 | after a kick, the end of the input or an error in it nothing more happens at all |
| `LoginSession.NothingAfterTheEnd` | crates/login_server/src/session.rs:162-164 | no event after the one that ends the loop has any effect |
| `LoginSession.AllHandledUntilTheEnd` | crates/login_server/src/session.rs:137-165 | until the loop ends, every event is handled |
| `LoginSessions.RunSession` | crates/login_server/src/session.rs:69-96 | the whole task: it registers, serves, and leaves the registry |
| `LoginSession.LoginAnswers` | crates/login_server/src/session.rs:194-214 | a login request is answered with code 1 if logged in, 4 over the limit, 1 if incomplete, and otherwise starts an authenticate task for what it says; an incomplete one costs an attempt |
| `LoginSession.OthersUnanswered` | crates/login_server/src/session.rs:168-192 | any other request is not answered, and ends the session exactly if it is not logged in and it is not a KeepAlive |
| `LoginSession.OutcomeAnswers` | crates/login_server/src/session.rs:216-262 | the answer to each outcome: its token with code 0, its code without a token, or ErrorResponse(3) |
| `LoginLimit.AttemptBoundIff` | crates/login_server/src/session.rs:241-252 | in every session of up to n events, any half-open interval of k * 60 s has at most 5k + 4 granted attempts, and at most 5k + 4 authenticate tasks, if and only if n < 2^32 + 4 |
| `LoginLimit.AttemptBound` | crates/login_server/src/session.rs:241-252 | the step for sessions of any length whose counter has not wrapped |
| `LoginLimit.GrantsCostEvents` | crates/login_server/src/session.rs:194-252 | authenticate tasks never outnumber granted attempts, wrapped or not, and what a wrapped session can still be granted |
| `LoginLimit.BoundIsReached` | crates/login_server/src/session.rs:24-25 | for every k some session is granted 5k + 4 attempts in k windows |
| `LoginLimit.WindowLimitIff` | crates/login_server/src/session.rs:241-252 | no window grants more than five attempts if and only if the u32 counter never wraps |
| `LoginLimit.FewEventsNeverWrap` | crates/login_server/src/session.rs:241-252 | fewer than 2^32 events cannot wrap it |
| `LoginLimit.BoundFailsAfterWrap` | crates/login_server/src/session.rs:241-252 | the example for the converse: 2^32 + 4 attempts in one window wrap the counter, and ten are granted |
| `Guards.ConnectionGuard.constructor` | crates/net/src/acceptor.rs:52-58 | a new limiter tracks an empty history |
| `Guards.ConnectionGuard.ShouldBlock` | crates/net/src/acceptor.rs:61-82 | the answer is what the specification says from the history of calls alone, whatever was pruned, unbanned or swept; after a call not settled early each tracked address was admitted in the last 70 s and each ban is active or ended within 60 s |
| `Guards.ConnectionGuard.IsFloodDetected` | crates/net/src/acceptor.rs:84-92 | the pruned queue decides, and is stored with the new time unless the limit is reached |
| `Guards.ConnectionGuard.SweepIfDue` | crates/net/src/acceptor.rs:94-109 | a due sweep prunes every queue, drops the empty ones and the expired bans, and nothing else |
| `Guards.SweepsEveryMinute` | crates/net/src/acceptor.rs:94-102 | the first counted call sweeps, and then one each time the last sweep is 60 s old |
| `Guards.ConnectionGuard.Prune` | crates/net/src/acceptor.rs:117-124 | what is left of a queue |
| `Guards.ConnectionGuard.RetainQueues` | crates/net/src/acceptor.rs:104-107 | every queue is pruned and exactly the empty ones are dropped |
| `Guards.ConnectionGuard.RetainBans` | crates/net/src/acceptor.rs:108-108 | exactly the bans that have ended are dropped |
| `Guards.AcceptLoop` | crates/net/src/acceptor.rs:25-50 | sessions are started for exactly the attempts that the history-only specification lets through |
| `Guards.PlayedIsJudged` | crates/net/src/acceptor.rs:25-50 | the history of the accept loop is one to which the theorems about judged histories apply |
| `Guards.CallTracks` | crates/net/src/acceptor.rs:71-81 | detection, sweep and ban keep what ties the fields to the history, and agree with the specification's verdict |
| `Guards.PrunedIsTail` | crates/net/src/acceptor.rs:117-124 | pruning a sorted queue drops exactly the times older than the window |
| `Guards.CountIsLength` | crates/net/src/acceptor.rs:84-92 | the length of a pruned queue is the number of admissions in the window according to the history |
| `Guards.SweepKeepsTracking` | crates/net/src/acceptor.rs:94-109 | a sweep loses nothing that a later decision depends on |
| `Guards.SweptCompact` | crates/net/src/acceptor.rs:104-108 | after a sweep every queue is non-empty, sorted, at most 30 long and recent, and every ban active |
| `GuardSpec.BlockedIff` | crates/net/src/acceptor.rs:61-92 | exactly who is blocked: no exempt address; any other if it flooded within the last 600 s or was let through 30 times in the last 10 s, which is then a flood |
| `GuardSpec.ThirtyPerTenSeconds` | crates/net/src/acceptor.rs:84-92 | no address that is not exempt is let through more than 30 times in any closed 10 s |
| `Guards.AtMostThirtyServed` | crates/net/src/acceptor.rs:25-50 | the same for the attempts that the accept loop serves, from an address in any of its forms |
| `GuardSpec.SlidingWindow` | crates/net/src/acceptor.rs:84-92 | every closed 10 s interval contains at most 30 admissions of an address |
| `GuardSpec.BanHolds` | crates/net/src/acceptor.rs:67-71 | for 10 minutes after a flood verdict every attempt is refused as banned and does not lengthen the ban |
| `GuardSpec.FirstAfterBan` | crates/net/src/acceptor.rs:71-81 | the first attempt at or after the end of a ban is admitted |
| `Addresses.CanonicalIdentifies` | crates/net/src/acceptor.rs:61-65 | canonicalisation identifies an IPv4 address with its IPv4-mapped form (section 2.5.5.2 of RFC 4291) and nothing else |
| `Addresses.ExemptIff` | crates/net/src/acceptor.rs:126-128 | 127.0.0.1, ::ffff:127.0.0.1 and ::1 are exempt, and no other address is |
| `Counters.CountersExact` | crates/dummy_client/src/client.rs:45-61 | in every interleaving of atomic operations each counter is the number of clients at its stage, and so never negative |
| `Counters.Conservation` | crates/dummy_client/src/client.rs:87-117 | login + game + disconnected + clients between a decrement and its increment = clients started |
| `Counters.AllFinishedIff` | crates/dummy_client/src/client.rs:87-117 | the counters read (0, 0, N) if and only if all N clients have finished |
| `Counters.StageIsOwn` | crates/dummy_client/src/client.rs:87-117 | however clients are interleaved, each one's stage is fixed by its own turns: through the game if its login succeeded, and never in it if it failed |
| `Counters.SnapshotExactIff` | crates/dummy_client/src/client.rs:37-43 | a snapshot taken while clients go on, with those in between at its second load, never counts fewer than had started, and counts each exactly once if and only if no client leaves its login between the first two loads and none finishes between the last two |
| `Counters.QuietSnapshotIsExact` | crates/dummy_client/src/client.rs:37-43 | if no client moves meanwhile, the snapshot is the state and counts right |
| `Counters.SnapshotCanCountThrice` | crates/dummy_client/src/client.rs:37-43 | the example: a snapshot of (1, 1, 1) with one client |
| `Counters.SharedCounters.Step` | crates/dummy_client/src/client.rs:45-61 | one client's next atomic operation on the shared counters |
| `Counters.RunClients` | crates/dummy_client/src/client.rs:87-117 | the shared counters end as the model says, in any order of turns |
| `Client.RunClient` | crates/dummy_client/src/client.rs:87-117 | the token that ended the login phase is the one the game phase runs with; without one there is no game phase |
| `Client.RunLoginPhase` | crates/dummy_client/src/client.rs:120-159 | the loop sends and ends as the specification of the phase says |
| `Client.LoginEndsWith` | crates/dummy_client/src/client.rs:120-159 | the phase ends with a token exactly at a successful LoginResponse with that token |
| `Client.OneRequestPerGreeting` | crates/dummy_client/src/client.rs:120-159 | while it goes on, it has answered every greeting, and only those, with its own credentials |
| `Client.RunGamePhase` | crates/dummy_client/src/client.rs:161-227 | the loop sends and ends as the specification of the phase says |
| `Client.ClientDiscipline` | crates/dummy_client/src/client.rs:161-227 | whatever it meets, a client sends only its own token until it has joined, and its moves are the places that the moves so far lead to, in order |
| `Client.JoinsOnlyBySuccess` | crates/dummy_client/src/client.rs:191-198 | it joins only by a successful GameConnectResponse, and stays joined |
| `Client.GameSends` | crates/dummy_client/src/client.rs:178-217 | which message each event calls for |
| `Client.GameEndsIff` | crates/dummy_client/src/client.rs:178-226 | the phase ends exactly with a shutdown, a broken connection, or a message that cannot be sent |
| `Logout.RecordLogout` | crates/game_server/src/session.rs:114-136 | calls = failures + 1 when nothing stops it; a shutdown stops it during that wait and never before the first attempt; the time waited is the schedule's |
| `Logout.TotalWaitIsScheduleIff` | crates/game_server/src/session.rs:34-35 | the total wait is 500 (2^n - 1) ms for n <= 6 and 31500 + 30000 (n - 6) ms beyond, if and only if the counter has not wrapped, and less otherwise |
| `Logout.NeverDecreasesIff` | crates/game_server/src/session.rs:125-134 | the waits never decrease if and only if the counter has not wrapped |
| `Logout.DelaySteps` | crates/game_server/src/session.rs:125-125 | a delay doubles up to 16 s and is 30 s from the seventh failure on |
| `Logout.DelayTable` | crates/game_server/src/session.rs:125-125 | the waits are 0.5, 1, 2, 4, 8 and 16 s, and then 30 s |

## Left out

- Protobuf bodies: the body codec is a parameter; results that need it assume that decoding inverts encoding and that a message with a payload takes at least one byte.
- Password hashing: verification is an oracle (`Env.verify`) with the three outcomes the code distinguishes; its semaphore is not modelled.
- SQL, MySQL, Redis connections and Pub/Sub: each call is a step that may fail before or after it takes effect; expiry is a step that may remove any token at any time.
- AdminApi, TLS, configuration, monitoring, the seeder and the keyboard player: no property of the protocol depends on them; a disconnect request is a step that cancels any session's kick token.
- Session and task ids: the counters are unbounded naturals here, 64 bits wide in the code. That a version 4 UUID never repeats is an assumption of the step that stores a token.
- Inner channels: unbounded here. The code bounds them at 1000 and lets a task wait for room, which only delays its result. Results that reach a session after its loop ended stay in its channel until it leaves and are then dropped, where the code may find the channel already closed.
- Floating point: a coordinate is the bit pattern of an IEEE single, and is only stored and echoed.
- Panics: a backend task that panics and so never reports is not modelled, apart from a password check that fails to complete.
- Event choice: both `EventLoop` methods are given their events; which one a `select!` picks is free in `GameRuns` and `Protocol`.
- Writer and session in parallel: `Outboxes.WriteLoop` sees the arrivals as a script; their interleaving is in `Delivery`.
- Reading to the end of a stream: the error for bytes left over at end of file comes from a library and ends the session like any other receive error.
- Client timing: `Client` says what a client sends for each event, `KeepAlive` when; a late tick is assumed not to shift the following ones, which is the timer's default behaviour. Coordinates are added by an uninterpreted operation.
- Addresses: only canonicalisation and the loopback allowlist; arithmetic on instants cannot overflow here.
