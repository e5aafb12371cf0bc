/** A LoginServer session: its handlers, and the limit on login attempts. */
module LoginSession {
  import opened Prelude
  import opened Messages
  import EventLoops
  import R = RegistrySpec

  const LOGIN_ATTEMPTS_PER_WINDOW: nat := 5
  const LOGIN_ATTEMPT_WINDOW: int := 60 * SECOND
  const KEEP_ALIVE_TIMEOUT: int := 10 * SECOND
  const SUCCESS: int := 0
  const INVALID_CREDENTIALS: int := 1
  const BANNED: int := 2
  const SERVER_ERROR: int := 3
  const RATE_LIMITED: int := 4
  const DB_ERROR_CODE: int := 3

  /** A fixed window: when it started and how many attempts it has seen (a wrapping u32). */
  datatype Limiter = Limiter(window: Option<Instant>, attempts: u32)

  datatype Core = Core(account: Option<string>, lastKeepAlive: Instant, limiter: Limiter)

  datatype Credentials = Credentials(userId: string, passwordHash: Bytes)

  datatype LoginOutcome = Success(userId: string, token: string) | Failure(code: int) | DbError

  datatype Outcome = Outcome(
    core: Core,
    flow: Flow,
    reply: Option<Payload>,
    spawned: Option<Credentials>,
    authenticated: Option<string>)

  function Init(now: Instant): Core {
    Core(None, now, Limiter(None, 0))
  }

  function Fail(core: Core, code: int): Outcome {
    Outcome(core, Continue, Some(LoginResponse(false, code, "")), None, None)
  }

  /** The limiter after an attempt at `now`, and whether the attempt is granted. */
  function TryConsume(l: Limiter, now: Instant): (Limiter, bool) {
    var renewed := l.window.None? || now - l.window.value >= LOGIN_ATTEMPT_WINDOW;
    var attempts := Increment(if renewed then 0 else l.attempts);
    (Limiter(if renewed then Some(now) else l.window, attempts), attempts <= LOGIN_ATTEMPTS_PER_WINDOW)
  }

  function OnLoginRequest(core: Core, userId: string, passwordHash: Bytes, now: Instant): Outcome {
    if core.account.Some? then Fail(core, INVALID_CREDENTIALS) else
    var (limiter, granted) := TryConsume(core.limiter, now);
    var after := core.(limiter := limiter);
    if !granted then Fail(after, RATE_LIMITED)
    else if userId == "" || passwordHash == [] then Fail(after, INVALID_CREDENTIALS)
    else Outcome(after, Continue, None, Some(Credentials(userId, passwordHash)), None)
  }

  function OnRemote(core: Core, payload: Option<Payload>, now: Instant): Outcome {
    if payload.Some? && payload.value.LoginRequest? then
      OnLoginRequest(core, payload.value.userId, payload.value.passwordHash, now)
    else if payload == Some(KeepAliveRequest) then
      Outcome(core.(lastKeepAlive := now), Continue, None, None, None)
    else Outcome(core, if core.account.None? then Break else Continue, None, None, None)
  }

  function OnLoginOutcome(core: Core, outcome: LoginOutcome, now: Instant): Outcome {
    match outcome
    case Success(userId, token) =>
      Outcome(core.(account := Some(userId), lastKeepAlive := now), Continue,
              Some(LoginResponse(true, SUCCESS, token)), None, Some(userId))
    case Failure(code) => Fail(core, code)
    case DbError => Outcome(core, Continue, Some(ErrorResponse(DB_ERROR_CODE)), None, None)
  }

  function FlowOf(o: Outcome, canSend: bool): Flow {
    if o.reply.Some? && !canSend then Break else o.flow
  }

  /** Whether the keep-alive timer of the select! has fired; only authenticated sessions have one. */
  predicate TimerDue(core: Core, now: Instant) {
    core.account.Some? && now >= core.lastKeepAlive + KEEP_ALIVE_TIMEOUT
  }

  // ---------------------------------------------------------------- what a client is told

  /**
   The answer to a login request: code 1 if it is logged in already, code 4 if the limit is reached,
   code 1 if the request is incomplete, and otherwise an authenticate task for what it says.  An
   incomplete request costs an attempt; one on a session that is logged in does not.
   */
  lemma LoginAnswers(core: Core, userId: string, passwordHash: Bytes, now: Instant)
    ensures var o := OnRemote(core, Some(LoginRequest(userId, passwordHash)), now);
            var (limiter, granted) := TryConsume(core.limiter, now);
            && o.flow == Continue && o.authenticated == None
            && o.core == core.(limiter := if core.account.Some? then core.limiter else limiter)
            && (core.account.Some? ==> o.reply == Some(LoginResponse(false, 1, "")) && o.spawned == None)
            && (core.account.None? && !granted ==> o.reply == Some(LoginResponse(false, 4, "")) && o.spawned == None)
            && (core.account.None? && granted && (userId == "" || passwordHash == []) ==>
                  o.reply == Some(LoginResponse(false, 1, "")) && o.spawned == None)
            && (core.account.None? && granted && userId != "" && passwordHash != [] ==>
                  o.reply == None && o.spawned == Some(Credentials(userId, passwordHash)))
  {
  }

  /** Any other request changes at most the keep-alive, is not answered, and starts nothing. */
  lemma OthersUnanswered(core: Core, payload: Option<Payload>, now: Instant)
    requires payload.Some? ==> !payload.value.LoginRequest?
    ensures var o := OnRemote(core, payload, now);
            && o.reply == None && o.spawned == None && o.authenticated == None
            && o.core == core.(lastKeepAlive := if payload == Some(KeepAliveRequest) then now else core.lastKeepAlive)
            && (o.flow == Break <==> core.account.None? && payload != Some(KeepAliveRequest))
  {
  }

  /** The answer to an outcome: its token with code 0, its code without a token, or ErrorResponse(3). */
  lemma OutcomeAnswers(core: Core, outcome: LoginOutcome, now: Instant)
    ensures var o := OnLoginOutcome(core, outcome, now);
            && o.flow == Continue && o.spawned == None
            && o.reply == Some(match outcome {
                                 case Success(_, token) => LoginResponse(true, 0, token)
                                 case Failure(code) => LoginResponse(false, code, "")
                                 case DbError => ErrorResponse(3)
                               })
            && (outcome.Success? ==>
                  o.core == core.(account := Some(outcome.userId), lastKeepAlive := now)
                  && o.authenticated == Some(outcome.userId))
            && (!outcome.Success? ==> o.core == core && o.authenticated == None)
  {
  }

  // ---------------------------------------------------------------- with its queue and registry

  /** A session together with what it writes to; `sent` is everything it ever queued. */
  datatype Live = Live(
    core: Core,
    queue: seq<MessageWrapper>,
    closed: bool,
    sent: seq<MessageWrapper>,
    spawned: seq<Credentials>,
    registry: R.Registry)

  predicate CanSend(live: Live) {
    !live.closed && |live.queue| < MAX_SEND_QUEUE_SIZE
  }

  function Settle(live: Live, id: nat, o: Outcome): Live {
    Live(
      o.core,
      if o.reply.Some? && CanSend(live) then live.queue + [Wrap(o.reply.value)] else live.queue,
      live.closed,
      if o.reply.Some? && CanSend(live) then live.sent + [Wrap(o.reply.value)] else live.sent,
      if o.spawned.Some? then live.spawned + [o.spawned.value] else live.spawned,
      if o.authenticated.Some? then R.Authenticate(live.registry, id, o.authenticated.value) else live.registry)
  }

  /** What wakes the loop, in the order it happens; the first two are the writer task's doing. */
  datatype Event =
    | WriterTook(count: nat)
    | WriterGone
    | Kicked
    | Frame(payload: Option<Payload>, at: Instant)
    | ReceiveFailed
    | EndOfStream
    | OutcomeMessage(outcome: LoginOutcome, at: Instant)
    | Timer(at: Instant)

  function Handle(live: Live, id: nat, e: Event): (Live, Flow) {
    match e
    case WriterTook(n) => (live.(queue := if n <= |live.queue| then live.queue[n..] else []), Continue)
    case WriterGone => (live.(queue := [], closed := true), Continue)
    case Frame(payload, at) =>
      var o := OnRemote(live.core, payload, at);
      (Settle(live, id, o), FlowOf(o, CanSend(live)))
    case OutcomeMessage(outcome, at) =>
      var o := OnLoginOutcome(live.core, outcome, at);
      (Settle(live, id, o), FlowOf(o, CanSend(live)))
    case Timer(at) => (live, if TimerDue(live.core, at) then Break else Continue)
    case _ => (live, Break)
  }

  function Handler(id: nat): (Live, Event) -> (Live, Flow) {
    (live, e) => Handle(live, id, e)
  }

  /** Handle events until one breaks the loop. */
  function Loop(live: Live, id: nat, events: seq<Event>): Live {
    EventLoops.Run(Handler(id), live, events)
  }

  /** The whole of `event_loop`: greet the client, and give up at once if that cannot be sent. */
  function Serve(live: Live, id: nat, events: seq<Event>): Live {
    if !CanSend(live) then live
    else
      var greeting := [Wrap(ConnectedResponse(0))];
      Loop(live.(queue := live.queue + greeting, sent := live.sent + greeting), id, events)
  }

  // ---------------------------------------------------------------- when the loop ends

  predicate HasRoom(live: Live) { !live.closed && |live.queue| < 200 }

  /** A login request that is answered by the handler itself. */
  predicate RefusedAtOnce(core: Core, p: Payload, now: Instant) {
    p.LoginRequest? &&
    (core.account.Some? || !TryConsume(core.limiter, now).1 || p.userId == "" || p.passwordHash == [])
  }

  /**
   The loop ends with a kick, the end of the input or an error in it; with the timer, if the session is
   logged in and ten seconds have passed; with any request other than LoginRequest and
   KeepAliveRequest, if it is not logged in; and with an answer that cannot be queued.
   */
  predicate Ends(live: Live, e: Event) {
    match e
    case Kicked => true
    case ReceiveFailed => true
    case EndOfStream => true
    case Timer(at) => live.core.account.Some? && at >= live.core.lastKeepAlive + 10_000_000_000
    case Frame(payload, at) =>
      || (live.core.account.None? &&
          !(payload.Some? && (payload.value.LoginRequest? || payload.value.KeepAliveRequest?)))
      || (payload.Some? && RefusedAtOnce(live.core, payload.value, at) && !HasRoom(live))
    case OutcomeMessage(_, _) => !HasRoom(live)
    case WriterTook(_) => false
    case WriterGone => false
  }

  lemma BreaksIff(live: Live, id: nat, e: Event)
    ensures Handle(live, id, e).1 == Break <==> Ends(live, e)
    ensures e.Kicked? || e.ReceiveFailed? || e.EndOfStream? || e.Timer? ==> Handle(live, id, e).0 == live
  {
  }

  /** What the writer does to the queue: it takes messages from the front, and in the end closes it. */
  lemma WriterEvents(live: Live, id: nat, n: nat)
    ensures n <= |live.queue| ==> Handle(live, id, WriterTook(n)).0 == live.(queue := live.queue[n..])
    ensures Handle(live, id, WriterGone).0 == live.(queue := [], closed := true)
  {
  }

  /** Once the writer is gone, nothing more is sent. */
  lemma NothingSentToClosed(live: Live, id: nat, e: Event)
    requires live.closed
    ensures Handle(live, id, e).0.closed && Handle(live, id, e).0.sent == live.sent
  {
  }

  /** No event after the one that ends the loop has any effect. */
  lemma NothingAfterTheEnd(live: Live, id: nat, events: seq<Event>, i: nat)
    requires i < |events| && Ends(Loop(live, id, events[..i]), events[i])
    ensures Loop(live, id, events) == Loop(live, id, events[..i + 1])
  {
    BreaksIff(Loop(live, id, events[..i]), id, events[i]);
    EventLoops.NothingAfterBreak(Handler(id), live, events, i);
  }

  /** A kick, the end of the input or an error in it: nothing later is handled, and nothing is done about it. */
  lemma KickEndsLoop(live: Live, id: nat, events: seq<Event>, i: nat)
    requires i < |events| && (events[i].Kicked? || events[i].ReceiveFailed? || events[i].EndOfStream?)
    ensures Loop(live, id, events) == Loop(live, id, events[..i])
  {
    NothingAfterTheEnd(live, id, events, i);
    EventLoops.LastIsIgnored(Handler(id), live, events[..i], events[i]);
    assert events[..i + 1] == events[..i] + [events[i]];
  }

  ghost predicate Ended(live: Live, id: nat, events: seq<Event>) {
    exists i: nat :: i < |events| && Ends(Loop(live, id, events[..i]), events[i])
  }

  /** And until then every event is handled. */
  lemma AllHandledUntilTheEnd(live: Live, id: nat, events: seq<Event>, e: Event)
    requires !Ended(live, id, events)
    ensures Loop(live, id, events + [e]) == Handle(Loop(live, id, events), id, e).0
  {
    forall i: nat | i < |events|
      ensures Handler(id)(EventLoops.Run(Handler(id), live, events[..i]), events[i]).1 != Break
    {
      BreaksIff(Loop(live, id, events[..i]), id, events[i]);
      assert !Ends(Loop(live, id, events[..i]), events[i]);
    }
    EventLoops.AllHandledUntilBreak(Handler(id), live, events, e);
  }
}

/** The login session task's own object. */
module LoginSessions {
  import opened Prelude
  import opened Messages
  import L = LoginSession
  import opened Outboxes
  import opened SessionRegistries

  class Session {
    const sessionId: nat
    const registry: SessionRegistry
    const outbox: Outbox
    var account: Option<string>
    var lastKeepAlive: Instant
    var loginWindow: Option<Instant>
    var loginAttempts: u32
    /** The authenticate tasks handed to the runtime, oldest first. */
    var spawned: seq<L.Credentials>

    ghost predicate Valid()
      reads this, outbox, registry
    {
      outbox.Valid() && registry.Valid()
    }

    ghost function View(): L.Live
      reads this, outbox, registry, registry.Tokens()
    {
      L.Live(L.Core(account, lastKeepAlive, L.Limiter(loginWindow, loginAttempts)), outbox.queue, outbox.closed,
             outbox.sent, spawned, registry.View())
    }

    constructor (sessionId: nat, registry: SessionRegistry, outbox: Outbox, now: Instant)
      requires registry.Valid() && outbox.Valid()
      ensures Valid() && this.registry == registry && this.outbox == outbox && this.sessionId == sessionId
      ensures View() == L.Live(L.Init(now), outbox.queue, outbox.closed, outbox.sent, [], registry.View())
    {
      this.sessionId, this.registry, this.outbox := sessionId, registry, outbox;
      account, lastKeepAlive, loginWindow, loginAttempts, spawned := None, now, None, 0, [];
    }

    method TryConsumeLoginAttempt(now: Instant) returns (granted: bool)
      modifies this
      ensures (L.Limiter(loginWindow, loginAttempts), granted)
           == L.TryConsume(L.Limiter(old(loginWindow), old(loginAttempts)), now)
      ensures account == old(account) && lastKeepAlive == old(lastKeepAlive) && spawned == old(spawned)
    {
      if loginWindow.None? || now - loginWindow.value >= L.LOGIN_ATTEMPT_WINDOW {
        loginWindow := Some(now);
        loginAttempts := 0;
      }
      loginAttempts := Increment(loginAttempts);
      granted := loginAttempts <= L.LOGIN_ATTEMPTS_PER_WINDOW;
    }

    method OnLoginRequest(userId: string, passwordHash: Bytes, now: Instant) returns (flow: Flow)
      requires Valid()
      modifies this, outbox
      ensures Valid()
      ensures var o := L.OnLoginRequest(old(View()).core, userId, passwordHash, now);
              View() == L.Settle(old(View()), sessionId, o) && flow == L.FlowOf(o, L.CanSend(old(View())))
    {
      if account.Some? {
        flow := outbox.SendFlow(LoginResponse(false, L.INVALID_CREDENTIALS, ""));
        return;
      }
      var granted := TryConsumeLoginAttempt(now);
      if !granted {
        flow := outbox.SendFlow(LoginResponse(false, L.RATE_LIMITED, ""));
        return;
      }
      if userId == "" || passwordHash == [] {
        flow := outbox.SendFlow(LoginResponse(false, L.INVALID_CREDENTIALS, ""));
        return;
      }
      spawned := spawned + [L.Credentials(userId, passwordHash)];
      flow := Continue;
    }

    method OnRemote(payload: Option<Payload>, now: Instant) returns (flow: Flow)
      requires Valid()
      modifies this, outbox
      ensures Valid()
      ensures var o := L.OnRemote(old(View()).core, payload, now);
              View() == L.Settle(old(View()), sessionId, o) && flow == L.FlowOf(o, L.CanSend(old(View())))
    {
      if payload.Some? && payload.value.LoginRequest? {
        flow := OnLoginRequest(payload.value.userId, payload.value.passwordHash, now);
      } else if payload == Some(KeepAliveRequest) {
        lastKeepAlive := now;
        flow := Continue;
      } else if account.None? {
        flow := Break;
      } else {
        flow := Continue;
      }
    }

    method OnLoginOutcome(outcome: L.LoginOutcome, now: Instant) returns (flow: Flow)
      requires Valid()
      modifies this, outbox, registry, registry.Tokens()
      ensures Valid() && registry.Tokens() == old(registry.Tokens())
      ensures var o := L.OnLoginOutcome(old(View()).core, outcome, now);
              View() == L.Settle(old(View()), sessionId, o) && flow == L.FlowOf(o, L.CanSend(old(View())))
    {
      match outcome {
        case Success(userId, token) =>
          flow := OnLoggedIn(userId, token, now);
        case Failure(code) =>
          flow := outbox.SendFlow(LoginResponse(false, code, ""));
        case DbError =>
          flow := outbox.SendFlow(ErrorResponse(L.DB_ERROR_CODE));
      }
    }

    /** The registry first, so that a duplicate login is kicked before the reply is sent. */
    method OnLoggedIn(userId: string, token: string, now: Instant) returns (flow: Flow)
      requires Valid()
      modifies this, outbox, registry, registry.Tokens()
      ensures Valid() && registry.Tokens() == old(registry.Tokens())
      ensures View().core == old(View()).core.(account := Some(userId), lastKeepAlive := now)
      ensures View().registry == L.R.Authenticate(old(View()).registry, sessionId, userId)
      ensures flow == if L.CanSend(old(View())) then Continue else Break
      ensures outbox.queue == if flow == Continue then old(outbox.queue) + [Wrap(LoginResponse(true, L.SUCCESS, token))]
                              else old(outbox.queue)
      ensures outbox.sent == if flow == Continue then old(outbox.sent) + [Wrap(LoginResponse(true, L.SUCCESS, token))]
                             else old(outbox.sent)
      ensures spawned == old(spawned) && outbox.closed == old(outbox.closed)
    {
      registry.Authenticate(sessionId, userId);
      account := Some(userId);
      lastKeepAlive := now;
      flow := outbox.SendFlow(LoginResponse(true, L.SUCCESS, token));
    }

    /** The greeting, and then the select! loop on a given sequence of events. */
    method EventLoop(events: seq<L.Event>)
      requires Valid()
      modifies this, outbox, registry, registry.Tokens()
      ensures Valid()
      ensures View() == L.Serve(old(View()), sessionId, events)
    {
      var greeted := outbox.Send(ConnectedResponse(0));
      if greeted.Err? {
        return;
      }
      Loop(events);
    }

    method Loop(events: seq<L.Event>)
      requires Valid()
      modifies this, outbox, registry, registry.Tokens()
      ensures Valid()
      ensures View() == L.Loop(old(View()), sessionId, events)
    {
      var i := 0;
      while i < |events|
        invariant 0 <= i <= |events|
        invariant Valid() && registry.Tokens() == old(registry.Tokens())
        invariant L.Loop(old(View()), sessionId, events) == L.Loop(View(), sessionId, events[i..])
      {
        assert events[i..][0] == events[i] && events[i..][1..] == events[i + 1..];
        var flow := Handle(events[i]);
        if flow == Break {
          return;
        }
        i := i + 1;
      }
    }

    method Handle(event: L.Event) returns (flow: Flow)
      requires Valid()
      modifies this, outbox, registry, registry.Tokens()
      ensures Valid() && registry.Tokens() == old(registry.Tokens())
      ensures (View(), flow) == L.Handle(old(View()), sessionId, event)
    {
      match event {
        case WriterTook(n) =>
          outbox.queue := if n <= |outbox.queue| then outbox.queue[n..] else [];
          flow := Continue;
        case WriterGone =>
          outbox.queue, outbox.closed := [], true;
          flow := Continue;
        case Frame(payload, at) =>
          flow := OnRemote(payload, at);
        case OutcomeMessage(outcome, at) =>
          flow := OnLoginOutcome(outcome, at);
        case Timer(at) =>
          flow := if account.Some? && at >= lastKeepAlive + L.KEEP_ALIVE_TIMEOUT then Break else Continue;
        case _ =>
          flow := Break;
      }
    }
  }

  /** The whole session task: it registers, serves its client, and leaves the registry. */
  method RunSession(sessionId: nat, kick: CancellationToken, registry: SessionRegistry, outbox: Outbox, now: Instant,
                    events: seq<L.Event>)
    requires registry.Valid() && outbox.Valid()
    requires forall id | id in registry.sessions && id != sessionId :: registry.sessions[id].kick != kick
    modifies registry, registry.Tokens(), kick, outbox
    ensures var registered := L.R.Register(old(registry.View()), sessionId, old(kick.cancelled));
            var started := L.Live(L.Init(now), old(outbox.queue), old(outbox.closed), old(outbox.sent), [], registered);
            var live := L.Serve(started, sessionId, events);
            registry.View() == L.R.Remove(live.registry, sessionId) && outbox.sent == live.sent
  {
    registry.Register(sessionId, kick);
    var session := new Session(sessionId, registry, outbox, now);
    session.EventLoop(events);
    registry.Remove(sessionId);
  }
}

/** How many login attempts a session is granted in any stretch of time. */
module LoginLimit {
  import opened Prelude
  import opened Messages
  import opened LoginSession

  datatype Event = Request(payload: Option<Payload>, at: Instant) | Result(outcome: LoginOutcome, at: Instant)

  function Handle(core: Core, e: Event): Outcome {
    match e
    case Request(payload, at) => OnRemote(core, payload, at)
    case Result(outcome, at) => OnLoginOutcome(core, outcome, at)
  }

  /** The event is a login request whose attempt is granted. */
  predicate Granted(core: Core, e: Event) {
    e.Request? && e.payload.Some? && e.payload.value.LoginRequest? && core.account.None? &&
    TryConsume(core.limiter, e.at).1
  }

  /** The session, and how many attempts it was granted and authenticate tasks it spawned in an interval. */
  datatype Tally = Tally(core: Core, grants: nat, spawns: nat)

  function Count(t: Tally, e: Event, from: Instant, to: Instant): Tally {
    var o := Handle(t.core, e);
    Tally(
      o.core,
      if Granted(t.core, e) && from <= e.at < to then t.grants + 1 else t.grants,
      if o.spawned.Some? && from <= e.at < to then t.spawns + 1 else t.spawns)
  }

  /** A session started at `start`, after some events, counting in the half-open interval [from, to). */
  function After(start: Instant, events: seq<Event>, from: Instant, to: Instant): Tally {
    if events == [] then Tally(Init(start), 0, 0)
    else Count(After(start, Front(events), from, to), Last(events), from, to)
  }

  /** The session itself, whatever is counted. */
  function At(start: Instant, events: seq<Event>): Core {
    if events == [] then Init(start) else Handle(At(start, Front(events)), Last(events)).core
  }

  lemma {:induction false} AfterCore(start: Instant, events: seq<Event>, from: Instant, to: Instant)
    ensures After(start, events, from, to).core == At(start, events)
  {
    if events == [] {
    } else {
      AfterCore(start, Front(events), from, to);
    }
  }

  /** An attempt was counted, and the counter reads 0. */
  predicate Wrapped(l: Limiter) { l.window.Some? && l.attempts == 0 }

  predicate NeverWraps(start: Instant, events: seq<Event>) {
    events == [] || (NeverWraps(start, Front(events)) && !Wrapped(At(start, events).limiter))
  }

  ghost predicate InOrder(events: seq<Event>) {
    forall i, j | 0 <= i < j < |events| :: events[i].at <= events[j].at
  }

  function Min(a: int, b: int): int { if a < b then a else b }

  /**
   What holds after every event up to `last`, for an interval of `k` windows from `from`: by how much
   the windows that have started so far can have contributed.
   */
  ghost predicate Bounded(l: Limiter, grants: nat, last: Instant, from: Instant, k: nat) {
    && (last < from ==> grants == 0)
    && grants <= 5 * k + 4
    && match l.window {
         case None => grants == 0
         case Some(w) =>
           var used := Min(l.attempts, LOGIN_ATTEMPTS_PER_WINDOW);
           && l.attempts >= 1 && w <= last
           && (w < from ==> grants <= used - 1)
           && (from <= w < from + k * LOGIN_ATTEMPT_WINDOW ==>
                 grants <= 5 * ((w - from) / LOGIN_ATTEMPT_WINDOW) + 4 + used)
       }
  }

  lemma AttemptBounded(l: Limiter, now: Instant, grants: nat, last: Instant, from: Instant, k: nat)
    requires Bounded(l, grants, last, from, k) && !Wrapped(TryConsume(l, now).0) && last <= now
    ensures var (l', granted) := TryConsume(l, now);
            Bounded(l', if granted && from <= now < from + k * LOGIN_ATTEMPT_WINDOW then grants + 1 else grants,
                    now, from, k)
  {
    var to := from + k * LOGIN_ATTEMPT_WINDOW;
    if from <= now < to {
      WindowIndex(now - from, k);
      if l.window.Some? && from <= l.window.value {
        WindowIndex(l.window.value - from, k);
        if now - l.window.value >= LOGIN_ATTEMPT_WINDOW {
          NextWindow(l.window.value - from, now - from);
        }
      }
    }
  }

  lemma WindowIndex(d: int, k: nat)
    requires 0 <= d < k * LOGIN_ATTEMPT_WINDOW
    ensures 0 <= d / LOGIN_ATTEMPT_WINDOW <= k - 1
  {
  }

  lemma NextWindow(a: int, b: int)
    requires 0 <= a && b - a >= LOGIN_ATTEMPT_WINDOW
    ensures b / LOGIN_ATTEMPT_WINDOW >= a / LOGIN_ATTEMPT_WINDOW + 1
  {
  }

  /** An event either makes an attempt or leaves the limiter alone. */
  lemma EventEffect(core: Core, e: Event)
    ensures var o := Handle(core, e);
            && (o.spawned.Some? ==> Granted(core, e))
            && (Granted(core, e) ==> o.core.limiter == TryConsume(core.limiter, e.at).0)
            && (o.core.limiter == core.limiter || o.core.limiter == TryConsume(core.limiter, e.at).0)
            && (!Granted(core, e) && o.core.limiter != core.limiter ==> !TryConsume(core.limiter, e.at).1)
  {
  }

  lemma CountBounded(t: Tally, e: Event, last: Instant, from: Instant, k: nat)
    requires Bounded(t.core.limiter, t.grants, last, from, k) && !Wrapped(Handle(t.core, e).core.limiter)
    requires last <= e.at && t.spawns <= t.grants
    ensures var t' := Count(t, e, from, from + k * LOGIN_ATTEMPT_WINDOW);
            Bounded(t'.core.limiter, t'.grants, e.at, from, k) && t'.spawns <= t'.grants
  {
    EventEffect(t.core, e);
    if Handle(t.core, e).core.limiter == TryConsume(t.core.limiter, e.at).0 {
      AttemptBounded(t.core.limiter, e.at, t.grants, last, from, k);
    }
  }

  lemma {:induction false} EventsBounded(start: Instant, events: seq<Event>, from: Instant, k: nat)
    requires InOrder(events) && NeverWraps(start, events)
    ensures var t := After(start, events, from, from + k * LOGIN_ATTEMPT_WINDOW);
            && Bounded(t.core.limiter, t.grants, LastTime(events, from - 1), from, k)
            && t.spawns <= t.grants
  {
    if events == [] {
    } else {
      var before, to := Front(events), from + k * LOGIN_ATTEMPT_WINDOW;
      EventsBounded(start, before, from, k);
      AfterCore(start, before, from, to);
      var t, earlier := After(start, before, from, to), Min(LastTime(before, from - 1), Last(events).at);
      assert Bounded(t.core.limiter, t.grants, earlier, from, k) by {
        if before == [] {
        } else {
          assert Last(before) == events[|events| - 2];
        }
      }
      CountBounded(t, Last(events), earlier, from, k);
    }
  }

  function LastTime(events: seq<Event>, default: Instant): Instant {
    if events == [] then default else Last(events).at
  }

  /**
   Any half-open interval of k windows contains at most 5k + 4 granted attempts, hence at most that
   many authenticate tasks, in every session whose counter never wraps.
   */
  lemma AttemptBound(start: Instant, events: seq<Event>, from: Instant, k: nat)
    requires InOrder(events) && NeverWraps(start, events)
    ensures var t := After(start, events, from, from + k * LOGIN_ATTEMPT_WINDOW);
            t.spawns <= t.grants <= 5 * k + 4
  {
    EventsBounded(start, events, from, k);
  }

  // ---------------------------------------------------------------- the limit of one window

  /** The grants in the window that is current after the events. */
  function InWindow(start: Instant, events: seq<Event>): nat {
    if events == [] then 0 else
    var before := At(start, Front(events));
    (if At(start, events).limiter.window == before.limiter.window then InWindow(start, Front(events)) else 0) +
    if Granted(before, Last(events)) then 1 else 0
  }

  predicate WindowsWithinLimit(start: Instant, events: seq<Event>) {
    InWindow(start, events) <= LOGIN_ATTEMPTS_PER_WINDOW &&
    (events == [] || WindowsWithinLimit(start, Front(events)))
  }

  /** No window ever grants more than five attempts exactly as long as the u32 counter does not wrap. */
  lemma {:induction false} WindowLimitIff(start: Instant, events: seq<Event>)
    ensures WindowsWithinLimit(start, events) <==> NeverWraps(start, events)
    ensures NeverWraps(start, events) ==>
              InWindow(start, events) == Min(At(start, events).limiter.attempts, LOGIN_ATTEMPTS_PER_WINDOW)
  {
    if events == [] {
    } else {
      WindowLimitIff(start, Front(events));
      EventEffect(At(start, Front(events)), Last(events));
    }
  }

  /** Fewer than 2^32 events cannot wrap the counter. */
  lemma {:induction false} FewEventsNeverWrap(start: Instant, events: seq<Event>)
    requires |events| < U32_LIMIT
    ensures NeverWraps(start, events) && At(start, events).limiter.attempts <= |events|
  {
    if events == [] {
    } else {
      FewEventsNeverWrap(start, Front(events));
      EventEffect(At(start, Front(events)), Last(events));
    }
  }

  /** Whether the counter wraps or not: grants are never fewer than authenticate tasks, and cost events. */
  lemma {:induction false} GrantsCostEvents(start: Instant, events: seq<Event>, from: Instant, to: Instant)
    ensures var t, n := After(start, events, from, to), |events|;
            && t.spawns <= t.grants
            && if NeverWraps(start, events)
               then t.core.limiter.attempts <= n && t.grants <= n && t.grants <= n - (t.core.limiter.attempts - 5)
               else n >= U32_LIMIT && t.grants <= n - U32_LIMIT + 6
  {
    if events == [] {
    } else {
      var t := After(start, Front(events), from, to);
      GrantsCostEvents(start, Front(events), from, to);
      AfterCore(start, Front(events), from, to);
      EventEffect(t.core, Last(events));
    }
  }

  lemma {:induction false} EmptyIntervalCountsNothing(start: Instant, events: seq<Event>, from: Instant)
    ensures After(start, events, from, from).grants == 0
  {
    if events == [] {
    } else {
      EmptyIntervalCountsNothing(start, Front(events), from);
    }
  }

  predicate GrantsWithin(start: Instant, events: seq<Event>, from: Instant, k: nat) {
    After(start, events, from, from + k * 60_000_000_000).grants <= 5 * k + 4
  }

  predicate SpawnsWithin(start: Instant, events: seq<Event>, from: Instant, k: nat) {
    After(start, events, from, from + k * 60_000_000_000).spawns <= 5 * k + 4
  }

  /** A session may wrap its counter and still have too few events left to exceed the bound. */
  lemma ShortSessionsWithin(start: Instant, events: seq<Event>, from: Instant, k: nat)
    requires InOrder(events) && |events| < U32_LIMIT + 4
    ensures GrantsWithin(start, events, from, k) && SpawnsWithin(start, events, from, k)
  {
    GrantsCostEvents(start, events, from, from + k * LOGIN_ATTEMPT_WINDOW);
    if NeverWraps(start, events) {
      AttemptBound(start, events, from, k);
    } else if k == 0 {
      EmptyIntervalCountsNothing(start, events, from);
    }
  }

  /**
   The bound of 5k + 4 on granted attempts, and on authenticate tasks, holds of every session of up to
   n events, every interval and every k, if and only if n < 2^32 + 4: the counter must wrap and then
   grant four more attempts.
   */
  lemma AttemptBoundIff(n: nat)
    ensures (forall start, events, from, k: nat | InOrder(events) && |events| <= n ::
               GrantsWithin(start, events, from, k)) <==> n < U32_LIMIT + 4
    ensures (forall start, events, from, k: nat | InOrder(events) && |events| <= n ::
               SpawnsWithin(start, events, from, k)) <==> n < U32_LIMIT + 4
  {
    if n < U32_LIMIT + 4 {
      forall start, events, from, k: nat | InOrder(events) && |events| <= n
        ensures GrantsWithin(start, events, from, k) && SpawnsWithin(start, events, from, k)
      {
        ShortSessionsWithin(start, events, from, k);
      }
    } else {
      var events := BoundFailsAfterWrap();
      assert 0 + 1 * LOGIN_ATTEMPT_WINDOW == LOGIN_ATTEMPT_WINDOW;
      assert !GrantsWithin(0, events, 0, 1) && !SpawnsWithin(0, events, 0, 1);
    }
  }

  /** The shortest session that exceeds the bound: it wraps the counter and goes on in the same window. */
  lemma BoundFailsAfterWrap() returns (events: seq<Event>)
    ensures InOrder(events) && |events| == U32_LIMIT + 4
    ensures var t := After(0, events, 0, LOGIN_ATTEMPT_WINDOW); t.grants == t.spawns == 10 > 5 * 1 + 4
  {
    events := Wraps(U32_LIMIT + 4);
  }

  // ---------------------------------------------------------------- the bound is reached

  function Attempt(at: Instant): Event {
    Request(Some(LoginRequest("ada", [1])), at)
  }

  lemma AfterAttempt(start: Instant, events: seq<Event>, at: Instant, from: Instant, to: Instant)
    requires After(start, events, from, to).core.account.None?
    ensures var t := After(start, events, from, to); var t' := After(start, events + [Attempt(at)], from, to);
            && t'.core.account.None?
            && t'.core.limiter == TryConsume(t.core.limiter, at).0
            && t'.grants == t.grants + (if TryConsume(t.core.limiter, at).1 && from <= at < to then 1 else 0)
            && t'.spawns == t.spawns + t'.grants - t.grants
    ensures InOrder(events) && (events == [] || Last(events).at <= at) ==> InOrder(events + [Attempt(at)])
  {
    assert Front(events + [Attempt(at)]) == events && Last(events + [Attempt(at)]) == Attempt(at);
  }

  /** `n` attempts at one moment that are all granted. */
  lemma {:induction false} Burst(start: Instant, events: seq<Event>, at: Instant, n: nat, from: Instant, to: Instant)
    returns (more: seq<Event>)
    requires After(start, events, from, to).core.account.None?
    requires InOrder(events) && (events == [] || Last(events).at <= at)
    requires from <= at < to
    requires var l := After(start, events, from, to).core.limiter;
             && l.window.Some? && l.attempts + n <= 5 && at - l.window.value < LOGIN_ATTEMPT_WINDOW
    ensures var t := After(start, events, from, to); var t' := After(start, more, from, to);
            && t'.core.account.None? && t'.grants == t.grants + n
            && t'.core.limiter == Limiter(t.core.limiter.window, t.core.limiter.attempts + n)
    ensures InOrder(more) && |more| == |events| + n && (more == [] || Last(more).at <= at)
    decreases n
  {
    if n == 0 {
      more := events;
    } else {
      AfterAttempt(start, events, at, from, to);
      more := Burst(start, events + [Attempt(at)], at, n - 1, from, to);
    }
  }

  /** For every k some session is granted 5k + 4 attempts within k windows. */
  lemma {:induction false} BoundIsReached(k: nat, to: Instant) returns (events: seq<Event>)
    requires to > k * LOGIN_ATTEMPT_WINDOW && to > 1
    ensures InOrder(events) && |events| == 5 * k + 5 && Last(events).at <= Max(k * LOGIN_ATTEMPT_WINDOW, 1)
    ensures var t := After(0, events, 1, to);
            && t.core.account.None? && t.grants == 5 * k + 4
            && t.core.limiter == Limiter(Some(k * LOGIN_ATTEMPT_WINDOW), 5)
  {
    if k == 0 {
      AfterAttempt(0, [], 0, 1, to);
      assert TryConsume(Limiter(None, 0), 0) == (Limiter(Some(0), 1), true);
      events := Burst(0, [] + [Attempt(0)], 1, 4, 1, to);
    } else {
      var before := BoundIsReached(k - 1, to);
      events := NewWindow(before, k * LOGIN_ATTEMPT_WINDOW, to);
    }
  }

  /** Five more attempts as soon as the next window can start. */
  lemma NewWindow(before: seq<Event>, at: Instant, to: Instant) returns (events: seq<Event>)
    requires InOrder(before) && before != [] && Last(before).at <= at && 1 <= at < to
    requires var t := After(0, before, 1, to);
             t.core.account.None? && t.core.limiter == Limiter(Some(at - LOGIN_ATTEMPT_WINDOW), 5)
    ensures InOrder(events) && |events| == |before| + 5 && Last(events).at <= at
    ensures var t := After(0, before, 1, to); var t' := After(0, events, 1, to);
            t'.core.account.None? && t'.grants == t.grants + 5 && t'.core.limiter == Limiter(Some(at), 5)
  {
    AfterAttempt(0, before, at, 1, to);
    assert TryConsume(Limiter(Some(at - LOGIN_ATTEMPT_WINDOW), 5), at) == (Limiter(Some(at), 1), true);
    events := Burst(0, before + [Attempt(at)], at, 4, 1, to);
  }

  function Max(a: int, b: int): int { if a < b then b else a }

  /** The counter is a u32: past 2^32 attempts in one window it wraps and grants again. */
  lemma {:induction false} Wraps(n: nat) returns (events: seq<Event>)
    requires n <= U32_LIMIT + 5
    ensures |events| == n && InOrder(events) && (events != [] ==> Last(events).at == 0)
    ensures var t := After(0, events, 0, LOGIN_ATTEMPT_WINDOW);
            && t.core.account.None? && t.core.limiter == AfterBurst(n)
            && t.grants == t.spawns == if n < U32_LIMIT then Min(n, 5) else 6 + n - U32_LIMIT
    decreases n
  {
    if n == 0 {
      events := [];
    } else {
      var before := Wraps(n - 1);
      AfterAttempt(0, before, 0, 0, LOGIN_ATTEMPT_WINDOW);
      events := before + [Attempt(0)];
    }
  }

  /** The limiter after n attempts at time 0. */
  function AfterBurst(n: nat): Limiter
    requires n <= U32_LIMIT + 5
  {
    if n == 0 then Limiter(None, 0) else Limiter(Some(0), if n < U32_LIMIT then n else n - U32_LIMIT)
  }
}
