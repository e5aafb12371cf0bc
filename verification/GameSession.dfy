/**
 A GameServer session: what each handler does to the session's own state, which reply it tries to
 send, which backend task it spawns and whom it authenticates.
 */
module GameSession {
  import opened Prelude
  import opened Messages
  import opened TokenValue
  import EventLoops
  import R = RegistrySpec

  const DB_ERROR_CODE: int := 3
  const SUCCESS: int := 0
  const INVALID_TOKEN: int := 1
  const KEEP_ALIVE_TIMEOUT: int := 10 * SECOND

  datatype Core = Core(
    account: Option<Account>,
    lastKeepAlive: Instant,
    worldId: u64,
    position: (Coordinate, Coordinate))

  datatype Report = Report(score: int, killCount: int, surviveSeconds: int)

  datatype Task = TakeToken(token: string) | SaveScore(accountId: u64, report: Report)

  datatype Inner = TokenTaken(value: Option<string>) | ScoreSaved | DbError

  /** The effects of one handler, before it is known whether the reply can be sent. */
  datatype Outcome = Outcome(
    core: Core,
    flow: Flow,
    reply: Option<Payload>,
    spawned: Option<Task>,
    authenticated: Option<string>)

  function Init(now: Instant): Core {
    Core(None, now, 0, (0, 0))
  }

  function Nothing(core: Core): Outcome { Outcome(core, Continue, None, None, None) }

  function Reply(core: Core, payload: Payload): Outcome { Outcome(core, Continue, Some(payload), None, None) }

  function Spawn(core: Core, task: Task): Outcome { Outcome(core, Continue, None, Some(task), None) }

  function OnRemote(core: Core, payload: Option<Payload>, now: Instant): Outcome {
    if payload.Some? && payload.value.GameConnectRequest? then
      if core.account.Some? || payload.value.gameToken == "" then Reply(core, GameConnectResponse(false, INVALID_TOKEN))
      else Spawn(core, TakeToken(payload.value.gameToken))
    else if payload == Some(KeepAliveRequest) then Nothing(core.(lastKeepAlive := now))
    else if core.account.None? then Outcome(core, Break, None, None, None)
    else match payload
         case Some(MoveRequest(x, y)) => Reply(core.(position := (x, y)), MoveResponse(true, x, y))
         case Some(EnterWorldRequest(worldId)) => Reply(core.(worldId := worldId), EnterWorldResponse(true))
         case Some(GameOverReport(score, kills, seconds)) =>
           Spawn(core, SaveScore(core.account.value.accountId, Report(score, kills, seconds)))
         case _ => Nothing(core)
  }

  function OnInner(core: Core, message: Inner, now: Instant): Outcome {
    match message
    case TokenTaken(value) =>
      (match if value.Some? then Parse(value.value) else None
       case Some(account) =>
         Outcome(core.(account := Some(account), lastKeepAlive := now), Continue,
                 Some(GameConnectResponse(true, SUCCESS)), None, Some(account.userId))
       case None => Reply(core, GameConnectResponse(false, INVALID_TOKEN)))
    case ScoreSaved => Reply(core, GameOverResponse(true))
    case DbError => Reply(core, ErrorResponse(DB_ERROR_CODE))
  }

  /** Whether the keep-alive timer of the select! has fired; only authenticated sessions have one. */
  predicate TimerDue(core: Core, now: Instant) {
    core.account.Some? && now >= core.lastKeepAlive + KEEP_ALIVE_TIMEOUT
  }

  /** A request that is answered by the handler itself. */
  predicate AnsweredAtOnce(core: Core, p: Payload) {
    || (p.GameConnectRequest? && (core.account.Some? || p.gameToken == ""))
    || (core.account.Some? && (p.MoveRequest? || p.EnterWorldRequest?))
  }

  /** A handler whose reply cannot be sent breaks the loop. */
  function FlowOf(o: Outcome, canSend: bool): Flow {
    if o.reply.Some? && !canSend then Break else o.flow
  }

  // ---------------------------------------------------------------- what a client is told

  /**
   The answer to a task's result: GameConnectResponse(true, 0) to a readable token, the refusal with
   code 1 to any other, GameOverResponse(true) to a saved score, and ErrorResponse(3) to an error.
   */
  lemma ResultAnswers(core: Core, message: Inner, now: Instant)
    ensures var o := OnInner(core, message, now);
            var readable := message.TokenTaken? && message.value.Some? && Parse(message.value.value).Some?;
            && o.flow == Continue && o.spawned.None? && o.reply.Some?
            && (o.reply.value == GameConnectResponse(true, 0) <==> readable)
            && (o.reply.value == GameConnectResponse(false, 1) <==> message.TokenTaken? && !readable)
            && (o.reply.value == GameOverResponse(true) <==> message == ScoreSaved)
            && (o.reply.value == ErrorResponse(3) <==> message == DbError)
            && (readable ==> o.core == core.(account := Parse(message.value.value), lastKeepAlive := now)
                             && o.authenticated == Some(Parse(message.value.value).value.userId))
            && (!readable ==> o.core == core && o.authenticated == None)
  {
  }

  /** A request for a session that has an account already, or with no token, is refused with code 1. */
  lemma RequestAnswers(core: Core, payload: Option<Payload>, now: Instant)
    ensures var o, known := OnRemote(core, payload, now), core.account.Some?;
            var connects := payload.Some? && payload.value.GameConnectRequest?;
            && o.authenticated == None && o.core.account == core.account
            && (o.reply == Some(GameConnectResponse(false, 1)) <==>
                connects && (known || payload.value.gameToken == ""))
            && (connects && !known && payload.value.gameToken != "" <==>
                connects && o.spawned == Some(TakeToken(payload.value.gameToken)))
            && (o.core.lastKeepAlive == if payload == Some(KeepAliveRequest) then now else core.lastKeepAlive)
  {
  }

  // ---------------------------------------------------------------- with its queue and registry

  /** A session together with what it writes to; `sent` is everything it ever queued. */
  datatype Live = Live(
    core: Core,
    queue: seq<MessageWrapper>,
    closed: bool,
    sent: seq<MessageWrapper>,
    spawned: seq<Task>,
    registry: R.Registry)

  predicate CanSend(live: Live) {
    !live.closed && |live.queue| < MAX_SEND_QUEUE_SIZE
  }

  function Settle(live: Live, id: nat, o: Outcome): Live {
    Live(
      o.core,
      if o.reply.Some? && CanSend(live) then live.queue + [Wrap(o.reply.value)] else live.queue,
      live.closed,
      if o.reply.Some? && CanSend(live) then live.sent + [Wrap(o.reply.value)] else live.sent,
      if o.spawned.Some? then live.spawned + [o.spawned.value] else live.spawned,
      if o.authenticated.Some? then R.Authenticate(live.registry, id, o.authenticated.value) else live.registry)
  }

  /** What wakes the loop, in the order it happens; the first two are the writer task's doing. */
  datatype Event =
    | WriterTook(count: nat)
    | WriterGone
    | Kicked
    | Frame(payload: Option<Payload>, at: Instant)
    | ReceiveFailed
    | EndOfStream
    | InnerMessage(message: Inner, at: Instant)
    | Timer(at: Instant)

  function Handle(live: Live, id: nat, e: Event): (Live, Flow) {
    match e
    case WriterTook(n) => (live.(queue := if n <= |live.queue| then live.queue[n..] else []), Continue)
    case WriterGone => (live.(queue := [], closed := true), Continue)
    case Frame(payload, at) =>
      var o := OnRemote(live.core, payload, at);
      (Settle(live, id, o), FlowOf(o, CanSend(live)))
    case InnerMessage(message, at) =>
      var o := OnInner(live.core, message, at);
      (Settle(live, id, o), FlowOf(o, CanSend(live)))
    case Timer(at) => (live, if TimerDue(live.core, at) then Break else Continue)
    case _ => (live, Break)
  }

  /** The whole of `event_loop`: greet the client, and give up at once if that cannot be sent. */
  function Serve(live: Live, id: nat, events: seq<Event>): Live {
    if !CanSend(live) then live
    else
      var greeting := [Wrap(ConnectedResponse(0))];
      Loop(live.(queue := live.queue + greeting, sent := live.sent + greeting), id, events)
  }

  function Handler(id: nat): (Live, Event) -> (Live, Flow) {
    (live, e) => Handle(live, id, e)
  }

  /** Handle events until one breaks the loop. */
  function Loop(live: Live, id: nat, events: seq<Event>): Live {
    EventLoops.Run(Handler(id), live, events)
  }
}

/** The session task's own object. */
module GameSessions {
  import opened Prelude
  import opened Messages
  import opened TokenValue
  import G = GameSession
  import Logout
  import opened Outboxes
  import opened SessionRegistries

  class Session {
    const sessionId: nat
    const registry: SessionRegistry
    const outbox: Outbox
    var account: Option<Account>
    var lastKeepAlive: Instant
    var worldId: u64
    var position: (Coordinate, Coordinate)
    /** The backend tasks handed to the runtime, oldest first. */
    var spawned: seq<G.Task>

    ghost predicate Valid()
      reads this, outbox, registry
    {
      outbox.Valid() && registry.Valid()
    }

    ghost function View(): G.Live
      reads this, outbox, registry, registry.Tokens()
    {
      G.Live(G.Core(account, lastKeepAlive, worldId, position), outbox.queue, outbox.closed, outbox.sent, spawned,
             registry.View())
    }

    constructor (sessionId: nat, registry: SessionRegistry, outbox: Outbox, now: Instant)
      requires registry.Valid() && outbox.Valid()
      ensures Valid() && this.registry == registry && this.outbox == outbox && this.sessionId == sessionId
      ensures View() == G.Live(G.Init(now), outbox.queue, outbox.closed, outbox.sent, [], registry.View())
    {
      this.sessionId, this.registry, this.outbox := sessionId, registry, outbox;
      account, lastKeepAlive, worldId, position, spawned := None, now, 0, (0, 0), [];
    }

    method OnRemote(payload: Option<Payload>, now: Instant) returns (flow: Flow)
      requires Valid()
      modifies this, outbox
      ensures Valid()
      ensures var o := G.OnRemote(old(View()).core, payload, now);
              View() == G.Settle(old(View()), sessionId, o) && flow == G.FlowOf(o, G.CanSend(old(View())))
    {
      var authenticated := account.Some?;
      if payload.Some? && payload.value.GameConnectRequest? {
        flow := OnGameConnectRequest(payload.value.gameToken);
      } else if payload == Some(KeepAliveRequest) {
        lastKeepAlive := now;
        flow := Continue;
      } else if !authenticated {
        flow := Break;
      } else {
        match payload {
          case Some(MoveRequest(x, y)) =>
            position := (x, y);
            flow := outbox.SendFlow(MoveResponse(true, x, y));
          case Some(EnterWorldRequest(id)) =>
            worldId := id;
            flow := outbox.SendFlow(EnterWorldResponse(true));
          case Some(GameOverReport(score, kills, seconds)) =>
            flow := OnGameOverReport(G.Report(score, kills, seconds));
          case _ =>
            flow := Continue;
        }
      }
    }

    method OnGameConnectRequest(token: string) returns (flow: Flow)
      requires Valid()
      modifies this, outbox
      ensures Valid()
      ensures var o := G.OnRemote(old(View()).core, Some(GameConnectRequest(token)), 0);
              View() == G.Settle(old(View()), sessionId, o) && flow == G.FlowOf(o, G.CanSend(old(View())))
    {
      if account.Some? || token == "" {
        flow := outbox.SendFlow(GameConnectResponse(false, G.INVALID_TOKEN));
        return;
      }
      spawned := spawned + [G.TakeToken(token)];
      flow := Continue;
    }

    method OnGameOverReport(report: G.Report) returns (flow: Flow)
      requires Valid()
      modifies this
      ensures Valid() && flow == Continue
      ensures View() == old(View()).(spawned :=
                if old(account).Some? then old(spawned) + [G.SaveScore(old(account).value.accountId, report)]
                else old(spawned))
    {
      if account.Some? {
        spawned := spawned + [G.SaveScore(account.value.accountId, report)];
      }
      flow := Continue;
    }

    method OnInner(message: G.Inner, now: Instant) returns (flow: Flow)
      requires Valid()
      modifies this, outbox, registry, registry.Tokens()
      ensures Valid() && registry.Tokens() == old(registry.Tokens())
      ensures var o := G.OnInner(old(View()).core, message, now);
              View() == G.Settle(old(View()), sessionId, o) && flow == G.FlowOf(o, G.CanSend(old(View())))
    {
      match message {
        case TokenTaken(value) =>
          var parsed := if value.Some? then Parse(value.value) else None;
          if parsed.Some? {
            flow := OnAuthenticated(parsed.value, now);
          } else {
            flow := outbox.SendFlow(GameConnectResponse(false, G.INVALID_TOKEN));
          }
        case ScoreSaved =>
          flow := outbox.SendFlow(GameOverResponse(true));
        case DbError =>
          flow := outbox.SendFlow(ErrorResponse(G.DB_ERROR_CODE));
      }
    }

    /** The registry first, so that a duplicate login is kicked before the reply is sent. */
    method OnAuthenticated(newAccount: Account, now: Instant) returns (flow: Flow)
      requires Valid()
      modifies this, outbox, registry, registry.Tokens()
      ensures Valid() && registry.Tokens() == old(registry.Tokens())
      ensures View().core == old(View()).core.(account := Some(newAccount), lastKeepAlive := now)
      ensures View().registry == G.R.Authenticate(old(View()).registry, sessionId, newAccount.userId)
      ensures flow == if G.CanSend(old(View())) then Continue else Break
      ensures outbox.queue == if flow == Continue then old(outbox.queue) + [Wrap(GameConnectResponse(true, G.SUCCESS))]
                              else old(outbox.queue)
      ensures outbox.sent == if flow == Continue then old(outbox.sent) + [Wrap(GameConnectResponse(true, G.SUCCESS))]
                             else old(outbox.sent)
      ensures spawned == old(spawned) && outbox.closed == old(outbox.closed)
    {
      registry.Authenticate(sessionId, newAccount.userId);
      account := Some(newAccount);
      lastKeepAlive := now;
      flow := outbox.SendFlow(GameConnectResponse(true, G.SUCCESS));
    }

    /** The greeting, and then the select! loop on a given sequence of events. */
    method EventLoop(events: seq<G.Event>)
      requires Valid()
      modifies this, outbox, registry, registry.Tokens()
      ensures Valid()
      ensures View() == G.Serve(old(View()), sessionId, events)
    {
      var greeted := outbox.Send(ConnectedResponse(0));
      if greeted.Err? {
        return;
      }
      Loop(events);
    }

    method Loop(events: seq<G.Event>)
      requires Valid()
      modifies this, outbox, registry, registry.Tokens()
      ensures Valid()
      ensures View() == G.Loop(old(View()), sessionId, events)
    {
      var i := 0;
      while i < |events|
        invariant 0 <= i <= |events|
        invariant Valid() && registry.Tokens() == old(registry.Tokens())
        invariant G.Loop(old(View()), sessionId, events) == G.Loop(View(), sessionId, events[i..])
      {
        assert events[i..][0] == events[i] && events[i..][1..] == events[i + 1..];
        var flow := Handle(events[i]);
        if flow == Break {
          return;
        }
        i := i + 1;
      }
    }

    method Handle(event: G.Event) returns (flow: Flow)
      requires Valid()
      modifies this, outbox, registry, registry.Tokens()
      ensures Valid() && registry.Tokens() == old(registry.Tokens())
      ensures (View(), flow) == G.Handle(old(View()), sessionId, event)
    {
      match event {
        case WriterTook(n) =>
          outbox.queue := if n <= |outbox.queue| then outbox.queue[n..] else [];
          flow := Continue;
        case WriterGone =>
          outbox.queue, outbox.closed := [], true;
          flow := Continue;
        case Frame(payload, at) =>
          flow := OnRemote(payload, at);
        case InnerMessage(message, at) =>
          flow := OnInner(message, at);
        case Timer(at) =>
          flow := if account.Some? && at >= lastKeepAlive + G.KEEP_ALIVE_TIMEOUT then Break else Continue;
        case _ =>
          flow := Break;
      }
    }
  }

  /**
   The whole session task: it registers, serves its client, leaves the registry, and records the logout
   of whoever it was authenticated as.  `failures` and `stop` are as in `Logout.RecordLogout`.
   */
  method RunSession(sessionId: nat, kick: CancellationToken, registry: SessionRegistry, outbox: Outbox, now: Instant,
                    events: seq<G.Event>, failures: nat, stop: Option<nat>)
    returns (loggedOut: Option<u64>, calls: nat)
    requires registry.Valid() && outbox.Valid()
    requires forall id | id in registry.sessions && id != sessionId :: registry.sessions[id].kick != kick
    modifies registry, registry.Tokens(), kick, outbox
    ensures var registered := G.R.Register(old(registry.View()), sessionId, old(kick.cancelled));
            var started := G.Live(G.Init(now), old(outbox.queue), old(outbox.closed), old(outbox.sent), [], registered);
            var live := G.Serve(started, sessionId, events);
            && registry.View() == G.R.Remove(live.registry, sessionId)
            && outbox.sent == live.sent
            && loggedOut == (if live.core.account.Some? then Some(live.core.account.value.accountId) else None)
            && (loggedOut.None? ==> calls == 0)
            && (loggedOut.Some? ==>
                  calls == (if stop.None? || failures <= stop.value then failures else stop.value) + 1)
  {
    registry.Register(sessionId, kick);
    var session := new Session(sessionId, registry, outbox, now);
    session.EventLoop(events);
    registry.Remove(sessionId);
    loggedOut, calls := None, 0;
    if session.account.Some? {
      loggedOut := Some(session.account.value.accountId);
      var waited, recorded;
      calls, waited, recorded := Logout.RecordLogout(failures, stop);
    }
  }
}
