/**
 The dummy client: it logs in, hands its token to GameServer, and then keeps alive and moves.  `add` is
 the addition of coordinates, which is not interpreted.
 */
module Client {
  import opened Prelude
  import opened Messages
  import EventLoops

  datatype Phase = LoginServer | GameServer

  datatype Finished = Disconnected(phase: Phase) | GameConnectFailed | Shutdown

  /** What wakes a phase; `sendable` says whether a message sent in response can be written. */
  datatype Event =
    | Received(payload: Option<Payload>, sendable: bool)
    | Broken
    | ShutDown
    | Tick(sendable: bool)
    | Moved(dx: Coordinate, dy: Coordinate, sendable: bool)

  // ---------------------------------------------------------------- logging in

  /** What has been sent, and how the phase ended, if it has. */
  datatype Login = Login(sent: seq<Payload>, result: Option<Result<string, Finished>>)

  function OnLogin(userId: string, hash: Bytes, s: Login, e: Event): (Login, Flow) {
    match e
    case ShutDown => (s.(result := Some(Err(Shutdown))), Break)
    case Broken => (s.(result := Some(Err(Disconnected(LoginServer)))), Break)
    case Received(Some(ConnectedResponse(_)), sendable) =>
      if sendable then (s.(sent := s.sent + [LoginRequest(userId, hash)]), Continue)
      else (s.(result := Some(Err(Disconnected(LoginServer)))), Break)
    case Received(Some(LoginResponse(loggedIn, _, token)), _) =>
      if loggedIn then (s.(result := Some(Ok(token))), Break) else (s, Continue)
    case _ => (s, Continue)
  }

  function LoginHandler(userId: string, hash: Bytes): (Login, Event) -> (Login, Flow) {
    (s, e) => OnLogin(userId, hash, s, e)
  }

  function LoginPhase(userId: string, hash: Bytes, events: seq<Event>): Login {
    EventLoops.Run(LoginHandler(userId, hash), Login([], None), events)
  }

  /** How many of the events are greetings. */
  function Greetings(events: seq<Event>): nat {
    if events == [] then 0
    else Greetings(Front(events)) + if IsGreeting(Last(events)) then 1 else 0
  }

  predicate IsGreeting(e: Event) {
    e.Received? && e.payload.Some? && e.payload.value.ConnectedResponse?
  }

  predicate IsSuccess(e: Event, token: string) {
    e.Received? && e.payload.Some? && e.payload.value.LoginResponse? && e.payload.value.loggedIn &&
    e.payload.value.authToken == token
  }

  /** The event ends the phase: with a token exactly if it is a successful LoginResponse with that token. */
  lemma LoginEndsWith(userId: string, hash: Bytes, s: Login, e: Event)
    requires s.result.None?
    ensures var (s', flow) := OnLogin(userId, hash, s, e);
            && (flow == Break <==> s'.result.Some?)
            && (forall token :: s'.result == Some(Ok(token)) <==> IsSuccess(e, token))
            && (s'.result == Some(Err(Shutdown)) <==> e == ShutDown)
            && (s'.sent == s.sent || s'.sent == s.sent + [LoginRequest(userId, hash)])
            && (s'.sent == s.sent + [LoginRequest(userId, hash)] <==>
                IsGreeting(e) && e.sendable)
            && (IsGreeting(e) && flow == Continue ==> e.sendable)
  {
  }

  lemma GreetingsAppend(events: seq<Event>, e: Event)
    ensures Greetings(events + [e]) == Greetings(events) + Greetings([e])
  {
    assert Front(events + [e]) == events && Front([e]) == [];
  }

  /** While the phase goes on, it has answered every greeting with its own credentials, and nothing else. */
  lemma {:induction false} OneRequestPerGreeting(userId: string, hash: Bytes, events: seq<Event>)
    requires !EventLoops.Broke(LoginHandler(userId, hash), Login([], None), events)
    ensures var s := LoginPhase(userId, hash, events);
            && s.result.None? && |s.sent| == Greetings(events)
            && forall i | 0 <= i < |s.sent| :: s.sent[i] == LoginRequest(userId, hash)
  {
    if events == [] {
    } else {
      var before, e := Front(events), Last(events);
      var h := LoginHandler(userId, hash);
      assert before + [e] == events;
      forall i: nat | i < |before| ensures h(EventLoops.Run(h, Login([], None), before[..i]), before[i]).1 != Break {
        assert before[..i] == events[..i] && before[i] == events[i];
      }
      OneRequestPerGreeting(userId, hash, before);
      EventLoops.AllHandledUntilBreak(h, Login([], None), before, e);
      assert events[..|before|] == before;
      assert h(EventLoops.Run(h, Login([], None), events[..|before|]), events[|before|]).1 != Break;
      LoginEndsWith(userId, hash, LoginPhase(userId, hash, before), e);
      GreetingsAppend(before, e);
    }
  }

  method RunLoginPhase(userId: string, hash: Bytes, events: seq<Event>)
    returns (sent: seq<Payload>, result: Option<Result<string, Finished>>)
    ensures Login(sent, result) == LoginPhase(userId, hash, events)
  {
    sent, result := [], None;
    var h := LoginHandler(userId, hash);
    for i := 0 to |events|
      invariant EventLoops.Run(h, Login(sent, result), events[i..]) == LoginPhase(userId, hash, events)
    {
      assert events[i..][0] == events[i] && events[i..][1..] == events[i + 1..];
      match events[i] {
        case ShutDown =>
          return sent, Some(Err(Shutdown));
        case Broken =>
          return sent, Some(Err(Disconnected(LoginServer)));
        case Received(payload, sendable) =>
          if payload.Some? && payload.value.ConnectedResponse? {
            if !sendable {
              return sent, Some(Err(Disconnected(LoginServer)));
            }
            sent := sent + [LoginRequest(userId, hash)];
          } else if payload.Some? && payload.value.LoginResponse? && payload.value.loggedIn {
            return sent, Some(Ok(payload.value.authToken));
          }
        case _ =>
      }
    }
  }

  // ---------------------------------------------------------------- in the game

  /** `joined`: the keep-alive interval is running.  `moves` is history: the deltas taken while it was. */
  datatype Game = Game(
    joined: bool,
    x: Coordinate,
    y: Coordinate,
    sent: seq<Payload>,
    finished: Option<Finished>,
    moves: seq<(Coordinate, Coordinate)>)

  const ARRIVED: Game := Game(false, 0, 0, [], None, [])

  function Send(s: Game, p: Payload, sendable: bool): (Game, Flow) {
    if sendable then (s.(sent := s.sent + [p]), Continue)
    else (s.(finished := Some(Disconnected(GameServer))), Break)
  }

  type Adder = (Coordinate, Coordinate) -> Coordinate

  function OnGame(token: string, add: Adder, s: Game, e: Event): (Game, Flow) {
    match e
    case ShutDown => (s.(finished := Some(Shutdown)), Break)
    case Broken => (s.(finished := Some(Disconnected(GameServer))), Break)
    case Received(Some(ConnectedResponse(_)), sendable) => Send(s, GameConnectRequest(token), sendable)
    case Received(Some(GameConnectResponse(joined, _)), _) => (s.(joined := s.joined || joined), Continue)
    case Received(_, _) => (s, Continue)
    case Tick(sendable) => if s.joined then Send(s, KeepAliveRequest, sendable) else (s, Continue)
    case Moved(dx, dy, sendable) =>
      if !s.joined then (s, Continue) else
      var s' := s.(x := add(s.x, dx), y := add(s.y, dy), moves := s.moves + [(dx, dy)]);
      Send(s', MoveRequest(s'.x, s'.y), sendable)
  }

  function GameHandler(token: string, add: Adder): (Game, Event) -> (Game, Flow) {
    (s, e) => OnGame(token, add, s, e)
  }

  function GamePhase(token: string, add: Adder, events: seq<Event>): Game {
    EventLoops.Run(GameHandler(token, add), ARRIVED, events)
  }

  /** Where the given deltas lead from the origin. */
  function Place(add: Adder, moves: seq<(Coordinate, Coordinate)>): (Coordinate, Coordinate) {
    if moves == [] then (0, 0)
    else
      var (x, y) := Place(add, Front(moves));
      (add(x, Last(moves).0), add(y, Last(moves).1))
  }

  /** The moves that the deltas call for: after each of them, where it leads. */
  function Path(add: Adder, moves: seq<(Coordinate, Coordinate)>): seq<Payload> {
    if moves == [] then []
    else Path(add, Front(moves)) + [MoveRequest(Place(add, moves).0, Place(add, moves).1)]
  }

  function MovesOf(sent: seq<Payload>): seq<Payload> {
    if sent == [] then [] else MovesOf(Front(sent)) + if Last(sent).MoveRequest? then [Last(sent)] else []
  }

  predicate Quiet(sent: seq<Payload>, token: string) {
    forall i | 0 <= i < |sent| :: sent[i] == GameConnectRequest(token)
  }

  /**
   What a client has sent: only its token until it has joined, and never any other; then keep-alives,
   and for every move the place that the moves so far lead to.
   */
  ghost predicate Disciplined(token: string, add: Adder, s: Game) {
    && (s.x, s.y) == Place(add, s.moves)
    && (!s.joined ==> Quiet(s.sent, token) && s.moves == [])
    && (forall i | 0 <= i < |s.sent| && s.sent[i].GameConnectRequest? :: s.sent[i].gameToken == token)
    && (forall i | 0 <= i < |s.sent| ::
          s.sent[i].GameConnectRequest? || s.sent[i] == KeepAliveRequest || s.sent[i].MoveRequest?)
    && MovesOf(s.sent) <= Path(add, s.moves)
    && (s.finished.None? ==> MovesOf(s.sent) == Path(add, s.moves))
  }

  lemma MovesOfAppend(sent: seq<Payload>, p: Payload)
    ensures MovesOf(sent + [p]) == MovesOf(sent) + if p.MoveRequest? then [p] else []
  {
    assert Front(sent + [p]) == sent;
  }

  lemma MoveKeepsDiscipline(token: string, add: Adder, s: Game, dx: Coordinate, dy: Coordinate, sendable: bool)
    requires Disciplined(token, add, s) && s.finished.None? && s.joined
    ensures Disciplined(token, add, OnGame(token, add, s, Moved(dx, dy, sendable)).0)
  {
    var s' := OnGame(token, add, s, Moved(dx, dy, sendable)).0;
    assert Front(s'.moves) == s.moves;
    MovesOfAppend(s.sent, MoveRequest(s'.x, s'.y));
  }

  /** Anything but a move: the token, or, once joined, a keep-alive. */
  lemma SendKeepsDiscipline(token: string, add: Adder, s: Game, p: Payload, sendable: bool)
    requires Disciplined(token, add, s) && s.finished.None?
    requires p == GameConnectRequest(token) || (s.joined && p == KeepAliveRequest)
    ensures Disciplined(token, add, Send(s, p, sendable).0)
  {
    MovesOfAppend(s.sent, p);
    assert MovesOf(s.sent) + [] == MovesOf(s.sent);
  }

  lemma EventKeepsDiscipline(token: string, add: Adder, s: Game, e: Event)
    requires Disciplined(token, add, s) && s.finished.None?
    ensures Disciplined(token, add, OnGame(token, add, s, e).0)
  {
    if e.Moved? && s.joined {
      MoveKeepsDiscipline(token, add, s, e.dx, e.dy, e.sendable);
    } else if IsGreeting(e) {
      SendKeepsDiscipline(token, add, s, GameConnectRequest(token), e.sendable);
    } else if e.Tick? && s.joined {
      SendKeepsDiscipline(token, add, s, KeepAliveRequest, e.sendable);
    }
  }

  /** Which message an event calls for: the token, a keep-alive, or where the move leads; the last two once joined. */
  lemma GameSends(token: string, add: Adder, s: Game, e: Event)
    ensures var s' := OnGame(token, add, s, e).0;
            var called := if IsGreeting(e) then [GameConnectRequest(token)]
                          else if e.Tick? && s.joined then [KeepAliveRequest]
                          else if e.Moved? && s.joined then [MoveRequest(add(s.x, e.dx), add(s.y, e.dy))]
                          else [];
            s'.sent == if called == [] || !e.sendable then s.sent else s.sent + called
  {
  }

  /** The phase ends with a shutdown, a broken connection, or a message that cannot be sent. */
  lemma GameEndsIff(token: string, add: Adder, s: Game, e: Event)
    requires s.finished.None?
    ensures var (s', flow) := OnGame(token, add, s, e);
            && (flow == Break <==> s'.finished.Some?)
            && (s'.finished == Some(Shutdown) <==> e == ShutDown)
            && (s'.finished == Some(Disconnected(GameServer)) <==>
                || e == Broken
                || (IsGreeting(e) && !e.sendable)
                || (s.joined && (e.Tick? || e.Moved?) && !e.sendable))
  {
  }

  lemma {:induction false} RunKeepsDiscipline(token: string, add: Adder, s: Game, events: seq<Event>)
    requires Disciplined(token, add, s) && s.finished.None?
    ensures Disciplined(token, add, EventLoops.Run(GameHandler(token, add), s, events))
    decreases |events|
  {
    if events == [] {
    } else {
      EventKeepsDiscipline(token, add, s, events[0]);
      GameEndsIff(token, add, s, events[0]);
      var (next, flow) := OnGame(token, add, s, events[0]);
      if flow == Continue {
        RunKeepsDiscipline(token, add, next, events[1..]);
      }
    }
  }

  /** Whatever a client meets in the game, what it sends is disciplined. */
  lemma ClientDiscipline(token: string, add: Adder, events: seq<Event>)
    ensures Disciplined(token, add, GamePhase(token, add, events))
  {
    RunKeepsDiscipline(token, add, ARRIVED, events);
  }

  /** It joins only by a successful GameConnectResponse, and stays joined. */
  lemma JoinsOnlyBySuccess(token: string, add: Adder, s: Game, e: Event)
    ensures OnGame(token, add, s, e).0.joined <==>
            || s.joined
            || (e.Received? && e.payload.Some? && e.payload.value.GameConnectResponse? && e.payload.value.joined)
  {
  }

  method RunGamePhase(token: string, add: Adder, events: seq<Event>)
    returns (sent: seq<Payload>, finished: Option<Finished>)
    ensures sent == GamePhase(token, add, events).sent && finished == GamePhase(token, add, events).finished
  {
    var joined, x: Coordinate, y: Coordinate := false, 0, 0;
    ghost var moves: seq<(Coordinate, Coordinate)> := [];
    sent, finished := [], None;
    var h := GameHandler(token, add);
    for i := 0 to |events|
      invariant finished.None?
      invariant EventLoops.Run(h, Game(joined, x, y, sent, finished, moves), events[i..]) ==
                GamePhase(token, add, events)
    {
      assert events[i..][0] == events[i] && events[i..][1..] == events[i + 1..];
      var message: Option<Payload>, sendable := None, true;
      match events[i] {
        case ShutDown =>
          return sent, Some(Shutdown);
        case Broken =>
          return sent, Some(Disconnected(GameServer));
        case Received(payload, ok) =>
          if payload.Some? && payload.value.ConnectedResponse? {
            message, sendable := Some(GameConnectRequest(token)), ok;
          } else if payload.Some? && payload.value.GameConnectResponse? && payload.value.joined {
            joined := true;
          }
        case Tick(ok) =>
          if joined {
            message, sendable := Some(KeepAliveRequest), ok;
          }
        case Moved(dx, dy, ok) =>
          if joined {
            x, y := add(x, dx), add(y, dy);
            moves := moves + [(dx, dy)];
            message, sendable := Some(MoveRequest(x, y)), ok;
          }
      }
      if message.Some? {
        if !sendable {
          return sent, Some(Disconnected(GameServer));
        }
        sent := sent + [message.value];
      }
    }
  }

  // ---------------------------------------------------------------- the whole client

  /**
   The whole run: a token goes from LoginServer to GameServer unchanged, and the client ends as its
   phases do.  `reachable`: GameServer could be connected to.
   */
  method RunClient(userId: string, hash: Bytes, add: Adder, login: seq<Event>, reachable: bool, game: seq<Event>)
    returns (toLogin: seq<Payload>, toGame: seq<Payload>, finished: Option<Finished>)
    ensures toLogin == LoginPhase(userId, hash, login).sent
    ensures match LoginPhase(userId, hash, login).result {
              case None => toGame == [] && finished == None
              case Some(Err(reason)) => toGame == [] && finished == Some(reason)
              case Some(Ok(token)) =>
                if reachable
                then toGame == GamePhase(token, add, game).sent && finished == GamePhase(token, add, game).finished
                else toGame == [] && finished == Some(GameConnectFailed)
            }
  {
    var result;
    toLogin, result := RunLoginPhase(userId, hash, login);
    toGame, finished := [], None;
    if result.Some? {
      if result.value.Err? {
        finished := Some(result.value.error);
      } else if !reachable {
        finished := Some(GameConnectFailed);
      } else {
        toGame, finished := RunGamePhase(result.value.value, add, game);
      }
    }
  }
}
