/**
 LoginServer, GameServer, their tasks and Redis as one transition system, in every interleaving.
 Sessions run the handlers of `LoginSession` and `GameSession`; backend calls may fail at any point.
 */
module Protocol {
  import opened Prelude
  import opened Messages
  import opened TokenValue
  import opened SessionServer
  import L = LoginSession
  import G = GameSession

  type Key = string

  datatype Verdict = Matches | Differs | Malformed

  datatype Row = Row(accountId: u64, userId: string, passwordHash: string, salt: string, status: u8)

  /** The token prefixes of both servers, and password verification as an oracle. */
  datatype Env = Env(loginPrefix: string, gamePrefix: string, verify: (Bytes, string, string) -> Verdict)

  /** History: what happened, oldest first. */
  datatype Event =
    | Requested(task: nat, session: nat, credentials: L.Credentials)
    | Fetched(task: nat, row: Row)
    | Verified(task: nat, row: Row, clientHash: Bytes)
    | Touched(task: nat, accountId: u64)
    | Stored(task: nat, key: Key, value: string)
    | Authenticated(session: nat, token: Option<Key>, account: Account)

  /** Where an authenticate task is; each await is a step of its own. */
  datatype Stage =
    | Finding(credentials: L.Credentials)
    | Checking(row: Row, clientHash: Bytes)
    | Touching(row: Row)
    | Issuing(row: Row)
    | Reporting(outcome: L.LoginOutcome)

  /** `marks` is history: where in the log this task's events are. */
  datatype LoginTask = LoginTask(session: nat, stage: Stage, marks: seq<nat>)

  /** A message for a game session; `token` is history: the key its value was taken from. */
  datatype Tagged = Tagged(message: G.Inner, token: Option<Key>)

  datatype GameTask = Working(session: nat, work: G.Task) | Sending(session: nat, result: Tagged)

  /** What became of a stored token.  `position` counts all messages the session's channel ever got. */
  datatype Fate =
    | InRedis
    | Expired
    | InTask(task: nat)
    | InChannel(session: nat, position: nat)
    | Used(session: nat)
    | Dropped // its session was gone
    | Lost    // taken, but the reply never arrived

  /** History of a token: its value, the row and task it came from, and its fate. */
  datatype Token = Token(value: string, row: Row, task: nat, marks: seq<nat>, fate: Fate)

  datatype World = World(
    login: Server<L.Core, L.LoginOutcome>,
    loginTasks: map<nat, LoginTask>,
    game: Server<G.Core, Tagged>,
    gameTasks: map<nat, GameTask>,
    redis: map<Key, string>,
    nextTask: nat,
    log: seq<Event>,
    tokens: map<Key, Token>)

  function Start(): World {
    World(SessionServer.Init(), map[], SessionServer.Init(), map[], map[], 0, [], map[])
  }

  datatype FindReply = Found(row: Row) | NotFound | FindFailed

  datatype Step =
    | LoginLife(life: Lifecycle<L.Core>)
    | LoginRemote(id: nat, payload: Option<Payload>, now: Instant, canSend: bool)
    | LoginInner(id: nat, now: Instant, canSend: bool)
    | Find(task: nat, reply: FindReply)
    | Check(task: nat, crashed: bool)
    | Touch(task: nat, ok: bool)
    | Issue(task: nat, uuid: string, stored: bool, acked: bool)
    | LoginReport(task: nat)
    | Expire(key: Key)
    | GameLife(gameLife: Lifecycle<G.Core>)
    | GameRemote(id: nat, payload: Option<Payload>, now: Instant, canSend: bool)
    | GameInner(id: nat, now: Instant, canSend: bool)
    | Take(task: nat, reached: bool, acked: bool)
    | Save(task: nat, ok: bool)
    | GameReport(task: nat)

  predicate IsArmed<C, M>(s: Server<C, M>, id: nat) {
    id in s.sessions && s.sessions[id].phase == Armed
  }

  ghost predicate Can(env: Env, w: World, step: Step) {
    match step
    case LoginLife(e) => SessionServer.Can(w.login, e) && (e.Connect? ==> e.core == L.Init(e.core.lastKeepAlive))
    case LoginRemote(id, _, _, _) => IsArmed(w.login, id)
    case LoginInner(id, _, _) => IsArmed(w.login, id) && w.login.sessions[id].inner != []
    case Find(t, _) => t in w.loginTasks && w.loginTasks[t].stage.Finding?
    case Check(t, _) => t in w.loginTasks && w.loginTasks[t].stage.Checking?
    case Touch(t, _) => t in w.loginTasks && w.loginTasks[t].stage.Touching?
    case Issue(t, uuid, _, _) => // a v4 UUID is assumed never to repeat
      t in w.loginTasks && w.loginTasks[t].stage.Issuing? && env.loginPrefix + uuid !in w.tokens
    case LoginReport(t) => t in w.loginTasks && w.loginTasks[t].stage.Reporting?
    case Expire(key) => key in w.redis && key in w.tokens
    case GameLife(e) => SessionServer.Can(w.game, e) && (e.Connect? ==> e.core == G.Init(e.core.lastKeepAlive))
    case GameRemote(id, _, _, _) => IsArmed(w.game, id)
    case GameInner(id, _, _) => IsArmed(w.game, id) && w.game.sessions[id].inner != []
    case Take(t, _, _) => t in w.gameTasks && w.gameTasks[t].Working? && w.gameTasks[t].work.TakeToken?
    case Save(t, _) => t in w.gameTasks && w.gameTasks[t].Working? && w.gameTasks[t].work.SaveScore?
    case GameReport(t) => t in w.gameTasks && w.gameTasks[t].Sending?
  }

  // ---------------------------------------------------------------- LoginServer steps

  function DoLoginRemote(w: World, id: nat, payload: Option<Payload>, now: Instant, canSend: bool): World
    requires IsArmed(w.login, id)
  {
    var o := L.OnRemote(w.login.sessions[id].core, payload, now);
    var login := Handle(w.login, id, o.core, L.FlowOf(o, canSend), o.authenticated, false);
    if o.spawned.None? then w.(login := login)
    else w.(login := login,
            loginTasks := w.loginTasks[w.nextTask := LoginTask(id, Finding(o.spawned.value), [|w.log|])],
            nextTask := w.nextTask + 1,
            log := w.log + [Requested(w.nextTask, id, o.spawned.value)])
  }

  function DoLoginInner(w: World, id: nat, now: Instant, canSend: bool): World
    requires IsArmed(w.login, id) && w.login.sessions[id].inner != []
  {
    var session := w.login.sessions[id];
    var o := L.OnLoginOutcome(session.core, session.inner[0], now);
    w.(login := Handle(w.login, id, o.core, L.FlowOf(o, canSend), o.authenticated, true))
  }

  /** An authenticate task moves on, having logged an event. */
  function Advance(w: World, task: nat, stage: Stage, e: Event): World
    requires task in w.loginTasks
  {
    var t := w.loginTasks[task];
    w.(loginTasks := w.loginTasks[task := LoginTask(t.session, stage, t.marks + [|w.log|])], log := w.log + [e])
  }

  /** An authenticate task concludes before its last step. */
  function Conclude(w: World, task: nat, outcome: L.LoginOutcome): World
    requires task in w.loginTasks
  {
    w.(loginTasks := w.loginTasks[task := w.loginTasks[task].(stage := Reporting(outcome))])
  }

  function DoFind(w: World, task: nat, reply: FindReply): World
    requires task in w.loginTasks && w.loginTasks[task].stage.Finding?
  {
    match reply
    case Found(row) =>
      Advance(w, task, Checking(row, w.loginTasks[task].stage.credentials.passwordHash), Fetched(task, row))
    case NotFound => Conclude(w, task, L.Failure(L.INVALID_CREDENTIALS))
    case FindFailed => Conclude(w, task, L.DbError)
  }

  function DoCheck(env: Env, w: World, task: nat, crashed: bool): World
    requires task in w.loginTasks && w.loginTasks[task].stage.Checking?
  {
    var Checking(row, hash) := w.loginTasks[task].stage;
    if crashed then Conclude(w, task, L.DbError) else
    match env.verify(hash, row.passwordHash, row.salt)
    case Matches =>
      if row.status == 1 then Conclude(w, task, L.Failure(L.BANNED))
      else Advance(w, task, Touching(row), Verified(task, row, hash))
    case Differs => Conclude(w, task, L.Failure(L.INVALID_CREDENTIALS))
    case Malformed => Conclude(w, task, L.DbError)
  }

  function DoTouch(w: World, task: nat, ok: bool): World
    requires task in w.loginTasks && w.loginTasks[task].stage.Touching?
  {
    var row := w.loginTasks[task].stage.row;
    if ok then Advance(w, task, Issuing(row), Touched(task, row.accountId)) else Conclude(w, task, L.DbError)
  }

  /** SETEX: it may take effect without its reply arriving. */
  function DoIssue(env: Env, w: World, task: nat, uuid: string, stored: bool, acked: bool): World
    requires task in w.loginTasks && w.loginTasks[task].stage.Issuing?
  {
    var row := w.loginTasks[task].stage.row;
    var key, value := env.loginPrefix + uuid, Format(Account(row.accountId, row.userId));
    var outcome := if stored && acked then L.Success(row.userId, uuid) else L.Failure(L.SERVER_ERROR);
    if !stored then Conclude(w, task, outcome) else
    var w' := Advance(w, task, Reporting(outcome), Stored(task, key, value));
    w'.(redis := w.redis[key := value],
        tokens := w.tokens[key := Token(value, row, task, w'.loginTasks[task].marks, InRedis)])
  }

  function DoLoginReport(w: World, task: nat): World
    requires task in w.loginTasks && w.loginTasks[task].stage.Reporting?
  {
    var t := w.loginTasks[task];
    w.(login := Deliver(w.login, t.session, t.stage.outcome), loginTasks := w.loginTasks - {task})
  }

  // ---------------------------------------------------------------- Redis and GameServer steps

  function Fated(tokens: map<Key, Token>, key: Key, fate: Fate): map<Key, Token> {
    if key in tokens then tokens[key := tokens[key].(fate := fate)] else tokens
  }

  function Moved(tokens: map<Key, Token>, token: Option<Key>, fate: Fate): map<Key, Token> {
    if token.Some? then Fated(tokens, token.value, fate) else tokens
  }

  function DoExpire(w: World, key: Key): World {
    w.(redis := w.redis - {key}, tokens := Fated(w.tokens, key, Expired))
  }

  /** The channel of a session that leaves is dropped with whatever it holds. */
  function DropChannel(tokens: map<Key, Token>, id: nat): map<Key, Token> {
    map k | k in tokens ::
      if tokens[k].fate.InChannel? && tokens[k].fate.session == id then tokens[k].(fate := Dropped) else tokens[k]
  }

  function DoGameLife(w: World, e: Lifecycle<G.Core>): World
    requires SessionServer.Can(w.game, e)
  {
    w.(game := SessionServer.Do(w.game, e),
       tokens := if e.Leave? then DropChannel(w.tokens, e.id) else w.tokens)
  }

  function DoGameRemote(w: World, id: nat, payload: Option<Payload>, now: Instant, canSend: bool): World
    requires IsArmed(w.game, id)
  {
    var o := G.OnRemote(w.game.sessions[id].core, payload, now);
    var game := Handle(w.game, id, o.core, G.FlowOf(o, canSend), o.authenticated, false);
    if o.spawned.None? then w.(game := game)
    else w.(game := game,
            gameTasks := w.gameTasks[w.nextTask := Working(id, o.spawned.value)],
            nextTask := w.nextTask + 1)
  }

  function DoGameInner(w: World, id: nat, now: Instant, canSend: bool): World
    requires IsArmed(w.game, id) && w.game.sessions[id].inner != []
  {
    var session := w.game.sessions[id];
    var Tagged(message, token) := session.inner[0];
    var o := G.OnInner(session.core, message, now);
    w.(game := Handle(w.game, id, o.core, G.FlowOf(o, canSend), o.authenticated, true),
       log := if o.authenticated.Some? && o.core.account.Some?
              then w.log + [Authenticated(id, token, o.core.account.value)] else w.log,
       tokens := Moved(w.tokens, token, Used(id)))
  }

  /** GET and DEL in one atomic script; the script may run without its reply arriving. */
  function DoTake(env: Env, w: World, task: nat, reached: bool, acked: bool): World
    requires task in w.gameTasks && w.gameTasks[task].Working? && w.gameTasks[task].work.TakeToken?
  {
    var session := w.gameTasks[task].session;
    var key := env.gamePrefix + w.gameTasks[task].work.token;
    var failed := Sending(session, Tagged(G.DbError, None));
    if !reached then w.(gameTasks := w.gameTasks[task := failed]) else
    match Get(w.redis, key)
    case None =>
      w.(gameTasks := w.gameTasks[task := if acked then Sending(session, Tagged(G.TokenTaken(None), None)) else failed])
    case Some(value) =>
      w.(redis := w.redis - {key},
         gameTasks := w.gameTasks[task := if acked then Sending(session, Tagged(G.TokenTaken(Some(value)), Some(key)))
                                          else failed],
         tokens := Fated(w.tokens, key, if acked then InTask(task) else Lost))
  }

  function DoSave(w: World, task: nat, ok: bool): World
    requires task in w.gameTasks && w.gameTasks[task].Working?
  {
    w.(gameTasks := w.gameTasks[task := Sending(w.gameTasks[task].session,
                                                Tagged(if ok then G.ScoreSaved else G.DbError, None))])
  }

  /** Where the token of a result goes: to the end of the session's channel, or nowhere. */
  function Destination(game: Server<G.Core, Tagged>, id: nat): Fate {
    if id in game.sessions then InChannel(id, game.sessions[id].received + |game.sessions[id].inner|) else Dropped
  }

  function DoGameReport(w: World, task: nat): World
    requires task in w.gameTasks && w.gameTasks[task].Sending?
  {
    var Sending(id, result) := w.gameTasks[task];
    w.(game := Deliver(w.game, id, result),
       gameTasks := w.gameTasks - {task},
       tokens := Moved(w.tokens, result.token, Destination(w.game, id)))
  }

  function Do(env: Env, w: World, step: Step): World
    requires Can(env, w, step)
  {
    match step
    case LoginLife(e) => w.(login := SessionServer.Do(w.login, e))
    case LoginRemote(id, payload, now, canSend) => DoLoginRemote(w, id, payload, now, canSend)
    case LoginInner(id, now, canSend) => DoLoginInner(w, id, now, canSend)
    case Find(t, reply) => DoFind(w, t, reply)
    case Check(t, crashed) => DoCheck(env, w, t, crashed)
    case Touch(t, ok) => DoTouch(w, t, ok)
    case Issue(t, uuid, stored, acked) => DoIssue(env, w, t, uuid, stored, acked)
    case LoginReport(t) => DoLoginReport(w, t)
    case Expire(key) => DoExpire(w, key)
    case GameLife(e) => DoGameLife(w, e)
    case GameRemote(id, payload, now, canSend) => DoGameRemote(w, id, payload, now, canSend)
    case GameInner(id, now, canSend) => DoGameInner(w, id, now, canSend)
    case Take(t, reached, acked) => DoTake(env, w, t, reached, acked)
    case Save(t, ok) => DoSave(w, t, ok)
    case GameReport(t) => DoGameReport(w, t)
  }

  ghost predicate Linked(env: Env, states: seq<World>, steps: seq<Step>, i: nat)
    requires i < |steps| < |states|
  {
    Can(env, states[i], steps[i]) && states[i + 1] == Do(env, states[i], steps[i])
  }

  ghost predicate IsTrace(env: Env, states: seq<World>, steps: seq<Step>) {
    && |states| == |steps| + 1 && states[0] == Start()
    && forall i: nat {:trigger Linked(env, states, steps, i)} | i < |steps| :: Linked(env, states, steps, i)
  }

  /** The steps lead from the empty world to `w`. */
  ghost predicate Reaches(env: Env, steps: seq<Step>, w: World) {
    exists states :: IsTrace(env, states, steps) && Last(states) == w
  }
}
