/** What every step of the protocol keeps. */
module ProtocolInvariants {
  import opened Prelude
  import opened Messages
  import opened TokenValue
  import opened SessionServer
  import opened Protocol
  import L = LoginSession
  import G = GameSession

  // ---------------------------------------------------------------- the trail of a login task

  /** The first |marks| of: requested, fetched this row, verified its password, touched it. */
  ghost predicate Trail(env: Env, log: seq<Event>, task: nat, marks: seq<nat>, row: Row) {
    && (forall i, j | 0 <= i < j < |marks| :: marks[i] < marks[j])
    && (forall i | 0 <= i < |marks| :: marks[i] < |log|)
    && |marks| >= 1
    && log[marks[0]].Requested? && log[marks[0]].task == task
    && (|marks| >= 2 ==> log[marks[1]] == Fetched(task, row))
    && (|marks| >= 3 ==>
          var hash := log[marks[0]].credentials.passwordHash;
          && log[marks[2]] == Verified(task, row, hash)
          && env.verify(hash, row.passwordHash, row.salt) == Matches
          && row.status != 1)
    && (|marks| >= 4 ==> log[marks[3]] == Touched(task, row.accountId))
  }

  ghost predicate TaskTrail(env: Env, log: seq<Event>, id: nat, task: LoginTask) {
    match task.stage
    case Finding(credentials) =>
      |task.marks| == 1 && task.marks[0] < |log| && log[task.marks[0]] == Requested(id, task.session, credentials)
    case Checking(row, hash) =>
      |task.marks| == 2 && Trail(env, log, id, task.marks, row) &&
      log[task.marks[0]].credentials.passwordHash == hash
    case Touching(row) => |task.marks| == 3 && Trail(env, log, id, task.marks, row)
    case Issuing(row) => |task.marks| == 4 && Trail(env, log, id, task.marks, row)
    case Reporting(_) => true
  }

  ghost predicate TokenTrail(env: Env, log: seq<Event>, key: Key, token: Token) {
    && |token.marks| == 5 && Trail(env, log, token.task, token.marks, token.row)
    && log[token.marks[4]] == Stored(token.task, key, token.value)
    && token.value == Format(Account(token.row.accountId, token.row.userId))
  }

  ghost predicate TaskTrails(env: Env, log: seq<Event>, tasks: map<nat, LoginTask>) {
    forall t {:trigger TaskTrail(env, log, t, tasks[t])} | t in tasks :: TaskTrail(env, log, t, tasks[t])
  }

  ghost predicate TokenTrails(env: Env, log: seq<Event>, tokens: map<Key, Token>) {
    forall k {:trigger TokenTrail(env, log, k, tokens[k])} | k in tokens :: TokenTrail(env, log, k, tokens[k])
  }

  lemma TrailsGrow(env: Env, log: seq<Event>, e: Event, tasks: map<nat, LoginTask>, tokens: map<Key, Token>)
    requires TaskTrails(env, log, tasks) && TokenTrails(env, log, tokens)
    ensures TaskTrails(env, log + [e], tasks) && TokenTrails(env, log + [e], tokens)
  {
    forall t | t in tasks ensures TaskTrail(env, log + [e], t, tasks[t]) {
      assert TaskTrail(env, log, t, tasks[t]);
    }
    forall k | k in tokens ensures TokenTrail(env, log + [e], k, tokens[k]) {
      assert TokenTrail(env, log, k, tokens[k]);
    }
  }

  // ---------------------------------------------------------------- where tokens are

  /** Redis holds exactly the tokens whose fate is `InRedis`. */
  ghost predicate RedisMatches(redis: map<Key, string>, tokens: map<Key, Token>) {
    && (forall k :: k in redis <==> k in tokens && tokens[k].fate == InRedis)
    && (forall k | k in redis :: redis[k] == tokens[k].value)
  }

  /** A message carries a value exactly when it carries a token, and then it is that token's value. */
  ghost predicate Carries(m: Tagged, tokens: map<Key, Token>) {
    match m.token
    case Some(k) => k in tokens && m.message == G.TokenTaken(Some(tokens[k].value))
    case None => m.message.TokenTaken? ==> m.message.value.None?
  }

  predicate Holds(tasks: map<nat, GameTask>, task: nat, key: Key) {
    task in tasks && tasks[task].Sending? && tasks[task].result.token == Some(key)
  }

  predicate Queued(sessions: map<nat, Session<G.Core, Tagged>>, id: nat, position: nat, key: Key) {
    id in sessions && sessions[id].received <= position < sessions[id].received + |sessions[id].inner| &&
    sessions[id].inner[position - sessions[id].received].token == Some(key)
  }

  ghost predicate TasksMatch(tasks: map<nat, GameTask>, tokens: map<Key, Token>) {
    && (forall t {:trigger Carries(tasks[t].result, tokens)} | t in tasks && tasks[t].Sending? ::
          Carries(tasks[t].result, tokens))
    && (forall t, k {:trigger Holds(tasks, t, k)} ::
          Holds(tasks, t, k) <==> k in tokens && tokens[k].fate == InTask(t))
  }

  ghost predicate ChannelsMatch(sessions: map<nat, Session<G.Core, Tagged>>, tokens: map<Key, Token>) {
    && (forall id, i {:trigger Carries(sessions[id].inner[i], tokens)} |
          id in sessions && 0 <= i < |sessions[id].inner| ::
          Carries(sessions[id].inner[i], tokens))
    && (forall id, n, k {:trigger Queued(sessions, id, n, k)} ::
          Queued(sessions, id, n, k) <==> k in tokens && tokens[k].fate == InChannel(id, n))
  }

  predicate AuthAt(log: seq<Event>, i: nat, session: nat, key: Key) {
    i < |log| && log[i].Authenticated? && log[i].session == session && log[i].token == Some(key)
  }

  /** An authentication used up a token, after that token was stored, and as its account. */
  ghost predicate AuthBacked(log: seq<Event>, i: nat, tokens: map<Key, Token>)
    requires i < |log|
  {
    log[i].Authenticated? ==>
      log[i].token.Some? && log[i].token.value in tokens &&
      var token := tokens[log[i].token.value];
      token.fate == Used(log[i].session) &&
      log[i].account == Account(token.row.accountId, token.row.userId) &&
      |token.marks| == 5 && token.marks[4] < i
  }

  ghost predicate UseLogged(log: seq<Event>, tokens: map<Key, Token>, key: Key)
    requires key in tokens
  {
    tokens[key].fate.Used? ==> exists i :: AuthAt(log, i, tokens[key].fate.session, key)
  }

  /** The authentications in the log and the tokens used up match one to one. */
  ghost predicate AuthsMatch(log: seq<Event>, tokens: map<Key, Token>) {
    && (forall i {:trigger AuthBacked(log, i, tokens)} | 0 <= i < |log| :: AuthBacked(log, i, tokens))
    && (forall i, j | 0 <= i < j < |log| && log[i].Authenticated? && log[j].Authenticated? ::
          log[i].token != log[j].token)
    && (forall k {:trigger UseLogged(log, tokens, k)} | k in tokens :: UseLogged(log, tokens, k))
  }

  /** Everything about tokens: their trails, and that Redis, tasks, channels and log agree on their fates. */
  ghost predicate TokensInv(env: Env, log: seq<Event>, redis: map<Key, string>, tasks: map<nat, GameTask>,
                            sessions: map<nat, Session<G.Core, Tagged>>, tokens: map<Key, Token>) {
    && TokenTrails(env, log, tokens) && RedisMatches(redis, tokens) && TasksMatch(tasks, tokens)
    && ChannelsMatch(sessions, tokens) && AuthsMatch(log, tokens)
  }

  // ---------------------------------------------------------------- sessions

  predicate BecameAt(log: seq<Event>, i: nat, session: nat, account: Account) {
    i < |log| && log[i].Authenticated? && log[i].session == session && log[i].account == account
  }

  /** A game session's account is in the registry and was the subject of an authentication. */
  ghost predicate AccountBacked(log: seq<Event>, game: Server<G.Core, Tagged>, id: nat)
    requires id in game.sessions
  {
    var account := game.sessions[id].core.account;
    && id in game.registry.sessions
    && game.registry.sessions[id] == (if account.Some? then Some(account.value.userId) else None)
    && (account.Some? ==> exists i :: BecameAt(log, i, id, account.value))
  }

  ghost predicate GameAccounts(log: seq<Event>, game: Server<G.Core, Tagged>) {
    forall id {:trigger AccountBacked(log, game, id)} | id in game.sessions :: AccountBacked(log, game, id)
  }

  ghost predicate LoginAccounts(login: Server<L.Core, L.LoginOutcome>) {
    forall id | id in login.sessions ::
      id in login.registry.sessions && login.registry.sessions[id] == login.sessions[id].core.account
  }

  ghost predicate Inv(env: Env, w: World) {
    && SessionServer.Inv(w.login) && SessionServer.Inv(w.game)
    && LoginAccounts(w.login) && GameAccounts(w.log, w.game)
    && (forall t | t in w.loginTasks :: t < w.nextTask) && (forall t | t in w.gameTasks :: t < w.nextTask)
    && TaskTrails(env, w.log, w.loginTasks)
    && TokensInv(env, w.log, w.redis, w.gameTasks, w.game.sessions, w.tokens)
  }

  lemma StartInv(env: Env)
    ensures Inv(env, Start())
  {
    SessionServer.InitInv<L.Core, L.LoginOutcome>();
    SessionServer.InitInv<G.Core, Tagged>();
  }

  /** Logging anything but an authentication keeps what is said about the log. */
  lemma LogGrows(env: Env, w: World, e: Event)
    requires Inv(env, w) && !e.Authenticated?
    ensures var log := w.log + [e];
            && TaskTrails(env, log, w.loginTasks) && TokenTrails(env, log, w.tokens)
            && AuthsMatch(log, w.tokens) && GameAccounts(log, w.game)
  {
    TrailsGrow(env, w.log, e, w.loginTasks, w.tokens);
    AuthsGrow(w.log, e, w.tokens);
    AccountsGrow(w.log, e, w.game);
  }

  lemma AuthsGrow(log: seq<Event>, e: Event, tokens: map<Key, Token>)
    requires AuthsMatch(log, tokens) && !e.Authenticated?
    ensures AuthsMatch(log + [e], tokens)
  {
    forall i | 0 <= i < |log + [e]| ensures AuthBacked(log + [e], i, tokens) {
      assert i < |log| ==> AuthBacked(log, i, tokens);
    }
    forall k | k in tokens ensures UseLogged(log + [e], tokens, k) {
      assert UseLogged(log, tokens, k);
      if tokens[k].fate.Used? {
        var i :| AuthAt(log, i, tokens[k].fate.session, k);
        assert AuthAt(log + [e], i, tokens[k].fate.session, k);
      }
    }
  }

  lemma AccountsGrow(log: seq<Event>, e: Event, game: Server<G.Core, Tagged>)
    requires GameAccounts(log, game)
    ensures GameAccounts(log + [e], game)
  {
    forall id | id in game.sessions ensures AccountBacked(log + [e], game, id) {
      BackedStays(log, log + [e], game, id);
    }
  }

  lemma BackedStays(log: seq<Event>, log': seq<Event>, game: Server<G.Core, Tagged>, id: nat)
    requires GameAccounts(log, game) && id in game.sessions && log <= log'
    ensures AccountBacked(log', game, id)
  {
    assert AccountBacked(log, game, id);
    var account := game.sessions[id].core.account;
    if account.Some? {
      var i :| BecameAt(log, i, id, account.value);
      assert BecameAt(log', i, id, account.value);
    }
  }

  // ---------------------------------------------------------------- LoginServer steps

  lemma LoginLifeInv(env: Env, w: World, e: Lifecycle<L.Core>)
    requires Inv(env, w) && Protocol.Can(env, w, LoginLife(e))
    ensures Inv(env, Protocol.Do(env, w, LoginLife(e)))
  {
    SessionServer.LifecycleInv(w.login, e);
    LoginLifeAccounts(w.login, e);
    WithLoginInv(env, w, SessionServer.Do(w.login, e));
  }

  lemma LoginLifeAccounts(login: Server<L.Core, L.LoginOutcome>, e: Lifecycle<L.Core>)
    requires LoginAccounts(login) && SessionServer.Can(login, e) && (e.Connect? ==> e.core.account.None?)
    ensures LoginAccounts(SessionServer.Do(login, e))
  {
    var login' := SessionServer.Do(login, e);
    forall x | x in login'.sessions
      ensures x in login'.registry.sessions && login'.registry.sessions[x] == login'.sessions[x].core.account
    {
      assert x in login.sessions || e.Connect?;
    }
  }

  /** A handler that sets the account exactly when it authenticates keeps the accounts in step. */
  lemma LoginHandleAccounts(login: Server<L.Core, L.LoginOutcome>, id: nat, core: L.Core, flow: Flow,
                            auth: Option<string>, pops: bool)
    requires LoginAccounts(login) && IsArmed(login, id) && (pops ==> login.sessions[id].inner != [])
    requires core.account == if auth.Some? then auth else login.sessions[id].core.account
    ensures LoginAccounts(Handle(login, id, core, flow, auth, pops))
  {
    var login' := Handle(login, id, core, flow, auth, pops);
    forall x | x in login'.sessions
      ensures x in login'.registry.sessions && login'.registry.sessions[x] == login'.sessions[x].core.account
    {
      assert x in login.sessions;
    }
  }

  lemma WithLoginInv(env: Env, w: World, login: Server<L.Core, L.LoginOutcome>)
    requires Inv(env, w) && SessionServer.Inv(login) && LoginAccounts(login)
    ensures Inv(env, w.(login := login))
  {
  }

  function SpawnLogin(w: World, id: nat, credentials: L.Credentials): World {
    w.(loginTasks := w.loginTasks[w.nextTask := LoginTask(id, Finding(credentials), [|w.log|])],
       nextTask := w.nextTask + 1,
       log := w.log + [Requested(w.nextTask, id, credentials)])
  }

  lemma SpawnLoginInv(env: Env, w: World, id: nat, credentials: L.Credentials)
    requires Inv(env, w)
    ensures Inv(env, SpawnLogin(w, id, credentials))
  {
    var w' := SpawnLogin(w, id, credentials);
    LogGrows(env, w, Requested(w.nextTask, id, credentials));
    assert TaskTrail(env, w'.log, w.nextTask, w'.loginTasks[w.nextTask]);
  }

  lemma LoginRemoteInv(env: Env, w: World, id: nat, payload: Option<Payload>, now: Instant, canSend: bool)
    requires Inv(env, w) && IsArmed(w.login, id)
    ensures Inv(env, DoLoginRemote(w, id, payload, now, canSend))
  {
    var core := w.login.sessions[id].core;
    var o := L.OnRemote(core, payload, now);
    RequestKeepsAccount(core, payload, now);
    SessionServer.HandleInv(w.login, id, o.core, L.FlowOf(o, canSend), None, false);
    LoginHandleAccounts(w.login, id, o.core, L.FlowOf(o, canSend), None, false);
    var login := Handle(w.login, id, o.core, L.FlowOf(o, canSend), None, false);
    WithLoginInv(env, w, login);
    if o.spawned.Some? {
      SpawnLoginInv(env, w.(login := login), id, o.spawned.value);
    }
  }

  lemma RequestKeepsAccount(core: L.Core, payload: Option<Payload>, now: Instant)
    ensures var o := L.OnRemote(core, payload, now); o.authenticated.None? && o.core.account == core.account
  {
  }

  lemma LoginInnerInv(env: Env, w: World, id: nat, now: Instant, canSend: bool)
    requires Inv(env, w) && IsArmed(w.login, id) && w.login.sessions[id].inner != []
    ensures Inv(env, DoLoginInner(w, id, now, canSend))
  {
    var session := w.login.sessions[id];
    var o := L.OnLoginOutcome(session.core, session.inner[0], now);
    assert o.core.account == if o.authenticated.Some? then o.authenticated else session.core.account;
    SessionServer.HandleInv(w.login, id, o.core, L.FlowOf(o, canSend), o.authenticated, true);
    LoginHandleAccounts(w.login, id, o.core, L.FlowOf(o, canSend), o.authenticated, true);
    WithLoginInv(env, w, Handle(w.login, id, o.core, L.FlowOf(o, canSend), o.authenticated, true));
  }

  lemma AdvanceInv(env: Env, w: World, task: nat, stage: Stage, e: Event)
    requires Inv(env, w) && task in w.loginTasks && !e.Authenticated?
    requires var t := w.loginTasks[task];
             TaskTrail(env, w.log + [e], task, LoginTask(t.session, stage, t.marks + [|w.log|]))
    ensures Inv(env, Advance(w, task, stage, e))
  {
    LogGrows(env, w, e);
  }

  lemma ConcludeInv(env: Env, w: World, task: nat, outcome: L.LoginOutcome)
    requires Inv(env, w) && task in w.loginTasks
    ensures Inv(env, Conclude(w, task, outcome))
  {
  }

  lemma FindInv(env: Env, w: World, task: nat, reply: FindReply)
    requires Inv(env, w) && Protocol.Can(env, w, Find(task, reply))
    ensures Inv(env, DoFind(w, task, reply))
  {
    match reply
    case Found(row) =>
      assert TaskTrail(env, w.log, task, w.loginTasks[task]);
      AdvanceInv(env, w, task, Checking(row, w.loginTasks[task].stage.credentials.passwordHash), Fetched(task, row));
    case NotFound => ConcludeInv(env, w, task, L.Failure(L.INVALID_CREDENTIALS));
    case FindFailed => ConcludeInv(env, w, task, L.DbError);
  }

  lemma CheckInv(env: Env, w: World, task: nat, crashed: bool)
    requires Inv(env, w) && Protocol.Can(env, w, Check(task, crashed))
    ensures Inv(env, DoCheck(env, w, task, crashed))
  {
    var Checking(row, hash) := w.loginTasks[task].stage;
    assert TaskTrail(env, w.log, task, w.loginTasks[task]);
    if !crashed && env.verify(hash, row.passwordHash, row.salt) == Matches && row.status != 1 {
      AdvanceInv(env, w, task, Touching(row), Verified(task, row, hash));
    } else {
      ConcludeInv(env, w, task, L.DbError);
      ConcludeInv(env, w, task, L.Failure(L.BANNED));
      ConcludeInv(env, w, task, L.Failure(L.INVALID_CREDENTIALS));
    }
  }

  lemma TouchInv(env: Env, w: World, task: nat, ok: bool)
    requires Inv(env, w) && Protocol.Can(env, w, Touch(task, ok))
    ensures Inv(env, DoTouch(w, task, ok))
  {
    var row := w.loginTasks[task].stage.row;
    assert TaskTrail(env, w.log, task, w.loginTasks[task]);
    if ok {
      AdvanceInv(env, w, task, Issuing(row), Touched(task, row.accountId));
    } else {
      ConcludeInv(env, w, task, L.DbError);
    }
  }

  lemma IssueInv(env: Env, w: World, task: nat, uuid: string, stored: bool, acked: bool)
    requires Inv(env, w) && Protocol.Can(env, w, Issue(task, uuid, stored, acked))
    ensures Inv(env, DoIssue(env, w, task, uuid, stored, acked))
  {
    var row := w.loginTasks[task].stage.row;
    var key, value := env.loginPrefix + uuid, Format(Account(row.accountId, row.userId));
    var outcome := if stored && acked then L.Success(row.userId, uuid) else L.Failure(L.SERVER_ERROR);
    if !stored {
      ConcludeInv(env, w, task, outcome);
    } else {
      assert TaskTrail(env, w.log, task, w.loginTasks[task]);
      var w1 := Advance(w, task, Reporting(outcome), Stored(task, key, value));
      AdvanceInv(env, w, task, Reporting(outcome), Stored(task, key, value));
      var token := Token(value, row, task, w1.loginTasks[task].marks, InRedis);
      StoredTrail(env, w.log, task, w.loginTasks[task].marks, row, key, value);
      NewTokenInv(env, w1, key, token);
    }
  }

  lemma StoredTrail(env: Env, log: seq<Event>, task: nat, marks: seq<nat>, row: Row, key: Key, value: string)
    requires |marks| == 4 && Trail(env, log, task, marks, row)
    requires value == Format(Account(row.accountId, row.userId))
    ensures TokenTrail(env, log + [Stored(task, key, value)], key, Token(value, row, task, marks + [|log|], InRedis))
  {
  }

  lemma NewTokenInv(env: Env, w: World, key: Key, token: Token)
    requires Inv(env, w) && key !in w.tokens && token.fate == InRedis && TokenTrail(env, w.log, key, token)
    ensures Inv(env, w.(redis := w.redis[key := token.value], tokens := w.tokens[key := token]))
  {
    NewToken(w, key, token);
    assert TokenTrails(env, w.log, w.tokens[key := token]);
  }

  lemma NewToken(w: World, key: Key, token: Token)
    requires RedisMatches(w.redis, w.tokens) && TasksMatch(w.gameTasks, w.tokens)
    requires ChannelsMatch(w.game.sessions, w.tokens) && AuthsMatch(w.log, w.tokens)
    requires key !in w.tokens && token.fate == InRedis
    ensures var tokens := w.tokens[key := token];
            && RedisMatches(w.redis[key := token.value], tokens) && TasksMatch(w.gameTasks, tokens)
            && ChannelsMatch(w.game.sessions, tokens) && AuthsMatch(w.log, tokens)
  {
    var tokens := w.tokens[key := token];
    NewTokenCarried(w.gameTasks, w.game.sessions, w.tokens, key, token);
    forall i | 0 <= i < |w.log| ensures AuthBacked(w.log, i, tokens) {
      assert AuthBacked(w.log, i, w.tokens);
    }
    forall k | k in tokens ensures UseLogged(w.log, tokens, k) {
      assert k in w.tokens ==> UseLogged(w.log, w.tokens, k);
    }
  }

  lemma NewTokenCarried(tasks: map<nat, GameTask>, sessions: map<nat, Session<G.Core, Tagged>>,
                        tokens: map<Key, Token>, key: Key, token: Token)
    requires TasksMatch(tasks, tokens) && ChannelsMatch(sessions, tokens)
    requires key !in tokens && token.fate == InRedis
    ensures TasksMatch(tasks, tokens[key := token]) && ChannelsMatch(sessions, tokens[key := token])
  {
    var tokens' := tokens[key := token];
    forall t | t in tasks && tasks[t].Sending? ensures Carries(tasks[t].result, tokens') {
      assert Carries(tasks[t].result, tokens);
    }
    forall t, k ensures Holds(tasks, t, k) <==> k in tokens' && tokens'[k].fate == InTask(t) {
      assert Holds(tasks, t, k) <==> k in tokens && tokens[k].fate == InTask(t);
    }
    forall id, i | id in sessions && 0 <= i < |sessions[id].inner| ensures Carries(sessions[id].inner[i], tokens') {
      assert Carries(sessions[id].inner[i], tokens);
    }
    forall id, n, k ensures Queued(sessions, id, n, k) <==> k in tokens' && tokens'[k].fate == InChannel(id, n) {
      assert Queued(sessions, id, n, k) <==> k in tokens && tokens[k].fate == InChannel(id, n);
    }
  }

  lemma LoginReportInv(env: Env, w: World, task: nat)
    requires Inv(env, w) && Protocol.Can(env, w, LoginReport(task))
    ensures Inv(env, DoLoginReport(w, task))
  {
    var t := w.loginTasks[task];
    var login := Deliver(w.login, t.session, t.stage.outcome);
    SessionServer.DeliverInv(w.login, t.session, t.stage.outcome);
    assert LoginAccounts(login);
    WithLoginInv(env, w, login);
    DropLoginTaskInv(env, w.(login := login), task);
  }

  lemma DropLoginTaskInv(env: Env, w: World, task: nat)
    requires Inv(env, w)
    ensures Inv(env, w.(loginTasks := w.loginTasks - {task}))
  {
  }

  // ---------------------------------------------------------------- Redis and GameServer steps

  /** Changing a token's fate does not change what its carriers carry. */
  lemma FatedCarries(tokens: map<Key, Token>, key: Key, fate: Fate, m: Tagged)
    requires Carries(m, tokens)
    ensures Carries(m, Fated(tokens, key, fate))
  {
  }

  lemma FatedTrails(env: Env, log: seq<Event>, tokens: map<Key, Token>, key: Key, fate: Fate)
    requires TokenTrails(env, log, tokens)
    ensures TokenTrails(env, log, Fated(tokens, key, fate))
  {
    forall k | k in Fated(tokens, key, fate) ensures TokenTrail(env, log, k, Fated(tokens, key, fate)[k]) {
      assert TokenTrail(env, log, k, tokens[k]);
    }
  }

  /** A token that is not used up may change to any fate but `Used` without touching the log. */
  lemma FatedAuths(log: seq<Event>, tokens: map<Key, Token>, key: Key, fate: Fate)
    requires AuthsMatch(log, tokens) && key in tokens && !tokens[key].fate.Used? && !fate.Used?
    ensures AuthsMatch(log, Fated(tokens, key, fate))
  {
    var tokens' := Fated(tokens, key, fate);
    forall i | 0 <= i < |log| ensures AuthBacked(log, i, tokens') {
      assert AuthBacked(log, i, tokens);
    }
    forall k | k in tokens' ensures UseLogged(log, tokens', k) {
      assert UseLogged(log, tokens, k);
    }
  }

  lemma FatedTasks(tasks: map<nat, GameTask>, tokens: map<Key, Token>, key: Key, fate: Fate)
    requires TasksMatch(tasks, tokens) && key in tokens && !tokens[key].fate.InTask? && !fate.InTask?
    ensures TasksMatch(tasks, Fated(tokens, key, fate))
  {
    var tokens' := Fated(tokens, key, fate);
    forall t | t in tasks && tasks[t].Sending? ensures Carries(tasks[t].result, tokens') {
      FatedCarries(tokens, key, fate, tasks[t].result);
    }
    forall t, k ensures Holds(tasks, t, k) <==> k in tokens' && tokens'[k].fate == InTask(t) {
      assert Holds(tasks, t, k) <==> k in tokens && tokens[k].fate == InTask(t);
    }
  }

  lemma FatedChannels(sessions: map<nat, Session<G.Core, Tagged>>, tokens: map<Key, Token>, key: Key, fate: Fate)
    requires ChannelsMatch(sessions, tokens) && key in tokens && !tokens[key].fate.InChannel? && !fate.InChannel?
    ensures ChannelsMatch(sessions, Fated(tokens, key, fate))
  {
    var tokens' := Fated(tokens, key, fate);
    forall id, i | id in sessions && 0 <= i < |sessions[id].inner| ensures Carries(sessions[id].inner[i], tokens') {
      FatedCarries(tokens, key, fate, sessions[id].inner[i]);
    }
    forall id, n, k ensures Queued(sessions, id, n, k) <==> k in tokens' && tokens'[k].fate == InChannel(id, n) {
      assert Queued(sessions, id, n, k) <==> k in tokens && tokens[k].fate == InChannel(id, n);
    }
  }

  lemma ExpireInv(env: Env, w: World, key: Key)
    requires Inv(env, w) && Protocol.Can(env, w, Expire(key))
    ensures Inv(env, DoExpire(w, key))
  {
    LeaveRedis(env, w.log, w.redis, w.tokens, key, Expired);
    FatedTasks(w.gameTasks, w.tokens, key, Expired);
    FatedChannels(w.game.sessions, w.tokens, key, Expired);
    assert DoExpire(w, key) == w.(redis := w.redis - {key}, tokens := Fated(w.tokens, key, Expired));
  }

  /** A token that leaves Redis: what does not depend on where it goes. */
  lemma LeaveRedis(env: Env, log: seq<Event>, redis: map<Key, string>, tokens: map<Key, Token>, key: Key, fate: Fate)
    requires TokenTrails(env, log, tokens) && RedisMatches(redis, tokens) && AuthsMatch(log, tokens)
    requires key in redis && fate != InRedis && !fate.Used?
    ensures key in tokens && tokens[key].fate == InRedis
    ensures TokenTrails(env, log, Fated(tokens, key, fate))
    ensures AuthsMatch(log, Fated(tokens, key, fate))
    ensures RedisMatches(redis - {key}, Fated(tokens, key, fate))
  {
    FatedTrails(env, log, tokens, key, fate);
    FatedAuths(log, tokens, key, fate);
    FatedRedis(redis, tokens, key, fate);
  }

  lemma FatedRedis(redis: map<Key, string>, tokens: map<Key, Token>, key: Key, fate: Fate)
    requires RedisMatches(redis, tokens) && fate != InRedis
    ensures RedisMatches(redis - {key}, Fated(tokens, key, fate))
  {
  }

  lemma FatedRedisSame(redis: map<Key, string>, tokens: map<Key, Token>, key: Key, fate: Fate)
    requires RedisMatches(redis, tokens) && fate != InRedis && key !in redis
    ensures RedisMatches(redis, Fated(tokens, key, fate))
  {
  }

  // ---------------------------------------------------------------- game session lifecycle

  lemma GameLifeAccounts(log: seq<Event>, game: Server<G.Core, Tagged>, e: Lifecycle<G.Core>)
    requires GameAccounts(log, game) && SessionServer.Can(game, e) && (e.Connect? ==> e.core.account.None?)
    ensures GameAccounts(log, SessionServer.Do(game, e))
  {
    var game' := SessionServer.Do(game, e);
    forall x | x in game'.sessions ensures AccountBacked(log, game', x) {
      assert x in game.sessions ==> AccountBacked(log, game, x);
      assert x in game.sessions || e.Connect?;
    }
  }

  /** Sessions whose channels are the same match the same tokens. */
  lemma SameChannels(a: map<nat, Session<G.Core, Tagged>>, b: map<nat, Session<G.Core, Tagged>>,
                     tokens: map<Key, Token>)
    requires ChannelsMatch(a, tokens)
    requires forall id | id in a || id in b ::
               && (id in a && id in b ==> a[id].inner == b[id].inner && a[id].received == b[id].received)
               && (id !in a ==> b[id].inner == []) && (id !in b ==> a[id].inner == [])
    ensures ChannelsMatch(b, tokens)
  {
    forall id, n, k ensures Queued(b, id, n, k) <==> k in tokens && tokens[k].fate == InChannel(id, n) {
      assert Queued(a, id, n, k) <==> k in tokens && tokens[k].fate == InChannel(id, n);
      assert Queued(a, id, n, k) <==> Queued(b, id, n, k);
    }
  }

  lemma GameLifeInv(env: Env, w: World, e: Lifecycle<G.Core>)
    requires Inv(env, w) && Protocol.Can(env, w, GameLife(e))
    ensures Inv(env, DoGameLife(w, e))
  {
    SessionServer.LifecycleInv(w.game, e);
    GameLifeAccounts(w.log, w.game, e);
    var w' := DoGameLife(w, e);
    if e.Leave? {
      DroppedChannel(env, w, e.id, w'.game.sessions);
    } else {
      LifeKeepsChannels(w.game, e, w.tokens);
    }
    WithGameInv(env, w, w'.game, w'.tokens);
  }

  lemma LifeKeepsChannels(game: Server<G.Core, Tagged>, e: Lifecycle<G.Core>, tokens: map<Key, Token>)
    requires SessionServer.Inv(game) && SessionServer.Can(game, e) && !e.Leave? && ChannelsMatch(game.sessions, tokens)
    ensures ChannelsMatch(SessionServer.Do(game, e).sessions, tokens)
  {
    assert game.lastId + 1 !in game.sessions;
    SameChannels(game.sessions, SessionServer.Do(game, e).sessions, tokens);
  }

  lemma WithGameInv(env: Env, w: World, game: Server<G.Core, Tagged>, tokens: map<Key, Token>)
    requires Inv(env, w) && SessionServer.Inv(game) && GameAccounts(w.log, game)
    requires TokenTrails(env, w.log, tokens) && RedisMatches(w.redis, tokens) && TasksMatch(w.gameTasks, tokens)
    requires ChannelsMatch(game.sessions, tokens) && AuthsMatch(w.log, tokens)
    ensures Inv(env, w.(game := game, tokens := tokens))
  {
  }

  lemma DroppedChannel(env: Env, w: World, id: nat, sessions: map<nat, Session<G.Core, Tagged>>)
    requires Inv(env, w) && sessions == w.game.sessions - {id}
    ensures var tokens := DropChannel(w.tokens, id);
            && TokenTrails(env, w.log, tokens) && RedisMatches(w.redis, tokens) && TasksMatch(w.gameTasks, tokens)
            && ChannelsMatch(sessions, tokens) && AuthsMatch(w.log, tokens)
  {
    DroppedTrails(env, w.log, w.redis, w.tokens, id);
    DroppedTasks(w.gameTasks, w.tokens, id);
    DroppedChannels(w.game.sessions, w.tokens, id);
    DroppedAuths(w.log, w.tokens, id);
  }

  lemma DroppedTrails(env: Env, log: seq<Event>, redis: map<Key, string>, tokens: map<Key, Token>, id: nat)
    requires TokenTrails(env, log, tokens) && RedisMatches(redis, tokens)
    ensures TokenTrails(env, log, DropChannel(tokens, id)) && RedisMatches(redis, DropChannel(tokens, id))
  {
    var tokens' := DropChannel(tokens, id);
    forall k | k in tokens' ensures TokenTrail(env, log, k, tokens'[k]) {
      assert TokenTrail(env, log, k, tokens[k]);
    }
  }

  lemma DroppedTasks(tasks: map<nat, GameTask>, tokens: map<Key, Token>, id: nat)
    requires TasksMatch(tasks, tokens)
    ensures TasksMatch(tasks, DropChannel(tokens, id))
  {
    var tokens' := DropChannel(tokens, id);
    forall t | t in tasks && tasks[t].Sending? ensures Carries(tasks[t].result, tokens') {
      assert Carries(tasks[t].result, tokens);
    }
    forall t, k ensures Holds(tasks, t, k) <==> k in tokens' && tokens'[k].fate == InTask(t) {
      assert Holds(tasks, t, k) <==> k in tokens && tokens[k].fate == InTask(t);
    }
  }

  lemma DroppedChannels(sessions: map<nat, Session<G.Core, Tagged>>, tokens: map<Key, Token>, id: nat)
    requires ChannelsMatch(sessions, tokens)
    ensures ChannelsMatch(sessions - {id}, DropChannel(tokens, id))
  {
    var rest, tokens' := sessions - {id}, DropChannel(tokens, id);
    forall x, i | x in rest && 0 <= i < |rest[x].inner| ensures Carries(rest[x].inner[i], tokens') {
      assert Carries(sessions[x].inner[i], tokens);
    }
    forall x, n, k ensures Queued(rest, x, n, k) <==> k in tokens' && tokens'[k].fate == InChannel(x, n) {
      assert Queued(sessions, x, n, k) <==> k in tokens && tokens[k].fate == InChannel(x, n);
    }
  }

  lemma DroppedAuths(log: seq<Event>, tokens: map<Key, Token>, id: nat)
    requires AuthsMatch(log, tokens)
    ensures AuthsMatch(log, DropChannel(tokens, id))
  {
    var tokens' := DropChannel(tokens, id);
    forall i | 0 <= i < |log| ensures AuthBacked(log, i, tokens') {
      assert AuthBacked(log, i, tokens);
    }
    forall k | k in tokens' ensures UseLogged(log, tokens', k) {
      assert UseLogged(log, tokens, k);
    }
  }

  // ---------------------------------------------------------------- game requests

  lemma GameHandleAccounts(log: seq<Event>, log': seq<Event>, game: Server<G.Core, Tagged>, id: nat, core: G.Core,
                           flow: Flow, auth: Option<string>, pops: bool)
    requires GameAccounts(log, game) && IsArmed(game, id) && (pops ==> game.sessions[id].inner != [])
    requires log <= log'
    requires if auth.Some? then core.account.Some? && core.account.value.userId == auth.value &&
                                exists i :: BecameAt(log', i, id, core.account.value)
             else core.account == game.sessions[id].core.account
    ensures GameAccounts(log', Handle(game, id, core, flow, auth, pops))
  {
    var game' := Handle(game, id, core, flow, auth, pops);
    forall x | x in game'.sessions ensures AccountBacked(log', game', x) {
      BackedStays(log, log', game, x);
    }
  }

  lemma GameRequestKeepsAccount(core: G.Core, payload: Option<Payload>, now: Instant)
    ensures var o := G.OnRemote(core, payload, now); o.authenticated.None? && o.core.account == core.account
  {
  }

  lemma GameRequestServer(log: seq<Event>, game: Server<G.Core, Tagged>, tokens: map<Key, Token>,
                          id: nat, payload: Option<Payload>, now: Instant, canSend: bool)
    requires SessionServer.Inv(game) && GameAccounts(log, game) && ChannelsMatch(game.sessions, tokens)
    requires IsArmed(game, id)
    ensures var o := G.OnRemote(game.sessions[id].core, payload, now);
            var game' := Handle(game, id, o.core, G.FlowOf(o, canSend), o.authenticated, false);
            SessionServer.Inv(game') && GameAccounts(log, game') && ChannelsMatch(game'.sessions, tokens)
  {
    var core := game.sessions[id].core;
    var o := G.OnRemote(core, payload, now);
    var flow := G.FlowOf(o, canSend);
    GameRequestKeepsAccount(core, payload, now);
    SessionServer.HandleInv(game, id, o.core, flow, None, false);
    GameHandleAccounts(log, log, game, id, o.core, flow, None, false);
    SameChannels(game.sessions, Handle(game, id, o.core, flow, None, false).sessions, tokens);
  }

  lemma GameRemoteInv(env: Env, w: World, id: nat, payload: Option<Payload>, now: Instant, canSend: bool)
    requires Inv(env, w) && IsArmed(w.game, id)
    ensures Inv(env, DoGameRemote(w, id, payload, now, canSend))
  {
    var o := G.OnRemote(w.game.sessions[id].core, payload, now);
    var game := Handle(w.game, id, o.core, G.FlowOf(o, canSend), o.authenticated, false);
    GameRequestServer(w.log, w.game, w.tokens, id, payload, now, canSend);
    WithGameInv(env, w, game, w.tokens);
    if o.spawned.Some? {
      SpawnGameInv(env, w.(game := game), id, o.spawned.value);
    }
  }

  lemma SpawnGameInv(env: Env, w: World, id: nat, work: G.Task)
    requires Inv(env, w)
    ensures Inv(env, w.(gameTasks := w.gameTasks[w.nextTask := Working(id, work)], nextTask := w.nextTask + 1))
  {
    SetGameTask(w.gameTasks, w.tokens, w.nextTask, Working(id, work));
  }

  /** Giving a task that holds no token a new state that holds none. */
  lemma SetGameTask(tasks: map<nat, GameTask>, tokens: map<Key, Token>, task: nat, state: GameTask)
    requires TasksMatch(tasks, tokens)
    requires task in tasks ==> tasks[task].Working?
    requires state.Sending? ==> state.result.token.None? && Carries(state.result, tokens)
    ensures TasksMatch(tasks[task := state], tokens)
  {
    var tasks' := tasks[task := state];
    forall t, k ensures Holds(tasks', t, k) <==> k in tokens && tokens[k].fate == InTask(t) {
      assert Holds(tasks, t, k) <==> k in tokens && tokens[k].fate == InTask(t);
    }
  }

  lemma WithGameTasksInv(env: Env, w: World, tasks: map<nat, GameTask>)
    requires Inv(env, w) && TasksMatch(tasks, w.tokens) && forall t | t in tasks :: t < w.nextTask
    ensures Inv(env, w.(gameTasks := tasks))
  {
  }

  lemma SaveInv(env: Env, w: World, task: nat, ok: bool)
    requires Inv(env, w) && Protocol.Can(env, w, Save(task, ok))
    ensures Inv(env, DoSave(w, task, ok))
  {
    var state := Sending(w.gameTasks[task].session, Tagged(if ok then G.ScoreSaved else G.DbError, None));
    SetGameTask(w.gameTasks, w.tokens, task, state);
    WithGameTasksInv(env, w, w.gameTasks[task := state]);
  }

  // ---------------------------------------------------------------- taking a token

  lemma TakeInv(env: Env, w: World, task: nat, reached: bool, acked: bool)
    requires Inv(env, w) && Protocol.Can(env, w, Take(task, reached, acked))
    ensures Inv(env, DoTake(env, w, task, reached, acked))
  {
    var session := w.gameTasks[task].session;
    var key := env.gamePrefix + w.gameTasks[task].work.token;
    var failed := Sending(session, Tagged(G.DbError, None));
    if !reached {
      TakeMiss(env, w, task, failed);
    } else if key !in w.redis {
      TakeMiss(env, w, task, if acked then Sending(session, Tagged(G.TokenTaken(None), None)) else failed);
    } else if acked {
      TakeAcked(env, w, task, key);
    } else {
      TakeLost(env, w, task, key);
    }
  }

  lemma TakeMiss(env: Env, w: World, task: nat, state: GameTask)
    requires Inv(env, w) && task in w.gameTasks && w.gameTasks[task].Working?
    requires state.Sending? && state.result.token.None? && Carries(state.result, w.tokens)
    ensures Inv(env, w.(gameTasks := w.gameTasks[task := state]))
  {
    SetGameTask(w.gameTasks, w.tokens, task, state);
    WithGameTasksInv(env, w, w.gameTasks[task := state]);
  }

  lemma TakeAcked(env: Env, w: World, task: nat, key: Key)
    requires Inv(env, w) && task in w.gameTasks && w.gameTasks[task].Working? && key in w.redis
    ensures var taken := Sending(w.gameTasks[task].session, Tagged(G.TokenTaken(Some(w.redis[key])), Some(key)));
            Inv(env, w.(redis := w.redis - {key}, gameTasks := w.gameTasks[task := taken],
                        tokens := Fated(w.tokens, key, InTask(task))))
  {
    TakeAckedTokens(env, w.log, w.redis, w.gameTasks, w.game.sessions, w.tokens, task, key);
  }

  lemma TakeAckedTokens(env: Env, log: seq<Event>, redis: map<Key, string>, tasks: map<nat, GameTask>,
                        sessions: map<nat, Session<G.Core, Tagged>>, tokens: map<Key, Token>, task: nat, key: Key)
    requires TokensInv(env, log, redis, tasks, sessions, tokens)
    requires task in tasks && tasks[task].Working? && key in redis
    ensures var taken := Sending(tasks[task].session, Tagged(G.TokenTaken(Some(redis[key])), Some(key)));
            TokensInv(env, log, redis - {key}, tasks[task := taken], sessions, Fated(tokens, key, InTask(task)))
  {
    LeaveRedis(env, log, redis, tokens, key, InTask(task));
    FatedChannels(sessions, tokens, key, InTask(task));
    HandOver(tasks, tokens, key, task, tasks[task].session);
  }

  lemma TakeLost(env: Env, w: World, task: nat, key: Key)
    requires Inv(env, w) && task in w.gameTasks && w.gameTasks[task].Working? && key in w.redis
    ensures var failed := Sending(w.gameTasks[task].session, Tagged(G.DbError, None));
            Inv(env, w.(redis := w.redis - {key}, gameTasks := w.gameTasks[task := failed],
                        tokens := Fated(w.tokens, key, Lost)))
  {
    TakeLostTokens(env, w.log, w.redis, w.gameTasks, w.game.sessions, w.tokens, task, key);
  }

  lemma TakeLostTokens(env: Env, log: seq<Event>, redis: map<Key, string>, tasks: map<nat, GameTask>,
                       sessions: map<nat, Session<G.Core, Tagged>>, tokens: map<Key, Token>, task: nat, key: Key)
    requires TokensInv(env, log, redis, tasks, sessions, tokens)
    requires task in tasks && tasks[task].Working? && key in redis
    ensures var failed := Sending(tasks[task].session, Tagged(G.DbError, None));
            TokensInv(env, log, redis - {key}, tasks[task := failed], sessions, Fated(tokens, key, Lost))
  {
    LeaveRedis(env, log, redis, tokens, key, Lost);
    FatedChannels(sessions, tokens, key, Lost);
    FatedTasks(tasks, tokens, key, Lost);
    SetGameTask(tasks, Fated(tokens, key, Lost), task, Sending(tasks[task].session, Tagged(G.DbError, None)));
  }

  lemma HandOver(tasks: map<nat, GameTask>, tokens: map<Key, Token>, key: Key, task: nat, session: nat)
    requires TasksMatch(tasks, tokens) && key in tokens && tokens[key].fate == InRedis
    requires task in tasks && tasks[task].Working?
    ensures TasksMatch(tasks[task := Sending(session, Tagged(G.TokenTaken(Some(tokens[key].value)), Some(key)))],
                       Fated(tokens, key, InTask(task)))
  {
    var tasks' := tasks[task := Sending(session, Tagged(G.TokenTaken(Some(tokens[key].value)), Some(key)))];
    var tokens' := Fated(tokens, key, InTask(task));
    forall t | t in tasks' && tasks'[t].Sending? ensures Carries(tasks'[t].result, tokens') {
      if t != task {
        FatedCarries(tokens, key, InTask(task), tasks[t].result);
      }
    }
    forall t, k ensures Holds(tasks', t, k) <==> k in tokens' && tokens'[k].fate == InTask(t) {
      assert Holds(tasks, t, k) <==> k in tokens && tokens[k].fate == InTask(t);
      assert !Holds(tasks, task, k);
    }
  }

  // ---------------------------------------------------------------- delivering a result

  lemma GameReportInv(env: Env, w: World, task: nat)
    requires Inv(env, w) && Protocol.Can(env, w, GameReport(task))
    ensures Inv(env, DoGameReport(w, task))
  {
    var Sending(id, result) := w.gameTasks[task];
    DeliverServer(w.log, w.game, id, result);
    ReportTokensInv(env, w.log, w.redis, w.gameTasks, w.game, w.tokens, task, id, result);
  }

  lemma ReportTokensInv(env: Env, log: seq<Event>, redis: map<Key, string>, tasks: map<nat, GameTask>,
                        game: Server<G.Core, Tagged>, tokens: map<Key, Token>, task: nat, id: nat, result: Tagged)
    requires TokensInv(env, log, redis, tasks, game.sessions, tokens)
    requires task in tasks && tasks[task] == Sending(id, result)
    ensures TokensInv(env, log, redis, tasks - {task}, Deliver(game, id, result).sessions,
                      Moved(tokens, result.token, Destination(game, id)))
  {
    var fate := Destination(game, id);
    ReportedTokens(env, log, redis, tasks, tokens, task, fate);
    TaskDone(tasks, tokens, task, fate);
    HeldByTask(tasks, tokens, task);
    if id in game.sessions {
      Enqueued(game, tokens, id, result);
    } else if result.token.Some? {
      FatedChannels(game.sessions, tokens, result.token.value, Dropped);
    }
  }

  lemma HeldByTask(tasks: map<nat, GameTask>, tokens: map<Key, Token>, task: nat)
    requires TasksMatch(tasks, tokens) && task in tasks && tasks[task].Sending?
    ensures var m := tasks[task].result;
            Carries(m, tokens) && (m.token.Some? ==> tokens[m.token.value].fate == InTask(task))
  {
    var m := tasks[task].result;
    if m.token.Some? {
      assert Holds(tasks, task, m.token.value);
    }
  }

  lemma DeliverServer(log: seq<Event>, game: Server<G.Core, Tagged>, id: nat, m: Tagged)
    requires SessionServer.Inv(game) && GameAccounts(log, game)
    ensures SessionServer.Inv(Deliver(game, id, m)) && GameAccounts(log, Deliver(game, id, m))
  {
    SessionServer.DeliverInv(game, id, m);
    forall x | x in Deliver(game, id, m).sessions ensures AccountBacked(log, Deliver(game, id, m), x) {
      assert AccountBacked(log, game, x);
    }
  }

  /** The token of a result that is sent on is no longer held by its task. */
  lemma ReportedTokens(env: Env, log: seq<Event>, redis: map<Key, string>, tasks: map<nat, GameTask>,
                       tokens: map<Key, Token>, task: nat, fate: Fate)
    requires TokenTrails(env, log, tokens) && RedisMatches(redis, tokens) && AuthsMatch(log, tokens)
    requires TasksMatch(tasks, tokens)
    requires task in tasks && tasks[task].Sending? && (fate.InChannel? || fate == Dropped)
    ensures var token := tasks[task].result.token;
            var tokens' := Moved(tokens, token, fate);
            TokenTrails(env, log, tokens') && RedisMatches(redis, tokens') && AuthsMatch(log, tokens')
  {
    var token := tasks[task].result.token;
    if token.Some? {
      HeldByTask(tasks, tokens, task);
      FatedTrails(env, log, tokens, token.value, fate);
      FatedAuths(log, tokens, token.value, fate);
      FatedRedisSame(redis, tokens, token.value, fate);
    }
  }

  lemma TaskDone(tasks: map<nat, GameTask>, tokens: map<Key, Token>, task: nat, fate: Fate)
    requires TasksMatch(tasks, tokens) && task in tasks && tasks[task].Sending? && !fate.InTask?
    ensures TasksMatch(tasks - {task}, Moved(tokens, tasks[task].result.token, fate))
  {
    var token := tasks[task].result.token;
    var rest, tokens' := tasks - {task}, Moved(tokens, token, fate);
    forall t | t in rest && rest[t].Sending? ensures Carries(rest[t].result, tokens') {
      assert Carries(tasks[t].result, tokens);
    }
    forall t, k ensures Holds(rest, t, k) <==> k in tokens' && tokens'[k].fate == InTask(t) {
      assert Holds(tasks, t, k) <==> k in tokens && tokens[k].fate == InTask(t);
      assert token.Some? ==> Holds(tasks, task, token.value);
    }
  }

  /** A message joins the end of a channel, and its token follows it there. */
  lemma Enqueued(game: Server<G.Core, Tagged>, tokens: map<Key, Token>, id: nat, m: Tagged)
    requires ChannelsMatch(game.sessions, tokens) && id in game.sessions && Carries(m, tokens)
    requires m.token.Some? ==> !tokens[m.token.value].fate.InChannel?
    ensures var end := game.sessions[id].received + |game.sessions[id].inner|;
            ChannelsMatch(Deliver(game, id, m).sessions, Moved(tokens, m.token, InChannel(id, end)))
  {
    var sessions, sessions' := game.sessions, Deliver(game, id, m).sessions;
    var end := sessions[id].received + |sessions[id].inner|;
    var tokens' := Moved(tokens, m.token, InChannel(id, end));
    forall x, i | x in sessions' && 0 <= i < |sessions'[x].inner| ensures Carries(sessions'[x].inner[i], tokens') {
      assert Carries(if x == id && i == |sessions[id].inner| then m else sessions[x].inner[i], tokens);
    }
    forall x, n, k ensures Queued(sessions', x, n, k) <==> k in tokens' && tokens'[k].fate == InChannel(x, n) {
      assert Queued(sessions, x, n, k) <==> k in tokens && tokens[k].fate == InChannel(x, n);
      if x == id && n != end {
        assert Queued(sessions', x, n, k) <==> Queued(sessions, x, n, k);
      }
    }
  }

  // ---------------------------------------------------------------- handling a result

  lemma GameInnerInv(env: Env, w: World, id: nat, now: Instant, canSend: bool)
    requires Inv(env, w) && IsArmed(w.game, id) && w.game.sessions[id].inner != []
    ensures Inv(env, DoGameInner(w, id, now, canSend))
  {
    var m := w.game.sessions[id].inner[0];
    assert Carries(m, w.tokens);
    match m.token {
      case None => PlainResultInv(env, w, id, m, now, canSend);
      case Some(key) => TokenResultInv(env, w, id, m, key, now, canSend);
    }
  }

  /** A result without a token changes no account. */
  lemma PlainResult(core: G.Core, message: G.Inner, now: Instant)
    requires message.TokenTaken? ==> message.value.None?
    ensures var o := G.OnInner(core, message, now); o.authenticated.None? && o.core == core
  {
  }

  lemma PlainResultInv(env: Env, w: World, id: nat, m: Tagged, now: Instant, canSend: bool)
    requires Inv(env, w) && IsArmed(w.game, id) && w.game.sessions[id].inner != []
    requires m == w.game.sessions[id].inner[0] && m.token.None? && Carries(m, w.tokens)
    ensures Inv(env, DoGameInner(w, id, now, canSend))
  {
    var core := w.game.sessions[id].core;
    PlainResult(core, m.message, now);
    var flow := G.FlowOf(G.OnInner(core, m.message, now), canSend);
    var game := Handle(w.game, id, core, flow, None, true);
    SessionServer.HandleInv(w.game, id, core, flow, None, true);
    GameHandleAccounts(w.log, w.log, w.game, id, core, flow, None, true);
    Dequeued(w.game.sessions, w.tokens, id, game.sessions);
    WithGameInv(env, w, game, w.tokens);
  }

  /** A result with a token authenticates its session as the account the token was stored for. */
  lemma TokenResult(core: G.Core, account: Account, now: Instant)
    ensures var o := G.OnInner(core, G.TokenTaken(Some(Format(account))), now);
            o.authenticated == Some(account.userId) && o.core.account == Some(account)
  {
    RoundTrip(account);
  }

  lemma TokenResultInv(env: Env, w: World, id: nat, m: Tagged, key: Key, now: Instant, canSend: bool)
    requires Inv(env, w) && IsArmed(w.game, id) && w.game.sessions[id].inner != []
    requires m == w.game.sessions[id].inner[0] && m.token == Some(key) && Carries(m, w.tokens)
    ensures Inv(env, DoGameInner(w, id, now, canSend))
  {
    var session := w.game.sessions[id];
    HeldByChannel(env, w.log, w.game.sessions, w.tokens, id, key);
    var account := Account(w.tokens[key].row.accountId, w.tokens[key].row.userId);
    TokenResult(session.core, account, now);
    var o := G.OnInner(session.core, m.message, now);
    HandleUsed(env, w, id, o.core, G.FlowOf(o, canSend), key, account);
  }

  lemma HeldByChannel(env: Env, log: seq<Event>, sessions: map<nat, Session<G.Core, Tagged>>, tokens: map<Key, Token>,
                      id: nat, key: Key)
    requires ChannelsMatch(sessions, tokens) && TokenTrails(env, log, tokens)
    requires id in sessions && sessions[id].inner != [] && sessions[id].inner[0].token == Some(key)
    ensures key in tokens && tokens[key].fate.InChannel?
    ensures var row := tokens[key].row;
            sessions[id].inner[0].message == G.TokenTaken(Some(Format(Account(row.accountId, row.userId))))
  {
    assert Carries(sessions[id].inner[0], tokens);
    assert Queued(sessions, id, sessions[id].received, key);
    assert TokenTrail(env, log, key, tokens[key]);
  }

  lemma HandleUsed(env: Env, w: World, id: nat, core: G.Core, flow: Flow, key: Key, account: Account)
    requires Inv(env, w) && IsArmed(w.game, id) && w.game.sessions[id].inner != []
    requires w.game.sessions[id].inner[0].token == Some(key)
    requires key in w.tokens && w.tokens[key].fate.InChannel?
    requires account == Account(w.tokens[key].row.accountId, w.tokens[key].row.userId) && core.account == Some(account)
    ensures Inv(env, w.(game := Handle(w.game, id, core, flow, Some(account.userId), true),
                        log := w.log + [Authenticated(id, Some(key), account)],
                        tokens := Fated(w.tokens, key, Used(id))))
  {
    HandleUsedServer(w.log, w.game, id, core, flow, key, account);
    HandledChannel(w.game, id, core, flow, Some(account.userId));
    UsedTokens(env, w.log, w.redis, w.gameTasks, w.game.sessions, w.tokens, id, key, account,
               Handle(w.game, id, core, flow, Some(account.userId), true).sessions);
    TrailsGrow(env, w.log, Authenticated(id, Some(key), account), w.loginTasks, map[]);
  }

  lemma HandledChannel(game: Server<G.Core, Tagged>, id: nat, core: G.Core, flow: Flow, auth: Option<string>)
    requires IsArmed(game, id) && game.sessions[id].inner != []
    ensures var sessions, sessions' := game.sessions, Handle(game, id, core, flow, auth, true).sessions;
            && sessions'.Keys == sessions.Keys
            && (forall x | x in sessions && x != id :: sessions'[x] == sessions[x])
            && sessions'[id].inner == sessions[id].inner[1..]
            && sessions'[id].received == sessions[id].received + 1
  {
  }

  lemma HandleUsedServer(log: seq<Event>, game: Server<G.Core, Tagged>, id: nat, core: G.Core, flow: Flow, key: Key,
                         account: Account)
    requires SessionServer.Inv(game) && GameAccounts(log, game)
    requires IsArmed(game, id) && game.sessions[id].inner != [] && core.account == Some(account)
    ensures var game' := Handle(game, id, core, flow, Some(account.userId), true);
            SessionServer.Inv(game') && GameAccounts(log + [Authenticated(id, Some(key), account)], game')
  {
    var log' := log + [Authenticated(id, Some(key), account)];
    SessionServer.HandleInv(game, id, core, flow, Some(account.userId), true);
    assert BecameAt(log', |log|, id, account);
    GameHandleAccounts(log, log', game, id, core, flow, Some(account.userId), true);
  }

  /** Taking the first message out of a channel uses up its token. */
  lemma Dequeued(sessions: map<nat, Session<G.Core, Tagged>>, tokens: map<Key, Token>, id: nat,
                 sessions': map<nat, Session<G.Core, Tagged>>)
    requires ChannelsMatch(sessions, tokens) && id in sessions && sessions[id].inner != []
    requires sessions'.Keys == sessions.Keys
    requires forall x | x in sessions && x != id :: sessions'[x] == sessions[x]
    requires sessions'[id].inner == sessions[id].inner[1..] && sessions'[id].received == sessions[id].received + 1
    ensures var token := sessions[id].inner[0].token;
            ChannelsMatch(sessions', Moved(tokens, token, Used(id)))
  {
    var token := sessions[id].inner[0].token;
    var tokens' := Moved(tokens, token, Used(id));
    var first := sessions[id].received;
    forall x, i | x in sessions' && 0 <= i < |sessions'[x].inner| ensures Carries(sessions'[x].inner[i], tokens') {
      assert Carries(if x == id then sessions[x].inner[i + 1] else sessions[x].inner[i], tokens);
    }
    forall x, n, k ensures Queued(sessions', x, n, k) <==> k in tokens' && tokens'[k].fate == InChannel(x, n) {
      assert Queued(sessions, x, n, k) <==> k in tokens && tokens[k].fate == InChannel(x, n);
      assert token.Some? ==> Queued(sessions, id, first, token.value);
      if x == id {
        assert Queued(sessions', x, n, k) <==> Queued(sessions, x, n, k) && n != first;
      }
    }
  }

  lemma UsedTokens(env: Env, log: seq<Event>, redis: map<Key, string>, tasks: map<nat, GameTask>,
                   sessions: map<nat, Session<G.Core, Tagged>>, tokens: map<Key, Token>,
                   id: nat, key: Key, account: Account, sessions': map<nat, Session<G.Core, Tagged>>)
    requires TokensInv(env, log, redis, tasks, sessions, tokens)
    requires key in tokens && tokens[key].fate.InChannel?
    requires account == Account(tokens[key].row.accountId, tokens[key].row.userId)
    requires id in sessions && sessions[id].inner != [] && sessions[id].inner[0].token == Some(key)
    requires sessions'.Keys == sessions.Keys
    requires forall x | x in sessions && x != id :: sessions'[x] == sessions[x]
    requires sessions'[id].inner == sessions[id].inner[1..] && sessions'[id].received == sessions[id].received + 1
    ensures TokensInv(env, log + [Authenticated(id, Some(key), account)], redis, tasks, sessions',
                      Fated(tokens, key, Used(id)))
  {
    Dequeued(sessions, tokens, id, sessions');
    TrailsGrow(env, log, Authenticated(id, Some(key), account), map[], tokens);
    FatedTrails(env, log + [Authenticated(id, Some(key), account)], tokens, key, Used(id));
    FatedRedisSame(redis, tokens, key, Used(id));
    FatedTasks(tasks, tokens, key, Used(id));
    assert TokenTrail(env, log, key, tokens[key]);
    UsedAuths(log, tokens, id, key, account);
  }

  lemma UsedAuths(log: seq<Event>, tokens: map<Key, Token>, id: nat, key: Key, account: Account)
    requires AuthsMatch(log, tokens) && key in tokens && !tokens[key].fate.Used?
    requires account == Account(tokens[key].row.accountId, tokens[key].row.userId)
    requires |tokens[key].marks| == 5 && tokens[key].marks[4] < |log|
    ensures AuthsMatch(log + [Authenticated(id, Some(key), account)], Fated(tokens, key, Used(id)))
  {
    var log' := log + [Authenticated(id, Some(key), account)];
    var tokens' := Fated(tokens, key, Used(id));
    forall i | 0 <= i < |log'| ensures AuthBacked(log', i, tokens') {
      assert i < |log| ==> AuthBacked(log, i, tokens) && log'[i] == log[i];
    }
    forall i, j | 0 <= i < j < |log'| && log'[i].Authenticated? && log'[j].Authenticated?
      ensures log'[i].token != log'[j].token
    {
      assert AuthBacked(log, i, tokens);
    }
    forall k | k in tokens' ensures UseLogged(log', tokens', k) {
      assert UseLogged(log, tokens, k);
      if k == key {
        assert AuthAt(log', |log|, id, k);
      } else if tokens[k].fate.Used? {
        var i :| AuthAt(log, i, tokens[k].fate.session, k);
        assert AuthAt(log', i, tokens'[k].fate.session, k);
      }
    }
  }

  // ---------------------------------------------------------------- every step, every run

  lemma StepKeepsInv(env: Env, w: World, step: Step)
    requires Inv(env, w) && Protocol.Can(env, w, step)
    ensures Inv(env, Protocol.Do(env, w, step))
  {
    match step
    case LoginLife(e) => LoginLifeInv(env, w, e);
    case LoginRemote(id, payload, now, canSend) => LoginRemoteInv(env, w, id, payload, now, canSend);
    case LoginInner(id, now, canSend) => LoginInnerInv(env, w, id, now, canSend);
    case Find(t, reply) => FindInv(env, w, t, reply);
    case Check(t, crashed) => CheckInv(env, w, t, crashed);
    case Touch(t, ok) => TouchInv(env, w, t, ok);
    case Issue(t, uuid, stored, acked) => IssueInv(env, w, t, uuid, stored, acked);
    case LoginReport(t) => LoginReportInv(env, w, t);
    case Expire(key) => ExpireInv(env, w, key);
    case GameLife(e) => GameLifeInv(env, w, e);
    case GameRemote(id, payload, now, canSend) => GameRemoteInv(env, w, id, payload, now, canSend);
    case GameInner(id, now, canSend) => GameInnerInv(env, w, id, now, canSend);
    case Take(t, reached, acked) => TakeInv(env, w, t, reached, acked);
    case Save(t, ok) => SaveInv(env, w, t, ok);
    case GameReport(t) => GameReportInv(env, w, t);
  }

  lemma {:induction false} TraceInv(env: Env, states: seq<World>, steps: seq<Step>, i: nat)
    requires IsTrace(env, states, steps) && i < |states|
    ensures Inv(env, states[i])
  {
    if i == 0 {
      StartInv(env);
    } else {
      TraceInv(env, states, steps, i - 1);
      assert Linked(env, states, steps, i - 1);
      StepKeepsInv(env, states[i - 1], steps[i - 1]);
    }
  }

  lemma ReachableInv(env: Env, steps: seq<Step>, w: World)
    requires Reaches(env, steps, w)
    ensures Inv(env, w)
  {
    var states :| IsTrace(env, states, steps) && Last(states) == w;
    TraceInv(env, states, steps, |steps|);
  }
}
