/**
 A run in which the user map goes wrong: one game session sends two requests with two tokens before
 the first result arrives, both are accepted, and the first user maps to the session for ever after.
 */
module StaleMapping {
  import opened Prelude
  import opened Messages
  import opened TokenValue
  import opened SessionServer
  import opened Protocol
  import R = RegistrySpec
  import L = LoginSession
  import G = GameSession

  lemma Extend(env: Env, steps: seq<Step>, w: World, step: Step) returns (steps': seq<Step>, w': World)
    requires Reaches(env, steps, w) && Protocol.Can(env, w, step)
    ensures Reaches(env, steps', w') && w' == Protocol.Do(env, w, step)
  {
    w', steps' := Protocol.Do(env, w, step), steps + [step];
    var states :| IsTrace(env, states, steps) && Last(states) == w;
    var states' := states + [w'];
    forall i: nat | i < |steps'| ensures Linked(env, states', steps', i) {
      assert i < |steps| ==> Linked(env, states, steps, i);
    }
    assert IsTrace(env, states', steps') && Last(states') == w';
  }

  lemma Begin(env: Env) returns (steps: seq<Step>)
    ensures Reaches(env, steps, Start())
  {
    steps := [];
    assert IsTrace(env, [Start()], steps) && Last([Start()]) == Start();
  }

  // ---------------------------------------------------------------- LoginServer issues a token

  /** An account that LoginServer lets in with this hash. */
  predicate LetsIn(env: Env, row: Row, hash: Bytes) {
    row.userId != "" && hash != [] && row.status != 1 && env.verify(hash, row.passwordHash, row.salt) == Matches
  }

  /** A session that is at work and has not been kicked. */
  predicate AtWork<C, M>(s: Server<C, M>, id: nat) {
    id in s.sessions && s.sessions[id].phase == Ready && id !in s.registry.kicked
  }

  predicate MayLogIn(w: World, id: nat, at: Instant) {
    && AtWork(w.login, id) && w.login.sessions[id].core.account.None?
    && L.TryConsume(w.login.sessions[id].core.limiter, at).1
  }

  lemma RequestLogin(env: Env, steps: seq<Step>, w: World, id: nat, at: Instant, c: L.Credentials)
    returns (steps': seq<Step>, w': World)
    requires Reaches(env, steps, w) && MayLogIn(w, id, at) && c.userId != "" && c.passwordHash != []
    ensures Reaches(env, steps', w') && w'.game == w.game && w'.gameTasks == w.gameTasks
    ensures w'.redis == w.redis && w'.tokens == w.tokens
    ensures w.nextTask in w'.loginTasks && w'.loginTasks[w.nextTask].stage == Finding(c)
    ensures AtWork(w'.login, id) && w'.login.sessions[id].core.account.None?
    ensures w'.login.sessions[id].core.limiter == L.TryConsume(w.login.sessions[id].core.limiter, at).0
  {
    var s1, w1 := Extend(env, steps, w, LoginLife(Poll(id)));
    steps', w' := Extend(env, s1, w1, LoginRemote(id, Some(LoginRequest(c.userId, c.passwordHash)), at, true));
  }

  /** From here the task does all that it should. */
  lemma IssueToken(env: Env, steps: seq<Step>, w: World, task: nat, row: Row, hash: Bytes, uuid: string)
    returns (steps': seq<Step>, w': World)
    requires Reaches(env, steps, w) && LetsIn(env, row, hash) && env.loginPrefix + uuid !in w.tokens
    requires task in w.loginTasks && w.loginTasks[task].stage == Finding(L.Credentials(row.userId, hash))
    ensures Reaches(env, steps', w') && w'.game == w.game && w'.gameTasks == w.gameTasks && w'.login == w.login
    ensures w'.tokens.Keys == w.tokens.Keys + {env.loginPrefix + uuid}
    ensures w'.redis == w.redis[env.loginPrefix + uuid := Format(Account(row.accountId, row.userId))]
  {
    var s1, w1 := Extend(env, steps, w, Find(task, Found(row)));
    assert w1.loginTasks[task].stage == Checking(row, hash);
    var s2, w2 := Extend(env, s1, w1, Check(task, false));
    assert w2.loginTasks[task].stage == Touching(row);
    var s3, w3 := Extend(env, s2, w2, Touch(task, true));
    assert w3.loginTasks[task].stage == Issuing(row);
    steps', w' := Extend(env, s3, w3, Issue(task, uuid, true, true));
  }

  /** One login session, two logins, two tokens. */
  lemma TwoTokens(env: Env, first: Row, second: Row, hash: Bytes) returns (steps: seq<Step>, w: World)
    requires LetsIn(env, first, hash) && LetsIn(env, second, hash)
    ensures Reaches(env, steps, w) && w.game == Start().game && w.gameTasks == map[]
    ensures w.redis == map[env.loginPrefix + "a" := Format(Account(first.accountId, first.userId)),
                           env.loginPrefix + "b" := Format(Account(second.accountId, second.userId))]
  {
    var s0 := Begin(env);
    var s1, w1 := Extend(env, s0, Start(), LoginLife(Connect(L.Init(0), false, true)));
    var s2, w2 := RequestLogin(env, s1, w1, 1, 0, L.Credentials(first.userId, hash));
    assert w2.login.sessions[1].core.limiter == L.Limiter(Some(0), 1);
    var s3, w3 := IssueToken(env, s2, w2, w1.nextTask, first, hash, "a");
    var s4, w4 := RequestLogin(env, s3, w3, 1, 0, L.Credentials(second.userId, hash));
    KeysDiffer(env.loginPrefix);
    steps, w := IssueToken(env, s4, w4, w3.nextTask, second, hash, "b");
  }

  lemma KeysDiffer(prefix: string)
    ensures prefix + "a" != prefix + "b"
  {
    assert (prefix + "a")[|prefix|] == 'a' && (prefix + "b")[|prefix|] == 'b';
  }

  // ---------------------------------------------------------------- GameServer takes it

  /** A request with a token, while the session has no account: it spawns a task. */
  lemma RequestGame(env: Env, steps: seq<Step>, w: World, id: nat, token: string)
    returns (steps': seq<Step>, w': World)
    requires Reaches(env, steps, w) && token != ""
    requires AtWork(w.game, id) && w.game.sessions[id].core.account.None?
    ensures Reaches(env, steps', w') && w'.redis == w.redis && w'.game.registry == w.game.registry
    ensures w'.gameTasks == w.gameTasks[w.nextTask := Working(id, G.TakeToken(token))] && w'.nextTask == w.nextTask + 1
    ensures w'.game.sessions == w.game.sessions && w'.game == w.game
  {
    var s1, w1 := Extend(env, steps, w, GameLife(Poll(id)));
    steps', w' := Extend(env, s1, w1, GameRemote(id, Some(GameConnectRequest(token)), 0, true));
  }

  /** The task takes the token and its result joins the session's channel. */
  lemma TakeAndReport(env: Env, steps: seq<Step>, w: World, task: nat, id: nat, token: string)
    returns (steps': seq<Step>, w': World)
    requires Reaches(env, steps, w) && id in w.game.sessions
    requires task in w.gameTasks && w.gameTasks[task] == Working(id, G.TakeToken(token))
    requires env.gamePrefix + token in w.redis
    ensures var key := env.gamePrefix + token;
            && Reaches(env, steps', w') && w'.redis == w.redis - {key} && w'.gameTasks == w.gameTasks - {task}
            && w'.game == Deliver(w.game, id, Tagged(G.TokenTaken(Some(w.redis[key])), Some(key)))
  {
    var s1, w1 := Extend(env, steps, w, Take(task, true, true));
    assert w1.gameTasks[task].Sending?;
    steps', w' := Extend(env, s1, w1, GameReport(task));
    assert w1.gameTasks - {task} == w.gameTasks - {task};
  }

  /** The session handles the result of a good token, whether or not it has an account already. */
  lemma HandleResult(env: Env, steps: seq<Step>, w: World, id: nat, account: Account)
    returns (steps': seq<Step>, w': World)
    requires Reaches(env, steps, w) && AtWork(w.game, id) && w.game.sessions[id].inner != []
    requires w.game.sessions[id].inner[0].message == G.TokenTaken(Some(Format(account)))
    ensures Reaches(env, steps', w') && w'.game.sessions.Keys == w.game.sessions.Keys
    ensures w'.game.registry == R.Authenticate(w.game.registry, id, account.userId)
    ensures w'.game.sessions[id].phase == Ready && w'.game.sessions[id].inner == w.game.sessions[id].inner[1..]
  {
    RoundTrip(account);
    var s1, w1 := Extend(env, steps, w, GameLife(Poll(id)));
    steps', w' := Extend(env, s1, w1, GameInner(id, 0, true));
  }

  /** Both requests are handled before either result: the check for an account is passed twice. */
  lemma TwoResults(env: Env, first: Row, second: Row, hash: Bytes) returns (steps: seq<Step>, w: World)
    requires env.loginPrefix == env.gamePrefix && LetsIn(env, first, hash) && LetsIn(env, second, hash)
    ensures Reaches(env, steps, w) && w.game.registry == R.Register(R.EMPTY, 1, false)
    ensures w.game.sessions.Keys == {1} && AtWork(w.game, 1) && |w.game.sessions[1].inner| == 2
    ensures var inner := w.game.sessions[1].inner;
            && inner[0].message == G.TokenTaken(Some(Format(Account(first.accountId, first.userId))))
            && inner[1].message == G.TokenTaken(Some(Format(Account(second.accountId, second.userId))))
  {
    var s0, w0 := TwoTokens(env, first, second, hash);
    KeysDiffer(env.gamePrefix);
    var s1, w1 := Extend(env, s0, w0, GameLife(Connect(G.Init(0), false, true)));
    var s2, w2 := RequestGame(env, s1, w1, 1, "a");
    var s3, w3 := RequestGame(env, s2, w2, 1, "b");
    var s4, w4 := TakeAndReport(env, s3, w3, w1.nextTask, 1, "a");
    steps, w := TakeAndReport(env, s4, w4, w2.nextTask, 1, "b");
  }

  /**
   For every configuration that lets two different users in, a run leads to a registry whose index is
   wrong, and on to one where every session has left and the first user still maps to one of them.
   */
  lemma StaleMappingIsReachable(env: Env, first: Row, second: Row, hash: Bytes)
    returns (steps: seq<Step>, w: World, steps': seq<Step>, w': World)
    requires env.loginPrefix == env.gamePrefix && LetsIn(env, first, hash) && LetsIn(env, second, hash)
    requires first.userId != second.userId
    ensures Reaches(env, steps, w) && !R.IndexAgrees(w.game.registry)
    ensures Reaches(env, steps', w') && w'.game.sessions == map[]
    ensures w'.game.registry == R.Registry(map[], map[first.userId := 1], {})
  {
    var s0, w0 := TwoResults(env, first, second, hash);
    var s1, w1 := HandleResult(env, s0, w0, 1, Account(first.accountId, first.userId));
    steps, w := HandleResult(env, s1, w1, 1, Account(second.accountId, second.userId));
    assert w.game.registry == R.Registry(map[1 := Some(second.userId)],
                                         map[first.userId := 1, second.userId := 1], {});
    assert w.game.registry.authenticated[first.userId] == 1;
    var s2, w2 := Extend(env, steps, w, GameLife(Poll(1)));
    var s3, w3 := Extend(env, s2, w2, GameLife(Quit(1)));
    steps', w' := Extend(env, s3, w3, GameLife(Leave(1)));
    assert w'.game.sessions.Keys == {};
    assert w'.game.registry.sessions == map[];
    assert w'.game.registry.authenticated == map[first.userId := 1];
  }
}
