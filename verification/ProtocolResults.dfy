/** No task is lost and no result is handled twice, on either server. */
module ProtocolResults {
  import opened Prelude
  import opened Messages
  import opened SessionServer
  import opened Protocol
  import opened ProtocolHistory
  import opened ProtocolInvariants
  import L = LoginSession
  import G = GameSession

  // ---------------------------------------------------------------- which requests start a task

  /** A GameServer session starts a task for a token while it has no account, and for a report once it has. */
  predicate StartsGameTask(w: World, step: Step, id: nat) {
    && step.GameRemote? && step.id == id && id in w.game.sessions && step.payload.Some?
    && var known := w.game.sessions[id].core.account.Some?;
       || (step.payload.value.GameConnectRequest? && step.payload.value.gameToken != "" && !known)
       || (step.payload.value.GameOverReport? && known)
  }

  /** A LoginServer session starts one for a complete request that the limit grants, while not logged in. */
  predicate StartsLoginTask(w: World, step: Step, id: nat) {
    && step.LoginRemote? && step.id == id && id in w.login.sessions && step.payload.Some?
    && step.payload.value.LoginRequest? && step.payload.value.userId != "" && step.payload.value.passwordHash != []
    && var core := w.login.sessions[id].core;
       core.account.None? && L.TryConsume(core.limiter, step.now).1
  }

  function GameStarts(states: seq<World>, steps: seq<Step>, n: nat, id: nat): nat
    requires n <= |steps| <= |states|
  {
    if n == 0 then 0
    else GameStarts(states, steps, n - 1, id) + if StartsGameTask(states[n - 1], steps[n - 1], id) then 1 else 0
  }

  function LoginStarts(states: seq<World>, steps: seq<Step>, n: nat, id: nat): nat
    requires n <= |steps| <= |states|
  {
    if n == 0 then 0
    else LoginStarts(states, steps, n - 1, id) + if StartsLoginTask(states[n - 1], steps[n - 1], id) then 1 else 0
  }

  function GameTasksOf(tasks: map<nat, GameTask>, id: nat): set<nat> {
    set t | t in tasks && tasks[t].session == id
  }

  function LoginTasksOf(tasks: map<nat, LoginTask>, id: nat): set<nat> {
    set t | t in tasks && tasks[t].session == id
  }

  /** Started = outstanding + waiting in the channel + handled, while the session is there. */
  ghost predicate GameBalance(w: World, id: nat, started: nat) {
    if id in w.game.sessions
    then started == |GameTasksOf(w.gameTasks, id)| + |w.game.sessions[id].inner| + w.game.sessions[id].received
    else id > w.game.lastId ==> started == 0 && GameTasksOf(w.gameTasks, id) == {}
  }

  ghost predicate LoginBalance(w: World, id: nat, started: nat) {
    if id in w.login.sessions
    then started == |LoginTasksOf(w.loginTasks, id)| + |w.login.sessions[id].inner| + w.login.sessions[id].received
    else id > w.login.lastId ==> started == 0 && LoginTasksOf(w.loginTasks, id) == {}
  }

  // ---------------------------------------------------------------- GameServer

  /** A request changes no channel. */
  lemma GameRequestKeepsChannels(w: World, x: nat, payload: Option<Payload>, now: Instant, canSend: bool, id: nat)
    requires IsArmed(w.game, x) && id in w.game.sessions
    ensures var w' := DoGameRemote(w, x, payload, now, canSend);
            && w'.game.sessions[id].inner == w.game.sessions[id].inner
            && w'.game.sessions[id].received == w.game.sessions[id].received
    ensures DoGameRemote(w, x, payload, now, canSend).game.lastId == w.game.lastId
    ensures DoGameRemote(w, x, payload, now, canSend).game.sessions.Keys == w.game.sessions.Keys
  {
  }

  /** It adds one task, of its own session, exactly when it starts one. */
  lemma GameRequestAdds(w: World, x: nat, payload: Option<Payload>, now: Instant, canSend: bool)
    requires IsArmed(w.game, x)
    ensures var step, w' := GameRemote(x, payload, now, canSend), DoGameRemote(w, x, payload, now, canSend);
            if StartsGameTask(w, step, x)
            then exists work :: w'.gameTasks == w.gameTasks[w.nextTask := Working(x, work)]
            else w'.gameTasks == w.gameTasks
  {
    var o := G.OnRemote(w.game.sessions[x].core, payload, now);
    assert o.spawned.Some? <==> StartsGameTask(w, GameRemote(x, payload, now, canSend), x);
    if o.spawned.Some? {
      assert DoGameRemote(w, x, payload, now, canSend).gameTasks ==
             w.gameTasks[w.nextTask := Working(x, o.spawned.value)];
    }
  }

  lemma GameRemoteBalance(w: World, x: nat, payload: Option<Payload>, now: Instant, canSend: bool,
                          id: nat, started: nat)
    requires IsArmed(w.game, x) && x <= w.game.lastId && w.nextTask !in w.gameTasks && GameBalance(w, id, started)
    ensures GameBalance(DoGameRemote(w, x, payload, now, canSend), id,
                        if StartsGameTask(w, GameRemote(x, payload, now, canSend), id) then started + 1 else started)
  {
    var w' := DoGameRemote(w, x, payload, now, canSend);
    GameRequestKeepsChannels(w, x, payload, now, canSend, if id in w.game.sessions then id else x);
    GameRequestAdds(w, x, payload, now, canSend);
    if StartsGameTask(w, GameRemote(x, payload, now, canSend), x) {
      var work :| w'.gameTasks == w.gameTasks[w.nextTask := Working(x, work)];
      NewGameOwner(w.gameTasks, w.nextTask, Working(x, work), id);
    }
  }

  lemma NewGameOwner(tasks: map<nat, GameTask>, t: nat, task: GameTask, id: nat)
    requires t !in tasks
    ensures |GameTasksOf(tasks[t := task], id)| == |GameTasksOf(tasks, id)| + if task.session == id then 1 else 0
  {
    if task.session == id {
      assert GameTasksOf(tasks[t := task], id) == GameTasksOf(tasks, id) + {t};
    } else {
      assert GameTasksOf(tasks[t := task], id) == GameTasksOf(tasks, id);
    }
  }

  lemma GameReportBalance(w: World, t: nat, id: nat, started: nat)
    requires t in w.gameTasks && w.gameTasks[t].Sending? && GameBalance(w, id, started)
    ensures GameBalance(DoGameReport(w, t), id, started)
  {
    var w' := DoGameReport(w, t);
    if w.gameTasks[t].session == id {
      assert GameTasksOf(w.gameTasks, id) == GameTasksOf(w'.gameTasks, id) + {t};
    } else {
      assert GameTasksOf(w'.gameTasks, id) == GameTasksOf(w.gameTasks, id);
    }
  }

  lemma GameLifeBalance(w: World, e: Lifecycle<G.Core>, id: nat, started: nat)
    requires SessionServer.Inv(w.game) && SessionServer.Can(w.game, e) && GameBalance(w, id, started)
    ensures GameBalance(DoGameLife(w, e), id, started)
  {
  }

  lemma SameGameOwner(tasks: map<nat, GameTask>, t: nat, task: GameTask, id: nat)
    requires t in tasks && tasks[t].session == task.session
    ensures GameTasksOf(tasks[t := task], id) == GameTasksOf(tasks, id)
  {
  }

  lemma GameInnerBalance(w: World, x: nat, now: Instant, canSend: bool, id: nat, started: nat)
    requires IsArmed(w.game, x) && w.game.sessions[x].inner != [] && GameBalance(w, id, started)
    ensures GameBalance(DoGameInner(w, x, now, canSend), id, started)
  {
  }

  lemma TakeBalance(env: Env, w: World, t: nat, reached: bool, acked: bool, id: nat, started: nat)
    requires Protocol.Can(env, w, Take(t, reached, acked)) && GameBalance(w, id, started)
    ensures GameBalance(DoTake(env, w, t, reached, acked), id, started)
  {
    var w' := DoTake(env, w, t, reached, acked);
    assert w'.gameTasks == w.gameTasks[t := w'.gameTasks[t]] && w'.game == w.game;
    SameGameOwner(w.gameTasks, t, w'.gameTasks[t], id);
  }

  lemma SaveBalance(env: Env, w: World, t: nat, ok: bool, id: nat, started: nat)
    requires Protocol.Can(env, w, Save(t, ok)) && GameBalance(w, id, started)
    ensures GameBalance(DoSave(w, t, ok), id, started)
  {
    SameGameOwner(w.gameTasks, t, DoSave(w, t, ok).gameTasks[t], id);
  }

  lemma GameElsewhere(env: Env, w: World, step: Step)
    requires Protocol.Can(env, w, step)
    requires !step.GameRemote? && !step.GameReport? && !step.GameLife? && !step.GameInner? && !step.Take? && !step.Save?
    ensures Protocol.Do(env, w, step).game == w.game && Protocol.Do(env, w, step).gameTasks == w.gameTasks
  {
  }

  lemma GameStepBalance(env: Env, w: World, step: Step, id: nat, started: nat)
    requires ProtocolInvariants.Inv(env, w) && Protocol.Can(env, w, step) && GameBalance(w, id, started)
    ensures GameBalance(Protocol.Do(env, w, step), id, if StartsGameTask(w, step, id) then started + 1 else started)
  {
    match step
    case GameRemote(x, payload, now, canSend) => GameRemoteBalance(w, x, payload, now, canSend, id, started);
    case GameReport(t) => GameReportBalance(w, t, id, started);
    case GameLife(e) => GameLifeBalance(w, e, id, started);
    case GameInner(x, now, canSend) => GameInnerBalance(w, x, now, canSend, id, started);
    case Take(t, reached, acked) => TakeBalance(env, w, t, reached, acked, id, started);
    case Save(t, ok) => SaveBalance(env, w, t, ok, id, started);
    case _ => GameElsewhere(env, w, step);
  }

  /**
   Every task that a live GameServer session started is still outstanding, or its result waits in the
   channel, or it has been handled: exactly once, whatever became of the backend call.
   */
  lemma {:induction false} GameResultsConserved(env: Env, states: seq<World>, steps: seq<Step>, n: nat, id: nat)
    requires IsTrace(env, states, steps) && n < |states|
    ensures GameBalance(states[n], id, GameStarts(states, steps, n, id))
  {
    if n == 0 {
    } else {
      var w, step, started := states[n - 1], steps[n - 1], GameStarts(states, steps, n - 1, id);
      assert Linked(env, states, steps, n - 1);
      TraceInv(env, states, steps, n - 1);
      GameResultsConserved(env, states, steps, n - 1, id);
      GameStepBalance(env, w, step, id, started);
    }
  }

  // ---------------------------------------------------------------- LoginServer

  lemma LoginRequestKeepsChannels(w: World, x: nat, payload: Option<Payload>, now: Instant, canSend: bool, id: nat)
    requires IsArmed(w.login, x) && id in w.login.sessions
    ensures var w' := DoLoginRemote(w, x, payload, now, canSend);
            && w'.login.sessions[id].inner == w.login.sessions[id].inner
            && w'.login.sessions[id].received == w.login.sessions[id].received
    ensures DoLoginRemote(w, x, payload, now, canSend).login.lastId == w.login.lastId
    ensures DoLoginRemote(w, x, payload, now, canSend).login.sessions.Keys == w.login.sessions.Keys
  {
  }

  lemma LoginRequestAdds(w: World, x: nat, payload: Option<Payload>, now: Instant, canSend: bool)
    requires IsArmed(w.login, x)
    ensures var step, w' := LoginRemote(x, payload, now, canSend), DoLoginRemote(w, x, payload, now, canSend);
            if StartsLoginTask(w, step, x)
            then exists stage, marks :: w'.loginTasks == w.loginTasks[w.nextTask := LoginTask(x, stage, marks)]
            else w'.loginTasks == w.loginTasks
  {
    var o := L.OnRemote(w.login.sessions[x].core, payload, now);
    assert o.spawned.Some? <==> StartsLoginTask(w, LoginRemote(x, payload, now, canSend), x);
    if o.spawned.Some? {
      assert DoLoginRemote(w, x, payload, now, canSend).loginTasks ==
             w.loginTasks[w.nextTask := LoginTask(x, Finding(o.spawned.value), [|w.log|])];
    }
  }

  lemma LoginRemoteBalance(w: World, x: nat, payload: Option<Payload>, now: Instant, canSend: bool,
                           id: nat, started: nat)
    requires IsArmed(w.login, x) && x <= w.login.lastId && w.nextTask !in w.loginTasks && LoginBalance(w, id, started)
    ensures LoginBalance(DoLoginRemote(w, x, payload, now, canSend), id,
                         if StartsLoginTask(w, LoginRemote(x, payload, now, canSend), id) then started + 1 else started)
  {
    var w' := DoLoginRemote(w, x, payload, now, canSend);
    LoginRequestKeepsChannels(w, x, payload, now, canSend, if id in w.login.sessions then id else x);
    LoginRequestAdds(w, x, payload, now, canSend);
    if StartsLoginTask(w, LoginRemote(x, payload, now, canSend), x) {
      var stage, marks :| w'.loginTasks == w.loginTasks[w.nextTask := LoginTask(x, stage, marks)];
      NewLoginOwner(w.loginTasks, w.nextTask, LoginTask(x, stage, marks), id);
    }
  }

  lemma NewLoginOwner(tasks: map<nat, LoginTask>, t: nat, task: LoginTask, id: nat)
    requires t !in tasks
    ensures |LoginTasksOf(tasks[t := task], id)| == |LoginTasksOf(tasks, id)| + if task.session == id then 1 else 0
  {
    if task.session == id {
      assert LoginTasksOf(tasks[t := task], id) == LoginTasksOf(tasks, id) + {t};
    } else {
      assert LoginTasksOf(tasks[t := task], id) == LoginTasksOf(tasks, id);
    }
  }

  lemma LoginReportBalance(w: World, t: nat, id: nat, started: nat)
    requires t in w.loginTasks && w.loginTasks[t].stage.Reporting? && LoginBalance(w, id, started)
    ensures LoginBalance(DoLoginReport(w, t), id, started)
  {
    var w' := DoLoginReport(w, t);
    if w.loginTasks[t].session == id {
      assert LoginTasksOf(w.loginTasks, id) == LoginTasksOf(w'.loginTasks, id) + {t};
    } else {
      assert LoginTasksOf(w'.loginTasks, id) == LoginTasksOf(w.loginTasks, id);
    }
  }

  lemma LoginLifeBalance(w: World, e: Lifecycle<L.Core>, id: nat, started: nat)
    requires SessionServer.Inv(w.login) && SessionServer.Can(w.login, e) && LoginBalance(w, id, started)
    ensures LoginBalance(w.(login := SessionServer.Do(w.login, e)), id, started)
  {
  }

  lemma SameLoginOwner(tasks: map<nat, LoginTask>, t: nat, task: LoginTask, id: nat)
    requires t in tasks && tasks[t].session == task.session
    ensures LoginTasksOf(tasks[t := task], id) == LoginTasksOf(tasks, id)
  {
  }

  lemma LoginInnerBalance(w: World, x: nat, now: Instant, canSend: bool, id: nat, started: nat)
    requires IsArmed(w.login, x) && w.login.sessions[x].inner != [] && LoginBalance(w, id, started)
    ensures LoginBalance(DoLoginInner(w, x, now, canSend), id, started)
  {
  }

  lemma MovedBalance(w: World, w': World, t: nat, id: nat, started: nat)
    requires TaskMoved(w, w', t) && LoginBalance(w, id, started)
    ensures LoginBalance(w', id, started)
  {
    SameLoginOwner(w.loginTasks, t, w'.loginTasks[t], id);
  }

  lemma TaskStepBalance(env: Env, w: World, step: Step, id: nat, started: nat)
    requires Protocol.Can(env, w, step) && (step.Find? || step.Check? || step.Touch? || step.Issue?)
    requires LoginBalance(w, id, started)
    ensures LoginBalance(Protocol.Do(env, w, step), id, started)
  {
    if step.Find? {
      FindMoves(w, step.task, step.reply);
    } else if step.Check? {
      CheckMoves(env, w, step.task, step.crashed);
    } else if step.Touch? {
      TouchMoves(w, step.task, step.ok);
    } else {
      IssueMoves(env, w, step.task, step.uuid, step.stored, step.acked);
    }
    MovedBalance(w, Protocol.Do(env, w, step), step.task, id, started);
  }

  lemma LoginElsewhere(env: Env, w: World, step: Step)
    requires Protocol.Can(env, w, step)
    requires !step.LoginRemote? && !step.LoginReport? && !step.LoginLife? && !step.LoginInner?
    requires !step.Find? && !step.Check? && !step.Touch? && !step.Issue?
    ensures Protocol.Do(env, w, step).login == w.login && Protocol.Do(env, w, step).loginTasks == w.loginTasks
  {
  }

  lemma LoginStepBalance(env: Env, w: World, step: Step, id: nat, started: nat)
    requires ProtocolInvariants.Inv(env, w) && Protocol.Can(env, w, step) && LoginBalance(w, id, started)
    ensures LoginBalance(Protocol.Do(env, w, step), id, if StartsLoginTask(w, step, id) then started + 1 else started)
  {
    if step.LoginRemote? {
      LoginRemoteBalance(w, step.id, step.payload, step.now, step.canSend, id, started);
    } else if step.LoginReport? {
      LoginReportBalance(w, step.task, id, started);
    } else if step.LoginLife? {
      LoginLifeBalance(w, step.life, id, started);
    } else if step.LoginInner? {
      LoginInnerBalance(w, step.id, step.now, step.canSend, id, started);
    } else if step.Find? || step.Check? || step.Touch? || step.Issue? {
      TaskStepBalance(env, w, step, id, started);
    } else {
      LoginElsewhere(env, w, step);
    }
  }

  /** The same for LoginServer and its authenticate tasks. */
  lemma {:induction false} LoginResultsConserved(env: Env, states: seq<World>, steps: seq<Step>, n: nat, id: nat)
    requires IsTrace(env, states, steps) && n < |states|
    ensures LoginBalance(states[n], id, LoginStarts(states, steps, n, id))
  {
    if n == 0 {
    } else {
      var w, step, started := states[n - 1], steps[n - 1], LoginStarts(states, steps, n - 1, id);
      assert Linked(env, states, steps, n - 1);
      TraceInv(env, states, steps, n - 1);
      LoginResultsConserved(env, states, steps, n - 1, id);
      LoginStepBalance(env, w, step, id, started);
    }
  }
}
