/**
 Provenance in terms of the steps themselves: which step each participant took before a token could be
 stored, and before a session could be authenticated.  Nothing here relies on what a step logs about
 itself, other than that something was stored or authenticated at all.
 */
module ProtocolSteps {
  import opened Prelude
  import opened Messages
  import opened TokenValue
  import opened SessionServer
  import opened Protocol
  import opened ProtocolHistory
  import opened ProtocolInvariants
  import R = RegistrySpec
  import L = LoginSession
  import G = GameSession

  type Steps = seq<Step>
  type Worlds = seq<World>

  ghost predicate Rising(p: seq<nat>, n: nat) {
    (forall i, j | 0 <= i < j < |p| :: p[i] < p[j]) && forall i | 0 <= i < |p| :: p[i] < n
  }

  // ---------------------------------------------------------------- an authenticate task

  /** The request that started task `t`. */
  predicate Asks(w: World, step: Step, t: nat, session: nat, userId: string, hash: Bytes) {
    step.LoginRemote? && step.id == session && step.payload == Some(LoginRequest(userId, hash)) && w.nextTask == t
  }

  /**
   The first |p| of the steps of task `t`, all before `n`: it was asked for, its row was found, the
   password matched and the account was not banned, and the last login was updated.
   */
  ghost predicate Climbed(env: Env, states: Worlds, steps: Steps, p: seq<nat>, n: nat, t: nat, session: nat,
                          userId: string, hash: Bytes, row: Row)
    requires |states| == |steps| + 1
  {
    && 1 <= |p| <= 4 && Rising(p, n) && n <= |steps|
    && Asks(states[p[0]], steps[p[0]], t, session, userId, hash)
    && (|p| >= 2 ==> steps[p[1]] == Find(t, Found(row)))
    && (|p| >= 3 ==>
          steps[p[2]] == Check(t, false) && env.verify(hash, row.passwordHash, row.salt) == Matches && row.status != 1)
    && (|p| >= 4 ==> steps[p[3]] == Touch(t, true))
  }

  /**
   The step that gave the task its outcome, after `done` of the steps above: not found, or a wrong
   password, is Failure(1); banned, Failure(2); a token that was not stored, or whose store was not
   confirmed, Failure(3); an error on the way, DbError.
   */
  predicate Concludes(env: Env, step: Step, done: nat, t: nat, hash: Bytes, row: Row, outcome: L.LoginOutcome) {
    match step
    case Find(u, NotFound) => u == t && done == 1 && outcome == L.Failure(1)
    case Find(u, FindFailed) => u == t && done == 1 && outcome == L.DbError
    case Check(u, crashed) =>
      && u == t && done == 2
      && var verdict := env.verify(hash, row.passwordHash, row.salt);
         if crashed || verdict == Malformed then outcome == L.DbError
         else if verdict == Differs then outcome == L.Failure(1)
         else row.status == 1 && outcome == L.Failure(2)
    case Touch(u, ok) => u == t && done == 3 && !ok && outcome == L.DbError
    case Issue(u, uuid, stored, acked) =>
      u == t && done == 4 && outcome == if stored && acked then L.Success(row.userId, uuid) else L.Failure(3)
    case _ => false
  }

  ghost predicate Stands(env: Env, states: Worlds, steps: Steps, n: nat, t: nat, task: LoginTask)
    requires |states| == |steps| + 1
  {
    match task.stage
    case Finding(c) =>
      exists p, row :: |p| == 1 && Climbed(env, states, steps, p, n, t, task.session, c.userId, c.passwordHash, row)
    case Checking(row, hash) =>
      exists p, userId :: |p| == 2 && Climbed(env, states, steps, p, n, t, task.session, userId, hash, row)
    case Touching(row) =>
      exists p, userId, hash :: |p| == 3 && Climbed(env, states, steps, p, n, t, task.session, userId, hash, row)
    case Issuing(row) =>
      exists p, userId, hash :: |p| == 4 && Climbed(env, states, steps, p, n, t, task.session, userId, hash, row)
    case Reporting(outcome) =>
      exists k: nat, p, userId, hash, row ::
        k < n <= |steps| && Climbed(env, states, steps, p, k, t, task.session, userId, hash, row) &&
        Concludes(env, steps[k], |p|, t, hash, row, outcome)
  }

  lemma Longer(env: Env, states: Worlds, steps: Steps, p: seq<nat>, n: nat, t: nat, session: nat,
               userId: string, hash: Bytes, row: Row)
    requires |states| == |steps| + 1 && n < |steps|
    requires Climbed(env, states, steps, p, n, t, session, userId, hash, row)
    ensures Climbed(env, states, steps, p, n + 1, t, session, userId, hash, row)
  {
  }

  lemma StandsLater(env: Env, states: Worlds, steps: Steps, n: nat, t: nat, task: LoginTask)
    requires |states| == |steps| + 1 && n < |steps| && Stands(env, states, steps, n, t, task)
    ensures Stands(env, states, steps, n + 1, t, task)
  {
    match task.stage
    case Finding(c) =>
      var p, row :| |p| == 1 && Climbed(env, states, steps, p, n, t, task.session, c.userId, c.passwordHash, row);
      Longer(env, states, steps, p, n, t, task.session, c.userId, c.passwordHash, row);
    case Checking(row, hash) =>
      var p, userId :| |p| == 2 && Climbed(env, states, steps, p, n, t, task.session, userId, hash, row);
      Longer(env, states, steps, p, n, t, task.session, userId, hash, row);
    case Touching(row) =>
      var p, userId, hash :| |p| == 3 && Climbed(env, states, steps, p, n, t, task.session, userId, hash, row);
      Longer(env, states, steps, p, n, t, task.session, userId, hash, row);
    case Issuing(row) =>
      var p, userId, hash :| |p| == 4 && Climbed(env, states, steps, p, n, t, task.session, userId, hash, row);
      Longer(env, states, steps, p, n, t, task.session, userId, hash, row);
    case Reporting(_) =>
  }

  lemma NextRung(env: Env, states: Worlds, steps: Steps, p: seq<nat>, n: nat, t: nat, session: nat,
                 userId: string, hash: Bytes, row: Row, row': Row)
    requires |states| == |steps| + 1 && n < |steps| && |p| <= 3
    requires Climbed(env, states, steps, p, n, t, session, userId, hash, row) && (|p| >= 2 ==> row' == row)
    requires |p| == 1 ==> steps[n] == Find(t, Found(row'))
    requires |p| == 2 ==>
               steps[n] == Check(t, false) && env.verify(hash, row.passwordHash, row.salt) == Matches && row.status != 1
    requires |p| == 3 ==> steps[n] == Touch(t, true)
    ensures Climbed(env, states, steps, p + [n], n + 1, t, session, userId, hash, row')
  {
  }

  lemma FindStands(env: Env, states: Worlds, steps: Steps, n: nat, t: nat, reply: FindReply)
    requires |states| == |steps| + 1 && n < |steps| && Linked(env, states, steps, n) && steps[n] == Find(t, reply)
    requires Stands(env, states, steps, n, t, states[n].loginTasks[t])
    ensures Stands(env, states, steps, n + 1, t, states[n + 1].loginTasks[t])
  {
    var task := states[n].loginTasks[t];
    var c := task.stage.credentials;
    var p, row :| |p| == 1 && Climbed(env, states, steps, p, n, t, task.session, c.userId, c.passwordHash, row);
    if reply.Found? {
      NextRung(env, states, steps, p, n, t, task.session, c.userId, c.passwordHash, row, reply.row);
      assert |p + [n]| == 2;
    } else {
      assert Concludes(env, steps[n], |p|, t, c.passwordHash, row, states[n + 1].loginTasks[t].stage.outcome);
    }
  }

  /** What a check leads to. */
  lemma CheckResult(env: Env, w: World, t: nat, crashed: bool)
    requires Protocol.Can(env, w, Check(t, crashed))
    ensures var Checking(row, hash), stage := w.loginTasks[t].stage, DoCheck(env, w, t, crashed).loginTasks[t].stage;
            && DoCheck(env, w, t, crashed).loginTasks[t].session == w.loginTasks[t].session
            && (stage == Touching(row) || stage.Reporting?)
            && (stage == Touching(row) ==>
                  !crashed && env.verify(hash, row.passwordHash, row.salt) == Matches && row.status != 1)
            && (stage.Reporting? ==> Concludes(env, Check(t, crashed), 2, t, hash, row, stage.outcome))
  {
  }

  lemma CheckStands(env: Env, states: Worlds, steps: Steps, n: nat, t: nat, crashed: bool)
    requires |states| == |steps| + 1 && n < |steps| && Linked(env, states, steps, n) && steps[n] == Check(t, crashed)
    requires Stands(env, states, steps, n, t, states[n].loginTasks[t])
    ensures Stands(env, states, steps, n + 1, t, states[n + 1].loginTasks[t])
  {
    var task := states[n].loginTasks[t];
    var Checking(row, hash) := task.stage;
    var p, userId :| |p| == 2 && Climbed(env, states, steps, p, n, t, task.session, userId, hash, row);
    CheckResult(env, states[n], t, crashed);
    var after := states[n + 1].loginTasks[t];
    assert after == DoCheck(env, states[n], t, crashed).loginTasks[t];
    if after.stage.Touching? {
      NextRung(env, states, steps, p, n, t, task.session, userId, hash, row, row);
      assert |p + [n]| == 3;
    } else {
      assert Concludes(env, steps[n], |p|, t, hash, row, after.stage.outcome);
    }
  }

  lemma TouchStands(env: Env, states: Worlds, steps: Steps, n: nat, t: nat, ok: bool)
    requires |states| == |steps| + 1 && n < |steps| && Linked(env, states, steps, n) && steps[n] == Touch(t, ok)
    requires Stands(env, states, steps, n, t, states[n].loginTasks[t])
    ensures Stands(env, states, steps, n + 1, t, states[n + 1].loginTasks[t])
  {
    var task := states[n].loginTasks[t];
    var row := task.stage.row;
    var p, userId, hash :| |p| == 3 && Climbed(env, states, steps, p, n, t, task.session, userId, hash, row);
    if ok {
      NextRung(env, states, steps, p, n, t, task.session, userId, hash, row, row);
      assert |p + [n]| == 4;
    } else {
      assert Concludes(env, steps[n], |p|, t, hash, row, states[n + 1].loginTasks[t].stage.outcome);
    }
  }

  /** What a store leads to. */
  lemma IssueResult(env: Env, w: World, t: nat, uuid: string, stored: bool, acked: bool, hash: Bytes)
    requires Protocol.Can(env, w, Issue(t, uuid, stored, acked))
    ensures var task, after := w.loginTasks[t], DoIssue(env, w, t, uuid, stored, acked).loginTasks[t];
            && after.session == task.session && after.stage.Reporting?
            && Concludes(env, Issue(t, uuid, stored, acked), 4, t, hash, task.stage.row, after.stage.outcome)
  {
  }

  lemma IssueStands(env: Env, states: Worlds, steps: Steps, n: nat, t: nat)
    requires |states| == |steps| + 1 && n < |steps| && Linked(env, states, steps, n)
    requires steps[n].Issue? && steps[n].task == t
    requires Stands(env, states, steps, n, t, states[n].loginTasks[t])
    ensures Stands(env, states, steps, n + 1, t, states[n + 1].loginTasks[t])
  {
    var task := states[n].loginTasks[t];
    var row := task.stage.row;
    var p, userId, hash :| |p| == 4 && Climbed(env, states, steps, p, n, t, task.session, userId, hash, row);
    var Issue(_, uuid, stored, acked) := steps[n];
    IssueResult(env, states[n], t, uuid, stored, acked, hash);
    var after := states[n + 1].loginTasks[t];
    assert after == DoIssue(env, states[n], t, uuid, stored, acked).loginTasks[t];
    assert Concludes(env, steps[n], |p|, t, hash, row, after.stage.outcome);
  }

  lemma AskStands(env: Env, states: Worlds, steps: Steps, n: nat, t: nat)
    requires |states| == |steps| + 1 && n < |steps| && Linked(env, states, steps, n) && steps[n].LoginRemote?
    requires t in states[n + 1].loginTasks
    requires t in states[n].loginTasks ==> Stands(env, states, steps, n, t, states[n].loginTasks[t])
    ensures Stands(env, states, steps, n + 1, t, states[n + 1].loginTasks[t])
  {
    var task := states[n + 1].loginTasks[t];
    if t in states[n].loginTasks && task == states[n].loginTasks[t] {
      StandsLater(env, states, steps, n, t, task);
    } else {
      var c := task.stage.credentials;
      assert Asks(states[n], steps[n], t, task.session, c.userId, c.passwordHash);
      assert |[n]| == 1 && Climbed(env, states, steps, [n], n + 1, t, task.session, c.userId, c.passwordHash,
                                   Row(0, "", "", "", 0));
    }
  }

  /** Every step leaves every task standing on the steps that brought it there. */
  lemma StandsNext(env: Env, states: Worlds, steps: Steps, n: nat, t: nat)
    requires IsTrace(env, states, steps) && n < |steps|
    requires t in states[n + 1].loginTasks
    requires t in states[n].loginTasks ==> Stands(env, states, steps, n, t, states[n].loginTasks[t])
    ensures Stands(env, states, steps, n + 1, t, states[n + 1].loginTasks[t])
  {
    var step := steps[n];
    assert Linked(env, states, steps, n);
    if step.LoginRemote? {
      AskStands(env, states, steps, n, t);
    } else if step.Find? && step.task == t {
      FindStands(env, states, steps, n, t, step.reply);
    } else if step.Check? && step.task == t {
      CheckStands(env, states, steps, n, t, step.crashed);
    } else if step.Touch? && step.task == t {
      TouchStands(env, states, steps, n, t, step.ok);
    } else if step.Issue? && step.task == t {
      IssueStands(env, states, steps, n, t);
    } else {
      OtherTaskSame(env, states[n], step, t);
      StandsLater(env, states, steps, n, t, states[n].loginTasks[t]);
    }
  }

  lemma OtherTaskSame(env: Env, w: World, step: Step, t: nat)
    requires Protocol.Can(env, w, step) && t in Protocol.Do(env, w, step).loginTasks && !step.LoginRemote?
    requires (step.Find? || step.Check? || step.Touch? || step.Issue?) ==> step.task != t
    ensures t in w.loginTasks && Protocol.Do(env, w, step).loginTasks[t] == w.loginTasks[t]
  {
    match step
    case Find(u, reply) => FindMoves(w, u, reply);
    case Check(u, crashed) => CheckMoves(env, w, u, crashed);
    case Touch(u, ok) => TouchMoves(w, u, ok);
    case Issue(u, uuid, stored, acked) => IssueMoves(env, w, u, uuid, stored, acked);
    case LoginReport(_) =>
    case _ => NoLoginTask(env, w, step);
  }

  lemma NoLoginTask(env: Env, w: World, step: Step)
    requires Protocol.Can(env, w, step) && !step.LoginRemote? && !step.LoginReport?
    requires !step.Find? && !step.Check? && !step.Touch? && !step.Issue?
    ensures Protocol.Do(env, w, step).loginTasks == w.loginTasks
  {
  }

  lemma {:induction false} TasksStand(env: Env, states: Worlds, steps: Steps, n: nat, t: nat)
    requires IsTrace(env, states, steps) && n < |states| && t in states[n].loginTasks
    ensures Stands(env, states, steps, n, t, states[n].loginTasks[t])
  {
    if n == 0 {
    } else {
      if t in states[n - 1].loginTasks {
        TasksStand(env, states, steps, n - 1, t);
      }
      StandsNext(env, states, steps, n - 1, t);
    }
  }

  /** A task that reports an outcome was brought to it by its steps, and by the last of them. */
  lemma OutcomesAreExplained(env: Env, states: Worlds, steps: Steps, n: nat, t: nat)
    requires IsTrace(env, states, steps) && n < |states| && t in states[n].loginTasks
    requires states[n].loginTasks[t].stage.Reporting?
    ensures exists k: nat, p, userId, hash, row ::
              k < n && Climbed(env, states, steps, p, k, t, states[n].loginTasks[t].session, userId, hash, row) &&
              Concludes(env, steps[k], |p|, t, hash, row, states[n].loginTasks[t].stage.outcome)
  {
    TasksStand(env, states, steps, n, t);
  }

  // ---------------------------------------------------------------- a stored token

  /** Before `n`, a task took all its steps for `row` and then stored `key` with the row's value. */
  ghost predicate IssuedBySteps(env: Env, states: Worlds, steps: Steps, n: nat, key: Key, value: string, row: Row)
    requires |states| == |steps| + 1
  {
    exists k: nat, p, t, session, userId, hash, uuid, acked ::
      && k < n <= |steps| && |p| == 4 && Climbed(env, states, steps, p, k, t, session, userId, hash, row)
      && IsIssue(steps[k], t, uuid, acked)
      && key == env.loginPrefix + uuid && value == Format(Account(row.accountId, row.userId))
  }

  predicate IsIssue(step: Step, t: nat, uuid: string, acked: bool) {
    step == Issue(t, uuid, true, acked)
  }

  ghost predicate StoreEarned(env: Env, states: Worlds, steps: Steps, n: nat, key: Key, value: string)
    requires |states| == |steps| + 1
  {
    exists row :: IssuedBySteps(env, states, steps, n, key, value, row)
  }

  /** Which steps log what. */
  predicate LoggedBy(step: Step, e: Event) {
    match e
    case Requested(_, _, _) => step.LoginRemote?
    case Fetched(_, _) => step.Find?
    case Verified(_, _, _) => step.Check?
    case Touched(_, _) => step.Touch?
    case Stored(_, _, _) => step.Issue?
    case Authenticated(_, _, _) => step.GameInner?
  }

  lemma LogStep(env: Env, w: World, step: Step, i: nat)
    requires Protocol.Can(env, w, step) && |w.log| <= i < |Protocol.Do(env, w, step).log|
    ensures i == |w.log| && LoggedBy(step, Protocol.Do(env, w, step).log[i])
  {
    match step
    case LoginRemote(_, _, _, _) =>
    case Find(_, _) =>
    case Check(_, _) =>
    case Touch(_, _) =>
    case Issue(_, _, _, _) =>
    case GameInner(_, _, _) =>
    case _ =>
  }

  lemma StoreStep(env: Env, w: World, t: nat, uuid: string, stored: bool, acked: bool, i: nat)
    requires Protocol.Can(env, w, Issue(t, uuid, stored, acked))
    requires |w.log| <= i < |DoIssue(env, w, t, uuid, stored, acked).log|
    ensures var row, e := w.loginTasks[t].stage.row, DoIssue(env, w, t, uuid, stored, acked).log[i];
            && stored
            && e == Stored(t, env.loginPrefix + uuid, Format(Account(row.accountId, row.userId)))
  {
  }

  lemma NewStore(env: Env, states: Worlds, steps: Steps, n: nat, i: nat)
    requires IsTrace(env, states, steps) && n < |steps|
    requires |states[n].log| <= i < |states[n + 1].log| && states[n + 1].log[i].Stored?
    ensures StoreEarned(env, states, steps, n + 1, states[n + 1].log[i].key, states[n + 1].log[i].value)
  {
    assert Linked(env, states, steps, n);
    LogStep(env, states[n], steps[n], i);
    var Issue(t, uuid, stored, acked) := steps[n];
    StoreStep(env, states[n], t, uuid, stored, acked, i);
    TasksStand(env, states, steps, n, t);
    var row, session := states[n].loginTasks[t].stage.row, states[n].loginTasks[t].session;
    var p, userId, hash :| |p| == 4 && Climbed(env, states, steps, p, n, t, session, userId, hash, row);
    assert IsIssue(steps[n], t, uuid, acked);
    assert IssuedBySteps(env, states, steps, n + 1, states[n + 1].log[i].key, states[n + 1].log[i].value, row);
  }

  lemma LogKept(env: Env, states: Worlds, steps: Steps, n: nat)
    requires IsTrace(env, states, steps) && n < |steps|
    ensures states[n].log <= states[n + 1].log
  {
    assert Linked(env, states, steps, n);
    StepGrows(env, states[n], steps[n]);
  }

  /** Whatever was stored was stored by a task that took every step, in order, for the row it stored. */
  lemma {:induction false} StoresAreEarned(env: Env, states: Worlds, steps: Steps, n: nat, i: nat)
    requires IsTrace(env, states, steps) && n < |states| && i < |states[n].log| && states[n].log[i].Stored?
    ensures StoreEarned(env, states, steps, n, states[n].log[i].key, states[n].log[i].value)
  {
    if n == 0 {
    } else {
      LogKept(env, states, steps, n - 1);
      if i < |states[n - 1].log| {
        StoresAreEarned(env, states, steps, n - 1, i);
        var e := states[n - 1].log[i];
        var row :| IssuedBySteps(env, states, steps, n - 1, e.key, e.value, row);
        assert IssuedBySteps(env, states, steps, n, e.key, e.value, row);
      } else {
        NewStore(env, states, steps, n - 1, i);
      }
    }
  }

  // ---------------------------------------------------------------- a token on its way through GameServer

  /** The request with which a session presented its token, and so started task `t`. */
  predicate Presents(w: World, step: Step, t: nat, session: nat, token: string) {
    step.GameRemote? && step.id == session && step.payload == Some(GameConnectRequest(token)) && w.nextTask == t
  }

  /** The session presented the token, its task took `value` from Redis, and the result was sent on. */
  ghost predicate Carried(env: Env, states: Worlds, steps: Steps, q: seq<nat>, n: nat, t: nat, session: nat,
                          token: string, value: string)
    requires |states| == |steps| + 1
  {
    && 2 <= |q| <= 3 && Rising(q, n) && n <= |steps|
    && Presents(states[q[0]], steps[q[0]], t, session, token)
    && steps[q[1]] == Take(t, true, true) && Get(states[q[1]].redis, env.gamePrefix + token) == Some(value)
    && (|q| == 3 ==> steps[q[2]] == GameReport(t))
  }

  ghost predicate Shown(env: Env, states: Worlds, steps: Steps, n: nat, t: nat, task: GameTask)
    requires |states| == |steps| + 1
  {
    if task.Working? then
      task.work.TakeToken? ==>
        exists k: nat :: k < n <= |steps| && Presents(states[k], steps[k], t, task.session, task.work.token)
    else
      task.result.token.Some? ==>
        exists q, token, value ::
          && |q| == 2 && Carried(env, states, steps, q, n, t, task.session, token, value)
          && task.result == Tagged(G.TokenTaken(Some(value)), Some(env.gamePrefix + token))
  }

  ghost predicate MessageShown(env: Env, states: Worlds, steps: Steps, n: nat, id: nat, m: Tagged)
    requires |states| == |steps| + 1
  {
    m.token.Some? ==>
      exists q, t, token, value ::
        && |q| == 3 && Carried(env, states, steps, q, n, t, id, token, value)
        && m == Tagged(G.TokenTaken(Some(value)), Some(env.gamePrefix + token))
  }

  lemma CarriedLater(env: Env, states: Worlds, steps: Steps, q: seq<nat>, n: nat, t: nat, session: nat,
                     token: string, value: string)
    requires |states| == |steps| + 1 && n < |steps| && Carried(env, states, steps, q, n, t, session, token, value)
    ensures Carried(env, states, steps, q, n + 1, t, session, token, value)
    ensures |q| == 2 && steps[n] == GameReport(t) ==>
              Carried(env, states, steps, q + [n], n + 1, t, session, token, value)
  {
  }

  lemma ShownLater(env: Env, states: Worlds, steps: Steps, n: nat, t: nat, task: GameTask)
    requires |states| == |steps| + 1 && n < |steps| && Shown(env, states, steps, n, t, task)
    ensures Shown(env, states, steps, n + 1, t, task)
  {
    if task.Sending? && task.result.token.Some? {
      var q, token, value :|
        && |q| == 2 && Carried(env, states, steps, q, n, t, task.session, token, value)
        && task.result == Tagged(G.TokenTaken(Some(value)), Some(env.gamePrefix + token));
      CarriedLater(env, states, steps, q, n, t, task.session, token, value);
    }
  }

  lemma TakeShows(env: Env, states: Worlds, steps: Steps, n: nat, t: nat)
    requires |states| == |steps| + 1 && n < |steps| && Linked(env, states, steps, n)
    requires steps[n].Take? && steps[n].task == t && Shown(env, states, steps, n, t, states[n].gameTasks[t])
    ensures Shown(env, states, steps, n + 1, t, states[n + 1].gameTasks[t])
  {
    var before, after := states[n].gameTasks[t], states[n + 1].gameTasks[t];
    if after.result.token.Some? {
      var token := before.work.token;
      var value := states[n].redis[env.gamePrefix + token];
      var k: nat :| k < n <= |steps| && Presents(states[k], steps[k], t, before.session, token);
      assert |[k, n]| == 2 && Carried(env, states, steps, [k, n], n + 1, t, before.session, token, value);
    }
  }

  lemma ShownNext(env: Env, states: Worlds, steps: Steps, n: nat, t: nat)
    requires IsTrace(env, states, steps) && n < |steps|
    requires t in states[n + 1].gameTasks
    requires t in states[n].gameTasks ==> Shown(env, states, steps, n, t, states[n].gameTasks[t])
    ensures Shown(env, states, steps, n + 1, t, states[n + 1].gameTasks[t])
  {
    var step, after := steps[n], states[n + 1].gameTasks[t];
    assert Linked(env, states, steps, n);
    if t in states[n].gameTasks && after == states[n].gameTasks[t] {
      ShownLater(env, states, steps, n, t, after);
    } else if step.GameRemote? {
      NewGameTask(states[n], step.id, step.payload, step.now, step.canSend, t);
      assert after.work.TakeToken? ==> Presents(states[n], steps[n], t, after.session, after.work.token);
    } else {
      GameTaskMoves(env, states[n], step, t);
      if step.Take? {
        TakeShows(env, states, steps, n, t);
      }
    }
  }

  lemma NewGameTask(w: World, id: nat, payload: Option<Payload>, now: Instant, canSend: bool, t: nat)
    requires IsArmed(w.game, id)
    requires var w' := DoGameRemote(w, id, payload, now, canSend);
             t in w'.gameTasks && (t in w.gameTasks ==> w'.gameTasks[t] != w.gameTasks[t])
    ensures var task := DoGameRemote(w, id, payload, now, canSend).gameTasks[t];
            && t == w.nextTask && task.Working? && task.session == id
            && (task.work.TakeToken? ==> payload == Some(GameConnectRequest(task.work.token)))
  {
  }

  lemma GameTaskMoves(env: Env, w: World, step: Step, t: nat)
    requires Protocol.Can(env, w, step) && !step.GameRemote? && t in Protocol.Do(env, w, step).gameTasks
    requires t in w.gameTasks ==> Protocol.Do(env, w, step).gameTasks[t] != w.gameTasks[t]
    ensures (step.Take? || step.Save?) && step.task == t && t in w.gameTasks
    ensures var after := Protocol.Do(env, w, step).gameTasks[t];
            step.Save? ==> after.Sending? && after.result.token.None?
  {
  }

  lemma {:induction false} TasksShown(env: Env, states: Worlds, steps: Steps, n: nat, t: nat)
    requires IsTrace(env, states, steps) && n < |states| && t in states[n].gameTasks
    ensures Shown(env, states, steps, n, t, states[n].gameTasks[t])
  {
    if n == 0 {
    } else {
      if t in states[n - 1].gameTasks {
        TasksShown(env, states, steps, n - 1, t);
      }
      ShownNext(env, states, steps, n - 1, t);
    }
  }

  lemma MessageShownLater(env: Env, states: Worlds, steps: Steps, n: nat, id: nat, m: Tagged)
    requires |states| == |steps| + 1 && n < |steps| && MessageShown(env, states, steps, n, id, m)
    ensures MessageShown(env, states, steps, n + 1, id, m)
  {
    if m.token.Some? {
      var q, t, token, value :|
        && |q| == 3 && Carried(env, states, steps, q, n, t, id, token, value)
        && m == Tagged(G.TokenTaken(Some(value)), Some(env.gamePrefix + token));
      CarriedLater(env, states, steps, q, n, t, id, token, value);
    }
  }

  lemma ReportShows(env: Env, states: Worlds, steps: Steps, n: nat, t: nat)
    requires IsTrace(env, states, steps) && n < |steps| && steps[n] == GameReport(t)
    requires t in states[n].gameTasks && states[n].gameTasks[t].Sending?
    ensures MessageShown(env, states, steps, n + 1, states[n].gameTasks[t].session, states[n].gameTasks[t].result)
  {
    TasksShown(env, states, steps, n, t);
    var Sending(id, m) := states[n].gameTasks[t];
    if m.token.Some? {
      var q, token, value :|
        && |q| == 2 && Carried(env, states, steps, q, n, t, id, token, value)
        && m == Tagged(G.TokenTaken(Some(value)), Some(env.gamePrefix + token));
      CarriedLater(env, states, steps, q, n, t, id, token, value);
      assert |q + [n]| == 3;
    }
  }

  /** Where a message in a channel was one step earlier. */
  lemma MessageBefore(env: Env, w: World, step: Step, id: nat, i: nat)
    requires Protocol.Can(env, w, step)
    requires var s := Protocol.Do(env, w, step).game.sessions; id in s && i < |s[id].inner|
    ensures var m := Protocol.Do(env, w, step).game.sessions[id].inner[i];
            || (id in w.game.sessions && i < |w.game.sessions[id].inner| && m == w.game.sessions[id].inner[i])
            || (id in w.game.sessions && i + 1 < |w.game.sessions[id].inner| && m == w.game.sessions[id].inner[i + 1])
            || (step.GameReport? && w.gameTasks[step.task] == Sending(id, m))
  {
    match step
    case GameLife(e) => LifeKeepsInner(w.game, e, id);
    case GameReport(t) => ReportInner(w, t, id, i);
    case GameInner(x, now, canSend) => HandleInner(w, x, now, canSend, id);
    case GameRemote(x, payload, now, canSend) => RemoteInner(w, x, payload, now, canSend, id);
    case _ => GameUntouched(env, w, step);
  }

  lemma GameUntouched(env: Env, w: World, step: Step)
    requires Protocol.Can(env, w, step)
    requires !step.GameLife? && !step.GameReport? && !step.GameInner? && !step.GameRemote?
    ensures Protocol.Do(env, w, step).game == w.game
  {
  }

  lemma ReportInner(w: World, t: nat, id: nat, i: nat)
    requires t in w.gameTasks && w.gameTasks[t].Sending?
    requires var s := DoGameReport(w, t).game.sessions; id in s && i < |s[id].inner|
    ensures var m := DoGameReport(w, t).game.sessions[id].inner[i];
            || (id in w.game.sessions && i < |w.game.sessions[id].inner| && m == w.game.sessions[id].inner[i])
            || w.gameTasks[t] == Sending(id, m)
  {
  }

  lemma HandleInner(w: World, x: nat, now: Instant, canSend: bool, id: nat)
    requires IsArmed(w.game, x) && w.game.sessions[x].inner != [] && id in w.game.sessions
    ensures var inner := w.game.sessions[id].inner;
            DoGameInner(w, x, now, canSend).game.sessions[id].inner == if id == x then inner[1..] else inner
  {
  }

  lemma RemoteInner(w: World, x: nat, payload: Option<Payload>, now: Instant, canSend: bool, id: nat)
    requires IsArmed(w.game, x) && id in w.game.sessions
    ensures DoGameRemote(w, x, payload, now, canSend).game.sessions[id].inner == w.game.sessions[id].inner
  {
  }

  lemma LifeKeepsInner(game: Server<G.Core, Tagged>, e: Lifecycle<G.Core>, id: nat)
    requires SessionServer.Can(game, e) && id in SessionServer.Do(game, e).sessions
    ensures SessionServer.Do(game, e).sessions[id].inner == [] ||
            (id in game.sessions && SessionServer.Do(game, e).sessions[id].inner == game.sessions[id].inner)
  {
  }

  lemma MessageEarlier(env: Env, states: Worlds, steps: Steps, n: nat, id: nat, i: nat)
    requires IsTrace(env, states, steps) && n < |steps|
    requires id in states[n + 1].game.sessions && i < |states[n + 1].game.sessions[id].inner|
    ensures var before, m := states[n].game.sessions, states[n + 1].game.sessions[id].inner[i];
            || (id in before && i < |before[id].inner| && m == before[id].inner[i])
            || (id in before && i + 1 < |before[id].inner| && m == before[id].inner[i + 1])
            || (steps[n].GameReport? && steps[n].task in states[n].gameTasks &&
                states[n].gameTasks[steps[n].task] == Sending(id, m))
  {
    assert Linked(env, states, steps, n);
    MessageBefore(env, states[n], steps[n], id, i);
  }

  lemma {:induction false} MessagesShown(env: Env, states: Worlds, steps: Steps, n: nat, id: nat, i: nat)
    requires IsTrace(env, states, steps) && n < |states|
    requires id in states[n].game.sessions && i < |states[n].game.sessions[id].inner|
    ensures MessageShown(env, states, steps, n, id, states[n].game.sessions[id].inner[i])
  {
    if n == 0 {
    } else {
      var before, m := states[n - 1].game.sessions, states[n].game.sessions[id].inner[i];
      MessageEarlier(env, states, steps, n - 1, id, i);
      if id in before && i < |before[id].inner| && m == before[id].inner[i] {
        MessagesShown(env, states, steps, n - 1, id, i);
        MessageShownLater(env, states, steps, n - 1, id, m);
      } else if id in before && i + 1 < |before[id].inner| && m == before[id].inner[i + 1] {
        MessagesShown(env, states, steps, n - 1, id, i + 1);
        MessageShownLater(env, states, steps, n - 1, id, m);
      } else {
        ReportShows(env, states, steps, n - 1, steps[n - 1].task);
      }
    }
  }

  // ---------------------------------------------------------------- an authentication

  /** Before `n`, this session presented the token, it was taken and reported, and the result handled. */
  ghost predicate HandedOver(env: Env, states: Worlds, steps: Steps, n: nat, q: seq<nat>, m: nat, t: nat,
                             session: nat, token: string, value: string)
    requires |states| == |steps| + 1
  {
    && m < n <= |steps| && |q| == 3 && Carried(env, states, steps, q, m, t, session, token, value)
    && steps[m].GameInner? && steps[m].id == session
  }

  /** The whole story of an authentication, from the request to LoginServer to the result on GameServer. */
  ghost predicate Earned(env: Env, states: Worlds, steps: Steps, n: nat, session: nat, key: Key, account: Account)
    requires |states| == |steps| + 1
  {
    exists q: seq<nat>, m, t, token, value, row ::
      && HandedOver(env, states, steps, n, q, m, t, session, token, value) && key == env.gamePrefix + token
      && IssuedBySteps(env, states, steps, q[1], key, value, row)
      && account == Account(row.accountId, row.userId)
  }

  predicate Holds(value: string, row: Row) {
    Parse(value) == Some(Account(row.accountId, row.userId))
  }

  lemma TakenWasIssued(env: Env, states: Worlds, steps: Steps, n: nat, key: Key, value: string)
    requires IsTrace(env, states, steps) && n < |states| && Get(states[n].redis, key) == Some(value)
    ensures exists row :: IssuedBySteps(env, states, steps, n, key, value, row) && Holds(value, row)
  {
    TraceInv(env, states, steps, n);
    var w := states[n];
    assert key in w.tokens && w.tokens[key].value == value;
    assert TokenTrail(env, w.log, key, w.tokens[key]);
    StoresAreEarned(env, states, steps, n, w.tokens[key].marks[4]);
    var row :| IssuedBySteps(env, states, steps, n, key, value, row);
    RoundTrip(Account(row.accountId, row.userId));
    assert IssuedBySteps(env, states, steps, n, key, value, row) && Holds(value, row);
  }

  lemma AuthenticationStep(w: World, id: nat, now: Instant, canSend: bool, i: nat)
    requires IsArmed(w.game, id) && w.game.sessions[id].inner != []
    requires |w.log| <= i < |DoGameInner(w, id, now, canSend).log|
    ensures var e, m := DoGameInner(w, id, now, canSend).log[i], w.game.sessions[id].inner[0];
            && m.message.TokenTaken? && m.message.value.Some? && Parse(m.message.value.value).Some?
            && e == Authenticated(id, m.token, Parse(m.message.value.value).value)
  {
  }

  lemma AuthenticationHasToken(env: Env, states: Worlds, steps: Steps, n: nat, i: nat)
    requires IsTrace(env, states, steps) && n < |states| && i < |states[n].log| && states[n].log[i].Authenticated?
    ensures states[n].log[i].token.Some?
  {
    TraceInv(env, states, steps, n);
    assert AuthBacked(states[n].log, i, states[n].tokens);
  }

  /** The step that authenticates a session handles a token that was taken and that parses to the account. */
  lemma AuthenticatingMessage(env: Env, states: Worlds, steps: Steps, n: nat, i: nat)
    requires IsTrace(env, states, steps) && n < |steps|
    requires |states[n].log| <= i < |states[n + 1].log| && states[n + 1].log[i].Authenticated?
    ensures var e, sessions := states[n + 1].log[i], states[n].game.sessions;
            && e.token.Some? && steps[n].GameInner? && steps[n].id == e.session
            && e.session in sessions && sessions[e.session].inner != []
            && var Tagged(message, token) := sessions[e.session].inner[0];
               && token == e.token && message.TokenTaken? && message.value.Some?
               && Parse(message.value.value) == Some(e.account)
  {
    assert Linked(env, states, steps, n);
    LogStep(env, states[n], steps[n], i);
    AuthenticationStep(states[n], steps[n].id, steps[n].now, steps[n].canSend, i);
    AuthenticationHasToken(env, states, steps, n + 1, i);
  }

  lemma NewAuthentication(env: Env, states: Worlds, steps: Steps, n: nat, i: nat)
    requires IsTrace(env, states, steps) && n < |steps|
    requires |states[n].log| <= i < |states[n + 1].log| && states[n + 1].log[i].Authenticated?
    ensures var e := states[n + 1].log[i];
            e.token.Some? && Earned(env, states, steps, n + 1, e.session, e.token.value, e.account)
  {
    var id := states[n + 1].log[i].session;
    AuthenticatingMessage(env, states, steps, n, i);
    MessagesShown(env, states, steps, n, id, 0);
    var m := states[n].game.sessions[id].inner[0];
    var q, t, token, value :|
      && |q| == 3 && Carried(env, states, steps, q, n, t, id, token, value)
      && m == Tagged(G.TokenTaken(Some(value)), Some(env.gamePrefix + token));
    assert HandedOver(env, states, steps, n + 1, q, n, t, id, token, value);
    TakenWasIssued(env, states, steps, q[1], env.gamePrefix + token, value);
    var row :| IssuedBySteps(env, states, steps, q[1], env.gamePrefix + token, value, row) && Holds(value, row);
  }

  lemma EarnedLater(env: Env, states: Worlds, steps: Steps, n: nat, session: nat, key: Key, account: Account)
    requires |states| == |steps| + 1 && n < |steps| && Earned(env, states, steps, n, session, key, account)
    ensures Earned(env, states, steps, n + 1, session, key, account)
  {
    var q: seq<nat>, m, t, token, value, row :|
      && HandedOver(env, states, steps, n, q, m, t, session, token, value) && key == env.gamePrefix + token
      && IssuedBySteps(env, states, steps, q[1], key, value, row)
      && account == Account(row.accountId, row.userId);
    assert HandedOver(env, states, steps, n + 1, q, m, t, session, token, value);
  }

  /** Authentication `i` of the log after `n` steps was earned by those steps. */
  ghost predicate EarnedAt(env: Env, states: Worlds, steps: Steps, n: nat, i: nat)
    requires |states| == |steps| + 1 && n < |states| && i < |states[n].log| && states[n].log[i].Authenticated?
  {
    var e := states[n].log[i];
    e.token.Some? && Earned(env, states, steps, n, e.session, e.token.value, e.account)
  }

  lemma EarnedAtNext(env: Env, states: Worlds, steps: Steps, n: nat, i: nat)
    requires IsTrace(env, states, steps) && n < |steps|
    requires i < |states[n + 1].log| && states[n + 1].log[i].Authenticated?
    requires i < |states[n].log| && states[n].log[i].Authenticated? ==> EarnedAt(env, states, steps, n, i)
    ensures EarnedAt(env, states, steps, n + 1, i)
  {
    LogKept(env, states, steps, n);
    if i < |states[n].log| {
      var e := states[n].log[i];
      EarnedLater(env, states, steps, n, e.session, e.token.value, e.account);
    } else {
      NewAuthentication(env, states, steps, n, i);
    }
  }

  /**
   Provenance by steps.  Whenever a game session becomes authenticated, these steps were taken, in this
   order: a login request spawned a task; the task found a row with exactly this account_id and
   user_id, its password matched and it was not banned, its last login was updated, and the token was
   stored; this very session presented the token, it was taken from Redis, reported, and handled.
   */
  lemma {:induction false} ProvenanceBySteps(env: Env, states: Worlds, steps: Steps, n: nat, i: nat)
    requires IsTrace(env, states, steps) && n < |states| && i < |states[n].log| && states[n].log[i].Authenticated?
    ensures EarnedAt(env, states, steps, n, i)
  {
    if n == 0 {
    } else {
      if i < |states[n - 1].log| && states[n - 1].log[i].Authenticated? {
        ProvenanceBySteps(env, states, steps, n - 1, i);
      }
      EarnedAtNext(env, states, steps, n - 1, i);
    }
  }

  // ---------------------------------------------------------------- sessions run their handlers

  /**
   A step of a GameServer session runs its handler on that session alone, and ends its loop exactly
   when the request is not allowed or an answer cannot be queued.
   */
  lemma GameHandlers(w: World, id: nat, payload: Option<Payload>, now: Instant, canSend: bool)
    requires IsArmed(w.game, id)
    ensures var core, s := w.game.sessions[id].core, DoGameRemote(w, id, payload, now, canSend).game.sessions;
            && s == w.game.sessions[id := s[id]] && s[id].core == G.OnRemote(core, payload, now).core
            && (s[id].phase == Exiting <==>
                || (core.account.None? &&
                    !(payload.Some? && (payload.value.GameConnectRequest? || payload.value.KeepAliveRequest?)))
                || (!canSend && payload.Some? && G.AnsweredAtOnce(core, payload.value)))
  {
    var o := G.OnRemote(w.game.sessions[id].core, payload, now);
    assert DoGameRemote(w, id, payload, now, canSend).game ==
           Handle(w.game, id, o.core, G.FlowOf(o, canSend), o.authenticated, false);
  }

  lemma GameResultHandlers(w: World, id: nat, now: Instant, canSend: bool)
    requires IsArmed(w.game, id) && w.game.sessions[id].inner != []
    ensures var core, s := w.game.sessions[id].core, DoGameInner(w, id, now, canSend).game.sessions;
            && s == w.game.sessions[id := s[id]]
            && s[id].core == G.OnInner(core, w.game.sessions[id].inner[0].message, now).core
            && s[id].inner == w.game.sessions[id].inner[1..] && (s[id].phase == Exiting <==> !canSend)
  {
  }

  /** The same on LoginServer. */
  lemma LoginHandlers(w: World, id: nat, payload: Option<Payload>, now: Instant, canSend: bool)
    requires IsArmed(w.login, id)
    ensures var core, s := w.login.sessions[id].core, DoLoginRemote(w, id, payload, now, canSend).login.sessions;
            && s == w.login.sessions[id := s[id]] && s[id].core == L.OnRemote(core, payload, now).core
            && (s[id].phase == Exiting <==>
                || (core.account.None? &&
                    !(payload.Some? && (payload.value.LoginRequest? || payload.value.KeepAliveRequest?)))
                || (!canSend && payload.Some? && L.RefusedAtOnce(core, payload.value, now)))
  {
  }

  lemma LoginResultHandlers(w: World, id: nat, now: Instant, canSend: bool)
    requires IsArmed(w.login, id) && w.login.sessions[id].inner != []
    ensures var core, s := w.login.sessions[id].core, DoLoginInner(w, id, now, canSend).login.sessions;
            && s == w.login.sessions[id := s[id]]
            && s[id].core == L.OnLoginOutcome(core, w.login.sessions[id].inner[0], now).core
            && s[id].inner == w.login.sessions[id].inner[1..] && (s[id].phase == Exiting <==> !canSend)
  {
  }

  // ---------------------------------------------------------------- results and kicks

  /**
   What a token check reports: the value if the token was there and the reply arrived, nothing if it was
   not, and an error otherwise; the token is gone once the script has run.
   */
  lemma TakeReports(env: Env, w: World, t: nat, reached: bool, acked: bool)
    requires Protocol.Can(env, w, Take(t, reached, acked))
    ensures var key := env.gamePrefix + w.gameTasks[t].work.token;
            var w' := DoTake(env, w, t, reached, acked);
            && w'.gameTasks[t].Sending? && w'.gameTasks[t].session == w.gameTasks[t].session
            && var m := w'.gameTasks[t].result.message;
               && (m == G.DbError <==> !reached || !acked)
               && (reached && acked ==> m == G.TokenTaken(Get(w.redis, key)))
               && (forall k :: Get(w'.redis, k) == if reached && k == key then None else Get(w.redis, k))
  {
  }

  lemma SaveReports(env: Env, w: World, t: nat, ok: bool)
    requires Protocol.Can(env, w, Save(t, ok))
    ensures var after := DoSave(w, t, ok).gameTasks[t];
            && after.Sending? && after.session == w.gameTasks[t].session
            && (after.result.message == G.ScoreSaved <==> ok) && (after.result.message == G.DbError <==> !ok)
  {
  }

  predicate CancelsGame(w: World, step: Step, id: nat) {
    step.GameLife? &&
    (step.gameLife == Lifecycle<G.Core>.Cancel(id) ||
     (step.gameLife.Connect? && step.gameLife.cancelled && id == w.game.lastId + 1))
  }

  predicate CancelsLogin(w: World, step: Step, id: nat) {
    step.LoginLife? &&
    (step.life == Lifecycle<L.Core>.Cancel(id) ||
     (step.life.Connect? && step.life.cancelled && id == w.login.lastId + 1))
  }

  /** A session counts as cancelled from outside only if some step cancelled it. */
  lemma {:induction false} CancelledBySteps(env: Env, states: Worlds, steps: Steps, n: nat, id: nat)
    requires IsTrace(env, states, steps) && n < |states|
    ensures id in states[n].game.cancelled ==> exists k :: 0 <= k < n && CancelsGame(states[k], steps[k], id)
    ensures id in states[n].login.cancelled ==> exists k :: 0 <= k < n && CancelsLogin(states[k], steps[k], id)
  {
    if n == 0 {
    } else {
      CancelledBySteps(env, states, steps, n - 1, id);
      CancelledNext(env, states, steps, n - 1, id);
    }
  }

  lemma CancelledNext(env: Env, states: Worlds, steps: Steps, n: nat, id: nat)
    requires IsTrace(env, states, steps) && n < |steps|
    ensures id in states[n + 1].game.cancelled ==>
              id in states[n].game.cancelled || CancelsGame(states[n], steps[n], id)
    ensures id in states[n + 1].login.cancelled ==>
              id in states[n].login.cancelled || CancelsLogin(states[n], steps[n], id)
  {
    assert Linked(env, states, steps, n);
    CancelledByStep(env, states[n], steps[n], id);
  }

  lemma CancelledByStep(env: Env, w: World, step: Step, id: nat)
    requires Protocol.Can(env, w, step)
    ensures id in Protocol.Do(env, w, step).game.cancelled ==> id in w.game.cancelled || CancelsGame(w, step, id)
    ensures id in Protocol.Do(env, w, step).login.cancelled ==> id in w.login.cancelled || CancelsLogin(w, step, id)
  {
    if step.GameLife? || step.LoginLife? {
    } else {
      NoneCancelled(env, w, step);
    }
  }

  lemma NoneCancelled(env: Env, w: World, step: Step)
    requires Protocol.Can(env, w, step) && !step.GameLife? && !step.LoginLife?
    ensures Protocol.Do(env, w, step).game.cancelled == w.game.cancelled
    ensures Protocol.Do(env, w, step).login.cancelled == w.login.cancelled
  {
    if step.Find? || step.Check? || step.Touch? || step.Issue? || step.Take? || step.Save? || step.Expire? {
      ServersUntouched(env, w, step);
    }
  }

  lemma ServersUntouched(env: Env, w: World, step: Step)
    requires Protocol.Can(env, w, step)
    requires step.Find? || step.Check? || step.Touch? || step.Issue? || step.Take? || step.Save? || step.Expire?
    ensures Protocol.Do(env, w, step).game == w.game && Protocol.Do(env, w, step).login == w.login
  {
  }

  /**
   Who is kicked, on either server, over every run: a live session whose token some step cancelled from
   outside, or one that another session superseded by authenticating as a user whose last
   authenticator it was.  The session that authenticates is not kicked by it.
   */
  lemma KickedOnlyFor(env: Env, states: Worlds, steps: Steps, n: nat, id: nat)
    requires IsTrace(env, states, steps) && n < |states|
    ensures id in states[n].game.registry.kicked ==>
              Superseded(states[n].game.auths, id) || exists k :: 0 <= k < n && CancelsGame(states[k], steps[k], id)
    ensures id in states[n].login.registry.kicked ==>
              Superseded(states[n].login.auths, id) || exists k :: 0 <= k < n && CancelsLogin(states[k], steps[k], id)
    ensures id in states[n].game.sessions && Superseded(states[n].game.auths, id) ==>
              id in states[n].game.registry.kicked
    ensures id in states[n].login.sessions && Superseded(states[n].login.auths, id) ==>
              id in states[n].login.registry.kicked
  {
    TraceInv(env, states, steps, n);
    CancelledBySteps(env, states, steps, n, id);
    if id in states[n].game.sessions {
      KickedIff(states[n].game, id);
    }
    if id in states[n].login.sessions {
      KickedIff(states[n].login, id);
    }
  }

  /**
   In runs without outside cancellation of the session and with one authentication per session, the
   live session that a user maps to is active.
   */
  lemma MappedSessionIsActive(env: Env, states: Worlds, steps: Steps, n: nat, user: string, id: nat)
    requires IsTrace(env, states, steps) && n < |states| && OneAuthPerSession(states[n].game.auths)
    requires forall k | 0 <= k < n :: !CancelsGame(states[k], steps[k], id)
    requires Get(states[n].game.registry.authenticated, user) == Some(id)
    ensures R.Active(states[n].game.registry, id, user)
  {
    TraceInv(env, states, steps, n);
    CancelledBySteps(env, states, steps, n, id);
    MappedIsActive(states[n].game, user, id);
  }
}
