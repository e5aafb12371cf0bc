/** What LoginServer tells its clients: only tokens that were stored for them. */
module ProtocolReplies {
  import opened Prelude
  import opened Messages
  import opened TokenValue
  import opened SessionServer
  import opened Protocol
  import opened ProtocolHistory
  import opened ProtocolInvariants
  import L = LoginSession

  type LoginTasks = map<nat, LoginTask>
  type LoginSessions = map<nat, Session<L.Core, L.LoginOutcome>>

  predicate RequestedBy(log: seq<Event>, marks: seq<nat>, session: nat) {
    |marks| > 0 && marks[0] < |log| && log[marks[0]].Requested? && log[marks[0]].session == session
  }

  /** A success names a token stored for its user by a task that this session spawned. */
  predicate IssuedTo(env: Env, log: seq<Event>, tokens: map<Key, Token>, session: nat, outcome: L.LoginOutcome) {
    outcome.Success? ==>
      var key := env.loginPrefix + outcome.token;
      key in tokens && tokens[key].row.userId == outcome.userId && RequestedBy(log, tokens[key].marks, session)
  }

  predicate TaskHonest(env: Env, log: seq<Event>, tokens: map<Key, Token>, task: LoginTask) {
    RequestedBy(log, task.marks, task.session) &&
    (task.stage.Reporting? ==> IssuedTo(env, log, tokens, task.session, task.stage.outcome))
  }

  ghost predicate TasksHonest(env: Env, log: seq<Event>, tokens: map<Key, Token>, tasks: LoginTasks) {
    forall t {:trigger TaskHonest(env, log, tokens, tasks[t])} | t in tasks :: TaskHonest(env, log, tokens, tasks[t])
  }

  ghost predicate ChannelsHonest(env: Env, log: seq<Event>, tokens: map<Key, Token>, sessions: LoginSessions) {
    forall id, i {:trigger IssuedTo(env, log, tokens, id, sessions[id].inner[i])} |
      id in sessions && 0 <= i < |sessions[id].inner| :: IssuedTo(env, log, tokens, id, sessions[id].inner[i])
  }

  ghost predicate Honest(env: Env, w: World) {
    TasksHonest(env, w.log, w.tokens, w.loginTasks) && ChannelsHonest(env, w.log, w.tokens, w.login.sessions)
  }

  // ---------------------------------------------------------------- growing history

  lemma IssuedStays(env: Env, log: seq<Event>, tokens: map<Key, Token>, log': seq<Event>, tokens': map<Key, Token>,
                    session: nat, outcome: L.LoginOutcome)
    requires Grows(log, tokens, log', tokens') && IssuedTo(env, log, tokens, session, outcome)
    ensures IssuedTo(env, log', tokens', session, outcome)
  {
    if outcome.Success? {
      assert Kept(tokens, tokens', env.loginPrefix + outcome.token);
    }
  }

  lemma HonestStays(env: Env, w: World, w': World)
    requires Honest(env, w) && Grows(w.log, w.tokens, w'.log, w'.tokens)
    ensures TasksHonest(env, w'.log, w'.tokens, w.loginTasks)
    ensures ChannelsHonest(env, w'.log, w'.tokens, w.login.sessions)
  {
    forall t | t in w.loginTasks ensures TaskHonest(env, w'.log, w'.tokens, w.loginTasks[t]) {
      var task := w.loginTasks[t];
      assert TaskHonest(env, w.log, w.tokens, task);
      if task.stage.Reporting? {
        IssuedStays(env, w.log, w.tokens, w'.log, w'.tokens, task.session, task.stage.outcome);
      }
    }
    forall id, i | id in w.login.sessions && 0 <= i < |w.login.sessions[id].inner|
      ensures IssuedTo(env, w'.log, w'.tokens, id, w.login.sessions[id].inner[i])
    {
      IssuedStays(env, w.log, w.tokens, w'.log, w'.tokens, id, w.login.sessions[id].inner[i]);
    }
  }

  // ---------------------------------------------------------------- every step

  /** Steps of GameServer and Redis touch neither login tasks nor login sessions. */
  lemma ElsewhereHonest(env: Env, w: World, step: Step)
    requires Honest(env, w) && Protocol.Can(env, w, step)
    requires step.Expire? || step.GameLife? || step.GameRemote? || step.GameInner? || step.Take? || step.Save? ||
             step.GameReport?
    ensures Honest(env, Protocol.Do(env, w, step))
  {
    var w' := Protocol.Do(env, w, step);
    StepGrows(env, w, step);
    HonestStays(env, w, w');
    assert w'.loginTasks == w.loginTasks && w'.login == w.login;
  }

  /** Channels that lose messages stay honest. */
  lemma FewerMessages(env: Env, log: seq<Event>, tokens: map<Key, Token>, before: LoginSessions, after: LoginSessions)
    requires ChannelsHonest(env, log, tokens, before)
    requires forall id | id in after ::
               || after[id].inner == []
               || (id in before && after[id].inner == before[id].inner)
               || (id in before && before[id].inner != [] && after[id].inner == before[id].inner[1..])
    ensures ChannelsHonest(env, log, tokens, after)
  {
    forall id, i | id in after && 0 <= i < |after[id].inner|
      ensures IssuedTo(env, log, tokens, id, after[id].inner[i])
    {
      var at := if after[id].inner == before[id].inner then i else i + 1;
      assert IssuedTo(env, log, tokens, id, before[id].inner[at]);
    }
  }

  lemma SessionHonest(env: Env, w: World, step: Step)
    requires Honest(env, w) && Protocol.Can(env, w, step) && (step.LoginLife? || step.LoginInner?)
    ensures Honest(env, Protocol.Do(env, w, step))
  {
    FewerMessages(env, w.log, w.tokens, w.login.sessions, Protocol.Do(env, w, step).login.sessions);
  }

  lemma RequestHonest(env: Env, w: World, id: nat, payload: Option<Payload>, now: Instant, canSend: bool)
    requires Honest(env, w) && IsArmed(w.login, id)
    ensures Honest(env, DoLoginRemote(w, id, payload, now, canSend))
  {
    var w' := DoLoginRemote(w, id, payload, now, canSend);
    assert Grows(w.log, w.tokens, w'.log, w'.tokens);
    HonestStays(env, w, w');
    FewerMessages(env, w'.log, w'.tokens, w.login.sessions, w'.login.sessions);
    forall t | t in w'.loginTasks ensures TaskHonest(env, w'.log, w'.tokens, w'.loginTasks[t]) {
      if w'.loginTasks != w.loginTasks && t == w.nextTask {
        assert w'.loginTasks[t].marks == [|w.log|] && w'.log[|w.log|].Requested?;
      } else {
        assert TaskHonest(env, w'.log, w'.tokens, w.loginTasks[t]);
      }
    }
  }

  /** A task that moves on, with an outcome that is honest if it has one. */
  lemma TaskMovesOn(env: Env, w: World, w': World, task: nat)
    requires Honest(env, w) && Grows(w.log, w.tokens, w'.log, w'.tokens)
    requires task in w.loginTasks && w'.login == w.login
    requires w'.loginTasks.Keys == w.loginTasks.Keys
    requires forall t | t in w.loginTasks && t != task :: w'.loginTasks[t] == w.loginTasks[t]
    requires w.loginTasks[task].marks <= w'.loginTasks[task].marks
    requires w'.loginTasks[task].session == w.loginTasks[task].session
    requires var s := w'.loginTasks[task].stage;
             s.Reporting? ==> IssuedTo(env, w'.log, w'.tokens, w.loginTasks[task].session, s.outcome)
    ensures Honest(env, w')
  {
    HonestStays(env, w, w');
    forall t | t in w'.loginTasks ensures TaskHonest(env, w'.log, w'.tokens, w'.loginTasks[t]) {
      assert TaskHonest(env, w'.log, w'.tokens, w.loginTasks[t]);
    }
  }

  lemma AdvanceHonest(env: Env, w: World, task: nat, stage: Stage, e: Event)
    requires Honest(env, w) && task in w.loginTasks && !stage.Reporting?
    ensures Honest(env, Advance(w, task, stage, e))
  {
    TaskMovesOn(env, w, Advance(w, task, stage, e), task);
  }

  lemma ConcludeHonest(env: Env, w: World, task: nat, outcome: L.LoginOutcome)
    requires Honest(env, w) && task in w.loginTasks && !outcome.Success?
    ensures Honest(env, Conclude(w, task, outcome))
  {
    TaskMovesOn(env, w, Conclude(w, task, outcome), task);
  }

  lemma FindHonest(env: Env, w: World, task: nat, reply: FindReply)
    requires Honest(env, w) && Protocol.Can(env, w, Find(task, reply))
    ensures Honest(env, DoFind(w, task, reply))
  {
    match reply
    case Found(row) =>
      AdvanceHonest(env, w, task, Checking(row, w.loginTasks[task].stage.credentials.passwordHash), Fetched(task, row));
    case NotFound => ConcludeHonest(env, w, task, L.Failure(L.INVALID_CREDENTIALS));
    case FindFailed => ConcludeHonest(env, w, task, L.DbError);
  }

  lemma CheckHonest(env: Env, w: World, task: nat, crashed: bool)
    requires Honest(env, w) && Protocol.Can(env, w, Check(task, crashed))
    ensures Honest(env, DoCheck(env, w, task, crashed))
  {
    var Checking(row, hash) := w.loginTasks[task].stage;
    AdvanceHonest(env, w, task, Touching(row), Verified(task, row, hash));
    ConcludeHonest(env, w, task, L.DbError);
    ConcludeHonest(env, w, task, L.Failure(L.BANNED));
    ConcludeHonest(env, w, task, L.Failure(L.INVALID_CREDENTIALS));
  }

  lemma TouchHonest(env: Env, w: World, task: nat, ok: bool)
    requires Honest(env, w) && Protocol.Can(env, w, Touch(task, ok))
    ensures Honest(env, DoTouch(w, task, ok))
  {
    var row := w.loginTasks[task].stage.row;
    if ok {
      AdvanceHonest(env, w, task, Issuing(row), Touched(task, row.accountId));
    } else {
      ConcludeHonest(env, w, task, L.DbError);
    }
  }

  /** The token that the client will be told is the one stored, with the row of this task. */
  lemma IssueHonest(env: Env, w: World, task: nat, uuid: string, stored: bool, acked: bool)
    requires Honest(env, w) && Protocol.Can(env, w, Issue(task, uuid, stored, acked))
    ensures Honest(env, DoIssue(env, w, task, uuid, stored, acked))
  {
    var w' := DoIssue(env, w, task, uuid, stored, acked);
    StepGrows(env, w, Issue(task, uuid, stored, acked));
    assert TaskHonest(env, w.log, w.tokens, w.loginTasks[task]);
    TaskMovesOn(env, w, w', task);
  }

  lemma ReportHonest(env: Env, w: World, task: nat)
    requires Honest(env, w) && Protocol.Can(env, w, LoginReport(task))
    ensures Honest(env, DoLoginReport(w, task))
  {
    var t := w.loginTasks[task];
    var before, after := w.login.sessions, DoLoginReport(w, task).login.sessions;
    assert TaskHonest(env, w.log, w.tokens, t);
    forall id, i | id in after && 0 <= i < |after[id].inner|
      ensures IssuedTo(env, w.log, w.tokens, id, after[id].inner[i])
    {
      if i < |before[id].inner| {
        assert IssuedTo(env, w.log, w.tokens, id, before[id].inner[i]);
      }
    }
    forall u | u in w.loginTasks - {task} ensures TaskHonest(env, w.log, w.tokens, (w.loginTasks - {task})[u]) {
      assert TaskHonest(env, w.log, w.tokens, w.loginTasks[u]);
    }
  }

  lemma StepKeepsHonest(env: Env, w: World, step: Step)
    requires Honest(env, w) && Protocol.Can(env, w, step)
    ensures Honest(env, Protocol.Do(env, w, step))
  {
    match step
    case LoginLife(_) => SessionHonest(env, w, step);
    case LoginInner(_, _, _) => SessionHonest(env, w, step);
    case LoginRemote(id, payload, now, canSend) => RequestHonest(env, w, id, payload, now, canSend);
    case Find(t, reply) => FindHonest(env, w, t, reply);
    case Check(t, crashed) => CheckHonest(env, w, t, crashed);
    case Touch(t, ok) => TouchHonest(env, w, t, ok);
    case Issue(t, uuid, stored, acked) => IssueHonest(env, w, t, uuid, stored, acked);
    case LoginReport(t) => ReportHonest(env, w, t);
    case _ => ElsewhereHonest(env, w, step);
  }

  lemma {:induction false} TraceHonest(env: Env, states: seq<World>, steps: seq<Step>, i: nat)
    requires IsTrace(env, states, steps) && i < |states|
    ensures Honest(env, states[i])
  {
    if i == 0 {
    } else {
      TraceHonest(env, states, steps, i - 1);
      assert Linked(env, states, steps, i - 1);
      StepKeepsHonest(env, states[i - 1], steps[i - 1]);
    }
  }

  /**
   When a login session handles a success, it becomes authenticated as a user for whom a task that
   this session had requested stored exactly the token in the reply, with that user's account.
   */
  lemma RepliesAreIssued(env: Env, steps: seq<Step>, w: World, id: nat, now: Instant)
    requires Reaches(env, steps, w) && id in w.login.sessions && w.login.sessions[id].inner != []
    requires w.login.sessions[id].inner[0].Success?
    ensures var outcome := w.login.sessions[id].inner[0];
            var o := L.OnLoginOutcome(w.login.sessions[id].core, outcome, now);
            var key := env.loginPrefix + outcome.token;
            && o.reply == Some(LoginResponse(true, 0, outcome.token))
            && o.core.account == o.authenticated == Some(outcome.userId)
            && key in w.tokens && w.tokens[key].row.userId == outcome.userId
            && w.tokens[key].value == Format(Account(w.tokens[key].row.accountId, outcome.userId))
            && TokenTrail(env, w.log, key, w.tokens[key])
            && w.log[w.tokens[key].marks[0]].session == id
  {
    ReachableInv(env, steps, w);
    var states :| IsTrace(env, states, steps) && Last(states) == w;
    TraceHonest(env, states, steps, |steps|);
    var outcome := w.login.sessions[id].inner[0];
    assert IssuedTo(env, w.log, w.tokens, id, outcome);
    var key := env.loginPrefix + outcome.token;
    assert TokenTrail(env, w.log, key, w.tokens[key]);
  }
}
