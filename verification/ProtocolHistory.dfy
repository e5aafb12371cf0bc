/** What no step takes back: the log, and of a token everything but its fate. */
module ProtocolHistory {
  import opened Prelude
  import opened Protocol

  predicate Kept(tokens: map<Key, Token>, tokens': map<Key, Token>, k: Key) {
    k in tokens ==> k in tokens' && tokens'[k].row == tokens[k].row && tokens'[k].marks == tokens[k].marks
  }

  ghost predicate Grows(log: seq<Event>, tokens: map<Key, Token>, log': seq<Event>, tokens': map<Key, Token>) {
    log <= log' && forall k {:trigger Kept(tokens, tokens', k)} :: Kept(tokens, tokens', k)
  }

  lemma StepGrows(env: Env, w: World, step: Step)
    requires Protocol.Can(env, w, step)
    ensures var w' := Protocol.Do(env, w, step); Grows(w.log, w.tokens, w'.log, w'.tokens)
  {
    match step
    case Issue(t, uuid, stored, acked) => IssueGrows(env, w, t, uuid, stored, acked);
    case Expire(key) => FatedKeeps(w.tokens, key, Expired);
    case GameLife(e) => forall k ensures Kept(w.tokens, DoGameLife(w, e).tokens, k) { }
    case GameInner(id, now, canSend) => GameInnerGrows(w, id, now, canSend);
    case Take(t, reached, acked) => TakeGrows(env, w, t, reached, acked);
    case GameReport(t) => GameReportGrows(w, t);
    case Find(_, _) => TaskStepGrows(env, w, step);
    case Check(_, _) => TaskStepGrows(env, w, step);
    case Touch(_, _) => TaskStepGrows(env, w, step);
    case _ =>
  }

  /** Only the fate of a token ever changes. */
  lemma FatedKeeps(tokens: map<Key, Token>, key: Key, fate: Fate)
    ensures forall k {:trigger Kept(tokens, Fated(tokens, key, fate), k)} :: Kept(tokens, Fated(tokens, key, fate), k)
  {
    forall k ensures Kept(tokens, Fated(tokens, key, fate), k) {
    }
  }

  lemma IssueGrows(env: Env, w: World, task: nat, uuid: string, stored: bool, acked: bool)
    requires Protocol.Can(env, w, Issue(task, uuid, stored, acked))
    ensures var w' := DoIssue(env, w, task, uuid, stored, acked); Grows(w.log, w.tokens, w'.log, w'.tokens)
  {
    forall k ensures Kept(w.tokens, DoIssue(env, w, task, uuid, stored, acked).tokens, k) {
    }
  }

  lemma GameInnerGrows(w: World, id: nat, now: Instant, canSend: bool)
    requires IsArmed(w.game, id) && w.game.sessions[id].inner != []
    ensures var w' := DoGameInner(w, id, now, canSend); Grows(w.log, w.tokens, w'.log, w'.tokens)
  {
    var token := w.game.sessions[id].inner[0].token;
    if token.Some? {
      FatedKeeps(w.tokens, token.value, Used(id));
    } else {
      assert DoGameInner(w, id, now, canSend).tokens == w.tokens;
    }
  }

  lemma TakeGrows(env: Env, w: World, task: nat, reached: bool, acked: bool)
    requires Protocol.Can(env, w, Take(task, reached, acked))
    ensures var w' := DoTake(env, w, task, reached, acked); Grows(w.log, w.tokens, w'.log, w'.tokens)
  {
    var key := env.gamePrefix + w.gameTasks[task].work.token;
    FatedKeeps(w.tokens, key, if acked then InTask(task) else Lost);
  }

  lemma GameReportGrows(w: World, task: nat)
    requires task in w.gameTasks && w.gameTasks[task].Sending?
    ensures var w' := DoGameReport(w, task); Grows(w.log, w.tokens, w'.log, w'.tokens)
  {
    var Sending(id, result) := w.gameTasks[task];
    if result.token.Some? {
      FatedKeeps(w.tokens, result.token.value, Destination(w.game, id));
    }
  }

  lemma TaskStepGrows(env: Env, w: World, step: Step)
    requires Protocol.Can(env, w, step)
    requires step.Find? || step.Check? || step.Touch?
    ensures var w' := Protocol.Do(env, w, step);
            w'.tokens == w.tokens && w.log <= w'.log && Grows(w.log, w.tokens, w'.log, w'.tokens)
  {
  }

  // ---------------------------------------------------------------- one task at a time

  /** One task moved on: it is still a task of the same session, and nothing else changed for sessions. */
  predicate TaskMoved(w: World, w': World, t: nat) {
    && w'.login == w.login && t in w.loginTasks && t in w'.loginTasks
    && w'.loginTasks[t].session == w.loginTasks[t].session
    && w'.loginTasks == w.loginTasks[t := w'.loginTasks[t]]
  }

  lemma FindMoves(w: World, t: nat, reply: FindReply)
    requires t in w.loginTasks && w.loginTasks[t].stage.Finding?
    ensures TaskMoved(w, DoFind(w, t, reply), t)
  {
  }

  lemma CheckMoves(env: Env, w: World, t: nat, crashed: bool)
    requires t in w.loginTasks && w.loginTasks[t].stage.Checking?
    ensures TaskMoved(w, DoCheck(env, w, t, crashed), t)
  {
  }

  lemma TouchMoves(w: World, t: nat, ok: bool)
    requires t in w.loginTasks && w.loginTasks[t].stage.Touching?
    ensures TaskMoved(w, DoTouch(w, t, ok), t)
  {
  }

  lemma IssueMoves(env: Env, w: World, t: nat, uuid: string, stored: bool, acked: bool)
    requires t in w.loginTasks && w.loginTasks[t].stage.Issuing?
    ensures TaskMoved(w, DoIssue(env, w, t, uuid, stored, acked), t)
  {
  }

  // ---------------------------------------------------------------- stored tokens

  predicate StoredAt(log: seq<Event>, i: nat, key: Key) {
    i < |log| && log[i].Stored? && log[i].key == key
  }

  /** The token of the store at `i` is on record, and its trail ends with this very store. */
  predicate Listed(log: seq<Event>, tokens: map<Key, Token>, i: nat)
    requires i < |log|
  {
    log[i].Stored? ==>
      log[i].key in tokens && tokens[log[i].key].marks != [] && Last(tokens[log[i].key].marks) == i
  }

  ghost predicate AllListed(log: seq<Event>, tokens: map<Key, Token>) {
    forall i: nat {:trigger Listed(log, tokens, i)} | i < |log| :: Listed(log, tokens, i)
  }

  lemma ListedStays(log: seq<Event>, tokens: map<Key, Token>, log': seq<Event>, tokens': map<Key, Token>)
    requires AllListed(log, tokens) && Grows(log, tokens, log', tokens')
    requires |log'| <= |log| + 1 && (|log'| == |log| + 1 ==> Listed(log', tokens', |log|))
    ensures AllListed(log', tokens')
  {
    forall i: nat | i < |log'| ensures Listed(log', tokens', i) {
      if i < |log| {
        assert Listed(log, tokens, i) && log'[i] == log[i];
        if log[i].Stored? {
          assert Kept(tokens, tokens', log[i].key);
        }
      }
    }
  }

  lemma StepLists(env: Env, w: World, step: Step)
    requires AllListed(w.log, w.tokens) && Can(env, w, step)
    ensures AllListed(Do(env, w, step).log, Do(env, w, step).tokens)
  {
    StepGrows(env, w, step);
    var w' := Do(env, w, step);
    ListedStays(w.log, w.tokens, w'.log, w'.tokens);
  }

  lemma {:induction false} TraceLists(env: Env, states: seq<World>, steps: seq<Step>, i: nat)
    requires IsTrace(env, states, steps) && i < |states|
    ensures AllListed(states[i].log, states[i].tokens)
  {
    if i == 0 {
    } else {
      TraceLists(env, states, steps, i - 1);
      assert Linked(env, states, steps, i - 1);
      StepLists(env, states[i - 1], steps[i - 1]);
    }
  }

  lemma ReachableLists(env: Env, steps: seq<Step>, w: World)
    requires Reaches(env, steps, w)
    ensures AllListed(w.log, w.tokens)
  {
    var states :| IsTrace(env, states, steps) && Last(states) == w;
    TraceLists(env, states, steps, |steps|);
  }
}
