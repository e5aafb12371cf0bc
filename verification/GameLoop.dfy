/** The event loop of a GameServer session: when it ends, and that it is a run of `GameRuns`. */
module GameLoop {
  import opened Prelude
  import opened Messages
  import opened TokenValue
  import opened GameSession
  import EventLoops
  import GameRuns
  import R = RegistrySpec

  // ---------------------------------------------------------------- when it ends

  predicate HasRoom(live: Live) { !live.closed && |live.queue| < 200 }

  /**
   The loop ends with a kick, the end of the input or an error in it; with the timer, if the session is
   authenticated and ten seconds have passed; with any request other than GameConnectRequest and
   KeepAliveRequest, if it is not authenticated; and with an answer that cannot be queued.
   */
  predicate Ends(live: Live, e: Event) {
    match e
    case Kicked => true
    case ReceiveFailed => true
    case EndOfStream => true
    case Timer(at) => live.core.account.Some? && at >= live.core.lastKeepAlive + 10_000_000_000
    case Frame(payload, _) =>
      || (live.core.account.None? &&
          !(payload.Some? && (payload.value.GameConnectRequest? || payload.value.KeepAliveRequest?)))
      || (payload.Some? && AnsweredAtOnce(live.core, payload.value) && !HasRoom(live))
    case InnerMessage(_, _) => !HasRoom(live)
    case WriterTook(_) => false
    case WriterGone => false
  }

  lemma BreaksIff(live: Live, id: nat, e: Event)
    ensures Handle(live, id, e).1 == Break <==> Ends(live, e)
    ensures e.Kicked? || e.ReceiveFailed? || e.EndOfStream? || e.Timer? ==> Handle(live, id, e).0 == live
  {
  }

  /** What the writer does to the queue: it takes messages from the front, and in the end closes it. */
  lemma WriterEvents(live: Live, id: nat, n: nat)
    ensures n <= |live.queue| ==> Handle(live, id, WriterTook(n)).0 == live.(queue := live.queue[n..])
    ensures Handle(live, id, WriterGone).0 == live.(queue := [], closed := true)
  {
  }

  /** Once the writer is gone, nothing more is sent. */
  lemma NothingSentToClosed(live: Live, id: nat, e: Event)
    requires live.closed
    ensures Handle(live, id, e).0.closed && Handle(live, id, e).0.sent == live.sent
  {
  }

  /** No event after the one that ends the loop has any effect. */
  lemma NothingAfterTheEnd(live: Live, id: nat, events: seq<Event>, i: nat)
    requires i < |events| && Ends(Loop(live, id, events[..i]), events[i])
    ensures Loop(live, id, events) == Loop(live, id, events[..i + 1])
  {
    BreaksIff(Loop(live, id, events[..i]), id, events[i]);
    EventLoops.NothingAfterBreak(Handler(id), live, events, i);
  }

  /** A kick, the end of the input or an error in it: nothing later is handled, and nothing is done about it. */
  lemma KickEndsLoop(live: Live, id: nat, events: seq<Event>, i: nat)
    requires i < |events| && (events[i].Kicked? || events[i].ReceiveFailed? || events[i].EndOfStream?)
    ensures Loop(live, id, events) == Loop(live, id, events[..i])
  {
    NothingAfterTheEnd(live, id, events, i);
    EventLoops.LastIsIgnored(Handler(id), live, events[..i], events[i]);
    assert events[..i + 1] == events[..i] + [events[i]];
  }

  ghost predicate Ended(live: Live, id: nat, events: seq<Event>) {
    exists i: nat :: i < |events| && Ends(Loop(live, id, events[..i]), events[i])
  }

  /** And until then every event is handled. */
  lemma AllHandledUntilTheEnd(live: Live, id: nat, events: seq<Event>, e: Event)
    requires !Ended(live, id, events)
    ensures Loop(live, id, events + [e]) == Handle(Loop(live, id, events), id, e).0
  {
    forall i: nat | i < |events|
      ensures Handler(id)(EventLoops.Run(Handler(id), live, events[..i]), events[i]).1 != Break
    {
      BreaksIff(Loop(live, id, events[..i]), id, events[i]);
      assert !Ends(Loop(live, id, events[..i]), events[i]);
    }
    EventLoops.AllHandledUntilBreak(Handler(id), live, events, e);
  }

  // ---------------------------------------------------------------- the loop as a run

  /** What a log says was queued, started, and authenticated. */
  function Sent(log: seq<GameRuns.Obs>): seq<MessageWrapper> {
    if log == [] then []
    else Sent(Front(log)) + if Last(log).Tried? && Last(log).ok then [Wrap(Last(log).payload)] else []
  }

  function Started(log: seq<GameRuns.Obs>): seq<Task> {
    if log == [] then [] else Started(Front(log)) + if Last(log).Spawned? then [Last(log).task] else []
  }

  function Registered(registry: R.Registry, id: nat, log: seq<GameRuns.Obs>): R.Registry {
    if log == [] then registry
    else
      var before := Registered(registry, id, Front(log));
      if Last(log).Became? then R.Authenticate(before, id, Last(log).account.userId) else before
  }

  /** The log accounts for what the session queued, started and registered. */
  ghost predicate Logged(registry: R.Registry, id: nat, log: seq<GameRuns.Obs>, sent: seq<MessageWrapper>,
                         spawned: seq<Task>, registered: R.Registry)
  {
    Sent(log) == sent && Started(log) == spawned && Registered(registry, id, log) == registered
  }

  ghost predicate Matches(registry: R.Registry, id: nat, r: GameRuns.Run, live: Live) {
    r.core == live.core && Logged(registry, id, r.log, live.sent, live.spawned, live.registry)
  }

  lemma Grown(registry: R.Registry, id: nat, log: seq<GameRuns.Obs>, e: GameRuns.Obs)
    ensures Sent(log + [e]) == Sent(log) + if e.Tried? && e.ok then [Wrap(e.payload)] else []
    ensures Started(log + [e]) == Started(log) + if e.Spawned? then [e.task] else []
    ensures Registered(registry, id, log + [e]) ==
            if e.Became? then R.Authenticate(Registered(registry, id, log), id, e.account.userId)
            else Registered(registry, id, log)
  {
    assert Front(log + [e]) == log;
  }

  /** One more entry, and what it accounts for. */
  lemma LoggedNext(registry: R.Registry, id: nat, log: seq<GameRuns.Obs>, sent: seq<MessageWrapper>,
                   spawned: seq<Task>, registered: R.Registry, e: GameRuns.Obs)
    requires Logged(registry, id, log, sent, spawned, registered)
    ensures Logged(registry, id, log + [e],
                   if e.Tried? && e.ok then sent + [Wrap(e.payload)] else sent,
                   if e.Spawned? then spawned + [e.task] else spawned,
                   if e.Became? then R.Authenticate(registered, id, e.account.userId) else registered)
  {
    Grown(registry, id, log, e);
    assert sent + [] == sent && spawned + [] == spawned;
  }

  function SentWith(sent: seq<MessageWrapper>, e: GameRuns.Obs): seq<MessageWrapper> {
    if e.Tried? && e.ok then sent + [Wrap(e.payload)] else sent
  }

  /** An entry that sends or starts something, or neither, and authenticates nobody. */
  lemma LoggedTwice(registry: R.Registry, id: nat, log: seq<GameRuns.Obs>, sent: seq<MessageWrapper>,
                    spawned: seq<Task>, registered: R.Registry, a: GameRuns.Obs, b: GameRuns.Obs)
    requires Logged(registry, id, log + [a], sent, spawned, registered) && !b.Became?
    ensures Logged(registry, id, log + [a, b], SentWith(sent, b),
                   if b.Spawned? then spawned + [b.task] else spawned, registered)
  {
    LoggedNext(registry, id, log + [a], sent, spawned, registered, b);
    assert log + [a, b] == log + [a] + [b];
  }

  /** The entries of a handled request account for its outcome. */
  lemma RequestLogged(registry: R.Registry, id: nat, log: seq<GameRuns.Obs>, live: Live, seen: GameRuns.Obs, o: Outcome)
    requires Logged(registry, id, log, live.sent, live.spawned, live.registry) && seen.Received?
    requires o.authenticated.None? && (o.spawned.None? || o.reply.None?)
    ensures var next := Settle(live, id, o);
            Logged(registry, id,
                   log + if o.spawned.Some? then [seen, GameRuns.Spawned(o.spawned.value)]
                         else if o.reply.Some? then [seen, GameRuns.Tried(o.reply.value, CanSend(live))]
                         else [seen],
                   next.sent, next.spawned, next.registry)
  {
    LoggedNext(registry, id, log, live.sent, live.spawned, live.registry, seen);
    if o.spawned.Some? {
      LoggedTwice(registry, id, log, live.sent, live.spawned, live.registry, seen, GameRuns.Spawned(o.spawned.value));
    } else if o.reply.Some? {
      var tried := GameRuns.Tried(o.reply.value, CanSend(live));
      LoggedTwice(registry, id, log, live.sent, live.spawned, live.registry, seen, tried);
    }
  }

  /** The same for a task's result, which may authenticate first. */
  lemma ResultLogged(registry: R.Registry, id: nat, log: seq<GameRuns.Obs>, live: Live, o: Outcome, now: Instant)
    requires Logged(registry, id, log, live.sent, live.spawned, live.registry)
    requires o.reply.Some? && o.spawned.None?
    requires o.authenticated.Some? ==> o.core.account.Some? && o.core.account.value.userId == o.authenticated.value
    ensures var next, tried := Settle(live, id, o), GameRuns.Tried(o.reply.value, CanSend(live));
            Logged(registry, id,
                   log + if o.authenticated.Some? then [GameRuns.Became(o.core.account.value, now), tried] else [tried],
                   next.sent, next.spawned, next.registry)
  {
    var tried := GameRuns.Tried(o.reply.value, CanSend(live));
    if o.authenticated.Some? {
      var became := GameRuns.Became(o.core.account.value, now);
      LoggedNext(registry, id, log, live.sent, live.spawned, live.registry, became);
      LoggedTwice(registry, id, log, live.sent, live.spawned,
                  R.Authenticate(live.registry, id, o.authenticated.value), became, tried);
    } else {
      LoggedNext(registry, id, log, live.sent, live.spawned, live.registry, tried);
    }
  }

  function Without(tasks: seq<Task>, i: nat): seq<Task>
    requires i < |tasks|
  {
    tasks[..i] + tasks[i + 1..]
  }

  function TasksAfter(live: Live, tasks: seq<Task>, payload: Option<Payload>, at: Instant): seq<Task> {
    var o := OnRemote(live.core, payload, at);
    if o.spawned.Some? then tasks + [o.spawned.value] else tasks
  }

  /**
   Events that can happen: time does not go back, and every message from a task answers one that is
   outstanding.  `tasks` are the outstanding ones; what follows the end of the loop does not matter.
   */
  ghost predicate Plausible(live: Live, id: nat, tasks: seq<Task>, clock: Instant, events: seq<Event>)
    decreases |events|
  {
    events == [] ||
    var e, rest, next := events[0], events[1..], Handle(live, id, events[0]).0;
    match e
    case Frame(payload, at) =>
      at >= clock && (Ends(live, e) || Plausible(next, id, TasksAfter(live, tasks, payload, at), at, rest))
    case InnerMessage(m, at) =>
      at >= clock &&
      exists i: nat ::
        i < |tasks| && GameRuns.Answers(tasks[i], m) &&
        (Ends(live, e) || Plausible(next, id, Without(tasks, i), at, rest))
    case Timer(at) => at >= clock && (Ends(live, e) || Plausible(next, id, tasks, at, rest))
    case _ => Ends(live, e) || Plausible(next, id, tasks, clock, rest)
  }

  lemma Extend(steps: seq<GameRuns.Step>, r: GameRuns.Run, step: GameRuns.Step) returns (steps': seq<GameRuns.Step>)
    requires GameRuns.Reaches(steps, r) && GameRuns.Can(r, step)
    ensures GameRuns.Reaches(steps', GameRuns.Do(r, step))
  {
    steps' := steps + [step];
    var r' := GameRuns.Do(r, step);
    var states :| GameRuns.IsTrace(states, steps) && Last(states) == r;
    var states' := states + [r'];
    forall i: nat | i < |steps'| ensures GameRuns.Linked(states', steps', i) {
      assert i < |steps| ==> GameRuns.Linked(states, steps, i);
    }
    assert GameRuns.IsTrace(states', steps') && Last(states') == r';
  }

  /** The run is at work, has nothing waiting, and matches the session. */
  ghost predicate Fits(registry: R.Registry, id: nat, r: GameRuns.Run, live: Live, tasks: seq<Task>, clock: Instant) {
    Matches(registry, id, r, live) && r.running && r.inner == [] && r.tasks == tasks && r.clock <= clock
  }

  lemma FrameIsStep(registry: R.Registry, id: nat, r: GameRuns.Run, live: Live, tasks: seq<Task>, clock: Instant,
                    payload: Option<Payload>, at: Instant)
    requires Fits(registry, id, r, live, tasks, clock) && at >= clock
    ensures var r' := GameRuns.Do(r, GameRuns.Receive(payload, at, CanSend(live)));
            var (next, flow) := Handle(live, id, Frame(payload, at));
            && Matches(registry, id, r', next) && r'.inner == [] && r'.tasks == TasksAfter(live, tasks, payload, at)
            && r'.clock == at && (r'.running <==> flow == Continue)
  {
    var o := OnRemote(live.core, payload, at);
    var added := GameRuns.ReceiveAdds(r, payload, at, CanSend(live));
    if payload.Some? {
      RequestLogged(registry, id, r.log, live, GameRuns.Received(payload.value, r.core.account.Some?, at), o);
    } else {
      assert r.log + added == r.log;
    }
  }

  lemma AuthenticatesItself(core: Core, m: Inner, now: Instant)
    ensures var o := OnInner(core, m, now);
            && o.reply.Some? && o.spawned.None?
            && (o.authenticated.Some? ==> o.core.account.Some? && o.core.account.value.userId == o.authenticated.value)
  {
  }

  lemma ResultIsStep(registry: R.Registry, id: nat, r: GameRuns.Run, live: Live, m: Inner, at: Instant)
    requires Matches(registry, id, r, live) && r.running && r.inner == [m] && at >= r.clock
    ensures var r' := GameRuns.Do(r, GameRuns.TakeInner(at, CanSend(live)));
            var (next, flow) := Handle(live, id, InnerMessage(m, at));
            && Matches(registry, id, r', next) && r'.inner == [] && r'.tasks == r.tasks
            && r'.clock == at && (r'.running <==> flow == Continue)
  {
    AuthenticatesItself(live.core, m, at);
    assert r.inner[1..] == [];
    OutcomeMatches(registry, id, r, live, OnInner(live.core, m, at), at);
  }

  /** Any outcome of a result that replies and starts nothing, as a step of a run and settled by the loop. */
  lemma OutcomeMatches(registry: R.Registry, id: nat, r: GameRuns.Run, live: Live, o: Outcome, at: Instant)
    requires Matches(registry, id, r, live) && o.reply.Some? && o.spawned.None?
    requires o.authenticated.Some? ==> o.core.account.Some? && o.core.account.value.userId == o.authenticated.value
    ensures var r' := GameRuns.After(r, o, [], [], at, CanSend(live));
            && Matches(registry, id, r', Settle(live, id, o)) && r'.inner == [] && r'.tasks == r.tasks
            && r'.clock == at && (r'.running <==> FlowOf(o, CanSend(live)) == Continue)
  {
    ResultLogged(registry, id, r.log, live, o, at);
    var tried := GameRuns.Tried(o.reply.value, CanSend(live));
    var added := if o.authenticated.Some? then [GameRuns.Became(o.core.account.value, at), tried] else [tried];
    assert GameRuns.Effects(o, at, CanSend(live)) == added;
    assert r.log + [] + added == r.log + added;
  }

  /** What one event leads to: the end of the loop, or a state from which it goes on. */
  ghost predicate GoesOn(registry: R.Registry, id: nat, steps: seq<GameRuns.Step>, r: GameRuns.Run, next: Live,
                         flow: Flow, tasks: seq<Task>, clock: Instant, rest: seq<Event>)
  {
    && GameRuns.Reaches(steps, r)
    && if flow == Break then Matches(registry, id, r, next)
       else Fits(registry, id, r, next, tasks, clock) && Plausible(next, id, tasks, clock, rest)
  }

  lemma FrameGoesOn(registry: R.Registry, id: nat, live: Live, tasks: seq<Task>, clock: Instant, events: seq<Event>,
                    steps: seq<GameRuns.Step>, r: GameRuns.Run)
    returns (steps': seq<GameRuns.Step>, r': GameRuns.Run)
    requires GameRuns.Reaches(steps, r) && Fits(registry, id, r, live, tasks, clock)
    requires Plausible(live, id, tasks, clock, events) && events != [] && events[0].Frame?
    ensures GoesOn(registry, id, steps', r', Handle(live, id, events[0]).0, Handle(live, id, events[0]).1,
                   r'.tasks, events[0].at, events[1..])
  {
    var Frame(payload, at) := events[0];
    BreaksIff(live, id, events[0]);
    FrameIsStep(registry, id, r, live, tasks, clock, payload, at);
    steps' := Extend(steps, r, GameRuns.Receive(payload, at, CanSend(live)));
    r' := GameRuns.Do(r, GameRuns.Receive(payload, at, CanSend(live)));
  }

  /** The task behind a message finishes just before the message is handled. */
  lemma TaskFinishes(registry: R.Registry, id: nat, live: Live, tasks: seq<Task>, clock: Instant,
                     steps: seq<GameRuns.Step>, r: GameRuns.Run, i: nat, m: Inner)
    returns (steps': seq<GameRuns.Step>, r': GameRuns.Run)
    requires GameRuns.Reaches(steps, r) && Fits(registry, id, r, live, tasks, clock)
    requires i < |tasks| && GameRuns.Answers(tasks[i], m)
    ensures GameRuns.Reaches(steps', r') && Matches(registry, id, r', live)
    ensures r'.running && r'.inner == [m] && r'.tasks == Without(tasks, i) && r'.clock <= clock
  {
    steps' := Extend(steps, r, GameRuns.TaskDone(i, m));
    r' := GameRuns.Do(r, GameRuns.TaskDone(i, m));
    assert r'.inner == [m];
  }

  lemma ResultGoesOn(registry: R.Registry, id: nat, live: Live, tasks: seq<Task>, clock: Instant, events: seq<Event>,
                     steps: seq<GameRuns.Step>, r: GameRuns.Run)
    returns (steps': seq<GameRuns.Step>, r': GameRuns.Run)
    requires GameRuns.Reaches(steps, r) && Fits(registry, id, r, live, tasks, clock)
    requires Plausible(live, id, tasks, clock, events) && events != [] && events[0].InnerMessage?
    ensures GoesOn(registry, id, steps', r', Handle(live, id, events[0]).0, Handle(live, id, events[0]).1,
                   r'.tasks, events[0].at, events[1..])
  {
    var InnerMessage(m, at) := events[0];
    var next := Handle(live, id, events[0]).0;
    BreaksIff(live, id, events[0]);
    var i: nat :| i < |tasks| && GameRuns.Answers(tasks[i], m) &&
                  (Ends(live, events[0]) || Plausible(next, id, Without(tasks, i), at, events[1..]));
    var s1, r1 := TaskFinishes(registry, id, live, tasks, clock, steps, r, i, m);
    ResultIsStep(registry, id, r1, live, m, at);
    steps' := Extend(s1, r1, GameRuns.TakeInner(at, CanSend(live)));
    r' := GameRuns.Do(r1, GameRuns.TakeInner(at, CanSend(live)));
  }

  lemma OtherGoesOn(registry: R.Registry, id: nat, live: Live, tasks: seq<Task>, clock: Instant, events: seq<Event>,
                    steps: seq<GameRuns.Step>, r: GameRuns.Run)
    returns (steps': seq<GameRuns.Step>, r': GameRuns.Run)
    requires GameRuns.Reaches(steps, r) && Fits(registry, id, r, live, tasks, clock)
    requires Plausible(live, id, tasks, clock, events) && events != []
    requires !events[0].Frame? && !events[0].InnerMessage?
    ensures GoesOn(registry, id, steps', r', Handle(live, id, events[0]).0, Handle(live, id, events[0]).1,
                   tasks, if events[0].Timer? then events[0].at else clock, events[1..])
  {
    var e := events[0];
    BreaksIff(live, id, e);
    steps', r' := steps, r;
    if Ends(live, e) {
      var step := if e.Timer? then GameRuns.TimeOut(e.at) else GameRuns.Stop;
      steps' := Extend(steps, r, step);
      r' := GameRuns.Do(r, step);
      if e.Timer? {
        LoggedNext(registry, id, r.log, live.sent, live.spawned, live.registry, GameRuns.TimedOut(e.at));
      }
    }
  }

  /** Every way the loop can go is a run: same state, same messages queued, same tasks, same registry. */
  lemma {:induction false} LoopIsRun(registry: R.Registry, id: nat, live: Live, tasks: seq<Task>, clock: Instant,
                                     events: seq<Event>, steps: seq<GameRuns.Step>, r: GameRuns.Run)
    returns (steps': seq<GameRuns.Step>, r': GameRuns.Run)
    requires GameRuns.Reaches(steps, r) && Fits(registry, id, r, live, tasks, clock)
    requires Plausible(live, id, tasks, clock, events)
    ensures GameRuns.Reaches(steps', r') && Matches(registry, id, r', Loop(live, id, events))
    decreases |events|
  {
    if events == [] {
      steps', r' := steps, r;
    } else {
      var e, after, later := events[0], tasks, clock;
      if e.Frame? {
        steps', r' := FrameGoesOn(registry, id, live, tasks, clock, events, steps, r);
        after, later := r'.tasks, e.at;
      } else if e.InnerMessage? {
        steps', r' := ResultGoesOn(registry, id, live, tasks, clock, events, steps, r);
        after, later := r'.tasks, e.at;
      } else {
        steps', r' := OtherGoesOn(registry, id, live, tasks, clock, events, steps, r);
        later := if e.Timer? then e.at else clock;
      }
      var (next, flow) := Handle(live, id, e);
      if flow == Continue {
        steps', r' := LoopIsRun(registry, id, next, after, later, events[1..], steps', r');
      }
    }
  }

  /** The same from the start, greeting included: what is proved of every run holds of the event loop. */
  lemma EventLoopIsRun(live: Live, id: nat, now: Instant, events: seq<Event>)
    returns (steps: seq<GameRuns.Step>, r: GameRuns.Run)
    requires live.core == Init(now) && live.sent == [] && live.spawned == []
    requires var greeting := [Wrap(ConnectedResponse(0))];
             Plausible(live.(queue := live.queue + greeting, sent := greeting), id, [], now, events)
    ensures GameRuns.Reaches(steps, r) && Matches(live.registry, id, r, Serve(live, id, events))
  {
    r := GameRuns.Start(now, CanSend(live));
    steps := [];
    assert GameRuns.IsTrace([r], steps) && Last([r]) == r;
    Grown(live.registry, id, [], r.log[0]);
    assert [] + [r.log[0]] == r.log;
    if CanSend(live) {
      var greeting := [Wrap(ConnectedResponse(0))];
      assert live.sent + greeting == greeting;
      steps, r := LoopIsRun(live.registry, id, live.(queue := live.queue + greeting, sent := greeting), [], now,
                            events, steps, r);
    }
  }
}
