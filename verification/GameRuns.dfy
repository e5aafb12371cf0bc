/**
 Whole runs of a GameServer session: any client messages, any timing, backend tasks that finish in
 any order with any result, sends that may fail at any point.
 */
module GameRuns {
  import opened Prelude
  import opened Messages
  import opened TokenValue
  import opened GameSession

  /** What a run did, oldest first. */
  datatype Obs =
    | Tried(payload: Payload, ok: bool)
    | Received(request: Payload, authed: bool, at: Instant)
    | Spawned(task: Task)
    | Became(account: Account, at: Instant)
    | TimedOut(at: Instant)

  /** `tasks` are outstanding backend tasks; `log` and `authAt` (where it first authenticated) are history. */
  datatype Run = Run(
    core: Core,
    tasks: seq<Task>,
    inner: seq<Inner>,
    running: bool,
    clock: Instant,
    log: seq<Obs>,
    authAt: nat)

  function Start(now: Instant, ok: bool): Run {
    Run(Init(now), [], [], ok, now, [Tried(ConnectedResponse(0), ok)], 0)
  }

  datatype Step =
    | Receive(payload: Option<Payload>, now: Instant, canSend: bool)
    | TakeInner(now: Instant, canSend: bool)
    | TaskDone(index: nat, message: Inner)
    | TimeOut(now: Instant)
    | Stop // kicked, end of stream or a receive error

  predicate Answers(task: Task, message: Inner) {
    match message
    case TokenTaken(_) => task.TakeToken?
    case ScoreSaved => task.SaveScore?
    case DbError => true
  }

  ghost predicate Can(r: Run, step: Step) {
    match step
    case Receive(_, now, _) => r.running && now >= r.clock
    case TakeInner(now, _) => r.running && now >= r.clock && r.inner != []
    case TaskDone(i, message) => i < |r.tasks| && Answers(r.tasks[i], message)
    case TimeOut(now) => r.running && now >= r.clock && TimerDue(r.core, now)
    case Stop => r.running
  }

  function Effects(o: Outcome, now: Instant, canSend: bool): seq<Obs> {
    (if o.authenticated.Some? && o.core.account.Some? then [Became(o.core.account.value, now)] else []) +
    (if o.spawned.Some? then [Spawned(o.spawned.value)] else []) +
    (if o.reply.Some? then [Tried(o.reply.value, canSend)] else [])
  }

  /** A handler has run; `seen` is the request it handled, if it came from the client. */
  function After(r: Run, o: Outcome, seen: seq<Obs>, inner: seq<Inner>, now: Instant, canSend: bool): Run {
    Run(o.core,
        if o.spawned.Some? then r.tasks + [o.spawned.value] else r.tasks,
        inner,
        FlowOf(o, canSend) == Continue,
        now,
        r.log + seen + Effects(o, now, canSend),
        if r.core.account.None? then |r.log| else r.authAt)
  }

  function Seen(r: Run, payload: Option<Payload>, now: Instant): seq<Obs> {
    if payload.Some? then [Received(payload.value, r.core.account.Some?, now)] else []
  }

  function Do(r: Run, step: Step): Run
    requires Can(r, step)
  {
    match step
    case Receive(payload, now, canSend) =>
      After(r, OnRemote(r.core, payload, now), Seen(r, payload, now), r.inner, now, canSend)
    case TakeInner(now, canSend) =>
      After(r, OnInner(r.core, r.inner[0], now), [], r.inner[1..], now, canSend)
    case TaskDone(i, message) =>
      r.(tasks := r.tasks[..i] + r.tasks[i + 1..],
         inner := if r.running then r.inner + [message] else r.inner)
    case TimeOut(now) => r.(running := false, clock := now, log := r.log + [TimedOut(now)])
    case Stop => r.(running := false)
  }

  ghost predicate Linked(states: seq<Run>, steps: seq<Step>, i: nat)
    requires i < |steps| < |states|
  {
    Can(states[i], steps[i]) && states[i + 1] == Do(states[i], steps[i])
  }

  ghost predicate IsTrace(states: seq<Run>, steps: seq<Step>) {
    && |states| == |steps| + 1
    && (exists now, ok :: states[0] == Start(now, ok))
    && forall i: nat {:trigger Linked(states, steps, i)} | i < |steps| :: Linked(states, steps, i)
  }

  /** The steps lead from a start to `r`. */
  ghost predicate Reaches(steps: seq<Step>, r: Run) {
    exists states :: IsTrace(states, steps) && Last(states) == r
  }

  // ---------------------------------------------------------------- measures of a log

  predicate Asks(e: Obs) {
    e.Received? && (e.request.GameConnectRequest? || (e.authed && e.request.GameOverReport?))
  }

  predicate IsReply(e: Obs) {
    e.Tried? && (e.payload.GameConnectResponse? || e.payload.GameOverResponse? || e.payload.ErrorResponse?)
  }

  /** The echo owed at once to a request of an authenticated session. */
  function Owed(e: Obs): Option<Payload> {
    if e.Received? && e.authed && e.request.MoveRequest? then Some(MoveResponse(true, e.request.x, e.request.y))
    else if e.Received? && e.authed && e.request.EnterWorldRequest? then Some(EnterWorldResponse(true))
    else None
  }

  predicate IsEcho(e: Obs) {
    e.Tried? && (e.payload.MoveResponse? || e.payload.EnterWorldResponse?)
  }

  function Place(e: Obs, before: (Coordinate, Coordinate)): (Coordinate, Coordinate) {
    if e.Received? && e.authed && e.request.MoveRequest? then (e.request.x, e.request.y) else before
  }

  function World(e: Obs, before: u64): u64 {
    if e.Received? && e.authed && e.request.EnterWorldRequest? then e.request.worldId else before
  }

  /** Questions asked and answered, echoes sent and owed in order, and the last account, place and world. */
  datatype Tally = Tally(
    asked: nat,
    answered: nat,
    echoes: seq<Payload>,
    owed: seq<Payload>,
    account: Option<Account>,
    place: (Coordinate, Coordinate),
    world: u64)

  function Add(t: Tally, e: Obs): Tally {
    Tally(
      if Asks(e) then t.asked + 1 else t.asked,
      if IsReply(e) then t.answered + 1 else t.answered,
      if IsEcho(e) then t.echoes + [e.payload] else t.echoes,
      if Owed(e).Some? then t.owed + [Owed(e).value] else t.owed,
      if e.Became? then Some(e.account) else t.account,
      Place(e, t.place),
      World(e, t.world))
  }

  function Count(log: seq<Obs>): Tally {
    if log == [] then Tally(0, 0, [], [], None, (0, 0), 0) else Add(Count(Front(log)), Last(log))
  }

  function LastAccount(log: seq<Obs>): Option<Account> {
    Count(log).account
  }

  lemma Push(log: seq<Obs>, e: Obs)
    ensures Count(log + [e]) == Add(Count(log), e)
  {
    assert Front(log + [e]) == log && Last(log + [e]) == e;
  }

  lemma PushTwo(log: seq<Obs>, a: Obs, b: Obs)
    ensures Count(log + [a, b]) == Add(Add(Count(log), a), b)
  {
    Push(log, a);
    Push(log + [a], b);
    assert log + [a, b] == log + [a] + [b];
  }

  /** A handled request adds itself and at most one effect. */
  lemma ReceiveAdds(r: Run, payload: Option<Payload>, now: Instant, canSend: bool) returns (added: seq<Obs>)
    requires Can(r, Receive(payload, now, canSend))
    ensures Do(r, Receive(payload, now, canSend)).log == r.log + added
    ensures var o := OnRemote(r.core, payload, now);
            && o.authenticated.None? && (o.spawned.None? || o.reply.None?)
            && (payload.None? ==> added == [] && o.reply.None? && o.spawned.None?)
            && (payload.Some? ==>
                  var seen := Received(payload.value, r.core.account.Some?, now);
                  added == if o.spawned.Some? then [seen, Spawned(o.spawned.value)]
                           else if o.reply.Some? then [seen, Tried(o.reply.value, canSend)]
                           else [seen])
  {
    var o := OnRemote(r.core, payload, now);
    var effects := Effects(o, now, canSend);
    assert effects == if o.spawned.Some? then [Spawned(o.spawned.value)]
                      else if o.reply.Some? then [Tried(o.reply.value, canSend)] else [];
    added := Seen(r, payload, now) + effects;
    assert r.log + Seen(r, payload, now) + effects == r.log + added;
  }

  /** A handled task result tries one reply, after becoming somebody if it authenticates. */
  lemma TakeInnerAdds(r: Run, now: Instant, canSend: bool) returns (added: seq<Obs>)
    requires Can(r, TakeInner(now, canSend))
    ensures Do(r, TakeInner(now, canSend)).log == r.log + added
    ensures var o := OnInner(r.core, r.inner[0], now);
            && o.reply.Some? && o.spawned.None?
            && added == if o.authenticated.Some? && o.core.account.Some?
                        then [Became(o.core.account.value, now), Tried(o.reply.value, canSend)]
                        else [Tried(o.reply.value, canSend)]
  {
    var o := OnInner(r.core, r.inner[0], now);
    added := Effects(o, now, canSend);
    assert r.log + [] + added == r.log + added;
  }

  // ---------------------------------------------------------------- invariants

  /**
   Every question is answered, being worked on, or waiting in the channel; every echo owed is sent;
   account, place and world are the last ones the session was given.
   */
  ghost predicate Measured(r: Run) {
    var t := Count(r.log);
    && (r.running ==> t.asked == t.answered + |r.tasks| + |r.inner|)
    && t.echoes == t.owed
    && t.account == r.core.account && t.place == r.core.position && t.world == r.core.worldId
  }

  /** A run that has not authenticated: greeting first, then only refusals, and no score saved. */
  ghost predicate Quiet(log: seq<Obs>) {
    && log != [] && log[0].Tried? && log[0].payload == ConnectedResponse(0)
    && forall i | 1 <= i < |log| :: QuietEntry(log[i])
  }

  predicate QuietEntry(e: Obs) {
    match e
    case Tried(p, _) => p == GameConnectResponse(false, 1) || p == ErrorResponse(3)
    case Received(_, authed, _) => !authed
    case Spawned(task) => task.TakeToken?
    case _ => false
  }

  predicate Greets(e: Obs) { e.Tried? && e.payload.ConnectedResponse? }

  ghost predicate GreetedOnce(log: seq<Obs>) {
    && log != [] && log[0].Tried? && log[0].payload == ConnectedResponse(0)
    && forall i | 1 <= i < |log| :: !Greets(log[i])
  }

  /** The session first became somebody at `k`, and the successful reply came next. */
  ghost predicate AuthedAt(log: seq<Obs>, k: nat) {
    && k + 1 < |log| && Quiet(log[..k]) && log[k].Became?
    && log[k + 1].Tried? && log[k + 1].payload == GameConnectResponse(true, 0)
  }

  ghost predicate Disciplined(r: Run) {
    && GreetedOnce(r.log)
    && if r.core.account.None?
       then Quiet(r.log)
            && (forall i | 0 <= i < |r.tasks| :: r.tasks[i].TakeToken?)
            && (forall i | 0 <= i < |r.inner| :: !r.inner[i].ScoreSaved?)
       else AuthedAt(r.log, r.authAt)
  }

  /** A send fails at most once, and nothing follows it. */
  ghost predicate FailureIsLast(r: Run) {
    forall i | 0 <= i < |r.log| :: r.log[i].Tried? && !r.log[i].ok ==> i == |r.log| - 1 && !r.running
  }

  predicate Refreshes(e: Obs) {
    (e.Received? && e.request.KeepAliveRequest?) || e.Became?
  }

  ghost predicate Timely(r: Run) {
    && r.core.lastKeepAlive <= r.clock
    && (forall i | 0 <= i < |r.log| :: Refreshes(r.log[i]) ==> r.log[i].at <= r.core.lastKeepAlive)
    && (forall i, j | 0 <= j < i < |r.log| ::
          r.log[i].TimedOut? && Refreshes(r.log[j]) ==> r.log[i].at - r.log[j].at >= 10_000_000_000)
    && (forall i | 0 <= i < |r.log| :: r.log[i].TimedOut? ==> i == |r.log| - 1 && !r.running && r.core.account.Some?)
  }

  /** The request that a backend task carries out. */
  predicate Requests(e: Obs, task: Task) {
    e.Received? &&
    match task
    case TakeToken(token) => token != "" && e.request == GameConnectRequest(token)
    case SaveScore(_, report) =>
      e.authed && e.request == GameOverReport(report.score, report.killCount, report.surviveSeconds)
  }

  /** Every task carries out the request just before it; scores are saved for the account of that moment. */
  predicate Justified(log: seq<Obs>, i: nat)
    requires i < |log|
  {
    log[i].Spawned? ==>
      && i > 0 && Requests(log[i - 1], log[i].task)
      && (log[i].task.SaveScore? ==>
            LastAccount(log[..i]).Some? && LastAccount(log[..i]).value.accountId == log[i].task.accountId)
  }

  ghost predicate SpawnsJustified(log: seq<Obs>) {
    forall i: nat {:trigger Justified(log, i)} | i < |log| :: Justified(log, i)
  }

  ghost predicate Inv(r: Run) {
    Measured(r) && Disciplined(r) && FailureIsLast(r) && Timely(r) && SpawnsJustified(r.log)
  }

  lemma StartInv(now: Instant, ok: bool)
    ensures Inv(Start(now, ok))
  {
    var e := Tried(ConnectedResponse(0), ok);
    Push([], e);
    assert [] + [e] == [e];
  }

  /** A request asks something exactly when it spawns a task or is answered at once; what is owed is echoed. */
  lemma RequestBalance(core: Core, request: Payload, now: Instant, canSend: bool)
    ensures var o, seen := OnRemote(core, Some(request), now), Received(request, core.account.Some?, now);
            && o.core.account == core.account && (o.spawned.None? || o.reply.None?)
            && (Asks(seen) <==> o.spawned.Some? || (o.reply.Some? && IsReply(Tried(o.reply.value, canSend))))
            && Owed(seen) == (if o.reply.Some? && IsEcho(Tried(o.reply.value, canSend)) then o.reply else None)
            && o.core.position == Place(seen, core.position) && o.core.worldId == World(seen, core.worldId)
  {
  }

  lemma BalancedRequestMeasured(r: Run, r': Run, o: Outcome, seen: Obs, canSend: bool)
    requires Measured(r) && r.running && seen.Received?
    requires o.core.account == r.core.account && (o.spawned.None? || o.reply.None?)
    requires Asks(seen) <==> o.spawned.Some? || (o.reply.Some? && IsReply(Tried(o.reply.value, canSend)))
    requires Owed(seen) == if o.reply.Some? && IsEcho(Tried(o.reply.value, canSend)) then o.reply else None
    requires o.core.position == Place(seen, r.core.position) && o.core.worldId == World(seen, r.core.worldId)
    requires r'.core == o.core && r'.inner == r.inner
    requires r'.tasks == if o.spawned.Some? then r.tasks + [o.spawned.value] else r.tasks
    requires r'.log == r.log + if o.spawned.Some? then [seen, Spawned(o.spawned.value)]
                               else if o.reply.Some? then [seen, Tried(o.reply.value, canSend)]
                               else [seen]
    ensures Measured(r')
  {
    if o.spawned.Some? {
      PushTwo(r.log, seen, Spawned(o.spawned.value));
    } else if o.reply.Some? {
      PushTwo(r.log, seen, Tried(o.reply.value, canSend));
    } else {
      Push(r.log, seen);
    }
  }

  lemma ReceiveMeasured(r: Run, payload: Option<Payload>, now: Instant, canSend: bool)
    requires Measured(r) && Can(r, Receive(payload, now, canSend))
    ensures Measured(Do(r, Receive(payload, now, canSend)))
  {
    var added := ReceiveAdds(r, payload, now, canSend);
    if payload.Some? {
      RequestBalance(r.core, payload.value, now, canSend);
      BalancedRequestMeasured(r, Do(r, Receive(payload, now, canSend)), OnRemote(r.core, payload, now),
                              Received(payload.value, r.core.account.Some?, now), canSend);
    } else {
      assert r.log + added == r.log;
    }
  }

  /** A task result is answered once, and only a successful token check changes the account. */
  lemma ResultBalance(core: Core, message: Inner, now: Instant)
    ensures var o := OnInner(core, message, now);
            && o.spawned.None? && o.reply.Some? && IsReply(Tried(o.reply.value, true))
            && (o.authenticated.Some? ==> o.core.account.Some?)
            && (o.authenticated.None? ==> o.core == core)
            && o.core.position == core.position && o.core.worldId == core.worldId
  {
  }

  lemma BalancedResultMeasured(r: Run, r': Run, o: Outcome, now: Instant, canSend: bool)
    requires Measured(r) && r.inner != [] && r.running
    requires o.reply.Some? && IsReply(Tried(o.reply.value, true))
    requires o.authenticated.Some? ==> o.core.account.Some?
    requires o.authenticated.None? ==> o.core == r.core
    requires o.core.position == r.core.position && o.core.worldId == r.core.worldId
    requires r'.core == o.core && r'.inner == r.inner[1..] && r'.tasks == r.tasks
    requires r'.log == r.log + if o.authenticated.Some?
                               then [Became(o.core.account.value, now), Tried(o.reply.value, canSend)]
                               else [Tried(o.reply.value, canSend)]
    ensures Measured(r')
  {
    if o.authenticated.Some? {
      PushTwo(r.log, Became(o.core.account.value, now), Tried(o.reply.value, canSend));
    } else {
      Push(r.log, Tried(o.reply.value, canSend));
    }
  }

  lemma TakeInnerMeasured(r: Run, now: Instant, canSend: bool)
    requires Measured(r) && Can(r, TakeInner(now, canSend))
    ensures Measured(Do(r, TakeInner(now, canSend)))
  {
    var added := TakeInnerAdds(r, now, canSend);
    ResultBalance(r.core, r.inner[0], now);
    BalancedResultMeasured(r, Do(r, TakeInner(now, canSend)), OnInner(r.core, r.inner[0], now), now, canSend);
  }

  lemma GreetedStays(log: seq<Obs>, added: seq<Obs>)
    requires GreetedOnce(log) && forall i | 0 <= i < |added| :: !Greets(added[i])
    ensures GreetedOnce(log + added)
  {
  }

  lemma AuthedStays(log: seq<Obs>, k: nat, added: seq<Obs>)
    requires AuthedAt(log, k)
    ensures AuthedAt(log + added, k)
  {
    assert (log + added)[..k] == log[..k];
  }

  lemma QuietStays(log: seq<Obs>, added: seq<Obs>)
    requires Quiet(log) && forall i | 0 <= i < |added| :: QuietEntry(added[i])
    ensures Quiet(log + added)
  {
  }

  /** Before authentication a request only asks for a token check, is refused, or ends the session. */
  lemma UnauthenticatedRequest(core: Core, payload: Option<Payload>, now: Instant)
    requires core.account.None?
    ensures var o := OnRemote(core, payload, now);
            && o.core.account.None?
            && (o.spawned.Some? ==> o.spawned.value.TakeToken?)
            && (o.reply.Some? ==> o.reply.value == GameConnectResponse(false, 1))
  {
  }

  lemma RepliesDoNotGreet(core: Core, payload: Option<Payload>, now: Instant)
    ensures var o := OnRemote(core, payload, now);
            o.core.account == core.account && (o.reply.Some? ==> !o.reply.value.ConnectedResponse?)
  {
  }

  lemma ReceiveDisciplined(r: Run, payload: Option<Payload>, now: Instant, canSend: bool)
    requires Disciplined(r) && Can(r, Receive(payload, now, canSend))
    ensures Disciplined(Do(r, Receive(payload, now, canSend)))
  {
    var added := ReceiveAdds(r, payload, now, canSend);
    RepliesDoNotGreet(r.core, payload, now);
    GreetedStays(r.log, added);
    if r.core.account.Some? {
      AuthedStays(r.log, r.authAt, added);
    } else {
      UnauthenticatedRequest(r.core, payload, now);
      QuietStays(r.log, added);
    }
  }

  /** The first successful token check: the log so far was quiet. */
  lemma FirstAuthenticated(log: seq<Obs>, account: Account, now: Instant, ok: bool)
    requires Quiet(log)
    ensures AuthedAt(log + [Became(account, now), Tried(GameConnectResponse(true, 0), ok)], |log|)
  {
    assert (log + [Became(account, now), Tried(GameConnectResponse(true, 0), ok)])[..|log|] == log;
  }

  /** The reply to a task result; a result that does not authenticate is refused while unauthenticated. */
  lemma ResultReply(core: Core, message: Inner, now: Instant)
    ensures var o := OnInner(core, message, now);
            && o.reply.Some? && !o.reply.value.ConnectedResponse?
            && (o.authenticated.Some? ==>
                  o.core.account.Some? && o.reply.value == GameConnectResponse(true, 0))
            && (o.authenticated.None? ==> o.core == core)
            && (o.authenticated.None? && !message.ScoreSaved? ==>
                  o.reply.value == GameConnectResponse(false, 1) ||
                  o.reply.value == ErrorResponse(3))
  {
  }

  lemma TakeInnerDisciplined(r: Run, now: Instant, canSend: bool)
    requires Disciplined(r) && Can(r, TakeInner(now, canSend))
    ensures Disciplined(Do(r, TakeInner(now, canSend)))
  {
    var added := TakeInnerAdds(r, now, canSend);
    var o := OnInner(r.core, r.inner[0], now);
    ResultReply(r.core, r.inner[0], now);
    GreetedStays(r.log, added);
    if r.core.account.Some? {
      AuthedStays(r.log, r.authAt, added);
    } else if o.authenticated.Some? {
      FirstAuthenticated(r.log, o.core.account.value, now, canSend);
    } else {
      QuietStays(r.log, added);
    }
  }

  lemma TimelyStays(r: Run, r': Run, added: seq<Obs>)
    requires Timely(r) && FailureIsLast(r) && r.running && r'.log == r.log + added
    requires r.core.lastKeepAlive <= r'.core.lastKeepAlive <= r'.clock
    requires forall i | 0 <= i < |added| ::
               && !added[i].TimedOut?
               && (Refreshes(added[i]) ==> added[i].at <= r'.core.lastKeepAlive)
               && (added[i].Tried? && !added[i].ok ==> i == |added| - 1 && !r'.running)
    ensures Timely(r') && FailureIsLast(r')
  {
  }

  lemma HandlerTimely(r: Run, step: Step)
    requires Timely(r) && FailureIsLast(r) && Can(r, step) && (step.Receive? || step.TakeInner?)
    ensures FailureIsLast(Do(r, step)) && Timely(Do(r, step))
  {
    var added;
    if step.Receive? {
      added := ReceiveAdds(r, step.payload, step.now, step.canSend);
    } else {
      added := TakeInnerAdds(r, step.now, step.canSend);
    }
    TimelyStays(r, Do(r, step), added);
  }

  lemma JustifiedStays(log: seq<Obs>, account: Option<Account>, added: seq<Obs>)
    requires SpawnsJustified(log) && LastAccount(log) == account && |added| <= 2
    requires forall i | 0 <= i < |added| && added[i].Spawned? ::
               && i == 1 && Requests(added[0], added[1].task)
               && (added[1].task.SaveScore? ==> account.Some? && account.value.accountId == added[1].task.accountId)
    ensures SpawnsJustified(log + added)
  {
    var log' := log + added;
    forall i: nat | i < |log'| ensures Justified(log', i) {
      if i < |log| {
        assert Justified(log, i) && log'[..i] == log[..i];
      } else if log'[i].Spawned? {
        assert log'[i] == added[1] && log'[..i] == log + [added[0]];
        Push(log, added[0]);
      }
    }
  }

  lemma HandlerJustified(r: Run, step: Step)
    requires SpawnsJustified(r.log) && LastAccount(r.log) == r.core.account
    requires Can(r, step) && (step.Receive? || step.TakeInner?)
    ensures SpawnsJustified(Do(r, step).log)
  {
    var added;
    if step.Receive? {
      added := ReceiveAdds(r, step.payload, step.now, step.canSend);
    } else {
      added := TakeInnerAdds(r, step.now, step.canSend);
    }
    JustifiedStays(r.log, r.core.account, added);
  }

  lemma StepKeepsInv(r: Run, step: Step)
    requires Inv(r) && Can(r, step)
    ensures Inv(Do(r, step))
  {
    match step
    case Receive(payload, now, canSend) =>
      ReceiveMeasured(r, payload, now, canSend);
      ReceiveDisciplined(r, payload, now, canSend);
      HandlerTimely(r, step);
      HandlerJustified(r, step);
    case TakeInner(now, canSend) =>
      TakeInnerMeasured(r, now, canSend);
      TakeInnerDisciplined(r, now, canSend);
      HandlerTimely(r, step);
      HandlerJustified(r, step);
    case TaskDone(i, message) =>
    case TimeOut(now) =>
      TimeOutKeepsInv(r, now);
    case Stop =>
  }

  lemma TimeOutKeepsInv(r: Run, now: Instant)
    requires Inv(r) && Can(r, TimeOut(now))
    ensures Inv(Do(r, TimeOut(now)))
  {
    var r' := Do(r, TimeOut(now));
    Push(r.log, TimedOut(now));
    assert r.log == r'.log[..|r.log|];
    if r.core.account.Some? {
      AuthedStays(r.log, r.authAt, [TimedOut(now)]);
    }
    JustifiedStays(r.log, r.core.account, [TimedOut(now)]);
  }

  lemma {:induction false} TraceInv(states: seq<Run>, steps: seq<Step>, i: nat)
    requires IsTrace(states, steps) && i < |states|
    ensures Inv(states[i])
  {
    if i == 0 {
      var now, ok :| states[0] == Start(now, ok);
      StartInv(now, ok);
    } else {
      TraceInv(states, steps, i - 1);
      assert Linked(states, steps, i - 1);
      StepKeepsInv(states[i - 1], steps[i - 1]);
    }
  }

  lemma ReachableInv(steps: seq<Step>, r: Run)
    requires Reaches(steps, r)
    ensures Inv(r)
  {
    var states :| IsTrace(states, steps) && Last(states) == r;
    TraceInv(states, steps, |steps|);
  }

  // ---------------------------------------------------------------- theorems about every run

  /** While the session runs, requests handled = replies sent + tasks and inner messages outstanding. */
  lemma ReplyAccounting(steps: seq<Step>, r: Run)
    requires Reaches(steps, r) && r.running
    ensures Count(r.log).asked == Count(r.log).answered + |r.tasks| + |r.inner|
    ensures forall i | 0 <= i < |r.log| && r.log[i].Tried? :: r.log[i].ok
  {
    ReachableInv(steps, r);
  }

  /**
   The greeting comes first and once.  Either the session never authenticated and sent only refusals
   and database errors and saved no score, or that holds up to the point where it authenticated,
   which is followed at once by the successful reply.  Echoes are those owed to the authenticated moves
   and world changes, in order, and the last of these say where the session is.  Every backend task
   carries out the request it follows.
   */
  lemma TraceDiscipline(steps: seq<Step>, r: Run)
    requires Reaches(steps, r)
    ensures r.log != [] && r.log[0].Tried? && r.log[0].payload == ConnectedResponse(0)
    ensures forall i | 1 <= i < |r.log| && r.log[i].Tried? :: !r.log[i].payload.ConnectedResponse?
    ensures r.core.account == LastAccount(r.log)
    ensures if r.core.account.None? then Quiet(r.log)
            else exists k :: AuthedAt(r.log, k)
    ensures Count(r.log).echoes == Count(r.log).owed
    ensures r.core.position == Count(r.log).place && r.core.worldId == Count(r.log).world
    ensures SpawnsJustified(r.log)
  {
    ReachableInv(steps, r);
    assert r.core.account.Some? ==> AuthedAt(r.log, r.authAt);
  }

  /** Nothing is tried after a failed send: it ends the log and the loop. */
  lemma NothingAfterFailedSend(steps: seq<Step>, r: Run, i: nat)
    requires Reaches(steps, r) && i < |r.log| && r.log[i].Tried? && !r.log[i].ok
    ensures i == |r.log| - 1 && !r.running
  {
    ReachableInv(steps, r);
  }

  /**
   A keep-alive exit happens only to an authenticated session, and only when the full timeout has
   passed since it authenticated and since every KeepAlive.
   */
  lemma TimeoutIsDeserved(steps: seq<Step>, r: Run, i: nat)
    requires Reaches(steps, r) && i < |r.log| && r.log[i].TimedOut?
    ensures LastAccount(r.log[..i]).Some?
    ensures forall j | 0 <= j < i && Refreshes(r.log[j]) :: r.log[i].at - r.log[j].at >= 10_000_000_000
    ensures i == |r.log| - 1 && !r.running
  {
    ReachableInv(steps, r);
    assert Front(r.log) == r.log[..i] && !Last(r.log).Became?;
  }

  /** Authentication is never undone: once a session has an account, it has one at every later point. */
  lemma {:induction false} AuthenticationStays(states: seq<Run>, steps: seq<Step>, i: nat, j: nat)
    requires IsTrace(states, steps) && i <= j < |states| && states[i].core.account.Some?
    ensures states[j].core.account.Some?
  {
    if i == j {
    } else {
      AuthenticationStays(states, steps, i, j - 1);
      assert Linked(states, steps, j - 1);
    }
  }
}
