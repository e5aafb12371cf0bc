/**
 A client and its GameServer session against the clock.  `delay` bounds how long anything may take:
 a reply must be handled by the client, and a due client tick by the server, within `delay`.
 The server side is the session's own handlers.
 */
module KeepAlive {
  import opened Prelude
  import opened Messages
  import opened TokenValue
  import opened GameSession

  /** How often an authenticated client sends a KeepAlive. */
  const KEEP_ALIVE_INTERVAL: int := 3 * SECOND

  /**
   `reply`: when the successful GameConnectResponse still under way was sent.  `nextTick`: when the
   client's interval is next due.  `underway`: the due times of the KeepAlives sent but not handled.
   */
  datatype World = World(
    now: Instant,
    server: Core,
    reply: Option<Instant>,
    nextTick: Option<Instant>,
    underway: seq<Instant>)

  function Start(now: Instant): World {
    World(now, GameSession.Init(now), None, None, [])
  }

  datatype Step =
    | Advance(to: Instant)
    | Authenticate(account: Account) // the server handles a valid token, once
    | Joined                         // the client handles the reply and starts its interval
    | Tick                           // the client's interval fires and it sends a KeepAlive
    | Arrive                         // the server handles a KeepAlive

  ghost predicate InTime(w: World, to: Instant, delay: nat) {
    && (w.reply.Some? ==> to <= w.reply.value + delay)
    && (w.nextTick.Some? ==> to <= w.nextTick.value + delay)
    && (forall i | 0 <= i < |w.underway| :: to <= w.underway[i] + delay)
  }

  ghost predicate Can(w: World, step: Step, delay: nat) {
    match step
    case Advance(to) => to >= w.now && InTime(w, to, delay)
    case Authenticate(_) => w.server.account.None?
    case Joined => w.reply.Some?
    case Tick => w.nextTick.Some? && w.now >= w.nextTick.value
    case Arrive => w.underway != []
  }

  function Do(w: World, step: Step, delay: nat): World
    requires Can(w, step, delay)
  {
    match step
    case Advance(to) => w.(now := to)
    case Authenticate(account) =>
      w.(server := OnInner(w.server, TokenTaken(Some(Format(account))), w.now).core, reply := Some(w.now))
    case Joined => w.(reply := None, nextTick := Some(w.now + KEEP_ALIVE_INTERVAL))
    case Tick => // a late tick does not shift the ones after it
      w.(underway := w.underway + [w.nextTick.value], nextTick := Some(w.nextTick.value + KEEP_ALIVE_INTERVAL))
    case Arrive =>
      w.(server := OnRemote(w.server, Some(KeepAliveRequest), w.now).core, underway := w.underway[1..])
  }

  ghost predicate Linked(states: seq<World>, steps: seq<Step>, i: nat, delay: nat)
    requires i < |steps| < |states|
  {
    Can(states[i], steps[i], delay) && states[i + 1] == Do(states[i], steps[i], delay)
  }

  ghost predicate IsTrace(states: seq<World>, steps: seq<Step>, delay: nat) {
    && |states| == |steps| + 1 && (exists now :: states[0] == Start(now))
    && forall i: nat {:trigger Linked(states, steps, i, delay)} | i < |steps| :: Linked(states, steps, i, delay)
  }

  /** The steps, none later than `delay` allows, lead from a start to `w`. */
  ghost predicate Reaches(steps: seq<Step>, w: World, delay: nat) {
    exists states :: IsTrace(states, steps, delay) && Last(states) == w
  }

  /** The due time of the first KeepAlive the server has yet to handle. */
  function Pending(w: World): Instant
    requires w.nextTick.Some?
  {
    if w.underway == [] then w.nextTick.value else w.underway[0]
  }

  /** Due times are one interval apart, and those sent are due. */
  ghost predicate Regular(w: World)
    requires w.nextTick.Some?
  {
    && (forall i | 0 <= i < |w.underway| :: w.underway[i] <= w.now)
    && (forall i | 0 <= i < |w.underway| - 1 :: w.underway[i + 1] == w.underway[i] + KEEP_ALIVE_INTERVAL)
    && (w.underway != [] ==> w.nextTick.value == Last(w.underway) + KEEP_ALIVE_INTERVAL)
  }

  ghost predicate Inv(w: World, delay: nat) {
    if w.server.account.None? then w.reply.None? && w.nextTick.None? && w.underway == []
    else if w.reply.Some? then
      && w.nextTick.None? && w.underway == []
      && w.reply.value == w.server.lastKeepAlive && w.now <= w.reply.value + delay
    else
      && w.nextTick.Some? && Regular(w)
      && w.now <= Pending(w) + delay
      && w.server.lastKeepAlive >= Pending(w) - KEEP_ALIVE_INTERVAL - delay
  }

  lemma StepKeepsInv(w: World, step: Step, delay: nat)
    requires Inv(w, delay) && Can(w, step, delay)
    ensures Inv(Do(w, step, delay), delay)
  {
    match step
    case Authenticate(account) => RoundTrip(account);
    case Arrive =>
      assert w.underway[1..] != [] ==> Last(w.underway[1..]) == Last(w.underway);
    case _ =>
  }

  lemma {:induction false} TraceInv(states: seq<World>, steps: seq<Step>, i: nat, delay: nat)
    requires IsTrace(states, steps, delay) && i < |states|
    ensures Inv(states[i], delay)
  {
    if i == 0 {
    } else {
      TraceInv(states, steps, i - 1, delay);
      assert Linked(states, steps, i - 1, delay);
      StepKeepsInv(states[i - 1], steps[i - 1], delay);
    }
  }

  lemma ReachableInv(steps: seq<Step>, w: World, delay: nat)
    requires Reaches(steps, w, delay)
    ensures Inv(w, delay)
  {
    var states :| IsTrace(states, steps, delay) && Last(states) == w;
    TraceInv(states, steps, |steps|, delay);
  }

  lemma Extend(steps: seq<Step>, w: World, step: Step, delay: nat)
    requires Reaches(steps, w, delay) && Can(w, step, delay)
    ensures Reaches(steps + [step], Do(w, step, delay), delay)
  {
    var states :| IsTrace(states, steps, delay) && Last(states) == w;
    var states', steps' := states + [Do(w, step, delay)], steps + [step];
    forall i: nat | i < |steps'| ensures Linked(states', steps', i, delay) {
      assert i < |steps| ==> Linked(states, steps, i, delay);
    }
    assert IsTrace(states', steps', delay) && Last(states') == Do(w, step, delay);
  }

  /** The slowest client allowed: its first KeepAlive is as late as it can be. */
  lemma SlowestClient(account: Account, delay: nat) returns (steps: seq<Step>, w: World)
    ensures Reaches(steps, w, delay)
    ensures w.server.account == Some(account)
    ensures w.now == w.server.lastKeepAlive + KEEP_ALIVE_INTERVAL + 2 * delay
  {
    steps, w := [], Start(0);
    assert IsTrace([w], steps, delay) && Last([w]) == w;
    RoundTrip(account);
    var script := [Authenticate(account), Advance(delay), Joined, Advance(KEEP_ALIVE_INTERVAL + 2 * delay)];
    Extend(steps, w, script[0], delay);
    steps, w := steps + [script[0]], Do(w, script[0], delay);
    Extend(steps, w, script[1], delay);
    steps, w := steps + [script[1]], Do(w, script[1], delay);
    Extend(steps, w, script[2], delay);
    steps, w := steps + [script[2]], Do(w, script[2], delay);
    Extend(steps, w, script[3], delay);
    steps, w := steps + [script[3]], Do(w, script[3], delay);
  }

  /**
   A session never times out while its client runs, in any run with delays up to `delay`, if and only
   if one interval and two delays fit strictly within the timeout.
   */
  lemma NeverTimesOutIff(delay: nat)
    ensures (forall steps, w :: Reaches(steps, w, delay) ==> !TimerDue(w.server, w.now)) <==>
            3_000_000_000 + 2 * delay < 10_000_000_000
  {
    if KEEP_ALIVE_INTERVAL + 2 * delay < KEEP_ALIVE_TIMEOUT {
      forall steps, w | Reaches(steps, w, delay) ensures !TimerDue(w.server, w.now) {
        ReachableInv(steps, w, delay);
      }
    } else {
      var steps, w := SlowestClient(Account(0, ""), delay);
      assert Reaches(steps, w, delay) && TimerDue(w.server, w.now);
    }
  }
}
