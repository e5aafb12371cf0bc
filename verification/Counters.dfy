/** The client counters, with every atomic operation a separate step. */
module Counters {
  import opened Prelude

  /**
   Where a client is between two atomic operations.  `Moving` and `Ending` lie between the decrement
   of one counter and the increment of the next.
   */
  datatype Stage = NotStarted | InLogin | Moving | InGame | Ending | Done

  /** The next atomic operation takes a client to this stage; `failed` says how its login went. */
  function After(stage: Stage, failed: bool): Stage {
    match stage
    case NotStarted => InLogin
    case InLogin => if failed then Ending else Moving
    case Moving => InGame
    case InGame => Ending
    case Ending => Done
    case Done => Done
  }

  datatype World = World(clients: seq<Stage>, login: int, game: int, disconnected: int)

  /** Client `who` performs its next atomic operation. */
  datatype Turn = Turn(who: nat, failed: bool)

  function Moved(w: World, t: Turn): World {
    if t.who >= |w.clients| then w
    else
      var stage := w.clients[t.who];
      var clients := w.clients[t.who := After(stage, t.failed)];
      match stage
      case NotStarted => w.(clients := clients, login := w.login + 1)
      case InLogin => w.(clients := clients, login := w.login - 1)
      case Moving => w.(clients := clients, game := w.game + 1)
      case InGame => w.(clients := clients, game := w.game - 1)
      case Ending => w.(clients := clients, disconnected := w.disconnected + 1)
      case Done => w
  }

  function Start(clients: nat): World {
    World(seq(clients, _ => NotStarted), 0, 0, 0)
  }

  /** Any interleaving is a sequence of turns. */
  function Run(w: World, turns: seq<Turn>): World {
    if turns == [] then w else Moved(Run(w, Front(turns)), Last(turns))
  }

  function One(stage: Stage, stages: set<Stage>): nat {
    if stage in stages then 1 else 0
  }

  function At(clients: seq<Stage>, stages: set<Stage>): nat {
    if clients == [] then 0 else At(Front(clients), stages) + One(Last(clients), stages)
  }

  const BETWEEN: set<Stage> := {Moving, Ending}
  const STARTED: set<Stage> := {InLogin, Moving, InGame, Ending, Done}

  /** Each counter is the number of clients at the stage it counts. */
  predicate Exact(w: World) {
    && w.login == At(w.clients, {InLogin})
    && w.game == At(w.clients, {InGame})
    && w.disconnected == At(w.clients, {Done})
  }

  lemma {:induction false} AtUpdate(clients: seq<Stage>, i: nat, stage: Stage, stages: set<Stage>)
    requires i < |clients|
    ensures At(clients[i := stage], stages) == At(clients, stages) - One(clients[i], stages) + One(stage, stages)
  {
    if i == |clients| - 1 {
      assert Front(clients[i := stage]) == Front(clients);
    } else {
      AtUpdate(Front(clients), i, stage, stages);
      assert Front(clients[i := stage]) == Front(clients)[i := stage];
    }
  }

  lemma {:induction false} AtStart(n: nat, stages: set<Stage>)
    requires NotStarted !in stages
    ensures At(Start(n).clients, stages) == 0
  {
    if n == 0 {
    } else {
      AtStart(n - 1, stages);
      assert Front(Start(n).clients) == Start(n - 1).clients;
    }
  }

  lemma MovedExact(w: World, t: Turn)
    requires Exact(w)
    ensures Exact(Moved(w, t))
  {
    if t.who < |w.clients| {
      var stage := After(w.clients[t.who], t.failed);
      AtUpdate(w.clients, t.who, stage, {InLogin});
      AtUpdate(w.clients, t.who, stage, {InGame});
      AtUpdate(w.clients, t.who, stage, {Done});
    }
  }

  /** In every interleaving each counter is exact, and so never negative. */
  lemma {:induction false} CountersExact(n: nat, turns: seq<Turn>)
    ensures Exact(Run(Start(n), turns)) && |Run(Start(n), turns).clients| == n
  {
    if turns == [] {
      AtStart(n, {InLogin});
      AtStart(n, {InGame});
      AtStart(n, {Done});
    } else {
      CountersExact(n, Front(turns));
      MovedExact(Run(Start(n), Front(turns)), Last(turns));
    }
  }

  lemma {:induction false} StagesPartition(clients: seq<Stage>)
    ensures At(clients, {InLogin}) + At(clients, {InGame}) + At(clients, {Done}) + At(clients, BETWEEN)
            == At(clients, STARTED) == |clients| - At(clients, {NotStarted})
  {
    if clients == [] {
    } else {
      StagesPartition(Front(clients));
      var stage := Last(clients);
      assert stage in STARTED <==> !stage.NotStarted?;
      assert stage in BETWEEN <==> stage.Moving? || stage.Ending?;
    }
  }

  /** The counters and the clients in between add up to the clients started. */
  lemma Conservation(n: nat, turns: seq<Turn>)
    ensures var w := Run(Start(n), turns);
            && w.login + w.game + w.disconnected + At(w.clients, BETWEEN) == At(w.clients, STARTED)
            && w.login >= 0 && w.game >= 0 && w.disconnected >= 0
  {
    CountersExact(n, turns);
    StagesPartition(Run(Start(n), turns).clients);
  }

  lemma {:induction false} AtAll(clients: seq<Stage>, stage: Stage, stages: set<Stage>)
    requires forall i | 0 <= i < |clients| :: clients[i] == stage
    ensures At(clients, stages) == if stage in stages then |clients| else 0
  {
    if clients == [] {
    } else {
      AtAll(Front(clients), stage, stages);
    }
  }

  lemma {:induction false} AtOnly(clients: seq<Stage>, stages: set<Stage>)
    requires At(clients, stages) == |clients|
    ensures forall i | 0 <= i < |clients| :: clients[i] in stages
  {
    if clients == [] {
    } else {
      AtMost(Front(clients), stages);
      AtOnly(Front(clients), stages);
      assert forall i | 0 <= i < |clients| - 1 :: clients[i] == Front(clients)[i];
    }
  }

  lemma {:induction false} AtMost(clients: seq<Stage>, stages: set<Stage>)
    ensures At(clients, stages) <= |clients|
  {
    if clients == [] {
    } else {
      AtMost(Front(clients), stages);
    }
  }

  /** The counters read (0, 0, n) exactly when all n clients have finished. */
  lemma AllFinishedIff(n: nat, turns: seq<Turn>)
    ensures var w := Run(Start(n), turns);
            (w.login == 0 && w.game == 0 && w.disconnected == n) <==>
            forall i | 0 <= i < |w.clients| :: w.clients[i] == Done
  {
    var w := Run(Start(n), turns);
    CountersExact(n, turns);
    if forall i | 0 <= i < |w.clients| :: w.clients[i] == Done {
      AtAll(w.clients, Done, {InLogin});
      AtAll(w.clients, Done, {InGame});
      AtAll(w.clients, Done, {Done});
    } else if w.disconnected == n {
      AtOnly(w.clients, {Done});
    }
  }

  // ---------------------------------------------------------------- one client's way

  /** The turns of one client. */
  function Own(turns: seq<Turn>, who: nat): seq<Turn> {
    if turns == [] then []
    else Own(Front(turns), who) + if Last(turns).who == who then [Last(turns)] else []
  }

  /**
   A client's stage after its own turns: logging in, then either in between and in the game before it
   ends, or, if its login failed, ending at once without ever having been in the game.
   */
  function StageAfter(own: seq<Turn>): Stage {
    match |own|
    case 0 => NotStarted
    case 1 => InLogin
    case 2 => if own[1].failed then Ending else Moving
    case 3 => if own[1].failed then Done else InGame
    case 4 => if own[1].failed then Done else Ending
    case _ => Done
  }

  /** However the clients are interleaved, each goes its own way. */
  lemma {:induction false} StageIsOwn(n: nat, turns: seq<Turn>, i: nat)
    requires i < n
    ensures |Run(Start(n), turns).clients| == n
    ensures Run(Start(n), turns).clients[i] == StageAfter(Own(turns, i))
  {
    if turns == [] {
    } else {
      StageIsOwn(n, Front(turns), i);
    }
  }

  // ---------------------------------------------------------------- the monitor's snapshot

  /** The order in which a client passes its stages. */
  function Rank(stage: Stage): nat {
    match stage
    case NotStarted => 0
    case InLogin => 1
    case Moving => 2
    case InGame => 3
    case Ending => 4
    case Done => 5
  }

  lemma {:induction false} RanksRise(w: World, turns: seq<Turn>)
    ensures |Run(w, turns).clients| == |w.clients|
    ensures forall i | 0 <= i < |w.clients| :: Rank(w.clients[i]) <= Rank(Run(w, turns).clients[i])
  {
    if turns == [] {
    } else {
      RanksRise(w, Front(turns));
    }
  }

  /** It was not past its login at one load and is at the next. */
  predicate LeftLogin(earlier: Stage, later: Stage) {
    Rank(earlier) <= Rank(InLogin) < Rank(later)
  }

  predicate Finished(earlier: Stage, later: Stage) {
    earlier != Done && later == Done
  }

  /** What the three loads count of the clients, with those in between at the second load. */
  function Seen(a: seq<Stage>, b: seq<Stage>, c: seq<Stage>): nat {
    At(a, {InLogin}) + At(b, {InGame}) + At(c, {Done}) + At(b, BETWEEN)
  }

  /** No started client is missed; each is counted once if and only if none moves past a later load. */
  lemma {:induction false} SeenIff(a: seq<Stage>, b: seq<Stage>, c: seq<Stage>)
    requires |a| == |b| == |c|
    requires forall i | 0 <= i < |a| :: Rank(a[i]) <= Rank(b[i]) <= Rank(c[i])
    ensures Seen(a, b, c) >= At(a, STARTED)
    ensures Seen(a, b, c) == At(a, STARTED) <==>
            AllStay(a, b, c)
  {
    if a == [] {
    } else {
      SeenIff(Front(a), Front(b), Front(c));
      OneSeenIff(Last(a), Last(b), Last(c));
      AllStayFront(a, b, c);
    }
  }

  /** No client leaves its login between the first two loads, and none finishes between the last two. */
  ghost predicate AllStay(a: seq<Stage>, b: seq<Stage>, c: seq<Stage>)
    requires |a| == |b| == |c|
  {
    forall i | 0 <= i < |a| :: !LeftLogin(a[i], b[i]) && !Finished(b[i], c[i])
  }

  lemma AllStayFront(a: seq<Stage>, b: seq<Stage>, c: seq<Stage>)
    requires |a| == |b| == |c| > 0
    ensures AllStay(a, b, c) <==>
            AllStay(Front(a), Front(b), Front(c)) && !LeftLogin(Last(a), Last(b)) && !Finished(Last(b), Last(c))
  {
    assert forall i | 0 <= i < |a| - 1 :: a[i] == Front(a)[i] && b[i] == Front(b)[i] && c[i] == Front(c)[i];
  }

  lemma OneSeenIff(a: Stage, b: Stage, c: Stage)
    requires Rank(a) <= Rank(b) <= Rank(c)
    ensures var seen := One(a, {InLogin}) + One(b, {InGame}) + One(c, {Done}) + One(b, BETWEEN);
            && seen >= One(a, STARTED)
            && (seen == One(a, STARTED) <==> !LeftLogin(a, b) && !Finished(b, c))
  {
    assert a in STARTED <==> !a.NotStarted?;
    assert b in BETWEEN <==> b.Moving? || b.Ending?;
  }

  /**
   A snapshot loads the three counters one after another while clients go on.  It misses no client
   that had started, other than those in between at the second load.  It counts every one of them
   exactly once if and only if no client leaves its login between the first two loads and none
   finishes between the last two.
   */
  lemma SnapshotExactIff(n: nat, before: seq<Turn>, first: seq<Turn>, second: seq<Turn>)
    ensures var a := Run(Start(n), before);
            var b := Run(a, first);
            var c := Run(b, second);
            var total := a.login + b.game + c.disconnected + At(b.clients, BETWEEN);
            && |a.clients| == |b.clients| == |c.clients| == n
            && total >= At(a.clients, STARTED)
            && (total == At(a.clients, STARTED) <==> AllStay(a.clients, b.clients, c.clients))
  {
    var a := Run(Start(n), before);
    var b := Run(a, first);
    var c := Run(b, second);
    CountersExact(n, before);
    RunExact(a, first);
    RunExact(b, second);
    RanksRise(a, first);
    RanksRise(b, second);
    SeenIff(a.clients, b.clients, c.clients);
  }

  /** If no client moves while the counters are loaded, the snapshot is the state, and counts right. */
  lemma QuietSnapshotIsExact(n: nat, before: seq<Turn>, first: seq<Turn>, second: seq<Turn>)
    requires forall i | 0 <= i < |first| :: Idle(Run(Start(n), before), first[i])
    requires forall i | 0 <= i < |second| :: Idle(Run(Start(n), before), second[i])
    ensures var a := Run(Start(n), before);
            var c := Run(Run(a, first), second);
            && c == Run(a, first) == a
            && a.login + a.game + a.disconnected + At(a.clients, BETWEEN) == At(a.clients, STARTED)
  {
    var a := Run(Start(n), before);
    IdleChangesNothing(a, first);
    IdleChangesNothing(a, second);
    SnapshotExactIff(n, before, first, second);
  }

  /** A turn of a client that does not exist or has finished. */
  predicate Idle(w: World, t: Turn) {
    t.who >= |w.clients| || w.clients[t.who] == Done
  }

  lemma {:induction false} IdleChangesNothing(w: World, turns: seq<Turn>)
    requires forall i | 0 <= i < |turns| :: Idle(w, turns[i])
    ensures Run(w, turns) == w
  {
    if turns == [] {
    } else {
      IdleChangesNothing(w, Front(turns));
    }
  }

  lemma {:induction false} RunExact(w: World, turns: seq<Turn>)
    requires Exact(w)
    ensures Exact(Run(w, turns))
  {
    if turns == [] {
    } else {
      RunExact(w, Front(turns));
      MovedExact(Run(w, Front(turns)), Last(turns));
    }
  }

  /** But it can see one client three times: the snapshot is not a state that ever existed. */
  lemma SnapshotCanCountThrice()
    ensures exists before, first, second ::
              var a := Run(Start(1), before);
              var b := Run(a, first);
              var c := Run(b, second);
              a.login == 1 && b.game == 1 && c.disconnected == 1
  {
    var t := Turn(0, false);
    assert Front([t]) == [] && Front([t, t]) == [t];
    var a := Run(Start(1), [t]);
    assert a == World([InLogin], 1, 0, 0) by {
      assert Run(Start(1), []) == World([NotStarted], 0, 0, 0);
    }
    var b := Run(a, [t, t]);
    assert b == World([InGame], 0, 1, 0) by {
      assert Run(a, [t]) == World([Moving], 0, 0, 0);
    }
    var c := Run(b, [t, t]);
    assert c == World([Done], 0, 0, 1) by {
      assert Run(b, [t]) == World([Ending], 0, 0, 0);
    }
  }

  // ---------------------------------------------------------------- the counters as an object

  /** The shared atomics; a step is one client's next operation on them. */
  class SharedCounters {
    var loginServer: int
    var gameServer: int
    var disconnected: int

    constructor ()
      ensures loginServer == gameServer == disconnected == 0
    {
      loginServer, gameServer, disconnected := 0, 0, 0;
    }

    ghost predicate Shows(w: World)
      reads this
    {
      loginServer == w.login && gameServer == w.game && disconnected == w.disconnected
    }

    method Step(ghost w: World, stage: Stage, t: Turn) returns (next: Stage)
      requires Shows(w) && t.who < |w.clients| && w.clients[t.who] == stage
      modifies this
      ensures Shows(Moved(w, t)) && next == Moved(w, t).clients[t.who]
    {
      match stage {
        case NotStarted => loginServer := loginServer + 1; next := InLogin;
        case InLogin => loginServer := loginServer - 1; next := if t.failed then Ending else Moving;
        case Moving => gameServer := gameServer + 1; next := InGame;
        case InGame => gameServer := gameServer - 1; next := Ending;
        case Ending => disconnected := disconnected + 1; next := Done;
        case Done => next := Done;
      }
    }
  }

  /** The clients run in the order of the turns; the counters end as they do in the model. */
  method RunClients(n: nat, turns: seq<Turn>) returns (login: int, game: int, disconnected: int)
    ensures World(Run(Start(n), turns).clients, login, game, disconnected) == Run(Start(n), turns)
  {
    var counters := new SharedCounters();
    var clients := seq(n, _ => NotStarted);
    for k := 0 to |turns|
      invariant fresh(counters) && counters.Shows(Run(Start(n), turns[..k]))
      invariant clients == Run(Start(n), turns[..k]).clients
    {
      assert Front(turns[..k + 1]) == turns[..k];
      if turns[k].who < n {
        ghost var w := Run(Start(n), turns[..k]);
        CountersExact(n, turns[..k]);
        var next := counters.Step(w, clients[turns[k].who], turns[k]);
        clients := clients[turns[k].who := next];
      } else {
        CountersExact(n, turns[..k]);
      }
    }
    assert turns[..|turns|] == turns;
    login, game, disconnected := counters.loginServer, counters.gameServer, counters.disconnected;
  }
}
