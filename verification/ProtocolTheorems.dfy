/** What holds in every reachable state of both servers. */
module ProtocolTheorems {
  import opened Prelude
  import opened Messages
  import opened TokenValue
  import opened SessionServer
  import opened Protocol
  import opened ProtocolHistory
  import opened ProtocolInvariants
  import R = RegistrySpec
  import G = GameSession

  /**
   A login task did all of this, in this order, before position `end` of the log: it was asked to
   check some credentials, fetched `row`, found that the password matches and that the account is not
   banned, updated the last login, and stored `key` with the value of that row.
   */
  ghost predicate IssuedBefore(env: Env, log: seq<Event>, end: nat, key: Key, row: Row) {
    exists task: nat, m: seq<nat> ::
      && |m| == 5 && m[0] < m[1] < m[2] < m[3] < m[4] < end <= |log|
      && log[m[0]].Requested? && log[m[0]].task == task
      && log[m[1]] == Fetched(task, row)
      && (var hash := log[m[0]].credentials.passwordHash;
          log[m[2]] == Verified(task, row, hash) && env.verify(hash, row.passwordHash, row.salt) == Matches)
      && row.status != 1
      && log[m[3]] == Touched(task, row.accountId)
      && log[m[4]] == Stored(task, key, Format(Account(row.accountId, row.userId)))
  }

  /** The authentication at `i` used a token issued earlier for a row with exactly its account. */
  ghost predicate Proven(env: Env, log: seq<Event>, i: nat)
    requires i < |log| && log[i].Authenticated?
  {
    log[i].token.Some? &&
    exists row: Row ::
      row.accountId == log[i].account.accountId && row.userId == log[i].account.userId &&
      IssuedBefore(env, log, i, log[i].token.value, row)
  }

  /**
   Provenance: whenever a game session becomes authenticated, it used a token, and an earlier login
   task issued that token for a row with exactly this account_id and user_id.
   */
  lemma Provenance(env: Env, steps: seq<Step>, w: World, i: nat)
    requires Reaches(env, steps, w) && i < |w.log| && w.log[i].Authenticated?
    ensures Proven(env, w.log, i)
  {
    ReachableInv(env, steps, w);
    assert AuthBacked(w.log, i, w.tokens);
    var key := w.log[i].token.value;
    var token := w.tokens[key];
    assert TokenTrail(env, w.log, key, token);
    var m := token.marks;
    assert m[0] < m[1] < m[2] < m[3] < m[4] < i;
    assert IssuedBefore(env, w.log, i, key, token.row);
  }

  /** Every account a game session has comes from such an authentication of that session. */
  lemma AccountsHaveProvenance(env: Env, steps: seq<Step>, w: World, id: nat)
    requires Reaches(env, steps, w) && id in w.game.sessions && w.game.sessions[id].core.account.Some?
    ensures exists i ::
              BecameAt(w.log, i, id, w.game.sessions[id].core.account.value) && Proven(env, w.log, i)
  {
    ReachableInv(env, steps, w);
    assert AccountBacked(w.log, w.game, id);
    var i :| BecameAt(w.log, i, id, w.game.sessions[id].core.account.value);
    Provenance(env, steps, w, i);
  }

  /** The user a session of either server currently is, if any. */
  function GameUser(w: World, id: nat): Option<string>
    requires id in w.game.sessions
  {
    var account := w.game.sessions[id].core.account;
    if account.Some? then Some(account.value.userId) else None
  }

  function LoginUser(w: World, id: nat): Option<string>
    requires id in w.login.sessions
  {
    w.login.sessions[id].core.account
  }

  /**
   Exclusivity: in every reachable state, at most one session of a server that carries a user has an
   uncancelled kick token, and it is the session the user maps to.
   */
  lemma AtMostOneActiveSession(env: Env, steps: seq<Step>, w: World, user: string)
    requires Reaches(env, steps, w)
    ensures forall a | a in w.game.sessions && GameUser(w, a) == Some(user) && a !in w.game.registry.kicked ::
              Get(w.game.registry.authenticated, user) == Some(a)
    ensures forall a, b |
              a in w.game.sessions && GameUser(w, a) == Some(user) && a !in w.game.registry.kicked &&
              b in w.game.sessions && GameUser(w, b) == Some(user) && b !in w.game.registry.kicked :: a == b
    ensures forall a, b |
              a in w.login.sessions && LoginUser(w, a) == Some(user) && a !in w.login.registry.kicked &&
              b in w.login.sessions && LoginUser(w, b) == Some(user) && b !in w.login.registry.kicked ::
              a == b
  {
    ReachableInv(env, steps, w);
    forall a | a in w.game.sessions && GameUser(w, a) == Some(user) && a !in w.game.registry.kicked
      ensures R.Active(w.game.registry, a, user)
    {
      assert AccountBacked(w.log, w.game, a);
    }
    forall a, b |
      a in w.game.sessions && GameUser(w, a) == Some(user) && a !in w.game.registry.kicked &&
      b in w.game.sessions && GameUser(w, b) == Some(user) && b !in w.game.registry.kicked
      ensures a == b
    {
      R.AtMostOneActive(w.game.registry, a, b, user);
    }
    forall a, b |
      a in w.login.sessions && LoginUser(w, a) == Some(user) && a !in w.login.registry.kicked &&
      b in w.login.sessions && LoginUser(w, b) == Some(user) && b !in w.login.registry.kicked
      ensures a == b
    {
      R.AtMostOneActive(w.login.registry, a, b, user);
    }
  }

  /** A session handles at most one event after its kick token is cancelled. */
  lemma KicksAreHeeded(env: Env, steps: seq<Step>, w: World)
    requires Reaches(env, steps, w)
    ensures forall id | id in w.game.sessions :: w.game.sessions[id].late <= 1
    ensures forall id | id in w.login.sessions :: w.login.sessions[id].late <= 1
  {
    ReachableInv(env, steps, w);
  }

  /**
   Index agreement on GameServer: in runs where each session authenticates at most once, a user maps
   to its most recent authenticator while that session is registered and to nothing afterwards, so
   every mapping points to a live session with that user, and none is left when all have gone.
   */
  lemma GameIndexAgrees(env: Env, steps: seq<Step>, w: World, user: string)
    requires Reaches(env, steps, w) && OneAuthPerSession(w.game.auths)
    ensures Get(w.game.registry.authenticated, user) ==
            match LastAuthenticator(w.game.auths, user) {
              case Some(id) => if id in w.game.sessions then Some(id) else None
              case None => None
            }
    ensures R.IndexAgrees(w.game.registry)
    ensures w.game.sessions == map[] ==> w.game.registry.authenticated == map[] && w.game.registry.sessions == map[]
  {
    ReachableInv(env, steps, w);
    IndexIsLastAuthenticator(w.game, user);
    forall u { OneAuthMeansNoneStale(w.game.auths, u); }
    IndexAgreesIffNoneStale(w.game);
    if w.game.sessions == map[] {
      EmptyIffNoneStale(w.game);
    }
  }

  /** Without that hypothesis, on either server: the index agrees exactly when no user is stale. */
  lemma IndexAgreesIff(env: Env, steps: seq<Step>, w: World)
    requires Reaches(env, steps, w)
    ensures R.IndexAgrees(w.game.registry) <==> forall user :: !Stale(w.game.auths, user)
    ensures R.IndexAgrees(w.login.registry) <==> forall user :: !Stale(w.login.auths, user)
  {
    ReachableInv(env, steps, w);
    IndexAgreesIffNoneStale(w.game);
    IndexAgreesIffNoneStale(w.login);
  }

  // ---------------------------------------------------------------- tokens

  /** A message carrying the value taken from `key` is held by a task or waits in a channel. */
  ghost predicate InFlight(w: World, key: Key) {
    (exists t :: Holds(w.gameTasks, t, key)) || (exists id, n :: Queued(w.game.sessions, id, n, key))
  }

  ghost predicate Authenticates(w: World, key: Key) {
    exists i, session :: AuthAt(w.log, i, session, key)
  }

  /** What the log says was stored is what is on record, and no key is stored twice. */
  lemma StoredOnce(env: Env, steps: seq<Step>, w: World, key: Key)
    requires Reaches(env, steps, w)
    ensures key in w.tokens <==> exists i :: StoredAt(w.log, i, key)
    ensures forall i, j | StoredAt(w.log, i, key) && StoredAt(w.log, j, key) :: i == j
  {
    ReachableInv(env, steps, w);
    ReachableLists(env, steps, w);
    forall i | StoredAt(w.log, i, key)
      ensures key in w.tokens && w.tokens[key].marks != [] && Last(w.tokens[key].marks) == i
    {
      assert Listed(w.log, w.tokens, i);
    }
    if key in w.tokens {
      assert TokenTrail(env, w.log, key, w.tokens[key]);
      assert StoredAt(w.log, w.tokens[key].marks[4], key);
    }
  }

  ghost predicate Gone(w: World, key: Key) {
    key in w.tokens && (w.tokens[key].fate == Expired || w.tokens[key].fate == Dropped || w.tokens[key].fate == Lost)
  }

  ghost function Places(w: World, key: Key): nat {
    (if key in w.redis then 1 else 0) + (if InFlight(w, key) then 1 else 0) +
    (if Authenticates(w, key) then 1 else 0) + if Gone(w, key) then 1 else 0
  }

  /**
   Token conservation.  Every token that was ever stored is in exactly one place, and no other is in
   any: in Redis, in flight, handled by an authentication, or (by its history) expired, dropped with a
   finished session, or lost with a reply.  No message is in flight in two places, and no token
   authenticates twice.
   */
  lemma TokenConservation(env: Env, steps: seq<Step>, w: World, key: Key)
    requires Reaches(env, steps, w)
    ensures Places(w, key) == if exists i :: StoredAt(w.log, i, key) then 1 else 0
    ensures forall i, j | StoredAt(w.log, i, key) && StoredAt(w.log, j, key) :: i == j
    ensures forall t, u | Holds(w.gameTasks, t, key) && Holds(w.gameTasks, u, key) :: t == u
    ensures forall id, n, id', n' | Queued(w.game.sessions, id, n, key) && Queued(w.game.sessions, id', n', key) ::
              id == id' && n == n'
    ensures forall t, id, n :: !(Holds(w.gameTasks, t, key) && Queued(w.game.sessions, id, n, key))
    ensures forall i, j, a, b | AuthAt(w.log, i, a, key) && AuthAt(w.log, j, b, key) :: i == j
  {
    StoredOnce(env, steps, w, key);
    FatesAreExact(env, steps, w, key);
    ReachableInv(env, steps, w);
  }

  /** Where a token is, is what its fate says. */
  lemma FatesAreExact(env: Env, steps: seq<Step>, w: World, key: Key)
    requires Reaches(env, steps, w)
    ensures key in w.redis <==> key in w.tokens && w.tokens[key].fate == InRedis
    ensures InFlight(w, key) <==> key in w.tokens && (w.tokens[key].fate.InTask? || w.tokens[key].fate.InChannel?)
    ensures Authenticates(w, key) <==> key in w.tokens && w.tokens[key].fate.Used?
  {
    ReachableInv(env, steps, w);
    forall i, session | AuthAt(w.log, i, session, key) ensures key in w.tokens && w.tokens[key].fate == Used(session) {
      assert AuthBacked(w.log, i, w.tokens);
    }
    if key in w.tokens {
      match w.tokens[key].fate {
        case InTask(t) => assert Holds(w.gameTasks, t, key);
        case InChannel(id, n) => assert Queued(w.game.sessions, id, n, key);
        case Used(session) =>
          assert UseLogged(w.log, w.tokens, key);
          var i :| AuthAt(w.log, i, session, key);
        case _ =>
      }
    }
  }

  /**
   The converse of provenance: while a token is in Redis, taking it yields a result that authenticates
   any session as exactly the row it was issued for, and a second attempt finds nothing.
   */
  lemma StoredTokenIsAccepted(env: Env, steps: seq<Step>, w: World, task: nat, core: G.Core, now: Instant)
    requires Reaches(env, steps, w) && Protocol.Can(env, w, Take(task, true, true))
    requires env.gamePrefix + w.gameTasks[task].work.token in w.redis
    ensures var key := env.gamePrefix + w.gameTasks[task].work.token;
            var w' := DoTake(env, w, task, true, true);
            && key in w.tokens && key !in w'.redis
            && w'.gameTasks[task].Sending? && w'.gameTasks[task].result.token == Some(key)
            && var row, o := w.tokens[key].row, G.OnInner(core, w'.gameTasks[task].result.message, now);
               && o.core == core.(account := Some(Account(row.accountId, row.userId)), lastKeepAlive := now)
               && o.authenticated == Some(row.userId)
               && o.reply == Some(GameConnectResponse(true, 0))
  {
    ReachableInv(env, steps, w);
    var key := env.gamePrefix + w.gameTasks[task].work.token;
    assert key in w.tokens && w.redis[key] == w.tokens[key].value;
    assert TokenTrail(env, w.log, key, w.tokens[key]);
    RoundTrip(Account(w.tokens[key].row.accountId, w.tokens[key].row.userId));
  }

  function Authentications(log: seq<Event>): nat {
    if log == [] then 0 else Authentications(Front(log)) + if Last(log).Authenticated? then 1 else 0
  }

  function TokensUsed(log: seq<Event>): set<Option<Key>> {
    set i | 0 <= i < |log| && log[i].Authenticated? :: log[i].token
  }

  lemma {:induction false} EachUsesItsOwn(log: seq<Event>)
    requires forall i, j | 0 <= i < j < |log| && log[i].Authenticated? && log[j].Authenticated? ::
               log[i].token != log[j].token
    ensures Authentications(log) == |TokensUsed(log)|
  {
    if log == [] {
    } else {
      var before, e := Front(log), Last(log);
      EachUsesItsOwn(before);
      assert forall i | 0 <= i < |before| :: before[i] == log[i];
      if e.Authenticated? {
        assert e.token !in TokensUsed(before);
        assert TokensUsed(log) == TokensUsed(before) + {e.token};
      } else {
        assert TokensUsed(log) == TokensUsed(before);
      }
    }
  }

  /** A set of keys is as large as the same set with `Some` around each. */
  lemma {:induction false} SomeInjective(keys: set<Key>, some: set<Option<Key>>)
    requires forall x | x in some :: x.Some? && x.value in keys
    ensures |some| <= |keys|
    decreases |some|
  {
    if some == {} {
    } else {
      var x :| x in some;
      SomeInjective(keys - {x.value}, some - {x});
    }
  }

  function StoredKeys(log: seq<Event>): set<Key> {
    set i | 0 <= i < |log| && log[i].Stored? :: log[i].key
  }

  /** Game authentications never exceed the tokens that login tasks stored. */
  lemma AuthenticationsBounded(env: Env, steps: seq<Step>, w: World)
    requires Reaches(env, steps, w)
    ensures Authentications(w.log) <= |StoredKeys(w.log)|
  {
    ReachableInv(env, steps, w);
    EachUsesItsOwn(w.log);
    forall x | x in TokensUsed(w.log) ensures x.Some? && x.value in StoredKeys(w.log) {
      var i :| 0 <= i < |w.log| && w.log[i].Authenticated? && w.log[i].token == x;
      assert AuthBacked(w.log, i, w.tokens);
      assert TokenTrail(env, w.log, x.value, w.tokens[x.value]);
      assert w.log[w.tokens[x.value].marks[4]].Stored?;
    }
    SomeInjective(StoredKeys(w.log), TokensUsed(w.log));
  }
}
