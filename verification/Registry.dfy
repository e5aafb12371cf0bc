/**
 The session registry as a value: who is connected, which session a user_id maps to, and which
 connected sessions have had their kick token cancelled.  `SessionRegistry` (below) is the mutable
 object and is proved to compute exactly these functions.
 */
module RegistrySpec {
  import opened Prelude

  datatype Registry = Registry(
    sessions: map<nat, Option<string>>,
    authenticated: map<string, nat>,
    kicked: set<nat>)

  const EMPTY := Registry(map[], map[], {})

  function Register(r: Registry, id: nat, cancelled: bool): Registry {
    r.(sessions := r.sessions[id := None],
       kicked := if cancelled then r.kicked + {id} else r.kicked - {id})
  }

  function Remove(r: Registry, id: nat): Registry {
    if id !in r.sessions then r else
    var user := r.sessions[id];
    r.(sessions := r.sessions - {id},
       kicked := r.kicked - {id},
       authenticated :=
         if user.Some? && Get(r.authenticated, user.value) == Some(id)
         then r.authenticated - {user.value} else r.authenticated)
  }

  /** The session that `Authenticate` kicks, if any. */
  function Victim(r: Registry, id: nat, user: string): Option<nat> {
    match Get(r.authenticated, user)
    case Some(held) => if held != id && held in r.sessions then Some(held) else None
    case None => None
  }

  /** The mappings of an authentication. */
  function Claim(r: Registry, id: nat, user: string): Registry {
    r.(sessions := if id in r.sessions then r.sessions[id := Some(user)] else r.sessions,
       authenticated := r.authenticated[user := id])
  }

  function Authenticate(r: Registry, id: nat, user: string): Registry {
    var victim := Victim(r, id, user);
    if victim.Some? then Kick(Claim(r, id, user), victim.value) else Claim(r, id, user)
  }

  function Kick(r: Registry, id: nat): Registry {
    if id in r.sessions then r.(kicked := r.kicked + {id}) else r
  }

  /** Which sessions are kicked after each operation, and no others. */
  lemma KickedExactly(r: Registry, id: nat, user: string, cancelled: bool, x: nat)
    ensures x in Authenticate(r, id, user).kicked <==>
            x in r.kicked || (x != id && x in r.sessions && Get(r.authenticated, user) == Some(x))
    ensures x in Kick(r, id).kicked <==> x in r.kicked || (x == id && x in r.sessions)
    ensures x in Register(r, id, cancelled).kicked <==> if x == id then cancelled else x in r.kicked
    ensures x in Remove(r, id).kicked <==> x in r.kicked && !(x == id && x in r.sessions)
  {
  }

  /** Whom each user maps to, and what each session carries, after each operation. */
  lemma MappedExactly(r: Registry, id: nat, user: string, cancelled: bool, x: nat, u: string)
    ensures Get(Authenticate(r, id, user).authenticated, u) == if u == user then Some(id) else Get(r.authenticated, u)
    ensures Get(Authenticate(r, id, user).sessions, x) ==
            if x == id && x in r.sessions then Some(Some(user)) else Get(r.sessions, x)
    ensures Get(Remove(r, id).authenticated, u) ==
            if Get(r.sessions, id) == Some(Some(u)) && Get(r.authenticated, u) == Some(id) then None
            else Get(r.authenticated, u)
    ensures Get(Remove(r, id).sessions, x) == if x == id then None else Get(r.sessions, x)
    ensures Get(Register(r, id, cancelled).sessions, x) == if x == id then Some(None) else Get(r.sessions, x)
    ensures Register(r, id, cancelled).authenticated == r.authenticated
    ensures Kick(r, id).sessions == r.sessions && Kick(r, id).authenticated == r.authenticated
  {
  }

  /** A session of `user` that has not been told to stop. */
  predicate Active(r: Registry, id: nat, user: string) {
    id in r.sessions && r.sessions[id] == Some(user) && id !in r.kicked
  }

  /** Every active session of a user is the one the user maps to. */
  ghost predicate Exclusive(r: Registry) {
    forall id: nat, user: string | Active(r, id, user) :: Get(r.authenticated, user) == Some(id)
  }

  lemma AtMostOneActive(r: Registry, a: nat, b: nat, user: string)
    requires Exclusive(r) && Active(r, a, user) && Active(r, b, user)
    ensures a == b
  {
    assert Get(r.authenticated, user) == Some(a);
  }

  /** No operation breaks exclusivity, whatever ids and users it is called with. */
  lemma ExclusivityKept(r: Registry, id: nat, user: string, cancelled: bool)
    requires Exclusive(r)
    ensures Exclusive(Register(r, id, cancelled))
    ensures Exclusive(Remove(r, id))
    ensures Exclusive(Authenticate(r, id, user))
    ensures Exclusive(Kick(r, id))
  {
    forall a: nat, u: string | Active(Register(r, id, cancelled), a, u)
      ensures Get(Register(r, id, cancelled).authenticated, u) == Some(a)
    {
      assert Active(r, a, u);
    }
    forall a: nat, u: string | Active(Remove(r, id), a, u)
      ensures Get(Remove(r, id).authenticated, u) == Some(a)
    {
      assert Active(r, a, u);
    }
    forall a: nat, u: string | Active(Authenticate(r, id, user), a, u)
      ensures Get(Authenticate(r, id, user).authenticated, u) == Some(a)
    {
      if a != id {
        assert Active(r, a, u);
      }
    }
    forall a: nat, u: string | Active(Kick(r, id), a, u)
      ensures Get(Kick(r, id).authenticated, u) == Some(a)
    {
      assert Active(r, a, u);
    }
  }

  /** Every mapping points to a connected session that carries that user_id. */
  ghost predicate IndexAgrees(r: Registry) {
    forall user | user in r.authenticated ::
      r.authenticated[user] in r.sessions && r.sessions[r.authenticated[user]] == Some(user)
  }

  /**
   Authenticating keeps the index in agreement exactly when the session is connected and no other
   user_id still maps to it.  A session that authenticates a second time as someone else leaves a
   stale mapping behind.
   */
  lemma AuthenticateKeepsIndexIff(r: Registry, id: nat, user: string)
    requires IndexAgrees(r)
    ensures IndexAgrees(Authenticate(r, id, user)) <==>
            id in r.sessions &&
            (r.sessions[id].None? || r.sessions[id].value == user ||
             Get(r.authenticated, r.sessions[id].value) != Some(id))
  {
    var r' := Authenticate(r, id, user);
    assert r'.authenticated[user] == id;
    if id in r.sessions && r.sessions[id].Some? && r.sessions[id].value != user
       && Get(r.authenticated, r.sessions[id].value) == Some(id) {
      assert r.sessions[id].value in r'.authenticated;
    }
  }

  /** One session, two users: after it leaves, its first user still maps to it. */
  lemma ReauthenticationLeavesStale()
    ensures var r := Authenticate(Authenticate(Register(EMPTY, 1, false), 1, "ada"), 1, "bob");
            !IndexAgrees(r) && Exclusive(r) &&
            Remove(r, 1) == Registry(map[], map["ada" := 1], {})
  {
    var r0 := Authenticate(Register(EMPTY, 1, false), 1, "ada");
    assert "ada" != "bob";
    var r := Authenticate(r0, 1, "bob");
    assert r.authenticated["ada"] == 1;
    assert r.sessions == map[1 := Some("bob")];
    assert Remove(r, 1).authenticated == map["ada" := 1];
  }

  /** Every other operation keeps the index in agreement; a new id must not be in use. */
  lemma IndexKept(r: Registry, id: nat, cancelled: bool)
    requires IndexAgrees(r)
    ensures IndexAgrees(Remove(r, id)) && IndexAgrees(Kick(r, id))
    ensures id !in r.sessions ==> IndexAgrees(Register(r, id, cancelled))
  {
    var r' := Remove(r, id);
    forall user | user in r'.authenticated
      ensures r'.authenticated[user] in r'.sessions && r'.sessions[r'.authenticated[user]] == Some(user)
    {
      assert user in r.authenticated;
    }
  }
}

/** The mutable registry shared by the session tasks; each method body runs under one lock. */
module SessionRegistries {
  import opened Prelude
  import S = RegistrySpec

  /** A flag that stays set once it is set. */
  class CancellationToken {
    var cancelled: bool

    constructor (cancelled: bool)
      ensures this.cancelled == cancelled
    {
      this.cancelled := cancelled;
    }

    method Cancel()
      modifies this
      ensures cancelled
    {
      cancelled := true;
    }
  }

  datatype Entry = Entry(userId: Option<string>, kick: CancellationToken)

  datatype SessionInfo = SessionInfo(sessionId: nat, userId: Option<string>)

  class SessionRegistry {
    var sessions: map<nat, Entry>
    var authenticated: map<string, nat>

    ghost function Tokens(): set<CancellationToken>
      reads this
    {
      set id | id in sessions :: sessions[id].kick
    }

    /** No two sessions share a kick token. */
    ghost predicate Valid()
      reads this
    {
      forall a, b | a in sessions && b in sessions && a != b :: sessions[a].kick != sessions[b].kick
    }

    ghost function View(): S.Registry
      reads this, Tokens()
    {
      S.Registry(
        map id | id in sessions :: sessions[id].userId,
        authenticated,
        set id | id in sessions && sessions[id].kick.cancelled)
    }

    constructor ()
      ensures Valid() && View() == S.EMPTY
    {
      sessions := map[];
      authenticated := map[];
    }

    method Register(sessionId: nat, kick: CancellationToken)
      modifies this
      ensures View() == S.Register(old(View()), sessionId, kick.cancelled)
      ensures sessionId in sessions && sessions[sessionId].kick == kick
      ensures Tokens() <= old(Tokens()) + {kick}
      ensures old(Valid()) && (forall id | id in old(sessions) && id != sessionId :: old(sessions)[id].kick != kick)
              ==> Valid()
    {
      ghost var after := S.Register(View(), sessionId, kick.cancelled);
      sessions := sessions[sessionId := Entry(None, kick)];
      assert View().sessions == after.sessions;
      assert View().kicked == after.kicked;
    }

    method Remove(sessionId: nat)
      modifies this
      ensures View() == S.Remove(old(View()), sessionId)
      ensures old(Valid()) ==> Valid()
    {
      ghost var before := View();
      if sessionId !in sessions {
        return;
      }
      var entry := sessions[sessionId];
      sessions := sessions - {sessionId};
      if entry.userId.Some? && Get(authenticated, entry.userId.value) == Some(sessionId) {
        authenticated := authenticated - {entry.userId.value};
      }
      assert View().sessions == before.sessions - {sessionId};
      assert View().kicked == before.kicked - {sessionId};
    }

    method Authenticate(sessionId: nat, userId: string)
      requires Valid()
      modifies this, Tokens()
      ensures Valid() && Tokens() == old(Tokens())
      ensures View() == S.Authenticate(old(View()), sessionId, userId)
    {
      var previous := Claim(sessionId, userId);
      if previous.Some? && previous.value != sessionId && previous.value in sessions {
        CancelKick(previous.value);
      }
    }

    /** The mappings of an authentication; the result is whom the user mapped to before. */
    method Claim(sessionId: nat, userId: string) returns (previous: Option<nat>)
      requires Valid()
      modifies this
      ensures Valid() && Tokens() == old(Tokens()) && sessions.Keys == old(sessions).Keys
      ensures previous == Get(old(authenticated), userId)
      ensures View() == S.Claim(old(View()), sessionId, userId)
    {
      ghost var after, entries := S.Claim(View(), sessionId, userId), sessions;
      if sessionId in sessions {
        sessions := sessions[sessionId := sessions[sessionId].(userId := Some(userId))];
      }
      previous := Get(authenticated, userId);
      authenticated := authenticated[userId := sessionId];
      assert forall id | id in sessions :: sessions[id].kick == entries[id].kick;
      SameTokens(entries, sessions);
      assert View().sessions == after.sessions;
      assert View().kicked == after.kicked;
    }

    static lemma SameTokens(a: map<nat, Entry>, b: map<nat, Entry>)
      requires a.Keys == b.Keys && forall id | id in b :: b[id].kick == a[id].kick
      ensures (set id | id in a :: a[id].kick) == (set id | id in b :: b[id].kick)
    {
    }

    method CancelKick(sessionId: nat)
      requires Valid() && sessionId in sessions
      modifies Tokens()
      ensures View() == S.Kick(old(View()), sessionId)
    {
      ghost var after := S.Kick(View(), sessionId);
      assert sessions[sessionId].kick in Tokens();
      sessions[sessionId].kick.Cancel();
      assert View().kicked == after.kicked;
    }

    method Disconnect(sessionId: nat) returns (found: bool)
      requires Valid()
      modifies Tokens()
      ensures Valid() && found == (sessionId in sessions)
      ensures View() == S.Kick(old(View()), sessionId)
    {
      found := sessionId in sessions;
      if found {
        CancelKick(sessionId);
      }
    }

    method Count() returns (n: nat)
      ensures n == |View().sessions|
    {
      n := |sessions|;
      assert View().sessions.Keys == sessions.Keys;
      assert |View().sessions| == |View().sessions.Keys| == |sessions.Keys|;
    }

    /** `info` describes a session that is not in `rest`. */
    ghost predicate Describes(info: SessionInfo, rest: set<nat>)
      reads this
    {
      && info.sessionId in sessions && info.sessionId !in rest
      && info.userId == sessions[info.sessionId].userId
    }

    method Snapshot() returns (infos: seq<SessionInfo>)
      ensures forall info :: info in infos <==>
                (info.sessionId in View().sessions && info.userId == View().sessions[info.sessionId])
      ensures forall i, j | 0 <= i < j < |infos| :: infos[i].sessionId != infos[j].sessionId
    {
      infos := [];
      var rest := sessions.Keys;
      while rest != {}
        invariant rest <= sessions.Keys
        invariant forall info :: info in infos <==> Describes(info, rest)
        invariant forall i, j | 0 <= i < j < |infos| :: infos[i].sessionId != infos[j].sessionId
        decreases rest
      {
        var id :| id in rest;
        ghost var before := infos;
        assert forall info | info in before :: info.sessionId != id;
        infos := infos + [SessionInfo(id, sessions[id].userId)];
        rest := rest - {id};
        forall info ensures info in infos <==> Describes(info, rest) {
          assert info in infos <==> info in before || info == SessionInfo(id, sessions[id].userId);
        }
      }
    }
  }
}
